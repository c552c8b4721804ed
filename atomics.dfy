/** The integer atomics and the vote of the LLVM back end
    (`__ocelot_atom_b32`, `__ocelot_atom_s32`, `__ocelot_atom_b64`,
    `__ocelot_atomcas_b32`, `__ocelot_atomcas_b64`, `__ocelot_vote`).

    Each atomic reads the word `d` at its effective address, stores a new
    value computed from `d` and its operands, and returns `d`. Memory is
    byte-addressed and words are little endian, as on the hosts the
    emulator runs on. The new-value rules follow the atom instruction of
    the NVIDIA PTX ISA (section "Parallel Synchronization and Communication
    Instructions: atom"). */
module Atomics {
  import opened Util
  import opened PtxIR

  /** ir::PTXInstruction::AtomicOperation */
  datatype AtomicOperation =
    | AtomicAnd | AtomicOr | AtomicXor | AtomicCas | AtomicExch
    | AtomicAdd | AtomicInc | AtomicDec | AtomicMin | AtomicMax

  // ---------------------------------------------------------------------
  // Byte memory
  // ---------------------------------------------------------------------

  type u8 = x: int | 0 <= x < 256

  function Pow256(n: nat): (r: nat)
    ensures r > 0
  {
    if n == 0 then 1 else 256 * Pow256(n - 1)
  }

  /** An unwritten byte reads as 0. */
  function Byte(m: map<nat, u8>, a: nat): u8
  {
    if a in m then m[a] else 0
  }

  /** The `n`-byte little-endian value at `a`. */
  function LoadLE(m: map<nat, u8>, a: nat, n: nat): (r: nat)
    ensures r < Pow256(n)
    decreases n
  {
    if n == 0 then 0 else Byte(m, a) + 256 * LoadLE(m, a + 1, n - 1)
  }

  /** Stores the low `n` bytes of `v` at `a`, least significant first. */
  function StoreLE(m: map<nat, u8>, a: nat, n: nat, v: nat): map<nat, u8>
    decreases n
  {
    if n == 0 then m else StoreLE(m[a := v % 256], a + 1, n - 1, v / 256)
  }

  /** A store changes only the bytes it covers. */
  lemma {:induction false} StoreFrame(m: map<nat, u8>, a: nat, n: nat, v: nat, x: nat)
    requires x < a || a + n <= x
    ensures Byte(StoreLE(m, a, n, v), x) == Byte(m, x)
    decreases n
  {
    if n > 0 {
      StoreFrame(m[a := v % 256], a + 1, n - 1, v / 256, x);
    }
  }

  /** Splitting off the low digit of `v` in base `p`. */
  lemma ModSplit(v: nat, p: nat, q: nat)
    requires p > 0 && q > 0
    ensures v % p + p * ((v / p) % q) == v % (p * q)
  {
    var hi := v / p;
    var r := v % p + p * (hi % q);
    assert v == p * hi + v % p;
    assert hi == q * (hi / q) + hi % q;
    assert v == (p * q) * (hi / q) + r by {
      assert p * hi == p * (q * (hi / q)) + p * (hi % q);
      assert p * (q * (hi / q)) == (p * q) * (hi / q);
    }
    assert p * (hi % q) <= p * (q - 1) by {
      MulMonotone(p, hi % q, q - 1);
    }
    assert p * (q - 1) == p * q - p;
    DivModUnique(v, p * q, hi / q, r);
  }

  /** Loading what was just stored gives back the stored value, reduced to
      the width of the access. */
  lemma {:induction false} LoadAfterStore(m: map<nat, u8>, a: nat, n: nat, v: nat)
    ensures LoadLE(StoreLE(m, a, n, v), a, n) == v % Pow256(n)
    decreases n
  {
    if n > 0 {
      var m1 := m[a := v % 256];
      var s := StoreLE(m1, a + 1, n - 1, v / 256);
      assert s == StoreLE(m, a, n, v);
      StoreFrame(m1, a + 1, n - 1, v / 256, a);
      LoadAfterStore(m1, a + 1, n - 1, v / 256);
      ModSplit(v, 256, Pow256(n - 1));
    }
  }

  /** A load of bytes a store did not cover sees the old memory. */
  lemma {:induction false} LoadBesideStore(m: map<nat, u8>, a: nat, n: nat, v: nat, b: nat, k: nat)
    requires b + k <= a || a + n <= b
    ensures LoadLE(StoreLE(m, a, n, v), b, k) == LoadLE(m, b, k)
    decreases k
  {
    if k > 0 {
      StoreFrame(m, a, n, v, b);
      LoadBesideStore(m, a, n, v, b + 1, k - 1);
    }
  }

  function Load32(m: map<nat, u8>, a: nat): u32
  {
    assert Pow256(4) == TwoTo32;
    LoadLE(m, a, 4)
  }

  function Load64(m: map<nat, u8>, a: nat): u64
  {
    assert Pow256(8) == TwoTo64;
    LoadLE(m, a, 8)
  }

  /** The signed view of a 32-bit word (two's complement). */
  function S32Of(w: u32): s32
  {
    if w < 0x8000_0000 then w else w - TwoTo32
  }

  function WordOfS32(x: s32): u32
  {
    if x >= 0 then x else x + TwoTo32
  }

  lemma SignedRoundTrip(x: s32, w: u32)
    ensures S32Of(WordOfS32(x)) == x
    ensures WordOfS32(S32Of(w)) == w
  {
  }

  /** `address += context->shared` for the shared space, in 64 bits. */
  function EffectiveAddress(space: AddressSpace, address: u64, shared: u64): (r: u64)
    ensures space != Shared ==> r == address
    ensures space == Shared ==> r == address + shared || r == address + shared - TwoTo64
  {
    if space == Shared then
      if address + shared < TwoTo64 then
        DivSmall(address + shared, TwoTo64);
        (address + shared) % TwoTo64
      else
        DivModUnique(address + shared, TwoTo64, 1, address + shared - TwoTo64);
        (address + shared) % TwoTo64
    else address
  }

  // ---------------------------------------------------------------------
  // New-value rules; None is the assertM of an unsupported operation
  // ---------------------------------------------------------------------

  /** atom.inc: counts up to `b`, then wraps to 0. */
  function Increment(d: u32, b: u32): u32
  {
    if d >= b then 0 else d + 1
  }

  /** atom.dec: counts down to 0, then wraps to `b`; a value above `b`
      also restarts at `b`. */
  function Decrement(d: u32, b: u32): u32
  {
    if d == 0 || d > b then b else d - 1
  }

  /** Increment and decrement never leave [0, b]. */
  lemma CountersBounded(d: u32, b: u32)
    ensures Increment(d, b) <= b && Decrement(d, b) <= b
    ensures Increment(d, b) == 0 <==> d >= b
    ensures Decrement(d, b) == b <==> d == 0 || d > b
  {
  }

  /** On [0, b] increment and decrement undo each other: the counter is a
      cycle 0, 1, ..., b, 0 walked in either direction. */
  lemma CountersInverse(d: u32, b: u32)
    requires d <= b
    ensures Decrement(Increment(d, b), b) == d
    ensures Increment(Decrement(d, b), b) == d
  {
  }

  function BitAnd32(x: u32, y: u32): u32
  {
    ((x as bv32) & (y as bv32)) as int
  }

  function BitOr32(x: u32, y: u32): u32
  {
    ((x as bv32) | (y as bv32)) as int
  }

  function BitXor32(x: u32, y: u32): u32
  {
    ((x as bv32) ^ (y as bv32)) as int
  }

  function MinU32(x: u32, y: u32): u32 { if y < x then y else x }
  function MaxU32(x: u32, y: u32): u32 { if x < y then y else x }

  /** The new value of `__ocelot_atom_b32`. */
  function NewB32(op: AtomicOperation, d: u32, b: u32): (r: Option<u32>)
    ensures r.Some? <==> op != AtomicCas
    ensures op == AtomicAdd ==> r.value == (d + b) % TwoTo32
    ensures op == AtomicMin ==> r.value <= d && r.value <= b && (r.value == d || r.value == b)
    ensures op == AtomicMax ==> r.value >= d && r.value >= b && (r.value == d || r.value == b)
  {
    match op
    case AtomicAnd => Some(BitAnd32(d, b))
    case AtomicOr => Some(BitOr32(d, b))
    case AtomicXor => Some(BitXor32(d, b))
    case AtomicAdd => Some((d + b) % TwoTo32)
    case AtomicMin => Some(MinU32(d, b))
    case AtomicMax => Some(MaxU32(d, b))
    case AtomicDec => Some(Decrement(d, b))
    case AtomicInc => Some(Increment(d, b))
    case AtomicExch => Some(b)
    case AtomicCas => None
  }

  /** Signed 32-bit addition as the hardware performs it: modulo 2^32, so
      the exact sum when it fits and the sum moved by 2^32 when it does
      not. */
  function AddS32(x: s32, y: s32): (r: s32)
    ensures r == x + y || r == x + y - TwoTo32 || r == x + y + TwoTo32
    ensures -0x8000_0000 <= x + y < 0x8000_0000 ==> r == x + y
  {
    var w := (x + y) % TwoTo32;
    if x + y >= 0 then
      DivSmall(x + y, TwoTo32);
      if w < 0x8000_0000 then w else w - TwoTo32
    else
      DivModUnique(x + y, TwoTo32, -1, x + y + TwoTo32);
      if w < 0x8000_0000 then w else w - TwoTo32
  }

  /** The new value of `__ocelot_atom_s32`: add, min and max only. */
  function NewS32(op: AtomicOperation, d: s32, b: s32): (r: Option<s32>)
    ensures r.Some? <==> op in {AtomicAdd, AtomicMin, AtomicMax}
    ensures op == AtomicMin ==> r.value <= d && r.value <= b && (r.value == d || r.value == b)
    ensures op == AtomicMax ==> r.value >= d && r.value >= b && (r.value == d || r.value == b)
    ensures op == AtomicAdd ==> r.value == AddS32(d, b)
  {
    match op
    case AtomicAdd => Some(AddS32(d, b))
    case AtomicMin => Some(if b < d then b else d)
    case AtomicMax => Some(if d < b then b else d)
    case _ => None
  }

  /** The new value of `__ocelot_atom_b64`: add and exch only. */
  function NewB64(op: AtomicOperation, d: u64, b: u64): (r: Option<u64>)
    ensures r.Some? <==> op in {AtomicAdd, AtomicExch}
    ensures op == AtomicAdd ==> r.value == (d + b) % TwoTo64
    ensures op == AtomicExch ==> r.value == b
  {
    match op
    case AtomicAdd => Some((d + b) % TwoTo64)
    case AtomicExch => Some(b)
    case _ => None
  }

  /** atom.cas: `c` replaces `d` exactly when `d` equals `b`. */
  function CompareAndSwap(d: nat, b: nat, c: nat): (r: nat)
    ensures r == c || r == d
    ensures (r == c && c != d) ==> d == b
    ensures d == b ==> r == c
  {
    if d == b then c else d
  }

  /** A second compare-and-swap with the same operands changes nothing more
      once the first one has succeeded and `b != c`, and an unsuccessful one
      leaves the word alone. */
  lemma CompareAndSwapSettles(d: nat, b: nat, c: nat)
    requires b != c
    ensures CompareAndSwap(CompareAndSwap(d, b, c), b, c) == CompareAndSwap(d, b, c)
  {
  }

  // ---------------------------------------------------------------------
  // Vote
  // ---------------------------------------------------------------------

  /** ir::PTXInstruction::VoteMode; every other mode takes the default
      branch. */
  datatype VoteMode = All | Any | Uni | OtherVoteMode

  /** `__ocelot_vote` for one thread: all and any are the (possibly
      inverted) predicate; uni and every other mode are true. */
  function Vote(a: bool, mode: VoteMode, invert: bool): bool
  {
    var p := if invert then !a else a;
    match mode
    case All => p
    case Any => p
    case _ => true
  }

  /** For a single thread, vote.all and vote.any agree, inversion flips
      them, and vote.uni holds: the group of one is uniform. */
  lemma VoteSingleThread(a: bool, invert: bool)
    ensures Vote(a, All, invert) == Vote(a, Any, invert) == (a != invert)
    ensures Vote(a, All, !invert) == !Vote(a, All, invert)
    ensures Vote(a, Uni, invert) && Vote(a, OtherVoteMode, invert)
  {
  }

  // ---------------------------------------------------------------------
  // The atomics on memory
  // ---------------------------------------------------------------------

  /** The memory the translated kernel addresses, byte by byte. */
  class Memory {
    var bytes: map<nat, u8>

    constructor(bytes: map<nat, u8>)
      ensures this.bytes == bytes
    {
      this.bytes := bytes;
    }

    /** `__ocelot_atom_b32`: returns the old word, stores the new one and
        touches no other byte. An operation the b32 form does not support
        reaches the `default:` of the switch, whose assertion is compiled
        out in a release build: nothing is read or stored and 0 is
        returned. */
    method AtomB32(shared: u64, space: AddressSpace, op: AtomicOperation, address: u64, b: u32) returns (d: u32)
      modifies this
      ensures op == AtomicCas ==> d == 0 && bytes == old(bytes)
      ensures var a := EffectiveAddress(space, address, shared);
        op != AtomicCas ==>
        && d == Load32(old(bytes), a)
        && bytes == StoreLE(old(bytes), a, 4, NewB32(op, d, b).value)
        && Load32(bytes, a) == NewB32(op, d, b).value
        && forall x: nat :: (x < a || a + 4 <= x) ==> Byte(bytes, x) == Byte(old(bytes), x)
    {
      var a := address;
      if space == Shared {
        a := (a + shared) % TwoTo64;
      }
      if op == AtomicCas {
        return 0;
      }
      d := Load32(bytes, a);
      var v := NewB32(op, d, b).value;
      bytes := StoreLE(bytes, a, 4, v);
      Written(old(bytes), a, 4, v);
    }

    /** `__ocelot_atom_s32`: the word is read and written as a signed
        value. Any operation but add, min and max takes the `default:`
        path: 0 is returned and memory is left alone. */
    method AtomS32(shared: u64, space: AddressSpace, op: AtomicOperation, address: u64, b: s32) returns (d: s32)
      modifies this
      ensures op !in {AtomicAdd, AtomicMin, AtomicMax} ==> d == 0 && bytes == old(bytes)
      ensures var a := EffectiveAddress(space, address, shared);
        op in {AtomicAdd, AtomicMin, AtomicMax} ==>
        && d == S32Of(Load32(old(bytes), a))
        && bytes == StoreLE(old(bytes), a, 4, WordOfS32(NewS32(op, d, b).value))
        && S32Of(Load32(bytes, a)) == NewS32(op, d, b).value
        && forall x: nat :: (x < a || a + 4 <= x) ==> Byte(bytes, x) == Byte(old(bytes), x)
    {
      var a := address;
      if space == Shared {
        a := (a + shared) % TwoTo64;
      }
      if op !in {AtomicAdd, AtomicMin, AtomicMax} {
        return 0;
      }
      d := S32Of(Load32(bytes, a));
      var v := NewS32(op, d, b).value;
      bytes := StoreLE(bytes, a, 4, WordOfS32(v));
      Written(old(bytes), a, 4, WordOfS32(v));
      SignedRoundTrip(v, 0);
    }

    /** `__ocelot_atom_b64`: add and exch; any other operation takes the
        `default:` path, returning 0 with memory left alone. */
    method AtomB64(shared: u64, space: AddressSpace, op: AtomicOperation, address: u64, b: u64) returns (d: u64)
      modifies this
      ensures op !in {AtomicAdd, AtomicExch} ==> d == 0 && bytes == old(bytes)
      ensures var a := EffectiveAddress(space, address, shared);
        op in {AtomicAdd, AtomicExch} ==>
        && d == Load64(old(bytes), a)
        && bytes == StoreLE(old(bytes), a, 8, NewB64(op, d, b).value)
        && Load64(bytes, a) == NewB64(op, d, b).value
        && forall x: nat :: (x < a || a + 8 <= x) ==> Byte(bytes, x) == Byte(old(bytes), x)
    {
      var a := address;
      if space == Shared {
        a := (a + shared) % TwoTo64;
      }
      if op !in {AtomicAdd, AtomicExch} {
        return 0;
      }
      d := Load64(bytes, a);
      var v := NewB64(op, d, b).value;
      bytes := StoreLE(bytes, a, 8, v);
      Written(old(bytes), a, 8, v);
    }

    /** `__ocelot_atomcas_b32`. The C++ asserts that the operation is cas;
        with the assertion compiled out, the swap is done whatever `op`
        says. */
    method AtomCasB32(shared: u64, space: AddressSpace, op: AtomicOperation, address: u64, b: u32, c: u32) returns (d: u32)
      modifies this
      ensures var a := EffectiveAddress(space, address, shared);
        && d == Load32(old(bytes), a)
        && bytes == StoreLE(old(bytes), a, 4, CompareAndSwap(d, b, c))
        && Load32(bytes, a) == CompareAndSwap(d, b, c)
        && forall x: nat :: (x < a || a + 4 <= x) ==> Byte(bytes, x) == Byte(old(bytes), x)
    {
      var a := address;
      if space == Shared {
        a := (a + shared) % TwoTo64;
      }
      d := Load32(bytes, a);
      var v := CompareAndSwap(d, b, c);
      bytes := StoreLE(bytes, a, 4, v);
      Written(old(bytes), a, 4, v);
    }

    /** `__ocelot_atomcas_b64`, like the b32 form. */
    method AtomCasB64(shared: u64, space: AddressSpace, op: AtomicOperation, address: u64, b: u64, c: u64) returns (d: u64)
      modifies this
      ensures var a := EffectiveAddress(space, address, shared);
        && d == Load64(old(bytes), a)
        && bytes == StoreLE(old(bytes), a, 8, CompareAndSwap(d, b, c))
        && Load64(bytes, a) == CompareAndSwap(d, b, c)
        && forall x: nat :: (x < a || a + 8 <= x) ==> Byte(bytes, x) == Byte(old(bytes), x)
    {
      var a := address;
      if space == Shared {
        a := (a + shared) % TwoTo64;
      }
      d := Load64(bytes, a);
      var v := CompareAndSwap(d, b, c);
      bytes := StoreLE(bytes, a, 8, v);
      Written(old(bytes), a, 8, v);
    }
  }

  /** What a word store leaves behind: the value reads back, and every byte
      outside the word is unchanged. */
  lemma Written(m: map<nat, u8>, a: nat, n: nat, v: nat)
    requires v < Pow256(n)
    ensures LoadLE(StoreLE(m, a, n, v), a, n) == v
    ensures forall x: nat :: (x < a || a + n <= x) ==> Byte(StoreLE(m, a, n, v), x) == Byte(m, x)
  {
    LoadAfterStore(m, a, n, v);
    DivSmall(v, Pow256(n));
    forall x: nat | x < a || a + n <= x
      ensures Byte(StoreLE(m, a, n, v), x) == Byte(m, x)
    {
      StoreFrame(m, a, n, v, x);
    }
  }
}
