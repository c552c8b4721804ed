/** The specifications behind LLVMExecutableKernel's memory allocators:
    alignment padding, sequential placement of variables, the name-to-offset
    maps (std::map::insert never overwrites), the rewriting of the address
    operands of mov/ld/st, and the dense numbering of textures. */
module MemoryLayout {
  import opened Util
  import opened PtxIR

  // ---------------------------------------------------------------------
  // Padding (LLVMExecutableKernel::_pad)
  // ---------------------------------------------------------------------

  /** The padding `_pad` adds to `size`: `alignment - size % alignment`,
      turned into 0 when that equals the alignment. */
  function Padding(size: nat, alignment: nat): (p: nat)
    requires alignment > 0
    ensures p < alignment
    ensures (size + p) % alignment == 0
    ensures p == 0 <==> size % alignment == 0
  {
    var padding := alignment - size % alignment;
    if padding == alignment then 0
    else
      DivModUnique(size + padding, alignment, size / alignment + 1, 0);
      padding
  }

  /** No smaller padding reaches a multiple of the alignment. */
  lemma PaddingIsLeast(size: nat, alignment: nat, q: nat)
    requires alignment > 0 && q < Padding(size, alignment)
    ensures (size + q) % alignment != 0
  {
    var r := size % alignment;
    assert size == (size / alignment) * alignment + r;
    DivModUnique(size + q, alignment, size / alignment, r + q);
  }

  // ---------------------------------------------------------------------
  // Sequential placement
  // ---------------------------------------------------------------------

  /** A variable to be placed: its name, getSize()/bytes() and alignment. */
  datatype Slot = Slot(name: string, size: nat, alignment: nat)

  predicate Alignable(slots: seq<Slot>)
  {
    forall i :: 0 <= i < |slots| ==> slots[i].alignment > 0
  }

  datatype Placement = Placement(offsets: seq<nat>, end: nat)

  /** What the allocator loops compute: starting from `start`, each slot is
      padded to its alignment, placed, and the running size grows by its
      size. `end` is the final running size. */
  function Place(slots: seq<Slot>, start: nat): (r: Placement)
    requires Alignable(slots)
    ensures |r.offsets| == |slots|
    decreases |slots|
  {
    if slots == [] then Placement([], start)
    else
      var offset := start + Padding(start, slots[0].alignment);
      var rest := Place(slots[1..], offset + slots[0].size);
      Placement([offset] + rest.offsets, rest.end)
  }

  /** Every slot is placed at a multiple of its alignment. */
  lemma {:induction false} PlaceAligned(slots: seq<Slot>, start: nat)
    requires Alignable(slots)
    ensures forall i :: 0 <= i < |slots| ==>
      Place(slots, start).offsets[i] % slots[i].alignment == 0
    decreases |slots|
  {
    if slots != [] {
      var offset := start + Padding(start, slots[0].alignment);
      PlaceAligned(slots[1..], offset + slots[0].size);
      var p := Place(slots, start);
      assert p.offsets[1..] == Place(slots[1..], offset + slots[0].size).offsets;
      forall i | 0 <= i < |slots|
        ensures p.offsets[i] % slots[i].alignment == 0
      {
        if i > 0 {
          assert p.offsets[i] == Place(slots[1..], offset + slots[0].size).offsets[i - 1];
        }
      }
    }
  }

  /** Every slot lies inside [start, end). */
  lemma {:induction false} PlaceBounds(slots: seq<Slot>, start: nat)
    requires Alignable(slots)
    ensures var p := Place(slots, start);
      forall i :: 0 <= i < |slots| ==> start <= p.offsets[i] && p.offsets[i] + slots[i].size <= p.end
    ensures start <= Place(slots, start).end
    decreases |slots|
  {
    if slots != [] {
      var offset := start + Padding(start, slots[0].alignment);
      var next := offset + slots[0].size;
      PlaceBounds(slots[1..], next);
      var p := Place(slots, start);
      var q := Place(slots[1..], next);
      forall i | 0 <= i < |slots|
        ensures start <= p.offsets[i] && p.offsets[i] + slots[i].size <= p.end
      {
        if i > 0 {
          assert p.offsets[i] == q.offsets[i - 1];
          assert slots[1..][i - 1] == slots[i];
        }
      }
    }
  }

  /** Slots lie in declaration order without overlap. */
  lemma {:induction false} PlaceDisjoint(slots: seq<Slot>, start: nat)
    requires Alignable(slots)
    ensures var p := Place(slots, start);
      forall i, j :: 0 <= i < j < |slots| ==> p.offsets[i] + slots[i].size <= p.offsets[j]
    decreases |slots|
  {
    if slots != [] {
      var offset := start + Padding(start, slots[0].alignment);
      var next := offset + slots[0].size;
      PlaceDisjoint(slots[1..], next);
      PlaceBounds(slots[1..], next);
      var p := Place(slots, start);
      var q := Place(slots[1..], next);
      forall i, j | 0 <= i < j < |slots|
        ensures p.offsets[i] + slots[i].size <= p.offsets[j]
      {
        assert p.offsets[j] == q.offsets[j - 1];
        if i > 0 {
          assert p.offsets[i] == q.offsets[i - 1];
          assert slots[1..][i - 1] == slots[i];
        }
      }
    }
  }

  /** The final size is the last slot's offset plus its size. */
  lemma {:induction false} PlaceEnd(slots: seq<Slot>, start: nat)
    requires Alignable(slots)
    ensures |slots| == 0 ==> Place(slots, start).end == start
    ensures |slots| > 0 ==>
      Place(slots, start).end == Place(slots, start).offsets[|slots| - 1] + slots[|slots| - 1].size
    decreases |slots|
  {
    if slots != [] {
      var offset := start + Padding(start, slots[0].alignment);
      var next := offset + slots[0].size;
      PlaceEnd(slots[1..], next);
      if |slots| > 1 {
        assert slots[1..][|slots| - 2] == slots[|slots| - 1];
        assert Place(slots, start).offsets[|slots| - 1] == Place(slots[1..], next).offsets[|slots| - 2];
      }
    }
  }

  function SumSizes(slots: seq<Slot>): nat
  {
    if slots == [] then 0 else slots[0].size + SumSizes(slots[1..])
  }

  /** The paddings the placement inserts, in order. */
  function Paddings(slots: seq<Slot>, start: nat): (r: seq<nat>)
    requires Alignable(slots)
    ensures |r| == |slots|
    ensures forall i :: 0 <= i < |slots| ==> r[i] < slots[i].alignment
    decreases |slots|
  {
    if slots == [] then []
    else
      var pad := Padding(start, slots[0].alignment);
      var rest := Paddings(slots[1..], start + pad + slots[0].size);
      assert forall i :: 1 <= i < |slots| ==> slots[i] == slots[1..][i - 1];
      [pad] + rest
  }

  function Sum(s: seq<nat>): nat
  {
    if s == [] then 0 else s[0] + Sum(s[1..])
  }

  /** The final size is the start plus every size plus every padding. */
  lemma {:induction false} PlaceTotal(slots: seq<Slot>, start: nat)
    requires Alignable(slots)
    ensures Place(slots, start).end == start + SumSizes(slots) + Sum(Paddings(slots, start))
    decreases |slots|
  {
    if slots != [] {
      var pad := Padding(start, slots[0].alignment);
      PlaceTotal(slots[1..], start + pad + slots[0].size);
      assert Paddings(slots, start)[1..] == Paddings(slots[1..], start + pad + slots[0].size);
    }
  }

  lemma PlaceCons(x: Slot, rest: seq<Slot>, start: nat)
    requires x.alignment > 0 && Alignable(rest)
    ensures Alignable([x] + rest)
    ensures var offset := start + Padding(start, x.alignment);
      var q := Place(rest, offset + x.size);
      Place([x] + rest, start) == Placement([offset] + q.offsets, q.end)
  {
    assert ([x] + rest)[1..] == rest;
  }

  /** Placing `a` then `b` is placing `a + b`. */
  lemma {:induction false} PlaceAppend(a: seq<Slot>, b: seq<Slot>, start: nat)
    requires Alignable(a) && Alignable(b)
    ensures Alignable(a + b)
    ensures var pa := Place(a, start); var pb := Place(b, pa.end);
      Place(a + b, start) == Placement(pa.offsets + pb.offsets, pb.end)
    decreases |a|
  {
    if a == [] {
      assert a + b == b;
    } else {
      var x, rest := a[0], a[1..];
      var offset: nat := start + Padding(start, x.alignment);
      var next: nat := offset + x.size;
      var ab := a + b;
      assert ab[0] == x;
      assert ab[1..] == rest + b;
      PlaceAppend(rest, b, next);
      PlaceHead(a, start, offset, next);
      PlaceHead(ab, start, offset, next);
      var pr := Place(rest, next);
      var pb := Place(b, pr.end);
      assert ([offset] + pr.offsets) + pb.offsets == [offset] + (pr.offsets + pb.offsets);
    }
  }

  /** The first slot of a non-empty list goes to its padded offset and the
      rest follow from the end of that slot. */
  lemma PlaceHead(slots: seq<Slot>, start: nat, offset: nat, next: nat)
    requires Alignable(slots) && slots != []
    requires offset == start + Padding(start, slots[0].alignment)
    requires next == offset + slots[0].size
    ensures Alignable(slots[1..])
    ensures Place(slots, start).offsets == [offset] + Place(slots[1..], next).offsets
    ensures Place(slots, start).end == Place(slots[1..], next).end
  {
  }

  // ---------------------------------------------------------------------
  // Name-to-offset maps (insert never overwrites)
  // ---------------------------------------------------------------------

  /** std::map::insert: an existing key keeps its value. */
  function Insert<K, V>(m: map<K, V>, k: K, v: V): (r: map<K, V>)
    ensures r.Keys == m.Keys + {k}
    ensures forall x :: x in m ==> r[x] == m[x]
    ensures k !in m ==> r[k] == v
  {
    if k in m then m else m[k := v]
  }

  function InsertAll<K, V>(m: map<K, V>, ks: seq<K>, vs: seq<V>): map<K, V>
    requires |ks| == |vs|
    decreases |ks|
  {
    if ks == [] then m else InsertAll(Insert(m, ks[0], vs[0]), ks[1..], vs[1..])
  }

  /** Inserting pairs in order: the keys are the old keys plus the new ones,
      old keys keep their values, and a new key gets the value paired with
      its FIRST occurrence. */
  lemma {:induction false} InsertAllLookup<K, V>(m: map<K, V>, ks: seq<K>, vs: seq<V>)
    requires |ks| == |vs|
    ensures InsertAll(m, ks, vs).Keys == m.Keys + (set k | k in ks)
    ensures forall x :: x in m ==> InsertAll(m, ks, vs)[x] == m[x]
    ensures forall i :: 0 <= i < |ks| && ks[i] !in m && ks[i] !in ks[..i] ==>
      InsertAll(m, ks, vs)[ks[i]] == vs[i]
    decreases |ks|
  {
    if ks != [] {
      var m1 := Insert(m, ks[0], vs[0]);
      InsertAllLookup(m1, ks[1..], vs[1..]);
      assert (set k | k in ks) == {ks[0]} + (set k | k in ks[1..]);
      forall i | 0 <= i < |ks| && ks[i] !in m && ks[i] !in ks[..i]
        ensures InsertAll(m, ks, vs)[ks[i]] == vs[i]
      {
        if i > 0 {
          assert ks[0] in ks[..i];
          assert ks[1..][i - 1] == ks[i];
          assert ks[1..][..i - 1] == ks[1..i];
          assert ks[i] !in m1;
        }
      }
    }
  }

  lemma InsertAllCons<K, V>(m: map<K, V>, k: K, ks: seq<K>, v: V, vs: seq<V>)
    requires |ks| == |vs|
    ensures InsertAll(m, [k] + ks, [v] + vs) == InsertAll(Insert(m, k, v), ks, vs)
  {
    assert ([k] + ks)[1..] == ks && ([v] + vs)[1..] == vs;
  }

  /** The names of a slot list, in order. */
  function Names(slots: seq<Slot>): (r: seq<string>)
    ensures |r| == |slots|
    ensures forall i :: 0 <= i < |slots| ==> r[i] == slots[i].name
  {
    seq(|slots|, i requires 0 <= i < |slots| => slots[i].name)
  }

  lemma NamesCons(x: Slot, rest: seq<Slot>)
    ensures Names([x] + rest) == [x.name] + Names(rest)
  {
    assert forall i :: 1 <= i < |rest| + 1 ==> ([x] + rest)[i] == rest[i - 1];
  }

  lemma NamesAppend(a: seq<Slot>, b: seq<Slot>)
    ensures Names(a + b) == Names(a) + Names(b)
  {
    assert forall i :: 0 <= i < |a + b| ==> Names(a + b)[i] == (Names(a) + Names(b))[i];
  }

  /** The map an allocator builds: every slot's name to its offset. */
  function OffsetMap(slots: seq<Slot>, start: nat, m: map<string, nat>): map<string, nat>
    requires Alignable(slots)
  {
    InsertAll(m, Names(slots), Place(slots, start).offsets)
  }

  /** One allocator iteration: placing `x` first pads the running size,
      records `x` at the padded size and continues after it. */
  lemma OffsetMapCons(x: Slot, rest: seq<Slot>, start: nat, m: map<string, nat>)
    requires x.alignment > 0 && Alignable(rest)
    ensures Alignable([x] + rest)
    ensures var offset := start + Padding(start, x.alignment);
      && Place([x] + rest, start) == Placement([offset] + Place(rest, offset + x.size).offsets, Place(rest, offset + x.size).end)
      && OffsetMap([x] + rest, start, m) == OffsetMap(rest, offset + x.size, Insert(m, x.name, offset))
  {
    var offset := start + Padding(start, x.alignment);
    PlaceCons(x, rest, start);
    NamesCons(x, rest);
    InsertAllCons(m, x.name, Names(rest), offset, Place(rest, offset + x.size).offsets);
  }

  /** An allocator loop at slot `i`, with the placement of the remaining
      slots known to be the tail of `p` and the map known to complete to
      `final`: slot `i` goes to its padded offset, which is p's offset `i`,
      and the loop continues with the next suffix. */
  lemma PlaceSuffixStep(slots: seq<Slot>, i: nat, size: nat, m: map<string, nat>, p: Placement, final: map<string, nat>,
                        offset: nat, size1: nat, m1: map<string, nat>)
    requires Alignable(slots) && i < |slots| && i <= |p.offsets|
    requires Place(slots[i..], size) == Placement(p.offsets[i..], p.end)
    requires OffsetMap(slots[i..], size, m) == final
    requires offset == size + Padding(size, slots[i].alignment)
    requires size1 == offset + slots[i].size
    requires m1 == if slots[i].name in m then m else m[slots[i].name := offset]
    ensures i < |p.offsets| && p.offsets[i] == offset
    ensures Place(slots[i + 1..], size1) == Placement(p.offsets[i + 1..], p.end)
    ensures OffsetMap(slots[i + 1..], size1, m1) == final
  {
    assert slots[i..] == [slots[i]] + slots[i + 1..];
    OffsetMapCons(slots[i], slots[i + 1..], size, m);
    assert p.offsets[i..] == [p.offsets[i]] + p.offsets[i + 1..];
  }

  /** At the end of an allocator loop the map is complete. */
  lemma PlaceSuffixDone(slots: seq<Slot>, size: nat, m: map<string, nat>)
    requires Alignable(slots)
    ensures OffsetMap(slots[|slots|..], size, m) == m
  {
    assert slots[|slots|..] == [];
  }

  // ---------------------------------------------------------------------
  // Operand rewriting (mov / ld / st address operands)
  // ---------------------------------------------------------------------

  /** An operand the allocator maps: address mode, identifier in the map. */
  predicate Hits(o: Operand, m: map<string, nat>)
  {
    o.addressMode == Address && o.identifier in m
  }

  /** A mapped operand's offset grows by the mapped offset; nothing else about
      any operand changes. */
  function Displace(o: Operand, m: map<string, nat>): (r: Operand)
    ensures r == o.(offset := r.offset)
    ensures Hits(o, m) ==> r.offset == o.offset + m[o.identifier]
    ensures !Hits(o, m) ==> r == o
  {
    if Hits(o, m) then o.(offset := o.offset + m[o.identifier]) else o
  }

  /** One iteration of the operand loop: a mapped operand is displaced and,
      when the allocator names a space, the instruction moves to it. */
  function RewriteSlot(ins: Instruction, m: map<string, nat>, space: Option<AddressSpace>, slot: nat): Instruction
    requires slot < 4
  {
    var o := OperandAt(ins, slot);
    if Hits(o, m) then
      var r := WithOperand(ins, slot, Displace(o, m));
      if space.Some? then r.(addressSpace := space.value) else r
    else ins
  }

  /** The operand loop from `slot` to the end. */
  function RewriteFrom(ins: Instruction, m: map<string, nat>, space: Option<AddressSpace>, slot: nat): Instruction
    requires slot <= 4
    decreases 4 - slot
  {
    if slot == 4 then ins else RewriteFrom(RewriteSlot(ins, m, space, slot), m, space, slot + 1)
  }

  /** The operand loop from `slot` is slot `slot` and then the loop from
      the next slot. */
  lemma RewriteFromStep(ins: Instruction, m: map<string, nat>, space: Option<AddressSpace>, slot: nat,
                        next: Instruction, result: Instruction)
    requires slot < 4 && next == RewriteSlot(ins, m, space, slot)
    requires result == RewriteFrom(next, m, space, slot + 1)
    ensures result == RewriteFrom(ins, m, space, slot)
  {
  }

  /** What an allocator does to one instruction. */
  function Rewrite(ins: Instruction, m: map<string, nat>, space: Option<AddressSpace>): Instruction
  {
    if IsMemoryMove(ins.opcode) then RewriteFrom(ins, m, space, 0) else ins
  }

  function RewriteAll(instrs: seq<Instruction>, m: map<string, nat>, space: Option<AddressSpace>): (r: seq<Instruction>)
    ensures |r| == |instrs|
    ensures forall k :: 0 <= k < |instrs| ==> r[k] == Rewrite(instrs[k], m, space)
  {
    seq(|instrs|, k requires 0 <= k < |instrs| => Rewrite(instrs[k], m, space))
  }

  predicate HitsFrom(ins: Instruction, m: map<string, nat>, slot: nat)
    requires slot <= 4
  {
    exists s :: slot <= s < 4 && Hits(OperandAt(ins, s), m)
  }

  lemma {:induction false} RewriteFromEffect(ins: Instruction, m: map<string, nat>, space: Option<AddressSpace>, slot: nat)
    requires slot <= 4
    ensures var r := RewriteFrom(ins, m, space, slot);
      && r.opcode == ins.opcode && r.dataType == ins.dataType && r.modifier == ins.modifier
      && (forall s :: 0 <= s < slot ==> OperandAt(r, s) == OperandAt(ins, s))
      && (forall s :: slot <= s < 4 ==> OperandAt(r, s) == Displace(OperandAt(ins, s), m))
      && r.addressSpace == (if space.Some? && HitsFrom(ins, m, slot) then space.value else ins.addressSpace)
    decreases 4 - slot
  {
    if slot < 4 {
      var ins1 := RewriteSlot(ins, m, space, slot);
      RewriteSlotEffect(ins, m, space, slot);
      RewriteFromEffect(ins1, m, space, slot + 1);
      HitsFromStep(ins, m, slot);
      HitsFromSame(ins1, ins, m, slot + 1);
    }
  }

  /** One slot of the operand loop: only that operand may change, by
      `Displace`, and the instruction moves to the space iff it hits. */
  lemma RewriteSlotEffect(ins: Instruction, m: map<string, nat>, space: Option<AddressSpace>, slot: nat)
    requires slot < 4
    ensures var r := RewriteSlot(ins, m, space, slot);
      && r.opcode == ins.opcode && r.dataType == ins.dataType && r.modifier == ins.modifier
      && OperandAt(r, slot) == Displace(OperandAt(ins, slot), m)
      && (forall s :: 0 <= s < 4 && s != slot ==> OperandAt(r, s) == OperandAt(ins, s))
      && (forall s :: 0 <= s < 4 ==> Hits(OperandAt(r, s), m) == Hits(OperandAt(ins, s), m))
      && r.addressSpace == (if space.Some? && Hits(OperandAt(ins, slot), m) then space.value else ins.addressSpace)
  {
  }

  lemma HitsFromStep(ins: Instruction, m: map<string, nat>, slot: nat)
    requires slot < 4
    ensures HitsFrom(ins, m, slot) <==> Hits(OperandAt(ins, slot), m) || HitsFrom(ins, m, slot + 1)
  {
    if HitsFrom(ins, m, slot) && !Hits(OperandAt(ins, slot), m) {
      var s :| slot <= s < 4 && Hits(OperandAt(ins, s), m);
      assert slot + 1 <= s;
    }
  }

  lemma HitsFromSame(a: Instruction, b: Instruction, m: map<string, nat>, slot: nat)
    requires slot <= 4
    requires forall s :: 0 <= s < 4 ==> Hits(OperandAt(a, s), m) == Hits(OperandAt(b, s), m)
    ensures HitsFrom(a, m, slot) == HitsFrom(b, m, slot)
  {
  }

  /** Operand rewriting changes exactly the mapped address operands of
      mov/ld/st, each by its mapped offset; the instruction moves to the
      allocator's space iff one of its operands was mapped. */
  lemma RewriteEffect(ins: Instruction, m: map<string, nat>, space: Option<AddressSpace>)
    ensures var r := Rewrite(ins, m, space);
      && r.opcode == ins.opcode && r.dataType == ins.dataType && r.modifier == ins.modifier
      && (forall s :: 0 <= s < 4 ==>
            OperandAt(r, s) == if IsMemoryMove(ins.opcode) then Displace(OperandAt(ins, s), m) else OperandAt(ins, s))
      && r.addressSpace ==
           (if IsMemoryMove(ins.opcode) && space.Some? && HitsFrom(ins, m, 0) then space.value else ins.addressSpace)
  {
    if IsMemoryMove(ins.opcode) {
      RewriteFromEffect(ins, m, space, 0);
    }
  }

  // ---------------------------------------------------------------------
  // Texture numbering
  // ---------------------------------------------------------------------

  /** The texture identifiers of the tex instructions, in program order. */
  function TextureNames(instrs: seq<Instruction>): seq<string>
  {
    if instrs == [] then []
    else
      var last := instrs[|instrs| - 1];
      TextureNames(instrs[..|instrs| - 1]) + (if last.opcode == Tex then [last.a.identifier] else [])
  }

  /** The distinct elements of `s` in order of first occurrence. */
  function Dedup<T(==)>(s: seq<T>): seq<T>
  {
    if s == [] then []
    else
      var d := Dedup(s[..|s| - 1]);
      if s[|s| - 1] in d then d else d + [s[|s| - 1]]
  }

  /** The position of the first occurrence of `x`. */
  function IndexOf<T(==)>(s: seq<T>, x: T): (r: nat)
    requires x in s
    ensures r < |s| && s[r] == x && x !in s[..r]
  {
    if s[0] == x then 0
    else
      var r := 1 + IndexOf(s[1..], x);
      assert s[..r] == [s[0]] + s[1..][..r - 1];
      r
  }

  lemma IndexOfDistinct<T>(s: seq<T>, i: nat)
    requires Distinct(s) && i < |s|
    ensures IndexOf(s, s[i]) == i
  {
    assert s[i] !in s[..IndexOf(s, s[i])];
  }

  /** Dedup keeps each element once and loses none. */
  lemma {:induction false} DedupElements<T>(s: seq<T>)
    ensures Distinct(Dedup(s))
    ensures forall x :: x in Dedup(s) <==> x in s
    decreases |s|
  {
    if s != [] {
      var p := s[..|s| - 1];
      DedupElements(p);
      assert s == p + [s[|s| - 1]];
    }
  }

  lemma DedupPrefix<T>(s: seq<T>, x: T)
    ensures Dedup(s + [x]) == if x in Dedup(s) then Dedup(s) else Dedup(s) + [x]
  {
    assert (s + [x])[..|s|] == s;
  }

  /** A name referenced at position i gets a smaller index than any name
      first referenced later. */
  lemma {:induction false} DedupFirstOccurrenceOrder<T>(s: seq<T>, i: nat, j: nat)
    requires i < j < |s| && s[j] !in s[..j]
    ensures s[i] in Dedup(s) && s[j] in Dedup(s)
    ensures IndexOf(Dedup(s), s[i]) < IndexOf(Dedup(s), s[j])
    decreases |s|
  {
    DedupElements(s);
    var p := s[..|s| - 1];
    assert s == p + [s[|s| - 1]];
    DedupElements(p);
    if j < |s| - 1 {
      assert p[..j] == s[..j];
      DedupFirstOccurrenceOrder(p, i, j);
      var d := Dedup(p);
      assert Dedup(s) == d || Dedup(s) == d + [s[|s| - 1]];
      assert d[..IndexOf(d, s[j]) + 1] == Dedup(s)[..IndexOf(d, s[j]) + 1];
      IndexOfPrefix(d, Dedup(s), s[i]);
      IndexOfPrefix(d, Dedup(s), s[j]);
    } else {
      assert s[i] in p;
      assert s[j] !in p by { assert p == s[..j]; }
      var d := Dedup(p);
      assert Dedup(s) == d + [s[j]];
      IndexOfPrefix(d, Dedup(s), s[i]);
      assert Distinct(Dedup(s));
      IndexOfDistinct(Dedup(s), |d|);
    }
  }

  lemma IndexOfPrefix<T>(d: seq<T>, e: seq<T>, x: T)
    requires x in d && d <= e
    ensures x in e && IndexOf(e, x) == IndexOf(d, x)
  {
    var r := IndexOf(d, x);
    assert e[r] == x;
    assert x !in e[..IndexOf(e, x)];
  }

  /** The index allocation tex instruction `k` gets. */
  function TextureIndex(order: seq<string>, name: string): nat
  {
    if name in order then IndexOf(order, name) else 0
  }
}
