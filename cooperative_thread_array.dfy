/** The CTA scheduler of the LLVM back end (LLVMCooperativeThreadArray).

    A CTA owns one context and one call stack per thread slot. Slots are
    handed out from two pools (`free` and `reclaimed`), run by a native
    function per function id, and afterwards routed by the continuation
    header that the native code leaves at the start of the thread's current
    local-memory frame: all-ones means finished, 0 means "queue me for
    function 0", anything else is a call, a tail call or a return that
    adjusts the thread's call stack.

    The native functions are an oracle (`Native`): given the function id,
    the thread's context and its current frame, it yields the header the
    thread leaves behind. `context.local` always points at the top frame of
    the thread's stack (the code re-reads `stack.localMemory()` after every
    stack change), so the model keeps the header in that frame and does not
    store `local` separately. */
module CooperativeThreadArray {
  import opened Util
  import opened PtxIR

  /** `(unsigned int)-1`: the thread has finished. */
  const AllOnes: nat := 0xFFFF_FFFF

  /** LLVMExecutableKernel::TailCall, NormalCall, ReturnCall, and any other
      value of the call-type word, which the switch ignores. */
  datatype CallKind = TailCall | NormalCall | ReturnCall | OtherCall

  /** The four header words at local[0..3]: the next function id, the call
      type, and the two sizes a NormalCall passes to `stack.call`. */
  datatype Header = Header(next: u32, call: CallKind, calleeSize: u32, argSize: u32)

  /** The header of a frame nobody has written yet. The native code writes
      the header of its frame before the scheduler reads it. */
  const Blank: Header := Header(0, TailCall, 0, 0)

  /** One local-memory frame of a call stack. */
  datatype Frame = Frame(size: nat, argSize: nat, header: Header)

  /** LLVMFunctionCallStack as a frame sequence. The root frame always
      exists; a `returned()` at the root is a protocol error, recorded in
      `fault`. */
  datatype CallStack = CallStack(frames: seq<Frame>, fault: bool)

  type Stack = st: CallStack | |st.frames| > 0
    witness CallStack([Frame(0, 0, Header(0, TailCall, 0, 0))], false)

  /** A default-constructed stack: the root frame only. */
  const NewStack: Stack := CallStack([Frame(0, 0, Blank)], false)

  /** `stack.localMemory()`: the frame `context.local` points at. */
  function Top(st: Stack): Frame
  {
    st.frames[|st.frames| - 1]
  }

  function Depth(st: Stack): nat
  {
    |st.frames|
  }

  /** `stack.call(size, argSize)`: pushes a fresh frame. */
  function StackCall(st: Stack, size: nat, argSize: nat): (r: Stack)
    ensures Depth(r) == Depth(st) + 1 && r.frames[..Depth(st)] == st.frames
    ensures Top(r).size == size && Top(r).argSize == argSize && Top(r).header == Blank
    ensures r.fault == st.fault
  {
    CallStack(st.frames + [Frame(size, argSize, Blank)], st.fault)
  }

  /** `stack.returned()`: pops back to the caller's frame. */
  function StackReturned(st: Stack): (r: Stack)
    ensures Depth(st) > 1 ==> r.frames == st.frames[..Depth(st) - 1] && r.fault == st.fault
    ensures Depth(st) == 1 ==> r.frames == st.frames && r.fault
  {
    if |st.frames| == 1 then st.(fault := true)
    else CallStack(st.frames[..|st.frames| - 1], st.fault)
  }

  /** A return undoes a call. */
  lemma ReturnUndoesCall(st: Stack, size: nat, argSize: nat)
    ensures StackReturned(StackCall(st, size, argSize)) == st
  {
    var c := StackCall(st, size, argSize);
    assert c.frames[..|c.frames| - 1] == st.frames;
  }

  /** The native code writing the header of its frame. */
  function SetHeader(st: Stack, h: Header): (r: Stack)
    ensures Depth(r) == Depth(st) && r.fault == st.fault
    ensures Top(r) == Top(st).(header := h)
    ensures forall i :: 0 <= i < |st.frames| - 1 ==> r.frames[i] == st.frames[i]
  {
    CallStack(st.frames[|st.frames| - 1 := Top(st).(header := h)], st.fault)
  }

  /** The stack change a header asks for (the switch of `_finishContext`). */
  function Adjust(st: Stack, h: Header): (r: Stack)
    ensures h.call == TailCall || h.call == OtherCall ==> r == st
    ensures h.call == NormalCall ==>
      && Depth(r) == Depth(st) + 1 && r.frames[..Depth(st)] == st.frames && r.fault == st.fault
      && Top(r) == Frame(h.calleeSize, h.argSize, Blank)
    ensures h.call == ReturnCall && Depth(st) > 1 ==>
      r.frames == st.frames[..Depth(st) - 1] && r.fault == st.fault
    ensures h.call == ReturnCall && Depth(st) == 1 ==> r.frames == st.frames && r.fault
  {
    match h.call
    case TailCall => st
    case NormalCall => StackCall(st, h.calleeSize, h.argSize)
    case ReturnCall => StackReturned(st)
    case OtherCall => st
  }

  // ---------------------------------------------------------------------
  // Contexts and the scheduler state
  // ---------------------------------------------------------------------

  /** LLVMContext: the special registers the scheduler fills in. The
      shared, parameter and constant base pointers are addresses and are
      not modelled. */
  datatype Context = Context(nctaid: Dim3, ctaid: Dim3, ntid: Dim3, tid: Dim3)

  const Zero3: Dim3 := Dim3(0, 0, 0)

  /** A value-initialised context, as `std::vector::resize` creates it. */
  const BlankContext: Context := Context(Zero3, Zero3, Zero3, Zero3)

  /** The native function of a function id, run on one thread. */
  type Native = (nat, Context, Frame) -> Header

  /** The warp width, `std::max(configured, 4)`. */
  type WarpWidth = w: nat | w >= 4 witness 4

  /** All scheduler fields: whether each function is resident, one queue of
      context ids per function id, the next and the guessed function, the
      contexts and stacks, the two pools, and the kernel's grid and block
      extents. */
  datatype CtaState = CtaState(
    functions: seq<bool>, queued: seq<seq<nat>>, next: nat, guess: nat,
    contexts: seq<Context>, stacks: seq<Stack>,
    free: seq<nat>, reclaimed: seq<nat>, gridDim: Dim3, blockDim: Dim3)

  /** One stack per context and one queue per function. */
  predicate ShapeOk(s: CtaState)
  {
    |s.stacks| == |s.contexts| && |s.queued| == |s.functions|
  }

  /** ShapeOk, and the next function is in the table (true after setup). */
  predicate Shaped(s: CtaState)
  {
    ShapeOk(s) && s.next < |s.functions|
  }

  predicate AllBelow(cs: seq<nat>, n: nat)
  {
    forall i :: 0 <= i < |cs| ==> cs[i] < n
  }

  datatype Outcome =
    | Completed
      /** the fuel bound on drain rounds ran out */
    | OutOfFuel
      /** the C++ code would pop an empty pool, index past a table or
          divide by zero here */
    | Fault

  // ---------------------------------------------------------------------
  // _initializeNewContext
  // ---------------------------------------------------------------------

  /** The thread index of `threadId`, decomposed over the extents `n`. */
  function ThreadIndex(threadId: nat, n: Dim3): (t: Dim3)
    requires n.x > 0 && n.y > 0
    ensures t.x < n.x && t.y < n.y
    ensures n.x * n.y * t.z + n.x * t.y + t.x == threadId
  {
    Decompose(threadId, n.x, n.y);
    Dim3(threadId % n.x, (threadId / n.x) % n.y, threadId / (n.x * n.y))
  }

  lemma Decompose(k: nat, a: nat, b: nat)
    requires a > 0 && b > 0
    ensures a * b > 0 && k % a < a && (k / a) % b < b
    ensures a * b * (k / (a * b)) + a * ((k / a) % b) + k % a == k
  {
    MulAtLeast(a, b);
    var q, r := k / a, k % a;
    var q2, r2 := q / b, q % b;
    assert k == a * q + r;
    assert q == b * q2 + r2;
    MulDistributes(a, q, b * q2, r2);
    MulAssociates(a, b, q2);
    var rem := a * r2 + r;
    assert k == a * b * q2 + rem;
    MulMonotone(a, r2, b - 1);
    MulDistributes(a, b, b - 1, 1);
    assert rem < a * b;
    DivModUnique(k, a * b, q2, rem);
  }

  function Last(s: seq<nat>): nat
    requires s != []
  {
    s[|s| - 1]
  }

  function Pop(s: seq<nat>): seq<nat>
    requires s != []
  {
    s[..|s| - 1]
  }

  /** What `_initializeNewContext` needs to be defined: a non-empty pool
      whose last id names a context, and non-zero divisors. */
  predicate CanInit(s: CtaState)
  {
    if s.reclaimed != [] then
      Last(s.reclaimed) < |s.contexts|
      && s.contexts[Last(s.reclaimed)].nctaid.x > 0
      && s.contexts[Last(s.reclaimed)].nctaid.y > 0
    else
      s.free != [] && Last(s.free) < |s.contexts| && s.gridDim.x > 0 && s.gridDim.y > 0
  }

  /** A context initialised from a free slot. As written, `ctaid.y` is
      `ctaId / gridDim.y` and `tid` is decomposed over `nctaid`, the grid
      extents. */
  function FreshContext(s: CtaState, threadId: nat, ctaId: nat): Context
    requires s.gridDim.x > 0 && s.gridDim.y > 0
  {
    Context(s.gridDim, Dim3(ctaId % s.gridDim.x, ctaId / s.gridDim.y, 0), s.blockDim,
      ThreadIndex(threadId, s.gridDim))
  }

  /** `_initializeNewContext(threadId, ctaId)`: the new state and the
      context id it hands out. */
  function Init(s: CtaState, threadId: nat, ctaId: nat): (r: (CtaState, nat))
    requires CanInit(s)
    ensures r.1 < |s.contexts|
    ensures s.reclaimed != [] ==>
      r.1 == Last(s.reclaimed) && r.0.reclaimed == Pop(s.reclaimed) && r.0.free == s.free
      && r.0.contexts == s.contexts[r.1 := s.contexts[r.1].(tid := ThreadIndex(threadId, s.contexts[r.1].nctaid))]
    ensures s.reclaimed == [] ==>
      r.1 == Last(s.free) && r.0.free == Pop(s.free) && r.0.reclaimed == []
      && r.0.contexts == s.contexts[r.1 := FreshContext(s, threadId, ctaId)]
    ensures multiset(r.0.free) + multiset(r.0.reclaimed) + multiset{r.1}
      == multiset(s.free) + multiset(s.reclaimed)
    ensures r.0 == s.(free := r.0.free, reclaimed := r.0.reclaimed, contexts := r.0.contexts)
  {
    if s.reclaimed != [] then
      var c := Last(s.reclaimed);
      assert s.reclaimed == Pop(s.reclaimed) + [c];
      var context := s.contexts[c].(tid := ThreadIndex(threadId, s.contexts[c].nctaid));
      (s.(reclaimed := Pop(s.reclaimed), contexts := s.contexts[c := context]), c)
    else
      var c := Last(s.free);
      assert s.free == Pop(s.free) + [c];
      (s.(free := Pop(s.free), contexts := s.contexts[c := FreshContext(s, threadId, ctaId)]), c)
  }

  // ---------------------------------------------------------------------
  // _executeThread / _executeWarp
  // ---------------------------------------------------------------------

  /** `_executeThread(c)`: the native code of the next function rewrites
      the header of the thread's current frame. */
  function Execute(s: CtaState, c: nat, native: Native): (r: CtaState)
    requires c < |s.contexts| && c < |s.stacks|
    ensures r == s.(stacks := r.stacks) && |r.stacks| == |s.stacks|
    ensures Top(r.stacks[c]).header == native(s.next, s.contexts[c], Top(s.stacks[c]))
    ensures Depth(r.stacks[c]) == Depth(s.stacks[c])
    ensures forall i :: 0 <= i < |s.stacks| && i != c ==> r.stacks[i] == s.stacks[i]
  {
    var h := native(s.next, s.contexts[c], Top(s.stacks[c]));
    s.(stacks := s.stacks[c := SetHeader(s.stacks[c], h)])
  }

  /** The top frame of a thread after function `f` has run `k` times on
      it: each run rewrites the header, seeing the header the previous run
      left. */
  function Rerun(native: Native, f: nat, context: Context, frame: Frame, k: nat): Frame
    decreases k
  {
    if k == 0 then frame
    else Rerun(native, f, context, frame.(header := native(f, context, frame)), k - 1)
  }

  /** `_executeWarp`: the threads run one after the other, in list order. */
  function ExecuteAll(s: CtaState, cs: seq<nat>, native: Native): (r: CtaState)
    requires AllBelow(cs, |s.contexts|) && |s.stacks| == |s.contexts|
    ensures r == s.(stacks := r.stacks) && |r.stacks| == |s.stacks|
    ensures forall i :: 0 <= i < |s.stacks| ==> Depth(r.stacks[i]) == Depth(s.stacks[i])
    ensures forall i :: 0 <= i < |s.stacks| && i !in cs ==> r.stacks[i] == s.stacks[i]
    decreases |cs|
  {
    if cs == [] then s
    else
      assert forall i :: i in cs[1..] ==> i in cs;
      ExecuteAll(Execute(s, cs[0], native), cs[1..], native)
  }

  /** `after` is `before` with its top frame replaced by `top`. */
  predicate TopReplaced(after: Stack, before: Stack, top: Frame)
  {
    && Depth(after) == Depth(before) && after.fault == before.fault && Top(after) == top
    && forall j :: 0 <= j < Depth(before) - 1 ==> after.frames[j] == before.frames[j]
  }

  /** What a warp does to the stacks: each thread's top frame ends as
      `Rerun` of it, once per occurrence of the thread in the list, with
      the function and context it had before the warp; the frames below
      are untouched. */
  lemma {:induction false} ExecuteAllEffect(s: CtaState, cs: seq<nat>, native: Native)
    requires AllBelow(cs, |s.contexts|) && |s.stacks| == |s.contexts|
    ensures var r := ExecuteAll(s, cs, native);
      forall i :: 0 <= i < |s.stacks| ==>
        TopReplaced(r.stacks[i], s.stacks[i], Rerun(native, s.next, s.contexts[i], Top(s.stacks[i]), multiset(cs)[i]))
    decreases |cs|
  {
    var r := ExecuteAll(s, cs, native);
    if cs == [] {
      forall i | 0 <= i < |s.stacks|
        ensures TopReplaced(r.stacks[i], s.stacks[i], Top(s.stacks[i]))
      {
      }
    } else {
      var c := cs[0];
      var s1 := Execute(s, c, native);
      assert forall i :: i in cs[1..] ==> i in cs;
      ExecuteAllEffect(s1, cs[1..], native);
      assert cs == [c] + cs[1..];
      forall i | 0 <= i < |s.stacks|
        ensures TopReplaced(r.stacks[i], s.stacks[i], Rerun(native, s.next, s.contexts[i], Top(s.stacks[i]), multiset(cs)[i]))
      {
        var k := multiset(cs[1..])[i];
        if i == c {
          var h := native(s.next, s.contexts[c], Top(s.stacks[c]));
          assert s1.stacks[c] == SetHeader(s.stacks[c], h);
          assert multiset(cs)[i] == k + 1;
          assert Rerun(native, s.next, s.contexts[i], Top(s.stacks[i]), k + 1)
            == Rerun(native, s.next, s.contexts[i], Top(s1.stacks[i]), k);
        } else {
          assert s1.stacks[i] == s.stacks[i];
          assert multiset(cs)[i] == k;
        }
      }
    }
  }

  /** A thread that occurs once in a warp ends with the header its native
      function produced from its frame as it was before the warp. */
  lemma ExecuteOnce(s: CtaState, cs: seq<nat>, native: Native, i: nat)
    requires AllBelow(cs, |s.contexts|) && |s.stacks| == |s.contexts|
    requires i < |s.stacks| && multiset(cs)[i] == 1
    ensures Top(ExecuteAll(s, cs, native).stacks[i]).header == native(s.next, s.contexts[i], Top(s.stacks[i]))
  {
    ExecuteAllEffect(s, cs, native);
  }

  /** Running a list in two pieces is running it in one. */
  lemma {:induction false} ExecuteAllAppend(s: CtaState, a: seq<nat>, b: seq<nat>, native: Native)
    requires AllBelow(a + b, |s.contexts|) && |s.stacks| == |s.contexts|
    ensures AllBelow(a, |s.contexts|) && AllBelow(b, |s.contexts|)
    ensures ExecuteAll(s, a + b, native) == ExecuteAll(ExecuteAll(s, a, native), b, native)
    decreases |a|
  {
    assert forall i :: 0 <= i < |a| ==> a[i] == (a + b)[i];
    assert forall i :: 0 <= i < |b| ==> b[i] == (a + b)[|a| + i];
    if a == [] {
      assert a + b == b;
    } else {
      assert (a + b)[0] == a[0];
      assert (a + b)[1..] == a[1..] + b;
      ExecuteAllAppend(Execute(s, a[0], native), a[1..], b, native);
    }
  }

  // ---------------------------------------------------------------------
  // _finishContext, _reclaimContext, _destroyContext, _destroyContexts
  // ---------------------------------------------------------------------

  /** The total number of queued ids. */
  function QueuedCount(q: seq<seq<nat>>): nat
  {
    if q == [] then 0 else |q[0]| + QueuedCount(q[1..])
  }

  /** `_finishContext(c)`: decodes the header of the thread's current frame
      and says whether the thread has finished. */
  function Finish(s: CtaState, c: nat): (r: (CtaState, bool))
    requires c < |s.stacks| && |s.queued| > 0
    ensures var h := Top(s.stacks[c]).header;
      && (r.1 <==> h.next == AllOnes)
      && (r.1 ==> r.0 == s)
      && (!r.1 ==> r.0.guess == h.next)
      && r.0 == s.(guess := r.0.guess, queued := r.0.queued, stacks := r.0.stacks)
      && |r.0.queued| == |s.queued| && |r.0.stacks| == |s.stacks|
      && (h.next == 0 ==> r.0.queued[0] == s.queued[0] + [c] && r.0.stacks == s.stacks)
      && (forall i :: 0 < i < |s.queued| ==> r.0.queued[i] == s.queued[i])
      && (h.next != 0 && h.next != AllOnes ==>
            r.0.queued == s.queued && r.0.stacks == s.stacks[c := Adjust(s.stacks[c], h)])
  {
    var h := Top(s.stacks[c]).header;
    if h.next == AllOnes then (s, true)
    else if h.next == 0 then
      (s.(guess := 0, queued := s.queued[0 := s.queued[0] + [c]]), false)
    else
      (s.(guess := h.next, stacks := s.stacks[c := Adjust(s.stacks[c], h)]), false)
  }

  /** A finish puts at most one id into the queues, and only for id 0. */
  lemma FinishEnqueues(s: CtaState, c: nat)
    requires c < |s.stacks| && |s.queued| > 0
    ensures QueuedCount(Finish(s, c).0.queued)
      == QueuedCount(s.queued) + (if Top(s.stacks[c]).header.next == 0 then 1 else 0)
  {
    var q := Finish(s, c).0.queued;
    if Top(s.stacks[c]).header.next == 0 {
      assert q[1..] == s.queued[1..];
    }
  }

  /** `_reclaimContext(c)` */
  function Reclaim(s: CtaState, c: nat): (r: CtaState)
    requires c < |s.stacks| && |s.queued| > 0
    ensures r.reclaimed == s.reclaimed + (if Finish(s, c).1 then [c] else [])
    ensures r.free == s.free && r.contexts == s.contexts
    ensures r == Finish(s, c).0.(reclaimed := r.reclaimed)
  {
    var f := Finish(s, c);
    if f.1 then f.0.(reclaimed := f.0.reclaimed + [c]) else f.0
  }

  /** `_destroyContext(c)` */
  function Destroy(s: CtaState, c: nat): (r: CtaState)
    requires c < |s.stacks| && |s.queued| > 0
    ensures r.free == s.free + (if Finish(s, c).1 then [c] else [])
    ensures r.reclaimed == s.reclaimed && r.contexts == s.contexts
    ensures r == Finish(s, c).0.(free := r.free)
  {
    var f := Finish(s, c);
    if f.1 then f.0.(free := f.0.free + [c]) else f.0
  }

  /** The finish-and-reclaim loop after an initial warp. */
  function ReclaimAll(s: CtaState, cs: seq<nat>): (r: CtaState)
    requires AllBelow(cs, |s.stacks|) && |s.queued| > 0
    ensures |r.stacks| == |s.stacks| && |r.queued| == |s.queued|
    ensures r.contexts == s.contexts && r.free == s.free && r.functions == s.functions && r.next == s.next
    ensures r.gridDim == s.gridDim && r.blockDim == s.blockDim
    ensures |s.reclaimed| <= |r.reclaimed| <= |s.reclaimed| + |cs| && r.reclaimed[..|s.reclaimed|] == s.reclaimed
    decreases |cs|
  {
    if cs == [] then s else ReclaimAll(Reclaim(s, cs[0]), cs[1..])
  }

  /** The finish-and-destroy loop after a drain round. */
  function DestroyAll(s: CtaState, cs: seq<nat>): (r: CtaState)
    requires AllBelow(cs, |s.stacks|) && |s.queued| > 0
    ensures |r.stacks| == |s.stacks| && |r.queued| == |s.queued|
    ensures r.contexts == s.contexts && r.reclaimed == s.reclaimed && r.functions == s.functions && r.next == s.next
    ensures |s.free| <= |r.free| <= |s.free| + |cs| && r.free[..|s.free|] == s.free
    decreases |cs|
  {
    if cs == [] then s else DestroyAll(Destroy(s, cs[0]), cs[1..])
  }

  /** The ids of `cs`, in order, whose current frame's header names
      `word` as the next function. */
  function IdsWith(stacks: seq<Stack>, cs: seq<nat>, word: nat): seq<nat>
    requires AllBelow(cs, |stacks|)
    decreases |cs|
  {
    if cs == [] then []
    else (if Top(stacks[cs[0]]).header.next == word then [cs[0]] else []) + IdsWith(stacks, cs[1..], word)
  }

  /** IdsWith reads only the stacks of the ids in the list. */
  lemma {:induction false} IdsWithFrame(a: seq<Stack>, b: seq<Stack>, cs: seq<nat>, word: nat)
    requires AllBelow(cs, |a|) && AllBelow(cs, |b|)
    requires forall c :: c in cs ==> a[c] == b[c]
    ensures IdsWith(a, cs, word) == IdsWith(b, cs, word)
    decreases |cs|
  {
    if cs != [] {
      assert cs[0] in cs;
      assert forall c :: c in cs[1..] ==> c in cs;
      IdsWithFrame(a, b, cs[1..], word);
    }
  }

  /** The stack a finish leaves: the header's stack change when the thread
      neither finished nor went to queue 0. */
  function Routed(st: Stack): Stack
  {
    var h := Top(st).header;
    if h.next == 0 || h.next == AllOnes then st else Adjust(st, h)
  }

  /** The ids of a list without repeats: its first id is not among the
      rest, and the rest has no repeats either. */
  lemma NoDuplicatesTail(cs: seq<nat>)
    requires cs != [] && NoDuplicates(multiset(cs))
    ensures cs[0] !in cs[1..] && NoDuplicates(multiset(cs[1..]))
  {
    assert cs == [cs[0]] + cs[1..];
    assert multiset(cs) == multiset{cs[0]} + multiset(cs[1..]);
    assert cs[0] in multiset(cs);
    forall x | x in multiset(cs[1..])
      ensures multiset(cs[1..])[x] == 1
    {
      assert x in multiset(cs);
    }
  }

  /** One finish, by the header of the thread's current frame: its id
      joins `pool` (the reclaimed or free pool) when it finished and queue
      0 when it names function 0, and its stack takes the header's change. */
  predicate FinishedInto(s: CtaState, c: nat, s1: CtaState, pool: seq<nat>, pool1: seq<nat>)
    requires c < |s.stacks| && |s.queued| > 0
  {
    var next := Top(s.stacks[c]).header.next;
    && pool1 == pool + (if next == AllOnes then [c] else [])
    && |s1.queued| == |s.queued|
    && s1.queued[0] == s.queued[0] + (if next == 0 then [c] else [])
    && (forall j :: 0 < j < |s.queued| ==> s1.queued[j] == s.queued[j])
    && s1.stacks == s.stacks[c := Routed(s.stacks[c])]
  }

  lemma ReclaimStep(s: CtaState, c: nat)
    requires c < |s.stacks| && |s.queued| > 0
    ensures FinishedInto(s, c, Reclaim(s, c), s.reclaimed, Reclaim(s, c).reclaimed)
  {
    var h := Top(s.stacks[c]).header;
    if h.next == 0 || h.next == AllOnes {
      assert s.stacks[c := Routed(s.stacks[c])] == s.stacks;
    }
  }

  lemma DestroyStep(s: CtaState, c: nat)
    requires c < |s.stacks| && |s.queued| > 0
    ensures FinishedInto(s, c, Destroy(s, c), s.free, Destroy(s, c).free)
  {
    var h := Top(s.stacks[c]).header;
    if h.next == 0 || h.next == AllOnes {
      assert s.stacks[c := Routed(s.stacks[c])] == s.stacks;
    }
  }

  /** A finish loop over `cs` took `s` to `r` and the pool it feeds from
      `pool` to `pool1`: the finished ids joined the pool and the ids that
      name function 0 joined queue 0, both in list order; every listed
      stack took its header's change, and no other queue or stack moved. */
  predicate FinishedAll(s: CtaState, cs: seq<nat>, r: CtaState, pool: seq<nat>, pool1: seq<nat>)
    requires AllBelow(cs, |s.stacks|) && |s.queued| > 0
  {
    && pool1 == pool + IdsWith(s.stacks, cs, AllOnes)
    && |r.queued| == |s.queued| && |r.stacks| == |s.stacks|
    && r.queued[0] == s.queued[0] + IdsWith(s.stacks, cs, 0)
    && (forall j :: 0 < j < |s.queued| ==> r.queued[j] == s.queued[j])
    && (forall i :: 0 <= i < |s.stacks| ==> r.stacks[i] == if i in cs then Routed(s.stacks[i]) else s.stacks[i])
  }

  /** One finish followed by a finish loop over the rest of the ids is a
      finish loop over all of them. */
  lemma FinishedAllCons(s: CtaState, c: nat, rest: seq<nat>, s1: CtaState, r: CtaState,
                        pool: seq<nat>, pool1: seq<nat>, pool2: seq<nat>)
    requires c < |s.stacks| && AllBelow(rest, |s.stacks|) && |s.queued| > 0 && c !in rest
    requires FinishedInto(s, c, s1, pool, pool1) && FinishedAll(s1, rest, r, pool1, pool2)
    ensures AllBelow([c] + rest, |s.stacks|) && FinishedAll(s, [c] + rest, r, pool, pool2)
  {
    var cs := [c] + rest;
    assert cs[0] == c && cs[1..] == rest;
    IdsWithFrame(s1.stacks, s.stacks, rest, AllOnes);
    IdsWithFrame(s1.stacks, s.stacks, rest, 0);
    var finished := if Top(s.stacks[c]).header.next == AllOnes then [c] else [];
    var zero := if Top(s.stacks[c]).header.next == 0 then [c] else [];
    assert IdsWith(s.stacks, cs, AllOnes) == finished + IdsWith(s.stacks, rest, AllOnes);
    assert IdsWith(s.stacks, cs, 0) == zero + IdsWith(s.stacks, rest, 0);
    AppendAssociates(pool, finished, IdsWith(s.stacks, rest, AllOnes));
    AppendAssociates(s.queued[0], zero, IdsWith(s.stacks, rest, 0));
    forall i | 0 <= i < |s.stacks|
      ensures r.stacks[i] == if i in cs then Routed(s.stacks[i]) else s.stacks[i]
    {
      assert i in cs <==> i == c || i in rest;
    }
  }

  /** The finish-and-reclaim loop over ids without repeats feeds the
      reclaimed pool and queue 0 as FinishedAll says. */
  lemma {:induction false} ReclaimAllEffect(s: CtaState, cs: seq<nat>)
    requires AllBelow(cs, |s.stacks|) && |s.queued| > 0 && NoDuplicates(multiset(cs))
    ensures FinishedAll(s, cs, ReclaimAll(s, cs), s.reclaimed, ReclaimAll(s, cs).reclaimed)
    decreases |cs|
  {
    if cs == [] {
      assert s.reclaimed + [] == s.reclaimed && s.queued[0] + [] == s.queued[0];
    } else {
      var c, rest := cs[0], cs[1..];
      var s1 := Reclaim(s, c);
      assert ReclaimAll(s, cs) == ReclaimAll(s1, rest);
      NoDuplicatesTail(cs);
      assert forall x :: x in rest ==> x in cs;
      ReclaimStep(s, c);
      ReclaimAllEffect(s1, rest);
      assert cs == [c] + rest;
      FinishedAllCons(s, c, rest, s1, ReclaimAll(s, cs), s.reclaimed, s1.reclaimed, ReclaimAll(s, cs).reclaimed);
    }
  }

  /** The finish-and-destroy loop over ids without repeats feeds the free
      pool and queue 0 as FinishedAll says. */
  lemma {:induction false} DestroyAllEffect(s: CtaState, cs: seq<nat>)
    requires AllBelow(cs, |s.stacks|) && |s.queued| > 0 && NoDuplicates(multiset(cs))
    ensures FinishedAll(s, cs, DestroyAll(s, cs), s.free, DestroyAll(s, cs).free)
    decreases |cs|
  {
    if cs == [] {
      assert s.free + [] == s.free && s.queued[0] + [] == s.queued[0];
    } else {
      var c, rest := cs[0], cs[1..];
      var s1 := Destroy(s, c);
      assert DestroyAll(s, cs) == DestroyAll(s1, rest);
      NoDuplicatesTail(cs);
      assert forall x :: x in rest ==> x in cs;
      DestroyStep(s, c);
      DestroyAllEffect(s1, rest);
      assert cs == [c] + rest;
      FinishedAllCons(s, c, rest, s1, DestroyAll(s, cs), s.free, s1.free, DestroyAll(s, cs).free);
    }
  }

  /** `_destroyContexts()`: every reclaimed id goes back to the free pool. */
  function DestroyPools(s: CtaState): (r: CtaState)
    ensures r.reclaimed == [] && r.free == s.free + s.reclaimed
    ensures multiset(r.free) == multiset(s.free) + multiset(s.reclaimed)
    ensures r == s.(free := r.free, reclaimed := [])
  {
    s.(free := s.free + s.reclaimed, reclaimed := [])
  }

  // ---------------------------------------------------------------------
  // _computeNextFunction
  // ---------------------------------------------------------------------

  /** The scan of the queues from index `i` on: `best` and `count` are the
      best queue so far and its size, `total` the running size from index
      2. A queue replaces the best only when strictly larger, and the scan
      stops once `total` exceeds `half`. */
  function Scan(q: seq<seq<nat>>, half: nat, i: nat, best: nat, count: nat, total: nat): nat
    decreases |q| - i
  {
    if i >= |q| then best
    else
      var best1 := if |q[i]| > count then i else best;
      var count1 := if |q[i]| > count then |q[i]| else count;
      if total + |q[i]| > half then best1
      else Scan(q, half, i + 1, best1, count1, total + |q[i]|)
  }

  /** Where that scan stops: one past the last queue it looks at. */
  function ScanEnd(q: seq<seq<nat>>, half: nat, i: nat, total: nat): (e: nat)
    ensures i < |q| ==> i < e <= |q|
    decreases |q| - i
  {
    if i >= |q| then i
    else if total + |q[i]| > half then i + 1
    else ScanEnd(q, half, i + 1, total + |q[i]|)
  }

  /** Sum of the queue sizes in [lo, hi). */
  function SizeSum(q: seq<seq<nat>>, lo: nat, hi: nat): nat
    requires lo <= hi <= |q|
    decreases hi - lo
  {
    if lo == hi then 0 else |q[lo]| + SizeSum(q, lo + 1, hi)
  }

  /** `b` is the lowest index of largest size among the queues 1 and
      [2, e). */
  predicate FirstLargest(q: seq<seq<nat>>, b: nat, e: nat)
    requires 2 <= e <= |q|
  {
    1 <= b < e
    && (forall j :: 1 <= j < e ==> |q[j]| <= |q[b]|)
    && (forall j :: 1 <= j < b ==> |q[j]| < |q[b]|)
  }

  /** The scan picks the first largest queue of the range it looks at, and
      that range ends at the first point where the running total from
      index 2 passes `half`, or at the last queue. */
  lemma {:induction false} ScanPicksFirstLargest(q: seq<seq<nat>>, half: nat, i: nat, best: nat, count: nat, total: nat)
    requires 2 <= i <= |q|
    requires FirstLargest(q, best, i) && count == |q[best]|
    requires total == SizeSum(q, 2, i) && total <= half
    ensures 2 <= ScanEnd(q, half, i, total) <= |q|
    ensures FirstLargest(q, Scan(q, half, i, best, count, total), ScanEnd(q, half, i, total))
    ensures var e := ScanEnd(q, half, i, total);
      (e == |q| || SizeSum(q, 2, e) > half) && (e == 2 || SizeSum(q, 2, e - 1) <= half)
    decreases |q| - i
  {
    if i == |q| {
      if i > 2 {
        SizeSumStep(q, 2, i - 1);
      }
    } else {
      SizeSumStep(q, 2, i);
      var best1 := if |q[i]| > count then i else best;
      var count1 := if |q[i]| > count then |q[i]| else count;
      assert FirstLargest(q, best1, i + 1);
      if total + |q[i]| <= half {
        ScanPicksFirstLargest(q, half, i + 1, best1, count1, total + |q[i]|);
      }
    }
  }

  lemma {:induction false} SizeSumStep(q: seq<seq<nat>>, lo: nat, hi: nat)
    requires lo <= hi < |q|
    ensures SizeSum(q, lo, hi + 1) == SizeSum(q, lo, hi) + |q[hi]|
    decreases hi - lo
  {
    if lo < hi {
      SizeSumStep(q, lo + 1, hi);
    }
  }

  /** The function `_computeNextFunction` chooses among `n` contexts, or
      None where the code would index past the queue table. */
  function NextFunction(q: seq<seq<nat>>, guess: nat, n: nat): (r: Option<nat>)
    ensures r.Some? ==> r.value < |q|
  {
    if |q| == 0 then None
    else if |q[0]| == n then Some(0)
    else if guess >= |q| then None
    else if |q[guess]| == n then Some(guess)
    else if |q| < 2 then None
    else
      var b := Scan(q, n / 2, 2, 1, |q[1]|, 0);
      ScanPicksFirstLargest(q, n / 2, 2, 1, |q[1]|, 0);
      Some(b)
  }

  /** The choice of `_computeNextFunction`: queue 0 when it holds every
      context, else the guessed queue when it does, else the first largest
      queue among queue 1 and those the early-exit scan reaches. */
  lemma NextFunctionChoice(q: seq<seq<nat>>, guess: nat, n: nat)
    requires |q| >= 2 && guess < |q|
    ensures var r := NextFunction(q, guess, n);
      && r.Some?
      && (|q[0]| == n ==> r.value == 0)
      && (|q[0]| != n && |q[guess]| == n ==> r.value == guess)
      && (|q[0]| != n && |q[guess]| != n ==>
            var e := ScanEnd(q, n / 2, 2, 0);
            2 <= e <= |q| && FirstLargest(q, r.value, e)
            && (e == |q| || SizeSum(q, 2, e) > n / 2)
            && (e == 2 || SizeSum(q, 2, e - 1) <= n / 2))
  {
    ScanPicksFirstLargest(q, n / 2, 2, 1, |q[1]|, 0);
  }

  // ---------------------------------------------------------------------
  // executeCta
  // ---------------------------------------------------------------------

  /** [first, first + count) */
  function Span(first: nat, count: nat): (r: seq<nat>)
    ensures |r| == count
    ensures forall i :: 0 <= i < count ==> r[i] == first + i
  {
    seq(count, i => first + i)
  }

  /** The init loop of one initial warp, accumulating the handed-out
      context ids after `acc`; false when an init would be undefined. */
  function InitAll(s: CtaState, tids: seq<nat>, ctaId: nat, acc: seq<nat>): (r: (CtaState, seq<nat>, bool))
    requires Shaped(s) && AllBelow(acc, |s.contexts|)
    ensures Shaped(r.0) && AllBelow(r.1, |s.contexts|)
    ensures r.0 == s.(free := r.0.free, reclaimed := r.0.reclaimed, contexts := r.0.contexts)
    ensures |r.0.contexts| == |s.contexts|
    ensures r.2 ==> |r.1| == |acc| + |tids|
    ensures multiset(r.0.free) + multiset(r.0.reclaimed) + multiset(r.1)
      == multiset(s.free) + multiset(s.reclaimed) + multiset(acc)
    decreases |tids|
  {
    if tids == [] then (s, acc, true)
    else if !CanInit(s) then (s, acc, false)
    else
      var i := Init(s, tids[0], ctaId);
      InitAll(i.0, tids[1..], ctaId, acc + [i.1])
  }

  /** One initial warp: initialise, run, then finish-and-reclaim each id. */
  function IssueGroup(s: CtaState, tids: seq<nat>, ctaId: nat, native: Native): (r: (CtaState, bool))
    requires Shaped(s)
    ensures Shaped(r.0) && |r.0.contexts| == |s.contexts|
  {
    var i := InitAll(s, tids, ctaId, []);
    if !i.2 then (i.0, false)
    else (ReclaimAll(ExecuteAll(i.0, i.1, native), i.1), true)
  }

  /** A defined initial warp, starting from pools without repeats: the
      warp's contexts come out of the pools, one per thread id; each runs
      once and leaves the header the entry function produced from its
      frame; then the finished ones are reclaimed and the ones naming
      function 0 are queued there, in warp order, and the free pool is
      only drawn from. */
  lemma IssueGroupEffect(s: CtaState, tids: seq<nat>, ctaId: nat, native: Native)
    requires Shaped(s) && NoDuplicates(multiset(s.free) + multiset(s.reclaimed))
    requires IssueGroup(s, tids, ctaId, native).1
    ensures var i := InitAll(s, tids, ctaId, []);
      var e := ExecuteAll(i.0, i.1, native);
      var r := IssueGroup(s, tids, ctaId, native).0;
      && |i.1| == |tids| && AllBelow(i.1, |e.stacks|) && |e.queued| > 0
      && multiset(i.0.free) + multiset(i.0.reclaimed) + multiset(i.1) == multiset(s.free) + multiset(s.reclaimed)
      && (forall c :: c in i.1 ==> Top(e.stacks[c]).header == native(s.next, i.0.contexts[c], Top(s.stacks[c])))
      && FinishedAll(e, i.1, r, i.0.reclaimed, r.reclaimed)
      && r.free == i.0.free
  {
    var i := InitAll(s, tids, ctaId, []);
    var e := ExecuteAll(i.0, i.1, native);
    var pools := multiset(s.free) + multiset(s.reclaimed);
    assert multiset(i.0.free) + multiset(i.0.reclaimed) + multiset(i.1) == pools;
    forall x | x in multiset(i.1)
      ensures multiset(i.1)[x] == 1
    {
      assert pools[x] >= multiset(i.1)[x];
    }
    forall c | c in i.1
      ensures Top(e.stacks[c]).header == native(s.next, i.0.contexts[c], Top(s.stacks[c]))
    {
      ExecuteOnce(i.0, i.1, native, c);
    }
    ReclaimAllEffect(e, i.1);
  }

  function IssueGroups(s: CtaState, gs: seq<seq<nat>>, ctaId: nat, native: Native): (r: (CtaState, bool))
    requires Shaped(s)
    ensures Shaped(r.0) && |r.0.contexts| == |s.contexts|
    decreases |gs|
  {
    if gs == [] then (s, true)
    else
      var g := IssueGroup(s, gs[0], ctaId, native);
      if !g.1 then g else IssueGroups(g.0, gs[1..], ctaId, native)
  }

  /** The initial phase of `executeCta`: the thread ids 0 .. threads-1 in
      groups of the warp width, the last group holding the remainder. */
  function Issue(s: CtaState, w: WarpWidth, ctaId: nat, native: Native): (r: (CtaState, bool))
    requires Shaped(s)
    ensures Shaped(r.0) && |r.0.contexts| == |s.contexts|
  {
    IssueGroups(s, Chunks(Range(|s.contexts|), w), ctaId, native)
  }

  /** The initial phase issues threads / w full warps and one warp of
      threads % w, and each thread id is issued once, in increasing order. */
  lemma IssueOrder(threads: nat, w: WarpWidth)
    ensures var gs := Chunks(Range(threads), w);
      && |gs| == threads / w + 1
      && (forall k :: 0 <= k < threads / w ==> gs[k] == Span(k * w, w))
      && gs[threads / w] == Span((threads / w) * w, threads % w)
      && Flatten(gs) == Range(threads)
  {
    var gs := Chunks(Range(threads), w);
    FlattenChunks(Range(threads), w);
    ChunksShape(Range(threads), w);
    assert threads == (threads / w) * w + threads % w;
    forall k | 0 <= k <= threads / w
      ensures gs[k] == Span(k * w, if k < threads / w then w else threads % w)
    {
      ChunkAt(Range(threads), w, k);
      MulNat(k, w);
      var lo := k * w;
      if k < threads / w {
        RangeSlice(threads, lo, w);
      } else {
        assert threads - lo == threads % w;
        RangeSlice(threads, lo, threads % w);
      }
    }
  }

  lemma RangeSlice(n: nat, lo: nat, len: nat)
    requires lo + len <= n
    ensures Range(n)[lo .. lo + len] == Span(lo, len)
    ensures lo + len == n ==> Range(n)[lo ..] == Span(lo, len)
  {
  }

  /** One round of the drain loop: choose a function, move its queue out,
      run the ids, then finish-and-destroy each. */
  function DrainStep(s: CtaState, native: Native): (r: (CtaState, bool))
    requires Shaped(s)
    ensures Shaped(r.0) && |r.0.contexts| == |s.contexts|
  {
    match NextFunction(s.queued, s.guess, |s.contexts|)
    case None => (s, false)
    case Some(f) =>
      var list := s.queued[f];
      var s1 := s.(next := f, functions := s.functions[f := true], queued := s.queued[f := []]);
      if !AllBelow(list, |s.contexts|) then (s1, false)
      else (DestroyAll(ExecuteAll(s1, list, native), list), true)
  }

  /** A defined drain round over a queue without repeats: function `f`
      is chosen and marked resident, its queue is moved out, each of its
      ids runs once and leaves the header `f` produced from its frame;
      then the finished ids go onto the free pool and the ids naming
      function 0 onto queue 0, in queue order. Queue `f` ends empty unless
      it is queue 0, and the reclaimed pool and contexts do not move. */
  lemma DrainStepEffect(s: CtaState, native: Native, f: nat)
    requires Shaped(s) && NextFunction(s.queued, s.guess, |s.contexts|) == Some(f)
    requires AllBelow(s.queued[f], |s.contexts|) && NoDuplicates(multiset(s.queued[f]))
    ensures var list := s.queued[f];
      var s1 := s.(next := f, functions := s.functions[f := true], queued := s.queued[f := []]);
      var e := ExecuteAll(s1, list, native);
      var r := DrainStep(s, native);
      && r.1 && r.0.next == f && r.0.functions == s.functions[f := true]
      && r.0.reclaimed == s.reclaimed && r.0.contexts == s.contexts
      && (forall c :: c in list ==> Top(e.stacks[c]).header == native(f, s.contexts[c], Top(s.stacks[c])))
      && |e.queued| > 0 && AllBelow(list, |e.stacks|)
      && FinishedAll(e, list, r.0, s.free, r.0.free)
      && r.0.queued[f] == (if f == 0 then IdsWith(e.stacks, list, 0) else [])
  {
    var list := s.queued[f];
    var s1 := s.(next := f, functions := s.functions[f := true], queued := s.queued[f := []]);
    var e := ExecuteAll(s1, list, native);
    forall c | c in list
      ensures Top(e.stacks[c]).header == native(f, s.contexts[c], Top(s.stacks[c]))
    {
      ExecuteOnce(s1, list, native, c);
    }
    DestroyAllEffect(e, list);
  }

  /** DrainStep repeated `n` times, stopping at the first undefined round. */
  function DrainSteps(s: CtaState, native: Native, n: nat): (r: (CtaState, bool))
    requires Shaped(s)
    ensures Shaped(r.0) && |r.0.contexts| == |s.contexts|
    decreases n
  {
    if n == 0 then (s, true)
    else
      var d := DrainStep(s, native);
      if !d.1 then d else DrainSteps(d.0, native, n - 1)
  }

  /** A bound on the number of drain rounds, counted in unary: `Round(b)`
      allows one round more than `b`. */
  datatype Budget = Spent | Round(rest: Budget)

  /** The drain loop, `while(_freeContexts.size() != threads)`, bounded by
      `fuel` rounds, then `_destroyContexts`. */
  function Drain(s: CtaState, native: Native, fuel: Budget): (r: (CtaState, Outcome))
    requires Shaped(s)
    ensures Shaped(r.0) && |r.0.contexts| == |s.contexts|
    ensures r.1 == Completed ==> r.0.reclaimed == [] && |r.0.free| >= |r.0.contexts|
    decreases fuel
  {
    if |s.free| == |s.contexts| then (DestroyPools(s), Completed)
    else if fuel.Spent? then (s, OutOfFuel)
    else
      var d := DrainStep(s, native);
      if !d.1 then (d.0, Fault) else Drain(d.0, native, fuel.rest)
  }

  /** The drain loop ends once every context is free. */
  lemma DrainDone(s: CtaState, native: Native, fuel: Budget)
    requires Shaped(s) && |s.free| == |s.contexts|
    ensures Drain(s, native, fuel) == (DestroyPools(s), Completed)
  {
  }

  /** Out of rounds with contexts still busy. */
  lemma DrainExhausted(s: CtaState, native: Native)
    requires Shaped(s) && |s.free| != |s.contexts|
    ensures Drain(s, native, Spent) == (s, OutOfFuel)
  {
  }

  /** One more round: a failing round faults, a successful one continues
      with one round less. */
  lemma DrainOneRound(s: CtaState, native: Native, fuel: Budget, t: CtaState, ok: bool)
    requires Shaped(s) && |s.free| != |s.contexts| && fuel.Round?
    requires (t, ok) == DrainStep(s, native)
    ensures Shaped(t)
    ensures ok ==> Drain(s, native, fuel) == Drain(t, native, fuel.rest)
    ensures !ok ==> Drain(s, native, fuel) == (t, Fault)
  {
  }

  /** A completed drain loop ran `n` defined rounds, the free pool was
      short of the context count before each of them and full after the
      last, and then the pools were merged. */
  lemma {:induction false} DrainCompleted(s: CtaState, native: Native, fuel: Budget) returns (n: nat)
    requires Shaped(s) && Drain(s, native, fuel).1 == Completed
    ensures var t := DrainSteps(s, native, n);
      && t.1 && |t.0.free| == |s.contexts| && Drain(s, native, fuel).0 == DestroyPools(t.0)
    ensures forall m: nat :: m < n ==> DrainSteps(s, native, m).1 && |DrainSteps(s, native, m).0.free| != |s.contexts|
    decreases fuel
  {
    if |s.free| == |s.contexts| {
      n := 0;
    } else {
      assert fuel.Round?;
      var d := DrainStep(s, native);
      assert d.1 && Drain(s, native, fuel) == Drain(d.0, native, fuel.rest);
      var k := DrainCompleted(d.0, native, fuel.rest);
      n := k + 1;
      assert DrainSteps(s, native, n) == DrainSteps(d.0, native, k);
      forall m: nat | m < n
        ensures DrainSteps(s, native, m).1 && |DrainSteps(s, native, m).0.free| != |s.contexts|
      {
        if m > 0 {
          assert DrainSteps(s, native, m) == DrainSteps(d.0, native, m - 1);
        }
      }
    }
  }

  /** The ids a pool holds, as a set. */
  function Members(cs: seq<nat>): (r: set<nat>)
    ensures forall x :: x in r <==> x in cs
  {
    set x | x in cs
  }

  /** A list without repeats has as many members as entries. */
  lemma {:induction false} DistinctCard(cs: seq<nat>)
    requires NoDuplicates(multiset(cs))
    ensures |Members(cs)| == |cs|
  {
    if cs == [] {
      assert Members(cs) == {};
    } else {
      NoDuplicatesTail(cs);
      DistinctCard(cs[1..]);
      assert Members(cs) == {cs[0]} + Members(cs[1..]);
    }
  }

  /** The ids `0 .. n-1`, as a set. */
  function IdSet(n: nat): (r: set<nat>)
    ensures |r| == n
    ensures forall i: nat :: i in r <==> i < n
  {
    if n == 0 then {} else IdSet(n - 1) + {n - 1}
  }

  /** A subset is no larger than its superset. */
  lemma {:induction false} SubsetCard(a: set<nat>, b: set<nat>)
    requires a <= b
    ensures |a| <= |b|
    decreases |b|
  {
    if b != {} {
      var x :| x in b;
      SubsetCard(a - {x}, b - {x});
    }
  }

  /** A pool without repeats, holding only ids below `n` and at least `n`
      of them, holds every id below `n`. */
  lemma DistinctBelowCovers(cs: seq<nat>, n: nat)
    requires NoDuplicates(multiset(cs)) && AllBelow(cs, n) && |cs| >= n
    ensures forall i: nat :: i < n ==> i in cs
  {
    forall i: nat | i < n
      ensures i in cs
    {
      if i !in cs {
        DistinctCard(cs);
        var held := Members(cs);
        assert |IdSet(n) - {i}| == n - 1;
        assert held <= IdSet(n) - {i};
        SubsetCard(held, IdSet(n) - {i});
        assert false;
      }
    }
  }

  /** A completed drain whose free pool holds no repeats and only ids of
      contexts has every context free. */
  lemma DrainFreesAll(s: CtaState, native: Native, fuel: Budget)
    requires Shaped(s) && Drain(s, native, fuel).1 == Completed
    requires NoDuplicates(multiset(Drain(s, native, fuel).0.free))
    requires AllBelow(Drain(s, native, fuel).0.free, |s.contexts|)
    ensures forall i: nat :: i < |s.contexts| ==> i in Drain(s, native, fuel).0.free
  {
    DistinctBelowCovers(Drain(s, native, fuel).0.free, |s.contexts|);
  }

  /** `executeCta(ctaId)` */
  function RunCta(s: CtaState, w: WarpWidth, ctaId: nat, native: Native, fuel: Budget): (r: (CtaState, Outcome))
    requires Shaped(s)
    ensures Shaped(r.0) && |r.0.contexts| == |s.contexts|
    ensures r.1 == Completed ==> r.0.reclaimed == [] && |r.0.free| >= |r.0.contexts|
  {
    var i := Issue(s, w, ctaId, native);
    if !i.1 then (i.0, Fault) else Drain(i.0, native, fuel)
  }

  /** A completed `executeCta` whose free pool holds no repeats and only
      ids of contexts has every context free. */
  lemma RunCtaFreesAll(s: CtaState, w: WarpWidth, ctaId: nat, native: Native, fuel: Budget)
    requires Shaped(s) && RunCta(s, w, ctaId, native, fuel).1 == Completed
    requires NoDuplicates(multiset(RunCta(s, w, ctaId, native, fuel).0.free))
    requires AllBelow(RunCta(s, w, ctaId, native, fuel).0.free, |s.contexts|)
    ensures forall i: nat :: i < |s.contexts| ==> i in RunCta(s, w, ctaId, native, fuel).0.free
  {
    var i := Issue(s, w, ctaId, native);
    DrainFreesAll(i.0, native, fuel);
  }

  /** The scan loop of `_computeNextFunction`. */
  method ScanQueues(queues: seq<seq<nat>>, threads: nat) returns (best: nat)
    requires |queues| >= 2
    ensures best == Scan(queues, threads / 2, 2, 1, |queues[1]|, 0)
  {
    best := 1;
    var total: nat := 0;
    var count: nat := |queues[1]|;
    var i := 2;
    while i < |queues|
      invariant 2 <= i <= |queues|
      invariant Scan(queues, threads / 2, i, best, count, total) == Scan(queues, threads / 2, 2, 1, |queues[1]|, 0)
    {
      ghost var before := Scan(queues, threads / 2, i, best, count, total);
      if |queues[i]| > count {
        best := i;
        count := |queues[i]|;
      }
      total := total + |queues[i]|;
      if total > threads / 2 {
        assert best == before;
        break;
      }
      i := i + 1;
    }
  }

  /** `_freeContexts[i] = i` over the resized pool. */
  method Enumerate(pool: seq<nat>) returns (r: seq<nat>)
    ensures r == Range(|pool|)
  {
    r := pool;
    for i := 0 to |pool|
      invariant |r| == |pool|
      invariant forall j :: 0 <= j < i ==> r[j] == j
    {
      r := r[i := i];
    }
  }

  class LLVMCooperativeThreadArray {
    const warpSize: WarpWidth
    var functions: seq<bool>
    var queuedThreads: seq<seq<nat>>
    var nextFunction: nat
    var guessFunction: nat
    var contexts: seq<Context>
    var stacks: seq<Stack>
    var sharedMemorySize: nat
    var gridDim: Dim3
    var blockDim: Dim3
    var freeContexts: seq<nat>
    var reclaimedContexts: seq<nat>

    function State(): CtaState
      reads this
    {
      CtaState(functions, queuedThreads, nextFunction, guessFunction, contexts, stacks,
        freeContexts, reclaimedContexts, gridDim, blockDim)
    }

    predicate Valid()
      reads this
    {
      ShapeOk(State())
    }

    /** The warp width is the configured one, but at least 4. The source
        leaves `_nextFunction` and `_guessFunction` uninitialised; here
        they start at 0. */
    constructor(configuredWarpSize: int)
      ensures warpSize >= 4 && warpSize >= configuredWarpSize
      ensures configuredWarpSize >= 4 ==> warpSize == configuredWarpSize
      ensures State() == CtaState([], [], 0, 0, [], [], [], [], Zero3, Zero3)
      ensures Valid()
    {
      warpSize := if configuredWarpSize > 4 then configuredWarpSize else 4;
      functions, queuedThreads := [], [];
      nextFunction, guessFunction := 0, 0;
      contexts, stacks := [], [];
      sharedMemorySize := 0;
      gridDim, blockDim := Zero3, Zero3;
      freeContexts, reclaimedContexts := [], [];
    }

    /** The function-table half of `setup(kernel)`: without a loaded module
        the tables grow to the module's function count; the kernel's own
        function is marked and becomes the next function. */
    method SetupFunctions(moduleLoaded: bool, functionCount: nat, functionId: nat)
      requires Valid()
      requires functionId < (if moduleLoaded then |functions| else functionCount)
      modifies this
      ensures Shaped(State())
      ensures var table := if moduleLoaded then old(functions) else Resize(old(functions), functionCount, false);
        var queues := if moduleLoaded then old(queuedThreads) else Resize(old(queuedThreads), functionCount, []);
        State() == old(State()).(functions := table[functionId := true], queued := queues, next := functionId)
    {
      if !moduleLoaded {
        functions := Resize(functions, functionCount, false);
        queuedThreads := Resize(queuedThreads, |functions|, []);
      }
      nextFunction := functionId;
      functions := functions[nextFunction := true];
    }

    /** `setup(kernel)`. The module manager is a parameter: whether the
        module is loaded, its function count and the kernel's function id. */
    method Setup(moduleLoaded: bool, functionCount: nat, functionId: nat,
                 kernelBlockDim: Dim3, kernelGridDim: Dim3, totalSharedMemorySize: nat)
      requires Valid()
      requires functionId < (if moduleLoaded then |functions| else functionCount)
      modifies this
      ensures Valid() && Shaped(State())
      ensures var table := if moduleLoaded then old(functions) else Resize(old(functions), functionCount, false);
        functions == table[functionId := true]
      ensures queuedThreads == if moduleLoaded then old(queuedThreads) else Resize(old(queuedThreads), functionCount, [])
      ensures nextFunction == functionId && guessFunction == old(guessFunction)
      ensures var threads := kernelBlockDim.x * kernelBlockDim.y * kernelBlockDim.z;
        && contexts == Resize(old(contexts), threads, BlankContext)
        && stacks == Resize(old(stacks), threads, NewStack)
        && freeContexts == Range(threads)
      ensures reclaimedContexts == old(reclaimedContexts)
      ensures sharedMemorySize == totalSharedMemorySize
      ensures gridDim == kernelGridDim && blockDim == kernelBlockDim
    {
      SetupFunctions(moduleLoaded, functionCount, functionId);
      var threads := kernelBlockDim.x * kernelBlockDim.y * kernelBlockDim.z;
      contexts := Resize(contexts, threads, BlankContext);
      stacks := Resize(stacks, threads, NewStack);
      sharedMemorySize := totalSharedMemorySize;
      gridDim, blockDim := kernelGridDim, kernelBlockDim;
      freeContexts := Enumerate(Resize(freeContexts, threads, 0));
    }

    method InitializeNewContext(threadId: nat, ctaId: nat) returns (c: nat)
      requires CanInit(State())
      modifies this
      ensures (State(), c) == Init(old(State()), threadId, ctaId)
    {
      if reclaimedContexts == [] {
        c := freeContexts[|freeContexts| - 1];
        freeContexts := freeContexts[..|freeContexts| - 1];
        var tid := ThreadIndex(threadId, gridDim);
        contexts := contexts[c := Context(gridDim, Dim3(ctaId % gridDim.x, ctaId / gridDim.y, 0), blockDim, tid)];
      } else {
        c := reclaimedContexts[|reclaimedContexts| - 1];
        reclaimedContexts := reclaimedContexts[..|reclaimedContexts| - 1];
        var context := contexts[c];
        contexts := contexts[c := context.(tid := ThreadIndex(threadId, context.nctaid))];
      }
    }

    method ExecuteThread(c: nat, native: Native)
      requires c < |contexts| && c < |stacks|
      modifies this
      ensures State() == Execute(old(State()), c, native)
    {
      var stack := stacks[c];
      var h := native(nextFunction, contexts[c], Top(stack));
      stacks := stacks[c := SetHeader(stack, h)];
    }

    method ExecuteWarp(cs: seq<nat>, native: Native)
      requires AllBelow(cs, |contexts|) && |stacks| == |contexts|
      modifies this
      ensures State() == ExecuteAll(old(State()), cs, native)
    {
      ghost var s0 := State();
      for i := 0 to |cs|
        invariant |stacks| == |contexts| == |s0.contexts|
        invariant ExecuteAll(State(), cs[i..], native) == ExecuteAll(s0, cs, native)
      {
        assert cs[i..][0] == cs[i] && cs[i..][1..] == cs[i + 1..];
        ExecuteThread(cs[i], native);
      }
    }

    method FinishContext(c: nat) returns (finished: bool)
      requires c < |stacks| && |queuedThreads| > 0
      modifies this
      ensures (State(), finished) == Finish(old(State()), c)
    {
      var stack := stacks[c];
      var h := Top(stack).header;
      if h.next == AllOnes {
        return true;
      }
      guessFunction := h.next;
      if h.next == 0 {
        queuedThreads := queuedThreads[0 := queuedThreads[0] + [c]];
        return false;
      }
      match h.call {
        case TailCall =>
          assert stacks[c := stack] == stacks;
        case NormalCall =>
          stacks := stacks[c := StackCall(stack, h.calleeSize, h.argSize)];
        case ReturnCall =>
          stacks := stacks[c := StackReturned(stack)];
        case OtherCall =>
          assert stacks[c := stack] == stacks;
      }
      return false;
    }

    method ReclaimContext(c: nat)
      requires c < |stacks| && |queuedThreads| > 0
      modifies this
      ensures State() == Reclaim(old(State()), c)
    {
      var finished := FinishContext(c);
      if finished {
        reclaimedContexts := reclaimedContexts + [c];
      }
    }

    method DestroyContext(c: nat)
      requires c < |stacks| && |queuedThreads| > 0
      modifies this
      ensures State() == Destroy(old(State()), c)
    {
      var finished := FinishContext(c);
      if finished {
        freeContexts := freeContexts + [c];
      }
    }

    method DestroyContexts()
      modifies this
      ensures State() == DestroyPools(old(State()))
    {
      freeContexts := freeContexts + reclaimedContexts;
      reclaimedContexts := [];
    }

    method ComputeNextFunction() returns (ok: bool)
      modifies this
      ensures var f := NextFunction(old(queuedThreads), old(guessFunction), |old(contexts)|);
        && ok == f.Some?
        && (ok && f.value < |old(functions)| ==>
              State() == old(State()).(next := f.value, functions := old(functions)[f.value := true]))
        && (!ok ==> State() == old(State()))
    {
      var n := |contexts|;
      if |queuedThreads| == 0 {
        return false;
      }
      if |queuedThreads[0]| == n {
        nextFunction := 0;
      } else if guessFunction >= |queuedThreads| {
        return false;
      } else if |queuedThreads[guessFunction]| == n {
        nextFunction := guessFunction;
      } else if |queuedThreads| < 2 {
        return false;
      } else {
        nextFunction := ScanQueues(queuedThreads, n);
      }
      if nextFunction < |functions| && !functions[nextFunction] {
        functions := functions[nextFunction := true];
      }
      ok := true;
    }

    /** The init loop of one initial warp: the thread ids `tids` are given
        contexts in order; false when an init would be undefined. */
    method InitWarp(tids: seq<nat>, ctaId: nat) returns (warpList: seq<nat>, ok: bool)
      requires Shaped(State())
      modifies this
      ensures (State(), warpList, ok) == InitAll(old(State()), tids, ctaId, [])
    {
      ghost var s0 := State();
      warpList := [];
      for thread := 0 to |tids|
        invariant Shaped(State()) && |contexts| == |s0.contexts| && AllBelow(warpList, |contexts|)
        invariant InitAll(State(), tids[thread..], ctaId, warpList) == InitAll(s0, tids, ctaId, [])
      {
        assert tids[thread..][0] == tids[thread] && tids[thread..][1..] == tids[thread + 1..];
        if !CanInit(State()) {
          return warpList, false;
        }
        var c := InitializeNewContext(tids[thread], ctaId);
        warpList := warpList + [c];
      }
      assert tids[|tids|..] == [];
      ok := true;
    }

    /** The finish-and-reclaim loop of one initial warp. */
    method ReclaimWarp(warpList: seq<nat>)
      requires AllBelow(warpList, |stacks|) && |queuedThreads| > 0
      modifies this
      ensures State() == ReclaimAll(old(State()), warpList)
    {
      ghost var s2 := State();
      for k := 0 to |warpList|
        invariant |stacks| == |s2.stacks| && |queuedThreads| == |s2.queued|
        invariant ReclaimAll(State(), warpList[k..]) == ReclaimAll(s2, warpList)
      {
        assert warpList[k..][0] == warpList[k] && warpList[k..][1..] == warpList[k + 1..];
        ReclaimContext(warpList[k]);
      }
    }

    /** One initial warp: initialise, run, then finish-and-reclaim. */
    method IssueWarp(tids: seq<nat>, ctaId: nat, native: Native) returns (ok: bool)
      requires Shaped(State())
      modifies this
      ensures (State(), ok) == IssueGroup(old(State()), tids, ctaId, native)
    {
      var warpList;
      warpList, ok := InitWarp(tids, ctaId);
      if !ok {
        return;
      }
      ExecuteWarp(warpList, native);
      ReclaimWarp(warpList);
    }

    /** The initial phase of `executeCta`: threads / warpSize full warps,
        then the warp of the remaining threads % warpSize. */
    method IssueInitialWarps(ctaId: nat, native: Native) returns (ok: bool)
      requires Shaped(State())
      modifies this
      ensures (State(), ok) == Issue(old(State()), warpSize, ctaId, native)
    {
      ghost var s0 := State();
      var threads := |contexts|;
      var warps := threads / warpSize;
      var groups: seq<seq<nat>> := Chunks(Range(threads), warpSize);
      ChunksShape(Range(threads), warpSize);
      for warp := 0 to warps
        invariant Shaped(State()) && |contexts| == threads
        invariant IssueGroups(State(), groups[warp..], ctaId, native) == IssueGroups(s0, groups, ctaId, native)
      {
        assert groups[warp..][0] == groups[warp] && groups[warp..][1..] == groups[warp + 1..];
        ok := IssueWarp(groups[warp], ctaId, native);
        if !ok {
          return;
        }
      }
      assert groups[warps..] == [groups[warps]];
      ok := IssueWarp(groups[warps], ctaId, native);
    }

    /** The warps of one drain round: warpSize ids at a time, then the
        remainder, in queue order. */
    method RunWarps(warpList: seq<nat>, native: Native)
      requires AllBelow(warpList, |contexts|) && |stacks| == |contexts|
      modifies this
      ensures State() == ExecuteAll(old(State()), warpList, native)
    {
      ghost var s1 := State();
      var warps := |warpList| / warpSize;
      var groups: seq<seq<nat>> := Chunks(warpList, warpSize);
      ChunksShape(warpList, warpSize);
      FlattenChunks(warpList, warpSize);
      for warp := 0 to warps
        invariant |stacks| == |contexts| == |s1.contexts|
        invariant AllBelow(Flatten(groups[warp..]), |contexts|)
        invariant ExecuteAll(State(), Flatten(groups[warp..]), native) == ExecuteAll(s1, warpList, native)
      {
        assert groups[warp..][0] == groups[warp] && groups[warp..][1..] == groups[warp + 1..];
        ExecuteAllAppend(State(), groups[warp], Flatten(groups[warp + 1..]), native);
        ExecuteWarp(groups[warp], native);
      }
      assert groups[warps..] == [groups[warps]];
      assert Flatten(groups[warps..]) == groups[warps] by {
        assert |groups[warps..][1..]| == 0;
      }
      ExecuteWarp(groups[warps], native);
    }

    /** The finish-and-destroy loop of one drain round. */
    method DestroyWarp(warpList: seq<nat>)
      requires AllBelow(warpList, |stacks|) && |queuedThreads| > 0
      modifies this
      ensures State() == DestroyAll(old(State()), warpList)
    {
      ghost var s2 := State();
      for k := 0 to |warpList|
        invariant |stacks| == |s2.stacks| && |queuedThreads| == |s2.queued|
        invariant DestroyAll(State(), warpList[k..]) == DestroyAll(s2, warpList)
      {
        assert warpList[k..][0] == warpList[k] && warpList[k..][1..] == warpList[k + 1..];
        DestroyContext(warpList[k]);
      }
    }

    /** One round of the drain loop: the chosen queue is moved out, run, and
        each of its ids finished-and-destroyed. */
    method RunQueue(native: Native) returns (ok: bool)
      requires Shaped(State())
      modifies this
      ensures (State(), ok) == DrainStep(old(State()), native)
    {
      ok := ComputeNextFunction();
      if !ok {
        return;
      }
      var warpList := queuedThreads[nextFunction];
      queuedThreads := queuedThreads[nextFunction := []];
      if !AllBelow(warpList, |contexts|) {
        return false;
      }
      RunWarps(warpList, native);
      DestroyWarp(warpList);
    }

    /** The drain loop of `executeCta`, for at most `fuel` rounds, and the
        final `_destroyContexts`. */
    method DrainQueues(native: Native, fuel: Budget) returns (outcome: Outcome)
      requires Shaped(State())
      modifies this
      ensures (State(), outcome) == Drain(old(State()), native, fuel)
    {
      ghost var target := Drain(State(), native, fuel);
      var threads := |contexts|;
      var remaining := fuel;
      while |freeContexts| != threads
        invariant Shaped(State()) && |contexts| == threads
        invariant Drain(State(), native, remaining) == target
        decreases remaining
      {
        ghost var before := State();
        if remaining.Spent? {
          DrainExhausted(before, native);
          return OutOfFuel;
        }
        var ok := RunQueue(native);
        DrainOneRound(before, native, remaining, State(), ok);
        if !ok {
          return Fault;
        }
        remaining := remaining.rest;
      }
      DrainDone(State(), native, remaining);
      DestroyContexts();
      return Completed;
    }

    /** `executeCta(ctaId)`, with at most `fuel` drain rounds. */
    method ExecuteCta(ctaId: nat, native: Native, fuel: Budget) returns (outcome: Outcome)
      requires Shaped(State())
      modifies this
      ensures Shaped(State())
      ensures (State(), outcome) == RunCta(old(State()), warpSize, ctaId, native, fuel)
    {
      var ok := IssueInitialWarps(ctaId, native);
      if !ok {
        return Fault;
      }
      outcome := DrainQueues(native, fuel);
    }
  }
}
