/** The thread numbering of a CTA and the specifications of the two CTA
    launch loops of LLVMExecutableKernel.

    A CTA of shape `ntid` holds threads() = ntid.x * ntid.y * ntid.z
    threads. threadId() numbers them linearly. The launch loops visit
    them z-major, x fastest. Each thread gets the slice
    `local + localSize * threadId()` of the local buffer, and the native
    function's return value is the thread's resume point. */
module ThreadGrid {
  import opened Util
  import opened PtxIR

  // ---------------------------------------------------------------------
  // Numbering
  // ---------------------------------------------------------------------

  /** LLVMExecutableKernel::threads */
  function ThreadCount(n: Dim3): nat
  {
    n.x * n.y * n.z
  }

  /** LLVMExecutableKernel::threadId */
  function LinearThreadId(n: Dim3, t: Dim3): nat
  {
    n.x * n.y * t.z + n.x * t.y + t.x
  }

  predicate InBlock(n: Dim3, t: Dim3)
  {
    t.x < n.x && t.y < n.y && t.z < n.z
  }

  /** A thread inside the block gets an id below threads(). */
  lemma LinearThreadIdBound(n: Dim3, t: Dim3)
    requires InBlock(n, t)
    ensures LinearThreadId(n, t) < ThreadCount(n)
  {
    var xy := n.x * n.y;
    assert n.x * t.y + t.x < n.x * (t.y + 1);
    MulMonotone(n.x, t.y + 1, n.y);
    assert xy * t.z + n.x * t.y + t.x < xy * t.z + xy;
    assert xy * t.z + xy == xy * (t.z + 1);
    MulMonotone(xy, t.z + 1, n.z);
  }

  /** threadId() in mixed radix: (ntid.y * tid.z + tid.y) * ntid.x + tid.x. */
  lemma MixedRadix(n: Dim3, t: Dim3)
    ensures LinearThreadId(n, t) == (n.y * t.z + t.y) * n.x + t.x
  {
    calc {
      (n.y * t.z + t.y) * n.x;
      (n.y * t.z) * n.x + t.y * n.x;
      { assert (n.y * t.z) * n.x == n.x * n.y * t.z; }
      n.x * n.y * t.z + n.x * t.y;
    }
  }

  /** No two threads of the block share an id. */
  lemma LinearThreadIdInjective(n: Dim3, t1: Dim3, t2: Dim3)
    requires InBlock(n, t1) && InBlock(n, t2)
    requires LinearThreadId(n, t1) == LinearThreadId(n, t2)
    ensures t1 == t2
  {
    var id := LinearThreadId(n, t1);
    MixedRadix(n, t1);
    MixedRadix(n, t2);
    var q1, q2 := n.y * t1.z + t1.y, n.y * t2.z + t2.y;
    DivModUnique(id, n.x, q1, t1.x);
    DivModUnique(id, n.x, q2, t2.x);
    assert q1 == q2;
    assert q1 == t1.z * n.y + t1.y && q2 == t2.z * n.y + t2.y;
    DivModUnique(q1, n.y, t1.z, t1.y);
    DivModUnique(q1, n.y, t2.z, t2.y);
  }

  // ---------------------------------------------------------------------
  // Visit order of the launch loops
  // ---------------------------------------------------------------------

  /** The innermost loop: x from `x` to ntid.x - 1. */
  function Row(n: Dim3, z: nat, y: nat, x: nat): seq<Dim3>
    decreases n.x - x
  {
    if x >= n.x then [] else [Dim3(x, y, z)] + Row(n, z, y, x + 1)
  }

  /** The middle loop: y from `y` on, each a full row. */
  function Plane(n: Dim3, z: nat, y: nat): seq<Dim3>
    decreases n.y - y
  {
    if y >= n.y then [] else Row(n, z, y, 0) + Plane(n, z, y + 1)
  }

  /** The outer loop: z from `z` on, each a full plane. */
  function Grid(n: Dim3, z: nat): seq<Dim3>
    decreases n.z - z
  {
    if z >= n.z then [] else Plane(n, z, 0) + Grid(n, z + 1)
  }

  /** The order in which a launch loop visits the threads of one CTA. */
  function Order(n: Dim3): seq<Dim3>
  {
    Grid(n, 0)
  }

  lemma {:induction false} RowIndex(n: Dim3, z: nat, y: nat, x: nat)
    requires x <= n.x
    ensures |Row(n, z, y, x)| == n.x - x
    ensures forall i :: 0 <= i < n.x - x ==> Row(n, z, y, x)[i] == Dim3(x + i, y, z)
    decreases n.x - x
  {
    if x < n.x {
      RowIndex(n, z, y, x + 1);
    }
  }

  lemma {:induction false} PlaneIndex(n: Dim3, z: nat, y: nat)
    requires y <= n.y && z < n.z
    ensures |Plane(n, z, y)| == n.x * (n.y - y)
    ensures forall i :: 0 <= i < |Plane(n, z, y)| ==>
      InBlock(n, Plane(n, z, y)[i]) && LinearThreadId(n, Plane(n, z, y)[i]) == n.x * n.y * z + n.x * y + i
    decreases n.y - y
  {
    if y < n.y {
      RowIndex(n, z, y, 0);
      PlaneIndex(n, z, y + 1);
      var row := Row(n, z, y, 0);
      var rest := Plane(n, z, y + 1);
      assert n.x * (n.y - y) == n.x + n.x * (n.y - (y + 1));
      assert n.x * (y + 1) == n.x * y + n.x;
      forall i | 0 <= i < |row + rest|
        ensures InBlock(n, (row + rest)[i])
        ensures LinearThreadId(n, (row + rest)[i]) == n.x * n.y * z + n.x * y + i
      {
        if i >= |row| {
          assert (row + rest)[i] == rest[i - n.x];
        }
      }
    }
  }

  lemma {:induction false} GridIndex(n: Dim3, z: nat)
    requires z <= n.z
    ensures |Grid(n, z)| == n.x * n.y * (n.z - z)
    ensures forall i :: 0 <= i < |Grid(n, z)| ==>
      InBlock(n, Grid(n, z)[i]) && LinearThreadId(n, Grid(n, z)[i]) == n.x * n.y * z + i
    decreases n.z - z
  {
    if z < n.z {
      PlaneIndex(n, z, 0);
      GridIndex(n, z + 1);
      var plane := Plane(n, z, 0);
      var rest := Grid(n, z + 1);
      var xy := n.x * n.y;
      assert xy * (n.z - z) == xy + xy * (n.z - (z + 1));
      assert xy * (z + 1) == xy * z + xy;
      forall i | 0 <= i < |plane + rest|
        ensures InBlock(n, (plane + rest)[i])
        ensures LinearThreadId(n, (plane + rest)[i]) == xy * z + i
      {
        if i >= |plane| {
          assert (plane + rest)[i] == rest[i - xy];
        }
      }
    }
  }

  /** The launch loops visit every thread of the block exactly once:
      position i holds the thread whose id is i. */
  lemma OrderIsNumbering(n: Dim3)
    ensures |Order(n)| == ThreadCount(n)
    ensures forall i :: 0 <= i < |Order(n)| ==> InBlock(n, Order(n)[i]) && LinearThreadId(n, Order(n)[i]) == i
    ensures forall t :: InBlock(n, t) ==> LinearThreadId(n, t) < |Order(n)| && Order(n)[LinearThreadId(n, t)] == t
  {
    GridIndex(n, 0);
    forall t | InBlock(n, t)
      ensures LinearThreadId(n, t) < |Order(n)| && Order(n)[LinearThreadId(n, t)] == t
    {
      LinearThreadIdBound(n, t);
      LinearThreadIdInjective(n, Order(n)[LinearThreadId(n, t)], t);
    }
  }

  /** The value `tid` holds after a launch loop has run the triple loop:
      each coordinate ends at its last value, or keeps its old value when
      its loop never ran. */
  function LastTid(n: Dim3, old_: Dim3): Dim3
  {
    if n.z == 0 then old_
    else if n.y == 0 then Dim3(old_.x, old_.y, n.z - 1)
    else if n.x == 0 then Dim3(old_.x, n.y - 1, n.z - 1)
    else Dim3(n.x - 1, n.y - 1, n.z - 1)
  }

  /** The z loop's `tid` after plane `z`: the plane's y and x loops end at
      their last values, or keep the old ones when they never ran. */
  lemma LastTidPlane(n: Dim3, t: Dim3, z: nat)
    ensures var before := if z == 0 then t else LastTid(Dim3(n.x, n.y, z), t);
      LastTid(Dim3(n.x, n.y, 1), before.(z := z)).(z := z) == LastTid(Dim3(n.x, n.y, z + 1), t)
  {
  }

  /** The y loop's `tid` after row `y`. */
  lemma LastTidRow(n: Dim3, t: Dim3, y: nat)
    ensures var before := LastTid(Dim3(n.x, y, 1), t).(z := t.z).(y := y);
      (if n.x == 0 then before else Dim3(n.x - 1, before.y, before.z)) == LastTid(Dim3(n.x, y + 1, 1), t).(z := t.z)
  {
  }

  lemma LastTidIdempotent(n: Dim3, t: Dim3)
    ensures LastTid(n, LastTid(n, t)) == LastTid(n, t)
  {
  }

  // ---------------------------------------------------------------------
  // _launchCtaNoBarriers
  // ---------------------------------------------------------------------

  /** The translated kernel without barriers: the resume value a thread
      returns, given its tid and local slice. */
  type PlainKernel = (Dim3, nat) -> u32

  /** The local slice `local + localSize * threadId()` of a thread. */
  function SliceOf(n: Dim3, base: nat, localSize: nat, t: Dim3): nat
  {
    base + localSize * LinearThreadId(n, t)
  }

  /** Every listed thread returns 0. */
  predicate AllFinish(f: PlainKernel, n: Dim3, base: nat, localSize: nat, ts: seq<Dim3>)
  {
    forall i :: 0 <= i < |ts| ==> f(ts[i], SliceOf(n, base, localSize, ts[i])) == 0
  }

  lemma AllFinishCons(f: PlainKernel, n: Dim3, base: nat, localSize: nat, t: Dim3, ts: seq<Dim3>)
    ensures AllFinish(f, n, base, localSize, [t] + ts)
      == (f(t, SliceOf(n, base, localSize, t)) == 0 && AllFinish(f, n, base, localSize, ts))
  {
    var all := [t] + ts;
    assert forall i :: 1 <= i < |all| ==> all[i] == ts[i - 1];
    if AllFinish(f, n, base, localSize, ts) && f(t, SliceOf(n, base, localSize, t)) == 0 {
      forall i | 0 <= i < |all| ensures f(all[i], SliceOf(n, base, localSize, all[i])) == 0 {
        if i > 0 {
          assert all[i] == ts[i - 1];
        }
      }
    }
    if AllFinish(f, n, base, localSize, all) {
      assert all[0] == t;
      forall i | 0 <= i < |ts| ensures f(ts[i], SliceOf(n, base, localSize, ts[i])) == 0 {
        assert all[i + 1] == ts[i];
      }
    }
  }

  // ---------------------------------------------------------------------
  // _launchCtaWithBarriers
  // ---------------------------------------------------------------------

  /** The translated kernel with barriers: in sweep `sweep`, the thread
      `tid` with local slice `local`, whose resume word holds `resume`,
      runs to its next barrier or to its end and returns where to resume
      (0 when it has finished). Effects on other memory are not modelled. */
  type BarrierKernel = (nat, Dim3, nat, u32) -> u32

  /** What stays fixed during one launch: the kernel, the block shape, the
      local base, the per-thread local size and the resume word's offset. */
  datatype Launch = Launch(f: BarrierKernel, n: Dim3, base: nat, localSize: nat, offset: nat)

  /** The address of a thread's resume word. */
  function ResumeSlot(l: Launch, id: nat): nat
  {
    l.base + id * l.localSize + l.offset
  }

  /** An unwritten word reads as 0. */
  function Word(w: map<nat, u32>, a: nat): u32
  {
    if a in w then w[a] else 0
  }

  /** The zeroing loop, from thread index `i` to `count`. */
  function ZeroResume(l: Launch, w: map<nat, u32>, i: nat, count: nat): map<nat, u32>
    decreases count - i
  {
    if i >= count then w else ZeroResume(l, w[ResumeSlot(l, i) := 0], i + 1, count)
  }

  /** The zeroing loop's effect: every resume word from `i` on reads 0; every
      other address keeps its value. */
  lemma {:induction false} ZeroResumeEffect(l: Launch, w: map<nat, u32>, i: nat, count: nat)
    ensures forall j :: i <= j < count ==> Word(ZeroResume(l, w, i, count), ResumeSlot(l, j)) == 0
    ensures forall a :: (forall j :: i <= j < count ==> a != ResumeSlot(l, j)) ==>
      Word(ZeroResume(l, w, i, count), a) == Word(w, a)
    decreases count - i
  {
    if i < count {
      var w1 := w[ResumeSlot(l, i) := 0];
      ZeroResumeEffect(l, w1, i + 1, count);
      forall j | i <= j < count
        ensures Word(ZeroResume(l, w, i, count), ResumeSlot(l, j)) == 0
      {
        if j != i && ResumeSlot(l, j) != ResumeSlot(l, i) {
          assert Word(w1, ResumeSlot(l, j)) == Word(w, ResumeSlot(l, j));
        }
      }
    }
  }

  datatype SweepState = SweepState(words: map<nat, u32>, done: bool)

  /** One thread of a sweep: run it on its slice and resume word, store the
      returned value back, and clear `done` unless it returned 0. */
  function Step(l: Launch, sweep: nat, s: SweepState, t: Dim3): SweepState
  {
    var local := SliceOf(l.n, l.base, l.localSize, t);
    var resume := l.f(sweep, t, local, Word(s.words, local + l.offset));
    SweepState(s.words[local + l.offset := resume], s.done && resume == 0)
  }

  /** A sweep over the listed threads, in order. */
  function Sweep(l: Launch, sweep: nat, s: SweepState, ts: seq<Dim3>): SweepState
    decreases |ts|
  {
    if ts == [] then s else Sweep(l, sweep, Step(l, sweep, s, ts[0]), ts[1..])
  }

  datatype LaunchOutcome = LaunchOutcome(words: map<nat, u32>, finished: bool, sweeps: nat)

  /** The `while( !done )` loop, run for at most `fuel` more sweeps. */
  function Sweeps(l: Launch, w: map<nat, u32>, sweep: nat, fuel: nat): LaunchOutcome
    decreases fuel
  {
    if fuel == 0 then LaunchOutcome(w, false, sweep)
    else
      var s := Sweep(l, sweep, SweepState(w, true), Order(l.n));
      if s.done then LaunchOutcome(s.words, true, sweep + 1) else Sweeps(l, s.words, sweep + 1, fuel - 1)
  }

  /** The value thread `t` returns in a sweep that starts from words `w`:
      it is run on its own slice and sees its own resume word. */
  function Returned(l: Launch, sweep: nat, w: map<nat, u32>, t: Dim3): u32
  {
    var local := SliceOf(l.n, l.base, l.localSize, t);
    l.f(sweep, t, local, Word(w, local + l.offset))
  }

  /** Distinct threads have distinct resume words. */
  predicate SeparateSlots(l: Launch)
  {
    l.localSize > 0
  }

  lemma SlotsDistinct(l: Launch, t1: Dim3, t2: Dim3)
    requires SeparateSlots(l) && InBlock(l.n, t1) && InBlock(l.n, t2) && t1 != t2
    ensures SliceOf(l.n, l.base, l.localSize, t1) + l.offset != SliceOf(l.n, l.base, l.localSize, t2) + l.offset
  {
    var i1, i2 := LinearThreadId(l.n, t1), LinearThreadId(l.n, t2);
    if i1 == i2 {
      LinearThreadIdInjective(l.n, t1, t2);
    } else if i1 < i2 {
      MulMonotone(l.localSize, i1 + 1, i2);
    } else {
      MulMonotone(l.localSize, i2 + 1, i1);
    }
  }

  /** A sweep over distinct threads of the block, with separate resume
      words:
      - each thread runs on the resume word it had when the sweep began
        and its word ends holding what it returned;
      - every other address is unchanged;
      - the sweep clears `done` iff some thread returned nonzero. */
  lemma SweepEffect(l: Launch, sweep: nat, s: SweepState, ts: seq<Dim3>)
    requires SeparateSlots(l) && Distinct(ts)
    requires forall i :: 0 <= i < |ts| ==> InBlock(l.n, ts[i])
    ensures var r := Sweep(l, sweep, s, ts);
      && (forall i :: 0 <= i < |ts| ==>
            Word(r.words, SliceOf(l.n, l.base, l.localSize, ts[i]) + l.offset) == Returned(l, sweep, s.words, ts[i]))
      && (forall a :: (forall i :: 0 <= i < |ts| ==> a != SliceOf(l.n, l.base, l.localSize, ts[i]) + l.offset) ==>
            Word(r.words, a) == Word(s.words, a))
      && (r.done <==> s.done && forall i :: 0 <= i < |ts| ==> Returned(l, sweep, s.words, ts[i]) == 0)
  {
    SweepFrame(l, sweep, s, ts);
    SweepSlots(l, sweep, s, ts);
    SweepDone(l, sweep, s, ts);
  }

  /** The tail of a list of distinct threads of the block: still distinct,
      and no listed thread shares the head's resume word. The head's step
      leaves every later thread's view unchanged. */
  lemma SweepTail(l: Launch, sweep: nat, s: SweepState, ts: seq<Dim3>)
    requires SeparateSlots(l) && Distinct(ts) && ts != []
    requires forall i :: 0 <= i < |ts| ==> InBlock(l.n, ts[i])
    ensures Distinct(ts[1..]) && forall i :: 0 <= i < |ts| - 1 ==> InBlock(l.n, ts[1..][i])
    ensures forall i :: 0 <= i < |ts| - 1 ==>
      && SliceOf(l.n, l.base, l.localSize, ts[1..][i]) + l.offset != SliceOf(l.n, l.base, l.localSize, ts[0]) + l.offset
      && Returned(l, sweep, Step(l, sweep, s, ts[0]).words, ts[1..][i]) == Returned(l, sweep, s.words, ts[1..][i])
  {
    var rest := ts[1..];
    assert forall i :: 0 <= i < |rest| ==> rest[i] == ts[i + 1];
    forall i | 0 <= i < |rest|
      ensures SliceOf(l.n, l.base, l.localSize, rest[i]) + l.offset != SliceOf(l.n, l.base, l.localSize, ts[0]) + l.offset
    {
      SlotsDistinct(l, rest[i], ts[0]);
    }
  }

  lemma SweepFrame(l: Launch, sweep: nat, s: SweepState, ts: seq<Dim3>)
    ensures forall a :: (forall i :: 0 <= i < |ts| ==> a != SliceOf(l.n, l.base, l.localSize, ts[i]) + l.offset) ==>
      Word(Sweep(l, sweep, s, ts).words, a) == Word(s.words, a)
  {
    forall a | (forall i :: 0 <= i < |ts| ==> a != SliceOf(l.n, l.base, l.localSize, ts[i]) + l.offset)
      ensures Word(Sweep(l, sweep, s, ts).words, a) == Word(s.words, a)
    {
      SweepFrameAt(l, sweep, s, ts, a);
    }
  }

  lemma {:induction false} SweepFrameAt(l: Launch, sweep: nat, s: SweepState, ts: seq<Dim3>, a: nat)
    requires forall i :: 0 <= i < |ts| ==> a != SliceOf(l.n, l.base, l.localSize, ts[i]) + l.offset
    ensures Word(Sweep(l, sweep, s, ts).words, a) == Word(s.words, a)
    decreases |ts|
  {
    if ts != [] {
      assert a != SliceOf(l.n, l.base, l.localSize, ts[0]) + l.offset;
      assert forall i :: 0 <= i < |ts| - 1 ==> ts[1..][i] == ts[i + 1];
      SweepFrameAt(l, sweep, Step(l, sweep, s, ts[0]), ts[1..], a);
    }
  }

  lemma {:induction false} SweepSlots(l: Launch, sweep: nat, s: SweepState, ts: seq<Dim3>)
    requires SeparateSlots(l) && Distinct(ts)
    requires forall i :: 0 <= i < |ts| ==> InBlock(l.n, ts[i])
    ensures forall i :: 0 <= i < |ts| ==>
      Word(Sweep(l, sweep, s, ts).words, SliceOf(l.n, l.base, l.localSize, ts[i]) + l.offset)
        == Returned(l, sweep, s.words, ts[i])
    decreases |ts|
  {
    if ts != [] {
      var s1 := Step(l, sweep, s, ts[0]);
      var rest := ts[1..];
      var r := Sweep(l, sweep, s, ts);
      assert r == Sweep(l, sweep, s1, rest);
      SweepTail(l, sweep, s, ts);
      SweepSlots(l, sweep, s1, rest);
      var mine := SliceOf(l.n, l.base, l.localSize, ts[0]) + l.offset;
      assert Word(r.words, mine) == Returned(l, sweep, s.words, ts[0]) by {
        SweepFrameAt(l, sweep, s1, rest, mine);
      }
      forall i | 1 <= i < |ts|
        ensures Word(r.words, SliceOf(l.n, l.base, l.localSize, ts[i]) + l.offset) == Returned(l, sweep, s.words, ts[i])
      {
        assert ts[i] == rest[i - 1];
      }
    }
  }

  lemma {:induction false} SweepDone(l: Launch, sweep: nat, s: SweepState, ts: seq<Dim3>)
    requires SeparateSlots(l) && Distinct(ts)
    requires forall i :: 0 <= i < |ts| ==> InBlock(l.n, ts[i])
    ensures Sweep(l, sweep, s, ts).done <==> s.done && forall i :: 0 <= i < |ts| ==> Returned(l, sweep, s.words, ts[i]) == 0
    decreases |ts|
  {
    if ts != [] {
      var s1 := Step(l, sweep, s, ts[0]);
      var rest := ts[1..];
      SweepTail(l, sweep, s, ts);
      SweepDone(l, sweep, s1, rest);
      assert s1.done == (s.done && Returned(l, sweep, s.words, ts[0]) == 0);
      assert forall i :: 0 <= i < |ts| ==> ts[i] == if i == 0 then ts[0] else rest[i - 1];
    }
  }

  /** The loop exits only after a sweep in which every thread returned 0:
      a finished launch ran at least one sweep, and the words before its
      last sweep made every thread return 0. A launch that did not finish
      used up all its sweeps. */
  lemma {:induction false} SweepsExit(l: Launch, w: map<nat, u32>, sweep: nat, fuel: nat)
    ensures var o := Sweeps(l, w, sweep, fuel);
      && sweep <= o.sweeps <= sweep + fuel
      && (!o.finished ==> o.sweeps == sweep + fuel)
      && (o.finished ==> sweep < o.sweeps && exists before: map<nat, u32> ::
            && Sweep(l, o.sweeps - 1, SweepState(before, true), Order(l.n)).done
            && Sweep(l, o.sweeps - 1, SweepState(before, true), Order(l.n)).words == o.words)
    decreases fuel
  {
    if fuel > 0 {
      var s := Sweep(l, sweep, SweepState(w, true), Order(l.n));
      if !s.done {
        SweepsExit(l, s.words, sweep + 1, fuel - 1);
      }
    }
  }

  // ---------------------------------------------------------------------
  // Stepping through the visit order, as the triple loops do
  // ---------------------------------------------------------------------

  /** A list of threads all finish iff both its halves do. */
  lemma AllFinishAppend(f: PlainKernel, n: Dim3, base: nat, localSize: nat, a: seq<Dim3>, b: seq<Dim3>)
    ensures AllFinish(f, n, base, localSize, a + b)
      == (AllFinish(f, n, base, localSize, a) && AllFinish(f, n, base, localSize, b))
  {
    var ab := a + b;
    assert forall i :: 0 <= i < |a| ==> ab[i] == a[i];
    assert forall i :: 0 <= i < |b| ==> ab[|a| + i] == b[i];
  }

  /** Sweeping a list of threads is sweeping its first part and then the
      rest. */
  lemma {:induction false} SweepAppend(l: Launch, sweep: nat, s: SweepState, a: seq<Dim3>, b: seq<Dim3>)
    ensures Sweep(l, sweep, s, a + b) == Sweep(l, sweep, Sweep(l, sweep, s, a), b)
    decreases |a|
  {
    if a == [] {
      assert a + b == b;
    } else {
      assert (a + b)[1..] == a[1..] + b;
      SweepAppend(l, sweep, Step(l, sweep, s, a[0]), a[1..], b);
    }
  }

  lemma SweepCons(l: Launch, sweep: nat, s: SweepState, t: Dim3, ts: seq<Dim3>)
    ensures Sweep(l, sweep, s, [t] + ts) == Sweep(l, sweep, Step(l, sweep, s, t), ts)
  {
    assert ([t] + ts)[1..] == ts;
  }

  /** A block has threads iff every extent is positive. */
  lemma ThreadCountPositive(n: Dim3)
    ensures ThreadCount(n) > 0 <==> n.x > 0 && n.y > 0 && n.z > 0
  {
    if n.x > 0 && n.y > 0 && n.z > 0 {
      MulAtLeast(n.x, n.y);
      MulAtLeast(n.x * n.y, n.z);
    }
  }
}
