/**
 * The command-line PTX-to-PTX optimizer: parsing of the pass list
 * (parsePassTypes), the mapping of the allocator option in main, and the
 * order in which optimize runs the selected kernel passes around the
 * conversion to SSA form.
 */
module PtxOptimizer {

  // ---------------------------------------------------------------------
  // Option values
  // ---------------------------------------------------------------------

  /** The flags of PTXOptimizer::PassType. A bit set is modelled as the set
      of flags it holds; InvalidPassType is the empty set and `|=` is
      union. */
  datatype PassType = RemoveBarriers | ReverseIfConversion

  type PassTypes = set<PassType>

  datatype RegisterAllocationType = InvalidRegisterAllocationType | LinearScan

  /** The option name that selects each flag. */
  function NameOf(p: PassType): string
  {
    match p
    case RemoveBarriers => "remove-barriers"
    case ReverseIfConversion => "reverse-if-conversion"
  }

  // ---------------------------------------------------------------------
  // String helpers (hydrazine::split and hydrazine::strip)
  // ---------------------------------------------------------------------

  /** The pieces of s between occurrences of d, empty pieces included;
      there is always at least one piece and none holds d. */
  function Split(s: string, d: char): (r: seq<string>)
    ensures |r| >= 1
    ensures forall i :: 0 <= i < |r| ==> d !in r[i]
    decreases |s|
  {
    if s == [] then [[]]
    else
      var rest := Split(s[1..], d);
      if s[0] == d then [[]] + rest
      else [[s[0]] + rest[0]] + rest[1..]
  }

  /** The pieces put back together with d between them. */
  function Join(parts: seq<string>, d: char): string
    requires |parts| >= 1
    decreases |parts|
  {
    if |parts| == 1 then parts[0] else parts[0] + [d] + Join(parts[1..], d)
  }

  /** Splitting loses nothing: joining the pieces gives the string back. */
  lemma {:induction false} JoinSplit(s: string, d: char)
    ensures Join(Split(s, d), d) == s
    decreases |s|
  {
    if s != [] {
      var rest := Split(s[1..], d);
      JoinSplit(s[1..], d);
      if s[0] == d {
        assert ([[]] + rest)[1..] == rest;
        assert s == [d] + s[1..];
      } else if |rest| == 1 {
        assert s == [s[0]] + s[1..];
      } else {
        var r := [[s[0]] + rest[0]] + rest[1..];
        assert r[1..] == rest[1..];
        assert Join(rest, d) == rest[0] + [d] + Join(rest[1..], d);
        assert s == [s[0]] + s[1..];
      }
    }
  }

  /** A delimiter splits the string into the pieces of either side. */
  lemma {:induction false} SplitAround(x: string, y: string, d: char)
    ensures Split(x + [d] + y, d) == Split(x, d) + Split(y, d)
    decreases |x|
  {
    if x == [] {
      assert x + [d] + y == [d] + y;
      assert ([d] + y)[1..] == y;
    } else {
      var s := x + [d] + y;
      assert s[0] == x[0] && s[1..] == x[1..] + [d] + y;
      SplitAround(x[1..], y, d);
      var rest := Split(s[1..], d);
      assert rest == Split(x[1..], d) + Split(y, d);
      if x[0] != d {
        assert rest[0] == Split(x[1..], d)[0];
        assert rest[1..] == Split(x[1..], d)[1..] + Split(y, d);
      }
    }
  }

  /** A string without the delimiter is a single piece. */
  lemma {:induction false} SplitSingle(x: string, d: char)
    requires d !in x
    ensures Split(x, d) == [x]
    decreases |x|
  {
    if x != [] {
      assert d !in x[1..];
      SplitSingle(x[1..], d);
      assert x == [x[0]] + x[1..];
    }
  }

  /** Pieces without the delimiter are got back by splitting their join. */
  lemma {:induction false} SplitJoin(parts: seq<string>, d: char)
    requires |parts| >= 1
    requires forall i :: 0 <= i < |parts| ==> d !in parts[i]
    ensures Split(Join(parts, d), d) == parts
    decreases |parts|
  {
    SplitSingle(parts[0], d);
    if |parts| > 1 {
      SplitJoin(parts[1..], d);
      SplitAround(parts[0], Join(parts[1..], d), d);
      assert parts == [parts[0]] + parts[1..];
    }
  }

  /** The position of the first non-space of s at or after i. */
  function SkipLeading(s: string, i: nat): (n: nat)
    requires i <= |s|
    ensures i <= n <= |s|
    ensures forall k :: i <= k < n ==> s[k] == ' '
    ensures n == |s| || s[n] != ' '
    decreases |s| - i
  {
    if i < |s| && s[i] == ' ' then SkipLeading(s, i + 1) else i
  }

  /** The end of s[lo..j] once its trailing spaces are dropped. */
  function SkipTrailing(s: string, lo: nat, j: nat): (n: nat)
    requires lo <= j <= |s|
    ensures lo <= n <= j
    ensures forall k :: n <= k < j ==> s[k] == ' '
    ensures n == lo || s[n - 1] != ' '
    decreases j
  {
    if lo < j && s[j - 1] == ' ' then SkipTrailing(s, lo, j - 1) else j
  }

  /** hydrazine::strip with " ": the spaces at both ends removed. */
  function Strip(s: string): string
  {
    var i := SkipLeading(s, 0);
    s[i..SkipTrailing(s, i, |s|)]
  }

  /** Strip removes spaces at the two ends and nothing else: the result
      is a slice of s with only spaces around it, and it neither starts
      nor ends with a space. */
  lemma StripSpec(s: string)
    ensures var r := Strip(s);
      r == [] || (r[0] != ' ' && r[|r| - 1] != ' ')
    ensures exists i, j :: (0 <= i <= j <= |s| && Strip(s) == s[i..j]
      && (forall k :: 0 <= k < i ==> s[k] == ' ')
      && (forall k :: j <= k < |s| ==> s[k] == ' '))
  {
    var i := SkipLeading(s, 0);
    var j := SkipTrailing(s, i, |s|);
    assert Strip(s) == s[i..j];
  }

  /** Stripping twice is stripping once. */
  lemma StripIdempotent(s: string)
    ensures Strip(Strip(s)) == Strip(s)
  {
    var r := Strip(s);
    StripSpec(s);
    assert SkipLeading(r, 0) == 0;
    assert SkipTrailing(r, 0, |r|) == |r|;
  }

  // ---------------------------------------------------------------------
  // parsePassTypes
  // ---------------------------------------------------------------------

  /** The flag one stripped item turns on: the flag it names, or nothing
      for an unknown name. */
  function Flag(name: string): (r: PassTypes)
    ensures forall p :: p in r <==> name == NameOf(p)
  {
    if name == "remove-barriers" then {RemoveBarriers}
    else if name == "reverse-if-conversion" then {ReverseIfConversion}
    else {}
  }

  /** The flags ORed in by the loop over `names`, start value InvalidPassType. */
  function Matched(names: seq<string>): PassTypes
    decreases |names|
  {
    if names == [] then {} else Matched(names[..|names| - 1]) + Flag(names[|names| - 1])
  }

  /** The names reported by the "Unknown pass name" warning, in order. */
  function Unknown(names: seq<string>): seq<string>
    decreases |names|
  {
    if names == [] then []
    else Unknown(names[..|names| - 1]) + (if Flag(names[|names| - 1]) == {} then [names[|names| - 1]] else [])
  }

  /** Every item stripped of surrounding spaces. */
  function Stripped(items: seq<string>): (r: seq<string>)
    ensures |r| == |items|
    ensures forall i :: 0 <= i < |items| ==> r[i] == Strip(items[i])
  {
    seq(|items|, i requires 0 <= i < |items| => Strip(items[i]))
  }

  /** The result of parsePassTypes on a comma-separated pass list. */
  function PassTypesOf(passList: string): PassTypes
  {
    Matched(Stripped(Split(passList, ',')))
  }

  /** A flag is set exactly when some item names it. */
  lemma {:induction false} MatchedMembers(names: seq<string>, p: PassType)
    ensures p in Matched(names) <==> exists i :: 0 <= i < |names| && names[i] == NameOf(p)
    decreases |names|
  {
    if names != [] {
      var init := names[..|names| - 1];
      MatchedMembers(init, p);
      if p in Matched(init) {
        var i :| 0 <= i < |init| && init[i] == NameOf(p);
        assert names[i] == NameOf(p);
      }
      if exists i :: 0 <= i < |names| && names[i] == NameOf(p) {
        var i :| 0 <= i < |names| && names[i] == NameOf(p);
        if i < |init| {
          assert init[i] == NameOf(p);
        }
      }
    }
  }

  /** The loop is a fold with `|=`: it distributes over concatenation. */
  lemma {:induction false} MatchedAppend(a: seq<string>, b: seq<string>)
    ensures Matched(a + b) == Matched(a) + Matched(b)
    decreases |b|
  {
    if b == [] {
      assert a + b == a;
    } else {
      var b0 := b[..|b| - 1];
      assert (a + b)[..|a + b| - 1] == a + b0;
      MatchedAppend(a, b0);
    }
  }

  /** Duplicates and the order of the items do not matter: two lists with
      the same names give the same flags. */
  lemma MatchedSameNames(a: seq<string>, b: seq<string>)
    requires forall x :: x in a <==> x in b
    ensures Matched(a) == Matched(b)
  {
    forall p
      ensures p in Matched(a) <==> p in Matched(b)
    {
      MatchedMembers(a, p);
      MatchedMembers(b, p);
      if exists i :: 0 <= i < |a| && a[i] == NameOf(p) {
        var i :| 0 <= i < |a| && a[i] == NameOf(p);
        assert a[i] in b;
      }
      if exists i :: 0 <= i < |b| && b[i] == NameOf(p) {
        var i :| 0 <= i < |b| && b[i] == NameOf(p);
        assert b[i] in a;
      }
    }
  }

  /** An unknown name leaves the flags as they were. */
  lemma UnknownIgnored(a: seq<string>, x: string, b: seq<string>)
    requires Flag(x) == {}
    ensures Matched(a + [x] + b) == Matched(a + b)
  {
    MatchedAppend(a + [x], b);
    MatchedAppend(a, b);
    assert (a + [x])[..|a + [x]| - 1] == a;
  }

  lemma StrippedAppend(a: seq<string>, b: seq<string>)
    ensures Stripped(a + b) == Stripped(a) + Stripped(b)
  {
  }

  /** The flags of "x,y" are those of x together with those of y. */
  lemma PassTypesOfAround(x: string, y: string)
    ensures PassTypesOf(x + [','] + y) == PassTypesOf(x) + PassTypesOf(y)
  {
    SplitAround(x, y, ',');
    StrippedAppend(Split(x, ','), Split(y, ','));
    MatchedAppend(Stripped(Split(x, ',')), Stripped(Split(y, ',')));
  }

  /** Swapping two parts of the list does not change the result. */
  lemma PassTypesOfSwap(x: string, y: string)
    ensures PassTypesOf(x + [','] + y) == PassTypesOf(y + [','] + x)
  {
    PassTypesOfAround(x, y);
    PassTypesOfAround(y, x);
  }

  /** Repeating the list does not change the result. */
  lemma PassTypesOfRepeat(x: string)
    ensures PassTypesOf(x + [','] + x) == PassTypesOf(x)
  {
    PassTypesOfAround(x, x);
  }

  /** A flag is in the result exactly when some item of the list, stripped
      of surrounding spaces, is its name. */
  lemma PassTypesOfMembers(passList: string, p: PassType)
    ensures p in PassTypesOf(passList) <==>
      exists i :: 0 <= i < |Split(passList, ',')| && Strip(Split(passList, ',')[i]) == NameOf(p)
  {
    var items := Split(passList, ',');
    MatchedMembers(Stripped(items), p);
    if p in PassTypesOf(passList) {
      var i :| 0 <= i < |items| && Stripped(items)[i] == NameOf(p);
      assert Strip(items[i]) == NameOf(p);
    }
  }

  /** pass list "" gives InvalidPassType: the one empty item sets nothing. */
  lemma EmptyListIgnored()
    ensures PassTypesOf([]) == {}
  {
    assert Split([], ',') == [[]];
    assert Stripped([[]]) == [[]];
    assert Stripped([[]])[..0] == [];
  }

  /** An empty item, from a leading or a trailing comma, sets nothing. */
  lemma EmptyItemIgnored(x: string)
    ensures PassTypesOf([','] + x) == PassTypesOf(x)
    ensures PassTypesOf(x + [',']) == PassTypesOf(x)
  {
    EmptyListIgnored();
    PassTypesOfAround([], x);
    assert [] + [','] + x == [','] + x;
    PassTypesOfAround(x, []);
    assert x + [','] + [] == x + [','];
  }

  /** parsePassTypes: returns the flags and the names that drew the
      "Unknown pass name" warning. */
  method ParsePassTypes(passList: string) returns (types: PassTypes, unknown: seq<string>)
    ensures types == PassTypesOf(passList)
    ensures unknown == Unknown(Stripped(Split(passList, ',')))
  {
    var passes := Split(passList, ',');
    ghost var items := passes;
    ghost var names := Stripped(items);
    types, unknown := {}, [];
    for i := 0 to |passes|
      invariant |passes| == |items|
      invariant forall j :: 0 <= j < i ==> passes[j] == names[j]
      invariant forall j :: i <= j < |passes| ==> passes[j] == items[j]
      invariant types == Matched(names[..i])
      invariant unknown == Unknown(names[..i])
    {
      passes := passes[i := Strip(passes[i])];
      assert names[..i + 1][..i] == names[..i];
      assert names[..i + 1][i] == passes[i];
      if passes[i] == "remove-barriers" {
        types := types + {RemoveBarriers};
      } else if passes[i] == "reverse-if-conversion" {
        types := types + {ReverseIfConversion};
      } else {
        unknown := unknown + [passes[i]];
      }
    }
    assert names[..|passes|] == names;
  }

  // ---------------------------------------------------------------------
  // The allocator option of main
  // ---------------------------------------------------------------------

  /** main turns LinearScan on only for the exact string "linearscan";
      anything else keeps the constructor's InvalidRegisterAllocationType. */
  function AllocatorFor(allocator: string): (r: RegisterAllocationType)
    ensures r == LinearScan <==> allocator == "linearscan"
    ensures r != LinearScan ==> r == InvalidRegisterAllocationType
  {
    if allocator == "linearscan" then LinearScan else InvalidRegisterAllocationType
  }

  // ---------------------------------------------------------------------
  // optimize
  // ---------------------------------------------------------------------

  /** The kernel passes optimize can create. */
  datatype KernelPass =
    | LinearScanRegisterAllocation(registers: nat)
    | RemoveBarrierPass
    | ConvertPredicationToSelectPass

  /** The passes optimize creates, in its order: the register allocator,
      then barrier removal, then reverse if-conversion. */
  function Selected(allocation: RegisterAllocationType, passes: PassTypes, registers: nat): (r: seq<KernelPass>)
    ensures forall p :: p in r <==>
      || (p == LinearScanRegisterAllocation(registers) && allocation == LinearScan)
      || (p == RemoveBarrierPass && RemoveBarriers in passes)
      || (p == ConvertPredicationToSelectPass && ReverseIfConversion in passes)
  {
    (if allocation == LinearScan then [LinearScanRegisterAllocation(registers)] else [])
    + (if RemoveBarriers in passes then [RemoveBarrierPass] else [])
    + (if ReverseIfConversion in passes then [ConvertPredicationToSelectPass] else [])
  }

  /** The passes whose `ssa` flag is `want`, in their order. */
  function Bucket(ps: seq<KernelPass>, ssa: KernelPass -> bool, want: bool): seq<KernelPass>
    decreases |ps|
  {
    if ps == [] then []
    else Bucket(ps[..|ps| - 1], ssa, want) + (if ssa(ps[|ps| - 1]) == want then [ps[|ps| - 1]] else [])
  }

  lemma {:induction false} BucketAppend(a: seq<KernelPass>, b: seq<KernelPass>, ssa: KernelPass -> bool, want: bool)
    ensures Bucket(a + b, ssa, want) == Bucket(a, ssa, want) + Bucket(b, ssa, want)
    decreases |b|
  {
    if b == [] {
      assert a + b == a;
    } else {
      var b0 := b[..|b| - 1];
      assert (a + b)[..|a + b| - 1] == a + b0;
      BucketAppend(a, b0, ssa, want);
    }
  }

  /** A bucket holds exactly the passes with the wanted flag, and the two
      buckets together are as long as the list. */
  lemma {:induction false} BucketMembers(ps: seq<KernelPass>, ssa: KernelPass -> bool, want: bool)
    ensures forall p :: p in Bucket(ps, ssa, want) <==> p in ps && ssa(p) == want
    ensures |Bucket(ps, ssa, true)| + |Bucket(ps, ssa, false)| == |ps|
    decreases |ps|
  {
    if ps != [] {
      var init := ps[..|ps| - 1];
      assert ps == init + [ps[|ps| - 1]];
      BucketMembers(init, ssa, want);
    }
  }

  /** A singleton goes to the bucket its flag names. */
  lemma BucketOne(p: KernelPass, ssa: KernelPass -> bool, want: bool)
    ensures Bucket([p], ssa, want) == if ssa(p) == want then [p] else []
  {
    assert [p][..0] == [];
  }

  /** Each bucket keeps optimize's order: allocator, barrier removal,
      reverse if-conversion, each when selected and in that bucket. */
  lemma BucketOfSelected(allocation: RegisterAllocationType, passes: PassTypes, registers: nat,
                         ssa: KernelPass -> bool, want: bool)
    ensures Bucket(Selected(allocation, passes, registers), ssa, want) ==
      (if allocation == LinearScan && ssa(LinearScanRegisterAllocation(registers)) == want
       then [LinearScanRegisterAllocation(registers)] else [])
      + (if RemoveBarriers in passes && ssa(RemoveBarrierPass) == want then [RemoveBarrierPass] else [])
      + (if ReverseIfConversion in passes && ssa(ConvertPredicationToSelectPass) == want
         then [ConvertPredicationToSelectPass] else [])
  {
    var a := if allocation == LinearScan then [LinearScanRegisterAllocation(registers)] else [];
    var b := if RemoveBarriers in passes then [RemoveBarrierPass] else [];
    var c := if ReverseIfConversion in passes then [ConvertPredicationToSelectPass] else [];
    BucketAppend(a + b, c, ssa, want);
    BucketAppend(a, b, ssa, want);
    BucketOne(LinearScanRegisterAllocation(registers), ssa, want);
    BucketOne(RemoveBarrierPass, ssa, want);
    BucketOne(ConvertPredicationToSelectPass, ssa, want);
  }

  /** One step of optimize after the module is loaded: initialize a pass,
      run it on a kernel, finalize it, or convert a kernel to or from SSA
      form. */
  datatype Step =
    | Initialize(pass: KernelPass)
    | RunOnKernel(pass: KernelPass, kernel: string)
    | Finalize(pass: KernelPass)
    | ToSsa(kernel: string)
    | FromSsa(kernel: string)

  /** One pass: initialize, run on every kernel in turn, finalize. */
  function PassRun(p: KernelPass, kernels: seq<string>): (r: seq<Step>)
    ensures forall s :: s in r ==> (s.Initialize? || s.RunOnKernel? || s.Finalize?) && s.pass == p
  {
    [Initialize(p)] + seq(|kernels|, i requires 0 <= i < |kernels| => RunOnKernel(p, kernels[i])) + [Finalize(p)]
  }

  /** The passes of a bucket, one after the other. */
  function PassRuns(ps: seq<KernelPass>, kernels: seq<string>): seq<Step>
    decreases |ps|
  {
    if ps == [] then [] else PassRuns(ps[..|ps| - 1], kernels) + PassRun(ps[|ps| - 1], kernels)
  }

  lemma {:induction false} PassRunsSteps(ps: seq<KernelPass>, kernels: seq<string>)
    ensures forall s :: s in PassRuns(ps, kernels) ==> (s.Initialize? || s.RunOnKernel? || s.Finalize?) && s.pass in ps
    ensures forall p, k :: RunOnKernel(p, k) in PassRuns(ps, kernels) <==> p in ps && k in kernels
    decreases |ps|
  {
    if ps != [] {
      var init := ps[..|ps| - 1];
      var p := ps[|ps| - 1];
      assert ps == init + [p];
      PassRunsSteps(init, kernels);
      var run := PassRun(p, kernels);
      forall k | k in kernels
        ensures RunOnKernel(p, k) in run
      {
        var i :| 0 <= i < |kernels| && kernels[i] == k;
        assert run[i + 1] == RunOnKernel(p, k);
      }
    }
  }

  /** Every kernel converted, in turn, to SSA form (toSsa) or back
      (fromSsa). */
  function Conversions(kernels: seq<string>, toSsa: bool): (r: seq<Step>)
    ensures |r| == |kernels|
    ensures forall i :: 0 <= i < |r| ==> r[i] == if toSsa then ToSsa(kernels[i]) else FromSsa(kernels[i])
  {
    seq(|kernels|, i requires 0 <= i < |kernels| => if toSsa then ToSsa(kernels[i]) else FromSsa(kernels[i]))
  }

  /** What optimize does: nothing when no input file is named; otherwise
      the non-SSA passes, the conversion to SSA form, the SSA passes and
      the conversion back. */
  function Plan(allocation: RegisterAllocationType, passes: PassTypes, registers: nat, input: string,
                kernels: seq<string>, ssa: KernelPass -> bool): seq<Step>
  {
    if input == [] then []
    else
      var selected := Selected(allocation, passes, registers);
      PassRuns(Bucket(selected, ssa, false), kernels) + Conversions(kernels, true)
      + PassRuns(Bucket(selected, ssa, true), kernels) + Conversions(kernels, false)
  }

  /** The order facts of a plan made of non-SSA pass steps a, conversions
      to SSA b, SSA pass steps c and conversions back d. */
  lemma PlanShape(a: seq<Step>, b: seq<Step>, c: seq<Step>, d: seq<Step>, ssa: KernelPass -> bool)
    requires forall s :: s in a ==> (s.Initialize? || s.RunOnKernel? || s.Finalize?) && !ssa(s.pass)
    requires forall s :: s in c ==> (s.Initialize? || s.RunOnKernel? || s.Finalize?) && ssa(s.pass)
    requires forall i :: 0 <= i < |b| ==> b[i].ToSsa?
    requires forall i :: 0 <= i < |d| ==> d[i].FromSsa?
    ensures var plan := a + b + c + d;
      forall i, j :: 0 <= i < |plan| && 0 <= j < |plan| && plan[i].RunOnKernel? && plan[j].ToSsa? ==>
        (ssa(plan[i].pass) <==> j < i)
    ensures var plan := a + b + c + d;
      forall i, j :: 0 <= i < |plan| && 0 <= j < |plan| && plan[i].RunOnKernel? && plan[j].FromSsa? ==> i < j
    ensures forall s :: s in a + b + c + d && s.RunOnKernel? ==> s in a || s in c
  {
    var plan := a + b + c + d;
    forall i | 0 <= i < |plan|
      ensures plan[i].RunOnKernel? ==>
        if i < |a| then !ssa(plan[i].pass) else |a| + |b| <= i < |a| + |b| + |c| && ssa(plan[i].pass)
      ensures plan[i].ToSsa? ==> |a| <= i < |a| + |b|
      ensures plan[i].FromSsa? ==> |a| + |b| + |c| <= i
    {
      if i < |a| {
        assert plan[i] == a[i];
        assert a[i] in a;
      } else if i < |a| + |b| {
        assert plan[i] == b[i - |a|];
      } else if i < |a| + |b| + |c| {
        assert plan[i] == c[i - |a| - |b|];
        assert c[i - |a| - |b|] in c;
      } else {
        assert plan[i] == d[i - |a| - |b| - |c|];
      }
    }
    forall s | s in plan && s.RunOnKernel?
      ensures s in a || s in c
    {
      var i :| 0 <= i < |plan| && plan[i] == s;
      if |a| <= i < |a| + |b| + |c| {
        assert plan[i] == c[i - |a| - |b|];
      }
    }
  }

  /** Each selected pass runs on each kernel; passes that do not need SSA
      form run before any kernel is converted to it, and passes that need
      it run after every conversion to it and before any conversion back. */
  lemma PlanOrder(allocation: RegisterAllocationType, passes: PassTypes, registers: nat, input: string,
                  kernels: seq<string>, ssa: KernelPass -> bool)
    requires input != []
    ensures var plan := Plan(allocation, passes, registers, input, kernels, ssa);
      forall p, k :: RunOnKernel(p, k) in plan <==> p in Selected(allocation, passes, registers) && k in kernels
    ensures var plan := Plan(allocation, passes, registers, input, kernels, ssa);
      forall i, j :: 0 <= i < |plan| && 0 <= j < |plan| && plan[i].RunOnKernel? && plan[j].ToSsa? ==>
        (ssa(plan[i].pass) <==> j < i)
    ensures var plan := Plan(allocation, passes, registers, input, kernels, ssa);
      forall i, j :: 0 <= i < |plan| && 0 <= j < |plan| && plan[i].RunOnKernel? && plan[j].FromSsa? ==> i < j
  {
    var selected := Selected(allocation, passes, registers);
    var a := PassRuns(Bucket(selected, ssa, false), kernels);
    var b := Conversions(kernels, true);
    var c := PassRuns(Bucket(selected, ssa, true), kernels);
    var d := Conversions(kernels, false);
    assert Plan(allocation, passes, registers, input, kernels, ssa) == a + b + c + d;
    PlanRuns(selected, kernels, ssa);
    PassRunsSteps(Bucket(selected, ssa, false), kernels);
    PassRunsSteps(Bucket(selected, ssa, true), kernels);
    BucketMembers(selected, ssa, false);
    BucketMembers(selected, ssa, true);
    PlanShape(a, b, c, d, ssa);
  }

  /** The pass steps of a plan run exactly the selected passes on exactly
      the given kernels. */
  lemma PlanRuns(selected: seq<KernelPass>, kernels: seq<string>, ssa: KernelPass -> bool)
    ensures var plan := PassRuns(Bucket(selected, ssa, false), kernels) + Conversions(kernels, true)
      + PassRuns(Bucket(selected, ssa, true), kernels) + Conversions(kernels, false);
      forall p, k :: RunOnKernel(p, k) in plan <==> p in selected && k in kernels
  {
    var a := PassRuns(Bucket(selected, ssa, false), kernels);
    var b := Conversions(kernels, true);
    var c := PassRuns(Bucket(selected, ssa, true), kernels);
    var d := Conversions(kernels, false);
    PassRunsSteps(Bucket(selected, ssa, false), kernels);
    PassRunsSteps(Bucket(selected, ssa, true), kernels);
    BucketMembers(selected, ssa, false);
    BucketMembers(selected, ssa, true);
    forall p, k
      ensures RunOnKernel(p, k) in a + b + c + d <==> p in selected && k in kernels
    {
      assert RunOnKernel(p, k) !in b && RunOnKernel(p, k) !in d;
    }
  }

  /** One `if( pass->ssa )` of optimize: the pass goes to the bucket its
      flag names. */
  method Route(pass: KernelPass, ssa: KernelPass -> bool, ghost chosen: seq<KernelPass>,
               ssaPasses: seq<KernelPass>, noSsaPasses: seq<KernelPass>)
    returns (ssaPasses': seq<KernelPass>, noSsaPasses': seq<KernelPass>)
    requires ssaPasses == Bucket(chosen, ssa, true) && noSsaPasses == Bucket(chosen, ssa, false)
    ensures ssaPasses' == Bucket(chosen + [pass], ssa, true)
    ensures noSsaPasses' == Bucket(chosen + [pass], ssa, false)
  {
    assert (chosen + [pass])[..|chosen + [pass]| - 1] == chosen;
    if ssa(pass) {
      ssaPasses', noSsaPasses' := ssaPasses + [pass], noSsaPasses;
    } else {
      ssaPasses', noSsaPasses' := ssaPasses, noSsaPasses + [pass];
    }
  }

  /** The two buckets of optimize, filled in its fixed order. */
  method BuildBuckets(allocation: RegisterAllocationType, passes: PassTypes, registers: nat, ssa: KernelPass -> bool)
    returns (ssaPasses: seq<KernelPass>, noSsaPasses: seq<KernelPass>)
    ensures ssaPasses == Bucket(Selected(allocation, passes, registers), ssa, true)
    ensures noSsaPasses == Bucket(Selected(allocation, passes, registers), ssa, false)
  {
    ssaPasses, noSsaPasses := [], [];
    ghost var chosen: seq<KernelPass> := [];
    if allocation == LinearScan {
      var pass := LinearScanRegisterAllocation(registers);
      ssaPasses, noSsaPasses := Route(pass, ssa, chosen, ssaPasses, noSsaPasses);
      chosen := chosen + [pass];
    }
    if RemoveBarriers in passes {
      var pass := RemoveBarrierPass;
      ssaPasses, noSsaPasses := Route(pass, ssa, chosen, ssaPasses, noSsaPasses);
      chosen := chosen + [pass];
    }
    if ReverseIfConversion in passes {
      var pass := ConvertPredicationToSelectPass;
      ssaPasses, noSsaPasses := Route(pass, ssa, chosen, ssaPasses, noSsaPasses);
      chosen := chosen + [pass];
    }
    assert chosen == Selected(allocation, passes, registers);
  }

  /** One pass over every kernel. */
  method RunPass(p: KernelPass, kernels: seq<string>) returns (steps: seq<Step>)
    ensures steps == PassRun(p, kernels)
  {
    steps := [Initialize(p)];
    for i := 0 to |kernels|
      invariant steps == [Initialize(p)] + seq(i, j requires 0 <= j < i => RunOnKernel(p, kernels[j]))
    {
      steps := steps + [RunOnKernel(p, kernels[i])];
    }
    steps := steps + [Finalize(p)];
  }

  /** The passes of one bucket, in order. */
  method RunPasses(ps: seq<KernelPass>, kernels: seq<string>) returns (steps: seq<Step>)
    ensures steps == PassRuns(ps, kernels)
  {
    steps := [];
    for i := 0 to |ps|
      invariant steps == PassRuns(ps[..i], kernels)
    {
      var run := RunPass(ps[i], kernels);
      assert ps[..i + 1][..i] == ps[..i];
      steps := steps + run;
    }
    assert ps[..|ps|] == ps;
  }

  /** Every kernel converted to or from SSA form. */
  method Convert(kernels: seq<string>, toSsa: bool) returns (steps: seq<Step>)
    ensures steps == Conversions(kernels, toSsa)
  {
    steps := [];
    for i := 0 to |kernels|
      invariant |steps| == i
      invariant forall j :: 0 <= j < i ==> steps[j] == if toSsa then ToSsa(kernels[j]) else FromSsa(kernels[j])
    {
      steps := steps + [if toSsa then ToSsa(kernels[i]) else FromSsa(kernels[i])];
    }
  }

  /** PTXOptimizer: the options main fills in and optimize reads. */
  class Optimizer {
    var registerAllocationType: RegisterAllocationType
    var passes: PassTypes
    var input: string
    var registerCount: nat

    constructor ()
      ensures registerAllocationType == InvalidRegisterAllocationType && passes == {} && input == []
    {
      registerAllocationType, passes, input := InvalidRegisterAllocationType, {}, [];
    }

    /** The option handling of main: the input file, the register count,
        the allocator and the pass list; returns the warned names. */
    method Configure(inputFile: string, allocator: string, passList: string, registers: nat)
      returns (unknown: seq<string>)
      modifies this
      ensures input == inputFile && registerCount == registers
      ensures registerAllocationType == if allocator == "linearscan" then LinearScan else old(registerAllocationType)
      ensures passes == PassTypesOf(passList)
      ensures unknown == Unknown(Stripped(Split(passList, ',')))
    {
      input, registerCount := inputFile, registers;
      if allocator == "linearscan" {
        registerAllocationType := LinearScan;
      }
      passes, unknown := ParsePassTypes(passList);
    }

    /** optimize, with the kernels of the loaded module and the `ssa` flag
        of each pass as parameters; returns the steps it takes. */
    method Optimize(kernels: seq<string>, ssa: KernelPass -> bool) returns (plan: seq<Step>)
      ensures plan == Plan(registerAllocationType, passes, registerCount, input, kernels, ssa)
    {
      var ssaPasses, noSsaPasses := BuildBuckets(registerAllocationType, passes, registerCount, ssa);
      if input == [] {
        return [];
      }
      var before := RunPasses(noSsaPasses, kernels);
      var toSsa := Convert(kernels, true);
      var after := RunPasses(ssaPasses, kernels);
      var fromSsa := Convert(kernels, false);
      plan := before + toSsa + after + fromSsa;
    }
  }

  /** main: a fresh optimizer configured from the options, then optimize. */
  method RunOptimizer(inputFile: string, allocator: string, passList: string, registers: nat,
                  kernels: seq<string>, ssa: KernelPass -> bool)
    returns (plan: seq<Step>, unknown: seq<string>)
    ensures plan == Plan(AllocatorFor(allocator), PassTypesOf(passList), registers, inputFile, kernels, ssa)
    ensures unknown == Unknown(Stripped(Split(passList, ',')))
  {
    var optimizer := new Optimizer();
    unknown := optimizer.Configure(inputFile, allocator, passList, registers);
    plan := optimizer.Optimize(kernels, ssa);
  }
}
