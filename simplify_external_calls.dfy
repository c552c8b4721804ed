/** SimplifyExternalCallsPass: a call's parameter-space arguments are
    replaced by registers. For each input argument the nearest st.param
    before the call supplies the register, for each output argument the
    first ld.param from the call on; matching stores and loads are erased,
    the others become cvt/mov into or out of a fresh register, and the
    argument names leave the kernel's parameter map. */
module SimplifyExternalCalls {
  import opened Util
  import opened PtxIR
  import MemoryLayout

  /** The assertions of simplifyCall, as failures of the pass. */
  datatype Failure =
    | SourceNotImmediate   // a found st.param stores neither a register nor an immediate
    | TargetNotRegister    // a found ld.param does not load into a register
    | AlreadyMapped        // a found ld.param's name already has a register
    | NoRegisterSource     // a call argument has no register after both searches

  datatype Outcome<T> = Done(value: T) | Failed(failure: Failure)

  // ---------------------------------------------------------------------
  // The argument names of a call
  // ---------------------------------------------------------------------

  /** The identifiers of the Address-mode entries of an argument list; the
      other entries are not parameters. */
  function AddressNames(arr: seq<Operand>): set<string>
  {
    set i | 0 <= i < |arr| && arr[i].addressMode == Address :: arr[i].identifier
  }

  lemma AddressNamesStep(arr: seq<Operand>, i: nat)
    requires i < |arr|
    ensures AddressNames(arr[..i + 1])
      == AddressNames(arr[..i]) + (if arr[i].addressMode == Address then {arr[i].identifier} else {})
  {
    var a, b := arr[..i + 1], arr[..i];
    forall n | n in AddressNames(a)
      ensures n in AddressNames(b) || (arr[i].addressMode == Address && n == arr[i].identifier)
    {
      var k :| 0 <= k < |a| && a[k].addressMode == Address && a[k].identifier == n;
      if k < i {
        assert b[k] == a[k];
      }
    }
    forall n | n in AddressNames(b)
      ensures n in AddressNames(a)
    {
      var k :| 0 <= k < |b| && b[k].addressMode == Address && b[k].identifier == n;
      assert a[k] == b[k];
    }
  }

  // ---------------------------------------------------------------------
  // The searches for argument accesses
  // ---------------------------------------------------------------------

  /** st.param [name], source */
  predicate StoresParam(p: Instruction)
  {
    p.opcode == St && p.addressSpace == Param && p.d.addressMode == Address
  }

  /** ld.param target, [name] */
  predicate LoadsParam(p: Instruction)
  {
    p.opcode == Ld && p.addressSpace == Param && p.a.addressMode == Address
  }

  /** The names the st.param instructions of b[lo..hi] store to. */
  function StoredNames(b: seq<Instruction>, lo: nat, hi: nat): set<string>
    requires lo <= hi <= |b|
  {
    set k | lo <= k < hi && StoresParam(b[k]) :: b[k].d.identifier
  }

  /** The names the ld.param instructions of b[lo..hi] load from. */
  function LoadedNames(b: seq<Instruction>, lo: nat, hi: nat): set<string>
    requires lo <= hi <= |b|
  {
    set k | lo <= k < hi && LoadsParam(b[k]) :: b[k].a.identifier
  }

  /** b[k] is the st.param of an input nearest before the call at c. */
  predicate StoreSelected(b: seq<Instruction>, c: nat, inputs: set<string>, k: nat)
    requires c <= |b|
  {
    k < c && StoresParam(b[k]) && b[k].d.identifier in inputs
    && b[k].d.identifier !in StoredNames(b, k + 1, c)
  }

  /** b[k] is the first ld.param of an output from the call at c on. */
  predicate LoadSelected(b: seq<Instruction>, c: nat, outputs: set<string>, k: nat)
    requires c <= |b|
  {
    c <= k < |b| && LoadsParam(b[k]) && b[k].a.identifier in outputs
    && b[k].a.identifier !in LoadedNames(b, c, k)
  }

  /** The state of the searches: the block as rewritten so far, the names
      still looked for, nameToRegister, killList (as block positions) and
      the next register the dataflow graph hands out. */
  datatype Scan = Scan(
    block: seq<Instruction>,
    pending: set<string>,
    registers: map<string, nat>,
    kills: seq<nat>,
    next: nat)

  /** One step of the backward search, at position j. */
  function StoreStep(s: Scan, j: nat): (r: Outcome<Scan>)
    requires j < |s.block|
    ensures r.Done? ==> |r.value.block| == |s.block|
  {
    var p := s.block[j];
    if !(StoresParam(p) && p.d.identifier in s.pending) then Done(s)
    else
      var n := p.d.identifier;
      var pending := s.pending - {n};
      if p.a.addressMode == Register then
        if p.dataType == p.a.dataType then
          Done(s.(pending := pending, registers := MemoryLayout.Insert(s.registers, n, p.a.reg), kills := s.kills + [j]))
        else
          var cvt := p.(opcode := Cvt, d := RegisterOperand(p.dataType, s.next), modifier := ModifierInvalid);
          Done(s.(block := s.block[j := cvt], pending := pending,
                  registers := MemoryLayout.Insert(s.registers, n, s.next), next := s.next + 1))
      else if p.a.addressMode != Immediate then Failed(SourceNotImmediate)
      else
        var mov := p.(opcode := Mov, d := RegisterOperand(p.dataType, s.next));
        Done(s.(block := s.block[j := mov], pending := pending,
                registers := MemoryLayout.Insert(s.registers, n, s.next), next := s.next + 1))
  }

  /** The backward search over positions j-1 down to 0. */
  function ScanStores(s: Scan, j: nat): (r: Outcome<Scan>)
    requires j <= |s.block|
    ensures r.Done? ==> |r.value.block| == |s.block|
    decreases j
  {
    if j == 0 then Done(s)
    else
      match StoreStep(s, j - 1)
      case Failed(f) => Failed(f)
      case Done(s1) => ScanStores(s1, j - 1)
  }

  /** One step of the forward search, at position j. */
  function LoadStep(s: Scan, j: nat): (r: Outcome<Scan>)
    requires j < |s.block|
    ensures r.Done? ==> |r.value.block| == |s.block|
  {
    var p := s.block[j];
    if !(LoadsParam(p) && p.a.identifier in s.pending) then Done(s)
    else
      var n := p.a.identifier;
      var pending := s.pending - {n};
      if p.d.addressMode != Register then Failed(TargetNotRegister)
      else if n in s.registers then Failed(AlreadyMapped)
      else if p.dataType == p.d.dataType then
        Done(s.(pending := pending, registers := MemoryLayout.Insert(s.registers, n, p.d.reg), kills := s.kills + [j]))
      else
        var cvt := p.(opcode := Cvt, a := RegisterOperand(p.dataType, s.next), modifier := ModifierInvalid);
        Done(s.(block := s.block[j := cvt], pending := pending,
                registers := MemoryLayout.Insert(s.registers, n, s.next), next := s.next + 1))
  }

  /** The forward search over positions j to the end of the block. */
  function ScanLoads(s: Scan, j: nat): (r: Outcome<Scan>)
    requires j <= |s.block|
    ensures r.Done? ==> |r.value.block| == |s.block|
    decreases |s.block| - j
  {
    if j == |s.block| then Done(s)
    else
      match LoadStep(s, j)
      case Failed(f) => Failed(f)
      case Done(s1) => ScanLoads(s1, j + 1)
  }

  // ---------------------------------------------------------------------
  // What the searches do, position by position
  // ---------------------------------------------------------------------

  /** The chosen store b[k] after the backward search: a store of a
      register of its own type is killed and lends its register; any other
      register store becomes a cvt and an immediate store a mov, each into
      a fresh register. */
  predicate StoreEffect(b: seq<Instruction>, s: Scan, k: nat, next0: nat)
    requires k < |b| == |s.block|
  {
    var p := b[k];
    var n := p.d.identifier;
    && (p.a.addressMode == Register || p.a.addressMode == Immediate)
    && n in s.registers
    && if p.a.addressMode == Register && p.dataType == p.a.dataType then
         s.block[k] == p && k in s.kills && s.registers[n] == p.a.reg
       else
         && k !in s.kills && next0 <= s.registers[n] < s.next
         && s.block[k] == (if p.a.addressMode == Register
                           then p.(opcode := Cvt, d := RegisterOperand(p.dataType, s.registers[n]), modifier := ModifierInvalid)
                           else p.(opcode := Mov, d := RegisterOperand(p.dataType, s.registers[n])))
  }

  /** The chosen load b[k] after the forward search: a load into a
      register of its own type is killed and lends that register; any other
      becomes a cvt from a fresh register. */
  predicate LoadEffect(b: seq<Instruction>, s: Scan, k: nat, next0: nat)
    requires k < |b| == |s.block|
  {
    var p := b[k];
    var n := p.a.identifier;
    && p.d.addressMode == Register
    && n in s.registers
    && if p.dataType == p.d.dataType then
         s.block[k] == p && k in s.kills && s.registers[n] == p.d.reg
       else
         && k !in s.kills && next0 <= s.registers[n] < s.next
         && s.block[k] == p.(opcode := Cvt, a := RegisterOperand(p.dataType, s.registers[n]), modifier := ModifierInvalid)
  }

  /** Position k < c after the backward search. */
  predicate StoreSearched(b: seq<Instruction>, c: nat, inputs: set<string>, s: Scan, k: nat, next0: nat)
    requires k < c <= |b| == |s.block|
  {
    if StoreSelected(b, c, inputs, k) then StoreEffect(b, s, k, next0)
    else s.block[k] == b[k] && k !in s.kills
  }

  /** Position k >= c after the forward search. */
  predicate LoadSearched(b: seq<Instruction>, c: nat, outputs: set<string>, s: Scan, k: nat, next0: nat)
    requires c <= k < |b| == |s.block|
  {
    if LoadSelected(b, c, outputs, k) then LoadEffect(b, s, k, next0)
    else s.block[k] == b[k] && k !in s.kills
  }

  /** The backward search has visited c-1 down to j. */
  ghost predicate StoresScanned(b: seq<Instruction>, c: nat, inputs: set<string>, next0: nat, j: nat, s: Scan)
  {
    && j <= c <= |b| == |s.block|
    && (forall k :: 0 <= k < |b| && (k < j || c <= k) ==> s.block[k] == b[k])
    && s.pending == inputs - StoredNames(b, j, c)
    && s.registers.Keys == inputs * StoredNames(b, j, c)
    && next0 <= s.next
    && (forall k :: k in s.kills ==> j <= k < c)
    && (forall k :: j <= k < c ==> StoreSearched(b, c, inputs, s, k, next0))
  }

  /** The forward search has visited c up to j - 1, after the whole
      backward search. */
  ghost predicate LoadsScanned(b: seq<Instruction>, c: nat, inputs: set<string>, outputs: set<string>, next0: nat, j: nat, s: Scan)
  {
    && c <= j <= |b| == |s.block|
    && (forall k :: j <= k < |b| ==> s.block[k] == b[k])
    && s.pending == outputs - LoadedNames(b, c, j)
    && s.registers.Keys == (inputs * StoredNames(b, 0, c)) + (outputs * LoadedNames(b, c, j))
    && next0 <= s.next
    && (forall k :: k in s.kills ==> k < j)
    && (forall k :: 0 <= k < c ==> StoreSearched(b, c, inputs, s, k, next0))
    && (forall k :: c <= k < j ==> LoadSearched(b, c, outputs, s, k, next0))
  }

  /** Every chosen store in b[lo..c] stores a register or an immediate. */
  predicate StoresFine(b: seq<Instruction>, c: nat, inputs: set<string>, lo: nat, hi: nat)
    requires hi <= c <= |b|
  {
    forall k :: lo <= k < hi && StoreSelected(b, c, inputs, k) ==>
      b[k].a.addressMode == Register || b[k].a.addressMode == Immediate
  }

  /** Every chosen load in b[lo..hi] loads into a register, under a name
      the backward search has not mapped. */
  predicate LoadsFine(b: seq<Instruction>, c: nat, inputs: set<string>, outputs: set<string>, lo: nat, hi: nat)
    requires c <= hi <= |b|
  {
    forall k :: lo <= k < hi && LoadSelected(b, c, outputs, k) ==>
      b[k].d.addressMode == Register && b[k].a.identifier !in inputs * StoredNames(b, 0, c)
  }

  /** s1 differs from s at most at position j, and only by growing the
      register map and the register counter. */
  ghost predicate Extends(s: Scan, s1: Scan, j: nat)
  {
    && |s1.block| == |s.block|
    && (forall k :: 0 <= k < |s.block| && k != j ==> s1.block[k] == s.block[k])
    && (forall n :: n in s.registers ==> n in s1.registers && s1.registers[n] == s.registers[n])
    && s.next <= s1.next
    && (forall k :: k != j ==> (k in s1.kills <==> k in s.kills))
  }

  lemma StoreStepExtends(s: Scan, j: nat)
    requires j < |s.block| && StoreStep(s, j).Done?
    ensures Extends(s, StoreStep(s, j).value, j)
  {
  }

  lemma LoadStepExtends(s: Scan, j: nat)
    requires j < |s.block| && LoadStep(s, j).Done?
    ensures Extends(s, LoadStep(s, j).value, j)
  {
  }

  lemma StoreSearchedFrame(b: seq<Instruction>, c: nat, inputs: set<string>, s: Scan, s1: Scan, j: nat, k: nat, next0: nat)
    requires k < c <= |b| == |s.block| && k != j
    requires Extends(s, s1, j) && StoreSearched(b, c, inputs, s, k, next0)
    ensures StoreSearched(b, c, inputs, s1, k, next0)
  {
  }

  lemma LoadSearchedFrame(b: seq<Instruction>, c: nat, outputs: set<string>, s: Scan, s1: Scan, j: nat, k: nat, next0: nat)
    requires c <= k < |b| == |s.block| && k != j
    requires Extends(s, s1, j) && LoadSearched(b, c, outputs, s, k, next0)
    ensures LoadSearched(b, c, outputs, s1, k, next0)
  {
  }

  lemma StoredNamesStep(b: seq<Instruction>, j: nat, c: nat)
    requires j < c <= |b|
    ensures StoredNames(b, j, c)
      == StoredNames(b, j + 1, c) + (if StoresParam(b[j]) then {b[j].d.identifier} else {})
  {
  }

  lemma LoadedNamesStep(b: seq<Instruction>, c: nat, j: nat)
    requires c <= j < |b|
    ensures LoadedNames(b, c, j + 1)
      == LoadedNames(b, c, j) + (if LoadsParam(b[j]) then {b[j].a.identifier} else {})
  {
  }

  // ---------------------------------------------------------------------
  // The searches meet their position-by-position description
  // ---------------------------------------------------------------------

  /** One step of the backward search keeps its invariant, and fails
      exactly at a chosen store of neither a register nor an immediate. The
      register map never already holds the name being stored, so the
      assertion of the C++ before that insertion always holds. */
  lemma StoreStepSpec(b: seq<Instruction>, c: nat, inputs: set<string>, next0: nat, j: nat, s: Scan)
    requires j < c && StoresScanned(b, c, inputs, next0, j + 1, s)
    ensures StoreSelected(b, c, inputs, j) ==> b[j].d.identifier !in s.registers
    ensures StoreStep(s, j).Done?
      <==> (StoreSelected(b, c, inputs, j) ==> b[j].a.addressMode == Register || b[j].a.addressMode == Immediate)
    ensures StoreStep(s, j).Done? ==> StoresScanned(b, c, inputs, next0, j, StoreStep(s, j).value)
  {
    var p := s.block[j];
    assert p == b[j];
    StoredNamesStep(b, j, c);
    assert StoreSelected(b, c, inputs, j) <==> StoresParam(p) && p.d.identifier in s.pending;
    var r := StoreStep(s, j);
    if r.Done? {
      var s1 := r.value;
      StoreStepExtends(s, j);
      forall k | j < k < c
        ensures StoreSearched(b, c, inputs, s1, k, next0)
      {
        StoreSearchedFrame(b, c, inputs, s, s1, j, k, next0);
      }
      assert StoreSearched(b, c, inputs, s1, j, next0);
    }
  }

  /** The whole backward search: it succeeds exactly when every chosen
      store stores a register or an immediate, and then every position
      before the call is as described. */
  lemma {:induction false} ScanStoresSpec(b: seq<Instruction>, c: nat, inputs: set<string>, next0: nat, j: nat, s: Scan)
    requires StoresScanned(b, c, inputs, next0, j, s)
    ensures ScanStores(s, j).Done? <==> StoresFine(b, c, inputs, 0, j)
    ensures ScanStores(s, j).Done? ==> StoresScanned(b, c, inputs, next0, 0, ScanStores(s, j).value)
    decreases j
  {
    if j > 0 {
      StoreStepSpec(b, c, inputs, next0, j - 1, s);
      var r := StoreStep(s, j - 1);
      if r.Done? {
        ScanStoresSpec(b, c, inputs, next0, j - 1, r.value);
      }
    }
  }

  /** One step of the forward search keeps its invariant, and fails
      exactly at a chosen load that does not target a register or whose
      name the backward search has already mapped. */
  lemma LoadStepSpec(b: seq<Instruction>, c: nat, inputs: set<string>, outputs: set<string>, next0: nat, j: nat, s: Scan)
    requires c <= j < |b| && LoadsScanned(b, c, inputs, outputs, next0, j, s)
    ensures LoadStep(s, j).Done?
      <==> (LoadSelected(b, c, outputs, j) ==>
              b[j].d.addressMode == Register && b[j].a.identifier !in inputs * StoredNames(b, 0, c))
    ensures LoadStep(s, j).Done? ==> LoadsScanned(b, c, inputs, outputs, next0, j + 1, LoadStep(s, j).value)
  {
    var p := s.block[j];
    assert p == b[j];
    LoadedNamesStep(b, c, j);
    assert LoadSelected(b, c, outputs, j) <==> LoadsParam(p) && p.a.identifier in s.pending;
    var r := LoadStep(s, j);
    if r.Done? {
      var s1 := r.value;
      LoadStepExtends(s, j);
      forall k | 0 <= k < c
        ensures StoreSearched(b, c, inputs, s1, k, next0)
      {
        StoreSearchedFrame(b, c, inputs, s, s1, j, k, next0);
      }
      forall k | c <= k < j
        ensures LoadSearched(b, c, outputs, s1, k, next0)
      {
        LoadSearchedFrame(b, c, outputs, s, s1, j, k, next0);
      }
      assert LoadSearched(b, c, outputs, s1, j, next0);
    }
  }

  lemma {:induction false} ScanLoadsSpec(b: seq<Instruction>, c: nat, inputs: set<string>, outputs: set<string>, next0: nat, j: nat, s: Scan)
    requires LoadsScanned(b, c, inputs, outputs, next0, j, s)
    ensures ScanLoads(s, j).Done? <==> LoadsFine(b, c, inputs, outputs, j, |b|)
    ensures ScanLoads(s, j).Done? ==> LoadsScanned(b, c, inputs, outputs, next0, |b|, ScanLoads(s, j).value)
    decreases |b| - j
  {
    if j < |b| {
      LoadStepSpec(b, c, inputs, outputs, next0, j, s);
      var r := LoadStep(s, j);
      if r.Done? {
        ScanLoadsSpec(b, c, inputs, outputs, next0, j + 1, r.value);
      }
    }
  }

  /** The forward search starts where the backward one ended, looking for
      the output names. */
  lemma StoresThenLoads(b: seq<Instruction>, c: nat, inputs: set<string>, outputs: set<string>, next0: nat, s: Scan)
    requires StoresScanned(b, c, inputs, next0, 0, s)
    ensures LoadsScanned(b, c, inputs, outputs, next0, c, s.(pending := outputs))
  {
    var s1 := s.(pending := outputs);
    forall k | 0 <= k < c
      ensures StoreSearched(b, c, inputs, s1, k, next0)
    {
      assert StoreSearched(b, c, inputs, s, k, next0);
    }
  }

  // ---------------------------------------------------------------------
  // The rewrite of the call's arguments
  // ---------------------------------------------------------------------

  /** Every Address entry of the list has a register. */
  predicate AllBound(arr: seq<Operand>, registers: map<string, nat>)
  {
    forall i :: 0 <= i < |arr| && arr[i].addressMode == Address ==> arr[i].identifier in registers
  }

  /** One argument after the rewrite: an Address entry becomes its
      register, with the identifier cleared; any other entry stays. */
  function BindArgument(o: Operand, registers: map<string, nat>): Operand
    requires o.addressMode == Address ==> o.identifier in registers
  {
    if o.addressMode != Address then o
    else o.(addressMode := Register, reg := registers[o.identifier], identifier := "")
  }

  /** The rewrite of a whole argument list; an Address entry without a
      register is the assertion failure of the C++. */
  function BindArguments(arr: seq<Operand>, registers: map<string, nat>): (r: Outcome<seq<Operand>>)
    ensures r.Done? <==> AllBound(arr, registers)
    ensures r.Done? ==> |r.value| == |arr|
    ensures r.Done? ==> forall i :: 0 <= i < |arr| ==> r.value[i] == BindArgument(arr[i], registers)
    ensures r.Failed? ==> r.failure == NoRegisterSource
    decreases |arr|
  {
    if arr == [] then Done([])
    else if arr[0].addressMode == Address && arr[0].identifier !in registers then Failed(NoRegisterSource)
    else
      match BindArguments(arr[1..], registers)
      case Failed(f) => Failed(f)
      case Done(rest) =>
        assert forall i :: 1 <= i < |arr| ==> arr[1..][i - 1] == arr[i];
        Done([BindArgument(arr[0], registers)] + rest)
  }

  /** The arguments are all bound exactly when every argument name has a
      register. */
  lemma AllBoundNames(arr: seq<Operand>, registers: map<string, nat>)
    ensures AllBound(arr, registers) <==> AddressNames(arr) <= registers.Keys
  {
    if !AllBound(arr, registers) {
      var i :| 0 <= i < |arr| && arr[i].addressMode == Address && arr[i].identifier !in registers;
      assert arr[i].identifier in AddressNames(arr);
    }
  }

  // ---------------------------------------------------------------------
  // The erasure of the killed instructions
  // ---------------------------------------------------------------------

  /** A node of the block's instruction list, named by the position its
      instruction had during the searches (a list iterator). */
  datatype Node = Node(id: nat, instruction: Instruction)

  function Nodes(b: seq<Instruction>): (r: seq<Node>)
    ensures |r| == |b| && forall k :: 0 <= k < |b| ==> r[k] == Node(k, b[k])
  {
    seq(|b|, k requires 0 <= k < |b| => Node(k, b[k]))
  }

  /** The nodes that are not erased, in list order. */
  function Live(nodes: seq<Node>, killed: set<nat>): (r: seq<Node>)
    ensures |r| <= |nodes|
    decreases |nodes|
  {
    if nodes == [] then []
    else (if nodes[0].id in killed then [] else [nodes[0]]) + Live(nodes[1..], killed)
  }

  /** list::erase of the node named `id`. */
  function Erase(nodes: seq<Node>, id: nat): seq<Node>
  {
    Live(nodes, {id})
  }

  function Instructions(nodes: seq<Node>): (r: seq<Instruction>)
    ensures |r| == |nodes| && forall k :: 0 <= k < |nodes| ==> r[k] == nodes[k].instruction
  {
    seq(|nodes|, k requires 0 <= k < |nodes| => nodes[k].instruction)
  }

  lemma {:induction false} LiveAppend(a: seq<Node>, b: seq<Node>, killed: set<nat>)
    ensures Live(a + b, killed) == Live(a, killed) + Live(b, killed)
    decreases |a|
  {
    if a == [] {
      assert a + b == b;
    } else {
      assert (a + b)[1..] == a[1..] + b;
      LiveAppend(a[1..], b, killed);
    }
  }

  /** Erasing the nodes one by one is erasing them all. */
  lemma {:induction false} EraseLive(nodes: seq<Node>, killed: set<nat>, id: nat)
    ensures Erase(Live(nodes, killed), id) == Live(nodes, killed + {id})
    decreases |nodes|
  {
    if nodes != [] {
      var head := if nodes[0].id in killed then [] else [nodes[0]];
      LiveAppend(head, Live(nodes[1..], killed), {id});
      EraseLive(nodes[1..], killed, id);
    }
  }

  /** The nodes left are exactly the ones not killed, in their order. */
  lemma {:induction false} LiveMembers(nodes: seq<Node>, killed: set<nat>)
    ensures forall x :: x in Live(nodes, killed) <==> x in nodes && x.id !in killed
    decreases |nodes|
  {
    if nodes != [] {
      LiveMembers(nodes[1..], killed);
      assert nodes == [nodes[0]] + nodes[1..];
    }
  }

  /** Ids in strictly increasing order. */
  predicate Ascending(nodes: seq<Node>)
  {
    forall i, j :: 0 <= i < j < |nodes| ==> nodes[i].id < nodes[j].id
  }

  lemma {:induction false} LiveAscending(nodes: seq<Node>, killed: set<nat>)
    requires Ascending(nodes)
    ensures Ascending(Live(nodes, killed))
    decreases |nodes|
  {
    if nodes != [] {
      var rest := Live(nodes[1..], killed);
      LiveAscending(nodes[1..], killed);
      LiveMembers(nodes[1..], killed);
      assert forall x :: x in rest ==> x in nodes[1..];
      forall x | x in rest
        ensures nodes[0].id < x.id
      {
        var j :| 0 <= j < |nodes[1..]| && nodes[1..][j] == x;
        assert nodes[1..][j] == nodes[j + 1];
      }
    }
  }

  /** The list of instructions without the killed positions. */
  function Kept(b: seq<Instruction>, killed: set<nat>): seq<Instruction>
  {
    Instructions(Live(Nodes(b), killed))
  }

  /** Exactly the killed positions are erased; every other instruction
      stays, in its original order. */
  lemma KeptSpec(b: seq<Instruction>, killed: set<nat>)
    ensures var r := Kept(b, killed);
      exists ids: seq<nat> ::
        && |ids| == |r|
        && (forall i, j :: 0 <= i < j < |ids| ==> ids[i] < ids[j])
        && (forall i :: 0 <= i < |ids| ==> ids[i] < |b| && ids[i] !in killed && r[i] == b[ids[i]])
        && (forall k :: 0 <= k < |b| && k !in killed ==> k in ids)
  {
    var ns := Nodes(b);
    var live := Live(ns, killed);
    LiveAscending(ns, killed);
    LiveMembers(ns, killed);
    var ids := seq(|live|, i requires 0 <= i < |live| => live[i].id);
    forall i | 0 <= i < |ids|
      ensures ids[i] < |b| && ids[i] !in killed && Kept(b, killed)[i] == b[ids[i]]
    {
      assert live[i] in live;
    }
    forall k | 0 <= k < |b| && k !in killed
      ensures k in ids
    {
      assert ns[k] in ns;
      var i :| 0 <= i < |live| && live[i] == ns[k];
      assert ids[i] == k;
    }
  }

  // ---------------------------------------------------------------------
  // simplifyCall
  // ---------------------------------------------------------------------

  /** Both searches for the call at position c. */
  function Search(b: seq<Instruction>, c: nat, next: nat): (r: Outcome<Scan>)
    requires c < |b|
    ensures r.Done? ==> |r.value.block| == |b|
  {
    var inputs := AddressNames(b[c].b.elements);
    var outputs := AddressNames(b[c].d.elements);
    match ScanStores(Scan(b, inputs, map[], [], next), c)
    case Failed(f) => Failed(f)
    case Done(s) => ScanLoads(s.(pending := outputs), c)
  }

  /** The searches succeed exactly when every chosen store and load is
      well formed, and then they leave every position as described. */
  lemma SearchSpec(b: seq<Instruction>, c: nat, next: nat)
    requires c < |b|
    ensures var inputs := AddressNames(b[c].b.elements);
      var outputs := AddressNames(b[c].d.elements);
      && (Search(b, c, next).Done? <==> StoresFine(b, c, inputs, 0, c) && LoadsFine(b, c, inputs, outputs, c, |b|))
      && (Search(b, c, next).Done? ==> LoadsScanned(b, c, inputs, outputs, next, |b|, Search(b, c, next).value))
  {
    var inputs := AddressNames(b[c].b.elements);
    var outputs := AddressNames(b[c].d.elements);
    var s0 := Scan(b, inputs, map[], [], next);
    assert StoredNames(b, c, c) == {};
    assert StoresScanned(b, c, inputs, next, c, s0);
    ScanStoresSpec(b, c, inputs, next, c, s0);
    if ScanStores(s0, c).Done? {
      var s := ScanStores(s0, c).value;
      StoresThenLoads(b, c, inputs, outputs, next, s);
      ScanLoadsSpec(b, c, inputs, outputs, next, c, s.(pending := outputs));
    }
  }

  /** The kernel's parameters, the block, the position of the call in the
      new block and the dataflow graph's next register. */
  datatype Simplified = Simplified(parameters: map<string, Parameter>, block: seq<Instruction>, call: nat, next: nat)

  /** simplifyCall for the call at position c of block b; `next` is the
      register dfg.newRegister() hands out next. */
  function SimplifyCallSpec(parameters: map<string, Parameter>, b: seq<Instruction>, c: nat, next: nat): Outcome<Simplified>
    requires c < |b|
  {
    match Search(b, c, next)
    case Failed(f) => Failed(f)
    case Done(s) =>
      var call := s.block[c];
      match BindArguments(call.d.elements, s.registers)
      case Failed(f) => Failed(f)
      case Done(outs) =>
        match BindArguments(call.b.elements, s.registers)
        case Failed(f) => Failed(f)
        case Done(ins) =>
          var scanned := s.block[c := call.(d := call.d.(elements := outs), b := call.b.(elements := ins))];
          var killed := Members(s.kills);
          var names := AddressNames(b[c].d.elements) + AddressNames(b[c].b.elements);
          Done(Simplified(parameters - names, Kept(scanned, killed), |Live(Nodes(scanned)[..c], killed)|, s.next))
  }

  /** The instructions simplifyCall kills: the chosen stores of a register
      of their own type and the chosen loads into a register of their own
      type. */
  predicate Killed(b: seq<Instruction>, c: nat, inputs: set<string>, outputs: set<string>, k: nat)
    requires c <= |b|
  {
    || (StoreSelected(b, c, inputs, k) && b[k].a.addressMode == Register && b[k].dataType == b[k].a.dataType)
    || (LoadSelected(b, c, outputs, k) && b[k].dataType == b[k].d.dataType)
  }

  /** simplifyCall succeeds exactly when every chosen store stores a
      register or an immediate, every chosen load loads into a register
      under a name no store was found for, and every argument name got a
      register from one of the two searches. */
  lemma SimplifyCallSucceeds(parameters: map<string, Parameter>, b: seq<Instruction>, c: nat, next: nat)
    requires c < |b| && b[c].opcode == Call
    ensures var inputs := AddressNames(b[c].b.elements);
      var outputs := AddressNames(b[c].d.elements);
      SimplifyCallSpec(parameters, b, c, next).Done?
      <==> && StoresFine(b, c, inputs, 0, c)
           && LoadsFine(b, c, inputs, outputs, c, |b|)
           && inputs + outputs <= inputs * StoredNames(b, 0, c) + outputs * LoadedNames(b, c, |b|)
  {
    var outputs := AddressNames(b[c].d.elements);
    SearchSpec(b, c, next);
    if Search(b, c, next).Done? {
      var s := Search(b, c, next).value;
      assert LoadSearched(b, c, outputs, s, c, next);
      AllBoundNames(b[c].d.elements, s.registers);
      AllBoundNames(b[c].b.elements, s.registers);
    }
  }

  /** The node list splits around the call, which is never erased. */
  lemma LiveAround(scanned: seq<Instruction>, c: nat, killed: set<nat>)
    requires c < |scanned| && c !in killed
    ensures var p := |Live(Nodes(scanned)[..c], killed)|;
      var r := Kept(scanned, killed);
      && p <= c && p < |r| && |r| - p <= |scanned| - c
      && r[p] == scanned[c]
  {
    var ns := Nodes(scanned);
    var pre, mid, post := ns[..c], [ns[c]], ns[c + 1..];
    assert ns == pre + (mid + post);
    LiveAppend(pre, mid + post, killed);
    LiveAppend(mid, post, killed);
    assert mid[1..] == [];
    assert Live(mid, killed) == mid;
    var p := |Live(pre, killed)|;
    assert Live(ns, killed)[p] == ns[c];
  }

  /** What a successful simplifyCall does: the parameters named by the
      call are gone, every position of the block is as the searches
      describe, exactly the killed instructions are erased, and the call's
      argument lists are rewritten entry by entry. */
  lemma SimplifyCallEffect(parameters: map<string, Parameter>, b: seq<Instruction>, c: nat, next: nat)
    requires c < |b| && b[c].opcode == Call && SimplifyCallSpec(parameters, b, c, next).Done?
    ensures var inputs := AddressNames(b[c].b.elements);
      var outputs := AddressNames(b[c].d.elements);
      var r := SimplifyCallSpec(parameters, b, c, next).value;
      var s := Search(b, c, next).value;
      && r.parameters == parameters - (inputs + outputs)
      && next <= r.next
      && (forall k :: 0 <= k < c ==> StoreSearched(b, c, inputs, s, k, next))
      && (forall k :: c < k < |b| ==> LoadSearched(b, c, outputs, s, k, next))
      && (forall k :: k in s.kills <==> 0 <= k < |b| && Killed(b, c, inputs, outputs, k))
      && AllBound(b[c].d.elements, s.registers) && AllBound(b[c].b.elements, s.registers)
      && r.call <= c && r.call < |r.block| && |r.block| - r.call <= |b| - c
      && var call := r.block[r.call];
        && call == b[c].(d := b[c].d.(elements := call.d.elements), b := b[c].b.(elements := call.b.elements))
        && |call.d.elements| == |b[c].d.elements| && |call.b.elements| == |b[c].b.elements|
        && (forall i :: 0 <= i < |call.d.elements| ==> call.d.elements[i] == BindArgument(b[c].d.elements[i], s.registers))
        && (forall i :: 0 <= i < |call.b.elements| ==> call.b.elements[i] == BindArgument(b[c].b.elements[i], s.registers))
        && r.block == Kept(s.block[c := call], Members(s.kills))
  {
    var inputs := AddressNames(b[c].b.elements);
    var outputs := AddressNames(b[c].d.elements);
    SearchSpec(b, c, next);
    var s := Search(b, c, next).value;
    assert LoadSearched(b, c, outputs, s, c, next);
    var call := s.block[c];
    var outs := BindArguments(call.d.elements, s.registers).value;
    var ins := BindArguments(call.b.elements, s.registers).value;
    var scanned := s.block[c := call.(d := call.d.(elements := outs), b := call.b.(elements := ins))];
    var killed := Members(s.kills);
    forall k
      ensures k in s.kills <==> 0 <= k < |b| && Killed(b, c, inputs, outputs, k)
    {
      if 0 <= k < c {
        assert StoreSearched(b, c, inputs, s, k, next);
      } else if c <= k < |b| {
        assert LoadSearched(b, c, outputs, s, k, next);
      }
    }
    assert c !in killed;
    LiveAround(scanned, c, killed);
  }

  // ---------------------------------------------------------------------
  // simplifyCall, loop by loop
  // ---------------------------------------------------------------------

  /** The loops collecting the argument names of a list. */
  method CollectNames(arr: seq<Operand>) returns (names: set<string>)
    ensures names == AddressNames(arr)
  {
    names := {};
    for i := 0 to |arr|
      invariant names == AddressNames(arr[..i])
    {
      AddressNamesStep(arr, i);
      if arr[i].addressMode == Address {
        names := names + {arr[i].identifier};
      }
    }
    assert arr[..|arr|] == arr;
  }

  /** One instruction of the backward search. */
  method SearchStore(s: Scan, j: nat) returns (r: Outcome<Scan>)
    requires j < |s.block|
    ensures r == StoreStep(s, j)
  {
    var p := s.block[j];
    r := Done(s);
    if p.opcode == St && p.addressSpace == Param && p.d.addressMode == Address && p.d.identifier in s.pending {
      var n := p.d.identifier;
      if p.a.addressMode == Register {
        if p.dataType == p.a.dataType {
          r := Done(s.(registers := MemoryLayout.Insert(s.registers, n, p.a.reg), kills := s.kills + [j]));
        } else {
          var temp := RegisterOperand(p.dataType, s.next);
          r := Done(s.(block := s.block[j := p.(opcode := Cvt, d := temp, modifier := ModifierInvalid)],
                       registers := MemoryLayout.Insert(s.registers, n, temp.reg), next := s.next + 1));
        }
      } else {
        if p.a.addressMode != Immediate {
          return Failed(SourceNotImmediate);
        }
        var temp := RegisterOperand(p.dataType, s.next);
        r := Done(s.(block := s.block[j := p.(opcode := Mov, d := temp)],
                     registers := MemoryLayout.Insert(s.registers, n, temp.reg), next := s.next + 1));
      }
      r := Done(r.value.(pending := s.pending - {n}));
    }
  }

  /** One instruction of the forward search. */
  method SearchLoad(s: Scan, j: nat) returns (r: Outcome<Scan>)
    requires j < |s.block|
    ensures r == LoadStep(s, j)
  {
    var p := s.block[j];
    r := Done(s);
    if p.opcode == Ld && p.addressSpace == Param && p.a.addressMode == Address && p.a.identifier in s.pending {
      var n := p.a.identifier;
      if p.d.addressMode != Register {
        return Failed(TargetNotRegister);
      }
      if n in s.registers {
        return Failed(AlreadyMapped);
      }
      if p.dataType == p.d.dataType {
        r := Done(s.(registers := MemoryLayout.Insert(s.registers, n, p.d.reg), kills := s.kills + [j]));
      } else {
        var temp := RegisterOperand(p.dataType, s.next);
        r := Done(s.(block := s.block[j := p.(opcode := Cvt, a := temp, modifier := ModifierInvalid)],
                     registers := MemoryLayout.Insert(s.registers, n, temp.reg), next := s.next + 1));
      }
      r := Done(r.value.(pending := s.pending - {n}));
    }
  }

  /** The loop rewriting one argument list of the call. */
  method BindArgumentList(arr: seq<Operand>, registers: map<string, nat>) returns (r: Outcome<seq<Operand>>)
    ensures r == BindArguments(arr, registers)
  {
    var out := arr;
    for i := 0 to |arr|
      invariant |out| == |arr|
      invariant forall k :: 0 <= k < i ==> (arr[k].addressMode == Address ==> arr[k].identifier in registers)
      invariant forall k :: 0 <= k < i ==> out[k] == BindArgument(arr[k], registers)
      invariant forall k :: i <= k < |arr| ==> out[k] == arr[k]
    {
      if arr[i].addressMode == Address {
        if arr[i].identifier !in registers {
          return Failed(NoRegisterSource);
        }
        out := out[i := out[i].(addressMode := Register, reg := registers[arr[i].identifier], identifier := "")];
      }
    }
    assert AllBound(arr, registers);
    var bound := BindArguments(arr, registers);
    assert out == bound.value;
    r := Done(out);
  }

  /** The loop erasing the parameters named by the call that the kernel
      still has. */
  method RemoveParameters(parameters: map<string, Parameter>, names: set<string>) returns (r: map<string, Parameter>)
    ensures r == parameters - names
  {
    r := parameters;
    var rest := names;
    while rest != {}
      invariant rest <= names && r == parameters - (names - rest)
      decreases |rest|
    {
      var n :| n in rest;
      if n in r {
        r := r - {n};
      }
      rest := rest - {n};
    }
  }

  /** The two search loops of simplifyCall. */
  method SearchCall(b: seq<Instruction>, c: nat, inputs: set<string>, outputs: set<string>, next: nat) returns (r: Outcome<Scan>)
    requires c < |b|
    requires inputs == AddressNames(b[c].b.elements) && outputs == AddressNames(b[c].d.elements)
    ensures r == Search(b, c, next)
  {
    var s := Scan(b, inputs, map[], [], next);
    ghost var s0 := s;
    var j: nat := c;
    while j > 0
      invariant j <= c && |s.block| == |b|
      invariant ScanStores(s, j) == ScanStores(s0, c)
    {
      var step := SearchStore(s, j - 1);
      if step.Failed? {
        return Failed(step.failure);
      }
      s, j := step.value, j - 1;
    }
    s := s.(pending := outputs);
    ghost var s1 := s;
    j := c;
    while j < |s.block|
      invariant c <= j <= |s.block| == |b|
      invariant ScanLoads(s, j) == ScanLoads(s1, c)
      decreases |s.block| - j
    {
      var step := SearchLoad(s, j);
      if step.Failed? {
        return Failed(step.failure);
      }
      s, j := step.value, j + 1;
    }
    r := Done(s);
  }

  /** The positions a kill list names. */
  function Members(kills: seq<nat>): set<nat>
  {
    set k | k in kills
  }

  lemma {:induction false} LiveNone(nodes: seq<Node>)
    ensures Live(nodes, {}) == nodes
    decreases |nodes|
  {
    if nodes != [] {
      LiveNone(nodes[1..]);
      assert nodes == [nodes[0]] + nodes[1..];
    }
  }

  /** The loop erasing the kill list from the block's nodes. */
  method EraseKilled(nodes0: seq<Node>, kills: seq<nat>) returns (nodes: seq<Node>)
    ensures nodes == Live(nodes0, Members(kills))
  {
    nodes := nodes0;
    LiveNone(nodes0);
    assert Members(kills[..0]) == {};
    for i := 0 to |kills|
      invariant nodes == Live(nodes0, Members(kills[..i]))
    {
      EraseLive(nodes0, Members(kills[..i]), kills[i]);
      assert Members(kills[..i + 1]) == Members(kills[..i]) + {kills[i]} by {
        assert kills[..i + 1] == kills[..i] + [kills[i]];
      }
      nodes := Erase(nodes, kills[i]);
    }
    assert kills[..|kills|] == kills;
  }

  /** simplifyCall on the call at position c of block b. */
  method SimplifyCall(parameters: map<string, Parameter>, b: seq<Instruction>, c: nat, next: nat) returns (r: Outcome<Simplified>)
    requires c < |b|
    ensures r == SimplifyCallSpec(parameters, b, c, next)
  {
    var outputs := CollectNames(b[c].d.elements);
    var inputs := CollectNames(b[c].b.elements);
    var search := SearchCall(b, c, inputs, outputs, next);
    if search.Failed? {
      return Failed(search.failure);
    }
    var s := search.value;
    var call := s.block[c];
    var outs := BindArgumentList(call.d.elements, s.registers);
    if outs.Failed? {
      return Failed(outs.failure);
    }
    var ins := BindArgumentList(call.b.elements, s.registers);
    if ins.Failed? {
      return Failed(ins.failure);
    }
    var scanned := s.block[c := call.(d := call.d.(elements := outs.value), b := call.b.(elements := ins.value))];
    var nodes := EraseKilled(Nodes(scanned), s.kills);
    var remaining := RemoveParameters(parameters, outputs + inputs);
    r := Done(Simplified(remaining, Instructions(nodes), |Live(Nodes(scanned)[..c], Members(s.kills))|, s.next));
  }

  // ---------------------------------------------------------------------
  // runOnKernel
  // ---------------------------------------------------------------------

  /** The pass's configuration: the names in the external-function set
      and _simplifyAll. */
  datatype Pass = Pass(externals: set<string>, simplifyAll: bool)

  /** runOnKernel simplifies a call when every call is to be simplified,
      or when its callee (operand a) is not a kernel of the module and is
      an external function. */
  predicate Simplifies(pass: Pass, kernels: set<string>, ins: Instruction)
  {
    ins.opcode == Call && (pass.simplifyAll || (ins.a.identifier !in kernels && ins.a.identifier in pass.externals))
  }

  /** A simplified call keeps its node, so the instruction loop goes on
      after it; nothing is added to the block or to the parameters. */
  lemma SimplifyCallShrinks(parameters: map<string, Parameter>, b: seq<Instruction>, c: nat, next: nat)
    requires c < |b| && b[c].opcode == Call && SimplifyCallSpec(parameters, b, c, next).Done?
    ensures var r := SimplifyCallSpec(parameters, b, c, next).value;
      && r.call < |r.block| && |r.block| - r.call <= |b| - c && |r.block| <= |b|
      && next <= r.next && r.parameters.Keys <= parameters.Keys
  {
    SimplifyCallEffect(parameters, b, c, next);
  }

  datatype BlockRun = BlockRun(parameters: map<string, Parameter>, block: seq<Instruction>, next: nat)

  /** The instruction loop of runOnKernel over one block, from position i. */
  function RunOnBlock(pass: Pass, kernels: set<string>, parameters: map<string, Parameter>,
                      b: seq<Instruction>, i: nat, next: nat): Outcome<BlockRun>
    requires i <= |b|
    decreases |b| - i
  {
    if i == |b| then Done(BlockRun(parameters, b, next))
    else if Simplifies(pass, kernels, b[i]) then
      match SimplifyCallSpec(parameters, b, i, next)
      case Failed(f) => Failed(f)
      case Done(r) =>
        SimplifyCallShrinks(parameters, b, i, next);
        RunOnBlock(pass, kernels, r.parameters, r.block, r.call + 1, r.next)
    else RunOnBlock(pass, kernels, parameters, b, i + 1, next)
  }

  /** The kernel's parameter map and the instruction lists of its blocks. */
  datatype Kernel = Kernel(parameters: map<string, Parameter>, blocks: seq<seq<Instruction>>)

  datatype KernelRun = KernelRun(kernel: Kernel, next: nat)

  /** The block loop of runOnKernel, from block i. */
  function RunOnBlocks(pass: Pass, kernels: set<string>, k: Kernel, i: nat, next: nat): Outcome<KernelRun>
    requires i <= |k.blocks|
    decreases |k.blocks| - i
  {
    if i == |k.blocks| then Done(KernelRun(k, next))
    else
      match RunOnBlock(pass, kernels, k.parameters, k.blocks[i], 0, next)
      case Failed(f) => Failed(f)
      case Done(r) => RunOnBlocks(pass, kernels, Kernel(r.parameters, k.blocks[i := r.block]), i + 1, r.next)
  }

  /** runOnKernel; `kernels` are the names of the module's kernels. */
  function RunOnKernel(pass: Pass, kernels: set<string>, k: Kernel, next: nat): Outcome<KernelRun>
  {
    RunOnBlocks(pass, kernels, k, 0, next)
  }

  /** A block without a call the pass simplifies is left as it is. */
  lemma {:induction false} RunOnBlockUntouched(pass: Pass, kernels: set<string>, parameters: map<string, Parameter>,
                                               b: seq<Instruction>, i: nat, next: nat)
    requires i <= |b|
    requires forall j :: i <= j < |b| ==> !Simplifies(pass, kernels, b[j])
    ensures RunOnBlock(pass, kernels, parameters, b, i, next) == Done(BlockRun(parameters, b, next))
    decreases |b| - i
  {
    if i < |b| {
      RunOnBlockUntouched(pass, kernels, parameters, b, i + 1, next);
    }
  }

  /** The pass only removes: no block grows, no parameter is added, and
      the register counter only moves up. */
  lemma {:induction false} RunOnBlockShrinks(pass: Pass, kernels: set<string>, parameters: map<string, Parameter>,
                                             b: seq<Instruction>, i: nat, next: nat)
    requires i <= |b| && RunOnBlock(pass, kernels, parameters, b, i, next).Done?
    ensures var r := RunOnBlock(pass, kernels, parameters, b, i, next).value;
      |r.block| <= |b| && r.parameters.Keys <= parameters.Keys && next <= r.next
    decreases |b| - i
  {
    if i < |b| {
      if Simplifies(pass, kernels, b[i]) {
        var r := SimplifyCallSpec(parameters, b, i, next).value;
        SimplifyCallShrinks(parameters, b, i, next);
        RunOnBlockShrinks(pass, kernels, r.parameters, r.block, r.call + 1, r.next);
      } else {
        RunOnBlockShrinks(pass, kernels, parameters, b, i + 1, next);
      }
    }
  }

  /** A kernel without a call the pass simplifies is left as it is. */
  lemma {:induction false} RunOnBlocksUntouched(pass: Pass, kernels: set<string>, k: Kernel, i: nat, next: nat)
    requires i <= |k.blocks|
    requires forall m, j :: i <= m < |k.blocks| && 0 <= j < |k.blocks[m]| ==> !Simplifies(pass, kernels, k.blocks[m][j])
    ensures RunOnBlocks(pass, kernels, k, i, next) == Done(KernelRun(k, next))
    decreases |k.blocks| - i
  {
    if i < |k.blocks| {
      RunOnBlockUntouched(pass, kernels, k.parameters, k.blocks[i], 0, next);
      assert k.blocks[i := k.blocks[i]] == k.blocks;
      RunOnBlocksUntouched(pass, kernels, k, i + 1, next);
    }
  }

  /** Over the whole kernel: the blocks stay as many, none grows, and
      parameters are only removed. */
  lemma {:induction false} RunOnBlocksShrinks(pass: Pass, kernels: set<string>, k: Kernel, i: nat, next: nat)
    requires i <= |k.blocks| && RunOnBlocks(pass, kernels, k, i, next).Done?
    ensures var r := RunOnBlocks(pass, kernels, k, i, next).value;
      && |r.kernel.blocks| == |k.blocks|
      && (forall m :: 0 <= m < |k.blocks| ==> |r.kernel.blocks[m]| <= |k.blocks[m]|)
      && r.kernel.parameters.Keys <= k.parameters.Keys
      && next <= r.next
    decreases |k.blocks| - i
  {
    if i < |k.blocks| {
      var r := RunOnBlock(pass, kernels, k.parameters, k.blocks[i], 0, next).value;
      RunOnBlockShrinks(pass, kernels, k.parameters, k.blocks[i], 0, next);
      RunOnBlocksShrinks(pass, kernels, Kernel(r.parameters, k.blocks[i := r.block]), i + 1, r.next);
    }
  }

  /** The instruction loop over one block. */
  method RunBlock(pass: Pass, kernels: set<string>, parameters: map<string, Parameter>, b: seq<Instruction>, next: nat)
    returns (r: Outcome<BlockRun>)
    ensures r == RunOnBlock(pass, kernels, parameters, b, 0, next)
  {
    var params, block, counter := parameters, b, next;
    var i: nat := 0;
    while i < |block|
      invariant i <= |block|
      invariant RunOnBlock(pass, kernels, params, block, i, counter) == RunOnBlock(pass, kernels, parameters, b, 0, next)
      decreases |block| - i
    {
      var ins := block[i];
      if ins.opcode == Call && (pass.simplifyAll || (ins.a.identifier !in kernels && ins.a.identifier in pass.externals)) {
        var s := SimplifyCall(params, block, i, counter);
        if s.Failed? {
          return Failed(s.failure);
        }
        SimplifyCallShrinks(params, block, i, counter);
        params, block, counter, i := s.value.parameters, s.value.block, s.value.next, s.value.call;
      }
      i := i + 1;
    }
    r := Done(BlockRun(params, block, counter));
  }

  /** runOnKernel: the block loop. */
  method RunKernel(pass: Pass, kernels: set<string>, k: Kernel, next: nat) returns (r: Outcome<KernelRun>)
    ensures r == RunOnKernel(pass, kernels, k, next)
  {
    var kernel, counter := k, next;
    for i := 0 to |k.blocks|
      invariant |kernel.blocks| == |k.blocks|
      invariant RunOnBlocks(pass, kernels, kernel, i, counter) == RunOnKernel(pass, kernels, k, next)
    {
      var run := RunBlock(pass, kernels, kernel.parameters, kernel.blocks[i], counter);
      if run.Failed? {
        return Failed(run.failure);
      }
      kernel := Kernel(run.value.parameters, kernel.blocks[i := run.value.block]);
      counter := run.value.next;
    }
    r := Done(KernelRun(kernel, counter));
  }
}
