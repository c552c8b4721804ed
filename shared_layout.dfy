/** The specification of LLVMExecutableKernel::_allocateSharedMemory.

    The allocator runs in four phases:
    1. The module's shared globals are collected. Extern ones go into the
       extern name set and raise the extern alignment. The others become
       allocation candidates, keyed by name.
    2. The kernel's shared locals are collected. Extern ones are treated
       like extern globals. The others are placed at once.
    3. The address operands of mov/ld/st are scanned in program order.
       - An extern name is recorded for later and skipped.
       - A candidate global is placed at its first reference and removed
         from the candidates.
       - A mapped name is displaced by its offset and moves the
         instruction to the shared space.
    4. The size is padded to the extern alignment, and every recorded
       extern operand is displaced by the final size.

    Phases 1 to 3 are written as folds over the state of the C++ loops.
    The lemmas state what those folds amount to: a sequential placement
    of the shared locals followed by the referenced globals in
    first-reference order. */
module SharedLayout {
  import opened Util
  import opened PtxIR
  import opened MemoryLayout

  /** A recorded extern operand: instruction index and operand slot. */
  datatype OperandRef = OperandRef(instruction: nat, slot: nat)

  /** The allocator's bookkeeping:
      - `offsets` is `map`;
      - `size` is `_context.sharedSize`;
      - `candidates` is `sharedGlobals`;
      - `external` and `externalAlignment` are the extern name set and
        its alignment. */
  datatype SharedAllocation = SharedAllocation(
    offsets: map<string, nat>,
    size: nat,
    candidates: map<string, Global>,
    external: set<string>,
    externalAlignment: nat)

  const Initial: SharedAllocation := SharedAllocation(map[], 0, map[], {}, 1)

  /** Candidates are keyed by their own name and can be padded. */
  predicate WellFormed(st: SharedAllocation)
  {
    && st.externalAlignment >= 1
    && (forall x :: x in st.candidates ==> st.candidates[x].name == x && st.candidates[x].alignment > 0)
  }

  function Max(a: nat, b: nat): (r: nat)
    ensures r >= a && r >= b && (r == a || r == b)
  {
    if a < b then b else a
  }

  // ---------------------------------------------------------------------
  // Phases 1 and 2: declarations
  // ---------------------------------------------------------------------

  predicate IsSharedGlobal(g: Global)
  {
    g.directive == SharedDirective && g.attribute != Extern
  }

  predicate IsExternGlobal(g: Global)
  {
    g.directive == SharedDirective && g.attribute == Extern
  }

  predicate IsSharedLocal(l: LocalVariable)
  {
    l.space == Shared && l.attribute != Extern
  }

  predicate IsExternLocal(l: LocalVariable)
  {
    l.space == Shared && l.attribute == Extern
  }

  /** `_pad` divides by the alignment: placed variables need a positive one. */
  predicate GlobalsAlignable(globals: seq<Global>)
  {
    forall i :: 0 <= i < |globals| && IsSharedGlobal(globals[i]) ==> globals[i].alignment > 0
  }

  predicate LocalsAlignable(locals: seq<LocalVariable>)
  {
    forall i :: 0 <= i < |locals| && IsSharedLocal(locals[i]) ==> locals[i].alignment > 0
  }

  function CollectGlobal(st: SharedAllocation, g: Global): SharedAllocation
  {
    if IsExternGlobal(g) then
      st.(external := st.external + {g.name},
          externalAlignment := Max(Max(st.externalAlignment, g.alignment), Bytes(g.dataType)))
    else if IsSharedGlobal(g) then
      st.(candidates := Insert(st.candidates, g.name, g))
    else st
  }

  function CollectGlobals(st: SharedAllocation, globals: seq<Global>): (r: SharedAllocation)
    requires WellFormed(st) && GlobalsAlignable(globals)
    ensures WellFormed(r)
    ensures r.offsets == st.offsets && r.size == st.size
    decreases |globals|
  {
    if globals == [] then st
    else
      assert GlobalsAlignable(globals[1..]) by {
        assert forall i :: 1 <= i < |globals| ==> globals[1..][i - 1] == globals[i];
      }
      CollectGlobals(CollectGlobal(st, globals[0]), globals[1..])
  }

  function CollectLocal(st: SharedAllocation, l: LocalVariable): SharedAllocation
    requires IsSharedLocal(l) ==> l.alignment > 0
  {
    if IsExternLocal(l) then
      st.(external := st.external + {l.name},
          externalAlignment := Max(Max(st.externalAlignment, l.alignment), Bytes(l.dataType)))
    else if IsSharedLocal(l) then
      var offset := st.size + Padding(st.size, l.alignment);
      st.(offsets := Insert(st.offsets, l.name, offset), size := offset + l.size)
    else st
  }

  function CollectLocals(st: SharedAllocation, locals: seq<LocalVariable>): (r: SharedAllocation)
    requires WellFormed(st) && LocalsAlignable(locals)
    ensures WellFormed(r)
    ensures r.candidates == st.candidates
    decreases |locals|
  {
    if locals == [] then st
    else
      assert LocalsAlignable(locals[1..]) by {
        assert forall i :: 1 <= i < |locals| ==> locals[1..][i - 1] == locals[i];
      }
      CollectLocals(CollectLocal(st, locals[0]), locals[1..])
  }

  /** The extern names the allocator asserts it sees only once. */
  function ExternGlobalNames(globals: seq<Global>): seq<string>
  {
    if globals == [] then []
    else (if IsExternGlobal(globals[0]) then [globals[0].name] else []) + ExternGlobalNames(globals[1..])
  }

  function ExternLocalNames(locals: seq<LocalVariable>): seq<string>
  {
    if locals == [] then []
    else (if IsExternLocal(locals[0]) then [locals[0].name] else []) + ExternLocalNames(locals[1..])
  }

  /** The shared locals the allocator places, as slots, in order. */
  function LocalSlots(locals: seq<LocalVariable>): (r: seq<Slot>)
    requires LocalsAlignable(locals)
    ensures Alignable(r)
    decreases |locals|
  {
    if locals == [] then []
    else
      assert LocalsAlignable(locals[1..]) by {
        assert forall i :: 1 <= i < |locals| ==> locals[1..][i - 1] == locals[i];
      }
      var l := locals[0];
      (if IsSharedLocal(l) then [Slot(l.name, l.size, l.alignment)] else []) + LocalSlots(locals[1..])
  }

  /** Phase 2 places the shared locals one after the other at the running
      size, recording each at its first insertion. */
  lemma {:induction false} CollectLocalsPlaces(st: SharedAllocation, locals: seq<LocalVariable>)
    requires WellFormed(st) && LocalsAlignable(locals)
    ensures var r := CollectLocals(st, locals); var p := Place(LocalSlots(locals), st.size);
      && r.size == p.end
      && r.offsets == InsertAll(st.offsets, Names(LocalSlots(locals)), p.offsets)
    decreases |locals|
  {
    if locals != [] {
      assert LocalsAlignable(locals[1..]) by {
        assert forall i :: 1 <= i < |locals| ==> locals[1..][i - 1] == locals[i];
      }
      var l := locals[0];
      var st1 := CollectLocal(st, l);
      CollectLocalsPlaces(st1, locals[1..]);
      var rest := LocalSlots(locals[1..]);
      if IsSharedLocal(l) {
        CollectSharedLocal(st, l, rest);
      } else {
        assert LocalSlots(locals) == rest;
      }
    }
  }

  /** One shared local: placed at the padded running size, inserted, and
      the rest placed after it. */
  lemma CollectSharedLocal(st: SharedAllocation, l: LocalVariable, rest: seq<Slot>)
    requires IsSharedLocal(l) && l.alignment > 0 && Alignable(rest)
    ensures var st1 := CollectLocal(st, l);
      var slots := [Slot(l.name, l.size, l.alignment)] + rest;
      && Alignable(slots)
      && Place(slots, st.size) == Place(rest, st1.size).(offsets := [st1.size - l.size] + Place(rest, st1.size).offsets)
      && InsertAll(st.offsets, Names(slots), Place(slots, st.size).offsets)
         == InsertAll(st1.offsets, Names(rest), Place(rest, st1.size).offsets)
  {
    var x := Slot(l.name, l.size, l.alignment);
    var slots := [x] + rest;
    var offset := st.size + Padding(st.size, l.alignment);
    var st1 := CollectLocal(st, l);
    assert st1.size == offset + l.size && st1.offsets == Insert(st.offsets, l.name, offset);
    var q := Place(rest, st1.size);
    assert Alignable(slots) && Place(slots, st.size) == Placement([offset] + q.offsets, q.end) by {
      PlaceCons(x, rest, st.size);
    }
    assert Names(slots) == [l.name] + Names(rest) by { NamesCons(x, rest); }
    InsertAllCons(st.offsets, l.name, Names(rest), offset, q.offsets);
  }

  /** The extern alignment starts at 1 and covers the alignment and the type
      width of every extern variable collected. */
  lemma {:induction false} ExternAlignmentCoversGlobals(st: SharedAllocation, globals: seq<Global>)
    requires WellFormed(st) && GlobalsAlignable(globals)
    ensures var r := CollectGlobals(st, globals);
      && r.externalAlignment >= st.externalAlignment
      && (forall i :: 0 <= i < |globals| && IsExternGlobal(globals[i]) ==>
            r.externalAlignment >= globals[i].alignment && r.externalAlignment >= Bytes(globals[i].dataType))
      && r.external == st.external + (set n | n in ExternGlobalNames(globals))
    decreases |globals|
  {
    if globals != [] {
      assert GlobalsAlignable(globals[1..]) by {
        assert forall i :: 1 <= i < |globals| ==> globals[1..][i - 1] == globals[i];
      }
      ExternAlignmentCoversGlobals(CollectGlobal(st, globals[0]), globals[1..]);
      assert forall i :: 1 <= i < |globals| ==> globals[1..][i - 1] == globals[i];
    }
  }

  lemma {:induction false} ExternAlignmentCoversLocals(st: SharedAllocation, locals: seq<LocalVariable>)
    requires WellFormed(st) && LocalsAlignable(locals)
    ensures var r := CollectLocals(st, locals);
      && r.externalAlignment >= st.externalAlignment
      && (forall i :: 0 <= i < |locals| && IsExternLocal(locals[i]) ==>
            r.externalAlignment >= locals[i].alignment && r.externalAlignment >= Bytes(locals[i].dataType))
      && r.external == st.external + (set n | n in ExternLocalNames(locals))
    decreases |locals|
  {
    if locals != [] {
      assert LocalsAlignable(locals[1..]) by {
        assert forall i :: 1 <= i < |locals| ==> locals[1..][i - 1] == locals[i];
      }
      ExternAlignmentCoversLocals(CollectLocal(st, locals[0]), locals[1..]);
      assert forall i :: 1 <= i < |locals| ==> locals[1..][i - 1] == locals[i];
    }
  }

  /** The candidates are exactly the non-extern shared globals. */
  lemma {:induction false} CollectGlobalsCandidates(st: SharedAllocation, globals: seq<Global>)
    requires WellFormed(st) && GlobalsAlignable(globals)
    ensures forall x :: x in CollectGlobals(st, globals).candidates <==>
      (x in st.candidates || exists i :: 0 <= i < |globals| && IsSharedGlobal(globals[i]) && globals[i].name == x)
    decreases |globals|
  {
    if globals != [] {
      assert GlobalsAlignable(globals[1..]) by {
        assert forall i :: 1 <= i < |globals| ==> globals[1..][i - 1] == globals[i];
      }
      CollectGlobalsCandidates(CollectGlobal(st, globals[0]), globals[1..]);
      forall x | x in CollectGlobals(st, globals).candidates
        ensures x in st.candidates || exists i :: 0 <= i < |globals| && IsSharedGlobal(globals[i]) && globals[i].name == x
      {
        if x !in st.candidates && !(IsSharedGlobal(globals[0]) && globals[0].name == x) {
          var j :| 0 <= j < |globals[1..]| && IsSharedGlobal(globals[1..][j]) && globals[1..][j].name == x;
          assert globals[j + 1] == globals[1..][j];
        }
      }
      forall x, i | 0 <= i < |globals| && IsSharedGlobal(globals[i]) && globals[i].name == x
        ensures x in CollectGlobals(st, globals).candidates
      {
        if i > 0 {
          assert globals[1..][i - 1] == globals[i];
        }
      }
    }
  }

  // ---------------------------------------------------------------------
  // Phase 3: lazy allocation of the referenced globals
  // ---------------------------------------------------------------------

  /** The first reference of a candidate: pad, place, erase it. */
  function Allocate(st: SharedAllocation, id: string): (r: SharedAllocation)
    requires WellFormed(st) && id in st.candidates
    ensures WellFormed(r)
  {
    var g := st.candidates[id];
    var offset := st.size + Padding(st.size, g.alignment);
    st.(candidates := st.candidates - {id},
        offsets := Insert(st.offsets, g.name, offset),
        size := offset + g.bytes)
  }

  /** A non-extern address operand naming `id`: allocated if still a candidate. */
  function Touch(st: SharedAllocation, id: string): (r: SharedAllocation)
    requires WellFormed(st)
    ensures WellFormed(r)
  {
    if id in st.candidates then Allocate(st, id) else st
  }

  function TouchAll(st: SharedAllocation, ids: seq<string>): (r: SharedAllocation)
    requires WellFormed(st)
    ensures WellFormed(r)
    decreases |ids|
  {
    if ids == [] then st else TouchAll(Touch(st, ids[0]), ids[1..])
  }

  lemma {:induction false} TouchAllAppend(st: SharedAllocation, a: seq<string>, b: seq<string>)
    requires WellFormed(st)
    ensures TouchAll(st, a + b) == TouchAll(TouchAll(st, a), b)
    decreases |a|
  {
    if a == [] {
      assert a + b == b;
    } else {
      assert (a + b)[1..] == a[1..] + b;
      TouchAllAppend(Touch(st, a[0]), a[1..], b);
    }
  }

  /** Lazy allocation never moves an allocated name, only adds names that
      were candidates, erases exactly the referenced candidates and leaves
      the extern bookkeeping alone. */
  lemma {:induction false} TouchAllFrame(st: SharedAllocation, ids: seq<string>)
    requires WellFormed(st)
    ensures var r := TouchAll(st, ids);
      && (forall x :: x in st.offsets ==> x in r.offsets && r.offsets[x] == st.offsets[x])
      && r.offsets.Keys <= st.offsets.Keys + st.candidates.Keys
      && r.candidates.Keys == st.candidates.Keys - (set x | x in ids)
      && (forall x :: x in r.candidates ==> r.candidates[x] == st.candidates[x])
      && r.external == st.external && r.externalAlignment == st.externalAlignment
    decreases |ids|
  {
    if ids != [] {
      var st1 := Touch(st, ids[0]);
      TouchAllFrame(st1, ids[1..]);
      assert (set x | x in ids) == {ids[0]} + (set x | x in ids[1..]);
    }
  }

  /** The candidates in order of first reference. */
  function FirstReferences(ids: seq<string>, candidates: set<string>): (r: seq<string>)
    decreases |ids|
  {
    if ids == [] then []
    else if ids[0] in candidates then [ids[0]] + FirstReferences(ids[1..], candidates - {ids[0]})
    else FirstReferences(ids[1..], candidates)
  }

  /** Each referenced candidate appears once; nothing else appears. */
  lemma {:induction false} FirstReferencesElements(ids: seq<string>, candidates: set<string>)
    ensures Distinct(FirstReferences(ids, candidates))
    ensures forall x :: x in FirstReferences(ids, candidates) <==> x in ids && x in candidates
    decreases |ids|
  {
    if ids != [] {
      if ids[0] in candidates {
        FirstReferencesElements(ids[1..], candidates - {ids[0]});
      } else {
        FirstReferencesElements(ids[1..], candidates);
      }
    }
  }

  /** The globals placed by lazy allocation, as slots. */
  function GlobalSlots(names: seq<string>, candidates: map<string, Global>): (r: seq<Slot>)
    requires forall i :: 0 <= i < |names| ==> names[i] in candidates && candidates[names[i]].alignment > 0
    ensures |r| == |names| && Alignable(r)
  {
    seq(|names|, i requires 0 <= i < |names| =>
      Slot(candidates[names[i]].name, candidates[names[i]].bytes, candidates[names[i]].alignment))
  }

  /** Lazy allocation is the sequential placement, after the current size,
      of exactly the candidates referenced, in order of first reference.
      Unreferenced candidates add nothing to the size. */
  lemma {:induction false} TouchAllPlaces(st: SharedAllocation, ids: seq<string>)
    requires WellFormed(st)
    ensures var fr := FirstReferences(ids, st.candidates.Keys);
      && (forall i :: 0 <= i < |fr| ==> fr[i] in st.candidates)
      && var slots := GlobalSlots(fr, st.candidates);
         var p := Place(slots, st.size);
         && TouchAll(st, ids).size == p.end
         && TouchAll(st, ids).offsets == InsertAll(st.offsets, Names(slots), p.offsets)
    decreases |ids|
  {
    FirstReferencesElements(ids, st.candidates.Keys);
    if ids != [] {
      var st1 := Touch(st, ids[0]);
      TouchAllPlaces(st1, ids[1..]);
      if ids[0] in st.candidates {
        AllocateStep(st, ids[0], FirstReferences(ids[1..], st1.candidates.Keys));
      }
    }
  }

  /** The first reference of a candidate places it in front of the globals
      referenced after it. */
  lemma AllocateStep(st: SharedAllocation, id: string, later: seq<string>)
    requires WellFormed(st) && id in st.candidates
    requires forall i :: 0 <= i < |later| ==> later[i] in Allocate(st, id).candidates
    ensures var st1 := Allocate(st, id);
      var fr := [id] + later;
      && (forall i :: 0 <= i < |fr| ==> fr[i] in st.candidates)
      && var slots := GlobalSlots(fr, st.candidates);
         var slots1 := GlobalSlots(later, st1.candidates);
         && Place(slots, st.size).end == Place(slots1, st1.size).end
         && InsertAll(st.offsets, Names(slots), Place(slots, st.size).offsets)
            == InsertAll(st1.offsets, Names(slots1), Place(slots1, st1.size).offsets)
  {
    var st1 := Allocate(st, id);
    var g := st.candidates[id];
    var fr := [id] + later;
    var slots := GlobalSlots(fr, st.candidates);
    var slots1 := GlobalSlots(later, st1.candidates);
    var x := Slot(g.name, g.bytes, g.alignment);
    AllocateSlots(st, id, later);
    AllocateFields(st, id);
    assert Place(slots, st.size).end == Place(slots1, st1.size).end
      && OffsetMap(slots, st.size, st.offsets) == OffsetMap(slots1, st1.size, st1.offsets) by {
      OffsetMapCons(x, slots1, st.size, st.offsets);
    }
  }

  lemma AllocateFields(st: SharedAllocation, id: string)
    requires WellFormed(st) && id in st.candidates
    ensures var g := st.candidates[id];
      var offset := st.size + Padding(st.size, g.alignment);
      && Allocate(st, id).size == offset + g.bytes
      && Allocate(st, id).offsets == Insert(st.offsets, g.name, offset)
  {
  }

  lemma AllocateSlots(st: SharedAllocation, id: string, later: seq<string>)
    requires WellFormed(st) && id in st.candidates
    requires forall i :: 0 <= i < |later| ==> later[i] in Allocate(st, id).candidates
    ensures forall i :: 0 <= i < |[id] + later| ==> ([id] + later)[i] in st.candidates
    ensures var g := st.candidates[id];
      GlobalSlots([id] + later, st.candidates)
      == [Slot(g.name, g.bytes, g.alignment)] + GlobalSlots(later, Allocate(st, id).candidates)
  {
    var st1 := Allocate(st, id);
    var fr := [id] + later;
    assert forall i :: 1 <= i < |fr| ==> fr[i] == later[i - 1];
    var slots := GlobalSlots(fr, st.candidates);
    var slots1 := GlobalSlots(later, st1.candidates);
    forall i | 1 <= i < |slots|
      ensures slots[i] == slots1[i - 1]
    {
      assert st1.candidates[later[i - 1]] == st.candidates[later[i - 1]];
    }
  }

  // ---------------------------------------------------------------------
  // Phase 3: the scan itself
  // ---------------------------------------------------------------------

  /** The scan's state after one operand or one instruction. */
  datatype ScanStep = ScanStep(state: SharedAllocation, instruction: Instruction, externalOperands: seq<OperandRef>)

  /** The scan's state after a run of instructions, rewritten in place. */
  datatype Scan = Scan(state: SharedAllocation, instructions: seq<Instruction>, externalOperands: seq<OperandRef>)

  predicate ValidRefs(refs: seq<OperandRef>, n: nat)
  {
    forall i :: 0 <= i < |refs| ==> refs[i].instruction < n && refs[i].slot < 4
  }

  /** One iteration of the operand loop of instruction `k`. */
  function ScanOperand(st: SharedAllocation, ins: Instruction, refs: seq<OperandRef>, k: nat, slot: nat): (r: ScanStep)
    requires WellFormed(st) && slot < 4
    ensures WellFormed(r.state) && r.state.external == st.external
  {
    var o := OperandAt(ins, slot);
    if o.addressMode != Address then ScanStep(st, ins, refs)
    else if o.identifier in st.external then ScanStep(st, ins, refs + [OperandRef(k, slot)])
    else
      var st1 := Touch(st, o.identifier);
      if o.identifier in st1.offsets then
        var moved := WithOperand(ins, slot, o.(offset := o.offset + st1.offsets[o.identifier]));
        ScanStep(st1, moved.(addressSpace := Shared), refs)
      else ScanStep(st1, ins, refs)
  }

  function ScanSlots(st: SharedAllocation, ins: Instruction, refs: seq<OperandRef>, k: nat, slot: nat): (r: ScanStep)
    requires WellFormed(st) && slot <= 4
    ensures WellFormed(r.state) && r.state.external == st.external
    decreases 4 - slot
  {
    if slot == 4 then ScanStep(st, ins, refs)
    else
      var s := ScanOperand(st, ins, refs, k, slot);
      ScanSlots(s.state, s.instruction, s.externalOperands, k, slot + 1)
  }

  function ScanInstruction(st: SharedAllocation, ins: Instruction, refs: seq<OperandRef>, k: nat): (r: ScanStep)
    requires WellFormed(st)
    ensures WellFormed(r.state) && r.state.external == st.external
  {
    if IsMemoryMove(ins.opcode) then ScanSlots(st, ins, refs, k, 0) else ScanStep(st, ins, refs)
  }

  /** The instruction loop from instruction `k` on. */
  function ScanAll(st: SharedAllocation, instrs: seq<Instruction>, refs: seq<OperandRef>, k: nat): (r: Scan)
    requires WellFormed(st) && k <= |instrs|
    ensures WellFormed(r.state) && r.state.external == st.external
    ensures |r.instructions| == |instrs|
    decreases |instrs| - k
  {
    if k == |instrs| then Scan(st, instrs, refs)
    else
      var s := ScanInstruction(st, instrs[k], refs, k);
      ScanAll(s.state, instrs[k := s.instruction], s.externalOperands, k + 1)
  }

  /** The names of the non-extern address operands, in scan order. */
  function SlotNames(external: set<string>, ins: Instruction, slot: nat): seq<string>
    requires slot <= 4
    decreases 4 - slot
  {
    if slot == 4 then []
    else
      var o := OperandAt(ins, slot);
      (if o.addressMode == Address && o.identifier !in external then [o.identifier] else [])
        + SlotNames(external, ins, slot + 1)
  }

  function InstructionNames(external: set<string>, ins: Instruction): seq<string>
  {
    if IsMemoryMove(ins.opcode) then SlotNames(external, ins, 0) else []
  }

  function ReferencedNames(external: set<string>, instrs: seq<Instruction>): seq<string>
  {
    if instrs == [] then [] else InstructionNames(external, instrs[0]) + ReferencedNames(external, instrs[1..])
  }

  /** The extern operands, in scan order. */
  function ExternSlots(external: set<string>, ins: Instruction, k: nat, slot: nat): seq<OperandRef>
    requires slot <= 4
    decreases 4 - slot
  {
    if slot == 4 then []
    else
      var o := OperandAt(ins, slot);
      (if o.addressMode == Address && o.identifier in external then [OperandRef(k, slot)] else [])
        + ExternSlots(external, ins, k, slot + 1)
  }

  function ExternRefs(external: set<string>, instrs: seq<Instruction>, k: nat): seq<OperandRef>
    decreases |instrs|
  {
    if instrs == [] then []
    else
      (if IsMemoryMove(instrs[0].opcode) then ExternSlots(external, instrs[0], k, 0) else [])
        + ExternRefs(external, instrs[1..], k + 1)
  }

  /** Two instructions that agree on every operand's mode and identifier. */
  predicate SameNames(a: Instruction, b: Instruction)
  {
    forall s :: 0 <= s < 4 ==>
      OperandAt(a, s).addressMode == OperandAt(b, s).addressMode
      && OperandAt(a, s).identifier == OperandAt(b, s).identifier
  }

  lemma {:induction false} SlotNamesSame(external: set<string>, a: Instruction, b: Instruction, k: nat, slot: nat)
    requires slot <= 4 && SameNames(a, b)
    ensures SlotNames(external, a, slot) == SlotNames(external, b, slot)
    ensures ExternSlots(external, a, k, slot) == ExternSlots(external, b, k, slot)
    decreases 4 - slot
  {
    if slot < 4 {
      SlotNamesSame(external, a, b, k, slot + 1);
    }
  }

  /** An operand's scan step, case by case: extern operands are recorded
      and left alone (the extern test comes before the map lookup); other
      address operands are touched and then displaced iff their name is
      mapped. */
  lemma ScanOperandShape(st: SharedAllocation, ins: Instruction, refs: seq<OperandRef>, k: nat, slot: nat)
    requires WellFormed(st) && slot < 4
    ensures var s := ScanOperand(st, ins, refs, k, slot);
      var o := OperandAt(ins, slot);
      var ext := st.external;
      && SameNames(s.instruction, ins)
      && s.state == TouchAll(st, if o.addressMode == Address && o.identifier !in ext then [o.identifier] else [])
      && s.externalOperands == refs + (if o.addressMode == Address && o.identifier in ext then [OperandRef(k, slot)] else [])
  {
    var o := OperandAt(ins, slot);
    if o.addressMode == Address && o.identifier !in st.external {
      assert [o.identifier][1..] == [];
    }
  }

  lemma ScanOperandRewrite(st: SharedAllocation, ins: Instruction, refs: seq<OperandRef>, k: nat, slot: nat, later: seq<string>)
    requires WellFormed(st) && slot < 4
    ensures var o := OperandAt(ins, slot);
      var ext := st.external;
      var names := if o.addressMode == Address && o.identifier !in ext then [o.identifier] else [];
      ScanOperand(st, ins, refs, k, slot).instruction
        == RewriteSlot(ins, TouchAll(st, names + later).offsets - ext, Some(Shared), slot)
  {
    var o := OperandAt(ins, slot);
    var ext := st.external;
    if o.addressMode == Address && o.identifier !in ext {
      var st1 := Touch(st, o.identifier);
      assert TouchAll(st, [o.identifier]) == st1 by {
        assert [o.identifier][1..] == [];
      }
      TouchAllAppend(st, [o.identifier], later);
      TouchAllFrame(st1, later);
      var f := TouchAll(st, [o.identifier] + later).offsets;
      assert o.identifier in st1.offsets <==> o.identifier in f;
      if o.identifier in st1.offsets {
        assert f[o.identifier] == st1.offsets[o.identifier];
      }
    } else {
      assert !Hits(o, TouchAll(st, later).offsets - ext);
    }
  }

  /** The operand loop of one instruction:
      - the state it produces is lazy allocation over its non-extern names;
      - the extern operands it records are appended in slot order;
      - the rewrite is the generic operand rewrite of the allocators,
        under the final map with the extern names removed, moving the
        instruction to the shared space. */
  lemma ScanSlotsEffect(st: SharedAllocation, ins: Instruction, refs: seq<OperandRef>, k: nat, slot: nat, later: seq<string>)
    requires WellFormed(st) && slot <= 4
    ensures var s := ScanSlots(st, ins, refs, k, slot);
      var ext := st.external;
      var names := SlotNames(ext, ins, slot);
      && s.state == TouchAll(st, names)
      && s.externalOperands == refs + ExternSlots(ext, ins, k, slot)
      && s.instruction == RewriteFrom(ins, TouchAll(st, names + later).offsets - ext, Some(Shared), slot)
  {
    ScanSlotsState(st, ins, refs, k, slot);
    ScanSlotsRefs(st, ins, refs, k, slot);
    ScanSlotsRewrite(st, ins, refs, k, slot, later);
  }

  lemma {:induction false} ScanSlotsState(st: SharedAllocation, ins: Instruction, refs: seq<OperandRef>, k: nat, slot: nat)
    requires WellFormed(st) && slot <= 4
    ensures ScanSlots(st, ins, refs, k, slot).state == TouchAll(st, SlotNames(st.external, ins, slot))
    decreases 4 - slot
  {
    if slot < 4 {
      var ext := st.external;
      var o := OperandAt(ins, slot);
      var first := if o.addressMode == Address && o.identifier !in ext then [o.identifier] else [];
      var s1 := ScanOperand(st, ins, refs, k, slot);
      var restNames := SlotNames(ext, ins, slot + 1);
      ScanOperandShape(st, ins, refs, k, slot);
      SlotNamesSame(ext, s1.instruction, ins, k, slot + 1);
      ScanSlotsState(s1.state, s1.instruction, s1.externalOperands, k, slot + 1);
      assert SlotNames(ext, ins, slot) == first + restNames;
      TouchAllAppend(st, first, restNames);
    } else {
      assert TouchAll(st, []) == st;
    }
  }

  lemma {:induction false} ScanSlotsRefs(st: SharedAllocation, ins: Instruction, refs: seq<OperandRef>, k: nat, slot: nat)
    requires WellFormed(st) && slot <= 4
    ensures ScanSlots(st, ins, refs, k, slot).externalOperands == refs + ExternSlots(st.external, ins, k, slot)
    decreases 4 - slot
  {
    if slot < 4 {
      var ext := st.external;
      var s1 := ScanOperand(st, ins, refs, k, slot);
      ScanOperandShape(st, ins, refs, k, slot);
      SlotNamesSame(ext, s1.instruction, ins, k, slot + 1);
      ScanSlotsRefs(s1.state, s1.instruction, s1.externalOperands, k, slot + 1);
      ExternSlotsStep(ext, ins, refs, k, slot, s1.externalOperands, ScanSlots(st, ins, refs, k, slot).externalOperands);
    }
  }

  lemma {:induction false} ScanSlotsRewrite(st: SharedAllocation, ins: Instruction, refs: seq<OperandRef>, k: nat, slot: nat, later: seq<string>)
    requires WellFormed(st) && slot <= 4
    ensures ScanSlots(st, ins, refs, k, slot).instruction
      == RewriteFrom(ins, TouchAll(st, SlotNames(st.external, ins, slot) + later).offsets - st.external, Some(Shared), slot)
    decreases 4 - slot
  {
    if slot < 4 {
      var s1 := ScanOperand(st, ins, refs, k, slot);
      var f := TouchAll(st, SlotNames(st.external, ins, slot) + later).offsets - st.external;
      ScanSlotRewriteStep(st, ins, refs, k, slot, later);
      var result := ScanSlots(st, ins, refs, k, slot).instruction;
      assert result == RewriteFrom(s1.instruction, f, Some(Shared), slot + 1) by {
        assert result == ScanSlots(s1.state, s1.instruction, s1.externalOperands, k, slot + 1).instruction;
        ScanSlotsRewrite(s1.state, s1.instruction, s1.externalOperands, k, slot + 1, later);
      }
      RewriteFromStep(ins, f, Some(Shared), slot, s1.instruction, result);
    }
  }

  /** One slot of the scan rewrites that slot as the final map says, and
      leaves the same final map to the slots after it. */
  lemma ScanSlotRewriteStep(st: SharedAllocation, ins: Instruction, refs: seq<OperandRef>, k: nat, slot: nat, later: seq<string>)
    requires WellFormed(st) && slot < 4
    ensures var s1 := ScanOperand(st, ins, refs, k, slot);
      var f := TouchAll(st, SlotNames(st.external, ins, slot) + later).offsets - st.external;
      && s1.instruction == RewriteSlot(ins, f, Some(Shared), slot)
      && TouchAll(s1.state, SlotNames(s1.state.external, s1.instruction, slot + 1) + later).offsets - s1.state.external == f
  {
    var ext := st.external;
    var o := OperandAt(ins, slot);
    var first := if o.addressMode == Address && o.identifier !in ext then [o.identifier] else [];
    var s1 := ScanOperand(st, ins, refs, k, slot);
    var restNames := SlotNames(ext, ins, slot + 1);
    var f := TouchAll(st, first + (restNames + later)).offsets - ext;
    assert SlotNames(ext, ins, slot) + later == first + (restNames + later) by {
      assert SlotNames(ext, ins, slot) == first + restNames;
    }
    assert s1.instruction == RewriteSlot(ins, f, Some(Shared), slot) by {
      ScanOperandRewrite(st, ins, refs, k, slot, restNames + later);
    }
    assert TouchAll(s1.state, restNames + later).offsets - ext == f by {
      ScanOperandShape(st, ins, refs, k, slot);
      TouchAllAppend(st, first, restNames + later);
    }
    assert SlotNames(ext, s1.instruction, slot + 1) == restNames by {
      ScanOperandShape(st, ins, refs, k, slot);
      SlotNamesSame(ext, s1.instruction, ins, k, slot + 1);
    }
  }

  lemma ExternSlotsStep(ext: set<string>, ins: Instruction, refs: seq<OperandRef>, k: nat, slot: nat,
                        refs1: seq<OperandRef>, refs2: seq<OperandRef>)
    requires slot < 4
    requires var o := OperandAt(ins, slot);
      refs1 == refs + (if o.addressMode == Address && o.identifier in ext then [OperandRef(k, slot)] else [])
    requires refs2 == refs1 + ExternSlots(ext, ins, k, slot + 1)
    ensures refs2 == refs + ExternSlots(ext, ins, k, slot)
  {
  }

  lemma ScanInstructionEffect(st: SharedAllocation, ins: Instruction, refs: seq<OperandRef>, k: nat, later: seq<string>)
    requires WellFormed(st)
    ensures var s := ScanInstruction(st, ins, refs, k);
      var ext := st.external;
      var names := InstructionNames(ext, ins);
      && s.state == TouchAll(st, names)
      && s.externalOperands == refs + (if IsMemoryMove(ins.opcode) then ExternSlots(ext, ins, k, 0) else [])
      && s.instruction == Rewrite(ins, TouchAll(st, names + later).offsets - ext, Some(Shared))
  {
    if IsMemoryMove(ins.opcode) {
      ScanSlotsEffect(st, ins, refs, k, 0, later);
    } else {
      assert TouchAll(st, []) == st;
    }
  }

  /** The whole scan from instruction `k`:
      - its state is lazy allocation over the names referenced from `k` on;
      - the extern operands are the extern references from `k` on, in order;
      - every instruction from `k` on gets the generic operand rewrite under
        the final map minus the extern names, and the earlier ones are
        unchanged. */
  lemma ScanAllEffect(st: SharedAllocation, instrs: seq<Instruction>, refs: seq<OperandRef>, k: nat, later: seq<string>)
    requires WellFormed(st) && k <= |instrs|
    ensures var r := ScanAll(st, instrs, refs, k);
      var ext := st.external;
      var names := ReferencedNames(ext, instrs[k..]);
      && r.state == TouchAll(st, names)
      && r.externalOperands == refs + ExternRefs(ext, instrs[k..], k)
      && r.instructions == instrs[..k] + RewriteAll(instrs[k..], TouchAll(st, names + later).offsets - ext, Some(Shared))
  {
    ScanAllState(st, instrs, refs, k);
    ScanAllRefs(st, instrs, refs, k);
    ScanAllRewrite(st, instrs, refs, k, later);
  }

  lemma {:induction false} ScanAllState(st: SharedAllocation, instrs: seq<Instruction>, refs: seq<OperandRef>, k: nat)
    requires WellFormed(st) && k <= |instrs|
    ensures ScanAll(st, instrs, refs, k).state == TouchAll(st, ReferencedNames(st.external, instrs[k..]))
    decreases |instrs| - k
  {
    var ext := st.external;
    if k == |instrs| {
      assert instrs[k..] == [];
      assert TouchAll(st, []) == st;
    } else {
      var ins := instrs[k];
      var s := ScanInstruction(st, ins, refs, k);
      var instrs1 := instrs[k := s.instruction];
      ScanInstructionState(st, ins, refs, k);
      ScanAllState(s.state, instrs1, s.externalOperands, k + 1);
      UpdateSlices(instrs, k, s.instruction);
      ReferencedNamesCons(ext, instrs, k, []);
      TouchAllAppend(st, InstructionNames(ext, ins), ReferencedNames(ext, instrs[k + 1..]));
    }
  }

  lemma {:induction false} ScanAllRefs(st: SharedAllocation, instrs: seq<Instruction>, refs: seq<OperandRef>, k: nat)
    requires WellFormed(st) && k <= |instrs|
    ensures ScanAll(st, instrs, refs, k).externalOperands == refs + ExternRefs(st.external, instrs[k..], k)
    decreases |instrs| - k
  {
    var ext := st.external;
    if k == |instrs| {
      assert instrs[k..] == [];
    } else {
      var ins := instrs[k];
      var s := ScanInstruction(st, ins, refs, k);
      var instrs1 := instrs[k := s.instruction];
      ScanInstructionRefs(st, ins, refs, k);
      ScanAllRefs(s.state, instrs1, s.externalOperands, k + 1);
      UpdateSlices(instrs, k, s.instruction);
      ExternRefsCons(ext, instrs, k);
      var mine := if IsMemoryMove(ins.opcode) then ExternSlots(ext, ins, k, 0) else [];
      var restRefs := ExternRefs(ext, instrs[k + 1..], k + 1);
      assert refs + mine + restRefs == refs + (mine + restRefs);
    }
  }

  lemma {:induction false} ScanAllRewrite(st: SharedAllocation, instrs: seq<Instruction>, refs: seq<OperandRef>, k: nat, later: seq<string>)
    requires WellFormed(st) && k <= |instrs|
    ensures ScanAll(st, instrs, refs, k).instructions == instrs[..k]
      + RewriteAll(instrs[k..], TouchAll(st, ReferencedNames(st.external, instrs[k..]) + later).offsets - st.external, Some(Shared))
    decreases |instrs| - k
  {
    var ext := st.external;
    if k == |instrs| {
      assert instrs[k..] == [];
      assert instrs[..k] == instrs;
    } else {
      var ins := instrs[k];
      var restNames := ReferencedNames(ext, instrs[k + 1..]);
      var s := ScanInstruction(st, ins, refs, k);
      var instrs1 := instrs[k := s.instruction];
      var f := TouchAll(st, ReferencedNames(ext, instrs[k..]) + later).offsets - ext;
      assert TouchAll(s.state, restNames + later).offsets - s.state.external == f by {
        ReferencedNamesCons(ext, instrs, k, later);
        ScanTailMap(st, ins, refs, k, restNames + later);
      }
      assert s.instruction == Rewrite(ins, f, Some(Shared)) by {
        ReferencedNamesCons(ext, instrs, k, later);
        ScanInstructionRewrite(st, ins, refs, k, restNames + later);
      }
      UpdateSlices(instrs, k, s.instruction);
      ScanAllRewrite(s.state, instrs1, s.externalOperands, k + 1, later);
      RewriteStep(instrs, k, s.instruction, f, ScanAll(st, instrs, refs, k).instructions);
    }
  }

  /** Rewriting instruction `k` in place and then the rest is rewriting
      from `k` on. */
  lemma RewriteStep(instrs: seq<Instruction>, k: nat, x: Instruction, f: map<string, nat>, result: seq<Instruction>)
    requires k < |instrs| && x == Rewrite(instrs[k], f, Some(Shared))
    requires result == instrs[k := x][..k + 1] + RewriteAll(instrs[k := x][k + 1..], f, Some(Shared))
    ensures result == instrs[..k] + RewriteAll(instrs[k..], f, Some(Shared))
  {
    var rest := RewriteAll(instrs[k + 1..], f, Some(Shared));
    UpdateSlices(instrs, k, x);
    RewriteAllCons(instrs, k, f, Some(Shared));
    assert result == (instrs[..k] + [x]) + rest;
    AppendAssociates(instrs[..k], [x], rest);
  }

  /** Every operand the scan records lies in the instruction list. */
  lemma {:induction false} ScanAllValid(st: SharedAllocation, instrs: seq<Instruction>, refs: seq<OperandRef>, k: nat)
    requires WellFormed(st) && k <= |instrs| && ValidRefs(refs, |instrs|)
    ensures ValidRefs(ScanAll(st, instrs, refs, k).externalOperands, |instrs|)
    decreases |instrs| - k
  {
    if k < |instrs| {
      var ins := instrs[k];
      var s := ScanInstruction(st, ins, refs, k);
      ScanInstructionValid(st, ins, refs, k, |instrs|);
      ScanAllValid(s.state, instrs[k := s.instruction], s.externalOperands, k + 1);
    }
  }

  lemma ScanInstructionValid(st: SharedAllocation, ins: Instruction, refs: seq<OperandRef>, k: nat, n: nat)
    requires WellFormed(st) && ValidRefs(refs, n) && k < n
    ensures ValidRefs(ScanInstruction(st, ins, refs, k).externalOperands, n)
  {
    ScanInstructionRefs(st, ins, refs, k);
    var mine := if IsMemoryMove(ins.opcode) then ExternSlots(st.external, ins, k, 0) else [];
    ExternSlotsMembers(st.external, ins, k, 0);
    assert forall i :: 0 <= i < |mine| ==> mine[i] in mine;
  }

  /** Slices of a list with instruction `k` replaced. */
  lemma UpdateSlices(instrs: seq<Instruction>, k: nat, x: Instruction)
    requires k < |instrs|
    ensures instrs[k := x][k + 1..] == instrs[k + 1..]
    ensures instrs[k := x][..k + 1] == instrs[..k] + [x]
  {
    assert instrs[k := x][..k + 1] == instrs[..k] + [x];
  }

  lemma ReferencedNamesCons(ext: set<string>, instrs: seq<Instruction>, k: nat, later: seq<string>)
    requires k < |instrs|
    ensures ReferencedNames(ext, instrs[k..]) + later
      == InstructionNames(ext, instrs[k]) + (ReferencedNames(ext, instrs[k + 1..]) + later)
  {
    assert instrs[k..][1..] == instrs[k + 1..];
  }

  lemma ExternRefsCons(ext: set<string>, instrs: seq<Instruction>, k: nat)
    requires k < |instrs|
    ensures ExternRefs(ext, instrs[k..], k)
      == (if IsMemoryMove(instrs[k].opcode) then ExternSlots(ext, instrs[k], k, 0) else []) + ExternRefs(ext, instrs[k + 1..], k + 1)
  {
    assert instrs[k..][1..] == instrs[k + 1..];
  }

  lemma ScanInstructionState(st: SharedAllocation, ins: Instruction, refs: seq<OperandRef>, k: nat)
    requires WellFormed(st)
    ensures ScanInstruction(st, ins, refs, k).state == TouchAll(st, InstructionNames(st.external, ins))
  {
    ScanInstructionEffect(st, ins, refs, k, []);
  }

  lemma ScanInstructionRewrite(st: SharedAllocation, ins: Instruction, refs: seq<OperandRef>, k: nat, later: seq<string>)
    requires WellFormed(st)
    ensures ScanInstruction(st, ins, refs, k).instruction
      == Rewrite(ins, TouchAll(st, InstructionNames(st.external, ins) + later).offsets - st.external, Some(Shared))
  {
    ScanInstructionEffect(st, ins, refs, k, later);
  }

  lemma ScanInstructionRefs(st: SharedAllocation, ins: Instruction, refs: seq<OperandRef>, k: nat)
    requires WellFormed(st)
    ensures ScanInstruction(st, ins, refs, k).externalOperands
      == refs + (if IsMemoryMove(ins.opcode) then ExternSlots(st.external, ins, k, 0) else [])
  {
    ScanInstructionEffect(st, ins, refs, k, []);
  }

  /** After one instruction, the map the rest of the scan ends with is the
      map lazy allocation over the whole remaining list ends with. */
  lemma ScanTailMap(st: SharedAllocation, ins: Instruction, refs: seq<OperandRef>, k: nat, rest: seq<string>)
    requires WellFormed(st)
    ensures var s := ScanInstruction(st, ins, refs, k);
      TouchAll(s.state, rest).offsets - s.state.external
        == TouchAll(st, InstructionNames(st.external, ins) + rest).offsets - st.external
  {
    ScanInstructionEffect(st, ins, refs, k, []);
    TouchAllAppend(st, InstructionNames(st.external, ins), rest);
  }

  lemma RewriteAllCons(instrs: seq<Instruction>, k: nat, m: map<string, nat>, space: Option<AddressSpace>)
    requires k < |instrs|
    ensures RewriteAll(instrs[k..], m, space) == [Rewrite(instrs[k], m, space)] + RewriteAll(instrs[k + 1..], m, space)
  {
  }

  /** The extern operands of one instruction: exactly its address operands
      naming an extern variable; each listed once. */
  lemma {:induction false} ExternSlotsMembers(external: set<string>, ins: Instruction, k: nat, slot: nat)
    requires slot <= 4
    ensures forall r :: r in ExternSlots(external, ins, k, slot) <==>
      r.instruction == k && slot <= r.slot < 4
      && OperandAt(ins, r.slot).addressMode == Address && OperandAt(ins, r.slot).identifier in external
    ensures Distinct(ExternSlots(external, ins, k, slot))
    decreases 4 - slot
  {
    if slot < 4 {
      ExternSlotsMembers(external, ins, k, slot + 1);
    }
  }

  /** Operand `r` of the list starting at instruction `k` is an address
      operand of a mov/ld/st naming an extern variable. */
  predicate IsExternRef(external: set<string>, instrs: seq<Instruction>, k: nat, r: OperandRef)
  {
    && k <= r.instruction < k + |instrs| && r.slot < 4
    && IsMemoryMove(instrs[r.instruction - k].opcode)
    && OperandAt(instrs[r.instruction - k], r.slot).addressMode == Address
    && OperandAt(instrs[r.instruction - k], r.slot).identifier in external
  }

  lemma {:induction false} ExternRefsMember(external: set<string>, instrs: seq<Instruction>, k: nat, r: OperandRef)
    ensures r in ExternRefs(external, instrs, k) <==> IsExternRef(external, instrs, k, r)
    decreases |instrs|
  {
    if instrs != [] {
      ExternRefsMember(external, instrs[1..], k + 1, r);
      ExternSlotsMembers(external, instrs[0], k, 0);
      if r.instruction > k && r.instruction < k + |instrs| {
        assert instrs[1..][r.instruction - (k + 1)] == instrs[r.instruction - k];
      }
    }
  }

  lemma {:induction false} ExternRefsDistinct(external: set<string>, instrs: seq<Instruction>, k: nat)
    ensures Distinct(ExternRefs(external, instrs, k))
    decreases |instrs|
  {
    if instrs != [] {
      ExternRefsDistinct(external, instrs[1..], k + 1);
      var mine := if IsMemoryMove(instrs[0].opcode) then ExternSlots(external, instrs[0], k, 0) else [];
      var rest := ExternRefs(external, instrs[1..], k + 1);
      ExternSlotsMembers(external, instrs[0], k, 0);
      forall j | 0 <= j < |rest|
        ensures rest[j].instruction > k
      {
        ExternRefsMember(external, instrs[1..], k + 1, rest[j]);
      }
      DistinctAppend(mine, rest);
    }
  }

  lemma DistinctAppend<T>(a: seq<T>, b: seq<T>)
    requires Distinct(a) && Distinct(b)
    requires forall i, j :: 0 <= i < |a| && 0 <= j < |b| ==> a[i] != b[j]
    ensures Distinct(a + b)
  {
  }

  /** The extern references, as a set: exactly the address operands of
      mov/ld/st naming an extern variable; each listed once. */
  lemma ExternRefsMembers(external: set<string>, instrs: seq<Instruction>, k: nat)
    ensures forall r :: r in ExternRefs(external, instrs, k) <==> IsExternRef(external, instrs, k, r)
    ensures Distinct(ExternRefs(external, instrs, k))
  {
    forall r {
      ExternRefsMember(external, instrs, k, r);
    }
    ExternRefsDistinct(external, instrs, k);
  }

  // ---------------------------------------------------------------------
  // Phase 4: the extern base
  // ---------------------------------------------------------------------

  /** The loop over `externalOperands`: each is displaced by `amount`. */
  function ApplyExternal(instrs: seq<Instruction>, refs: seq<OperandRef>, amount: nat): (r: seq<Instruction>)
    requires ValidRefs(refs, |instrs|)
    ensures |r| == |instrs|
    decreases |refs|
  {
    if refs == [] then instrs
    else
      var k, s := refs[0].instruction, refs[0].slot;
      var o := OperandAt(instrs[k], s);
      ApplyExternal(instrs[k := WithOperand(instrs[k], s, o.(offset := o.offset + amount))], refs[1..], amount)
  }

  /** With distinct references, every referenced operand's offset grows by
      exactly `amount` and nothing else changes. */
  /** Instruction `after` is `before` with operand `s` displaced by
      `amount` exactly when (k, s) is one of `refs`. */
  predicate DisplacedAt(before: Instruction, after: Instruction, refs: seq<OperandRef>, amount: nat, k: nat, s: nat)
    requires s < 4
  {
    && after.opcode == before.opcode && after.addressSpace == before.addressSpace
    && after.dataType == before.dataType && after.modifier == before.modifier
    && OperandAt(after, s) == (if OperandRef(k, s) in refs
         then OperandAt(before, s).(offset := OperandAt(before, s).offset + amount)
         else OperandAt(before, s))
  }

  lemma ApplyExternalEffect(instrs: seq<Instruction>, refs: seq<OperandRef>, amount: nat)
    requires ValidRefs(refs, |instrs|) && Distinct(refs)
    ensures forall k: nat, s: nat :: k < |instrs| && s < 4 ==>
      DisplacedAt(instrs[k], ApplyExternal(instrs, refs, amount)[k], refs, amount, k, s)
  {
    forall k: nat, s: nat | k < |instrs| && s < 4
      ensures DisplacedAt(instrs[k], ApplyExternal(instrs, refs, amount)[k], refs, amount, k, s)
    {
      ApplyExternalAt(instrs, refs, amount, k, s);
    }
  }

  lemma {:induction false} ApplyExternalAt(instrs: seq<Instruction>, refs: seq<OperandRef>, amount: nat, k: nat, s: nat)
    requires ValidRefs(refs, |instrs|) && Distinct(refs)
    requires k < |instrs| && s < 4
    ensures DisplacedAt(instrs[k], ApplyExternal(instrs, refs, amount)[k], refs, amount, k, s)
    decreases |refs|
  {
    if refs != [] {
      var k0, s0 := refs[0].instruction, refs[0].slot;
      var o := OperandAt(instrs[k0], s0);
      var instrs1 := instrs[k0 := WithOperand(instrs[k0], s0, o.(offset := o.offset + amount))];
      var tail := refs[1..];
      assert ValidRefs(tail, |instrs1|);
      assert Distinct(tail);
      ApplyExternalAt(instrs1, tail, amount, k, s);
      assert refs == [refs[0]] + tail;
      if OperandRef(k, s) == refs[0] {
        assert OperandRef(k, s) !in tail by {
          forall j | 0 <= j < |tail| ensures tail[j] != refs[0] {
            assert tail[j] == refs[j + 1];
          }
        }
      } else if k == k0 {
        assert OperandAt(instrs1[k], s) == OperandAt(instrs[k], s);
      }
    }
  }

  // ---------------------------------------------------------------------
  // The whole allocator
  // ---------------------------------------------------------------------

  /** Phases 1 and 2. */
  function Declarations(globals: seq<Global>, locals: seq<LocalVariable>): (r: SharedAllocation)
    requires GlobalsAlignable(globals) && LocalsAlignable(locals)
    ensures WellFormed(r)
  {
    CollectLocals(CollectGlobals(Initial, globals), locals)
  }

  datatype SharedLayoutResult = SharedLayoutResult(
    sharedSize: nat, externalAlignment: nat, offsets: map<string, nat>, instructions: seq<Instruction>)

  /** _allocateSharedMemory from the declarations to the rewritten code. */
  function AllocateShared(globals: seq<Global>, locals: seq<LocalVariable>, instrs: seq<Instruction>): (r: SharedLayoutResult)
    requires GlobalsAlignable(globals) && LocalsAlignable(locals)
    ensures |r.instructions| == |instrs|
  {
    var scan := ScanAll(Declarations(globals, locals), instrs, [], 0);
    ScanAllValid(Declarations(globals, locals), instrs, [], 0);
    var st := scan.state;
    var size := st.size + Padding(st.size, st.externalAlignment);
    SharedLayoutResult(size, st.externalAlignment, st.offsets, ApplyExternal(scan.instructions, scan.externalOperands, size))
  }

  /** What the allocator places, in order: the shared locals, then the
      global shared variables in order of first reference. */
  function SharedSlots(globals: seq<Global>, locals: seq<LocalVariable>, instrs: seq<Instruction>): (r: seq<Slot>)
    requires GlobalsAlignable(globals) && LocalsAlignable(locals)
    ensures Alignable(r)
  {
    var decl := Declarations(globals, locals);
    var names := ReferencedNames(decl.external, instrs);
    TouchAllPlaces(decl, names);
    LocalSlots(locals) + GlobalSlots(FirstReferences(names, decl.candidates.Keys), decl.candidates)
  }

  /** The layout theorem.
      - The shared size is the placement of the shared locals followed by
        the referenced global shared variables, in first-reference order,
        padded to the extern alignment. That alignment is at least 1 and
        divides the size.
      - The map sends the first occurrence of each placed name to its
        offset.
      - Globals never referenced are not placed. */
  lemma SharedLayout(globals: seq<Global>, locals: seq<LocalVariable>, instrs: seq<Instruction>)
    requires GlobalsAlignable(globals) && LocalsAlignable(locals)
    ensures var p := Place(SharedSlots(globals, locals, instrs), 0);
      var r := AllocateShared(globals, locals, instrs);
      && r.externalAlignment >= 1
      && r.sharedSize == p.end + Padding(p.end, r.externalAlignment)
      && r.sharedSize % r.externalAlignment == 0
      && r.offsets == InsertAll(map[], Names(SharedSlots(globals, locals, instrs)), p.offsets)
  {
    SharedFinalState(globals, locals, instrs);
  }

  /** The state after the scan, against the placement of `SharedSlots`. */
  lemma SharedFinalState(globals: seq<Global>, locals: seq<LocalVariable>, instrs: seq<Instruction>)
    requires GlobalsAlignable(globals) && LocalsAlignable(locals)
    ensures var p := Place(SharedSlots(globals, locals, instrs), 0);
      var st := ScanAll(Declarations(globals, locals), instrs, [], 0).state;
      && st.externalAlignment >= 1
      && st.size == p.end
      && st.offsets == InsertAll(map[], Names(SharedSlots(globals, locals, instrs)), p.offsets)
  {
    var decl := Declarations(globals, locals);
    assert ScanAll(decl, instrs, [], 0).state == TouchAll(decl, ReferencedNames(decl.external, instrs)) by {
      ScanAllState(decl, instrs, [], 0);
      assert instrs[0..] == instrs;
    }
    TouchAllFrame(decl, ReferencedNames(decl.external, instrs));
    TouchedPlacement(globals, locals, instrs);
  }

  /** Lazy allocation over the referenced names, after the declarations,
      is the placement of `SharedSlots`. */
  lemma TouchedPlacement(globals: seq<Global>, locals: seq<LocalVariable>, instrs: seq<Instruction>)
    requires GlobalsAlignable(globals) && LocalsAlignable(locals)
    ensures var p := Place(SharedSlots(globals, locals, instrs), 0);
      var decl := Declarations(globals, locals);
      var st := TouchAll(decl, ReferencedNames(decl.external, instrs));
      && st.size == p.end
      && st.offsets == InsertAll(map[], Names(SharedSlots(globals, locals, instrs)), p.offsets)
  {
    var decl := Declarations(globals, locals);
    var names := ReferencedNames(decl.external, instrs);
    TouchAllPlaces(decl, names);
    var ls := LocalSlots(locals);
    var gs := GlobalSlots(FirstReferences(names, decl.candidates.Keys), decl.candidates);
    assert SharedSlots(globals, locals, instrs) == ls + gs;
    CollectLocalsPlaces(CollectGlobals(Initial, globals), locals);
    SlotsPlacement(ls, gs, decl.size, decl.offsets, TouchAll(decl, names));
  }

  /** Placing `ls` from 0 and then `gs` after it is placing `ls + gs`, and
      inserting both lists of names is inserting their concatenation. */
  lemma SlotsPlacement(ls: seq<Slot>, gs: seq<Slot>, size: nat, offsets: map<string, nat>, st: SharedAllocation)
    requires Alignable(ls) && Alignable(gs)
    requires size == Place(ls, 0).end && offsets == InsertAll(map[], Names(ls), Place(ls, 0).offsets)
    requires st.size == Place(gs, size).end && st.offsets == InsertAll(offsets, Names(gs), Place(gs, size).offsets)
    ensures Alignable(ls + gs)
    ensures st.size == Place(ls + gs, 0).end
    ensures st.offsets == InsertAll(map[], Names(ls + gs), Place(ls + gs, 0).offsets)
  {
    var pl := Place(ls, 0);
    var pg := Place(gs, size);
    assert Alignable(ls + gs) && Place(ls + gs, 0).offsets == pl.offsets + pg.offsets && Place(ls + gs, 0).end == pg.end by {
      PlaceAppend(ls, gs, 0);
    }
    assert Names(ls + gs) == Names(ls) + Names(gs) by {
      NamesAppend(ls, gs);
    }
    InsertAllAppend(map[], Names(ls), Names(gs), pl.offsets, pg.offsets);
  }

  lemma {:induction false} InsertAllAppend<K, V>(m: map<K, V>, a: seq<K>, b: seq<K>, va: seq<V>, vb: seq<V>)
    requires |a| == |va| && |b| == |vb|
    ensures InsertAll(m, a + b, va + vb) == InsertAll(InsertAll(m, a, va), b, vb)
    decreases |a|
  {
    if a == [] {
      assert a + b == b && va + vb == vb;
    } else {
      assert (a + b)[1..] == a[1..] + b && (va + vb)[1..] == va[1..] + vb;
      InsertAllAppend(Insert(m, a[0], va[0]), a[1..], b, va[1..], vb);
    }
  }

  /** The operand theorem. Take the address operands of mov/ld/st.
      - One naming an extern variable ends at its own offset plus the
        final shared size, whatever the map holds for that name.
      - Any other address operand grows by the final offset of its name,
        if that name was placed.
      - Every other operand is unchanged.
      - An instruction moves to the shared space iff one of its non-extern
        operands was mapped. */
  lemma SharedOperands(globals: seq<Global>, locals: seq<LocalVariable>, instrs: seq<Instruction>, k: nat, s: nat)
    requires GlobalsAlignable(globals) && LocalsAlignable(locals)
    requires k < |instrs| && s < 4
    ensures var r := AllocateShared(globals, locals, instrs);
      var ext := Declarations(globals, locals).external;
      var o := OperandAt(instrs[k], s);
      && r.instructions[k].opcode == instrs[k].opcode
      && OperandAt(r.instructions[k], s) ==
           (if IsMemoryMove(instrs[k].opcode) && o.addressMode == Address && o.identifier in ext
            then o.(offset := o.offset + r.sharedSize)
            else if IsMemoryMove(instrs[k].opcode) then Displace(o, r.offsets - ext)
            else o)
      && r.instructions[k].addressSpace ==
           (if IsMemoryMove(instrs[k].opcode) && HitsFrom(instrs[k], r.offsets - ext, 0) then Shared
            else instrs[k].addressSpace)
  {
    var decl := Declarations(globals, locals);
    var scan := ScanAll(decl, instrs, [], 0);
    var r := AllocateShared(globals, locals, instrs);
    var ext := decl.external;
    assert r.offsets == scan.state.offsets;
    assert scan.instructions == RewriteAll(instrs, r.offsets - ext, Some(Shared))
      && scan.externalOperands == ExternRefs(ext, instrs, 0) by {
      SharedScan(globals, locals, instrs);
    }
    assert ValidRefs(scan.externalOperands, |scan.instructions|) by {
      ScanAllValid(decl, instrs, [], 0);
    }
    assert r.instructions == ApplyExternal(scan.instructions, scan.externalOperands, r.sharedSize);
    PatchedOperand(instrs, scan.instructions, scan.externalOperands, r.instructions, decl.external, r.offsets, r.sharedSize, k, s);
  }

  /** The operand theorem for one operand, from the scan's rewrite, its
      extern references and the extern patch. */
  lemma PatchedOperand(instrs: seq<Instruction>, scanned: seq<Instruction>, refs: seq<OperandRef>, patched: seq<Instruction>,
                       ext: set<string>, offsets: map<string, nat>, amount: nat, k: nat, s: nat)
    requires k < |instrs| && s < 4
    requires scanned == RewriteAll(instrs, offsets - ext, Some(Shared))
    requires refs == ExternRefs(ext, instrs, 0) && ValidRefs(refs, |scanned|)
    requires patched == ApplyExternal(scanned, refs, amount)
    ensures var o := OperandAt(instrs[k], s);
      && patched[k].opcode == instrs[k].opcode
      && OperandAt(patched[k], s) ==
           (if IsMemoryMove(instrs[k].opcode) && o.addressMode == Address && o.identifier in ext
            then o.(offset := o.offset + amount)
            else if IsMemoryMove(instrs[k].opcode) then Displace(o, offsets - ext)
            else o)
      && patched[k].addressSpace ==
           (if IsMemoryMove(instrs[k].opcode) && HitsFrom(instrs[k], offsets - ext, 0) then Shared
            else instrs[k].addressSpace)
  {
    ExternRefsMember(ext, instrs, 0, OperandRef(k, s));
    ExternRefsDistinct(ext, instrs, 0);
    ApplyExternalAt(scanned, refs, amount, k, s);
    OperandOutcome(instrs[k], scanned[k], patched[k], ext, offsets, refs, amount, k, s);
  }

  /** The instructions and the extern operands after the scan. */
  lemma SharedScan(globals: seq<Global>, locals: seq<LocalVariable>, instrs: seq<Instruction>)
    requires GlobalsAlignable(globals) && LocalsAlignable(locals)
    ensures var decl := Declarations(globals, locals);
      var scan := ScanAll(decl, instrs, [], 0);
      && scan.instructions == RewriteAll(instrs, scan.state.offsets - decl.external, Some(Shared))
      && scan.externalOperands == ExternRefs(decl.external, instrs, 0)
  {
    var decl := Declarations(globals, locals);
    ScanAllEffect(decl, instrs, [], 0, []);
    assert instrs[0..] == instrs && instrs[..0] == [];
    var names := ReferencedNames(decl.external, instrs);
    assert names + [] == names;
  }

  /** One operand through the scan rewrite and the extern patch. */
  lemma OperandOutcome(ins: Instruction, rewritten: Instruction, final: Instruction, ext: set<string>,
                       offsets: map<string, nat>, refs: seq<OperandRef>, amount: nat, k: nat, s: nat)
    requires s < 4
    requires rewritten == Rewrite(ins, offsets - ext, Some(Shared))
    requires DisplacedAt(rewritten, final, refs, amount, k, s)
    requires OperandRef(k, s) in refs <==>
      (IsMemoryMove(ins.opcode) && OperandAt(ins, s).addressMode == Address && OperandAt(ins, s).identifier in ext)
    ensures var o := OperandAt(ins, s);
      && final.opcode == ins.opcode
      && OperandAt(final, s) ==
           (if IsMemoryMove(ins.opcode) && o.addressMode == Address && o.identifier in ext
            then o.(offset := o.offset + amount)
            else if IsMemoryMove(ins.opcode) then Displace(o, offsets - ext)
            else o)
      && final.addressSpace ==
           (if IsMemoryMove(ins.opcode) && HitsFrom(ins, offsets - ext, 0) then Shared else ins.addressSpace)
  {
    RewriteEffect(ins, offsets - ext, Some(Shared));
    var o := OperandAt(ins, s);
    if IsMemoryMove(ins.opcode) && o.addressMode == Address && o.identifier in ext {
      assert !Hits(o, offsets - ext);
    }
  }
}
