/** LLVMExecutableKernel: the memory allocators that lay out a kernel's
    parameter, shared, local and constant spaces and number its textures,
    the CTA shape, and the two CTA launch loops. Buffers are modelled by
    their sizes and base addresses; the resume words of the barrier launch
    live in a word map keyed by address. */
module ExecutableKernel {
  import opened Util
  import opened PtxIR
  import opened MemoryLayout
  import opened SharedLayout
  import opened KernelLayout
  import opened ThreadGrid

  /** The operand loop one allocator runs over one instruction: every
      address operand of a mov, ld or st whose identifier is mapped is
      displaced by its offset and, when the allocator names a space, moves
      the instruction to it. */
  method RewriteInstruction(ins: Instruction, m: map<string, nat>, space: Option<AddressSpace>) returns (r: Instruction)
    ensures r == Rewrite(ins, m, space)
  {
    r := ins;
    if ins.opcode == Mov || ins.opcode == Ld || ins.opcode == St {
      var i: nat := 0;
      while i != 4
        invariant i <= 4
        invariant RewriteFrom(r, m, space, i) == RewriteFrom(ins, m, space, 0)
      {
        r := RewriteOperand(r, m, space, i);
        i := i + 1;
      }
    }
  }

  /** One operand of the loop: a mapped address is displaced by its
      offset and, when the allocator names a space, the instruction moves
      to it. */
  method RewriteOperand(ins: Instruction, m: map<string, nat>, space: Option<AddressSpace>, i: nat) returns (r: Instruction)
    requires i < 4
    ensures r == RewriteSlot(ins, m, space, i)
  {
    r := ins;
    var o := OperandAt(ins, i);
    if o.addressMode == Address && o.identifier in m {
      r := WithOperand(ins, i, o.(offset := o.offset + m[o.identifier]));
      if space.Some? {
        r := r.(addressSpace := space.value);
      }
    }
  }

  /** The declaration loop of `_allocateParameterMemory`: pad, record the
      offset in the parameter, grow the size, insert into the map. */
  method PlaceParameters(ps: seq<Parameter>) returns (placed: seq<Parameter>, size: nat, m: map<string, nat>)
    requires ParametersAlignable(ps)
    ensures var slots := ParameterSlots(ps); var p := Place(slots, 0);
      && size == p.end
      && placed == WithOffsets(ps, p.offsets)
      && m == OffsetMap(slots, 0, map[])
  {
    ghost var slots := ParameterSlots(ps);
    ghost var p := Place(slots, 0);
    ghost var final := OffsetMap(slots, 0, map[]);
    size := 0;
    placed := ps;
    m := map[];
    var i := 0;
    assert slots[0..] == slots && p.offsets[0..] == p.offsets;
    while i < |placed|
      invariant i <= |placed| == |ps|
      invariant forall j :: 0 <= j < i ==> placed[j] == ps[j].(offset := p.offsets[j])
      invariant forall j :: i <= j < |ps| ==> placed[j] == ps[j]
      invariant Place(slots[i..], size) == Placement(p.offsets[i..], p.end)
      invariant OffsetMap(slots[i..], size, m) == final
    {
      var parameter := placed[i];
      var padded, _ := LLVMExecutableKernel.Pad(size, parameter.alignment);
      ghost var size0, m0 := size, m;
      size := padded;
      placed := placed[i := parameter.(offset := size)];
      size := size + parameter.size;
      if parameter.name !in m {
        m := m[parameter.name := padded];
      }
      PlaceSuffixStep(slots, i, size0, m0, p, final, padded, size, m);
      i := i + 1;
    }
    PlaceSuffixDone(slots, size, m);
  }

  /** The declaration loop of `_allocateLocalMemory`: only variables of
      the local space are placed. */
  method PlaceLocals(locals: seq<LocalVariable>) returns (size: nat, m: map<string, nat>)
    requires LocalLocalsAlignable(locals)
    ensures size == Place(LocalLocalSlots(locals), 0).end && m == LocalOffsets(locals)
  {
    ghost var final := LocalOffsets(locals);
    ghost var end := Place(LocalLocalSlots(locals), 0).end;
    m := map[];
    size := 0;
    var i := 0;
    assert locals[0..] == locals;
    while i < |locals|
      invariant i <= |locals|
      invariant LocalLocalsAlignable(locals[i..])
      invariant OffsetMap(LocalLocalSlots(locals[i..]), size, m) == final
      invariant Place(LocalLocalSlots(locals[i..]), size).end == end
    {
      var l := locals[i];
      ghost var size0, m0 := size, m;
      if l.space == Local {
        var padded, _ := LLVMExecutableKernel.Pad(size, l.alignment);
        if l.name !in m {
          m := m[l.name := padded];
        }
        size := padded + l.size;
      }
      PlaceLocalStep(locals, i, size0, m0, final, end, size, m);
      i := i + 1;
    }
    assert LocalLocalSlots(locals[i..]) == [];
  }

  lemma PlaceLocalStep(locals: seq<LocalVariable>, i: nat, size: nat, m: map<string, nat>,
                       final: map<string, nat>, end: nat, size1: nat, m1: map<string, nat>)
    requires i < |locals| && LocalLocalsAlignable(locals[i..])
    requires OffsetMap(LocalLocalSlots(locals[i..]), size, m) == final
    requires Place(LocalLocalSlots(locals[i..]), size).end == end
    requires var l := locals[i];
      l.space == Local ==>
        (l.alignment > 0 &&
         var padded := size + Padding(size, l.alignment);
         size1 == padded + l.size && m1 == Insert(m, l.name, padded))
    requires locals[i].space != Local ==> size1 == size && m1 == m
    ensures LocalLocalsAlignable(locals[i + 1..])
    ensures OffsetMap(LocalLocalSlots(locals[i + 1..]), size1, m1) == final
    ensures Place(LocalLocalSlots(locals[i + 1..]), size1).end == end
  {
    LocalLocalSlotsStep(locals, i);
    var l := locals[i];
    var rest := LocalLocalSlots(locals[i + 1..]);
    if l.space == Local {
      OffsetMapCons(Slot(l.name, l.size, l.alignment), rest, size, m);
    } else {
      assert [] + rest == rest;
    }
  }

  /** The declaration loop of `_allocateConstantMemory`: only globals of
      the const directive are placed. */
  method PlaceConstants(globals: seq<Global>) returns (size: nat, m: map<string, nat>)
    requires ConstantsAlignable(globals)
    ensures size == Place(ConstantSlots(globals), 0).end && m == ConstantOffsets(globals)
  {
    ghost var final := ConstantOffsets(globals);
    ghost var end := Place(ConstantSlots(globals), 0).end;
    m := map[];
    size := 0;
    var i := 0;
    assert globals[0..] == globals;
    while i < |globals|
      invariant i <= |globals|
      invariant ConstantsAlignable(globals[i..])
      invariant OffsetMap(ConstantSlots(globals[i..]), size, m) == final
      invariant Place(ConstantSlots(globals[i..]), size).end == end
    {
      var g := globals[i];
      ghost var size0, m0 := size, m;
      if g.directive == ConstDirective {
        var padded, _ := LLVMExecutableKernel.Pad(size, g.alignment);
        if g.name !in m {
          m := m[g.name := padded];
        }
        size := padded + g.bytes;
      }
      PlaceConstantStep(globals, i, size0, m0, final, end, size, m);
      i := i + 1;
    }
    assert ConstantSlots(globals[i..]) == [];
  }

  lemma PlaceConstantStep(globals: seq<Global>, i: nat, size: nat, m: map<string, nat>,
                          final: map<string, nat>, end: nat, size1: nat, m1: map<string, nat>)
    requires i < |globals| && ConstantsAlignable(globals[i..])
    requires OffsetMap(ConstantSlots(globals[i..]), size, m) == final
    requires Place(ConstantSlots(globals[i..]), size).end == end
    requires var g := globals[i];
      g.directive == ConstDirective ==>
        (g.alignment > 0 &&
         var padded := size + Padding(size, g.alignment);
         size1 == padded + g.bytes && m1 == Insert(m, g.name, padded))
    requires globals[i].directive != ConstDirective ==> size1 == size && m1 == m
    ensures ConstantsAlignable(globals[i + 1..])
    ensures OffsetMap(ConstantSlots(globals[i + 1..]), size1, m1) == final
    ensures Place(ConstantSlots(globals[i + 1..]), size1).end == end
  {
    ConstantSlotsStep(globals, i);
    var g := globals[i];
    var rest := ConstantSlots(globals[i + 1..]);
    if g.directive == ConstDirective {
      OffsetMapCons(Slot(g.name, g.bytes, g.alignment), rest, size, m);
    } else {
      assert [] + rest == rest;
    }
  }

  /** The state of `_allocateTextureMemory` after `k` instructions: the
      map holds the textures seen so far, each at its position in the order
      of first reference, and the table lists them in that order. */
  ghost predicate TexturesNumbered(instrs: seq<Instruction>, k: nat, textures: map<string, ModuleTexture>,
                                   m: map<string, nat>, table: seq<ModuleTexture>)
    requires k <= |instrs|
  {
    var seen := TextureOrder(instrs[..k]);
    && (forall x :: x in m <==> x in seen)
    && (forall x :: x in m ==> m[x] == IndexOf(seen, x))
    && |table| == |seen|
    && (forall i :: 0 <= i < |seen| ==> seen[i] in textures && table[i] == textures[seen[i]])
  }

  /** The instruction loop of `_allocateTextureMemory`. */
  method NumberTextures(instrs: seq<Instruction>, textures: map<string, ModuleTexture>)
    returns (r: seq<Instruction>, table: seq<ModuleTexture>)
    requires TexturesDeclared(instrs, textures)
    ensures var order := TextureOrder(instrs);
      && |table| == |order|
      && (forall i :: 0 <= i < |order| ==> order[i] in textures && table[i] == textures[order[i]])
      && r == AssignTextures(instrs, order)
  {
    ghost var order := TextureOrder(instrs);
    r := instrs;
    table := [];
    var m: map<string, nat> := map[];
    var index: nat := 0;
    var k := 0;
    assert instrs[..0] == [];
    while k < |instrs|
      invariant k <= |instrs| == |r|
      invariant index == |table|
      invariant TexturesNumbered(instrs, k, textures, m, table)
      invariant forall j :: 0 <= j < k ==> r[j] == AssignTexture(instrs[j], order)
      invariant forall j :: k <= j < |instrs| ==> r[j] == instrs[j]
    {
      var ins;
      ins, m, table, index := NumberTexture(instrs, k, textures, r[k], m, table, index);
      r := r[k := ins];
      k := k + 1;
    }
    assert instrs[..k] == instrs;
  }

  /** One instruction of the texture loop: a tex instruction whose texture
      is met for the first time gives it the next index and appends it to
      the table; every tex instruction's texture operand gets its index. */
  method NumberTexture(instrs: seq<Instruction>, k: nat, textures: map<string, ModuleTexture>,
                       ins: Instruction, m: map<string, nat>, table: seq<ModuleTexture>, index: nat)
    returns (ins1: Instruction, m1: map<string, nat>, table1: seq<ModuleTexture>, index1: nat)
    requires k < |instrs| && ins == instrs[k] && TexturesDeclared(instrs, textures)
    requires TexturesNumbered(instrs, k, textures, m, table) && index == |table|
    ensures TexturesNumbered(instrs, k + 1, textures, m1, table1) && index1 == |table1|
    ensures ins1 == AssignTexture(instrs[k], TextureOrder(instrs))
  {
    ins1, m1, table1, index1 := ins, m, table, index;
    if ins.opcode == Tex {
      var name := ins.a.identifier;
      if name !in m {
        m1 := m[name := index];
        index1 := index + 1;
        table1 := table + [textures[name]];
      }
    }
    NumberTexturesStep(instrs, k, textures, m, table, m1, table1);
    if ins.opcode == Tex {
      ins1 := ins.(a := ins.a.(reg := m1[ins.a.identifier]));
    }
  }

  lemma NumberTexturesStep(instrs: seq<Instruction>, k: nat, textures: map<string, ModuleTexture>,
                           m: map<string, nat>, table: seq<ModuleTexture>, m1: map<string, nat>, table1: seq<ModuleTexture>)
    requires k < |instrs| && TexturesDeclared(instrs, textures)
    requires TexturesNumbered(instrs, k, textures, m, table)
    requires var ins := instrs[k]; var name := ins.a.identifier;
      if ins.opcode == Tex && name !in m then m1 == m[name := |table|] && table1 == table + [textures[name]]
      else m1 == m && table1 == table
    ensures TexturesNumbered(instrs, k + 1, textures, m1, table1)
    ensures instrs[k].opcode == Tex ==>
      instrs[k].a.identifier in m1 && m1[instrs[k].a.identifier] == TextureIndex(TextureOrder(instrs), instrs[k].a.identifier)
  {
    var seen := TextureOrder(instrs[..k]);
    TextureNamesStep(instrs, k);
    TextureOrderPrefix(instrs, k + 1);
    var ins := instrs[k];
    if ins.opcode == Tex {
      var name := ins.a.identifier;
      DedupPrefix(TextureNames(instrs[..k]), name);
      if name !in m {
        TextureIndexAppended(seen, name, m1, TextureOrder(instrs));
      }
      TextureIndexFinal(TextureOrder(instrs[..k + 1]), TextureOrder(instrs), name);
    } else {
      assert TextureNames(instrs[..k + 1]) == TextureNames(instrs[..k]);
    }
  }

  /** The four phases of `_allocateSharedMemory` in order. */
  method LayOutShared(globals: seq<Global>, locals: seq<LocalVariable>, instrs: seq<Instruction>)
    returns (size: nat, r: seq<Instruction>)
    requires GlobalsAlignable(globals) && LocalsAlignable(locals)
    requires Distinct(ExternGlobalNames(globals) + ExternLocalNames(locals))
    ensures var result := AllocateShared(globals, locals, instrs);
      size == result.sharedSize && r == result.instructions
  {
    DistinctSplit(ExternGlobalNames(globals), ExternLocalNames(locals));
    var st := CollectSharedGlobals(Initial, globals);
    ExternAlignmentCoversGlobals(Initial, globals);
    st := CollectSharedLocals(st, locals);
    var scanned, refs;
    st, scanned, refs := ScanInstructions(st, instrs);
    var padded, _ := LLVMExecutableKernel.Pad(st.size, st.externalAlignment);
    size := padded;
    r := MapExternalOperands(scanned, refs, padded);
  }

  /** The globals loop of `_allocateSharedMemory`. The C++ asserts that no
      extern name is met twice: none of those still to come is already in
      the extern set, and they are distinct. */
  method CollectSharedGlobals(st0: SharedAllocation, globals: seq<Global>) returns (st: SharedAllocation)
    requires WellFormed(st0) && GlobalsAlignable(globals)
    requires Distinct(ExternGlobalNames(globals))
    requires forall x :: x in ExternGlobalNames(globals) ==> x !in st0.external
    ensures st == CollectGlobals(st0, globals)
  {
    ghost var final := CollectGlobals(st0, globals);
    st := st0;
    var i := 0;
    assert globals[0..] == globals;
    while i < |globals|
      invariant i <= |globals|
      invariant WellFormed(st) && GlobalsAlignable(globals[i..])
      invariant CollectGlobals(st, globals[i..]) == final
      invariant Distinct(ExternGlobalNames(globals[i..]))
      invariant forall x :: x in ExternGlobalNames(globals[i..]) ==> x !in st.external
    {
      var g := globals[i];
      CollectGlobalStep(st, globals, i);
      if g.directive == SharedDirective {
        if g.attribute == Extern {
          assert g.name !in st.external;
          st := st.(external := st.external + {g.name},
                    externalAlignment := Max(Max(st.externalAlignment, g.alignment), Bytes(g.dataType)));
        } else if g.name !in st.candidates {
          st := st.(candidates := st.candidates[g.name := g]);
        }
      }
      i := i + 1;
    }
  }

  lemma CollectGlobalStep(st: SharedAllocation, globals: seq<Global>, i: nat)
    requires i < |globals| && WellFormed(st) && GlobalsAlignable(globals[i..])
    requires Distinct(ExternGlobalNames(globals[i..]))
    requires forall x :: x in ExternGlobalNames(globals[i..]) ==> x !in st.external
    ensures IsExternGlobal(globals[i]) ==> globals[i].name !in st.external
    ensures var st1 := CollectGlobal(st, globals[i]);
      && WellFormed(st1) && GlobalsAlignable(globals[i + 1..])
      && CollectGlobals(st, globals[i..]) == CollectGlobals(st1, globals[i + 1..])
      && Distinct(ExternGlobalNames(globals[i + 1..]))
      && (forall x :: x in ExternGlobalNames(globals[i + 1..]) ==> x !in st1.external)
  {
    ExternGlobalStep(globals, i);
    assert globals[i..][0] == globals[i];
    var head := if IsExternGlobal(globals[i]) then [globals[i].name] else [];
    DistinctSplit(head, ExternGlobalNames(globals[i + 1..]));
  }

  /** The locals loop of `_allocateSharedMemory`: extern locals as extern
      globals, the others placed at once. */
  method CollectSharedLocals(st0: SharedAllocation, locals: seq<LocalVariable>) returns (st: SharedAllocation)
    requires WellFormed(st0) && LocalsAlignable(locals)
    requires Distinct(ExternLocalNames(locals))
    requires forall x :: x in ExternLocalNames(locals) ==> x !in st0.external
    ensures st == CollectLocals(st0, locals)
  {
    ghost var final := CollectLocals(st0, locals);
    st := st0;
    var i := 0;
    assert locals[0..] == locals;
    while i < |locals|
      invariant i <= |locals|
      invariant WellFormed(st) && LocalsAlignable(locals[i..])
      invariant CollectLocals(st, locals[i..]) == final
      invariant Distinct(ExternLocalNames(locals[i..]))
      invariant forall x :: x in ExternLocalNames(locals[i..]) ==> x !in st.external
    {
      CollectLocalStep(st, locals, i);
      st := CollectSharedLocal(st, locals[i]);
      i := i + 1;
    }
  }

  /** One local of that loop. */
  method CollectSharedLocal(st: SharedAllocation, l: LocalVariable) returns (st1: SharedAllocation)
    requires IsSharedLocal(l) ==> l.alignment > 0
    ensures st1 == CollectLocal(st, l)
  {
    st1 := st;
    if l.space == Shared {
      if l.attribute == Extern {
        st1 := st1.(external := st1.external + {l.name},
                    externalAlignment := Max(Max(st1.externalAlignment, l.alignment), Bytes(l.dataType)));
      } else {
        var padded, _ := LLVMExecutableKernel.Pad(st1.size, l.alignment);
        if l.name !in st1.offsets {
          st1 := st1.(offsets := st1.offsets[l.name := padded]);
        }
        st1 := st1.(size := padded + l.size);
      }
    }
  }

  lemma CollectLocalStep(st: SharedAllocation, locals: seq<LocalVariable>, i: nat)
    requires i < |locals| && WellFormed(st) && LocalsAlignable(locals[i..])
    requires Distinct(ExternLocalNames(locals[i..]))
    requires forall x :: x in ExternLocalNames(locals[i..]) ==> x !in st.external
    ensures IsExternLocal(locals[i]) ==> locals[i].name !in st.external
    ensures IsSharedLocal(locals[i]) ==> locals[i].alignment > 0
    ensures var st1 := CollectLocal(st, locals[i]);
      && WellFormed(st1) && LocalsAlignable(locals[i + 1..])
      && CollectLocals(st, locals[i..]) == CollectLocals(st1, locals[i + 1..])
      && Distinct(ExternLocalNames(locals[i + 1..]))
      && (forall x :: x in ExternLocalNames(locals[i + 1..]) ==> x !in st1.external)
  {
    ExternLocalStep(locals, i);
    assert locals[i..][0] == locals[i];
    var head := if IsExternLocal(locals[i]) then [locals[i].name] else [];
    DistinctSplit(head, ExternLocalNames(locals[i + 1..]));
  }

  /** One operand of the scan: an extern address is recorded and skipped; a
      candidate global is placed at its first reference; a mapped address
      is displaced and its instruction moves to the shared space. */
  method ScanAddressOperand(st: SharedAllocation, ins: Instruction, refs: seq<OperandRef>, k: nat, slot: nat)
    returns (st1: SharedAllocation, ins1: Instruction, refs1: seq<OperandRef>)
    requires WellFormed(st) && slot < 4
    ensures ScanStep(st1, ins1, refs1) == ScanOperand(st, ins, refs, k, slot)
  {
    st1, ins1, refs1 := st, ins, refs;
    var o := OperandAt(ins, slot);
    if o.addressMode == Address {
      if o.identifier in st.external {
        refs1 := refs + [OperandRef(k, slot)];
      } else {
        if o.identifier in st.candidates {
          var g := st.candidates[o.identifier];
          var padded, _ := LLVMExecutableKernel.Pad(st.size, g.alignment);
          st1 := st1.(candidates := st.candidates - {o.identifier});
          if g.name !in st.offsets {
            st1 := st1.(offsets := st.offsets[g.name := padded]);
          }
          st1 := st1.(size := padded + g.bytes);
        }
        if o.identifier in st1.offsets {
          ins1 := WithOperand(ins, slot, o.(offset := o.offset + st1.offsets[o.identifier])).(addressSpace := Shared);
        }
      }
    }
  }

  /** The operand loop of one mov, ld or st. */
  method ScanOperands(st: SharedAllocation, ins: Instruction, refs: seq<OperandRef>, k: nat)
    returns (st1: SharedAllocation, ins1: Instruction, refs1: seq<OperandRef>)
    requires WellFormed(st)
    ensures ScanStep(st1, ins1, refs1) == ScanSlots(st, ins, refs, k, 0)
  {
    ghost var final := ScanSlots(st, ins, refs, k, 0);
    st1, ins1, refs1 := st, ins, refs;
    var slot: nat := 0;
    while slot != 4
      invariant slot <= 4 && WellFormed(st1)
      invariant ScanSlots(st1, ins1, refs1, k, slot) == final
    {
      st1, ins1, refs1 := ScanAddressOperand(st1, ins1, refs1, k, slot);
      slot := slot + 1;
    }
  }

  /** The instruction loop of `_allocateSharedMemory`. */
  method ScanInstructions(st0: SharedAllocation, instrs: seq<Instruction>)
    returns (st: SharedAllocation, r: seq<Instruction>, refs: seq<OperandRef>)
    requires WellFormed(st0)
    ensures Scan(st, r, refs) == ScanAll(st0, instrs, [], 0)
    ensures WellFormed(st) && ValidRefs(refs, |r|) && |r| == |instrs|
  {
    ghost var final := ScanAll(st0, instrs, [], 0);
    st, r, refs := st0, instrs, [];
    var k := 0;
    while k < |r|
      invariant k <= |r| == |instrs| && WellFormed(st)
      invariant ScanAll(st, r, refs, k) == final
    {
      var ins := r[k];
      if ins.opcode == Mov || ins.opcode == Ld || ins.opcode == St {
        st, ins, refs := ScanOperands(st, ins, refs, k);
      }
      r := r[k := ins];
      k := k + 1;
    }
    ScanAllValid(st0, instrs, [], 0);
  }

  /** The loop over `externalOperands`: every recorded operand is displaced
      by the padded shared size. */
  method MapExternalOperands(instrs: seq<Instruction>, refs: seq<OperandRef>, amount: nat) returns (r: seq<Instruction>)
    requires ValidRefs(refs, |instrs|)
    ensures r == ApplyExternal(instrs, refs, amount)
  {
    r := instrs;
    var e := 0;
    assert refs[0..] == refs;
    while e < |refs|
      invariant e <= |refs| && |r| == |instrs|
      invariant ValidRefs(refs[e..], |r|)
      invariant ApplyExternal(r, refs[e..], amount) == ApplyExternal(instrs, refs, amount)
    {
      var ref := refs[e];
      var o := OperandAt(r[ref.instruction], ref.slot);
      r := r[ref.instruction := WithOperand(r[ref.instruction], ref.slot, o.(offset := o.offset + amount))];
      assert refs[e..][1..] == refs[e + 1..];
      e := e + 1;
    }
  }

  class LLVMExecutableKernel {
    // The PTX kernel and its module.
    var parameters: seq<Parameter>
    var locals: seq<LocalVariable>
    var instructions: seq<Instruction>
    var globals: seq<Global>
    var moduleTextures: map<string, ModuleTexture>
    var barrierSupport: bool
    var resumePoint: string

    // The translated kernel's context and the allocators' results.
    var parameterSize: nat
    var sharedSize: nat
    var localSize: nat
    var constantSize: nat
    var externalSharedSize: nat
    var constants: map<string, nat>
    var textures: seq<ModuleTexture>
    var resumePointOffset: nat
    var ntid: Dim3
    var tid: Dim3
    /** `_context.local`: the base address of the local buffer, 0 when none. */
    var local: nat
    /** The 32-bit words stored in local memory, by address. */
    var localWords: map<nat, u32>
    // The sizes of the buffers allocated with new[].
    var parameterBuffer: nat
    var sharedBuffer: nat
    var localBuffer: nat
    var constantBuffer: nat

    /** A kernel with no memory allocated and an empty CTA shape. */
    constructor(parameters: seq<Parameter>, locals: seq<LocalVariable>, instructions: seq<Instruction>,
                globals: seq<Global>, moduleTextures: map<string, ModuleTexture>,
                barrierSupport: bool, resumePoint: string)
      ensures this.parameters == parameters && this.locals == locals && this.instructions == instructions
      ensures this.globals == globals && this.moduleTextures == moduleTextures
      ensures this.barrierSupport == barrierSupport && this.resumePoint == resumePoint
      ensures parameterSize == 0 && sharedSize == 0 && localSize == 0 && constantSize == 0
      ensures externalSharedSize == 0 && constants == map[] && textures == [] && resumePointOffset == 0
      ensures ntid == Dim3(0, 0, 0) && tid == Dim3(0, 0, 0) && local == 0 && localWords == map[]
      ensures parameterBuffer == 0 && sharedBuffer == 0 && localBuffer == 0 && constantBuffer == 0
    {
      this.parameters := parameters;
      this.locals := locals;
      this.instructions := instructions;
      this.globals := globals;
      this.moduleTextures := moduleTextures;
      this.barrierSupport := barrierSupport;
      this.resumePoint := resumePoint;
      parameterSize, sharedSize, localSize, constantSize := 0, 0, 0, 0;
      externalSharedSize := 0;
      constants := map[];
      textures := [];
      resumePointOffset := 0;
      ntid := Dim3(0, 0, 0);
      tid := Dim3(0, 0, 0);
      local := 0;
      localWords := map[];
      parameterBuffer, sharedBuffer, localBuffer, constantBuffer := 0, 0, 0, 0;
    }

    /** `_pad`: rounds `size` up to a multiple of `alignment` and returns the
        padding added, which is below the alignment and 0 exactly when the
        size was already aligned. */
    static method Pad(size: nat, alignment: nat) returns (padded: nat, padding: nat)
      requires alignment > 0
      ensures padding == Padding(size, alignment) && padded == size + padding
      ensures padded % alignment == 0 && padding < alignment
      ensures padding == 0 <==> size % alignment == 0
    {
      padding := alignment - size % alignment;
      if padding == alignment {
        padding := 0;
      }
      padded := size + padding;
    }

    /** `threads()` */
    function Threads(): nat
      reads this
    {
      ThreadCount(ntid)
    }

    /** `threadId()` */
    function ThreadId(): nat
      reads this
    {
      LinearThreadId(ntid, tid)
    }

    /** The instruction loop shared by the parameter, local and constant
        allocators. */
    method RewriteOperands(m: map<string, nat>, space: Option<AddressSpace>)
      modifies this`instructions
      ensures instructions == RewriteAll(old(instructions), m, space)
    {
      var k := 0;
      while k < |instructions|
        invariant k <= |instructions| == |old(instructions)|
        invariant forall j :: 0 <= j < k ==> instructions[j] == Rewrite(old(instructions)[j], m, space)
        invariant forall j :: k <= j < |instructions| ==> instructions[j] == old(instructions)[j]
      {
        var ins := RewriteInstruction(instructions[k], m, space);
        instructions := instructions[k := ins];
        k := k + 1;
      }
    }

    /** `_allocateParameterMemory`: the parameters are placed in declaration
        order, each offset written back, and the parameter operands
        displaced (their instruction's space is left alone). */
    method AllocateParameterMemory()
      requires ParametersAlignable(parameters)
      modifies this`parameterSize, this`parameters, this`instructions, this`parameterBuffer
      ensures var slots := ParameterSlots(old(parameters)); var p := Place(slots, 0);
        && parameterSize == p.end
        && parameters == WithOffsets(old(parameters), p.offsets)
        && instructions == RewriteAll(old(instructions), OffsetMap(slots, 0, map[]), None)
        && parameterBuffer == p.end
    {
      var placed, size, m := PlaceParameters(parameters);
      parameterSize := size;
      parameters := placed;
      parameterBuffer := size;
      RewriteOperands(m, None);
    }

    /** `_allocateSharedMemory`, step by step as the specification
        `AllocateShared` describes it. The C++ asserts that no extern name
        is seen twice; here that is the caller's obligation. */
    method AllocateSharedMemory()
      requires GlobalsAlignable(globals) && LocalsAlignable(locals)
      requires Distinct(ExternGlobalNames(globals) + ExternLocalNames(locals))
      modifies this`sharedSize, this`instructions, this`sharedBuffer
      ensures var r := AllocateShared(globals, locals, old(instructions));
        && sharedSize == r.sharedSize && instructions == r.instructions
        && sharedBuffer == sharedSize + externalSharedSize
    {
      var size, rewritten := LayOutShared(globals, locals, instructions);
      sharedSize := size;
      instructions := rewritten;
      sharedBuffer := sharedSize + externalSharedSize;
    }

    /** `_allocateLocalMemory`: every local-space variable gets an offset in
        the per-thread frame, the local operands are displaced and move to
        the local space, the buffer holds one frame per thread, and with
        barrier support the resume point's offset is recorded (the C++
        asserts that the resume point is a local-space variable). The new
        buffer's address is a parameter. */
    method AllocateLocalMemory(buffer: nat)
      requires LocalLocalsAlignable(locals)
      requires barrierSupport ==> resumePoint in LocalOffsets(locals)
      modifies this`localSize, this`instructions, this`local, this`localBuffer, this`resumePointOffset
      ensures localSize == Place(LocalLocalSlots(locals), 0).end
      ensures instructions == RewriteAll(old(instructions), LocalOffsets(locals), Some(Local))
      ensures local == buffer && localBuffer == ThreadCount(ntid) * localSize
      ensures resumePointOffset == if barrierSupport then LocalOffsets(locals)[resumePoint] else old(resumePointOffset)
    {
      ghost var shape := (locals, ntid, barrierSupport, resumePoint);
      ghost var ins0 := instructions;
      var size, m := PlaceLocals(locals);
      var threads := ThreadCount(ntid);
      MulNat(threads, size);
      var frames: nat := threads * size;
      var resume := resumePointOffset;
      if barrierSupport {
        resume := m[resumePoint];
      }
      ghost var want := if barrierSupport then LocalOffsets(locals)[resumePoint] else old(resumePointOffset);
      assert resume == want;
      RewriteOperands(m, Some(Local));
      assert instructions == RewriteAll(ins0, m, Some(Local));
      localSize, local, localBuffer, resumePointOffset := size, buffer, frames, resume;
      assert shape == (locals, ntid, barrierSupport, resumePoint);
    }

    /** `_allocateConstantMemory`: `_constants` is rebuilt from the module's
        const globals, placed in order, and the constant operands are
        displaced and move to the const space. */
    method AllocateConstantMemory()
      requires ConstantsAlignable(globals)
      modifies this`constantSize, this`constants, this`instructions, this`constantBuffer
      ensures constants == ConstantOffsets(globals)
      ensures constantSize == Place(ConstantSlots(globals), 0).end
      ensures instructions == RewriteAll(old(instructions), constants, Some(Const))
      ensures constantBuffer == constantSize
    {
      var size, m := PlaceConstants(globals);
      constantSize := size;
      constants := m;
      RewriteOperands(constants, Some(Const));
      constantBuffer := constantSize;
    }

    /** `_allocateTextureMemory`: each tex instruction's texture operand
        gets its texture's index, and the table lists the module textures in
        index order. The C++ asserts that every texture is declared. */
    method AllocateTextureMemory()
      requires TexturesDeclared(instructions, moduleTextures)
      modifies this`textures, this`instructions
      ensures var order := TextureOrder(old(instructions));
        && |textures| == |order|
        && (forall i :: 0 <= i < |order| ==> order[i] in moduleTextures && textures[i] == moduleTextures[order[i]])
        && instructions == AssignTextures(old(instructions), order)
    {
      var numbered, table := NumberTextures(instructions, moduleTextures);
      instructions := numbered;
      textures := table;
    }

    /** `setKernelShape`: a change in the number of threads reallocates the
        local buffer (when one exists) to one frame per thread; the new
        buffer's address is a parameter. */
    method SetKernelShape(x: nat, y: nat, z: nat, buffer: nat)
      modifies this`ntid, this`local, this`localBuffer
      ensures ntid == Dim3(x, y, z)
      ensures var resized := ThreadCount(old(ntid)) != ThreadCount(ntid) && old(local) != 0;
        && local == (if resized then buffer else old(local))
        && localBuffer == (if resized then ThreadCount(ntid) * localSize else old(localBuffer))
    {
      var previous := Threads();
      ntid := Dim3(x, y, z);
      if previous != Threads() {
        if local != 0 {
          local := buffer;
          var threads := Threads();
          MulNat(threads, localSize);
          localBuffer := threads * localSize;
        }
      }
    }

    /** `externSharedMemory`: a new extern size reallocates the shared
        buffer to the declared size plus the extern size. */
    method ExternSharedMemory(bytes: nat)
      modifies this`externalSharedSize, this`sharedBuffer
      ensures externalSharedSize == bytes
      ensures sharedBuffer == if bytes != old(externalSharedSize) then bytes + sharedSize else old(sharedBuffer)
    {
      if bytes != externalSharedSize {
        externalSharedSize := bytes;
        sharedBuffer := externalSharedSize + sharedSize;
      }
    }

    /** `_launchCtaNoBarriers`: every thread of the CTA runs once, in launch
        order, on its slice of the local buffer. The C++ asserts that all of
        them finished; the result says whether they did. `local` ends where
        it started. */
    method LaunchCtaNoBarriers(f: PlainKernel) returns (done: bool)
      modifies this`tid
      ensures done <==> AllFinish(f, ntid, local, localSize, Order(ntid))
      ensures tid == LastTid(ntid, old(tid))
    {
      var last;
      done, last := RunGrid(f, ntid, local, localSize, tid);
      tid := last;
    }

    /** `_launchCtaWithBarriers`, run for at most `fuel` sweeps: every
        thread's resume word is zeroed, then whole sweeps repeat until one
        in which every thread returned 0. `local` ends where it started. */
    method LaunchCtaWithBarriers(f: BarrierKernel, fuel: nat) returns (finished: bool, sweeps: nat)
      modifies this`tid, this`localWords
      ensures var l := Launch(f, ntid, local, localSize, resumePointOffset);
        var o := Sweeps(l, ZeroResume(l, old(localWords), 0, ThreadCount(ntid)), 0, fuel);
        && localWords == o.words && finished == o.finished && sweeps == o.sweeps
      ensures tid == if fuel == 0 then old(tid) else LastTid(ntid, old(tid))
    {
      var l := Launch(f, ntid, local, localSize, resumePointOffset);
      var zeroed := ZeroResumeWords(l, localWords, Threads());
      var words, last;
      words, finished, sweeps, last := RunSweeps(l, zeroed, fuel, tid);
      localWords := words;
      tid := last;
    }
  }

  /** The x loop of `_launchCtaNoBarriers` over row t.y of plane t.z. */
  method RunRow(f: PlainKernel, n: Dim3, base: nat, localSize: nat, t: Dim3) returns (done: bool, tid: Dim3)
    ensures done <==> AllFinish(f, n, base, localSize, Row(n, t.z, t.y, 0))
    ensures tid == if n.x == 0 then t else Dim3(n.x - 1, t.y, t.z)
  {
    done := true;
    tid := t;
    var x: nat := 0;
    while x < n.x
      invariant x <= n.x
      invariant (done && AllFinish(f, n, base, localSize, Row(n, t.z, t.y, x))) == AllFinish(f, n, base, localSize, Row(n, t.z, t.y, 0))
      invariant tid == if x == 0 then t else Dim3(x - 1, t.y, t.z)
    {
      tid := tid.(x := x);
      var local := base + localSize * LinearThreadId(n, tid);
      var resume := f(tid, local);
      AllFinishCons(f, n, base, localSize, tid, Row(n, t.z, t.y, x + 1));
      done := done && resume == 0;
      x := x + 1;
    }
  }

  /** The y loop of `_launchCtaNoBarriers` over plane t.z. */
  method RunPlane(f: PlainKernel, n: Dim3, base: nat, localSize: nat, t: Dim3) returns (done: bool, tid: Dim3)
    ensures done <==> AllFinish(f, n, base, localSize, Plane(n, t.z, 0))
    ensures tid == LastTid(Dim3(n.x, n.y, 1), t).(z := t.z)
  {
    done := true;
    tid := t;
    var y: nat := 0;
    while y < n.y
      invariant y <= n.y
      invariant (done && AllFinish(f, n, base, localSize, Plane(n, t.z, y))) == AllFinish(f, n, base, localSize, Plane(n, t.z, 0))
      invariant tid == LastTid(Dim3(n.x, y, 1), t).(z := t.z)
    {
      tid := tid.(y := y);
      var rowDone;
      rowDone, tid := RunRow(f, n, base, localSize, tid);
      AllFinishAppend(f, n, base, localSize, Row(n, t.z, y, 0), Plane(n, t.z, y + 1));
      LastTidRow(n, t, y);
      done := done && rowDone;
      y := y + 1;
    }
  }

  /** The z loop of `_launchCtaNoBarriers`: the whole CTA. */
  method RunGrid(f: PlainKernel, n: Dim3, base: nat, localSize: nat, t: Dim3) returns (done: bool, tid: Dim3)
    ensures done <==> AllFinish(f, n, base, localSize, Order(n))
    ensures tid == LastTid(n, t)
  {
    done := true;
    tid := t;
    var z: nat := 0;
    while z < n.z
      invariant z <= n.z
      invariant (done && AllFinish(f, n, base, localSize, Grid(n, z))) == AllFinish(f, n, base, localSize, Grid(n, 0))
      invariant tid == if z == 0 then t else LastTid(Dim3(n.x, n.y, z), t)
    {
      tid := tid.(z := z);
      var planeDone;
      planeDone, tid := RunPlane(f, n, base, localSize, tid);
      AllFinishAppend(f, n, base, localSize, Plane(n, z, 0), Grid(n, z + 1));
      LastTidPlane(n, t, z);
      done := done && planeDone;
      z := z + 1;
    }
  }

  /** The zeroing loop of `_launchCtaWithBarriers`. */
  method ZeroResumeWords(l: Launch, w: map<nat, u32>, count: nat) returns (r: map<nat, u32>)
    ensures r == ZeroResume(l, w, 0, count)
  {
    r := w;
    var i: nat := 0;
    while i < count
      invariant i <= count
      invariant ZeroResume(l, r, i, count) == ZeroResume(l, w, 0, count)
    {
      r := r[l.base + i * l.localSize + l.offset := 0];
      i := i + 1;
    }
  }

  /** The x loop of one sweep over row t.y of plane t.z: each thread runs on
      its slice and resume word, and its return value is stored back. */
  method SweepRow(l: Launch, sweep: nat, s: SweepState, t: Dim3) returns (r: SweepState, tid: Dim3)
    ensures r == Sweep(l, sweep, s, Row(l.n, t.z, t.y, 0))
    ensures tid == if l.n.x == 0 then t else Dim3(l.n.x - 1, t.y, t.z)
  {
    var words: map<nat, u32>, done: bool := s.words, s.done;
    tid := t;
    var x: nat := 0;
    while x < l.n.x
      invariant x <= l.n.x
      invariant Sweep(l, sweep, SweepState(words, done), Row(l.n, t.z, t.y, x)) == Sweep(l, sweep, s, Row(l.n, t.z, t.y, 0))
      invariant tid == if x == 0 then t else Dim3(x - 1, t.y, t.z)
    {
      tid := tid.(x := x);
      var local := l.base + l.localSize * LinearThreadId(l.n, tid);
      var resume := l.f(sweep, tid, local, Word(words, local + l.offset));
      SweepCons(l, sweep, SweepState(words, done), tid, Row(l.n, t.z, t.y, x + 1));
      done := done && resume == 0;
      words := words[local + l.offset := resume];
      x := x + 1;
    }
    r := SweepState(words, done);
  }

  /** The y loop of one sweep over plane t.z. */
  method SweepPlane(l: Launch, sweep: nat, s: SweepState, t: Dim3) returns (r: SweepState, tid: Dim3)
    ensures r == Sweep(l, sweep, s, Plane(l.n, t.z, 0))
    ensures tid == LastTid(Dim3(l.n.x, l.n.y, 1), t).(z := t.z)
  {
    r := s;
    tid := t;
    var y: nat := 0;
    while y < l.n.y
      invariant y <= l.n.y
      invariant Sweep(l, sweep, r, Plane(l.n, t.z, y)) == Sweep(l, sweep, s, Plane(l.n, t.z, 0))
      invariant tid == LastTid(Dim3(l.n.x, y, 1), t).(z := t.z)
    {
      tid := tid.(y := y);
      SweepAppend(l, sweep, r, Row(l.n, t.z, y, 0), Plane(l.n, t.z, y + 1));
      LastTidRow(l.n, t, y);
      r, tid := SweepRow(l, sweep, r, tid);
      y := y + 1;
    }
  }

  /** One sweep of the `while( !done )` loop: the z loop over the CTA, with
      `done` set before the first thread. */
  method SweepGrid(l: Launch, sweep: nat, w: map<nat, u32>, t: Dim3) returns (r: SweepState, tid: Dim3)
    ensures r == Sweep(l, sweep, SweepState(w, true), Order(l.n))
    ensures tid == LastTid(l.n, t)
  {
    r := SweepState(w, true);
    tid := t;
    var z: nat := 0;
    while z < l.n.z
      invariant z <= l.n.z
      invariant Sweep(l, sweep, r, Grid(l.n, z)) == Sweep(l, sweep, SweepState(w, true), Grid(l.n, 0))
      invariant tid == if z == 0 then t else LastTid(Dim3(l.n.x, l.n.y, z), t)
    {
      tid := tid.(z := z);
      SweepAppend(l, sweep, r, Plane(l.n, z, 0), Grid(l.n, z + 1));
      LastTidPlane(l.n, t, z);
      r, tid := SweepPlane(l, sweep, r, tid);
      z := z + 1;
    }
  }

  /** The `while( !done )` loop of `_launchCtaWithBarriers`, for at most
      `fuel` sweeps. */
  method RunSweeps(l: Launch, w: map<nat, u32>, fuel: nat, t: Dim3)
    returns (words: map<nat, u32>, finished: bool, sweeps: nat, tid: Dim3)
    ensures var o := Sweeps(l, w, 0, fuel);
      words == o.words && finished == o.finished && sweeps == o.sweeps
    ensures tid == if fuel == 0 then t else LastTid(l.n, t)
  {
    ghost var outcome := Sweeps(l, w, 0, fuel);
    words, finished, sweeps, tid := w, false, 0, t;
    while !finished && sweeps < fuel
      invariant sweeps <= fuel
      invariant !finished ==> Sweeps(l, words, sweeps, fuel - sweeps) == outcome
      invariant finished ==> sweeps > 0 && LaunchOutcome(words, true, sweeps) == outcome
      invariant tid == if sweeps == 0 then t else LastTid(l.n, t)
    {
      var s;
      s, tid := SweepGrid(l, sweeps, words, tid);
      LastTidIdempotent(l.n, t);
      words, finished := s.words, s.done;
      sweeps := sweeps + 1;
    }
  }

  /** One more global: its extern name, if any, heads the remaining list. */
  lemma ExternGlobalStep(globals: seq<Global>, i: nat)
    requires i < |globals|
    ensures ExternGlobalNames(globals[i..]) ==
      (if IsExternGlobal(globals[i]) then [globals[i].name] else []) + ExternGlobalNames(globals[i + 1..])
    ensures GlobalsAlignable(globals[i..]) ==> GlobalsAlignable(globals[i + 1..])
  {
    assert globals[i..][1..] == globals[i + 1..];
  }

  lemma ExternLocalStep(locals: seq<LocalVariable>, j: nat)
    requires j < |locals|
    ensures ExternLocalNames(locals[j..]) ==
      (if IsExternLocal(locals[j]) then [locals[j].name] else []) + ExternLocalNames(locals[j + 1..])
    ensures LocalsAlignable(locals[j..]) ==> LocalsAlignable(locals[j + 1..])
  {
    assert locals[j..][1..] == locals[j + 1..];
  }

  /** Both halves of a list without repetitions are without repetitions,
      and share no element. */
  lemma DistinctSplit<T>(a: seq<T>, b: seq<T>)
    requires Distinct(a + b)
    ensures Distinct(a) && Distinct(b)
    ensures forall x :: x in a ==> x !in b
  {
    var s := a + b;
    assert forall i :: 0 <= i < |a| ==> s[i] == a[i];
    assert forall j :: 0 <= j < |b| ==> s[|a| + j] == b[j];
  }

  lemma LocalLocalSlotsStep(locals: seq<LocalVariable>, i: nat)
    requires i < |locals| && LocalLocalsAlignable(locals[i..])
    ensures LocalLocalsAlignable(locals[i + 1..])
    ensures var l := locals[i];
      LocalLocalSlots(locals[i..]) ==
        (if l.space == Local then [Slot(l.name, l.size, l.alignment)] else []) + LocalLocalSlots(locals[i + 1..])
  {
    assert locals[i..][1..] == locals[i + 1..];
  }

  lemma ConstantSlotsStep(globals: seq<Global>, i: nat)
    requires i < |globals| && ConstantsAlignable(globals[i..])
    ensures ConstantsAlignable(globals[i + 1..])
    ensures var g := globals[i];
      ConstantSlots(globals[i..]) ==
        (if g.directive == ConstDirective then [Slot(g.name, g.bytes, g.alignment)] else []) + ConstantSlots(globals[i + 1..])
  {
    assert globals[i..][1..] == globals[i + 1..];
  }

  /** A texture seen for the first time gets the next index. */
  lemma TextureIndexAppended(seen: seq<string>, name: string, m: map<string, nat>, order: seq<string>)
    requires name !in seen && name in m && m[name] == |seen|
    ensures IndexOf(seen + [name], name) == |seen|
    ensures forall x :: x in seen ==> IndexOf(seen + [name], x) == IndexOf(seen, x)
  {
    var s := seen + [name];
    assert s[|seen|] == name && s[..|seen|] == seen;
    forall x | x in seen
      ensures IndexOf(s, x) == IndexOf(seen, x)
    {
      IndexOfPrefix(seen, s, x);
    }
  }

  /** The index a texture gets during the loop is its final index. */
  lemma TextureIndexFinal(seen: seq<string>, order: seq<string>, name: string)
    requires name in seen && seen <= order
    ensures TextureIndex(order, name) == IndexOf(seen, name)
  {
    IndexOfPrefix(seen, order, name);
  }
}
