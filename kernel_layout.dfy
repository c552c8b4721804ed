/** What the parameter, local, constant and texture allocators of the LLVM
    executable kernel compute, as functions of the kernel and its module,
    and what is proved about those layouts. The allocator methods of the
    kernel class are proved equal to these. */
module KernelLayout {
  import opened Util
  import opened PtxIR
  import opened MemoryLayout

  // ---------------------------------------------------------------------
  // Parameters
  // ---------------------------------------------------------------------

  predicate ParametersAlignable(ps: seq<Parameter>)
  {
    forall i :: 0 <= i < |ps| ==> ps[i].alignment > 0
  }

  /** Every parameter in declaration order. */
  function ParameterSlots(ps: seq<Parameter>): (r: seq<Slot>)
    ensures |r| == |ps|
    ensures forall i :: 0 <= i < |ps| ==> r[i] == Slot(ps[i].name, ps[i].size, ps[i].alignment)
    ensures ParametersAlignable(ps) ==> Alignable(r)
  {
    seq(|ps|, i requires 0 <= i < |ps| => Slot(ps[i].name, ps[i].size, ps[i].alignment))
  }

  /** The parameters with the offsets the allocator writes back. */
  function WithOffsets(ps: seq<Parameter>, offsets: seq<nat>): (r: seq<Parameter>)
    requires |offsets| == |ps|
    ensures |r| == |ps|
    ensures forall i :: 0 <= i < |ps| ==> r[i] == ps[i].(offset := offsets[i])
  {
    seq(|ps|, i requires 0 <= i < |ps| => ps[i].(offset := offsets[i]))
  }

  /** The parameter block: each parameter sits at a multiple of its
      alignment, no two overlap, and the block ends where the last one
      ends (it is empty when there are none). */
  lemma ParameterLayout(ps: seq<Parameter>)
    requires ParametersAlignable(ps)
    ensures var p := Place(ParameterSlots(ps), 0);
      && (forall i :: 0 <= i < |ps| ==> p.offsets[i] % ps[i].alignment == 0)
      && (forall i, j :: 0 <= i < j < |ps| ==> p.offsets[i] + ps[i].size <= p.offsets[j])
      && (|ps| == 0 ==> p.end == 0)
      && (|ps| > 0 ==> p.end == p.offsets[|ps| - 1] + ps[|ps| - 1].size)
  {
    var slots := ParameterSlots(ps);
    PlaceAligned(slots, 0);
    PlaceDisjoint(slots, 0);
    PlaceEnd(slots, 0);
  }

  // ---------------------------------------------------------------------
  // Kernel locals in the local space
  // ---------------------------------------------------------------------

  predicate LocalLocalsAlignable(locals: seq<LocalVariable>)
  {
    forall i :: 0 <= i < |locals| && locals[i].space == Local ==> locals[i].alignment > 0
  }

  /** The kernel locals declared in the local space, in order. */
  function LocalLocalSlots(locals: seq<LocalVariable>): (r: seq<Slot>)
    requires LocalLocalsAlignable(locals)
    ensures Alignable(r)
    decreases |locals|
  {
    if locals == [] then []
    else
      var l := locals[0];
      assert LocalLocalsAlignable(locals[1..]) by {
        assert forall i :: 1 <= i < |locals| ==> locals[1..][i - 1] == locals[i];
      }
      (if l.space == Local then [Slot(l.name, l.size, l.alignment)] else []) + LocalLocalSlots(locals[1..])
  }

  /** The offset of each local-space variable within one thread's frame. */
  function LocalOffsets(locals: seq<LocalVariable>): map<string, nat>
    requires LocalLocalsAlignable(locals)
  {
    OffsetMap(LocalLocalSlots(locals), 0, map[])
  }

  /** Only local-space variables are placed, and every one of them is. */
  lemma {:induction false} LocalLocalSlotsMembers(locals: seq<LocalVariable>)
    requires LocalLocalsAlignable(locals)
    ensures forall l :: l in locals && l.space == Local ==> Slot(l.name, l.size, l.alignment) in LocalLocalSlots(locals)
    ensures forall x :: x in LocalLocalSlots(locals) ==>
      exists l :: l in locals && l.space == Local && x == Slot(l.name, l.size, l.alignment)
    decreases |locals|
  {
    if locals != [] {
      LocalLocalSlotsMembers(locals[1..]);
      assert forall l :: l in locals ==> l == locals[0] || l in locals[1..];
    }
  }

  /** The local frame: every local-space variable sits at an aligned
      offset, no two overlap, and the frame size covers them. */
  lemma LocalLayout(locals: seq<LocalVariable>)
    requires LocalLocalsAlignable(locals)
    ensures var slots := LocalLocalSlots(locals); var p := Place(slots, 0);
      && (forall i :: 0 <= i < |slots| ==> p.offsets[i] % slots[i].alignment == 0)
      && (forall i :: 0 <= i < |slots| ==> p.offsets[i] + slots[i].size <= p.end)
      && (forall i, j :: 0 <= i < j < |slots| ==> p.offsets[i] + slots[i].size <= p.offsets[j])
  {
    var slots := LocalLocalSlots(locals);
    PlaceAligned(slots, 0);
    PlaceBounds(slots, 0);
    PlaceDisjoint(slots, 0);
  }

  /** The local map names exactly the local-space variables. */
  lemma LocalOffsetsKeys(locals: seq<LocalVariable>)
    requires LocalLocalsAlignable(locals)
    ensures LocalOffsets(locals).Keys == set l | l in locals && l.space == Local :: l.name
  {
    var slots := LocalLocalSlots(locals);
    InsertAllLookup(map[], Names(slots), Place(slots, 0).offsets);
    LocalLocalSlotsMembers(locals);
    NamesElements(slots);
    var names := set l | l in locals && l.space == Local :: l.name;
    forall x | x in names
      ensures x in Names(slots)
    {
      var l :| l in locals && l.space == Local && l.name == x;
      assert Slot(l.name, l.size, l.alignment) in slots;
    }
    forall x | x in Names(slots)
      ensures x in names
    {
      var y :| y in slots && y.name == x;
      var l :| l in locals && l.space == Local && y == Slot(l.name, l.size, l.alignment);
    }
  }

  lemma NamesElements(slots: seq<Slot>)
    ensures forall x :: x in Names(slots) <==> exists y :: y in slots && y.name == x
  {
    forall x | x in Names(slots)
      ensures exists y :: y in slots && y.name == x
    {
      var i :| 0 <= i < |slots| && Names(slots)[i] == x;
      assert slots[i] in slots;
    }
    forall x | exists y :: y in slots && y.name == x
      ensures x in Names(slots)
    {
      var y :| y in slots && y.name == x;
      var i :| 0 <= i < |slots| && slots[i] == y;
      assert Names(slots)[i] == x;
    }
  }

  // ---------------------------------------------------------------------
  // Module constants
  // ---------------------------------------------------------------------

  predicate ConstantsAlignable(globals: seq<Global>)
  {
    forall i :: 0 <= i < |globals| && globals[i].directive == ConstDirective ==> globals[i].alignment > 0
  }

  /** The module globals declared with the const directive, in order. */
  function ConstantSlots(globals: seq<Global>): (r: seq<Slot>)
    requires ConstantsAlignable(globals)
    ensures Alignable(r)
    decreases |globals|
  {
    if globals == [] then []
    else
      var g := globals[0];
      assert ConstantsAlignable(globals[1..]) by {
        assert forall i :: 1 <= i < |globals| ==> globals[1..][i - 1] == globals[i];
      }
      (if g.directive == ConstDirective then [Slot(g.name, g.bytes, g.alignment)] else []) + ConstantSlots(globals[1..])
  }

  /** The offset of each constant in the constant block. */
  function ConstantOffsets(globals: seq<Global>): map<string, nat>
    requires ConstantsAlignable(globals)
  {
    OffsetMap(ConstantSlots(globals), 0, map[])
  }

  /** The constant block: aligned, disjoint, covered by its size. */
  lemma ConstantLayout(globals: seq<Global>)
    requires ConstantsAlignable(globals)
    ensures var slots := ConstantSlots(globals); var p := Place(slots, 0);
      && (forall i :: 0 <= i < |slots| ==> p.offsets[i] % slots[i].alignment == 0)
      && (forall i :: 0 <= i < |slots| ==> p.offsets[i] + slots[i].size <= p.end)
      && (forall i, j :: 0 <= i < j < |slots| ==> p.offsets[i] + slots[i].size <= p.offsets[j])
  {
    var slots := ConstantSlots(globals);
    PlaceAligned(slots, 0);
    PlaceBounds(slots, 0);
    PlaceDisjoint(slots, 0);
  }

  // ---------------------------------------------------------------------
  // Textures
  // ---------------------------------------------------------------------

  /** Every texture a tex instruction names is declared in the module. */
  predicate TexturesDeclared(instrs: seq<Instruction>, textures: map<string, ModuleTexture>)
  {
    forall k :: 0 <= k < |instrs| && instrs[k].opcode == Tex ==> instrs[k].a.identifier in textures
  }

  /** The textures in the order of their index: first reference first. */
  function TextureOrder(instrs: seq<Instruction>): seq<string>
  {
    Dedup(TextureNames(instrs))
  }

  /** A tex instruction's texture operand gets its texture's index. */
  function AssignTexture(ins: Instruction, order: seq<string>): Instruction
  {
    if ins.opcode == Tex then ins.(a := ins.a.(reg := TextureIndex(order, ins.a.identifier))) else ins
  }

  function AssignTextures(instrs: seq<Instruction>, order: seq<string>): (r: seq<Instruction>)
    ensures |r| == |instrs|
    ensures forall k :: 0 <= k < |instrs| ==> r[k] == AssignTexture(instrs[k], order)
  {
    seq(|instrs|, k requires 0 <= k < |instrs| => AssignTexture(instrs[k], order))
  }

  /** The names in TextureNames are exactly the texture operands of tex
      instructions. */
  lemma {:induction false} TextureNamesMembers(instrs: seq<Instruction>)
    ensures forall k :: 0 <= k < |instrs| && instrs[k].opcode == Tex ==> instrs[k].a.identifier in TextureNames(instrs)
    ensures forall x :: x in TextureNames(instrs) ==>
      exists k :: 0 <= k < |instrs| && instrs[k].opcode == Tex && instrs[k].a.identifier == x
    decreases |instrs|
  {
    if instrs != [] {
      var p := instrs[..|instrs| - 1];
      TextureNamesMembers(p);
      forall k | 0 <= k < |instrs| - 1
        ensures instrs[k] == p[k]
      {
      }
    }
  }

  /** A distinct sequence has as many elements as its set. */
  lemma {:induction false} DistinctCardinality<T>(s: seq<T>)
    requires Distinct(s)
    ensures |set x | x in s| == |s|
    decreases |s|
  {
    if s != [] {
      var t := s[1..];
      assert Distinct(t) by {
        forall i, j | 0 <= i < j < |t|
          ensures t[i] != t[j]
        {
          assert t[i] == s[i + 1] && t[j] == s[j + 1];
        }
      }
      DistinctCardinality(t);
      assert s[0] !in t by {
        forall i | 0 <= i < |t|
          ensures t[i] != s[0]
        {
          assert t[i] == s[i + 1];
        }
      }
      assert (set x | x in s) == (set x | x in t) + {s[0]} by {
        assert s == [s[0]] + t;
      }
    }
  }

  /** The texture numbering: every tex instruction gets an index below the
      number of textures, naming its own texture; the indices are
      0, 1, ... for distinct textures, one per texture, in the order of
      their first reference. */
  lemma TextureLayout(instrs: seq<Instruction>)
    ensures var order := TextureOrder(instrs);
      && Distinct(order)
      && |order| == |set k | 0 <= k < |instrs| && instrs[k].opcode == Tex :: instrs[k].a.identifier|
      && (forall k :: 0 <= k < |instrs| && instrs[k].opcode == Tex ==>
            var r := AssignTexture(instrs[k], order).a.reg;
            r < |order| && order[r] == instrs[k].a.identifier)
  {
    var names := TextureNames(instrs);
    var order := TextureOrder(instrs);
    DedupElements(names);
    TextureNamesMembers(instrs);
    DistinctCardinality(order);
    var used := set k | 0 <= k < |instrs| && instrs[k].opcode == Tex :: instrs[k].a.identifier;
    assert (set x | x in order) == used;
  }

  /** A texture first referenced before another gets the smaller index. */
  lemma TextureFirstReference(instrs: seq<Instruction>, i: nat, j: nat)
    requires i < j < |TextureNames(instrs)|
    requires TextureNames(instrs)[j] !in TextureNames(instrs)[..j]
    ensures var order := TextureOrder(instrs); var names := TextureNames(instrs);
      TextureIndex(order, names[i]) < TextureIndex(order, names[j])
  {
    DedupFirstOccurrenceOrder(TextureNames(instrs), i, j);
  }

  /** Every texture in the order is declared in the module. */
  lemma TextureOrderDeclared(instrs: seq<Instruction>, textures: map<string, ModuleTexture>)
    requires TexturesDeclared(instrs, textures)
    ensures forall x :: x in TextureOrder(instrs) ==> x in textures
  {
    TextureNamesMembers(instrs);
    DedupElements(TextureNames(instrs));
  }

  /** One more instruction of the loop extends the name list by its texture. */
  lemma TextureNamesStep(instrs: seq<Instruction>, k: nat)
    requires k < |instrs|
    ensures TextureNames(instrs[..k + 1]) ==
      TextureNames(instrs[..k]) + (if instrs[k].opcode == Tex then [instrs[k].a.identifier] else [])
  {
    assert instrs[..k + 1][..k] == instrs[..k];
  }

  lemma {:induction false} TextureNamesPrefix(instrs: seq<Instruction>, k: nat)
    requires k <= |instrs|
    ensures TextureNames(instrs[..k]) <= TextureNames(instrs)
    decreases |instrs|
  {
    if k < |instrs| {
      var p := instrs[..|instrs| - 1];
      assert instrs[..k] == p[..k];
      TextureNamesPrefix(p, k);
    } else {
      assert instrs[..k] == instrs;
    }
  }

  lemma {:induction false} DedupMonotone<T>(a: seq<T>, b: seq<T>)
    requires a <= b
    ensures Dedup(a) <= Dedup(b)
    decreases |b|
  {
    if |a| < |b| {
      var p := b[..|b| - 1];
      assert a <= p;
      DedupMonotone(a, p);
    } else {
      assert a == b;
    }
  }

  /** The order seen after the first k instructions is a prefix of the
      final order. */
  lemma TextureOrderPrefix(instrs: seq<Instruction>, k: nat)
    requires k <= |instrs|
    ensures TextureOrder(instrs[..k]) <= TextureOrder(instrs)
  {
    TextureNamesPrefix(instrs, k);
    DedupMonotone(TextureNames(instrs[..k]), TextureNames(instrs));
  }
}
