/** The parts of Ocelot's PTX intermediate representation that the core
    reads and rewrites: operands, instructions, declarations of variables
    in the parameter, shared, local and constant spaces, thread-grid
    coordinates. */
module PtxIR {

  /** PTX data types (ir::PTXOperand::DataType). */
  datatype DataType =
    | S8 | S16 | S32 | S64
    | U8 | U16 | U32 | U64
    | B8 | B16 | B32 | B64
    | F16 | F32 | F64
    | Pred | TypeInvalid

  /** ir::PTXOperand::bytes: the width of a value of the type. */
  function Bytes(t: DataType): nat
  {
    match t
    case S8 | U8 | B8 | Pred => 1
    case S16 | U16 | B16 | F16 => 2
    case S32 | U32 | B32 | F32 => 4
    case S64 | U64 | B64 | F64 => 8
    case TypeInvalid => 0
  }

  datatype AddressMode =
    | Register | Indirect | Immediate | Address | Label | Special
    | ArgumentList | FunctionName | AddressModeInvalid

  /** ir::PTXOperand, reduced to the fields the core touches. `elements`
      (PTXOperand::array) holds the entries of an argument list (the
      operands of a call). */
  datatype Operand = Operand(
    addressMode: AddressMode,
    dataType: DataType,
    identifier: string,
    offset: int,
    reg: nat,
    elements: seq<Operand>)

  /** ir::PTXOperand(Register, type, reg): a fresh register operand. */
  function RegisterOperand(t: DataType, r: nat): Operand
  {
    Operand(Register, t, "", 0, r, [])
  }

  datatype Opcode = Mov | Ld | St | Tex | Cvt | Call | Bar | OtherOpcode(code: nat)

  datatype AddressSpace = Param | Shared | Local | Const | Global | Texture | Generic | AddressSpaceInvalid

  datatype Modifier = ModifierInvalid | ModifierBits(bits: nat)

  /** ir::PTXInstruction: the operands are d, a, b and c (slots 0..3). */
  datatype Instruction = Instruction(
    opcode: Opcode,
    addressSpace: AddressSpace,
    dataType: DataType,
    modifier: Modifier,
    d: Operand,
    a: Operand,
    b: Operand,
    c: Operand)

  /** The operand array { &d, &a, &b, &c } of the allocators. */
  function OperandAt(i: Instruction, slot: nat): Operand
    requires slot < 4
  {
    if slot == 0 then i.d else if slot == 1 then i.a else if slot == 2 then i.b else i.c
  }

  function WithOperand(i: Instruction, slot: nat, o: Operand): (r: Instruction)
    requires slot < 4
    ensures OperandAt(r, slot) == o
    ensures forall s :: 0 <= s < 4 && s != slot ==> OperandAt(r, s) == OperandAt(i, s)
    ensures r.opcode == i.opcode && r.addressSpace == i.addressSpace && r.dataType == i.dataType
    ensures r.modifier == i.modifier
  {
    if slot == 0 then i.(d := o) else if slot == 1 then i.(a := o)
    else if slot == 2 then i.(b := o) else i.(c := o)
  }

  /** The allocators only rewrite addresses of mov, ld and st. */
  predicate IsMemoryMove(op: Opcode)
  {
    op == Mov || op == Ld || op == St
  }

  /** Kernel parameter (ir::Parameter): getSize(), getAlignment() and the
      offset the parameter allocator writes back. */
  datatype Parameter = Parameter(name: string, size: nat, alignment: nat, offset: nat)

  datatype Attribute = Extern | NoAttribute | OtherAttribute

  /** A kernel-local declaration (ir::Local): its address space, attribute,
      alignment, type and getSize(). */
  datatype LocalVariable = LocalVariable(
    space: AddressSpace, attribute: Attribute, name: string,
    alignment: nat, dataType: DataType, size: nat)

  datatype Directive = SharedDirective | ConstDirective | GlobalDirective | OtherDirective

  /** A module-level variable (ir::Global's statement): its directive,
      attribute, alignment, type and bytes(). */
  datatype Global = Global(
    directive: Directive, attribute: Attribute, name: string,
    alignment: nat, dataType: DataType, bytes: nat)

  /** A module texture (ir::Texture), looked up by name; its sampling state
      is not modelled. */
  datatype ModuleTexture = ModuleTexture(name: string)

  /** A three-component index or extent (ntid, tid, nctaid, ctaid). */
  datatype Dim3 = Dim3(x: nat, y: nat, z: nat)
}
