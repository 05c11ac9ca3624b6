/**
 * The phase-4 code generator (phase4/code_generator.c): a context holding an append-only
 * instruction list, a usage flag per register, a label counter, a stack offset and a
 * name-to-slot map, and the emitters that walk the tree and append x86-64 style instructions.
 *
 * `GenState` is the context's state as a value; the functions on it (`AllocateUsage`,
 * `IdentifierCode`, `ProgramCode`, …) say what each operation does, the methods of
 * `CodeGenContext` do it step by step and are proved to end in the state those functions give,
 * and the lemmas state what the source promises about them.
 */
module CodeGenerator {
  import opened Wrappers
  import opened Text
  import opened CodeGenAst

  /** `TargetArch`. */
  datatype Target = X86_64 | Arm64 | Mips

  // `Register`: the eight general registers, numbered from 0, and their count.
  const RAX: nat := 0
  const RBX: nat := 1
  const RCX: nat := 2
  const RDX: nat := 3
  const RSI: nat := 4
  const RDI: nat := 5
  const R8: nat := 6
  const R9: nat := 7
  const RegCount: nat := 8

  /** `InstructionType`. */
  datatype Opcode =
    | Mov | Add | Sub | Cmp | Jmp | Je | Jne | Call | Ret
    | Push | Pop | Or | And | Xor | Not | Test | Label

  /** `Operand`: its type tag and the matching member of the value union. */
  datatype Operand =
    | RegisterOperand(reg: nat)
    | Immediate(value: int)
    | Memory(base: nat, offset: int)
    | LabelOperand(text: string)

  /**
   * An instruction: its opcode, the operands stored in its three slots, the operand count it
   * was emitted with, and its comment (NULL until `emit_comment`).
   */
  datatype Instruction = Instruction(opcode: Opcode, operands: seq<Operand>, operandCount: int, comment: Option<string>)

  /** A `SymbolMap` entry. */
  datatype Slot = Slot(name: string, offset: int, isBoolean: int)

  /**
   * The context as a value: instructions in list order, register usage, the next label id,
   * the stack offset, and the symbol map from its head (the most recently added first).
   */
  datatype GenState = GenState(instructions: seq<Instruction>, usage: seq<int>, nextLabelId: int,
                               stackOffset: int, symbols: seq<Slot>)

  /** A new context: no instructions, every register free, labels from 1, no stack slot. */
  function InitialState(): (g: GenState)
    ensures g.instructions == [] && |g.usage| == RegCount && g.nextLabelId == 1
    ensures g.stackOffset == 0 && g.symbols == []
    ensures forall r :: 0 <= r < RegCount ==> g.usage[r] == 0
  {
    GenState([], [0, 0, 0, 0, 0, 0, 0, 0], 1, 0, [])
  }

  // ------------------------------------------------------------------ registers

  /** The lowest index from `i` on whose usage is 0, or `|u|` when there is none. */
  function LowestFree(u: seq<int>, i: nat): (r: nat)
    requires i <= |u|
    ensures i <= r <= |u|
    ensures r < |u| ==> u[r] == 0
    ensures forall k :: i <= k < r ==> u[k] != 0
    decreases |u| - i
  {
    if i == |u| then |u| else if u[i] == 0 then i else LowestFree(u, i + 1)
  }

  /** The register `allocate_register` returns: the lowest free one, RAX when all are in use. */
  function AllocatedRegister(u: seq<int>): nat {
    var i := LowestFree(u, 0);
    if i < |u| then i else RAX
  }

  /** The usage after `allocate_register`: the chosen register marked, or unchanged when none was free. */
  function AllocateUsage(u: seq<int>): (r: seq<int>)
    ensures |r| == |u|
  {
    var i := LowestFree(u, 0);
    if i < |u| then u[i := 1] else u
  }

  /** The usage after `free_register`: an in-range register marked free, nothing else changed. */
  function FreeUsage(u: seq<int>, reg: nat): (r: seq<int>)
    requires |u| == RegCount
    ensures |r| == RegCount
  {
    if reg < RegCount then u[reg := 0] else u
  }

  /**
   * `allocate_register` takes the lowest-index free register and marks only that one; when
   * every register is in use it answers RAX and changes nothing.
   */
  lemma AllocateEffect(u: seq<int>)
    requires |u| == RegCount
    ensures (exists k :: 0 <= k < RegCount && u[k] == 0) ==>
              var r := AllocatedRegister(u);
              && r < RegCount && u[r] == 0 && (forall k :: 0 <= k < r ==> u[k] != 0)
              && AllocateUsage(u) == u[r := 1]
    ensures (forall k :: 0 <= k < RegCount ==> u[k] != 0) ==>
              AllocatedRegister(u) == RAX && AllocateUsage(u) == u
  {
    var i := LowestFree(u, 0);
    if i == |u| {
      assert forall k :: 0 <= k < RegCount ==> u[k] != 0;
    }
  }

  /** `free_register` marks an in-range register free and changes nothing else. */
  lemma FreeEffect(u: seq<int>, reg: nat)
    requires |u| == RegCount
    ensures forall k :: 0 <= k < RegCount && k != reg ==> FreeUsage(u, reg)[k] == u[k]
    ensures reg < RegCount ==> FreeUsage(u, reg)[reg] == 0
  {
  }

  /** Every register is free. */
  predicate AllFree(u: seq<int>) {
    forall k :: 0 <= k < |u| ==> u[k] == 0
  }

  // ------------------------------------------------------------------ symbols

  /** `get_symbol_offset`: the offset of the first entry with this name from the head, or -1. */
  function OffsetOf(m: seq<Slot>, name: string): int {
    if m == [] then -1 else if m[0].name == name then m[0].offset else OffsetOf(m[1..], name)
  }

  /** Slot offsets as `add_symbol` hands them out: the k-th entry from the head has 8 * (|m| - 1 - k). */
  predicate Slotted(m: seq<Slot>) {
    forall k :: 0 <= k < |m| ==> m[k].offset == 8 * (|m| - 1 - k)
  }

  /** No two entries share a name. */
  predicate DistinctNames(m: seq<Slot>) {
    forall i, j :: 0 <= i < j < |m| ==> m[i].name != m[j].name
  }

  /** `t` ends with the entries of `s`: a map that grew at its head keeps its old entries. */
  predicate KeepsSlots(s: seq<Slot>, t: seq<Slot>) {
    |s| <= |t| && t[|t| - |s|..] == s
  }

  /** A state the context can be in: eight registers, the stack offset just past the last slot. */
  predicate WellFormed(g: GenState) {
    |g.usage| == RegCount && g.stackOffset == 8 * |g.symbols| && Slotted(g.symbols)
  }

  /** `add_symbol`: a new head entry at the current stack offset, which then grows by 8. */
  function AddSymbolState(g: GenState, name: string, isBoolean: int): (r: GenState)
    ensures r.instructions == g.instructions && r.usage == g.usage && r.nextLabelId == g.nextLabelId
    ensures WellFormed(g) ==> WellFormed(r)
  {
    g.(symbols := [Slot(name, g.stackOffset, isBoolean)] + g.symbols, stackOffset := g.stackOffset + 8)
  }

  /** The generators' guard: a name gets a slot only when it has none. */
  function EnsureSlot(g: GenState, name: string): GenState {
    if OffsetOf(g.symbols, name) != -1 then g else AddSymbolState(g, name, 1)
  }

  // ------------------------------------------------------------------ emission

  /** What an instruction's three operand slots keep of the operands passed. */
  function Stored(args: seq<Operand>): (r: seq<Operand>)
    ensures |r| <= 3 && r <= args
  {
    if |args| <= 3 then args else args[..3]
  }

  /** `emit_instruction`: one instruction appended at the tail, without a comment. */
  function Emit(g: GenState, op: Opcode, args: seq<Operand>): GenState {
    g.(instructions := g.instructions + [Instruction(op, Stored(args), |args|, None)])
  }

  /** `emit_label`: a LABEL instruction with the label as its one operand. */
  function EmitLabelState(g: GenState, name: string): GenState {
    g.(instructions := g.instructions + [Instruction(Label, [LabelOperand(name)], 1, None)])
  }

  /** `emit_comment`: the last instruction's comment set; nothing happens on an empty list. */
  function Comment(g: GenState, c: string): GenState {
    if g.instructions == [] then g
    else
      var n := |g.instructions|;
      g.(instructions := g.instructions[..n - 1] + [g.instructions[n - 1].(comment := Some(c))])
  }

  /** An instruction with its comment, as an emission followed by `emit_comment` leaves it. */
  function Commented(op: Opcode, args: seq<Operand>, c: string): Instruction {
    Instruction(op, Stored(args), |args|, Some(c))
  }

  // ------------------------------------------------------------------ generators

  /** `generate_identifier`: a slot for the name if it has none, then `mov reg, [rbx - offset]`. */
  function IdentifierCode(g: GenState, name: string, reg: nat): GenState {
    var g1 := EnsureSlot(g, name);
    Comment(Emit(g1, Mov, [RegisterOperand(reg), Memory(RBX, -OffsetOf(g1.symbols, name))]), name)
  }

  /** The three instructions `generate_binary_op` emits, whatever node and register it is given. */
  function BinaryOpInstructions(): seq<Instruction> {
    [Commented(Mov, [RegisterOperand(RAX), Immediate(1)], "Load B = TRUE"),
     Commented(Mov, [RegisterOperand(RBX), Immediate(0)], "Load C = FALSE"),
     Commented(Or, [RegisterOperand(RAX), RegisterOperand(RBX)], "B OR C (result in RAX)")]
  }

  /** `generate_binary_op`: it loads 1 into RAX and 0 into RBX and ORs them, ignoring its node. */
  function BinaryOpCode(g: GenState): GenState {
    var g1 := Comment(Emit(g, Mov, [RegisterOperand(RAX), Immediate(1)]), "Load B = TRUE");
    var g2 := Comment(Emit(g1, Mov, [RegisterOperand(RBX), Immediate(0)]), "Load C = FALSE");
    Comment(Emit(g2, Or, [RegisterOperand(RAX), RegisterOperand(RBX)]), "B OR C (result in RAX)")
  }

  /** The comment `generate_expression` puts on a boolean literal's MOV. */
  function LiteralComment(literal: int): string {
    if literal != 0 then "TRUE" else "FALSE"
  }

  /**
   * `generate_expression`: nothing for a NULL node; an identifier with a name is loaded; a
   * BOOLEAN literal is moved in as an immediate; an OR goes to `generate_binary_op`; any other
   * kind emits nothing.
   */
  function ExpressionCode(g: GenState, node: Option<Node>, reg: nat): (r: GenState)
    ensures r.usage == g.usage && r.nextLabelId == g.nextLabelId
  {
    if node.None? then g
    else
      var n := node.value;
      if n.kind == IDENTIFIER then
        if IdentifierOf(n).Some? then IdentifierCode(g, IdentifierOf(n).value, reg) else g
      else if n.kind == BOOLEAN then
        Comment(Emit(g, Mov, [RegisterOperand(reg), Immediate(LiteralOf(n))]), LiteralComment(LiteralOf(n)))
      else if n.kind == OR then BinaryOpCode(g)
      else g
  }

  /**
   * `generate_assignment`: nothing without a variable; otherwise a slot for the variable if it
   * has none, a register allocated, the value generated into it, `mov [rbx - offset], reg`
   * and the register freed.
   */
  function AssignmentCode(g: GenState, n: Node): (r: GenState)
    requires |g.usage| == RegCount
    ensures |r.usage| == RegCount && r.nextLabelId == g.nextLabelId
  {
    if VariableOf(n).None? then g
    else
      var v := VariableOf(n).value;
      var reg := AllocatedRegister(EnsureSlot(g, v).usage);
      StoreAndFree(ExpressionCode(PrepareAssignment(g, v), ValueOf(n), reg), v, reg)
  }

  /** The first half of `generate_assignment`: the variable's slot, then a register allocated. */
  function PrepareAssignment(g: GenState, v: string): (r: GenState)
    ensures r.instructions == g.instructions && |r.usage| == |g.usage| && r.nextLabelId == g.nextLabelId
  {
    var g1 := EnsureSlot(g, v);
    g1.(usage := AllocateUsage(g1.usage))
  }

  /** The second half: `mov [rbx - offset], reg` with the variable as comment, then the register freed. */
  function StoreAndFree(g: GenState, v: string, reg: nat): (r: GenState)
    requires |g.usage| == RegCount
    ensures |r.usage| == RegCount && r.nextLabelId == g.nextLabelId && r.symbols == g.symbols
  {
    var g1 := Comment(Emit(g, Mov, [Memory(RBX, -OffsetOf(g.symbols, v)), RegisterOperand(reg)]), v);
    g1.(usage := FreeUsage(g1.usage, reg))
  }

  /** The OR node `generate_statement` makes up for an expression statement. */
  function SynthesizedOr(): Node {
    Node(OR, "OR", 3, Zero)
  }

  /**
   * `generate_statement`: an assignment is generated; an expression statement allocates a
   * register, runs `generate_binary_op` on a made-up OR node and frees the register; any other
   * kind emits nothing.
   */
  function StatementCode(g: GenState, n: Node): (r: GenState)
    requires |g.usage| == RegCount
    ensures |r.usage| == RegCount && r.nextLabelId == g.nextLabelId
  {
    if n.kind == ASSIGNMENT then AssignmentCode(g, n)
    else if n.kind == EXPRESSION_STMT then
      var reg := AllocatedRegister(g.usage);
      var g1 := BinaryOpCode(g.(usage := AllocateUsage(g.usage)));
      g1.(usage := FreeUsage(g1.usage, reg))
    else g
  }

  /** The statements generated in order. */
  function StatementsCode(g: GenState, stmts: seq<Node>): (r: GenState)
    requires |g.usage| == RegCount
    ensures |r.usage| == RegCount && r.nextLabelId == g.nextLabelId
    decreases |stmts|
  {
    if stmts == [] then g
    else StatementCode(StatementsCode(g, stmts[..|stmts| - 1]), stmts[|stmts| - 1])
  }

  /** The instruction that ends every program. */
  function ExitInstruction(): Instruction {
    Commented(Mov, [RegisterOperand(RAX), Immediate(0)], "Set exit code to 0")
  }

  /** `generate_program`: nothing unless the node is a PROGRAM; its statements, then `mov rax, 0`. */
  function ProgramCode(g: GenState, node: Option<Node>): (r: GenState)
    requires |g.usage| == RegCount
    ensures |r.usage| == RegCount
  {
    if node.None? || node.value.kind != PROGRAM then g
    else
      var g1 := StatementsCode(g, StatementsOf(node.value));
      Comment(Emit(g1, Mov, [RegisterOperand(RAX), Immediate(0)]), "Set exit code to 0")
  }

  // ------------------------------------------------------------------ names

  /** `generate_label`: prefix, '_' and the id in decimal, cut to the 63 characters the buffer holds. */
  function LabelText(prefix: string, id: int): (r: string)
    ensures |r| <= 63
    ensures |prefix| + 1 + |IntToString(id)| <= 63 ==> r == prefix + "_" + IntToString(id)
  {
    var full := prefix + "_" + IntToString(id);
    if |full| <= 63 then full else full[..63]
  }

  /** `register_to_string`: the x86-64 name, "rax" for an out-of-range register, "r0" on other targets. */
  function RegisterToString(reg: nat, target: Target): (r: string)
    ensures target != X86_64 ==> r == "r0"
    ensures target == X86_64 && reg >= RegCount ==> r == "rax"
  {
    if target == X86_64 then
      if reg == RAX then "rax"
      else if reg == RBX then "rbx"
      else if reg == RCX then "rcx"
      else if reg == RDX then "rdx"
      else if reg == RSI then "rsi"
      else if reg == RDI then "rdi"
      else if reg == R8 then "r8"
      else if reg == R9 then "r9"
      else "rax"
    else "r0"
  }

  /** The register an x86-64 name denotes. */
  function RegisterNamed(s: string): Option<nat> {
    if s == "rax" then Some(RAX)
    else if s == "rbx" then Some(RBX)
    else if s == "rcx" then Some(RCX)
    else if s == "rdx" then Some(RDX)
    else if s == "rsi" then Some(RSI)
    else if s == "rdi" then Some(RDI)
    else if s == "r8" then Some(R8)
    else if s == "r9" then Some(R9)
    else None
  }

  /** `instruction_to_string`: the mnemonic; a LABEL falls to the default, "nop". */
  function InstructionToString(op: Opcode): (r: string)
    ensures r == "nop" <==> op == Label
  {
    match op
    case Mov => "mov"
    case Add => "add"
    case Sub => "sub"
    case Cmp => "cmp"
    case Jmp => "jmp"
    case Je => "je"
    case Jne => "jne"
    case Call => "call"
    case Ret => "ret"
    case Push => "push"
    case Pop => "pop"
    case Or => "or"
    case And => "and"
    case Xor => "xor"
    case Not => "not"
    case Test => "test"
    case Label => "nop"
  }

  /** The opcode a mnemonic denotes. */
  function OpcodeNamed(s: string): Option<Opcode> {
    if s == "mov" then Some(Mov)
    else if s == "add" then Some(Add)
    else if s == "sub" then Some(Sub)
    else if s == "cmp" then Some(Cmp)
    else if s == "jmp" then Some(Jmp)
    else if s == "je" then Some(Je)
    else if s == "jne" then Some(Jne)
    else if s == "call" then Some(Call)
    else if s == "ret" then Some(Ret)
    else if s == "push" then Some(Push)
    else if s == "pop" then Some(Pop)
    else if s == "or" then Some(Or)
    else if s == "and" then Some(And)
    else if s == "xor" then Some(Xor)
    else if s == "not" then Some(Not)
    else if s == "test" then Some(Test)
    else None
  }

  // ------------------------------------------------------------------ the context

  /** `CodeGenContext`. */
  class CodeGenContext {
    var instructions: seq<Instruction>
    var instructionCount: int
    const registerUsage: array<int>
    var nextLabelId: int
    var stackOffset: int
    var symbolMap: seq<Slot>
    const target: Target

    function State(): GenState
      reads this, registerUsage
    {
      GenState(instructions, registerUsage[..], nextLabelId, stackOffset, symbolMap)
    }

    ghost predicate Valid()
      reads this, registerUsage
    {
      registerUsage.Length == RegCount && instructionCount == |instructions| && WellFormed(State())
    }

    /** `create_codegen_context`. */
    constructor(target: Target)
      ensures Valid() && State() == InitialState() && this.target == target
      ensures fresh(registerUsage)
    {
      instructions := [];
      instructionCount := 0;
      nextLabelId := 1;
      stackOffset := 0;
      symbolMap := [];
      this.target := target;
      var usage := new int[RegCount];
      for i := 0 to RegCount
        invariant forall k :: 0 <= k < i ==> usage[k] == 0
      {
        usage[i] := 0;
      }
      registerUsage := usage;
      new;
      assert registerUsage[..] == [0, 0, 0, 0, 0, 0, 0, 0];
    }

    /** `allocate_register`. */
    method AllocateRegister() returns (reg: nat)
      requires Valid()
      modifies registerUsage
      ensures Valid()
      ensures reg == AllocatedRegister(old(registerUsage[..]))
      ensures State() == old(State()).(usage := AllocateUsage(old(registerUsage[..])))
    {
      ghost var u := registerUsage[..];
      var i := 0;
      while i < RegCount
        invariant 0 <= i <= RegCount
        invariant registerUsage[..] == u
        invariant LowestFree(u, i) == LowestFree(u, 0)
      {
        if registerUsage[i] == 0 {
          registerUsage[i] := 1;
          assert registerUsage[..] == u[i := 1];
          return i;
        }
        i := i + 1;
      }
      return RAX;
    }

    /** `free_register`. */
    method FreeRegister(reg: nat)
      requires Valid()
      modifies registerUsage
      ensures Valid()
      ensures State() == old(State()).(usage := FreeUsage(old(registerUsage[..]), reg))
    {
      if reg < RegCount {
        registerUsage[reg] := 0;
        assert registerUsage[..] == old(registerUsage[..])[reg := 0];
      }
    }

    /** `is_register_free`. */
    method IsRegisterFree(reg: nat) returns (b: bool)
      requires Valid()
      ensures b <==> reg < RegCount && registerUsage[reg] == 0
    {
      b := reg < RegCount && registerUsage[reg] == 0;
    }

    /** `add_symbol`. */
    method AddSymbol(name: string, isBoolean: int)
      requires Valid()
      modifies this
      ensures Valid()
      ensures State() == AddSymbolState(old(State()), name, isBoolean)
    {
      symbolMap := [Slot(name, stackOffset, isBoolean)] + symbolMap;
      stackOffset := stackOffset + 8;
    }

    /** `get_symbol_offset`: a walk down the map from its head. */
    method GetSymbolOffset(name: string) returns (offset: int)
      requires Valid()
      ensures offset == OffsetOf(symbolMap, name)
      ensures offset == -1 <==> forall k :: 0 <= k < |symbolMap| ==> symbolMap[k].name != name
    {
      OffsetFound(symbolMap, name);
      var i := 0;
      while i < |symbolMap|
        invariant 0 <= i <= |symbolMap|
        invariant OffsetOf(symbolMap[i..], name) == OffsetOf(symbolMap, name)
      {
        if symbolMap[i].name == name {
          return symbolMap[i].offset;
        }
        assert symbolMap[i..][1..] == symbolMap[i + 1..];
        i := i + 1;
      }
      return -1;
    }

    /** `symbol_exists`. */
    method SymbolExists(name: string) returns (b: bool)
      requires Valid()
      ensures b <==> OffsetOf(symbolMap, name) != -1
      ensures b <==> exists k :: 0 <= k < |symbolMap| && symbolMap[k].name == name
    {
      var offset := GetSymbolOffset(name);
      b := offset != -1;
    }

    /** `generate_label`. */
    method GenerateLabel(prefix: string) returns (text: string)
      requires Valid()
      modifies this
      ensures Valid()
      ensures text == LabelText(prefix, old(nextLabelId))
      ensures State() == old(State()).(nextLabelId := old(nextLabelId) + 1)
    {
      text := LabelText(prefix, nextLabelId);
      nextLabelId := nextLabelId + 1;
    }

    /** `emit_instruction`. */
    method EmitInstruction(op: Opcode, args: seq<Operand>)
      requires Valid()
      modifies this
      ensures Valid()
      ensures State() == Emit(old(State()), op, args)
    {
      var stored := if |args| <= 3 then args else args[..3];
      instructions := instructions + [Instruction(op, stored, |args|, None)];
      instructionCount := instructionCount + 1;
    }

    /** `emit_label`. */
    method EmitLabel(name: string)
      requires Valid()
      modifies this
      ensures Valid()
      ensures State() == EmitLabelState(old(State()), name)
    {
      instructions := instructions + [Instruction(Label, [LabelOperand(name)], 1, None)];
      instructionCount := instructionCount + 1;
    }

    /** `emit_comment`. */
    method EmitComment(c: string)
      requires Valid()
      modifies this
      ensures Valid()
      ensures State() == Comment(old(State()), c)
    {
      if instructions != [] {
        var n := |instructions|;
        instructions := instructions[..n - 1] + [instructions[n - 1].(comment := Some(c))];
      }
    }

    /** `generate_identifier`. */
    method GenerateIdentifier(name: string, reg: nat)
      requires Valid()
      modifies this
      ensures Valid()
      ensures State() == IdentifierCode(old(State()), name, reg)
    {
      var exists_ := SymbolExists(name);
      if !exists_ {
        AddSymbol(name, 1);
      }
      var offset := GetSymbolOffset(name);
      EmitInstruction(Mov, [RegisterOperand(reg), Memory(RBX, -offset)]);
      EmitComment(name);
    }

    /** `generate_binary_op`: the node and the register are not used. */
    method GenerateBinaryOp(node: Node, reg: nat)
      requires Valid()
      modifies this
      ensures Valid()
      ensures State() == BinaryOpCode(old(State()))
    {
      EmitInstruction(Mov, [RegisterOperand(RAX), Immediate(1)]);
      EmitComment("Load B = TRUE");
      EmitInstruction(Mov, [RegisterOperand(RBX), Immediate(0)]);
      EmitComment("Load C = FALSE");
      EmitInstruction(Or, [RegisterOperand(RAX), RegisterOperand(RBX)]);
      EmitComment("B OR C (result in RAX)");
    }

    /** `generate_expression`. */
    method GenerateExpression(node: Option<Node>, reg: nat)
      requires Valid()
      modifies this
      ensures Valid()
      ensures State() == ExpressionCode(old(State()), node, reg)
    {
      if node.None? {
        return;
      }
      var n := node.value;
      if n.kind == IDENTIFIER {
        if IdentifierOf(n).Some? {
          GenerateIdentifier(IdentifierOf(n).value, reg);
        }
      } else if n.kind == BOOLEAN {
        EmitInstruction(Mov, [RegisterOperand(reg), Immediate(LiteralOf(n))]);
        EmitComment(if LiteralOf(n) != 0 then "TRUE" else "FALSE");
      } else if n.kind == OR {
        GenerateBinaryOp(n, reg);
      }
    }

    /** `generate_assignment`. */
    method GenerateAssignment(n: Node)
      requires Valid()
      modifies this, registerUsage
      ensures Valid()
      ensures State() == AssignmentCode(old(State()), n)
    {
      if VariableOf(n).None? {
        return;
      }
      var v := VariableOf(n).value;
      var reg := PrepareSlotAndRegister(v);
      GenerateExpression(ValueOf(n), reg);
      StoreValue(v, reg);
    }

    /** The first half of `generate_assignment`: the variable's slot, then a register. */
    method PrepareSlotAndRegister(v: string) returns (reg: nat)
      requires Valid()
      modifies this, registerUsage
      ensures Valid()
      ensures reg == AllocatedRegister(EnsureSlot(old(State()), v).usage)
      ensures State() == PrepareAssignment(old(State()), v)
    {
      var exists_ := SymbolExists(v);
      if !exists_ {
        AddSymbol(v, 1);
      }
      reg := AllocateRegister();
    }

    /** The second half of `generate_assignment`: the store into the slot, then the register freed. */
    method StoreValue(v: string, reg: nat)
      requires Valid()
      modifies this, registerUsage
      ensures Valid()
      ensures State() == StoreAndFree(old(State()), v, reg)
    {
      var offset := GetSymbolOffset(v);
      EmitInstruction(Mov, [Memory(RBX, -offset), RegisterOperand(reg)]);
      EmitComment(v);
      FreeRegister(reg);
    }

    /** `generate_statement`. */
    method GenerateStatement(n: Node)
      requires Valid()
      modifies this, registerUsage
      ensures Valid()
      ensures State() == StatementCode(old(State()), n)
    {
      if n.kind == ASSIGNMENT {
        GenerateAssignment(n);
      } else if n.kind == EXPRESSION_STMT {
        var reg := AllocateRegister();
        GenerateBinaryOp(SynthesizedOr(), reg);
        FreeRegister(reg);
      }
    }

    /** `generate_program`. */
    method GenerateProgram(node: Option<Node>)
      requires Valid()
      modifies this, registerUsage
      ensures Valid()
      ensures State() == ProgramCode(old(State()), node)
    {
      if node.None? || node.value.kind != PROGRAM {
        return;
      }
      var stmts := StatementsOf(node.value);
      ghost var g0 := State();
      for i := 0 to |stmts|
        invariant Valid()
        invariant State() == StatementsCode(g0, stmts[..i])
      {
        GenerateStatement(stmts[i]);
        assert stmts[..i + 1][..i] == stmts[..i];
      }
      assert stmts[..|stmts|] == stmts;
      EmitInstruction(Mov, [RegisterOperand(RAX), Immediate(0)]);
      EmitComment("Set exit code to 0");
    }
  }

  // ------------------------------------------------------------------ lemmas

  /**
   * In a well-formed map the lookup fails exactly when no entry has the name, and otherwise
   * answers with the first entry that has it.
   */
  lemma {:induction false} OffsetFound(m: seq<Slot>, name: string)
    requires Slotted(m)
    ensures OffsetOf(m, name) == -1 <==> forall k :: 0 <= k < |m| ==> m[k].name != name
    ensures OffsetOf(m, name) != -1 ==>
              exists k :: 0 <= k < |m| && m[k].name == name && m[k].offset == OffsetOf(m, name)
                          && forall j :: 0 <= j < k ==> m[j].name != name
  {
    if m != [] && m[0].name != name {
      assert Slotted(m[1..]) by {
        forall k | 0 <= k < |m[1..]|
          ensures m[1..][k].offset == 8 * (|m[1..]| - 1 - k)
        {
          assert m[1..][k] == m[k + 1];
        }
      }
      OffsetFound(m[1..], name);
      if OffsetOf(m, name) != -1 {
        var k :| 0 <= k < |m[1..]| && m[1..][k].name == name && m[1..][k].offset == OffsetOf(m, name)
                 && forall j :: 0 <= j < k ==> m[1..][j].name != name;
        assert m[k + 1] == m[1..][k];
        forall j | 0 <= j < k + 1
          ensures m[j].name != name
        {
          if j > 0 {
            assert m[j] == m[1..][j - 1];
          }
        }
      }
      assert forall k :: 1 <= k < |m| ==> m[k] == m[1..][k - 1];
    }
  }

  /** Stack slots are distinct, non-negative multiples of 8 below the stack offset. */
  lemma SlotsDistinct(g: GenState)
    requires WellFormed(g)
    ensures forall k :: 0 <= k < |g.symbols| ==>
              0 <= g.symbols[k].offset < g.stackOffset && g.symbols[k].offset % 8 == 0
    ensures forall i, j :: 0 <= i < j < |g.symbols| ==> g.symbols[i].offset > g.symbols[j].offset
  {
  }

  /** An emission followed by its comment appends exactly one commented instruction. */
  lemma EmitThenComment(g: GenState, op: Opcode, args: seq<Operand>, c: string)
    ensures Comment(Emit(g, op, args), c)
            == g.(instructions := g.instructions + [Commented(op, args, c)])
  {
    var e := Emit(g, op, args);
    assert e.instructions[..|e.instructions| - 1] == g.instructions;
  }

  /** `generate_binary_op` appends exactly its three instructions and changes nothing else. */
  lemma BinaryOpEmitsThree(g: GenState)
    ensures BinaryOpCode(g) == g.(instructions := g.instructions + BinaryOpInstructions())
  {
    var g1 := Comment(Emit(g, Mov, [RegisterOperand(RAX), Immediate(1)]), "Load B = TRUE");
    var g2 := Comment(Emit(g1, Mov, [RegisterOperand(RBX), Immediate(0)]), "Load C = FALSE");
    EmitThenComment(g, Mov, [RegisterOperand(RAX), Immediate(1)], "Load B = TRUE");
    EmitThenComment(g1, Mov, [RegisterOperand(RBX), Immediate(0)], "Load C = FALSE");
    EmitThenComment(g2, Or, [RegisterOperand(RAX), RegisterOperand(RBX)], "B OR C (result in RAX)");
    assert g.instructions + BinaryOpInstructions()
           == g.instructions + [BinaryOpInstructions()[0]] + [BinaryOpInstructions()[1]] + [BinaryOpInstructions()[2]];
  }

  /**
   * What `generate_expression` appends: one MOV of the immediate for a literal, the three
   * fixed instructions for an OR, nothing for a NULL node or an unsupported kind; for an
   * identifier, one MOV from its slot, with at most a slot added.
   */
  lemma ExpressionEmits(g: GenState, node: Option<Node>, reg: nat)
    ensures var r := ExpressionCode(g, node, reg);
            && (node.None? ==> r == g)
            && (node.Some? && node.value.kind == BOOLEAN ==>
                  r == g.(instructions := g.instructions + [Commented(Mov, [RegisterOperand(reg), Immediate(LiteralOf(node.value))],
                                                                     LiteralComment(LiteralOf(node.value)))]))
            && (node.Some? && node.value.kind == OR ==>
                  r == g.(instructions := g.instructions + BinaryOpInstructions()))
            && (node.Some? && node.value.kind !in {IDENTIFIER, BOOLEAN, OR} ==> r == g)
            && (node.Some? && node.value.kind == IDENTIFIER && IdentifierOf(node.value).Some? ==>
                  var name := IdentifierOf(node.value).value;
                  var g1 := EnsureSlot(g, name);
                  r == g1.(instructions := g.instructions + [Commented(Mov, [RegisterOperand(reg), Memory(RBX, -OffsetOf(g1.symbols, name))], name)]))
  {
    if node.Some? {
      var n := node.value;
      if n.kind == BOOLEAN {
        EmitThenComment(g, Mov, [RegisterOperand(reg), Immediate(LiteralOf(n))], LiteralComment(LiteralOf(n)));
      } else if n.kind == OR {
        BinaryOpEmitsThree(g);
      } else if n.kind == IDENTIFIER && IdentifierOf(n).Some? {
        var name := IdentifierOf(n).value;
        var g1 := EnsureSlot(g, name);
        EmitThenComment(g1, Mov, [RegisterOperand(reg), Memory(RBX, -OffsetOf(g1.symbols, name))], name);
      }
    }
  }

  /** The guard gives the name a slot and keeps the map well formed with distinct names. */
  lemma EnsureSlotEffect(g: GenState, name: string)
    requires WellFormed(g) && DistinctNames(g.symbols)
    ensures var r := EnsureSlot(g, name);
            && WellFormed(r) && DistinctNames(r.symbols)
            && r.instructions == g.instructions && r.usage == g.usage
            && KeepsSlots(g.symbols, r.symbols)
            && OffsetOf(r.symbols, name) != -1
  {
    OffsetFound(g.symbols, name);
    var r := EnsureSlot(g, name);
    if OffsetOf(g.symbols, name) == -1 {
      assert r.symbols[1..] == g.symbols;
      assert r.symbols[0].name == name;
    }
  }

  /** A generated expression keeps the map well formed with distinct names, old slots kept. */
  lemma ExpressionKeepsSlots(g: GenState, node: Option<Node>, reg: nat)
    requires WellFormed(g) && DistinctNames(g.symbols)
    ensures var r := ExpressionCode(g, node, reg);
            && WellFormed(r) && DistinctNames(r.symbols)
            && g.instructions <= r.instructions
            && KeepsSlots(g.symbols, r.symbols)
  {
    ExpressionEmits(g, node, reg);
    if node.Some? && node.value.kind == IDENTIFIER && IdentifierOf(node.value).Some? {
      EnsureSlotEffect(g, IdentifierOf(node.value).value);
    }
  }

  lemma KeepsSlotsTrans(a: seq<Slot>, b: seq<Slot>, c: seq<Slot>)
    requires KeepsSlots(a, b) && KeepsSlots(b, c)
    ensures KeepsSlots(a, c)
  {
    assert c[|c| - |a|..] == c[|c| - |b|..][|b| - |a|..];
  }

  /** A new head entry leaves the lookup of every other name as it was. */
  lemma OffsetOfOther(m: seq<Slot>, s: Slot, name: string)
    requires s.name != name
    ensures OffsetOf([s] + m, name) == OffsetOf(m, name)
  {
    assert ([s] + m)[1..] == m;
  }

  /**
   * A statement appends to the instructions, keeps the map well formed with distinct names
   * (a name gets a slot only once) and keeps the slots it had.
   */
  lemma StatementKeepsSlots(g: GenState, n: Node)
    requires WellFormed(g) && DistinctNames(g.symbols)
    ensures var r := StatementCode(g, n);
            && WellFormed(r) && DistinctNames(r.symbols)
            && g.instructions <= r.instructions
            && KeepsSlots(g.symbols, r.symbols)
  {
    if n.kind == ASSIGNMENT {
      AssignmentKeepsSlots(g, n);
    } else if n.kind == EXPRESSION_STMT {
      BinaryOpEmitsThree(g.(usage := AllocateUsage(g.usage)));
    }
  }

  /** An assignment: the same, one half at a time. */
  lemma AssignmentKeepsSlots(g: GenState, n: Node)
    requires WellFormed(g) && DistinctNames(g.symbols)
    ensures var r := AssignmentCode(g, n);
            && WellFormed(r) && DistinctNames(r.symbols)
            && g.instructions <= r.instructions
            && KeepsSlots(g.symbols, r.symbols)
  {
    if VariableOf(n).Some? {
      var v := VariableOf(n).value;
      var g1 := PrepareAssignment(g, v);
      PrepareKeepsSlots(g, v);
      var reg := AllocatedRegister(EnsureSlot(g, v).usage);
      var g2 := ExpressionCode(g1, ValueOf(n), reg);
      ExpressionKeepsSlots(g1, ValueOf(n), reg);
      StoreKeepsSlots(g2, v, reg);
      KeepsSlotsTrans(g.symbols, g1.symbols, g2.symbols);
    }
  }

  /** The first half of an assignment adds at most the variable's slot and emits nothing. */
  lemma PrepareKeepsSlots(g: GenState, v: string)
    requires WellFormed(g) && DistinctNames(g.symbols)
    ensures var r := PrepareAssignment(g, v);
            && WellFormed(r) && DistinctNames(r.symbols)
            && r.instructions == g.instructions
            && KeepsSlots(g.symbols, r.symbols)
            && OffsetOf(r.symbols, v) != -1
  {
    EnsureSlotEffect(g, v);
  }

  /** The second half appends the one commented store and leaves the slots alone. */
  lemma StoreKeepsSlots(g: GenState, v: string, reg: nat)
    requires WellFormed(g) && DistinctNames(g.symbols)
    ensures var r := StoreAndFree(g, v, reg);
            && WellFormed(r) && DistinctNames(r.symbols)
            && r.instructions == g.instructions + [Commented(Mov, [Memory(RBX, -OffsetOf(g.symbols, v)), RegisterOperand(reg)], v)]
  {
    EmitThenComment(g, Mov, [Memory(RBX, -OffsetOf(g.symbols, v)), RegisterOperand(reg)], v);
  }

  /** The statements together: the same, by induction over the statements. */
  lemma {:induction false} StatementsKeepSlots(g: GenState, stmts: seq<Node>)
    requires WellFormed(g) && DistinctNames(g.symbols)
    ensures var r := StatementsCode(g, stmts);
            && WellFormed(r) && DistinctNames(r.symbols)
            && g.instructions <= r.instructions
            && KeepsSlots(g.symbols, r.symbols)
    decreases |stmts|
  {
    if stmts != [] {
      var front := stmts[..|stmts| - 1];
      StatementsKeepSlots(g, front);
      var g1 := StatementsCode(g, front);
      StatementKeepsSlots(g1, stmts[|stmts| - 1]);
      var r := StatementsCode(g, stmts);
      KeepsSlotsTrans(g.symbols, g1.symbols, r.symbols);
    }
  }

  /**
   * `generate_program` on a PROGRAM emits its statements' code in order and then exactly one
   * `mov rax, 0` as the last instruction; on anything else it emits nothing. Along the way
   * each variable gets exactly one slot and the slots stay distinct multiples of 8.
   */
  lemma ProgramEndsWithExit(g: GenState, node: Option<Node>)
    requires WellFormed(g) && DistinctNames(g.symbols)
    ensures var r := ProgramCode(g, node);
            && WellFormed(r) && DistinctNames(r.symbols)
            && g.instructions <= r.instructions
            && (node.None? || node.value.kind != PROGRAM ==> r == g)
            && (node.Some? && node.value.kind == PROGRAM ==>
                  r.instructions == StatementsCode(g, StatementsOf(node.value)).instructions + [ExitInstruction()]
                  && r.instructions[|r.instructions| - 1] == ExitInstruction())
  {
    if node.Some? && node.value.kind == PROGRAM {
      var g1 := StatementsCode(g, StatementsOf(node.value));
      StatementsKeepSlots(g, StatementsOf(node.value));
      EmitThenComment(g1, Mov, [RegisterOperand(RAX), Immediate(0)], "Set exit code to 0");
    }
  }

  /** Allocating a free register and freeing it again restores the usage. */
  lemma AllocateThenFree(u: seq<int>)
    requires |u| == RegCount
    ensures (exists k :: 0 <= k < RegCount && u[k] == 0) ==>
              FreeUsage(AllocateUsage(u), AllocatedRegister(u)) == u
    ensures (forall k :: 0 <= k < RegCount ==> u[k] != 0) ==>
              FreeUsage(AllocateUsage(u), AllocatedRegister(u)) == u[RAX := 0]
  {
    AllocateEffect(u);
    var r := AllocatedRegister(u);
    if exists k :: 0 <= k < RegCount && u[k] == 0 {
      assert u[r := 1][r := 0] == u;
    }
  }

  /**
   * A statement gives back the register it took: usage afterwards equals usage before when a
   * register was free; when none was, RAX (returned by the fallback) ends up marked free.
   */
  lemma StatementRestoresRegisters(g: GenState, n: Node)
    requires |g.usage| == RegCount
    ensures (exists k :: 0 <= k < RegCount && g.usage[k] == 0) ==> StatementCode(g, n).usage == g.usage
    ensures (forall k :: 0 <= k < RegCount ==> g.usage[k] != 0) && n.kind in {ASSIGNMENT, EXPRESSION_STMT}
            && (n.kind == ASSIGNMENT ==> VariableOf(n).Some?)
            ==> StatementCode(g, n).usage == g.usage[RAX := 0]
  {
    AllocateThenFree(g.usage);
    if n.kind == ASSIGNMENT && VariableOf(n).Some? {
      var g1 := EnsureSlot(g, VariableOf(n).value);
      assert g1.usage == g.usage;
    } else if n.kind == EXPRESSION_STMT {
      BinaryOpEmitsThree(g.(usage := AllocateUsage(g.usage)));
    }
  }

  /** Starting with every register free, every register is free after any run of statements. */
  lemma {:induction false} StatementsKeepRegistersFree(g: GenState, stmts: seq<Node>)
    requires |g.usage| == RegCount && AllFree(g.usage)
    ensures StatementsCode(g, stmts).usage == g.usage
    decreases |stmts|
  {
    if stmts != [] {
      StatementsKeepRegistersFree(g, stmts[..|stmts| - 1]);
      var g1 := StatementsCode(g, stmts[..|stmts| - 1]);
      assert g1.usage[0] == 0;
      StatementRestoresRegisters(g1, stmts[|stmts| - 1]);
    }
  }

  /** Two ids give two different labels for a prefix when neither label is cut short. */
  lemma LabelsDistinct(prefix: string, i: int, j: int)
    requires |prefix| + 1 + |IntToString(i)| <= 63 && |prefix| + 1 + |IntToString(j)| <= 63
    ensures LabelText(prefix, i) == LabelText(prefix, j) <==> i == j
  {
    if LabelText(prefix, i) == LabelText(prefix, j) {
      var k := |prefix| + 1;
      assert IntToString(i) == LabelText(prefix, i)[k..];
      assert IntToString(j) == LabelText(prefix, j)[k..];
      ScanIntOfIntToString(i, []);
      ScanIntOfIntToString(j, []);
      assert IntToString(i) + [] == IntToString(i);
      assert IntToString(j) + [] == IntToString(j);
    }
  }

  /** Every x86-64 register name names its register back. */
  lemma RegisterNamesRoundTrip(reg: nat)
    requires reg < RegCount
    ensures RegisterNamed(RegisterToString(reg, X86_64)) == Some(reg)
  {
  }

  /** Every mnemonic but the LABEL's default names its opcode back; "nop" names none. */
  lemma MnemonicsRoundTrip(op: Opcode)
    ensures op != Label ==> OpcodeNamed(InstructionToString(op)) == Some(op)
    ensures OpcodeNamed(InstructionToString(Label)) == None
  {
  }
}
