/**
 * Phase 2 abstract syntax tree (phase2/ast.h, phase2/ast.c): node kinds, the node
 * constructors, the growable statement array of a PROGRAM node, the kind-to-name table and
 * the indented pre-order printer, which is modelled as the list of lines it writes.
 */
module Ast {
  import opened Wrappers
  import opened Text

  // The 0-based `ASTNodeType` enumeration.
  const IDENTIFIER: int := 0
  const BOOLEAN_LITERAL: int := 1
  const ASSIGNMENT: int := 2
  const AND: int := 3
  const OR: int := 4
  const XOR: int := 5
  const XNOR: int := 6
  const IMPLIES: int := 7
  const IFF: int := 8
  const EQUIV: int := 9
  const NOT: int := 10
  const EXISTS: int := 11
  const FORALL: int := 12
  const IF: int := 13
  const IFF_STMT: int := 14
  const PROGRAM: int := 15
  const STATEMENT_LIST: int := 16
  const EXPRESSION_STMT: int := 17

  predicate IsBinaryKind(kind: int) {
    AND <= kind <= EQUIV
  }

  /**
   * The `data` union of a node. A child pointer that may be NULL is an `Option<Node>`; a
   * program's statement array is given by its first `count` entries and its capacity.
   */
  datatype Payload =
    | Name(identifier: string)
    | BoolValue(flag: int)
    | Binary(left: Option<Node>, right: Option<Node>)
    | Unary(operand: Option<Node>)
    | Assign(variable: string, value: Option<Node>)
    | Quantifier(bound: string, expression: Option<Node>)
    | Statements(statements: seq<Option<Node>>, capacity: int)

  datatype Node = Node(kind: int, line: int, data: Payload)

  /*
   * Reading the union. Members of the same type at the same position share storage in C
   * (`binary.left` and `unary.operand`; `binary.right`, `assignment.value` and
   * `quantifier.expression`; the two variable names), so each accessor reads all of them.
   * Anything else reads as NULL (None) or 0.
   */

  function IdentifierOf(n: Node): Option<string> {
    match n.data
    case Name(s) => Some(s)
    case _ => None
  }

  function BoolOf(n: Node): int {
    match n.data
    case BoolValue(v) => v
    case _ => 0
  }

  function FirstChild(n: Node): Option<Node> {
    match n.data
    case Binary(l, _) => l
    case Unary(o) => o
    case _ => None
  }

  function SecondChild(n: Node): Option<Node> {
    match n.data
    case Binary(_, r) => r
    case Assign(_, v) => v
    case Quantifier(_, e) => e
    case _ => None
  }

  function VariableOf(n: Node): Option<string> {
    match n.data
    case Assign(v, _) => Some(v)
    case Quantifier(v, _) => Some(v)
    case _ => None
  }

  function StatementsOf(n: Node): seq<Option<Node>> {
    match n.data
    case Statements(s, _) => s
    case _ => []
  }

  // The constructors `create_*_node`. `malloc` and `strdup` are taken never to fail.

  function MakeIdentifier(name: string, line: int): (n: Node)
    ensures n.kind == IDENTIFIER && n.line == line
    ensures IdentifierOf(n) == Some(name)
  {
    Node(IDENTIFIER, line, Name(name))
  }

  function MakeBoolean(value: int, line: int): (n: Node)
    ensures n.kind == BOOLEAN_LITERAL && n.line == line
    ensures BoolOf(n) == value
  {
    Node(BOOLEAN_LITERAL, line, BoolValue(value))
  }

  function MakeBinary(kind: int, left: Option<Node>, right: Option<Node>, line: int): (n: Node)
    ensures n.kind == kind && n.line == line
    ensures FirstChild(n) == left && SecondChild(n) == right
  {
    Node(kind, line, Binary(left, right))
  }

  function MakeUnary(kind: int, operand: Option<Node>, line: int): (n: Node)
    ensures n.kind == kind && n.line == line
    ensures FirstChild(n) == operand && SecondChild(n) == None
  {
    Node(kind, line, Unary(operand))
  }

  function MakeAssignment(variable: string, value: Option<Node>, line: int): (n: Node)
    ensures n.kind == ASSIGNMENT && n.line == line
    ensures VariableOf(n) == Some(variable) && SecondChild(n) == value
  {
    Node(ASSIGNMENT, line, Assign(variable, value))
  }

  function MakeQuantifier(kind: int, variable: string, expression: Option<Node>, line: int): (n: Node)
    ensures n.kind == kind && n.line == line
    ensures VariableOf(n) == Some(variable) && SecondChild(n) == expression
  {
    Node(kind, line, Quantifier(variable, expression))
  }

  /** An expression statement keeps its expression in the unary operand slot. */
  function MakeExpressionStmt(expression: Option<Node>, line: int): (n: Node)
    ensures n.kind == EXPRESSION_STMT && n.line == line
    ensures FirstChild(n) == expression
  {
    Node(EXPRESSION_STMT, line, Unary(expression))
  }

  /**
   * A PROGRAM node as built by `create_program_node` and grown by
   * `add_statement_to_program`: a statement array with a capacity that doubles when full.
   * `kind` is a field like any other, so the guard in `AddStatement` is modelled too.
   */
  class ProgramNode {
    var kind: int
    var line: int
    var statements: array<Option<Node>>
    var count: int
    var capacity: int

    ghost predicate Valid()
      reads this
    {
      0 <= count <= capacity && capacity == statements.Length && capacity > 0
    }

    /** The statements added so far, in order. */
    function Contents(): seq<Option<Node>>
      reads this, statements
      requires Valid()
    {
      statements[..count]
    }

    /** `create_program_node`: a PROGRAM with no statements and room for ten. */
    constructor (line: int)
      ensures Valid() && fresh(statements)
      ensures kind == PROGRAM && this.line == line
      ensures count == 0 && capacity == 10 && Contents() == []
    {
      kind := PROGRAM;
      this.line := line;
      statements := new Option<Node>[10](_ => None);
      count := 0;
      capacity := 10;
    }

    /**
     * `add_statement_to_program`: on a PROGRAM or STATEMENT_LIST node the statement goes
     * after the existing ones, the array first doubling when it is full; on any other kind
     * of node nothing happens.
     */
    method AddStatement(statement: Option<Node>)
      requires Valid()
      modifies this, statements
      ensures Valid()
      ensures kind == old(kind) && line == old(line)
      ensures old(kind) != PROGRAM && old(kind) != STATEMENT_LIST ==>
                count == old(count) && capacity == old(capacity) && statements == old(statements)
                && Contents() == old(Contents())
      ensures old(kind) == PROGRAM || old(kind) == STATEMENT_LIST ==>
                Contents() == old(Contents()) + [statement] && count == old(count) + 1
                && capacity == (if old(count) >= old(capacity) then 2 * old(capacity) else old(capacity))
                && (old(count) < old(capacity) ==> statements == old(statements))
                && (old(count) >= old(capacity) ==> fresh(statements))
    {
      if kind != PROGRAM && kind != STATEMENT_LIST {
        return;
      }
      if count >= capacity {
        var grown := new Option<Node>[capacity * 2](_ => None);
        var i := 0;
        while i < count
          invariant 0 <= i <= count
          invariant grown[..i] == statements[..i]
          modifies grown
        {
          grown[i] := statements[i];
          i := i + 1;
        }
        statements := grown;
        capacity := capacity * 2;
      }
      statements[count] := statement;
      count := count + 1;
    }

    /** The node as a value, for printing. */
    function Snapshot(): (n: Node)
      reads this, statements
      requires Valid()
      ensures n.kind == kind && n.line == line && StatementsOf(n) == Contents()
    {
      Node(kind, line, Statements(Contents(), capacity))
    }
  }

  /** `ast_node_type_to_string`. */
  function KindName(kind: int): (r: string)
    ensures (0 <= kind <= EXPRESSION_STMT) == (r != "UNKNOWN")
  {
    if kind == IDENTIFIER then "IDENTIFIER"
    else if kind == BOOLEAN_LITERAL then "BOOLEAN"
    else if kind == ASSIGNMENT then "ASSIGNMENT"
    else if kind == AND then "AND"
    else if kind == OR then "OR"
    else if kind == XOR then "XOR"
    else if kind == XNOR then "XNOR"
    else if kind == NOT then "NOT"
    else if kind == IMPLIES then "IMPLIES"
    else if kind == IFF then "IFF"
    else if kind == EQUIV then "EQUIV"
    else if kind == EXISTS then "EXISTS"
    else if kind == FORALL then "FORALL"
    else if kind == IF then "IF"
    else if kind == IFF_STMT then "IFF_STMT"
    else if kind == PROGRAM then "PROGRAM"
    else if kind == STATEMENT_LIST then "STMT_LIST"
    else if kind == EXPRESSION_STMT then "EXPR_STMT"
    else "UNKNOWN"
  }

  /** The eighteen declared kinds have pairwise different names. */
  lemma KindNamesDistinct(a: int, b: int)
    requires 0 <= a <= EXPRESSION_STMT && 0 <= b <= EXPRESSION_STMT && a != b
    ensures KindName(a) != KindName(b)
  {
    assert KindOfName(KindName(a)) == a;
    assert KindOfName(KindName(b)) == b;
  }

  /** Reading a kind name back; the left inverse of `KindName` on the declared kinds. */
  function KindOfName(s: string): int {
    if s == "IDENTIFIER" then IDENTIFIER
    else if s == "BOOLEAN" then BOOLEAN_LITERAL
    else if s == "ASSIGNMENT" then ASSIGNMENT
    else if s == "AND" then AND
    else if s == "OR" then OR
    else if s == "XOR" then XOR
    else if s == "XNOR" then XNOR
    else if s == "NOT" then NOT
    else if s == "IMPLIES" then IMPLIES
    else if s == "IFF" then IFF
    else if s == "EQUIV" then EQUIV
    else if s == "EXISTS" then EXISTS
    else if s == "FORALL" then FORALL
    else if s == "IF" then IF
    else if s == "IFF_STMT" then IFF_STMT
    else if s == "PROGRAM" then PROGRAM
    else if s == "STMT_LIST" then STATEMENT_LIST
    else if s == "EXPR_STMT" then EXPRESSION_STMT
    else -1
  }

  // ---------------------------------------------------------------- printing

  function LineSuffix(line: int): string {
    " (line " + IntToString(line) + ")"
  }

  /** `printf("%s")` of a string pointer that may be NULL, as the C library writes it. */
  function ShowString(s: Option<string>): string {
    s.GetOr("(null)")
  }

  /** The text of a node's first printed line, after its indentation. */
  function Header(n: Node): string {
    var k := n.kind;
    if k == IDENTIFIER then "IDENTIFIER: " + ShowString(IdentifierOf(n)) + LineSuffix(n.line)
    else if k == BOOLEAN_LITERAL then
      "BOOLEAN: " + (if BoolOf(n) != 0 then "TRUE" else "FALSE") + LineSuffix(n.line)
    else if k == ASSIGNMENT then "ASSIGNMENT" + LineSuffix(n.line)
    else if IsBinaryKind(k) || k == EXISTS || k == FORALL then KindName(k) + LineSuffix(n.line)
    else if k == NOT then "NOT" + LineSuffix(n.line)
    else if k == PROGRAM then
      "PROGRAM" + LineSuffix(n.line) + " - " + IntToString(|StatementsOf(n)|) + " statements"
    else if k == EXPRESSION_STMT then "EXPRESSION_STMT" + LineSuffix(n.line)
    else "UNKNOWN NODE TYPE"
  }

  /** The label printed before the i-th statement of a program (numbered from 1). */
  function StatementLabel(indent: int, number: int): string {
    Pad(indent + 1) + "Statement " + IntToString(number) + ":"
  }

  /** Tree size, the termination measure of the printer. */
  function Size(n: Option<Node>): nat {
    match n
    case None => 1
    case Some(x) => 2 + PayloadSize(x.data)
  }

  function PayloadSize(p: Payload): nat {
    match p
    case Binary(l, r) => Size(l) + Size(r)
    case Unary(o) => Size(o)
    case Assign(_, v) => Size(v)
    case Quantifier(_, e) => Size(e)
    case Statements(s, _) => SeqSize(s)
    case _ => 0
  }

  function SeqSize(s: seq<Option<Node>>): nat {
    if s == [] then 0 else Size(s[0]) + SeqSize(s[1..])
  }

  /**
   * `print_ast(node, indent)`: the lines it writes, without their newlines. Every line carries
   * at least the node's own indentation (two spaces per level), and the first line is
   * the node's header, or "(null)" for a NULL node.
   */
  function PrintAst(node: Option<Node>, indent: int): (r: seq<string>)
    ensures |r| >= 1
    ensures node.None? ==> r == [Pad(indent) + "(null)"]
    ensures node.Some? ==> r[0] == Pad(indent) + Header(node.value)
    ensures forall k :: 0 <= k < |r| ==> Pad(indent) <= r[k]
    decreases Size(node), 3
  {
    match node
    case None => [Pad(indent) + "(null)"]
    case Some(n) => [Pad(indent) + Header(n)] + PrintBody(n, indent)
  }

  /** The lines `print_ast` writes for a node after its header: assignments and operators. */
  function PrintBody(n: Node, indent: int): (r: seq<string>)
    ensures forall k :: 0 <= k < |r| ==> Pad(indent) <= r[k]
    decreases Size(Some(n)), 2
  {
    ChildSmaller(n);
    PadGrows(indent, 1);
    PadGrows(indent, 2);
    var k := n.kind;
    if k == ASSIGNMENT then
      [Pad(indent + 1) + "Variable: " + ShowString(VariableOf(n)), Pad(indent + 1) + "Value:"]
      + PrintAst(SecondChild(n), indent + 2)
    else if IsBinaryKind(k) then
      [Pad(indent + 1) + "Left:"] + PrintAst(FirstChild(n), indent + 2)
      + [Pad(indent + 1) + "Right:"] + PrintAst(SecondChild(n), indent + 2)
    else if k == NOT then
      [Pad(indent + 1) + "Operand:"] + PrintAst(FirstChild(n), indent + 2)
    else
      PrintOtherBody(n, indent)
  }

  /** The rest of `print_ast`'s cases: quantifiers, programs and expression statements. */
  function PrintOtherBody(n: Node, indent: int): (r: seq<string>)
    ensures forall k :: 0 <= k < |r| ==> Pad(indent) <= r[k]
    decreases Size(Some(n)), 1
  {
    ChildSmaller(n);
    PadGrows(indent, 1);
    PadGrows(indent, 2);
    var k := n.kind;
    if k == EXISTS || k == FORALL then
      [Pad(indent + 1) + "Variable: " + ShowString(VariableOf(n)), Pad(indent + 1) + "Expression:"]
      + PrintAst(SecondChild(n), indent + 2)
    else if k == PROGRAM then
      PrintStatements(n, StatementsOf(n), indent, 1)
    else if k == EXPRESSION_STMT then
      PrintAst(FirstChild(n), indent + 1)
    else
      []
  }

  /**
   * The part of a PROGRAM's printout after its header: for each statement, the label
   * "Statement i:" one level in, numbered from `first`, then the statement two levels in.
   */
  function PrintStatements(parent: Node, stmts: seq<Option<Node>>, indent: int, first: int): (r: seq<string>)
    requires SeqSize(stmts) < Size(Some(parent))
    ensures forall k :: 0 <= k < |r| ==> Pad(indent) <= r[k]
    ensures |r| >= 2 * |stmts|
    decreases Size(Some(parent)), 0, |stmts|
  {
    if stmts == [] then []
    else
      PadGrows(indent, 1);
      PadGrows(indent, 2);
      [StatementLabel(indent, first)] + PrintAst(stmts[0], indent + 2)
      + PrintStatements(parent, stmts[1..], indent, first + 1)
  }

  lemma ChildSmaller(n: Node)
    ensures Size(FirstChild(n)) < Size(Some(n)) && Size(SecondChild(n)) < Size(Some(n))
    ensures SeqSize(StatementsOf(n)) < Size(Some(n))
  {
  }

  lemma PadGrows(indent: int, more: nat)
    ensures Pad(indent) <= Pad(indent + more)
  {
    var a, b := Pad(indent), Pad(indent + more);
    assert |a| <= |b|;
    assert forall k :: 0 <= k < |a| ==> a[k] == b[k];
  }

  // ------------------------------------------------------------- printed layout

  /** A printed line whose text starts exactly `depth` levels in. */
  predicate AtDepth(line: string, depth: int) {
    depth >= 0 && |line| > 2 * depth && Pad(depth) <= line && line[2 * depth] != ' '
  }

  /** The lines that start exactly `depth` levels in, in their printed order. */
  function LinesAtDepth(lines: seq<string>, depth: int): seq<string> {
    if lines == [] then []
    else (if AtDepth(lines[0], depth) then [lines[0]] else []) + LinesAtDepth(lines[1..], depth)
  }

  /** The statement labels numbered `first`, `first + 1`, …, `n` of them. */
  function Labels(indent: int, first: int, n: nat): (r: seq<string>)
    ensures |r| == n && forall i :: 0 <= i < n ==> r[i] == StatementLabel(indent, first + i)
    decreases n
  {
    if n == 0 then [] else [StatementLabel(indent, first)] + Labels(indent, first + 1, n - 1)
  }

  lemma {:induction false} LinesAtDepthConcat(a: seq<string>, b: seq<string>, depth: int)
    ensures LinesAtDepth(a + b, depth) == LinesAtDepth(a, depth) + LinesAtDepth(b, depth)
    decreases |a|
  {
    if a != [] {
      var head := if AtDepth(a[0], depth) then [a[0]] else [];
      assert (a + b)[0] == a[0] && (a + b)[1..] == a[1..] + b;
      assert LinesAtDepth(a + b, depth) == head + LinesAtDepth(a[1..] + b, depth);
      LinesAtDepthConcat(a[1..], b, depth);
      assert LinesAtDepth(a, depth) == head + LinesAtDepth(a[1..], depth);
    } else {
      assert a + b == b;
    }
  }

  /** Lines indented deeper than `depth` levels are not at that depth. */
  lemma {:induction false} DeeperLines(lines: seq<string>, depth: int)
    requires depth >= 0 && forall k :: 0 <= k < |lines| ==> Pad(depth + 1) <= lines[k]
    ensures LinesAtDepth(lines, depth) == []
    decreases |lines|
  {
    if lines != [] {
      assert Pad(depth + 1)[2 * depth] == ' ';
      DeeperLines(lines[1..], depth);
    }
  }

  /** A label line, then lines deeper than it, then more: the label is the first line at its depth. */
  lemma LabelThenDeeper(lab: string, child: seq<string>, rest: seq<string>, depth: int)
    requires AtDepth(lab, depth) && LinesAtDepth(child, depth) == []
    ensures LinesAtDepth([lab] + child + rest, depth) == [lab] + LinesAtDepth(rest, depth)
  {
    LinesAtDepthConcat([lab] + child, rest, depth);
    LinesAtDepthConcat([lab], child, depth);
    assert LinesAtDepth([lab], depth) == [lab] by {
      assert [lab][1..] == [];
    }
  }

  lemma PrintStatementsUnfold(parent: Node, stmts: seq<Option<Node>>, indent: int, first: int)
    requires SeqSize(stmts) < Size(Some(parent)) && stmts != []
    ensures SeqSize(stmts[1..]) < Size(Some(parent))
    ensures PrintStatements(parent, stmts, indent, first)
            == [StatementLabel(indent, first)] + PrintAst(stmts[0], indent + 2)
               + PrintStatements(parent, stmts[1..], indent, first + 1)
  {
  }

  lemma LabelAtDepth(indent: int, number: int)
    requires indent >= 0
    ensures AtDepth(StatementLabel(indent, number), indent + 1)
  {
    var p := Pad(indent + 1);
    assert StatementLabel(indent, number) == p + ("Statement " + IntToString(number) + ":");
    assert StatementLabel(indent, number)[|p|] == 'S';
  }

  lemma HeaderNotDeeper(n: Node, indent: int)
    requires n.kind == PROGRAM && indent >= 0
    ensures !AtDepth(Pad(indent) + Header(n), indent + 1)
  {
    var p := Pad(indent);
    assert Header(n)[0] == 'P';
    assert (p + Header(n))[|p|] == 'P';
    assert Pad(indent + 1)[|p|] == ' ';
  }

  /**
   * Among the lines a program's statements print, the ones one level below the program are
   * exactly the labels "Statement i:", numbered on from `first`, one per statement in order.
   */
  lemma {:induction false} StatementLabelsAtDepth(parent: Node, stmts: seq<Option<Node>>, indent: int, first: int)
    requires SeqSize(stmts) < Size(Some(parent)) && indent >= 0
    ensures LinesAtDepth(PrintStatements(parent, stmts, indent, first), indent + 1) == Labels(indent, first, |stmts|)
    decreases |stmts|
  {
    if stmts != [] {
      StatementStep(parent, stmts, indent, first);
      StatementLabelsAtDepth(parent, stmts[1..], indent, first + 1);
      assert Labels(indent, first, |stmts|) == [StatementLabel(indent, first)] + Labels(indent, first + 1, |stmts[1..]|);
    }
  }

  /** One statement's share of a program printout: its label, then nothing else at that depth. */
  lemma StatementStep(parent: Node, stmts: seq<Option<Node>>, indent: int, first: int)
    requires SeqSize(stmts) < Size(Some(parent)) && indent >= 0 && stmts != []
    ensures SeqSize(stmts[1..]) < Size(Some(parent))
    ensures LinesAtDepth(PrintStatements(parent, stmts, indent, first), indent + 1)
            == [StatementLabel(indent, first)] + LinesAtDepth(PrintStatements(parent, stmts[1..], indent, first + 1), indent + 1)
  {
    var lab := StatementLabel(indent, first);
    var child := PrintAst(stmts[0], indent + 2);
    var rest := PrintStatements(parent, stmts[1..], indent, first + 1);
    PrintStatementsUnfold(parent, stmts, indent, first);
    LabelAtDepth(indent, first);
    DeeperLines(child, indent + 1);
    LabelThenDeeper(lab, child, rest, indent + 1);
  }

  /**
   * The printout of a PROGRAM: below its header line, the lines one level in are
   * "Statement 1:" … "Statement count:", in order, with each statement printed deeper.
   */
  lemma ProgramLayout(n: Node, indent: int)
    requires n.kind == PROGRAM && indent >= 0
    ensures LinesAtDepth(PrintAst(Some(n), indent), indent + 1) == Labels(indent, 1, |StatementsOf(n)|)
  {
    ChildSmaller(n);
    var head := Pad(indent) + Header(n);
    var body := PrintStatements(n, StatementsOf(n), indent, 1);
    assert PrintOtherBody(n, indent) == body;
    assert PrintBody(n, indent) == body;
    assert PrintAst(Some(n), indent) == [head] + body;
    HeaderNotDeeper(n, indent);
    StatementLabelsAtDepth(n, StatementsOf(n), indent, 1);
    LinesAtDepthConcat([head], body, indent + 1);
  }
}
