/**
 * The tree the code generator works on (phase4/code_generator.h: the simplified `ASTNode`):
 * an integer kind (PROGRAM = 1, ASSIGNMENT = 2, EXPRESSION_STMT = 3, IDENTIFIER = 4,
 * BOOLEAN = 5, OR = 7, …), a type string, a line number and the data union.
 */
module CodeGenAst {
  import opened Wrappers

  const PROGRAM: int := 1
  const ASSIGNMENT: int := 2
  const EXPRESSION_STMT: int := 3
  const IDENTIFIER: int := 4
  const BOOLEAN: int := 5
  const OR: int := 7

  /** A program holds at most this many statements (the loader allocates ten slots). */
  const MaxStatements: int := 10

  /**
   * The `data` union as the phase-4 code fills it: all zero, an identifier, a literal, an
   * assignment's variable and value (either may be NULL), or a program's statements.
   */
  datatype Data =
    | Zero
    | Identifier(name: string)
    | BoolLiteral(literal: int)
    | Assignment(variable: Option<string>, value: Option<Node>)
    | Program(statements: seq<Node>)

  datatype Node = Node(kind: int, typeStr: string, line: int, data: Data)

  /** `data.identifier`. */
  function IdentifierOf(n: Node): Option<string> {
    match n.data
    case Identifier(s) => Some(s)
    case _ => None
  }

  /** `data.bool_literal`. */
  function LiteralOf(n: Node): int {
    match n.data
    case BoolLiteral(v) => v
    case _ => 0
  }

  /** `data.assignment.variable`. */
  function VariableOf(n: Node): Option<string> {
    match n.data
    case Assignment(v, _) => v
    case _ => None
  }

  /** `data.assignment.value`. */
  function ValueOf(n: Node): Option<Node> {
    match n.data
    case Assignment(_, v) => v
    case _ => None
  }

  /** `data.program.statements[0 .. count)`. */
  function StatementsOf(n: Node): seq<Node> {
    match n.data
    case Program(s) => s
    case _ => []
  }

  /** `create_ast_node`: kind, type string and line as given, data union zeroed. */
  function CreateAstNode(kind: int, typeStr: string, line: int): (n: Node)
    ensures n.kind == kind && n.typeStr == typeStr && n.line == line
    ensures IdentifierOf(n) == None && LiteralOf(n) == 0
    ensures VariableOf(n) == None && ValueOf(n) == None && StatementsOf(n) == []
  {
    Node(kind, typeStr, line, Zero)
  }

  /** A BOOLEAN literal node, as the reloader attaches to an assignment. */
  function BooleanNode(literal: int, line: int): (n: Node)
    ensures n.kind == BOOLEAN && n.typeStr == "BOOLEAN" && n.line == line && LiteralOf(n) == literal
  {
    CreateAstNode(BOOLEAN, "BOOLEAN", line).(data := BoolLiteral(literal))
  }

  /** Storing an assignment's variable, keeping its value. */
  function WithVariable(n: Node, v: string): (r: Node)
    ensures r.kind == n.kind && r.line == n.line && VariableOf(r) == Some(v) && ValueOf(r) == ValueOf(n)
  {
    n.(data := Assignment(Some(v), ValueOf(n)))
  }

  /** Storing an assignment's value, keeping its variable. */
  function WithValue(n: Node, v: Node): (r: Node)
    ensures r.kind == n.kind && r.line == n.line && VariableOf(r) == VariableOf(n) && ValueOf(r) == Some(v)
  {
    n.(data := Assignment(VariableOf(n), Some(v)))
  }
}
