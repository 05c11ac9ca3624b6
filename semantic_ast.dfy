/**
 * The tree node the phase-3 tools share (phase3/semantic_analyzer.h: `ASTNode`, redefined
 * for semantic analysis): an integer kind from the reloader's classification (PROGRAM = 1 …
 * EQUIV = 12), the text of the line it came from, its line number, the semantic
 * attributes the analyzer fills in, and the data union.
 */
module SemanticAst {
  import opened Wrappers
  import opened Symbols

  const PROGRAM: int := 1
  const ASSIGNMENT: int := 2
  const EXPRESSION_STMT: int := 3
  const IDENTIFIER: int := 4
  const BOOLEAN: int := 5
  const AND: int := 6
  const OR: int := 7
  const NOT: int := 8
  const XOR: int := 9
  const IMPLIES: int := 10
  const IFF: int := 11
  const EQUIV: int := 12

  /**
   * The `data` union as the phase-3 code fills it: all zero (every pointer NULL, every
   * number 0), an identifier name, a literal, or a program's statements (their number is
   * the program's `count`).
   */
  datatype Data = Zero | Identifier(name: string) | BoolLiteral(literal: int) | Program(statements: seq<Node>)

  datatype Node = Node(kind: int, typeStr: string, line: int, semanticType: SymbolType,
                       isConstant: int, boolValue: int, data: Data)

  /** `data.identifier`: NULL unless a name was stored. */
  function IdentifierOf(n: Node): Option<string> {
    match n.data
    case Identifier(s) => Some(s)
    case _ => None
  }

  /** `data.bool_literal`. */
  function LiteralOf(n: Node): int {
    match n.data
    case BoolLiteral(v) => v
    case _ => 0
  }

  /** `data.program.statements[0 .. count)`. */
  function StatementsOf(n: Node): seq<Node> {
    match n.data
    case Program(s) => s
    case _ => []
  }

  /**
   * `create_ast_node`: the kind, type string and line as given, semantic type UNKNOWN, not
   * constant, value 0, and the data union zeroed.
   */
  function CreateAstNode(kind: int, typeStr: string, line: int): (n: Node)
    ensures n.kind == kind && n.typeStr == typeStr && n.line == line
    ensures n.semanticType == SymUnknown && n.isConstant == 0 && n.boolValue == 0
    ensures IdentifierOf(n) == None && LiteralOf(n) == 0 && StatementsOf(n) == []
  {
    Node(kind, typeStr, line, SymUnknown, 0, 0, Zero)
  }
}
