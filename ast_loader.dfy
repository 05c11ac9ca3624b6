/**
 * The phase-3 reloader (phase3/ast_loader.c): it reads the indented tree text written by
 * phase 2 line by line and rebuilds a PROGRAM root holding at most ten direct statements.
 * The file is a sequence of lines as `fgets` returns them (a line may keep its newline).
 */
module AstLoader {
  import opened Wrappers
  import opened Text
  import opened LoaderText
  import opened SemanticAst

  /** The number of leading space characters (spaces only, not other white space). */
  function LeadingSpaces(s: string): (n: nat)
    ensures n <= |s| && (forall k :: 0 <= k < n ==> s[k] == ' ') && (n == |s| || s[n] != ' ')
  {
    if s != [] && s[0] == ' ' then 1 + LeadingSpaces(s[1..]) else 0
  }

  /** What `parse_ast_line` reports: whether there is any text, the text, and the depth. */
  datatype LineInfo = LineInfo(ok: bool, info: string, indent: int)

  /**
   * `parse_ast_line`: the depth is half the number of leading spaces (rounded down), the
   * text is the trimmed remainder, which is the whole line trimmed, and the line counts
   * when that text is not empty.
   */
  function ParseAstLine(line: string): (r: LineInfo)
    ensures r.indent == LeadingSpaces(line) / 2
    ensures r.info == Trim(line)
    ensures r.ok <==> exists k :: 0 <= k < |line| && !IsSpace(line[k])
  {
    var n := LeadingSpaces(line);
    var info := Trim(line[n..]);
    TrimAfterSpaces(line, n);
    LineInfo(|info| > 0, info, n / 2)
  }

  lemma TrimAfterSpaces(s: string, n: nat)
    requires n <= |s| && forall k :: 0 <= k < n ==> s[k] == ' '
    ensures Trim(s[n..]) == Trim(s)
  {
    TrimLeftAfterSpaces(s, n);
  }

  lemma {:induction false} TrimLeftAfterSpaces(s: string, n: nat)
    requires n <= |s| && forall k :: 0 <= k < n ==> s[k] == ' '
    ensures TrimLeft(s[n..]) == TrimLeft(s)
    decreases n
  {
    if n > 0 {
      assert s[1..][n - 1..] == s[n..];
      TrimLeftAfterSpaces(s[1..], n - 1);
    }
  }

  /**
   * The name on an IDENTIFIER line: after the first ':', past any spaces, up to the next
   * space or the end. None when the line has no ':'.
   */
  function NameAfterColon(info: string): (r: Option<string>)
    ensures r.None? <==> !Contains(info, ":")
    ensures r.Some? ==>
              var c := FindFirst(info, ":");
              var j := c + 1 + LeadingSpaces(info[c + 1..]);
              var e := j + |r.value|;
              && e <= |info| && r.value == info[j..e]
              && (forall k :: c < k < j ==> info[k] == ' ')
              && (forall k :: j <= k < e ==> info[k] != ' ')
              && (e == |info| || info[e] == ' ')
  {
    var c := FindFirst(info, ":");
    if c < 0 then None
    else
      var rest := info[c + 1..];
      var j := c + 1 + LeadingSpaces(rest);
      var name := FirstWord(info[j..]);
      NameAfterColonShape(info, c, j, name);
      Some(name)
  }

  /** The text up to the first space (all of it when there is none). */
  function FirstWord(t: string): (w: string)
    ensures |w| <= |t| && w == t[..|w|]
    ensures forall k :: 0 <= k < |w| ==> w[k] != ' '
    ensures |w| == |t| || t[|w|] == ' '
  {
    var e := FindFirst(t, " ");
    if e < 0 then
      NoSpace(t);
      t
    else
      assert OccursAt(t, " ", e);
      FirstWordShape(t, e);
      t[..e]
  }

  lemma NoSpace(t: string)
    requires !Contains(t, " ")
    ensures forall k :: 0 <= k < |t| ==> t[k] != ' '
  {
    forall k | 0 <= k < |t| ensures t[k] != ' ' {
      SpaceAt(t, k);
    }
  }

  lemma SpaceAt(t: string, k: int)
    requires 0 <= k < |t|
    ensures t[k] == ' ' ==> Contains(t, " ")
  {
    if t[k] == ' ' {
      assert t[k..k + 1] == " ";
      ContainsAt(t, " ", k);
    }
  }

  lemma FirstWordShape(t: string, e: int)
    requires 0 <= e < |t| && t[e..e + 1] == " "
    requires forall k :: 0 <= k < e ==> !OccursAt(t, " ", k)
    ensures forall k :: 0 <= k < e ==> t[k] != ' '
    ensures t[e] == ' '
  {
    forall k | 0 <= k < e ensures t[k] != ' ' {
      assert !OccursAt(t, " ", k);
      assert t[k..k + 1] == [t[k]];
    }
    assert t[e] == t[e..e + 1][0];
  }

  lemma NameAfterColonShape(info: string, c: int, j: int, name: string)
    requires 0 <= c < |info| && j == c + 1 + LeadingSpaces(info[c + 1..]) && name == FirstWord(info[j..])
    ensures var e := j + |name|;
            && e <= |info| && name == info[j..e]
            && (forall k :: c < k < j ==> info[k] == ' ')
            && (forall k :: j <= k < e ==> info[k] != ' ')
            && (e == |info| || info[e] == ' ')
  {
    var rest := info[c + 1..];
    forall k | c < k < j ensures info[k] == ' ' {
      assert info[k] == rest[k - c - 1];
    }
    forall k | j <= k < j + |name| ensures info[k] != ' ' {
      assert info[k] == name[k - j];
    }
  }

  /**
   * `extract_node_data`: an IDENTIFIER takes the name after its colon; a BOOLEAN becomes a
   * constant 1 when the text mentions TRUE, else a constant 0 when it mentions FALSE, else
   * stays as it is; an ASSIGNMENT gets a NULL variable and value; other kinds are untouched.
   */
  function ExtractNodeData(node: Node, info: string): (r: Node)
    ensures r.kind == node.kind && r.typeStr == node.typeStr && r.line == node.line
    ensures r.semanticType == node.semanticType
    ensures node.kind == IDENTIFIER ==>
              if Contains(info, ":") then r == node.(data := Identifier(NameAfterColon(info).value)) else r == node
    ensures node.kind == BOOLEAN ==>
              if Contains(info, "TRUE") then LiteralOf(r) == 1 && r.isConstant == 1 && r.boolValue == 1
              else if Contains(info, "FALSE") then LiteralOf(r) == 0 && r.isConstant == 1 && r.boolValue == 0
              else r == node
    ensures node.kind == ASSIGNMENT ==> r == node.(data := Zero)
    ensures node.kind != IDENTIFIER && node.kind != BOOLEAN && node.kind != ASSIGNMENT ==> r == node
  {
    if node.kind == IDENTIFIER then
      match NameAfterColon(info)
      case None => node
      case Some(name) => node.(data := Identifier(name))
    else if node.kind == BOOLEAN then
      if Contains(info, "TRUE") then node.(data := BoolLiteral(1), isConstant := 1, boolValue := 1)
      else if Contains(info, "FALSE") then node.(data := BoolLiteral(0), isConstant := 1, boolValue := 0)
      else node
    else if node.kind == ASSIGNMENT then node.(data := Zero)
    else node
  }

  /** The N of the first "(line N)" in the text, read as `sscanf` reads it; 1 when absent or unreadable. */
  function LineOf(info: string): int {
    var m := FindFirst(info, "(line ");
    if m < 0 then 1 else ScanInt(info[m + 6..]).GetOr(1)
  }

  /** Reading back a line number printed as "(line N)" after text without a '('. */
  lemma LineOfPrinted(pre: string, n: int, post: string)
    requires '(' !in pre
    ensures LineOf(pre + "(line " + IntToString(n) + ")" + post) == n
  {
    var s := pre + "(line " + IntToString(n) + ")" + post;
    var m := FindFirst(s, "(line ");
    assert s[|pre|..|pre| + 6] == "(line ";
    assert OccursAt(s, "(line ", |pre|);
    forall k | 0 <= k < |pre| ensures !OccursAt(s, "(line ", k) {
      assert s[k] == pre[k];
    }
    assert s[m + 6..] == IntToString(n) + (")" + post);
    ScanIntOfIntToString(n, ")" + post);
  }

  /** Lines the loop passes over: comments, empty lines and lines of white space only. */
  predicate Skipped(line: string) {
    (line != [] && (line[0] == '#' || line[0] == '\n')) || Trim(line) == []
  }

  /** The kind a line is classified as; 0 for a skipped or unrecognised line. */
  function LineKind(line: string): (k: int)
    ensures 0 <= k <= 12
  {
    if Skipped(line) then 0 else ParseNodeType(Trim(line))
  }

  /** The node a line gives: created from its trimmed text, its line number and kind, then filled in. */
  function LineNode(line: string): Node {
    var info := Trim(line);
    ExtractNodeData(CreateAstNode(ParseNodeType(info), info, LineOf(info)), info)
  }

  const MaxStatements: int := 10

  /** One pass of the loop body on the root built so far. */
  function Step(root: Option<Node>, line: string): Option<Node> {
    var k := LineKind(line);
    if k == PROGRAM && root.None? then
      Some(LineNode(line).(data := Program([])))
    else if (k == ASSIGNMENT || k == EXPRESSION_STMT) && root.Some? && |StatementsOf(root.value)| < MaxStatements then
      Some(root.value.(data := Program(StatementsOf(root.value) + [LineNode(line)])))
    else
      root
  }

  /** The root after reading `lines` from the start. */
  function Load(lines: seq<string>): Option<Node> {
    if lines == [] then None else Step(Load(lines[..|lines| - 1]), lines[|lines| - 1])
  }

  /** `load_ast_from_file` over the lines of the file. */
  method LoadAstFromFile(lines: seq<string>) returns (root: Option<Node>)
    ensures root == Load(lines)
  {
    root := None;
    var i := 0;
    while i < |lines|
      invariant 0 <= i <= |lines|
      invariant root == Load(lines[..i])
    {
      assert lines[..i + 1][..i] == lines[..i];
      root := LoadLine(root, lines[i]);
      i := i + 1;
    }
    assert lines[..i] == lines;
  }

  /** The body of the reading loop for one line. */
  method LoadLine(root: Option<Node>, line: string) returns (next: Option<Node>)
    ensures next == Step(root, line)
  {
    next := root;
    if (line != [] && (line[0] == '#' || line[0] == '\n')) || |Trim(line)| == 0 {
      return;
    }
    var parsed := ParseAstLine(line);
    ParsedLine(line);
    if !parsed.ok {
      return;
    }
    var info := parsed.info;
    var lineNum := LineOf(info);
    var nodeType := ParseNodeType(info);
    assert nodeType == LineKind(line);
    if nodeType > 0 {
      var node := CreateAstNode(nodeType, info, lineNum);
      node := ExtractNodeData(node, info);
      assert node == LineNode(line);
      if nodeType == PROGRAM && root.None? {
        next := Some(node.(data := Program([])));
      } else if nodeType == ASSIGNMENT || nodeType == EXPRESSION_STMT {
        if root.Some? && |StatementsOf(root.value)| < MaxStatements {
          next := Some(root.value.(data := Program(StatementsOf(root.value) + [node])));
        }
      }
    }
  }

  /** A line the loop does not pass over has text, and its kind and node come from that text. */
  lemma ParsedLine(line: string)
    requires !Skipped(line)
    ensures ParseAstLine(line).ok && ParseAstLine(line).info == Trim(line)
    ensures LineKind(line) == ParseNodeType(Trim(line))
  {
    var t := Trim(line);
    assert t != [];
    var k :| 0 <= k < |line| && !IsSpace(line[k]);
  }

  // ------------------------------------------------------------- what a load yields

  /** The root is a PROGRAM holding at most ten statements, each an ASSIGNMENT or EXPRESSION_STMT. */
  lemma {:induction false} LoadShape(lines: seq<string>)
    ensures Load(lines).Some? ==>
              var root := Load(lines).value;
              && root.kind == PROGRAM && root.data.Program?
              && |StatementsOf(root)| <= MaxStatements
              && forall k :: 0 <= k < |StatementsOf(root)| ==>
                   StatementsOf(root)[k].kind == ASSIGNMENT || StatementsOf(root)[k].kind == EXPRESSION_STMT
  {
    if lines != [] {
      LoadShape(lines[..|lines| - 1]);
    }
  }

  /** The nodes of the ASSIGNMENT and EXPRESSION_STMT lines, in file order. */
  function StatementNodes(lines: seq<string>): seq<Node> {
    if lines == [] then []
    else
      var last := lines[|lines| - 1];
      StatementNodes(lines[..|lines| - 1])
      + (if LineKind(last) == ASSIGNMENT || LineKind(last) == EXPRESSION_STMT then [LineNode(last)] else [])
  }

  function Take(s: seq<Node>, n: nat): seq<Node> {
    if |s| <= n then s else s[..n]
  }

  predicate NoProgramLine(lines: seq<string>) {
    forall k :: 0 <= k < |lines| ==> LineKind(lines[k]) != PROGRAM
  }

  /** Before the first PROGRAM line there is no root, whatever else the lines hold. */
  lemma {:induction false} LoadWithoutProgram(lines: seq<string>)
    requires NoProgramLine(lines)
    ensures Load(lines) == None
  {
    if lines != [] {
      LoadWithoutProgram(lines[..|lines| - 1]);
    }
  }

  /**
   * The whole effect of the load: the first PROGRAM line becomes the root, later PROGRAM
   * lines are ignored, and the root's statements are the first ten ASSIGNMENT and
   * EXPRESSION_STMT lines after it, in file order.
   */
  lemma {:induction false} LoadFirstProgram(before: seq<string>, program: string, after: seq<string>)
    requires NoProgramLine(before) && LineKind(program) == PROGRAM
    ensures Load(before + [program] + after)
            == Some(LineNode(program).(data := Program(Take(StatementNodes(after), MaxStatements))))
    decreases |after|
  {
    if after == [] {
      assert before + [program] + after == before + [program];
      LoadSnoc(before, program);
      LoadWithoutProgram(before);
    } else {
      var rest := after[..|after| - 1];
      var x := after[|after| - 1];
      assert after == rest + [x];
      assert before + [program] + after == (before + [program] + rest) + [x];
      LoadSnoc(before + [program] + rest, x);
      StatementNodesSnoc(rest, x);
      LoadFirstProgram(before, program, rest);
      StepAfterRoot(LineNode(program), StatementNodes(rest), x);
    }
  }

  lemma LoadSnoc(lines: seq<string>, x: string)
    ensures Load(lines + [x]) == Step(Load(lines), x)
  {
    assert (lines + [x])[..|lines|] == lines;
  }

  lemma StatementNodesSnoc(lines: seq<string>, x: string)
    ensures StatementNodes(lines + [x])
            == StatementNodes(lines) + (if LineKind(x) == ASSIGNMENT || LineKind(x) == EXPRESSION_STMT then [LineNode(x)] else [])
  {
    assert (lines + [x])[..|lines|] == lines;
  }

  /** One more line after the root: the statement list grows as the filtered list, capped at ten. */
  lemma StepAfterRoot(root: Node, nodes: seq<Node>, x: string)
    ensures var k := LineKind(x);
            var more := nodes + (if k == ASSIGNMENT || k == EXPRESSION_STMT then [LineNode(x)] else []);
            Step(Some(root.(data := Program(Take(nodes, MaxStatements)))), x)
            == Some(root.(data := Program(Take(more, MaxStatements))))
  {
    var k := LineKind(x);
    if k == ASSIGNMENT || k == EXPRESSION_STMT {
      if |nodes| >= MaxStatements {
        assert (nodes + [LineNode(x)])[..MaxStatements] == nodes[..MaxStatements];
      }
    } else {
      assert nodes + [] == nodes;
    }
  }
}
