/**
 * The phase-4 reloader (phase4/ast_loader_phase4.c): it reads the annotated dump of phase 3
 * line by line and recovers a PROGRAM whose statements are the ASSIGNMENT and
 * EXPRESSION_STMT blocks it recognises. Its `trim_whitespace` and `parse_node_type` are
 * verbatim copies of the phase-3 ones and are the `LoaderText` functions here.
 *
 * The file is a sequence of lines, each with its line terminator; reading takes the first
 * line of the remaining input, and seeking back to the start of a line puts that line back
 * in front of the input.
 */
module AnnotatedLoader {
  import opened Wrappers
  import opened Text
  import opened LoaderText
  import opened CodeGenAst

  /** How `parse_assignment_info` returns the line that ends an assignment block. */
  datatype Rewind =
    /** The whole line is read again (what the code sets out to do). */
    | PutBackLine
    /** The code as written: it steps back by the length of the trimmed line. */
    | RewindByTrimmedLength

  /**
   * The text read again after the rewind. `trim_whitespace` has written a NUL after the
   * line's last non-space character, so `strlen(line)` is the length of the line without its
   * trailing white space (newline included), and stepping back that far lands as many
   * characters into the line as it had trailing white space.
   */
  function Reread(line: string, mode: Rewind): (r: string)
    ensures |r| <= |line| && r == line[|line| - |r|..]
    ensures mode == PutBackLine ==> r == line
    ensures mode == RewindByTrimmedLength && Trim(line) != [] && IsSpace(line[|line| - 1]) ==> |r| < |line|
  {
    match mode
    case PutBackLine => line
    case RewindByTrimmedLength => if Trim(line) == [] then line else line[|line| - |TrimRight(line)|..]
  }

  /** The text after the first "Variable:", trimmed. */
  function VariableAfter(t: string): (v: string)
    requires Contains(t, "Variable:")
  {
    var i := FindFirst(t, "Variable:");
    Trim(t[i + 9..])
  }

  predicate IsValueLine(t: string) {
    Contains(t, "Value:") || Contains(t, "BOOLEAN:")
  }

  predicate IsStopLine(t: string) {
    Contains(t, "Statement_") || Contains(t, "SEMANTIC_SUMMARY")
  }

  /** The node after a line: the first "Variable:" line names the assignment's variable. */
  function TakeVariable(node: Node, t: string): Node {
    if Contains(t, "Variable:") && VariableOf(node).None? then WithVariable(node, VariableAfter(t)) else node
  }

  /** An assignment node with what was read for it, and the input left. */
  datatype Parsed = Parsed(node: Node, rest: seq<string>)

  /**
   * `parse_assignment_info`: read lines, taking the variable from the first "Variable:" line;
   * stop after the first "Value:" or "BOOLEAN:" line that holds TRUE or FALSE (TRUE checked
   * first), attaching a BOOLEAN literal at the assignment's line; stop before a line naming
   * the next statement or the summary, which is given back to the input.
   */
  function ParseAssignmentSpec(node: Node, input: seq<string>, mode: Rewind): (r: Parsed)
    ensures |r.rest| <= |input|
    ensures r.node.kind == node.kind && r.node.line == node.line
    ensures VariableOf(node).Some? ==> VariableOf(r.node) == VariableOf(node)
    ensures ValueOf(r.node) == ValueOf(node) || ValueOf(r.node) == Some(BooleanNode(1, node.line))
            || ValueOf(r.node) == Some(BooleanNode(0, node.line))
    decreases |input|
  {
    if input == [] then Parsed(node, [])
    else
      var line := input[0];
      var t := Trim(line);
      var n1 := TakeVariable(node, t);
      if IsValueLine(t) && Contains(t, "TRUE") then Parsed(WithValue(n1, BooleanNode(1, node.line)), input[1..])
      else if IsValueLine(t) && Contains(t, "FALSE") then Parsed(WithValue(n1, BooleanNode(0, node.line)), input[1..])
      else if IsStopLine(t) then Parsed(n1, [Reread(line, mode)] + input[1..])
      else ParseAssignmentSpec(n1, input[1..], mode)
  }

  /** The root after one more statement: appended while the program has fewer than ten. */
  function AppendStatement(root: Option<Node>, n: Node): Option<Node> {
    if root.Some? && |StatementsOf(root.value)| < MaxStatements then
      Some(root.value.(data := Program(StatementsOf(root.value) + [n])))
    else root
  }

  /** The root `load_annotated_ast` creates at the first "ANNOTATED_PROGRAM:" line. */
  function NewProgram(): (n: Node)
    ensures n.kind == PROGRAM && n.line == 1 && n.data == Program([])
  {
    CreateAstNode(PROGRAM, "PROGRAM", 1).(data := Program([]))
  }

  /** The input left and the root built so far. */
  datatype Progress = Progress(input: seq<string>, root: Option<Node>)

  /**
   * One pass of `load_annotated_ast`'s loop: blank and comment lines are skipped; the first
   * "ANNOTATED_PROGRAM:" creates the root; a "Statement_…:" line is classified by the line
   * after it, which is put back when it is neither an assignment nor an expression statement.
   */
  function LoadStep(input: seq<string>, root: Option<Node>, mode: Rewind): (p: Progress)
    requires input != []
    ensures |p.input| < |input|
  {
    var t := Trim(input[0]);
    var rest := input[1..];
    if t == [] || t[0] == '#' then Progress(rest, root)
    else if Contains(t, "ANNOTATED_PROGRAM:") && root.None? then Progress(rest, Some(NewProgram()))
    else if Contains(t, "Statement_") && Contains(t, ":") && rest != [] then
      var next := rest[0];
      if Contains(next, "ASSIGNMENT") then
        var p := ParseAssignmentSpec(CreateAstNode(ASSIGNMENT, "ASSIGNMENT", 1), rest[1..], mode);
        Progress(p.rest, AppendStatement(root, p.node))
      else if Contains(next, "EXPRESSION_STMT") then
        Progress(rest[1..], AppendStatement(root, CreateAstNode(EXPRESSION_STMT, "EXPRESSION_STMT", 3)))
      else Progress(rest, root)
    else Progress(rest, root)
  }

  /** `load_annotated_ast` from a given point of the input with the root built so far. */
  function LoadSpec(input: seq<string>, root: Option<Node>, mode: Rewind): Option<Node>
    decreases |input|
  {
    if input == [] then root
    else
      var p := LoadStep(input, root, mode);
      LoadSpec(p.input, p.root, mode)
  }

  /** `parse_assignment_info` over the remaining input, with the line put back when it stops early. */
  method ParseAssignmentInfo(node: Node, input: seq<string>) returns (r: Node, rest: seq<string>)
    ensures Parsed(r, rest) == ParseAssignmentSpec(node, input, PutBackLine)
    ensures ReadsAssignment(node, input, PutBackLine, Parsed(r, rest))
  {
    r := node;
    rest := input;
    while rest != []
      invariant ParseAssignmentSpec(r, rest, PutBackLine) == ParseAssignmentSpec(node, input, PutBackLine)
      decreases |rest|
    {
      var line := rest[0];
      rest := rest[1..];
      var trimmed := Trim(line);
      if Contains(trimmed, "Variable:") && VariableOf(r).None? {
        r := WithVariable(r, VariableAfter(trimmed));
      }
      if IsValueLine(trimmed) {
        if Contains(trimmed, "TRUE") {
          r := WithValue(r, BooleanNode(1, r.line));
          break;
        } else if Contains(trimmed, "FALSE") {
          r := WithValue(r, BooleanNode(0, r.line));
          break;
        }
      }
      if IsStopLine(trimmed) {
        rest := [line] + rest;
        break;
      }
    }
    ParseAssignmentResult(node, input, PutBackLine);
  }

  /** `load_annotated_ast` over the lines of the annotated dump. */
  method LoadAnnotatedAst(lines: seq<string>) returns (root: Option<Node>)
    ensures root == LoadSpec(lines, None, PutBackLine)
  {
    root := None;
    var input := lines;
    while input != []
      invariant LoadSpec(input, root, PutBackLine) == LoadSpec(lines, None, PutBackLine)
      decreases |input|
    {
      var line := input[0];
      input := input[1..];
      var trimmed := Trim(line);
      if trimmed == [] || trimmed[0] == '#' {
        continue;
      }
      if Contains(trimmed, "ANNOTATED_PROGRAM:") && root.None? {
        root := Some(NewProgram());
        continue;
      }
      if Contains(trimmed, "Statement_") && Contains(trimmed, ":") {
        if input != [] {
          var next := input[0];
          if Contains(next, "ASSIGNMENT") {
            var assign, after := ParseAssignmentInfo(CreateAstNode(ASSIGNMENT, "ASSIGNMENT", 1), input[1..]);
            input := after;
            root := AppendStatement(root, assign);
          } else if Contains(next, "EXPRESSION_STMT") {
            input := input[1..];
            root := AppendStatement(root, CreateAstNode(EXPRESSION_STMT, "EXPRESSION_STMT", 3));
          }
        }
      }
    }
  }

  // ------------------------------------------------------------------ lemmas

  /** A root is a PROGRAM at line 1 with at most ten statements: assignments at line 1, expression statements at line 3. */
  ghost predicate WellShaped(root: Option<Node>) {
    root.Some? ==>
      var r := root.value;
      && r.kind == PROGRAM && r.line == 1 && r.data.Program?
      && |StatementsOf(r)| <= MaxStatements
      && forall k :: 0 <= k < |StatementsOf(r)| ==>
           (StatementsOf(r)[k].kind == ASSIGNMENT && StatementsOf(r)[k].line == 1)
           || (StatementsOf(r)[k] == CreateAstNode(EXPRESSION_STMT, "EXPRESSION_STMT", 3))
  }

  /** Loading keeps the root well shaped, whichever way the assignment parser rewinds. */
  lemma {:induction false} LoadKeepsShape(input: seq<string>, root: Option<Node>, mode: Rewind)
    requires WellShaped(root)
    ensures WellShaped(LoadSpec(input, root, mode))
    decreases |input|
  {
    if input != [] {
      var p := LoadStep(input, root, mode);
      StepKeepsShape(input, root, mode);
      LoadKeepsShape(p.input, p.root, mode);
    }
  }

  lemma StepKeepsShape(input: seq<string>, root: Option<Node>, mode: Rewind)
    requires input != [] && WellShaped(root)
    ensures WellShaped(LoadStep(input, root, mode).root)
  {
    var t := Trim(input[0]);
    var rest := input[1..];
    if t == [] || t[0] == '#' {
    } else if Contains(t, "ANNOTATED_PROGRAM:") && root.None? {
    } else if Contains(t, "Statement_") && Contains(t, ":") && rest != [] {
      if Contains(rest[0], "ASSIGNMENT") {
        var p := ParseAssignmentSpec(CreateAstNode(ASSIGNMENT, "ASSIGNMENT", 1), rest[1..], mode);
        AppendKeepsShape(root, p.node);
      } else if Contains(rest[0], "EXPRESSION_STMT") {
        AppendKeepsShape(root, CreateAstNode(EXPRESSION_STMT, "EXPRESSION_STMT", 3));
      }
    }
  }

  lemma AppendKeepsShape(root: Option<Node>, n: Node)
    requires WellShaped(root)
    requires (n.kind == ASSIGNMENT && n.line == 1) || n == CreateAstNode(EXPRESSION_STMT, "EXPRESSION_STMT", 3)
    ensures WellShaped(AppendStatement(root, n))
  {
    if root.Some? && |StatementsOf(root.value)| < MaxStatements {
      var s := StatementsOf(root.value) + [n];
      assert StatementsOf(AppendStatement(root, n).value) == s;
      forall k | 0 <= k < |s|
        ensures (s[k].kind == ASSIGNMENT && s[k].line == 1) || s[k] == CreateAstNode(EXPRESSION_STMT, "EXPRESSION_STMT", 3)
      {
        if k < |s| - 1 {
          assert s[k] == StatementsOf(root.value)[k];
        }
      }
    }
  }

  /** The root keeps its kind, type string and line, and its statements stay in front. */
  ghost predicate Extends(root: Node, r: Option<Node>) {
    && r.Some? && r.value.kind == root.kind && r.value.typeStr == root.typeStr && r.value.line == root.line
    && r.value.data.Program? && StatementsOf(root) <= StatementsOf(r.value)
  }

  /**
   * Once there is a root it stays, with its kind, type string and line, and the statements
   * it holds stay in front: statements are only ever appended.
   */
  lemma {:induction false} LoadExtends(input: seq<string>, root: Node, mode: Rewind)
    requires root.data.Program?
    ensures var r := LoadSpec(input, Some(root), mode);
            && r.Some? && r.value.kind == root.kind && r.value.typeStr == root.typeStr && r.value.line == root.line
            && r.value.data.Program? && StatementsOf(root) <= StatementsOf(r.value)
    decreases |input|
  {
    if input != [] {
      var p := LoadStep(input, Some(root), mode);
      StepExtends(input, root, mode);
      LoadExtends(p.input, p.root.value, mode);
    }
  }

  lemma StepExtends(input: seq<string>, root: Node, mode: Rewind)
    requires input != [] && root.data.Program?
    ensures Extends(root, LoadStep(input, Some(root), mode).root)
  {
    var t := Trim(input[0]);
    var rest := input[1..];
    if t == [] || t[0] == '#' {
    } else if Contains(t, "Statement_") && Contains(t, ":") && rest != [] {
      if Contains(rest[0], "ASSIGNMENT") {
        var p := ParseAssignmentSpec(CreateAstNode(ASSIGNMENT, "ASSIGNMENT", 1), rest[1..], mode);
        AppendExtends(root, p.node);
      } else if Contains(rest[0], "EXPRESSION_STMT") {
        AppendExtends(root, CreateAstNode(EXPRESSION_STMT, "EXPRESSION_STMT", 3));
      }
    }
  }

  lemma AppendExtends(root: Node, n: Node)
    requires root.data.Program?
    ensures Extends(root, AppendStatement(Some(root), n))
  {
  }

  /**
   * With the line put back, what the assignment parser leaves is exactly the input it did not
   * consume: a suffix of its input, so no line is lost or altered.
   */
  lemma ParseLeavesSuffix(node: Node, input: seq<string>)
    ensures var r := ParseAssignmentSpec(node, input, PutBackLine);
            r.rest == input[|input| - |r.rest|..]
  {
    ParseAssignmentResult(node, input, PutBackLine);
    ReadLeavesSuffix(node, input, ParseAssignmentSpec(node, input, PutBackLine), FirstEnd(input));
  }

  /** A block read with the line put back leaves nothing, the lines after its last, or its last line and those after: a suffix of the input. */
  lemma ReadLeavesSuffix(node: Node, input: seq<string>, r: Parsed, k: nat)
    requires k <= |input| && ValueEndsAt(node, input, PutBackLine, r, k)
    ensures r.rest == input[|input| - |r.rest|..]
  {
    assert r.rest == [] || (k < |input| && (r.rest == input[k + 1..] || r.rest == [input[k]] + input[k + 1..]));
    SuffixAfter(input, k, r.rest);
  }

  /** The input after a line, with or without that line, is a suffix of the input. */
  lemma SuffixAfter(input: seq<string>, k: nat, rest: seq<string>)
    requires rest == [] || (k < |input| && (rest == input[k + 1..] || rest == [input[k]] + input[k + 1..]))
    ensures rest == input[|input| - |rest|..]
  {
    if rest != [] && rest == [input[k]] + input[k + 1..] {
      assert rest == input[k..];
    }
  }

  /** The literal a trimmed line gives the assignment: 1 for a value line holding TRUE, else 0 for one holding FALSE. */
  function LiteralIn(t: string): (b: Option<int>)
    ensures b.Some? <==> IsValueLine(t) && (Contains(t, "TRUE") || Contains(t, "FALSE"))
    ensures b.Some? ==> (b.value == 1 <==> Contains(t, "TRUE"))
    ensures b.Some? ==> b.value == 1 || b.value == 0
  {
    if IsValueLine(t) && Contains(t, "TRUE") then Some(1)
    else if IsValueLine(t) && Contains(t, "FALSE") then Some(0)
    else None
  }

  /** A line that ends an assignment block: a value line with a literal, or a stop line. */
  predicate EndsBlock(line: string) {
    LiteralIn(Trim(line)).Some? || IsStopLine(Trim(line))
  }

  predicate NamesVariable(line: string) {
    Contains(Trim(line), "Variable:")
  }

  /** The position of the first line `p` holds of, or the input's length when there is none. */
  function FirstWhere(input: seq<string>, p: string -> bool): (k: nat)
    ensures k <= |input| && (k < |input| ==> p(input[k]))
  {
    if input == [] then 0
    else if p(input[0]) then 0
    else
      var k' := FirstWhere(input[1..], p);
      assert k' < |input| - 1 ==> input[1 + k'] == input[1..][k'];
      1 + k'
  }

  /** `p` holds of no line before `FirstWhere`. */
  lemma {:induction false} NothingBefore(input: seq<string>, p: string -> bool, i: nat)
    requires i < FirstWhere(input, p)
    ensures !p(input[i])
    decreases |input|
  {
    if i > 0 {
      assert input[i] == input[1..][i - 1];
      NothingBefore(input[1..], p, i - 1);
    }
  }

  /** The position of the first line that ends the block, or the input's length when none does. */
  function FirstEnd(input: seq<string>): nat {
    FirstWhere(input, EndsBlock)
  }

  /** The position of the first "Variable:" line, or the input's length when there is none. */
  function FirstVariableLine(input: seq<string>): nat {
    FirstWhere(input, NamesVariable)
  }

  /**
   * What `parse_assignment_info` recovers from its input. The variable is the one the node
   * already had, or else the text after the first "Variable:" line, provided that line comes
   * no later than the line that ends the block. The block ends at the first value line
   * holding TRUE or FALSE, which gives the literal and is consumed; or at the first
   * statement or summary line, which is handed back and leaves the value as it was; or at
   * the end of the input.
   */
  predicate ReadsAssignment(node: Node, input: seq<string>, mode: Rewind, r: Parsed) {
    && r.node.kind == node.kind && r.node.line == node.line
    && ReadsVariable(node, input, r.node)
    && ReadsValue(node, input, mode, r)
  }

  /** The variable: the node's own, else the first "Variable:" line's, if it comes no later than the block's end. */
  predicate ReadsVariable(node: Node, input: seq<string>, result: Node) {
    var k := FirstEnd(input);
    var j := FirstVariableLine(input);
    VariableOf(result) == (if VariableOf(node).Some? then VariableOf(node)
                           else if j <= k && j < |input| then Some(VariableAfter(Trim(input[j])))
                           else None)
  }

  /** The value and the input left, decided by the line that ends the block. */
  predicate ReadsValue(node: Node, input: seq<string>, mode: Rewind, r: Parsed) {
    ValueEndsAt(node, input, mode, r, FirstEnd(input))
  }

  /** The value and the input left when the block ends at line `k`, or runs to the end when `k` is the input's length. */
  predicate ValueEndsAt(node: Node, input: seq<string>, mode: Rewind, r: Parsed, k: nat)
    requires k <= |input|
  {
    && (k == |input| ==> ValueOf(r.node) == ValueOf(node) && r.rest == [])
    && (k < |input| && LiteralIn(Trim(input[k])).Some? ==>
          ValueOf(r.node) == Some(BooleanNode(LiteralIn(Trim(input[k])).value, node.line))
          && r.rest == input[k + 1..])
    && (k < |input| && LiteralIn(Trim(input[k])).None? ==>
          ValueOf(r.node) == ValueOf(node) && r.rest == [Reread(input[k], mode)] + input[k + 1..])
  }

  /** The assignment parser recovers exactly what `ReadsAssignment` describes, on every input. */
  lemma {:induction false} ParseAssignmentResult(node: Node, input: seq<string>, mode: Rewind)
    ensures ReadsAssignment(node, input, mode, ParseAssignmentSpec(node, input, mode))
    decreases |input|
  {
    if input != [] {
      if EndsBlock(input[0]) {
        ParseEndsHere(node, input, mode);
      } else {
        var n1 := TakeVariable(node, Trim(input[0]));
        ParseAssignmentResult(n1, input[1..], mode);
        ParseGoesOn(node, input, mode);
      }
    }
  }

  /** The first line ends the block. */
  lemma ParseEndsHere(node: Node, input: seq<string>, mode: Rewind)
    requires input != [] && EndsBlock(input[0])
    ensures ReadsAssignment(node, input, mode, ParseAssignmentSpec(node, input, mode))
  {
    var r := ParseAssignmentSpec(node, input, mode);
    assert ReadsVariable(node, input, r.node) by {
      ParseStopsAt(node, input, mode);
      StopVariable(node, input, mode, r);
    }
    assert ReadsValue(node, input, mode, r) by {
      ParseStopsAt(node, input, mode);
      StopValue(node, input, mode, r);
    }
  }

  /** A result of the stop shape takes its variable as `ReadsVariable` says. */
  lemma StopVariable(node: Node, input: seq<string>, mode: Rewind, r: Parsed)
    requires input != [] && EndsBlock(input[0])
    requires VariableOf(r.node) == VariableOf(TakeVariable(node, Trim(input[0])))
    ensures ReadsVariable(node, input, r.node)
  {
    assert FirstEnd(input) == 0;
    assert NamesVariable(input[0]) <==> FirstVariableLine(input) == 0;
  }

  /** A result of the stop shape takes its value and leaves the input as `ReadsValue` says. */
  lemma StopValue(node: Node, input: seq<string>, mode: Rewind, r: Parsed)
    requires input != [] && EndsBlock(input[0])
    requires var t := Trim(input[0]);
             && (LiteralIn(t).Some? ==> ValueOf(r.node) == Some(BooleanNode(LiteralIn(t).value, node.line)) && r.rest == input[1..])
             && (LiteralIn(t).None? ==> ValueOf(r.node) == ValueOf(node) && r.rest == [Reread(input[0], mode)] + input[1..])
    ensures ReadsValue(node, input, mode, r)
  {
    assert FirstEnd(input) == 0;
  }

  /** What the assignment parser returns when its first line ends the block. */
  lemma ParseStopsAt(node: Node, input: seq<string>, mode: Rewind)
    requires input != [] && EndsBlock(input[0])
    ensures var t := Trim(input[0]);
            var n1 := TakeVariable(node, t);
            var r := ParseAssignmentSpec(node, input, mode);
            && (LiteralIn(t).Some? ==> r == Parsed(WithValue(n1, BooleanNode(LiteralIn(t).value, node.line)), input[1..]))
            && (LiteralIn(t).None? ==> r == Parsed(n1, [Reread(input[0], mode)] + input[1..]))
  {
  }

  /** The first line does not end the block: what is read from the rest carries over. */
  lemma ParseGoesOn(node: Node, input: seq<string>, mode: Rewind)
    requires input != [] && !EndsBlock(input[0])
    requires var n1 := TakeVariable(node, Trim(input[0]));
             ReadsAssignment(n1, input[1..], mode, ParseAssignmentSpec(n1, input[1..], mode))
    ensures ReadsAssignment(node, input, mode, ParseAssignmentSpec(node, input, mode))
  {
    var n1 := TakeVariable(node, Trim(input[0]));
    var r := ParseAssignmentSpec(node, input, mode);
    assert r == ParseAssignmentSpec(n1, input[1..], mode);
    VariableCarries(node, n1, input, r.node);
    ValueCarries(node, n1, input, mode, r);
  }

  lemma VariableCarries(node: Node, n1: Node, input: seq<string>, result: Node)
    requires input != [] && !EndsBlock(input[0]) && n1 == TakeVariable(node, Trim(input[0]))
    requires ReadsVariable(n1, input[1..], result)
    ensures ReadsVariable(node, input, result)
  {
    var tail := input[1..];
    assert FirstEnd(input) == 1 + FirstEnd(tail);
    if !NamesVariable(input[0]) {
      var j' := FirstVariableLine(tail);
      assert FirstVariableLine(input) == 1 + j';
      assert j' < |tail| ==> input[1 + j'] == tail[j'];
    } else {
      assert FirstVariableLine(input) == 0;
    }
  }

  lemma ValueCarries(node: Node, n1: Node, input: seq<string>, mode: Rewind, r: Parsed)
    requires input != [] && !EndsBlock(input[0]) && n1 == TakeVariable(node, Trim(input[0]))
    requires ReadsValue(n1, input[1..], mode, r)
    ensures ReadsValue(node, input, mode, r)
  {
    var k' := FirstEnd(input[1..]);
    assert ValueEndsAt(node, input, mode, r, k' + 1) by {
      assert ValueOf(n1) == ValueOf(node) && n1.line == node.line;
      ValueShifts(node, n1, input, mode, r, k');
    }
    assert FirstEnd(input) == 1 + k';
  }

  /** A block that ends at line `k` of the input's tail ends at line `k + 1` of the input. */
  lemma ValueShifts(node: Node, n1: Node, input: seq<string>, mode: Rewind, r: Parsed, k: nat)
    requires input != [] && k <= |input| - 1 && ValueEndsAt(n1, input[1..], mode, r, k)
    requires ValueOf(n1) == ValueOf(node) && n1.line == node.line
    ensures ValueEndsAt(node, input, mode, r, k + 1)
  {
    if k < |input| - 1 {
      assert input[k + 1] == input[1..][k];
      assert input[k + 2..] == input[1..][k + 1..];
    }
  }

  /**
   * The rewind as written loses a statement. The dump writer puts an unindented
   * "Statement_2:" after the first statement's block; the assignment block ends there, the
   * rewind lands one character into that line, "tatement_2:" is read again and not recognised,
   * and the expression statement after it is dropped. With the line put back both statements
   * are loaded. `ProgramLine`, `StatementHeader`, `AssignmentKindLine`, `ExpressionKindLine`
   * and `ExpressionKindLineSkipped` show that the lines "ANNOTATED_PROGRAM:", "Statement_1:",
   * "Node_Type: ASSIGNMENT" and "Node_Type: EXPRESSION_STMT" (each with its newline) meet the
   * requirements on the other four lines.
   */
  lemma RewindLosesStatement(h0: string, h1: string, s2: string, h3: string, s4: string)
    requires OpensProgram(h0) && Header(h1) && Contains(s2, "ASSIGNMENT")
    requires h3 == "Statement_2:\n"
    requires !Contains(s4, "ASSIGNMENT") && Contains(s4, "EXPRESSION_STMT") && Skipped(s4)
    ensures LoadSpec([h0, h1, s2, h3, s4], None, PutBackLine).Some?
    ensures |StatementsOf(LoadSpec([h0, h1, s2, h3, s4], None, PutBackLine).value)| == 2
    ensures LoadSpec([h0, h1, s2, h3, s4], None, RewindByTrimmedLength).Some?
    ensures |StatementsOf(LoadSpec([h0, h1, s2, h3, s4], None, RewindByTrimmedLength).value)| == 1
  {
    StatementHeader(h3, "Statement_2:", '2');
    LostHeaderLine(h3, Reread(h3, RewindByTrimmedLength));
    RewindLosesStatementShape(h0, h1, s2, h3, s4);
  }

  /** The line that opens the program. */
  predicate OpensProgram(line: string) {
    var t := Trim(line);
    t != [] && t[0] != '#' && Contains(t, "ANNOTATED_PROGRAM:")
  }

  /** A line the load skips: not blank, not a comment, neither the program nor a statement header. */
  predicate Skipped(line: string) {
    var t := Trim(line);
    t != [] && t[0] != '#' && !Contains(t, "ANNOTATED_PROGRAM:") && !Contains(t, "Statement_")
  }

  /** A line that opens a statement: "Statement_…:" holding neither a variable nor a value. */
  predicate Header(line: string) {
    var t := Trim(line);
    t != [] && t[0] != '#' && Contains(t, "Statement_") && Contains(t, ":")
    && !Contains(t, "Variable:") && !IsValueLine(t) && IsStopLine(t)
  }

  /**
   * The counterexample for any lines of the right kinds: a program line, a header, an
   * assignment kind line, a header whose rewind as written is skipped, an expression kind line.
   */
  lemma RewindLosesStatementShape(h0: string, h1: string, s2: string, h3: string, s4: string)
    requires OpensProgram(h0)
    requires Header(h1) && Contains(s2, "ASSIGNMENT")
    requires Header(h3) && Skipped(Reread(h3, RewindByTrimmedLength))
    requires !Contains(s4, "ASSIGNMENT") && Contains(s4, "EXPRESSION_STMT") && Skipped(s4)
    ensures var dump := [h0, h1, s2, h3, s4];
            && LoadSpec(dump, None, PutBackLine).Some?
            && |StatementsOf(LoadSpec(dump, None, PutBackLine).value)| == 2
            && LoadSpec(dump, None, RewindByTrimmedLength).Some?
            && |StatementsOf(LoadSpec(dump, None, RewindByTrimmedLength).value)| == 1
  {
    var root := Some(NewProgram());
    var a := CreateAstNode(ASSIGNMENT, "ASSIGNMENT", 1);
    var e := CreateAstNode(EXPRESSION_STMT, "EXPRESSION_STMT", 3);
    StatementCounts(root, a, e);
    PutBackLoadsBoth(h0, h1, s2, h3, s4);
    RewindLoadsOne(h0, h1, s2, h3, s4, Reread(h3, RewindByTrimmedLength));
  }

  lemma PutBackLoadsBoth(h0: string, h1: string, s2: string, h3: string, s4: string)
    requires OpensProgram(h0)
    requires Header(h1) && Contains(s2, "ASSIGNMENT") && Header(h3)
    requires !Contains(s4, "ASSIGNMENT") && Contains(s4, "EXPRESSION_STMT")
    ensures LoadSpec([h0, h1, s2, h3, s4], None, PutBackLine)
            == AppendStatement(AppendStatement(Some(NewProgram()), CreateAstNode(ASSIGNMENT, "ASSIGNMENT", 1)),
                               CreateAstNode(EXPRESSION_STMT, "EXPRESSION_STMT", 3))
  {
    var withA := AppendStatement(Some(NewProgram()), CreateAstNode(ASSIGNMENT, "ASSIGNMENT", 1));
    LoadFirstStatement(h0, h1, s2, h3, s4, PutBackLine);
    PutBackKeepsSecond(h3, s4, withA, CreateAstNode(EXPRESSION_STMT, "EXPRESSION_STMT", 3));
  }

  lemma RewindLoadsOne(h0: string, h1: string, s2: string, h3: string, s4: string, r3: string)
    requires OpensProgram(h0)
    requires Header(h1) && Contains(s2, "ASSIGNMENT") && Header(h3)
    requires r3 == Reread(h3, RewindByTrimmedLength) && Skipped(r3) && Skipped(s4)
    ensures LoadSpec([h0, h1, s2, h3, s4], None, RewindByTrimmedLength)
            == AppendStatement(Some(NewProgram()), CreateAstNode(ASSIGNMENT, "ASSIGNMENT", 1))
  {
    var withA := AppendStatement(Some(NewProgram()), CreateAstNode(ASSIGNMENT, "ASSIGNMENT", 1));
    LoadFirstStatement(h0, h1, s2, h3, s4, RewindByTrimmedLength);
    RewindDropsSecond(r3, s4, withA);
  }

  /** The program line, then an assignment block ended by the next header, read again. */
  lemma LoadFirstStatement(h0: string, h1: string, s2: string, h3: string, s4: string, mode: Rewind)
    requires OpensProgram(h0)
    requires Header(h1) && Contains(s2, "ASSIGNMENT") && Header(h3)
    ensures LoadSpec([h0, h1, s2, h3, s4], None, mode)
            == LoadSpec([Reread(h3, mode)] + [s4], AppendStatement(Some(NewProgram()), CreateAstNode(ASSIGNMENT, "ASSIGNMENT", 1)), mode)
  {
    var root := Some(NewProgram());
    assert [h0, h1, s2, h3, s4] == [h0] + ([h1, s2] + ([h3] + [s4]));
    LoadProgramLine(h0, [h1, s2] + ([h3] + [s4]), mode);
    LoadAssignmentBlock(h1, s2, h3, [s4], mode, root);
  }

  lemma StatementCounts(root: Option<Node>, a: Node, e: Node)
    requires root == Some(NewProgram())
    ensures AppendStatement(root, a).Some? && |StatementsOf(AppendStatement(root, a).value)| == 1
    ensures var both := AppendStatement(AppendStatement(root, a), e);
            both.Some? && |StatementsOf(both.value)| == 2
  {
  }

  /** The program line creates the root. */
  lemma LoadProgramLine(h0: string, rest: seq<string>, mode: Rewind)
    requires OpensProgram(h0)
    ensures LoadSpec([h0] + rest, None, mode) == LoadSpec(rest, Some(NewProgram()), mode)
  {
    LoadCreatesRoot(h0, rest, mode);
  }

  /** An assignment block ended by the next header: one statement, then the header read again. */
  lemma LoadAssignmentBlock(h1: string, s2: string, h3: string, rest: seq<string>, mode: Rewind, root: Option<Node>)
    requires Header(h1) && Contains(s2, "ASSIGNMENT") && Header(h3) && root.Some?
    ensures LoadSpec([h1, s2] + ([h3] + rest), root, mode)
            == LoadSpec([Reread(h3, mode)] + rest, AppendStatement(root, CreateAstNode(ASSIGNMENT, "ASSIGNMENT", 1)), mode)
  {
    ParseStops(CreateAstNode(ASSIGNMENT, "ASSIGNMENT", 1), h3, rest, mode);
    LoadAssignment(h1, s2, [h3] + rest, root, mode);
  }

  /** With the header put back, the expression statement after it is loaded. */
  lemma PutBackKeepsSecond(h3: string, s4: string, root: Option<Node>, e: Node)
    requires root.Some? && Header(h3) && !Contains(s4, "ASSIGNMENT") && Contains(s4, "EXPRESSION_STMT")
    requires e == CreateAstNode(EXPRESSION_STMT, "EXPRESSION_STMT", 3)
    ensures LoadSpec([Reread(h3, PutBackLine)] + [s4], root, PutBackLine) == AppendStatement(root, e)
  {
    assert [Reread(h3, PutBackLine)] + [s4] == [h3, s4] + [];
    LoadExpression(h3, s4, [], root, PutBackLine);
  }

  /** With the rewind as written, the rest of the header and the kind line are both skipped. */
  lemma RewindDropsSecond(r3: string, s4: string, root: Option<Node>)
    requires Skipped(r3) && Skipped(s4)
    ensures LoadSpec([r3] + [s4], root, RewindByTrimmedLength) == root
  {
    LoadSkips(r3, [s4], root, RewindByTrimmedLength);
    assert [s4] == [s4] + [];
    LoadSkips(s4, [], root, RewindByTrimmedLength);
  }

  /**
   * The concrete dump. The lemmas from here to `LacksChar` are facts about the fixed lines
   * the phase-3 dump writer prints (phase3/semantic_analyzer.c:344-356). They serve only the
   * counterexample: `RewindLosesStatementOnDump` uses them to instantiate
   * `RewindLosesStatement` on those lines.
   */
  lemma RewindLosesStatementOnDump(h0: string, h1: string, s2: string, h3: string, s4: string)
    requires h0 == "ANNOTATED_PROGRAM:\n" && h1 == "Statement_1:\n" && s2 == "Node_Type: ASSIGNMENT\n"
    requires h3 == "Statement_2:\n" && s4 == "Node_Type: EXPRESSION_STMT\n"
    ensures LoadSpec([h0, h1, s2, h3, s4], None, PutBackLine).Some?
    ensures |StatementsOf(LoadSpec([h0, h1, s2, h3, s4], None, PutBackLine).value)| == 2
    ensures LoadSpec([h0, h1, s2, h3, s4], None, RewindByTrimmedLength).Some?
    ensures |StatementsOf(LoadSpec([h0, h1, s2, h3, s4], None, RewindByTrimmedLength).value)| == 1
  {
    ProgramLine(h0);
    StatementHeader(h1, "Statement_1:", '1');
    AssignmentKindLine(s2);
    ExpressionKindLine(s4);
    ExpressionKindLineSkipped(s4);
    RewindLosesStatement(h0, h1, s2, h3, s4);
  }

  lemma ProgramLine(s: string)
    requires s == "ANNOTATED_PROGRAM:\n"
    ensures OpensProgram(s)
  {
    var h := "ANNOTATED_PROGRAM:";
    assert s == h + "\n";
    TrimNewline(h);
    ContainsAt(h, h, 0);
  }

  lemma StatementHeader(s: string, h: string, d: char)
    requires h == "Statement_" + [d] + ":" && IsDigit(d) && s == h + "\n"
    ensures Header(s)
  {
    HeaderLine(s, h, d);
  }

  /** A statement header: it names a statement and holds neither a variable nor a value. */
  lemma HeaderLine(s: string, h: string, d: char)
    requires h == "Statement_" + [d] + ":" && IsDigit(d) && s == h + "\n"
    ensures var t := Trim(s);
            && t == h && t[0] != '#' && Contains(t, "Statement_") && Contains(t, ":")
            && !Contains(t, "Variable:") && !IsValueLine(t) && IsStopLine(t)
            && TrimRight(s) == h
  {
    TrimNewline(h);
    assert h[0..10] == "Statement_";
    ContainsAt(h, "Statement_", 0);
    assert h[11..12] == ":";
    ContainsAt(h, ":", 11);
    HeaderHasNoValue(h, d);
  }

  lemma HeaderHasNoValue(h: string, d: char)
    requires h == "Statement_" + [d] + ":" && IsDigit(d)
    ensures !Contains(h, "Variable:") && !Contains(h, "Value:") && !Contains(h, "BOOLEAN:")
  {
    assert 'V' !in h && 'B' !in h;
    MissingChar(h, "Variable:", 'V');
    MissingChar(h, "Value:", 'V');
    MissingChar(h, "BOOLEAN:", 'B');
  }

  lemma AssignmentKindLine(s: string)
    requires s == "Node_Type: ASSIGNMENT\n"
    ensures Contains(s, "ASSIGNMENT")
  {
    assert s[11..21] == "ASSIGNMENT";
    ContainsAt(s, "ASSIGNMENT", 11);
  }

  lemma ExpressionKindLine(s: string)
    requires s == "Node_Type: EXPRESSION_STMT\n"
    ensures !Contains(s, "ASSIGNMENT") && Contains(s, "EXPRESSION_STMT")
  {
    MissingChar(s, "ASSIGNMENT", 'G');
    ExpressionKindAt(s);
  }

  lemma ExpressionKindAt(s: string)
    requires s == "Node_Type: EXPRESSION_STMT\n"
    ensures Contains(s, "EXPRESSION_STMT")
  {
    assert s[11..26] == "EXPRESSION_STMT";
    ContainsAt(s, "EXPRESSION_STMT", 11);
  }

  lemma ExpressionKindLineSkipped(s: string)
    requires s == "Node_Type: EXPRESSION_STMT\n"
    ensures Skipped(s)
  {
    var t := "Node_Type: EXPRESSION_STMT";
    TrimmedLine(s, t);
    ExpressionKindLetters(t);
    ExpressionLineNeither(t);
  }

  /** The expression kind line holds no 'A' and no 'a'. */
  lemma ExpressionKindLetters(t: string)
    requires t == "Node_Type: EXPRESSION_STMT"
    ensures 'A' !in t && 'a' !in t
  {
  }

  /** A line with no 'A' and no 'a', such as the expression kind line, names neither the program nor a statement. */
  lemma ExpressionLineNeither(t: string)
    requires 'A' !in t && 'a' !in t
    ensures !Contains(t, "ANNOTATED_PROGRAM:") && !Contains(t, "Statement_")
  {
    LacksChar(t, "ANNOTATED_PROGRAM:", 'A');
    LacksChar(t, "Statement_", 'a');
  }

  /** What the rewind as written reads again from "Statement_2:". */
  lemma LostHeaderLine(s: string, r: string)
    requires s == "Statement_2:\n" && r == Reread(s, RewindByTrimmedLength)
    ensures Skipped(r)
  {
    var u := s[1..12];
    LostLineChars(s, u);
    RereadOneIn(s, s[..12]);
    TrimmedLine(r, u);
    LacksChar(u, "ANNOTATED_PROGRAM:", 'A');
    LacksChar(u, "Statement_", 'S');
  }

  /** "Statement_2:" without its first character: no 'A', no 'S', and no white space at either end. */
  lemma LostLineChars(s: string, u: string)
    requires s == "Statement_2:\n" && u == s[1..12]
    ensures s == s[..12] + "\n" && s[0] == 'S' && s[11] == ':'
    ensures s[1..] == u + "\n" && |u| == 11 && u[0] == 't' && u[10] == ':'
    ensures 'A' !in u && 'S' !in u
  {
  }

  /** The rewind as written lands one character into a line ended by a single newline. */
  lemma RereadOneIn(s: string, h: string)
    requires s == h + "\n" && h != [] && !IsSpace(h[0]) && !IsSpace(h[|h| - 1])
    ensures Reread(s, RewindByTrimmedLength) == s[1..]
  {
    TrimNewline(h);
    assert Trim(s) != [] && |s| - |TrimRight(s)| == 1;
  }

  /** A line of non-blank text and its newline trims to the text. */
  lemma TrimmedLine(s: string, t: string)
    requires s == t + "\n" && |t| > 1 && !IsSpace(t[0]) && t[0] != '#' && !IsSpace(t[|t| - 1])
    ensures Trim(s) == t && t != [] && t[0] != '#'
  {
    TrimNewline(t);
  }

  lemma LacksChar(t: string, pat: string, c: char)
    requires c in pat && c !in t
    ensures !Contains(t, pat)
  {
    MissingChar(t, pat, c);
  }

  // One step of the load, for the kinds of line above.

  lemma LoadCreatesRoot(line: string, rest: seq<string>, mode: Rewind)
    requires var t := Trim(line); t != [] && t[0] != '#' && Contains(t, "ANNOTATED_PROGRAM:")
    ensures LoadSpec([line] + rest, None, mode) == LoadSpec(rest, Some(NewProgram()), mode)
  {
    assert ([line] + rest)[1..] == rest;
  }

  lemma LoadAssignment(line: string, next: string, rest: seq<string>, root: Option<Node>, mode: Rewind)
    requires var t := Trim(line); t != [] && t[0] != '#' && !(Contains(t, "ANNOTATED_PROGRAM:") && root.None?)
    requires Contains(Trim(line), "Statement_") && Contains(Trim(line), ":") && Contains(next, "ASSIGNMENT")
    ensures var p := ParseAssignmentSpec(CreateAstNode(ASSIGNMENT, "ASSIGNMENT", 1), rest, mode);
            LoadSpec([line, next] + rest, root, mode) == LoadSpec(p.rest, AppendStatement(root, p.node), mode)
  {
    assert ([line, next] + rest)[1..] == [next] + rest;
    assert ([next] + rest)[1..] == rest;
  }

  lemma LoadExpression(line: string, next: string, rest: seq<string>, root: Option<Node>, mode: Rewind)
    requires var t := Trim(line); t != [] && t[0] != '#' && !(Contains(t, "ANNOTATED_PROGRAM:") && root.None?)
    requires Contains(Trim(line), "Statement_") && Contains(Trim(line), ":")
    requires !Contains(next, "ASSIGNMENT") && Contains(next, "EXPRESSION_STMT")
    ensures LoadSpec([line, next] + rest, root, mode)
            == LoadSpec(rest, AppendStatement(root, CreateAstNode(EXPRESSION_STMT, "EXPRESSION_STMT", 3)), mode)
  {
    assert ([line, next] + rest)[1..] == [next] + rest;
    assert ([next] + rest)[1..] == rest;
  }

  /** A comment line or a line holding only white space changes nothing. */
  lemma LoadSkipsComment(line: string, rest: seq<string>, root: Option<Node>, mode: Rewind)
    requires Trim(line) == [] || Trim(line)[0] == '#'
    ensures LoadSpec([line] + rest, root, mode) == LoadSpec(rest, root, mode)
  {
    assert ([line] + rest)[1..] == rest;
  }

  /** A line that is neither the program line nor a statement header falls through the loop unchanged. */
  lemma LoadSkips(line: string, rest: seq<string>, root: Option<Node>, mode: Rewind)
    requires Skipped(line)
    ensures LoadSpec([line] + rest, root, mode) == LoadSpec(rest, root, mode)
  {
    assert ([line] + rest)[1..] == rest;
  }

  lemma ParseStops(node: Node, line: string, rest: seq<string>, mode: Rewind)
    requires var t := Trim(line); !Contains(t, "Variable:") && !IsValueLine(t) && IsStopLine(t)
    ensures ParseAssignmentSpec(node, [line] + rest, mode) == Parsed(node, [Reread(line, mode)] + rest)
  {
    assert ([line] + rest)[1..] == rest;
  }
}
