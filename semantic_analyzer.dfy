/**
 * The phase-3 semantic analyzer (phase3/semantic_analyzer.c). A context owns a 101-bucket
 * symbol table, a head-first list of errors and two counters. `perform_semantic_analysis`
 * is three steps run in order: a walk over the tree that sets each node's semantic type and
 * constant flag and enters identifiers into the table; a fixed preamble that defines and
 * uses the two symbols `B` and `C` whatever the tree holds; and a validation step that turns
 * the table's undefined and unused counts into one error and a number of warnings.
 *
 * The C walk updates nodes in place. A node is never shared between two parents, so here the
 * walk returns the updated node (and the updated table contents) instead.
 */
module SemanticAnalyzer {
  import opened Wrappers
  import opened Symbols
  import opened SemanticAst

  // ------------------------------------------------------------------ errors

  datatype ErrorType = UndefinedVar | TypeMismatch | UnusedVar | Redefinition | InvalidOperation

  /** `semantic_error_type_to_string`. */
  function ErrorTypeName(t: ErrorType): (r: string)
    ensures ErrorTypeOfName(r) == Some(t)
    ensures r != "UNKNOWN_ERROR"
  {
    match t
    case UndefinedVar => "UNDEFINED_VARIABLE"
    case TypeMismatch => "TYPE_MISMATCH"
    case UnusedVar => "UNUSED_VARIABLE"
    case Redefinition => "REDEFINITION"
    case InvalidOperation => "INVALID_OPERATION"
  }

  /** The error type a name stands for. */
  function ErrorTypeOfName(s: string): Option<ErrorType> {
    if s == "UNDEFINED_VARIABLE" then Some(UndefinedVar)
    else if s == "TYPE_MISMATCH" then Some(TypeMismatch)
    else if s == "UNUSED_VARIABLE" then Some(UnusedVar)
    else if s == "REDEFINITION" then Some(Redefinition)
    else if s == "INVALID_OPERATION" then Some(InvalidOperation)
    else None
  }

  /** Different error types print differently. */
  lemma ErrorTypeNamesDistinct(a: ErrorType, b: ErrorType)
    requires a != b
    ensures ErrorTypeName(a) != ErrorTypeName(b)
  {
    assert ErrorTypeOfName(ErrorTypeName(a)) != ErrorTypeOfName(ErrorTypeName(b));
  }

  /** `SemanticError` without its `next` link (the list order gives it). */
  datatype SemanticError = SemanticError(kind: ErrorType, message: string, line: int, symbol: Option<string>)

  /** `create_semantic_context` asks for a table of this many buckets. */
  const TableSize: int := 101

  /** The one error validation can report. */
  const UndefinedError: SemanticError :=
    SemanticError(UndefinedVar, "Variables referenced but not defined", 0, None)

  // --------------------------------------------------------- the walk as values

  /** A node after its visit, with the table contents after it. */
  datatype Walked = Walked(table: seq<seq<Entry>>, node: Node)

  /** A statement list after its visits, with the table contents after them. */
  datatype WalkedList = WalkedList(table: seq<seq<Entry>>, nodes: seq<Node>)

  predicate IsBinaryOperator(kind: int) {
    kind == AND || kind == OR || kind == XOR || kind == IMPLIES || kind == IFF || kind == EQUIV
  }

  /**
   * `analyze_identifier`: a nameless node is left alone; otherwise the name is inserted as an
   * IDENTIFIER declared at the node's line unless it is already present, it is marked used at
   * the node's line, and the node becomes BOOLEAN.
   */
  function IdentifierStep(t: seq<seq<Entry>>, node: Node): (r: Walked)
    requires |t| > 0
    ensures |r.table| == |t|
  {
    match IdentifierOf(node)
    case None => Walked(t, node)
    case Some(name) =>
      var inserted := InsertSpec(t, name, SymIdentifier, node.line);
      Walked(MarkUsedSpec(inserted, name, node.line), node.(semanticType := SymBoolean))
  }

  /** `analyze_assignment`: the node becomes BOOLEAN; its parts are not looked at. */
  function AssignmentStep(node: Node): Node {
    node.(semanticType := SymBoolean)
  }

  /** `analyze_binary_operation`: a logical binary operator is BOOLEAN and not constant. */
  function BinaryOperationStep(node: Node): Node {
    if IsBinaryOperator(node.kind) then node.(semanticType := SymBoolean, isConstant := 0) else node
  }

  /** `analyze_unary_operation`: NOT is BOOLEAN. */
  function UnaryOperationStep(node: Node): Node {
    if node.kind == NOT then node.(semanticType := SymBoolean) else node
  }

  /** `analyze_expression`: dispatch on the node's kind; other kinds are left alone. */
  function ExpressionStep(t: seq<seq<Entry>>, node: Node): (r: Walked)
    requires |t| > 0
    ensures |r.table| == |t|
  {
    if node.kind == IDENTIFIER then IdentifierStep(t, node)
    else if node.kind == BOOLEAN then Walked(t, node.(semanticType := SymBoolean, isConstant := 1))
    else if IsBinaryOperator(node.kind) then Walked(t, BinaryOperationStep(node))
    else if node.kind == NOT then Walked(t, UnaryOperationStep(node))
    else Walked(t, node)
  }

  /**
   * `analyze_node`: a PROGRAM visits its statements in order; an ASSIGNMENT goes to
   * `analyze_assignment`; an EXPRESSION_STMT is left alone; anything else is an expression.
   */
  function NodeStep(t: seq<seq<Entry>>, node: Node): (r: Walked)
    requires |t| > 0
    ensures |r.table| == |t|
    decreases node, 1
  {
    if node.kind == PROGRAM then
      match node.data
      case Program(stmts) =>
        var w := StatementsStep(t, stmts, node);
        Walked(w.table, node.(data := Program(w.nodes)))
      case _ => Walked(t, node)
    else if node.kind == ASSIGNMENT then Walked(t, AssignmentStep(node))
    else if node.kind == EXPRESSION_STMT then Walked(t, node)
    else ExpressionStep(t, node)
  }

  /** The PROGRAM loop: each statement is visited with the table the previous ones left. */
  function StatementsStep(t: seq<seq<Entry>>, stmts: seq<Node>, parent: Node): (r: WalkedList)
    requires |t| > 0
    requires parent.data.Program? && stmts <= parent.data.statements
    ensures |r.table| == |t| && |r.nodes| == |stmts|
    decreases parent, 0, |stmts|
  {
    if stmts == [] then WalkedList(t, [])
    else
      var n := |stmts| - 1;
      var w := StatementsStep(t, stmts[..n], parent);
      assert stmts[n] == parent.data.statements[n];
      var v := NodeStep(w.table, stmts[n]);
      WalkedList(v.table, w.nodes + [v.node])
  }

  /** The preamble of `perform_semantic_analysis`: B is defined TRUE at line 1, C FALSE at line 2, both used at line 3. */
  function PreambleSpec(t: seq<seq<Entry>>): (r: seq<seq<Entry>>)
    requires |t| > 0
    ensures |r| == |t|
  {
    var b1 := InsertSpec(t, "B", SymBoolean, 1);
    var b2 := SetValueSpec(b1, "B", 1, 1);
    var b3 := MarkUsedSpec(b2, "B", 3);
    var c1 := InsertSpec(b3, "C", SymBoolean, 2);
    var c2 := SetValueSpec(c1, "C", 0, 2);
    MarkUsedSpec(c2, "C", 3)
  }

  /** `infer_expression_type`: reads the table, changes nothing. */
  function InferExpressionType(t: seq<seq<Entry>>, node: Option<Node>): (r: SymbolType)
    requires |t| > 0
    ensures node.None? ==> r == SymUnknown
    ensures node.Some? && (node.value.kind == ASSIGNMENT || BOOLEAN <= node.value.kind <= EQUIV) ==> r == SymBoolean
    ensures (node.Some? && node.value.kind != IDENTIFIER && node.value.kind != ASSIGNMENT
             && !(BOOLEAN <= node.value.kind <= EQUIV)) ==> r == SymUnknown
    ensures node.Some? && node.value.kind == IDENTIFIER ==>
      r == (if IdentifierOf(node.value).Some? && LookupSpec(t, IdentifierOf(node.value).value).Some?
            then LookupSpec(t, IdentifierOf(node.value).value).value.kind else SymUnknown)
  {
    match node
    case None => SymUnknown
    case Some(n) =>
      if n.kind == IDENTIFIER then
        match IdentifierOf(n)
        case None => SymUnknown
        case Some(name) =>
          match LookupSpec(t, name)
          case None => SymUnknown
          case Some(e) => e.kind
      else if BOOLEAN <= n.kind <= EQUIV || n.kind == ASSIGNMENT then SymBoolean
      else SymUnknown
  }

  // ------------------------------------------------------------------ the context

  class SemanticContext {
    const symbols: SymbolTable
    var errors: seq<SemanticError>
    var errorCount: int
    var warningCount: int

    ghost predicate Valid()
      reads this, symbols, symbols.buckets
    {
      symbols.Valid()
    }

    /** The table's chains. */
    function Table(): seq<seq<Entry>>
      reads this, symbols, symbols.buckets
    {
      symbols.Chains()
    }

    /** `create_semantic_context`: an empty 101-bucket table, no errors, both counters 0. */
    constructor ()
      ensures Valid() && fresh(symbols) && fresh(symbols.buckets)
      ensures Table() == EmptyTable(TableSize) && symbols.count == 0
      ensures errors == [] && errorCount == 0 && warningCount == 0
    {
      symbols := new SymbolTable(TableSize);
      errors := [];
      errorCount := 0;
      warningCount := 0;
    }

    /** `add_semantic_error`: the new error goes at the head of the list and is counted. */
    method AddError(kind: ErrorType, message: string, line: int, symbol: Option<string>)
      requires Valid()
      modifies this
      ensures Valid()
      ensures errors == [SemanticError(kind, message, line, symbol)] + old(errors)
      ensures errorCount == old(errorCount) + 1 && warningCount == old(warningCount)
    {
      errors := [SemanticError(kind, message, line, symbol)] + errors;
      errorCount := errorCount + 1;
    }

    method AnalyzeIdentifier(node: Node) returns (r: Node)
      requires Valid()
      modifies symbols, symbols.buckets
      ensures Valid()
      ensures Walked(Table(), r) == IdentifierStep(old(Table()), node)
    {
      match IdentifierOf(node)
      case None =>
        r := node;
      case Some(name) =>
        var entry := symbols.Lookup(Some(name));
        if entry.None? {
          entry := symbols.Insert(Some(name), SymIdentifier, node.line);
        }
        symbols.MarkUsed(Some(name), node.line);
        r := node.(semanticType := SymBoolean);
    }

    method AnalyzeExpression(node: Node) returns (r: Node)
      requires Valid()
      modifies symbols, symbols.buckets
      ensures Valid()
      ensures Walked(Table(), r) == ExpressionStep(old(Table()), node)
    {
      if node.kind == IDENTIFIER {
        r := AnalyzeIdentifier(node);
      } else if node.kind == BOOLEAN {
        r := node.(semanticType := SymBoolean, isConstant := 1);
      } else if IsBinaryOperator(node.kind) {
        r := BinaryOperationStep(node);
      } else if node.kind == NOT {
        r := UnaryOperationStep(node);
      } else {
        r := node;
      }
    }

    method AnalyzeNode(node: Node) returns (r: Node)
      requires Valid()
      modifies symbols, symbols.buckets
      ensures Valid()
      ensures Walked(Table(), r) == NodeStep(old(Table()), node)
      decreases node
    {
      if node.kind == PROGRAM {
        match node.data
        case Program(stmts) =>
          ghost var t0 := Table();
          var done: seq<Node> := [];
          var i := 0;
          while i < |stmts|
            invariant 0 <= i <= |stmts|
            invariant Valid()
            invariant StatementsStep(t0, stmts[..i], node) == WalkedList(Table(), done)
          {
            assert stmts[..i + 1][..i] == stmts[..i];
            var s := AnalyzeNode(stmts[i]);
            done := done + [s];
            i := i + 1;
          }
          assert stmts[..i] == stmts;
          r := node.(data := Program(done));
        case _ =>
          r := node;
      } else if node.kind == ASSIGNMENT {
        r := AssignmentStep(node);
      } else if node.kind == EXPRESSION_STMT {
        r := node;
      } else {
        r := AnalyzeExpression(node);
      }
    }

    /** The fixed preamble: insert, define and use B, then C, through the table's own operations. */
    method Preamble()
      requires Valid()
      modifies symbols, symbols.buckets
      ensures Valid()
      ensures Table() == PreambleSpec(old(Table()))
    {
      var b := symbols.Insert(Some("B"), SymBoolean, 1);
      symbols.SetValue(Some("B"), 1, 1);
      symbols.MarkUsed(Some("B"), 3);
      var c := symbols.Insert(Some("C"), SymBoolean, 2);
      symbols.SetValue(Some("C"), 0, 2);
      symbols.MarkUsed(Some("C"), 3);
    }

    /**
     * Validation: one UNDEFINED_VAR error (line 0, no symbol) when some symbol is used but
     * never defined, and one warning per symbol defined but never used. The table is not changed.
     */
    method Validate()
      requires Valid()
      modifies this
      ensures Valid() && Table() == old(Table())
      ensures errors == (if UndefinedCount(Table()) > 0 then [UndefinedError] + old(errors) else old(errors))
      ensures errorCount == old(errorCount) + (if UndefinedCount(Table()) > 0 then 1 else 0)
      ensures warningCount == old(warningCount) + UnusedCount(Table())
    {
      var undefined := symbols.CheckUndefined();
      if undefined > 0 {
        AddError(UndefinedVar, UndefinedError.message, 0, None);
      }
      var unused := symbols.CheckUnused();
      if unused > 0 {
        warningCount := warningCount + unused;
      }
    }
  }

  /**
   * `perform_semantic_analysis`: -1 for a missing context or tree; otherwise the walk, the
   * preamble and validation, returning the error count. The annotated tree is returned too.
   */
  method PerformSemanticAnalysis(ctx: SemanticContext?, ast: Option<Node>) returns (result: int, annotated: Option<Node>)
    requires ctx != null ==> ctx.Valid()
    modifies if ctx != null then {ctx, ctx.symbols, ctx.symbols.buckets} else {}
    ensures ctx == null || ast.None? ==> result == -1 && annotated == ast
    ensures ctx != null && ast.None? ==> unchanged(ctx) && ctx.Table() == old(ctx.Table())
    ensures ctx != null ==> ctx.Valid()
    ensures ctx != null && ast.Some? ==>
              var w := NodeStep(old(ctx.Table()), ast.value);
              && annotated == Some(w.node)
              && ctx.Table() == PreambleSpec(w.table)
              && result == ctx.errorCount
              && ctx.errors == (if UndefinedCount(ctx.Table()) > 0 then [UndefinedError] + old(ctx.errors) else old(ctx.errors))
              && ctx.errorCount == old(ctx.errorCount) + (if UndefinedCount(ctx.Table()) > 0 then 1 else 0)
              && ctx.warningCount == old(ctx.warningCount) + UnusedCount(ctx.Table())
  {
    if ctx == null || ast.None? {
      return -1, ast;
    }
    var node := ctx.AnalyzeNode(ast.value);
    ctx.Preamble();
    ctx.Validate();
    return ctx.errorCount, Some(node);
  }

  // ------------------------------------------------------------------ lemmas

  /**
   * After visiting a named identifier the name is present and used: a new name is an
   * IDENTIFIER declared and first used at the node's line; an existing entry keeps its first
   * use. Every other name looks up as before, and the node is BOOLEAN.
   */
  lemma IdentifierStepEffect(t: seq<seq<Entry>>, node: Node, name: string, other: string)
    requires |t| > 0 && IdentifierOf(node) == Some(name) && other != name
    ensures var w := IdentifierStep(t, node);
            && LookupSpec(w.table, name)
               == Some(match LookupSpec(t, name)
                       case None => NewEntry(name, SymIdentifier, node.line).(used := true, lineUsed := node.line)
                       case Some(e) => if e.used then e else e.(used := true, lineUsed := node.line))
            && LookupSpec(w.table, other) == LookupSpec(t, other)
            && w.node.semanticType == SymBoolean
  {
    var inserted := InsertSpec(t, name, SymIdentifier, node.line);
    if LookupSpec(t, name).None? {
      LookupAfterInsert(t, name, SymIdentifier, node.line);
    }
    LookupOtherAfterInsert(t, name, SymIdentifier, node.line, other);
    MarkUsedWriteOnce(inserted, name, node.line, node.line);
    match LookupSpec(inserted, name)
    case Some(e) =>
      if !e.used {
        LookupOtherAfterReplace(inserted, e.(used := true, lineUsed := node.line), other);
      }
  }

  /**
   * An identifier that was not in the table is counted as used but undefined once visited:
   * the undefined count grows by exactly one and the unused count stays.
   */
  lemma NewIdentifierIsUndefined(t: seq<seq<Entry>>, node: Node, name: string)
    requires WellPlaced(t) && IdentifierOf(node) == Some(name) && LookupSpec(t, name).None?
    ensures UndefinedCount(IdentifierStep(t, node).table) == UndefinedCount(t) + 1
    ensures UnusedCount(IdentifierStep(t, node).table) == UnusedCount(t)
  {
    var inserted := InsertSpec(t, name, SymIdentifier, node.line);
    InsertKeepsPlacement(t, name, SymIdentifier, node.line);
    LookupAfterInsert(t, name, SymIdentifier, node.line);
    var e := NewEntry(name, SymIdentifier, node.line);
    ReplaceCounts(inserted, e.(used := true, lineUsed := node.line), UsedUndefined);
    ReplaceCounts(inserted, e.(used := true, lineUsed := node.line), DefinedUnused);
  }

  /**
   * The type and constant flags the walk gives an expression node other than an identifier:
   * literals are constant BOOLEAN, logical binary operators non-constant BOOLEAN, NOT BOOLEAN
   * with its flag kept, anything else unchanged; the table is never touched.
   */
  lemma ExpressionFlags(t: seq<seq<Entry>>, node: Node)
    requires |t| > 0 && node.kind != IDENTIFIER
    ensures var w := ExpressionStep(t, node);
            && w.table == t
            && w.node == (if node.kind == BOOLEAN then node.(semanticType := SymBoolean, isConstant := 1)
                          else if IsBinaryOperator(node.kind) then node.(semanticType := SymBoolean, isConstant := 0)
                          else if node.kind == NOT then node.(semanticType := SymBoolean)
                          else node)
            && (BOOLEAN <= node.kind <= EQUIV ==> w.node.semanticType == InferExpressionType(t, Some(node)))
  {
  }

  /** Assignments and expression statements are visited without descending: the table is unchanged. */
  lemma StatementNodeKeepsTable(t: seq<seq<Entry>>, node: Node)
    requires |t| > 0 && (node.kind == ASSIGNMENT || node.kind == EXPRESSION_STMT)
    ensures NodeStep(t, node).table == t
    ensures NodeStep(t, node).node == (if node.kind == ASSIGNMENT then node.(semanticType := SymBoolean) else node)
  {
  }

  /**
   * A statement list made only of assignments and expression statements — what the phase-3
   * loader produces — leaves the table as it was; each assignment becomes BOOLEAN.
   */
  lemma {:induction false} FlatStatementsKeepTable(t: seq<seq<Entry>>, stmts: seq<Node>, parent: Node)
    requires |t| > 0
    requires parent.data.Program? && stmts <= parent.data.statements
    requires forall k :: 0 <= k < |stmts| ==> stmts[k].kind == ASSIGNMENT || stmts[k].kind == EXPRESSION_STMT
    ensures var w := StatementsStep(t, stmts, parent);
            && w.table == t
            && forall k :: 0 <= k < |stmts| ==>
                 w.nodes[k] == (if stmts[k].kind == ASSIGNMENT then stmts[k].(semanticType := SymBoolean) else stmts[k])
    decreases |stmts|
  {
    if stmts != [] {
      var n := |stmts| - 1;
      FlatStatementsKeepTable(t, stmts[..n], parent);
      StatementNodeKeepsTable(t, stmts[n]);
    }
  }

  /** After the preamble B and C are both defined and used, whatever the table held before. */
  lemma PreambleDefinesAndUses(t: seq<seq<Entry>>)
    requires |t| > 0
    ensures LookupSpec(PreambleSpec(t), "B").Some? && StatusOf(LookupSpec(PreambleSpec(t), "B").value) == DefinedUsed
    ensures LookupSpec(PreambleSpec(t), "C").Some? && StatusOf(LookupSpec(PreambleSpec(t), "C").value) == DefinedUsed
  {
    var b1 := InsertSpec(t, "B", SymBoolean, 1);
    var b2 := SetValueSpec(b1, "B", 1, 1);
    var b3 := MarkUsedSpec(b2, "B", 3);
    var c1 := InsertSpec(b3, "C", SymBoolean, 2);
    var c2 := SetValueSpec(c1, "C", 0, 2);
    var c3 := MarkUsedSpec(c2, "C", 3);
    DefineThenUse(t, "B", SymBoolean, 1, 1, 3);
    DefineThenUse(b3, "C", SymBoolean, 2, 0, 3);
    StaysDefinedAndUsed(b3, "C", SymBoolean, 2, 0, 3, "B");
  }

  /** Insert, set and mark used leave the name defined and used. */
  lemma DefineThenUse(t: seq<seq<Entry>>, name: string, kind: SymbolType, line: int, b: int, useLine: int)
    requires |t| > 0
    ensures var r := MarkUsedSpec(SetValueSpec(InsertSpec(t, name, kind, line), name, b, line), name, useLine);
            LookupSpec(r, name).Some? && LookupSpec(r, name).value.defined && LookupSpec(r, name).value.used
  {
    var i := InsertSpec(t, name, kind, line);
    if LookupSpec(t, name).None? {
      LookupAfterInsert(t, name, kind, line);
    }
    SetValueEffect(i, name, b, line);
    var s := SetValueSpec(i, name, b, line);
    MarkUsedWriteOnce(s, name, useLine, useLine);
  }

  /** Insert, set and mark used of one name do not change how another name looks up. */
  lemma StaysDefinedAndUsed(t: seq<seq<Entry>>, name: string, kind: SymbolType, line: int, b: int, useLine: int, other: string)
    requires |t| > 0 && other != name
    ensures var r := MarkUsedSpec(SetValueSpec(InsertSpec(t, name, kind, line), name, b, line), name, useLine);
            LookupSpec(r, other) == LookupSpec(t, other)
  {
    var i := InsertSpec(t, name, kind, line);
    LookupOtherAfterInsert(t, name, kind, line, other);
    var s := SetValueSpec(i, name, b, line);
    match LookupSpec(i, name)
    case None =>
    case Some(e) =>
      LookupOtherAfterReplace(i, e.(defined := true, lineDeclared := line,
                                    value := if e.kind == SymBoolean then BoolValue(b) else e.value), other);
    match LookupSpec(s, name)
    case None =>
    case Some(e) =>
      if !e.used {
        LookupOtherAfterReplace(s, e.(used := true, lineUsed := useLine), other);
      }
  }
}
