/**
 * Phase 3 end to end: the tree the reloader builds from a dump, analysed in a fresh context.
 * The reloader only ever attaches ASSIGNMENT and EXPRESSION_STMT nodes, the walk never looks
 * inside those, so the only symbols are the preamble's B and C, both defined and used: the
 * analysis reports no error and no warning, whatever the dump held.
 */
module Pipeline {
  import opened Wrappers
  import opened Symbols
  import opened SemanticAst
  import opened AstLoader
  import opened SemanticAnalyzer

  /** The preamble on an empty table leaves exactly B and C, each in its own bucket. */
  lemma PreambleOnEmpty()
    ensures var p := PreambleSpec(EmptyTable(TableSize));
            && Total(p) == 2
            && UndefinedCount(p) == 0 && UnusedCount(p) == 0
            && LookupSpec(p, "B") == Some(Entry("B", SymBoolean, true, true, 1, 3, BoolValue(1)))
            && LookupSpec(p, "C") == Some(Entry("C", SymBoolean, true, true, 2, 3, BoolValue(0)))
  {
    var e := EmptyTable(TableSize);
    assert Djb2("B") == 5381 * 33 + 66 by {
      assert "B"[..0] == [];
    }
    assert Djb2("C") == 5381 * 33 + 67 by {
      assert "C"[..0] == [];
    }
    assert HashString("B", TableSize) == 81;
    assert HashString("C", TableSize) == 82;
    var eb := Entry("B", SymBoolean, true, true, 1, 3, BoolValue(1));
    var ec := Entry("C", SymBoolean, true, true, 2, 3, BoolValue(0));
    var nb := NewEntry("B", SymBoolean, 1);
    var db := Entry("B", SymBoolean, true, false, 1, -1, BoolValue(1));
    var b1 := InsertSpec(e, "B", SymBoolean, 1);
    assert IndexOf(e[81], "B") == -1;
    assert [nb] + e[81] == [nb];
    assert b1 == e[81 := [nb]];
    assert IndexOf(b1[81], "B") == 0;
    var b2 := SetValueSpec(b1, "B", 1, 1);
    assert b1[81][0 := db] == [db];
    assert b2 == e[81 := [db]];
    assert IndexOf(b2[81], "B") == 0;
    var b3 := MarkUsedSpec(b2, "B", 3);
    assert b2[81][0 := eb] == [eb];
    assert b3 == e[81 := [eb]];
    var nc := NewEntry("C", SymBoolean, 2);
    var dc := Entry("C", SymBoolean, true, false, 2, -1, BoolValue(0));
    var c1 := InsertSpec(b3, "C", SymBoolean, 2);
    assert IndexOf(b3[82], "C") == -1;
    assert [nc] + b3[82] == [nc];
    assert c1 == b3[82 := [nc]];
    assert IndexOf(c1[82], "C") == 0;
    var c2 := SetValueSpec(c1, "C", 0, 2);
    assert c1[82][0 := dc] == [dc];
    assert c2 == b3[82 := [dc]];
    assert IndexOf(c2[82], "C") == 0;
    var p := MarkUsedSpec(c2, "C", 3);
    assert c2[82][0 := ec] == [ec];
    assert p == b3[82 := [ec]];
    assert IndexOf(p[81], "B") == 0 && IndexOf(p[82], "C") == 0;
    EmptyTotal(e);
    TotalUpdate(e, 81, [eb]);
    TotalUpdate(b3, 82, [ec]);
    assert ChainCount([eb], UsedUndefined) == 0 && ChainCount([eb], DefinedUnused) == 0 by {
      assert [eb][..0] == [];
    }
    assert ChainCount([ec], UsedUndefined) == 0 && ChainCount([ec], DefinedUnused) == 0 by {
      assert [ec][..0] == [];
    }
  }

  /**
   * Whatever lines are loaded, the walk over the loaded tree leaves the table as it was, and
   * after the preamble nothing is undefined or unused.
   */
  lemma LoadedTreeAnalysis(lines: seq<string>)
    requires Load(lines).Some?
    ensures var w := NodeStep(EmptyTable(TableSize), Load(lines).value);
            && w.table == EmptyTable(TableSize)
            && UndefinedCount(PreambleSpec(w.table)) == 0
            && UnusedCount(PreambleSpec(w.table)) == 0
  {
    var root := Load(lines).value;
    LoadShape(lines);
    FlatStatementsKeepTable(EmptyTable(TableSize), root.data.statements, root);
    PreambleOnEmpty();
  }

  /**
   * The phase-3 driver on a dump: load it; without a tree, stop with exit status 1 before
   * any context exists; otherwise analyse the tree in a fresh context and exit with 0 when
   * the analysis returned 0 and 1 otherwise. `analysis` is what `perform_semantic_analysis`
   * returned, when it ran. Any loaded tree analyses with 0 errors and 0 warnings.
   */
  method LoadAndAnalyze(lines: seq<string>) returns (status: int, analysis: Option<int>, warnings: int)
    ensures Load(lines).None? ==> status == 1 && analysis == None && warnings == 0
    ensures Load(lines).Some? ==> analysis == Some(0) && warnings == 0 && status == 0
  {
    var ast := LoadAstFromFile(lines);
    if ast.None? {
      return 1, None, 0;
    }
    var ctx := new SemanticContext();
    var result, annotated := PerformSemanticAnalysis(ctx, ast);
    LoadedTreeAnalysis(lines);
    analysis := Some(result);
    warnings := ctx.warningCount;
    status := if result == 0 then 0 else 1;
  }
}
