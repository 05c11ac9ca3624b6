/**
 * The two text helpers that both AST reloaders define (phase3/ast_loader.c and, as a verbatim
 * copy, phase4/ast_loader_phase4.c): `trim_whitespace` and the keyword classifier
 * `parse_node_type`. Both copies are modelled once, here.
 */
module LoaderText {
  import opened Text

  function TrimLeft(s: string): (r: string)
    ensures |r| <= |s| && r == s[|s| - |r|..]
    ensures r == [] || !IsSpace(r[0])
    ensures forall k :: 0 <= k < |s| - |r| ==> IsSpace(s[k])
  {
    if s != [] && IsSpace(s[0]) then TrimLeft(s[1..]) else s
  }

  function TrimRight(s: string): (r: string)
    ensures |r| <= |s| && r == s[..|r|]
    ensures r == [] || !IsSpace(r[|r| - 1])
    ensures forall k :: |r| <= k < |s| ==> IsSpace(s[k])
  {
    if s != [] && IsSpace(s[|s| - 1]) then TrimRight(s[..|s| - 1]) else s
  }

  /**
   * `trim_whitespace`: the text left once leading and trailing white space is cut off. The C
   * function does this in place (advancing the pointer and writing a NUL after the last
   * non-space character); here it returns the remaining text.
   */
  function Trim(s: string): (r: string)
    ensures var i := |s| - |TrimLeft(s)|;
            i + |r| <= |s| && r == s[i..i + |r|]
            && (forall k :: 0 <= k < i ==> IsSpace(s[k]))
            && (forall k :: i + |r| <= k < |s| ==> IsSpace(s[k]))
    ensures r == [] || (!IsSpace(r[0]) && !IsSpace(r[|r| - 1]))
    ensures r == [] <==> forall k :: 0 <= k < |s| ==> IsSpace(s[k])
  {
    var l := TrimLeft(s);
    var r := TrimRight(l);
    TrimShape(s, l, r);
    TrimBlank(s, l, r);
    r
  }

  lemma TrimShape(s: string, l: string, r: string)
    requires |l| <= |s| && l == s[|s| - |l|..]
    requires |r| <= |l| && r == l[..|r|] && forall k :: |r| <= k < |l| ==> IsSpace(l[k])
    ensures var i := |s| - |l|;
            i + |r| <= |s| && r == s[i..i + |r|]
            && (forall k :: i + |r| <= k < |s| ==> IsSpace(s[k]))
  {
    var i := |s| - |l|;
    assert l == s[i..];
    forall k | 0 <= k < |l| ensures l[k] == s[i + k] {
    }
    forall k | 0 <= k < |r| ensures r[k] == s[i + k] {
      assert r[k] == l[k];
    }
    assert r == s[i..i + |r|];
    forall k | i + |r| <= k < |s| ensures IsSpace(s[k]) {
      assert s[k] == l[k - i];
    }
  }

  lemma TrimBlank(s: string, l: string, r: string)
    requires l == TrimLeft(s) && r == TrimRight(l)
    ensures r == [] ==> forall k :: 0 <= k < |s| ==> IsSpace(s[k])
  {
    if r == [] {
      assert l == [];
    }
  }

  /** Trimming indentation in front of text that neither starts nor ends with white space gives the text. */
  lemma TrimPadded(pad: string, t: string)
    requires forall k :: 0 <= k < |pad| ==> pad[k] == ' '
    requires t != [] && !IsSpace(t[0]) && !IsSpace(t[|t| - 1])
    ensures Trim(pad + t) == t
  {
    var s := pad + t;
    TrimLeftPadded(pad, t);
    assert TrimLeft(s) == t;
  }

  lemma {:induction false} TrimLeftPadded(pad: string, t: string)
    requires forall k :: 0 <= k < |pad| ==> pad[k] == ' '
    requires t != [] && !IsSpace(t[0])
    ensures TrimLeft(pad + t) == t
    decreases |pad|
  {
    if pad != [] {
      var s := pad + t;
      assert s[0] == ' ';
      assert s[1..] == pad[1..] + t;
      assert TrimLeft(s) == TrimLeft(s[1..]);
      TrimLeftPadded(pad[1..], t);
    } else {
      assert pad + t == t;
    }
  }

  /** Whatever the trimmed text contains, the line contains. */
  lemma TrimContains(s: string, pat: string)
    requires Contains(Trim(s), pat)
    ensures Contains(s, pat)
  {
    var r := Trim(s);
    var i := |s| - |TrimLeft(s)|;
    ContainsSlice(s, i, i + |r|, pat);
  }

  /** The keywords `parse_node_type` tests, in the order it tests them; kind k is the k-th (from 1). */
  const Keywords: seq<string> := ["PROGRAM", "ASSIGNMENT", "EXPRESSION_STMT", "IDENTIFIER", "BOOLEAN",
                                  "AND", "OR", "NOT", "XOR", "IMPLIES", "IFF", "EQUIV"]

  /**
   * `parse_node_type`: the 1-based position of the first keyword, in the fixed order above,
   * that occurs anywhere in the text; 0 when none does. Because "XOR" contains "OR" and OR is
   * checked first, the result is never 9 (XOR).
   */
  function ParseNodeType(s: string): (r: int)
    ensures 0 <= r <= 12 && r != 9
    ensures r > 0 ==> Contains(s, Keywords[r - 1])
    ensures forall k :: 0 <= k < (if r == 0 then |Keywords| else r - 1) ==> !Contains(s, Keywords[k])
  {
    XorContainsOr(s);
    if Contains(s, "PROGRAM") then 1
    else if Contains(s, "ASSIGNMENT") then 2
    else if Contains(s, "EXPRESSION_STMT") then 3
    else if Contains(s, "IDENTIFIER") then 4
    else if Contains(s, "BOOLEAN") then 5
    else if Contains(s, "AND") then 6
    else if Contains(s, "OR") then 7
    else if Contains(s, "NOT") then 8
    else if Contains(s, "XOR") then 9
    else if Contains(s, "IMPLIES") then 10
    else if Contains(s, "IFF") then 11
    else if Contains(s, "EQUIV") then 12
    else 0
  }

  lemma XorContainsOr(s: string)
    ensures Contains(s, "XOR") ==> Contains(s, "OR")
  {
    if Contains(s, "XOR") {
      var i := ContainsWitness(s, "XOR");
      assert s[i + 1..i + 3] == "OR";
      ContainsAt(s, "OR", i + 1);
    }
  }

  /** Any text mentioning XOR is classified no later than OR: as kind 7 unless an earlier keyword occurs. */
  lemma XorReadsAsOr(s: string)
    requires Contains(s, "XOR")
    ensures 1 <= ParseNodeType(s) <= 7
  {
    XorContainsOr(s);
  }

  /** A line terminator after text that neither starts nor ends with white space is trimmed away, and only it. */
  lemma TrimNewline(t: string)
    requires t != [] && !IsSpace(t[0]) && !IsSpace(t[|t| - 1])
    ensures TrimRight(t + "\n") == t
    ensures Trim(t + "\n") == t
  {
    var s := t + "\n";
    assert s[..|s| - 1] == t;
    assert TrimLeft(s) == s;
  }
}
