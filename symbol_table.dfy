/**
 * The phase-3 symbol table (phase3/symbol_table.h, phase3/symbol_table.c): a chained hash
 * table of symbol entries keyed by the djb2 hash of the name, with insert-if-absent, lookup,
 * first-use marking, value setting and the two counting queries.
 *
 * The buckets are an array whose elements are the chains, head first; an entry is a value
 * and the methods that change an entry write the changed entry back into its chain.
 */
module Symbols {
  import opened Wrappers

  /** `SymbolType`. */
  datatype SymbolType = SymBoolean | SymIdentifier | SymFunction | SymPredicate | SymUnknown

  /** `symbol_type_to_string`. */
  function SymbolTypeName(t: SymbolType): (r: string)
    ensures r in {"BOOLEAN", "IDENTIFIER", "FUNCTION", "PREDICATE", "UNKNOWN"}
    ensures SymbolTypeOfName(r) == Some(t)
  {
    match t
    case SymBoolean => "BOOLEAN"
    case SymIdentifier => "IDENTIFIER"
    case SymFunction => "FUNCTION"
    case SymPredicate => "PREDICATE"
    case SymUnknown => "UNKNOWN"
  }

  /** Reading a type name back; the inverse of `SymbolTypeName`. */
  function SymbolTypeOfName(s: string): Option<SymbolType> {
    if s == "BOOLEAN" then Some(SymBoolean)
    else if s == "IDENTIFIER" then Some(SymIdentifier)
    else if s == "FUNCTION" then Some(SymFunction)
    else if s == "PREDICATE" then Some(SymPredicate)
    else if s == "UNKNOWN" then Some(SymUnknown)
    else None
  }

  /** The `value` union: an int for BOOLEAN symbols, otherwise a string pointer (NULL). */
  datatype SymbolValue = BoolValue(b: int) | StrValue(s: Option<string>)

  /** `SymbolEntry` without its `next` link (the chain order gives it). */
  datatype Entry = Entry(name: string, kind: SymbolType, defined: bool, used: bool,
                         lineDeclared: int, lineUsed: int, value: SymbolValue)

  // ------------------------------------------------------------------ the hash

  const Two32: int := 0x1_0000_0000

  /**
   * The value a character adds to the hash: `int c = *str` reads a signed `char`, so a byte
   * of 128 or more counts as negative. A `char` stands for one byte (its low eight bits).
   */
  function CharValue(c: char): (v: int)
    ensures -128 <= v < 128
  {
    var b := c as int % 256;
    if b >= 128 then b - 256 else b
  }

  /** djb2 with the unsigned 32-bit arithmetic of the C loop: `hash = hash * 33 + c` from 5381. */
  function Djb2(s: string): (h: int)
    ensures 0 <= h < Two32
  {
    if s == [] then 5381 else (Djb2(s[..|s| - 1]) * 33 + CharValue(s[|s| - 1])) % Two32
  }

  /** `hash_string`: the bucket index of a name. */
  function HashString(s: string, size: int): (r: int)
    requires size > 0
    ensures 0 <= r < size
  {
    Djb2(s) % size
  }

  /** The djb2 polynomial in unbounded integers: 5381·33^n + Σ c_i·33^(n-1-i). */
  function Djb2Polynomial(s: string): int {
    if s == [] then 5381 else Djb2Polynomial(s[..|s| - 1]) * 33 + CharValue(s[|s| - 1])
  }

  /** Wrapping after every step is the same as wrapping once at the end. */
  lemma {:induction false} Djb2IsPolynomialMod(s: string)
    ensures Djb2(s) == Djb2Polynomial(s) % Two32
  {
    if s != [] {
      var t := s[..|s| - 1];
      var c := CharValue(s[|s| - 1]);
      Djb2IsPolynomialMod(t);
      ModStep(Djb2Polynomial(t), c);
    }
  }

  lemma ModStep(p: int, c: int)
    ensures ((p % Two32) * 33 + c) % Two32 == (p * 33 + c) % Two32
  {
    var q := p / Two32;
    assert p == q * Two32 + p % Two32;
    assert p * 33 + c == (p % Two32) * 33 + c + (33 * q) * Two32;
  }

  // ------------------------------------------------------------ chains as values

  /** Position of the first entry named `name` in a chain, head first; -1 when there is none. */
  function IndexOf(chain: seq<Entry>, name: string): (r: int)
    ensures -1 <= r < |chain|
    ensures r == -1 <==> forall k :: 0 <= k < |chain| ==> chain[k].name != name
    ensures r >= 0 ==> chain[r].name == name && forall k :: 0 <= k < r ==> chain[k].name != name
  {
    if chain == [] then -1
    else if chain[0].name == name then 0
    else
      var r := IndexOf(chain[1..], name);
      if r < 0 then -1 else r + 1
  }

  /** Entries lie in the bucket their name hashes to, and a bucket names each symbol once. */
  ghost predicate WellPlaced(buckets: seq<seq<Entry>>)
  {
    |buckets| > 0
    && (forall i, k :: 0 <= i < |buckets| && 0 <= k < |buckets[i]| ==>
          HashString(buckets[i][k].name, |buckets|) == i)
    && (forall i, k, m :: 0 <= i < |buckets| && 0 <= k < m < |buckets[i]| ==>
          buckets[i][k].name != buckets[i][m].name)
  }

  /** `lookup_symbol` on table contents. */
  function LookupSpec(buckets: seq<seq<Entry>>, name: string): (e: Option<Entry>)
    requires |buckets| > 0
    ensures e.Some? ==> e.value.name == name
  {
    var chain := buckets[HashString(name, |buckets|)];
    var j := IndexOf(chain, name);
    if j < 0 then None else Some(chain[j])
  }

  /** A freshly inserted entry: neither defined nor used, first use -1, zero value. */
  function NewEntry(name: string, kind: SymbolType, line: int): Entry {
    Entry(name, kind, false, false, line, -1, if kind == SymBoolean then BoolValue(0) else StrValue(None))
  }

  /** `insert_symbol` on table contents: the existing entry wins; otherwise prepend a new one. */
  function InsertSpec(buckets: seq<seq<Entry>>, name: string, kind: SymbolType, line: int): seq<seq<Entry>>
    requires |buckets| > 0
  {
    if LookupSpec(buckets, name).Some? then buckets
    else
      var h := HashString(name, |buckets|);
      buckets[h := [NewEntry(name, kind, line)] + buckets[h]]
  }

  /** Writing a changed entry back over the first entry with the same name. */
  function Replace(buckets: seq<seq<Entry>>, e: Entry): seq<seq<Entry>>
    requires |buckets| > 0
  {
    var h := HashString(e.name, |buckets|);
    var j := IndexOf(buckets[h], e.name);
    if j < 0 then buckets else buckets[h := buckets[h][j := e]]
  }

  /** `mark_symbol_used` on table contents: only the first use is recorded. */
  function MarkUsedSpec(buckets: seq<seq<Entry>>, name: string, line: int): seq<seq<Entry>>
    requires |buckets| > 0
  {
    match LookupSpec(buckets, name)
    case None => buckets
    case Some(e) => if e.used then buckets else Replace(buckets, e.(used := true, lineUsed := line))
  }

  /** `set_symbol_value` on table contents: defined, declared at `line`, value kept only for BOOLEAN. */
  function SetValueSpec(buckets: seq<seq<Entry>>, name: string, b: int, line: int): seq<seq<Entry>>
    requires |buckets| > 0
  {
    match LookupSpec(buckets, name)
    case None => buckets
    case Some(e) =>
      Replace(buckets, e.(defined := true, lineDeclared := line,
                          value := if e.kind == SymBoolean then BoolValue(b) else e.value))
  }

  // ------------------------------------------------------------------- counting

  /** How an entry stands with respect to definition and use. */
  datatype Status = UsedUndefined | DefinedUnused | DefinedUsed | Untouched

  function StatusOf(e: Entry): Status {
    if e.used && !e.defined then UsedUndefined
    else if e.defined && !e.used then DefinedUnused
    else if e.defined then DefinedUsed
    else Untouched
  }

  function ChainCount(chain: seq<Entry>, s: Status): nat
    ensures ChainCount(chain, s) <= |chain|
  {
    if chain == [] then 0
    else ChainCount(chain[..|chain| - 1], s) + (if StatusOf(chain[|chain| - 1]) == s then 1 else 0)
  }

  /** Number of entries in the given status, bucket by bucket. */
  function CountStatus(buckets: seq<seq<Entry>>, s: Status): nat {
    if buckets == [] then 0
    else CountStatus(buckets[..|buckets| - 1], s) + ChainCount(buckets[|buckets| - 1], s)
  }

  /** Number of entries in the table. */
  function Total(buckets: seq<seq<Entry>>): nat {
    if buckets == [] then 0 else Total(buckets[..|buckets| - 1]) + |buckets[|buckets| - 1]|
  }

  /** `check_undefined_symbols`: entries used but never defined. */
  function UndefinedCount(buckets: seq<seq<Entry>>): nat {
    CountStatus(buckets, UsedUndefined)
  }

  /** `check_unused_symbols`: entries defined but never used. */
  function UnusedCount(buckets: seq<seq<Entry>>): nat {
    CountStatus(buckets, DefinedUnused)
  }

  /**
   * The table is a `size`-slot array of chains and a running count. `buckets` and `size`
   * never change after `create_symbol_table`; the chains do.
   */
  class SymbolTable {
    const size: int
    const buckets: array<seq<Entry>>
    var count: int

    ghost predicate Valid()
      reads this, buckets
    {
      size == buckets.Length && size > 0 && WellPlaced(buckets[..]) && count == Total(buckets[..])
    }

    /** The chains, head first, bucket by bucket. */
    function Chains(): seq<seq<Entry>>
      reads this, buckets
    {
      buckets[..]
    }

    /** `create_symbol_table`: `size` empty buckets and no symbols. */
    constructor (size: int)
      requires size > 0
      ensures Valid() && fresh(buckets)
      ensures this.size == size && count == 0
      ensures forall i :: 0 <= i < size ==> Chains()[i] == []
    {
      this.size := size;
      buckets := new seq<Entry>[size](_ => []);
      count := 0;
      new;
      EmptyTotal(buckets[..]);
    }

    /** The position of the entry `lookup_symbol` finds: its chain index, or -1. */
    method Locate(name: string) returns (h: int, j: int)
      requires Valid()
      ensures h == HashString(name, size) && j == IndexOf(Chains()[h], name)
    {
      h := HashString(name, size);
      var chain := buckets[h];
      j := 0;
      while j < |chain|
        invariant 0 <= j <= |chain|
        invariant forall k :: 0 <= k < j ==> chain[k].name != name
      {
        if chain[j].name == name {
          return;
        }
        j := j + 1;
      }
      j := -1;
    }

    /** `lookup_symbol`: the entry with this name, None for an absent or NULL name. */
    method Lookup(name: Option<string>) returns (e: Option<Entry>)
      requires Valid()
      ensures name.None? ==> e.None?
      ensures name.Some? ==> e == LookupSpec(Chains(), name.value)
    {
      if name.None? {
        return None;
      }
      var h, j := Locate(name.value);
      if j < 0 {
        e := None;
      } else {
        e := Some(buckets[h][j]);
      }
    }

    /**
     * `insert_symbol`: an existing entry is returned as it is; otherwise a new entry goes at
     * the head of its bucket and the count grows by one. A NULL name changes nothing.
     */
    method Insert(name: Option<string>, kind: SymbolType, line: int) returns (e: Option<Entry>)
      requires Valid()
      modifies this, buckets
      ensures Valid()
      ensures name.None? ==> e.None? && Chains() == old(Chains()) && count == old(count)
      ensures name.Some? ==> Chains() == InsertSpec(old(Chains()), name.value, kind, line)
      ensures name.Some? ==> e == LookupSpec(Chains(), name.value) && e.Some?
      ensures name.Some? ==> count == old(count) + (if LookupSpec(old(Chains()), name.value).Some? then 0 else 1)
    {
      if name.None? {
        return None;
      }
      var existing := Lookup(name);
      if existing.Some? {
        return existing;
      }
      var n := name.value;
      var h := HashString(n, size);
      var entry := NewEntry(n, kind, line);
      ghost var before := buckets[..];
      InsertKeepsPlacement(before, n, kind, line);
      buckets[h] := [entry] + buckets[h];
      count := count + 1;
      assert buckets[..] == InsertSpec(before, n, kind, line);
      LookupAfterInsert(before, n, kind, line);
      e := Some(entry);
    }

    /** `mark_symbol_used`: the first call records the line; later calls and absent names change nothing. */
    method MarkUsed(name: Option<string>, line: int)
      requires Valid()
      modifies buckets
      ensures Valid()
      ensures name.None? ==> Chains() == old(Chains())
      ensures name.Some? ==> Chains() == MarkUsedSpec(old(Chains()), name.value, line)
    {
      if name.None? {
        return;
      }
      var h, j := Locate(name.value);
      if j >= 0 && !buckets[h][j].used {
        ghost var before := buckets[..];
        var e := buckets[h][j];
        ReplaceKeepsPlacement(before, e.(used := true, lineUsed := line));
        buckets[h] := buckets[h][j := e.(used := true, lineUsed := line)];
        assert buckets[..] == Replace(before, e.(used := true, lineUsed := line));
      }
    }

    /** `set_symbol_value`: marks the symbol defined at `line`, storing the value only for BOOLEAN. */
    method SetValue(name: Option<string>, b: int, line: int)
      requires Valid()
      modifies buckets
      ensures Valid()
      ensures name.None? ==> Chains() == old(Chains())
      ensures name.Some? ==> Chains() == SetValueSpec(old(Chains()), name.value, b, line)
    {
      if name.None? {
        return;
      }
      var h, j := Locate(name.value);
      if j >= 0 {
        ghost var before := buckets[..];
        var e := buckets[h][j];
        var e' := e.(defined := true, lineDeclared := line,
                     value := if e.kind == SymBoolean then BoolValue(b) else e.value);
        ReplaceKeepsPlacement(before, e');
        buckets[h] := buckets[h][j := e'];
        assert buckets[..] == Replace(before, e');
      }
    }

    /** The counting loop shared by `check_undefined_symbols` and `check_unused_symbols`. */
    method CountInStatus(s: Status) returns (n: int)
      requires Valid()
      ensures n == CountStatus(Chains(), s)
    {
      n := 0;
      var i := 0;
      while i < size
        invariant 0 <= i <= size
        invariant n == CountStatus(buckets[..i], s)
      {
        var chain := buckets[i];
        var j := 0;
        var m := 0;
        while j < |chain|
          invariant 0 <= j <= |chain|
          invariant m == ChainCount(chain[..j], s)
        {
          if StatusOf(chain[j]) == s {
            m := m + 1;
          }
          j := j + 1;
          assert chain[..j][..j - 1] == chain[..j - 1];
        }
        assert chain[..j] == chain;
        n := n + m;
        i := i + 1;
        assert buckets[..i][..i - 1] == buckets[..i - 1];
      }
      assert buckets[..i] == buckets[..];
    }

    /** `check_undefined_symbols`. */
    method CheckUndefined() returns (n: int)
      requires Valid()
      ensures n == UndefinedCount(Chains())
    {
      n := CountInStatus(UsedUndefined);
    }

    /** `check_unused_symbols`. */
    method CheckUnused() returns (n: int)
      requires Valid()
      ensures n == UnusedCount(Chains())
    {
      n := CountInStatus(DefinedUnused);
    }
  }

  // ------------------------------------------------------------------- lemmas

  lemma {:induction false} EmptyTotal(buckets: seq<seq<Entry>>)
    requires forall i :: 0 <= i < |buckets| ==> buckets[i] == []
    ensures Total(buckets) == 0
    ensures forall s :: CountStatus(buckets, s) == 0
  {
    if buckets != [] {
      EmptyTotal(buckets[..|buckets| - 1]);
    }
  }

  /** Replacing one chain changes the totals by the difference between the two chains. */
  lemma {:induction false} TotalUpdate(buckets: seq<seq<Entry>>, h: int, chain: seq<Entry>)
    requires 0 <= h < |buckets|
    ensures Total(buckets[h := chain]) == Total(buckets) - |buckets[h]| + |chain|
    ensures forall s :: CountStatus(buckets[h := chain], s)
                        == CountStatus(buckets, s) - ChainCount(buckets[h], s) + ChainCount(chain, s)
    decreases |buckets|
  {
    var b: seq<seq<Entry>> := buckets[h := chain];
    var last := |buckets| - 1;
    assert b[..last] == (if h < last then buckets[..last][h := chain] else buckets[..last]);
    if h < last {
      TotalUpdate(buckets[..last], h, chain);
    }
  }

  lemma {:induction false} ChainCountCons(e: Entry, chain: seq<Entry>, s: Status)
    ensures ChainCount([e] + chain, s) == ChainCount(chain, s) + (if StatusOf(e) == s then 1 else 0)
    decreases |chain|
  {
    if chain != [] {
      var c := [e] + chain;
      assert c[..|c| - 1] == [e] + chain[..|chain| - 1];
      ChainCountCons(e, chain[..|chain| - 1], s);
    }
  }

  lemma {:induction false} ChainCountUpdate(chain: seq<Entry>, j: int, e: Entry, s: Status)
    requires 0 <= j < |chain|
    ensures ChainCount(chain[j := e], s)
            == ChainCount(chain, s) - (if StatusOf(chain[j]) == s then 1 else 0) + (if StatusOf(e) == s then 1 else 0)
    decreases |chain|
  {
    var c := chain[j := e];
    var last := |chain| - 1;
    assert ChainCount(c, s) == ChainCount(c[..last], s) + (if StatusOf(c[last]) == s then 1 else 0);
    if j < last {
      assert c[..last] == chain[..last][j := e] && c[last] == chain[last];
      ChainCountUpdate(chain[..last], j, e, s);
    } else {
      assert c[..last] == chain[..last] && c[last] == e;
    }
  }

  lemma InsertKeepsPlacement(buckets: seq<seq<Entry>>, name: string, kind: SymbolType, line: int)
    requires WellPlaced(buckets) && LookupSpec(buckets, name).None?
    ensures WellPlaced(InsertSpec(buckets, name, kind, line))
    ensures Total(InsertSpec(buckets, name, kind, line)) == Total(buckets) + 1
    ensures forall s :: CountStatus(InsertSpec(buckets, name, kind, line), s)
                        == CountStatus(buckets, s) + (if s == Untouched then 1 else 0)
  {
    var h := HashString(name, |buckets|);
    var chain := [NewEntry(name, kind, line)] + buckets[h];
    var b: seq<seq<Entry>> := buckets[h := chain];
    assert b == InsertSpec(buckets, name, kind, line);
    forall k: int, m: int | 0 <= k < m < |chain| ensures chain[k].name != chain[m].name {
      if k > 0 {
        assert chain[k] == buckets[h][k - 1];
      }
      assert chain[m] == buckets[h][m - 1];
    }
    forall i: int, k: int | 0 <= i < |b| && 0 <= k < |b[i]| ensures HashString(b[i][k].name, |b|) == i {
      if i == h && k > 0 {
        assert b[i][k] == buckets[h][k - 1];
      }
    }
    TotalUpdate(buckets, h, chain);
    forall s ensures ChainCount(chain, s) == ChainCount(buckets[h], s) + (if s == Untouched then 1 else 0) {
      ChainCountCons(NewEntry(name, kind, line), buckets[h], s);
    }
  }

  lemma ReplaceKeepsPlacement(buckets: seq<seq<Entry>>, e: Entry)
    requires WellPlaced(buckets)
    ensures WellPlaced(Replace(buckets, e))
    ensures Total(Replace(buckets, e)) == Total(buckets)
  {
    var h := HashString(e.name, |buckets|);
    var j := IndexOf(buckets[h], e.name);
    if j >= 0 {
      var b := buckets[h := buckets[h][j := e]];
      assert b == Replace(buckets, e);
      TotalUpdate(buckets, h, buckets[h][j := e]);
    }
  }

  lemma LookupAfterInsert(buckets: seq<seq<Entry>>, name: string, kind: SymbolType, line: int)
    requires |buckets| > 0 && LookupSpec(buckets, name).None?
    ensures LookupSpec(InsertSpec(buckets, name, kind, line), name) == Some(NewEntry(name, kind, line))
  {
  }

  /** Inserting a name a second time, with any type and line, changes nothing. */
  lemma InsertIdempotent(buckets: seq<seq<Entry>>, name: string, kind: SymbolType, line: int,
                         kind': SymbolType, line': int)
    requires |buckets| > 0
    ensures var b := InsertSpec(buckets, name, kind, line);
            InsertSpec(b, name, kind', line') == b
  {
    if LookupSpec(buckets, name).None? {
      LookupAfterInsert(buckets, name, kind, line);
    }
  }

  /** Inserting one name leaves what every other name looks up to as it was. */
  lemma LookupOtherAfterInsert(buckets: seq<seq<Entry>>, name: string, kind: SymbolType, line: int, other: string)
    requires |buckets| > 0 && other != name
    ensures LookupSpec(InsertSpec(buckets, name, kind, line), other) == LookupSpec(buckets, other)
  {
    if LookupSpec(buckets, name).None? {
      var h := HashString(name, |buckets|);
      var chain := buckets[h];
      if HashString(other, |buckets|) == h {
        IndexOfCons(NewEntry(name, kind, line), chain, other);
      }
    }
  }

  lemma IndexOfCons(e: Entry, chain: seq<Entry>, name: string)
    requires e.name != name
    ensures IndexOf([e] + chain, name) == (if IndexOf(chain, name) < 0 then -1 else IndexOf(chain, name) + 1)
  {
    assert ([e] + chain)[1..] == chain;
  }

  /** The empty table of a given size. */
  function EmptyTable(size: nat): (b: seq<seq<Entry>>)
    ensures |b| == size
  {
    seq(size, _ => [])
  }

  /** Inserting names one after another, each as IDENTIFIER at line 0. */
  function InsertAll(buckets: seq<seq<Entry>>, names: seq<string>): seq<seq<Entry>>
    requires |buckets| > 0
    ensures |InsertAll(buckets, names)| == |buckets|
    decreases |names|
  {
    if names == [] then buckets else InsertAll(InsertSpec(buckets, names[0], SymIdentifier, 0), names[1..])
  }

  /** A name that was never inserted is not found; every inserted name is. */
  lemma {:induction false} LookupAfterInsertAll(buckets: seq<seq<Entry>>, names: seq<string>, name: string)
    requires |buckets| > 0
    ensures LookupSpec(InsertAll(buckets, names), name).Some? <==>
            LookupSpec(buckets, name).Some? || name in names
    decreases |names|
  {
    if names != [] {
      var b := InsertSpec(buckets, names[0], SymIdentifier, 0);
      LookupAfterInsertAll(b, names[1..], name);
      if name == names[0] {
        if LookupSpec(buckets, name).None? {
          LookupAfterInsert(buckets, name, SymIdentifier, 0);
        }
      } else {
        LookupOtherAfterInsert(buckets, names[0], SymIdentifier, 0, name);
        assert name in names <==> name in names[1..];
      }
    }
  }

  /** Every entry of a well-placed table is what looking up its name finds. */
  lemma LookupFindsPresent(buckets: seq<seq<Entry>>, i: int, k: int)
    requires WellPlaced(buckets) && 0 <= i < |buckets| && 0 <= k < |buckets[i]|
    ensures LookupSpec(buckets, buckets[i][k].name) == Some(buckets[i][k])
  {
    var name := buckets[i][k].name;
    assert HashString(name, |buckets|) == i;
    var j := IndexOf(buckets[i], name);
    assert j >= 0 && buckets[i][j].name == name;
    AtMostOneEntryPerName(buckets, i, j, i, k);
  }

  /** In a well-placed table two entries with the same name are the same entry. */
  lemma AtMostOneEntryPerName(buckets: seq<seq<Entry>>, i: int, k: int, i': int, k': int)
    requires WellPlaced(buckets)
    requires 0 <= i < |buckets| && 0 <= k < |buckets[i]|
    requires 0 <= i' < |buckets| && 0 <= k' < |buckets[i']|
    requires buckets[i][k].name == buckets[i'][k'].name
    ensures i == i' && k == k'
  {
    assert i == i' by {
      assert HashString(buckets[i][k].name, |buckets|) == i;
      assert HashString(buckets[i'][k'].name, |buckets|) == i';
    }
  }

  /** After writing an entry back, its name looks up to it (when the name was present). */
  lemma LookupAfterReplace(buckets: seq<seq<Entry>>, e: Entry)
    requires |buckets| > 0
    ensures LookupSpec(Replace(buckets, e), e.name)
            == (if LookupSpec(buckets, e.name).Some? then Some(e) else None)
  {
    var h := HashString(e.name, |buckets|);
    var j := IndexOf(buckets[h], e.name);
    if j >= 0 {
      IndexOfAfterUpdate(buckets[h], j, e);
    }
  }

  lemma IndexOfAfterUpdate(chain: seq<Entry>, j: int, e: Entry)
    requires 0 <= j < |chain| && j == IndexOf(chain, e.name)
    ensures IndexOf(chain[j := e], e.name) == j
  {
    var c := chain[j := e];
    assert forall k :: 0 <= k < j ==> c[k].name != e.name;
    assert c[j].name == e.name;
  }

  /**
   * `mark_symbol_used` is write-once: the entry ends up used, keeping the line of its first
   * use if it had one and taking `line` otherwise, and a second call changes nothing.
   */
  lemma MarkUsedWriteOnce(buckets: seq<seq<Entry>>, name: string, line: int, line': int)
    requires |buckets| > 0
    ensures var b := MarkUsedSpec(buckets, name, line);
            && LookupSpec(b, name) == (match LookupSpec(buckets, name)
                                       case None => None
                                       case Some(e) => Some(if e.used then e else e.(used := true, lineUsed := line)))
            && MarkUsedSpec(b, name, line') == b
  {
    match LookupSpec(buckets, name)
    case None =>
    case Some(e) =>
      if !e.used {
        LookupAfterReplace(buckets, e.(used := true, lineUsed := line));
      }
  }

  /** `set_symbol_value` defines the entry at `line`; only a BOOLEAN entry takes the value. */
  lemma SetValueEffect(buckets: seq<seq<Entry>>, name: string, b: int, line: int)
    requires |buckets| > 0
    ensures match LookupSpec(buckets, name)
            case None => SetValueSpec(buckets, name, b, line) == buckets
            case Some(e) =>
              && LookupSpec(SetValueSpec(buckets, name, b, line), name)
                 == Some(e.(defined := true, lineDeclared := line,
                            value := if e.kind == SymBoolean then BoolValue(b) else e.value))
  {
    match LookupSpec(buckets, name)
    case None =>
    case Some(e) =>
      LookupAfterReplace(buckets, e.(defined := true, lineDeclared := line,
                                     value := if e.kind == SymBoolean then BoolValue(b) else e.value));
  }

  /** Every entry is in exactly one status, so the four counts add up to the table's size. */
  lemma {:induction false} StatusPartition(buckets: seq<seq<Entry>>)
    ensures Total(buckets) == CountStatus(buckets, UsedUndefined) + CountStatus(buckets, DefinedUnused)
                              + CountStatus(buckets, DefinedUsed) + CountStatus(buckets, Untouched)
    decreases |buckets|
  {
    if buckets != [] {
      StatusPartition(buckets[..|buckets| - 1]);
      ChainPartition(buckets[|buckets| - 1]);
    }
  }

  lemma {:induction false} ChainPartition(chain: seq<Entry>)
    ensures |chain| == ChainCount(chain, UsedUndefined) + ChainCount(chain, DefinedUnused)
                       + ChainCount(chain, DefinedUsed) + ChainCount(chain, Untouched)
    decreases |chain|
  {
    if chain != [] {
      ChainPartition(chain[..|chain| - 1]);
    }
  }

  /** No symbol is both undefined and unused: the two reports together never exceed the table. */
  lemma UndefinedPlusUnusedAtMostCount(buckets: seq<seq<Entry>>)
    ensures UndefinedCount(buckets) + UnusedCount(buckets) <= Total(buckets)
  {
    StatusPartition(buckets);
  }

  /** Writing an entry back leaves what every other name looks up to as it was. */
  lemma LookupOtherAfterReplace(buckets: seq<seq<Entry>>, e: Entry, other: string)
    requires |buckets| > 0 && other != e.name
    ensures LookupSpec(Replace(buckets, e), other) == LookupSpec(buckets, other)
  {
    var h := HashString(e.name, |buckets|);
    var j := IndexOf(buckets[h], e.name);
    if j >= 0 && HashString(other, |buckets|) == h {
      IndexOfUpdateOther(buckets[h], j, e, other);
    }
  }

  lemma {:induction false} IndexOfUpdateOther(chain: seq<Entry>, j: int, e: Entry, other: string)
    requires 0 <= j < |chain| && chain[j].name != other && e.name != other
    ensures IndexOf(chain[j := e], other) == IndexOf(chain, other)
    decreases |chain|
  {
    var c := chain[j := e];
    if j > 0 && chain[0].name != other {
      assert c[1..] == chain[1..][j - 1 := e];
      IndexOfUpdateOther(chain[1..], j - 1, e, other);
    }
  }

  /**
   * Writing an entry back over the one with its name moves that entry from its old status
   * to the new one in the counts.
   */
  lemma ReplaceCounts(buckets: seq<seq<Entry>>, e: Entry, s: Status)
    requires |buckets| > 0 && LookupSpec(buckets, e.name).Some?
    ensures CountStatus(Replace(buckets, e), s)
            == CountStatus(buckets, s) - (if StatusOf(LookupSpec(buckets, e.name).value) == s then 1 else 0)
               + (if StatusOf(e) == s then 1 else 0)
  {
    var h := HashString(e.name, |buckets|);
    var j := IndexOf(buckets[h], e.name);
    TotalUpdate(buckets, h, buckets[h][j := e]);
    ChainCountUpdate(buckets[h], j, e, s);
  }
}
