/**
 * The phase-2 token reader (phase2/token_parser.c, phase2/tokens.h): the table between token
 * names and token codes, the line reader that turns a `TYPE LEXEME [VALUE]` token file into
 * one token per call with an end-of-tokens latch, and the payload `yylex` hands the parser.
 *
 * The open file is its whole text and a read position; `fgets` into the 256-byte buffer takes
 * at most 255 characters up to and including a newline. The reader's static variables are the
 * fields of `TokenReader`; `ReaderState` is the same state as a value, `ReadNext` says what
 * one call does, and the method is proved to end in the state and result it gives.
 */
module TokenParser {
  import opened Wrappers
  import opened Text

  /** `TokenType`, in the order of phase2/tokens.h. */
  datatype Token =
    | And | Or | Not | Xor | Xnor
    | Implies | Iff
    | Assign | Equiv
    | Exists | Forall
    | If | IffKeyword
    | LParen | RParen
    | TTrue | TFalse
    | Identifier
    | InvalidToken | EofToken

  /** The token's code: AND is 256 and the others follow in declaration order. */
  function Code(t: Token): (c: int)
    ensures 256 <= c < 276
  {
    match t
    case And => 256 case Or => 257 case Not => 258 case Xor => 259 case Xnor => 260
    case Implies => 261 case Iff => 262
    case Assign => 263 case Equiv => 264
    case Exists => 265 case Forall => 266
    case If => 267 case IffKeyword => 268
    case LParen => 269 case RParen => 270
    case TTrue => 271 case TFalse => 272
    case Identifier => 273
    case InvalidToken => 274 case EofToken => 275
  }

  /** The tokens in code order. */
  const AllTokens: seq<Token> :=
    [And, Or, Not, Xor, Xnor, Implies, Iff, Assign, Equiv, Exists, Forall,
     If, IffKeyword, LParen, RParen, TTrue, TFalse, Identifier, InvalidToken, EofToken]

  /** The token a code stands for, if any. */
  function TokenOfCode(c: int): Option<Token> {
    if 256 <= c < 256 + |AllTokens| then Some(AllTokens[c - 256]) else None
  }

  /** Codes and tokens correspond one to one; 0 is no token's code. */
  lemma CodesRoundTrip(t: Token, c: int)
    ensures TokenOfCode(Code(t)) == Some(t)
    ensures TokenOfCode(c).Some? ==> Code(TokenOfCode(c).value) == c
    ensures TokenOfCode(0) == None
  {
  }

  // ------------------------------------------------------------------ names

  /** The names `string_to_token` recognises, in the order it tests them. */
  const ListedNames: seq<string> :=
    ["IDENTIFIER", "T_TRUE", "T_FALSE", "AND", "OR", "NOT", "XOR", "XNOR", "IMPLIES", "IFF",
     "EQUIV", "EXISTS", "FORALL", "IF", "IFF_KEYWORD", "ASSIGN", "LPAREN", "RPAREN",
     "INVALID_TOKEN", "EOF"]

  /** The `strcmp` chain of `string_to_token`. */
  function NameToken(s: string): Option<Token> {
    if s == "IDENTIFIER" then Some(Identifier)
    else if s == "T_TRUE" then Some(TTrue)
    else if s == "T_FALSE" then Some(TFalse)
    else if s == "AND" then Some(And)
    else if s == "OR" then Some(Or)
    else if s == "NOT" then Some(Not)
    else if s == "XOR" then Some(Xor)
    else if s == "XNOR" then Some(Xnor)
    else if s == "IMPLIES" then Some(Implies)
    else if s == "IFF" then Some(Iff)
    else if s == "EQUIV" then Some(Equiv)
    else if s == "EXISTS" then Some(Exists)
    else if s == "FORALL" then Some(Forall)
    else if s == "IF" then Some(If)
    else if s == "IFF_KEYWORD" then Some(IffKeyword)
    else if s == "ASSIGN" then Some(Assign)
    else if s == "LPAREN" then Some(LParen)
    else if s == "RPAREN" then Some(RParen)
    else if s == "INVALID_TOKEN" then Some(InvalidToken)
    else if s == "EOF" then Some(EofToken)
    else None
  }

  /** `string_to_token`: the code of the named token, 0 for an unknown name. */
  function StringToToken(s: string): (r: int)
    ensures r == 0 || 256 <= r < 276
  {
    match NameToken(s)
    case None => 0
    case Some(t) => Code(t)
  }

  /** The `switch` of `token_type_to_string`. */
  function TokenName(t: Token): string {
    match t
    case Identifier => "IDENTIFIER"
    case TTrue => "T_TRUE"
    case TFalse => "T_FALSE"
    case And => "AND"
    case Or => "OR"
    case Not => "NOT"
    case Xor => "XOR"
    case Xnor => "XNOR"
    case Implies => "IMPLIES"
    case Iff => "IFF"
    case Equiv => "EQUIV"
    case Exists => "EXISTS"
    case Forall => "FORALL"
    case If => "IF"
    case IffKeyword => "IFF_KEYWORD"
    case Assign => "ASSIGN"
    case LParen => "LPAREN"
    case RParen => "RPAREN"
    case InvalidToken => "INVALID_TOKEN"
    case EofToken => "EOF_TOKEN"
  }

  /** `token_type_to_string`: the name of the token with this code, "UNKNOWN" otherwise. */
  function TokenTypeToString(code: int): string {
    match TokenOfCode(code)
    case None => "UNKNOWN"
    case Some(t) => TokenName(t)
  }

  /** A name is recognised exactly when it is listed. */
  lemma NamesRecognised(s: string)
    ensures StringToToken(s) != 0 <==> s in ListedNames
  {
  }

  /**
   * Reading a token's name back gives the token, except for EOF_TOKEN, whose printed name is
   * not the "EOF" the reader accepts.
   */
  lemma NamesReadBack(t: Token)
    ensures t != EofToken ==> NameToken(TokenName(t)) == Some(t)
    ensures NameToken(TokenName(EofToken)) == None
  {
  }

  /**
   * `token_type_to_string(string_to_token(s)) == s` for every listed name but "EOF", which
   * comes back as "EOF_TOKEN"; an unknown name comes back as "UNKNOWN".
   */
  lemma NamesRoundTrip(s: string)
    ensures s in ListedNames && s != "EOF" ==> TokenTypeToString(StringToToken(s)) == s
    ensures s == "EOF" ==> TokenTypeToString(StringToToken(s)) == "EOF_TOKEN"
    ensures s !in ListedNames ==> TokenTypeToString(StringToToken(s)) == "UNKNOWN"
  {
    NamesRecognised(s);
    if NameToken(s).Some? {
      NameTokenNamed(s);
      CodesRoundTrip(NameToken(s).value, 0);
    }
  }

  lemma NameTokenNamed(s: string)
    requires NameToken(s).Some?
    ensures var t := NameToken(s).value; if t == EofToken then s == "EOF" else TokenName(t) == s
  {
    match NameToken(s).value
    case Identifier =>
    case TTrue =>
    case TFalse =>
    case And =>
    case Or =>
    case Not =>
    case Xor =>
    case Xnor =>
    case Implies =>
    case Iff =>
    case Equiv =>
    case Exists =>
    case Forall =>
    case If =>
    case IffKeyword =>
    case Assign =>
    case LParen =>
    case RParen =>
    case InvalidToken =>
    case EofToken =>
  }

  // ------------------------------------------------------------------ lines and fields

  /** The buffer `char line[256]`: one `fgets` reads at most 255 characters. */
  const LineMax: int := 255
  /** `current_token_type[50]` keeps 49 characters, `current_lexeme[100]` keeps 99. */
  const TypeMax: int := 49
  const LexemeMax: int := 99

  /**
   * Where one `fgets` from `pos` stops: just after the first newline, after 255 characters,
   * or at the end of the text, whichever comes first.
   */
  function LineEnd(input: string, pos: nat): (e: nat)
    requires pos < |input|
    ensures pos < e <= |input| && e - pos <= LineMax
    ensures forall k :: pos <= k < e - 1 ==> input[k] != '\n'
    ensures e < |input| ==> input[e - 1] == '\n' || e - pos == LineMax
  {
    LineEndFrom(input, pos, pos)
  }

  function LineEndFrom(input: string, pos: nat, i: nat): (e: nat)
    requires pos <= i < |input| && i - pos < LineMax
    requires forall k :: pos <= k < i ==> input[k] != '\n'
    ensures i < e <= |input| && e - pos <= LineMax
    ensures forall k :: pos <= k < e - 1 ==> input[k] != '\n'
    ensures e < |input| ==> input[e - 1] == '\n' || e - pos == LineMax
    decreases |input| - i
  {
    if input[i] == '\n' || i + 1 == |input| || i + 1 - pos == LineMax then i + 1
    else LineEndFrom(input, pos, i + 1)
  }

  /** A line that holds a single newline, at its end, and fits the buffer is read whole. */
  lemma {:induction false} LineEndOfLine(input: string, pos: nat, line: string)
    requires 0 < |line| <= LineMax && pos + |line| <= |input| && input[pos..pos + |line|] == line
    requires line[|line| - 1] == '\n' && forall k :: 0 <= k < |line| - 1 ==> line[k] != '\n'
    ensures LineEnd(input, pos) == pos + |line|
  {
    LineEndFromOfLine(input, pos, pos, line);
  }

  lemma {:induction false} LineEndFromOfLine(input: string, pos: nat, i: nat, line: string)
    requires 0 < |line| <= LineMax && pos + |line| <= |input| && input[pos..pos + |line|] == line
    requires line[|line| - 1] == '\n' && forall k :: 0 <= k < |line| - 1 ==> line[k] != '\n'
    requires pos <= i < pos + |line|
    ensures LineEndFrom(input, pos, i) == pos + |line|
    decreases pos + |line| - i
  {
    assert input[i] == line[i - pos];
    if i + 1 < pos + |line| {
      assert input[pos..pos + |line|][i - pos] == input[i];
      LineEndFromOfLine(input, pos, i + 1, line);
    }
  }

  /** The `strtok` delimiters " \t\n\r". */
  predicate IsDelimiter(c: char) {
    c == ' ' || c == '\t' || c == '\n' || c == '\r'
  }

  /** A field as `strtok` returns it: non-empty, without delimiters. */
  predicate IsWord(w: string) {
    w != [] && forall k :: 0 <= k < |w| ==> !IsDelimiter(w[k])
  }

  /** The length of the run of non-delimiters `s` starts with. */
  function WordLength(s: string): (n: nat)
    ensures n <= |s|
    ensures forall k :: 0 <= k < n ==> !IsDelimiter(s[k])
    ensures n < |s| ==> IsDelimiter(s[n])
  {
    if s == [] || IsDelimiter(s[0]) then 0 else 1 + WordLength(s[1..])
  }

  /** The fields successive `strtok` calls return: the maximal runs of non-delimiters, in order. */
  function Fields(s: string): (fs: seq<string>)
    ensures forall i :: 0 <= i < |fs| ==> IsWord(fs[i])
    decreases |s|
  {
    if s == [] then []
    else if IsDelimiter(s[0]) then Fields(s[1..])
    else
      var n := WordLength(s);
      [s[..n]] + Fields(s[n..])
  }

  /** A word followed by a delimiter is the first field, and the fields of the rest follow. */
  lemma WordThenDelimiter(w: string, d: char, rest: string)
    requires IsWord(w) && IsDelimiter(d)
    ensures Fields(w + [d] + rest) == [w] + Fields(rest)
  {
    var s := w + [d] + rest;
    WordLengthOfWord(w, [d] + rest);
    assert s[..|w|] == w;
    assert s[|w|..] == [d] + rest;
    assert ([d] + rest)[1..] == rest;
  }

  lemma {:induction false} WordLengthOfWord(w: string, rest: string)
    requires IsWord(w) && rest != [] && IsDelimiter(rest[0])
    ensures WordLength(w + rest) == |w|
    decreases |w|
  {
    if |w| > 1 {
      assert (w + rest)[1..] == w[1..] + rest;
      WordLengthOfWord(w[1..], rest);
    } else {
      assert (w + rest)[1..] == rest;
    }
  }

  /** The line a token file holds for one token: the fields separated by one space. */
  function Unwords(ws: seq<string>): string {
    if ws == [] then [] else if |ws| == 1 then ws[0] else ws[0] + " " + Unwords(ws[1..])
  }

  /** Splitting a space-separated line of words gives the words back. */
  lemma {:induction false} FieldsOfUnwords(ws: seq<string>)
    requires forall i :: 0 <= i < |ws| ==> IsWord(ws[i])
    ensures Fields(Unwords(ws) + "\n") == ws
    decreases |ws|
  {
    if ws == [] {
      assert Fields("\n"[1..]) == [];
    } else if |ws| == 1 {
      WordThenDelimiter(ws[0], '\n', []);
      assert Unwords(ws) + "\n" == ws[0] + ['\n'] + [];
    } else {
      FieldsOfUnwords(ws[1..]);
      WordThenDelimiter(ws[0], ' ', Unwords(ws[1..]) + "\n");
      assert Unwords(ws) + "\n" == ws[0] + [' '] + (Unwords(ws[1..]) + "\n");
    }
  }

  /** `strncpy` into a buffer of `max + 1` bytes followed by a NUL at its end. */
  function Truncate(s: string, max: nat): (r: string)
    ensures |r| <= max && r <= s
    ensures |s| <= max ==> r == s
  {
    if |s| <= max then s else s[..max]
  }

  /** `strncmp(line, "EOF", 3) == 0`. */
  predicate StartsEof(line: string) {
    |line| >= 3 && line[..3] == "EOF"
  }

  /** The lines the reader passes over before looking for fields. */
  predicate IsCommentOrBlank(line: string) {
    line != [] && (line[0] == '#' || line[0] == '\n' || line[0] == '\r')
  }

  // ------------------------------------------------------------------ the reader

  /**
   * The reader's state: the file's text and read position (`token_input` when `isOpen`),
   * `end_of_tokens`, and the stored type, lexeme and value of the last token line.
   */
  datatype ReaderState = ReaderState(input: string, pos: nat, isOpen: bool, endOfTokens: bool,
                                     tokenType: string, lexeme: string, value: int)

  /**
   * `read_next_token_from_file`: nothing without an open file or once the latch is set;
   * otherwise lines are read until one yields a token. Comment and blank lines, and lines with
   * fewer than two fields, are passed over; a line beginning with "EOF" or the end of the text
   * sets the latch and gives 0; a token line stores its truncated type and lexeme and the
   * `atoi` of its third field (0 without one) and gives the code of its type name, which is 0
   * for an unknown name without setting the latch.
   */
  function ReadNext(s: ReaderState): (r: (ReaderState, int))
    requires s.pos <= |s.input|
    ensures r.0.input == s.input && r.0.isOpen == s.isOpen
    ensures s.pos <= r.0.pos <= |s.input|
    ensures r.1 == 0 || 256 <= r.1 < 276
    ensures r.1 != 0 ==> s.pos < r.0.pos && !r.0.endOfTokens && r.1 == StringToToken(r.0.tokenType)
    ensures r.1 == 0 && r.0.isOpen && !r.0.endOfTokens ==>
              !s.endOfTokens && s.pos < r.0.pos && StringToToken(r.0.tokenType) == 0
    ensures (!s.isOpen || s.endOfTokens) ==> r == (s, 0)
    decreases |s.input| - s.pos
  {
    if !s.isOpen || s.endOfTokens then (s, 0)
    else if s.pos == |s.input| then (s.(endOfTokens := true), 0)
    else
      var e := LineEnd(s.input, s.pos);
      var line := s.input[s.pos..e];
      var next := s.(pos := e);
      if IsCommentOrBlank(line) then ReadNext(next)
      else if StartsEof(line) then (next.(endOfTokens := true), 0)
      else
        var fs := Fields(line);
        if |fs| < 2 then ReadNext(next)
        else
          TruncatedType(fs[0]);
          (next.(tokenType := Truncate(fs[0], TypeMax), lexeme := Truncate(fs[1], LexemeMax),
                 value := if |fs| >= 3 then Atoi(fs[2]) else 0),
           StringToToken(fs[0]))
  }

  /** A line the reader passes over: a comment or blank line, or a non-"EOF" line with fewer than two fields. */
  predicate PassedOver(line: string) {
    IsCommentOrBlank(line) || (!StartsEof(line) && |Fields(line)| < 2)
  }

  /**
   * An open, unlatched reader whose next line is passed over reads exactly as it would from
   * just after that line: the same code, the same state and the same tokens from then on.
   */
  lemma ReadSkipsLine(s: ReaderState)
    requires s.isOpen && !s.endOfTokens && s.pos < |s.input|
    requires PassedOver(s.input[s.pos..LineEnd(s.input, s.pos)])
    ensures ReadNext(s) == ReadNext(s.(pos := LineEnd(s.input, s.pos)))
    ensures Tokens(s) == Tokens(s.(pos := LineEnd(s.input, s.pos)))
  {
  }

  /** The same for a line of the file given as text: one newline, at its end, within the buffer. */
  lemma ReadSkipsWrittenLine(s: ReaderState, line: string, rest: string)
    requires s.isOpen && !s.endOfTokens
    requires 0 < |line| <= LineMax && line[|line| - 1] == '\n' && forall k :: 0 <= k < |line| - 1 ==> line[k] != '\n'
    requires s.pos + |line| + |rest| == |s.input| && s.input[s.pos..] == line + rest
    requires PassedOver(line)
    ensures Tokens(s) == Tokens(s.(pos := s.pos + |line|))
  {
    var e := LineEnd(s.input, s.pos);
    assert e == s.pos + |line| && s.input[s.pos..e] == line by {
      SliceOfPrefix(s.input, s.pos, line, rest);
      LineEndOfLine(s.input, s.pos, line);
    }
    assert s.(pos := e) == s.(pos := s.pos + |line|);
    ReadSkipsLine(s);
  }

  lemma SliceOfPrefix(input: string, pos: nat, line: string, rest: string)
    requires pos + |line| + |rest| == |input| && input[pos..] == line + rest
    ensures input[pos..pos + |line|] == line
  {
    assert input[pos..pos + |line|] == input[pos..][..|line|];
  }

  /**
   * Keeping 49 characters of a type name never changes the token it names: every listed name
   * is shorter than that.
   */
  lemma TruncatedType(s: string)
    ensures StringToToken(Truncate(s, TypeMax)) == StringToToken(s)
  {
    NamesRecognised(s);
    NamesRecognised(Truncate(s, TypeMax));
  }

  /** The payload `yylex` leaves in `yylval`, a union of `bool_val` and `str`. */
  datatype Payload = NoPayload | BoolVal(b: int) | Str(s: string)

  /**
   * `yylex`: the next token's code; `yylval` becomes the stored value for T_TRUE and T_FALSE
   * and a copy of the stored lexeme for IDENTIFIER, and keeps what it held otherwise.
   */
  function YylexPayload(code: int, s: ReaderState, previous: Payload): (p: Payload)
    ensures code == Code(TTrue) || code == Code(TFalse) ==> p == BoolVal(s.value)
    ensures code == Code(Identifier) ==> p == Str(s.lexeme)
    ensures code !in {Code(TTrue), Code(TFalse), Code(Identifier)} ==> p == previous
  {
    if code == Code(TTrue) || code == Code(TFalse) then BoolVal(s.value)
    else if code == Code(Identifier) then Str(s.lexeme)
    else previous
  }

  /** A freshly opened token file: position 0, latch clear, stored token as before. */
  function Opened(s: ReaderState, text: string): (r: ReaderState)
    ensures r.isOpen && !r.endOfTokens && r.pos == 0 && r.input == text
  {
    s.(input := text, pos := 0, isOpen := true, endOfTokens := false)
  }

  /** The tokens successive calls return, with the lexeme and value stored for each, until 0. */
  function Tokens(s: ReaderState): seq<(int, string, int)>
    requires s.pos <= |s.input|
    decreases |s.input| - s.pos
  {
    var (t, c) := ReadNext(s);
    if c == 0 then [] else [(c, t.lexeme, t.value)] + Tokens(t)
  }

  /** Once the latch is set every call returns 0 and changes nothing. */
  lemma LatchHolds(s: ReaderState)
    requires s.pos <= |s.input| && s.endOfTokens
    ensures ReadNext(s) == (s, 0)
    ensures Tokens(s) == []
  {
  }

  /** A call that ends the tokens sets the latch, so every later call gives 0 too. */
  lemma {:induction false} EndIsFinal(s: ReaderState)
    requires s.pos <= |s.input| && s.isOpen
    ensures var (t, c) := ReadNext(s);
            c == 0 ==> t.endOfTokens || StringToToken(t.tokenType) == 0
    ensures var (t, c) := ReadNext(s);
            t.endOfTokens ==> ReadNext(t) == (t, 0) && Tokens(t) == []
  {
  }

  // ------------------------------------------------------------------ token files

  /** One token as a token file records it: type name, lexeme and an optional value. */
  datatype TokenLine = TokenLine(token: Token, lexeme: string, value: Option<int>)

  /** The fields of a token line. */
  function LineFields(t: TokenLine): seq<string> {
    if t.value.Some? then [TokenName(t.token), t.lexeme, IntToString(t.value.value)]
    else [TokenName(t.token), t.lexeme]
  }

  /** The text of a token line: its fields separated by a space, then a newline. */
  function WriteLine(t: TokenLine): string {
    Unwords(LineFields(t)) + "\n"
  }

  /** A token file: the token lines, then the EOF marker. */
  function WriteFile(ts: seq<TokenLine>): string {
    if ts == [] then "EOF\n" else WriteLine(ts[0]) + WriteFile(ts[1..])
  }

  /**
   * A token line the reader can give back as written: not EOF_TOKEN (its name begins with
   * "EOF"), a lexeme that is one field and fits its buffer, and a line that fits `line[256]`.
   */
  predicate Readable(t: TokenLine) {
    t.token != EofToken && IsWord(t.lexeme) && |t.lexeme| <= LexemeMax && |WriteLine(t)| <= LineMax
  }

  /** What the reader should return for a token line. */
  function Expected(ts: seq<TokenLine>): seq<(int, string, int)> {
    if ts == [] then []
    else [(Code(ts[0].token), ts[0].lexeme, ts[0].value.GetOr(0))] + Expected(ts[1..])
  }

  /** Every token name is a single field, and only EOF_TOKEN's begins with "EO". */
  lemma NameShape(t: Token)
    ensures IsWord(TokenName(t)) && |TokenName(t)| >= 2 && 'A' <= TokenName(t)[0] <= 'Z'
    ensures t != EofToken ==> TokenName(t)[0] != 'E' || TokenName(t)[1] != 'O'
  {
  }

  /** A printed number is a single field. */
  lemma NumberIsWord(n: int)
    ensures IsWord(IntToString(n))
  {
    var r := IntToString(n);
    forall k | 0 <= k < |r| ensures !IsDelimiter(r[k]) {
      assert IsDigit(r[k]) || r[k] == '-';
    }
  }

  /** The fields of a written token line are its fields, and it has exactly one newline, at its end. */
  lemma WrittenLineShape(t: TokenLine)
    requires Readable(t)
    ensures Fields(WriteLine(t)) == LineFields(t)
    ensures forall k :: 0 <= k < |WriteLine(t)| - 1 ==> WriteLine(t)[k] != '\n'
    ensures WriteLine(t)[0] == TokenName(t.token)[0] && WriteLine(t)[1] == TokenName(t.token)[1]
  {
    NameShape(t.token);
    if t.value.Some? {
      NumberIsWord(t.value.value);
    }
    var fs := LineFields(t);
    FieldsOfUnwords(fs);
    UnwordsNoNewline(fs);
    assert fs[0] == TokenName(t.token);
    if |fs| == 2 {
      assert Unwords(fs) == fs[0] + " " + fs[1];
    } else {
      assert fs[1..][1..] == [fs[2]];
      assert Unwords(fs[1..][1..]) == fs[2];
      assert Unwords(fs[1..]) == fs[1] + " " + fs[2];
      assert Unwords(fs) == fs[0] + " " + (fs[1] + " " + fs[2]);
    }
  }

  lemma {:induction false} UnwordsNoNewline(ws: seq<string>)
    requires forall i :: 0 <= i < |ws| ==> IsWord(ws[i])
    ensures forall k :: 0 <= k < |Unwords(ws)| ==> Unwords(ws)[k] != '\n'
    decreases |ws|
  {
    if |ws| > 1 {
      UnwordsNoNewline(ws[1..]);
      var u := Unwords(ws);
      assert u == ws[0] + " " + Unwords(ws[1..]);
      forall k | 0 <= k < |u| ensures u[k] != '\n' {
        if k < |ws[0]| {
          assert u[k] == ws[0][k];
        } else if k > |ws[0]| {
          assert u[k] == Unwords(ws[1..])[k - |ws[0]| - 1];
        }
      }
    }
  }

  /**
   * One call on a line that is neither passed over nor the EOF marker and has two fields:
   * the line is consumed and its fields are stored.
   */
  lemma ReadTokenLine(s: ReaderState, e: nat)
    requires s.isOpen && !s.endOfTokens && s.pos < |s.input| && e == LineEnd(s.input, s.pos)
    requires !IsCommentOrBlank(s.input[s.pos..e]) && !StartsEof(s.input[s.pos..e])
    requires |Fields(s.input[s.pos..e])| >= 2
    ensures var fs := Fields(s.input[s.pos..e]);
            ReadNext(s) == (s.(pos := e, tokenType := Truncate(fs[0], TypeMax),
                               lexeme := Truncate(fs[1], LexemeMax),
                               value := if |fs| >= 3 then Atoi(fs[2]) else 0),
                            StringToToken(fs[0]))
  {
  }

  /**
   * What the reader takes from a written token line: it is neither passed over nor the EOF
   * marker, its first field names the token, and its other fields give back the lexeme and value.
   */
  lemma WrittenFields(t: TokenLine)
    requires Readable(t)
    ensures var w := WriteLine(t);
            var fs := Fields(w);
            && !IsCommentOrBlank(w) && !StartsEof(w) && |fs| >= 2
            && StringToToken(fs[0]) == Code(t.token)
            && Truncate(fs[1], LexemeMax) == t.lexeme
            && (if |fs| >= 3 then Atoi(fs[2]) else 0) == t.value.GetOr(0)
  {
    WrittenLineShape(t);
    NameShape(t.token);
    NamesReadBack(t.token);
    var w := WriteLine(t);
    assert !StartsEof(w);
    if t.value.Some? {
      ScanIntOfIntToString(t.value.value, []);
      assert IntToString(t.value.value) + [] == IntToString(t.value.value);
    }
  }

  /** Reading a written token line from an open reader yields its token, lexeme and value. */
  lemma ReadWrittenLine(s: ReaderState, t: TokenLine, rest: string)
    requires Readable(t) && s.isOpen && !s.endOfTokens
    requires s.pos + |WriteLine(t)| + |rest| == |s.input|
    requires s.input[s.pos..] == WriteLine(t) + rest
    ensures var (r, c) := ReadNext(s);
            && c == Code(t.token) && r.lexeme == t.lexeme && r.value == t.value.GetOr(0)
            && r.pos == s.pos + |WriteLine(t)| && r.isOpen && !r.endOfTokens
  {
    var w := WriteLine(t);
    var e := s.pos + |w|;
    WrittenLineShape(t);
    assert s.input[s.pos..e] == w by {
      assert s.input[s.pos..e] == s.input[s.pos..][..|w|];
      assert (w + rest)[..|w|] == w;
    }
    LineEndOfLine(s.input, s.pos, w);
    WrittenFields(t);
    ReadTokenLine(s, e);
  }

  /** The EOF marker sets the latch. */
  lemma ReadEofMarker(s: ReaderState)
    requires s.isOpen && !s.endOfTokens
    requires s.pos + 4 == |s.input| && s.input[s.pos..] == "EOF\n"
    ensures ReadNext(s).1 == 0 && ReadNext(s).0.endOfTokens
  {
    var line := "EOF\n";
    LineEndOfLine(s.input, s.pos, line);
    assert s.input[s.pos..s.pos + 4] == line;
    assert line[..3] == "EOF";
  }

  /**
   * A token file written from readable token lines is read back as exactly those tokens, in
   * order, each with its lexeme and its value (0 when the line has none).
   */
  lemma {:induction false} ReadWrittenFile(s: ReaderState, ts: seq<TokenLine>)
    requires forall i :: 0 <= i < |ts| ==> Readable(ts[i])
    requires s.isOpen && !s.endOfTokens
    requires s.pos + |WriteFile(ts)| == |s.input| && s.input[s.pos..] == WriteFile(ts)
    ensures Tokens(s) == Expected(ts)
    decreases |ts|
  {
    if ts == [] {
      ReadEofMarker(s);
    } else {
      var rest := WriteFile(ts[1..]);
      ReadWrittenLine(s, ts[0], rest);
      var r := ReadNext(s).0;
      assert r.input[r.pos..] == rest by {
        assert r.input[r.pos..] == s.input[s.pos..][|WriteLine(ts[0])|..];
      }
      ReadWrittenFile(r, ts[1..]);
    }
  }

  /** Opening a written token file and reading it to the end gives back the tokens written. */
  lemma TokenFileRoundTrip(s: ReaderState, ts: seq<TokenLine>)
    requires forall i :: 0 <= i < |ts| ==> Readable(ts[i])
    ensures Tokens(Opened(s, WriteFile(ts))) == Expected(ts)
  {
    ReadWrittenFile(Opened(s, WriteFile(ts)), ts);
  }

  // ------------------------------------------------------------------ the reader's statics

  class TokenReader {
    var input: string
    var pos: nat
    var isOpen: bool
    var endOfTokens: bool
    var currentLine: int
    var tokenType: string
    var lexeme: string
    var value: int
    var yylval: Payload

    function State(): ReaderState
      reads this
    {
      ReaderState(input, pos, isOpen, endOfTokens, tokenType, lexeme, value)
    }

    ghost predicate Valid()
      reads this
    {
      pos <= |input|
    }

    /** The statics before any call: no file, latch clear, buffers and value zeroed. */
    constructor()
      ensures Valid() && !isOpen && !endOfTokens && currentLine == 1
      ensures tokenType == [] && lexeme == [] && value == 0 && yylval == NoPayload
    {
      input := [];
      pos := 0;
      isOpen := false;
      endOfTokens := false;
      currentLine := 1;
      tokenType := [];
      lexeme := [];
      value := 0;
      yylval := NoPayload;
    }

    /**
     * `init_token_parser`: a file that cannot be opened (None) leaves no file open and gives
     * -1; an opened one resets the line counter and the latch and gives 0.
     */
    method InitTokenParser(file: Option<string>) returns (r: int)
      requires Valid()
      modifies this
      ensures Valid()
      ensures file.None? ==> r == -1 && State() == old(State()).(isOpen := false) && currentLine == old(currentLine)
      ensures file.Some? ==> r == 0 && State() == Opened(old(State()), file.value) && currentLine == 1
      ensures yylval == old(yylval)
    {
      if file.None? {
        isOpen := false;
        return -1;
      }
      input := file.value;
      pos := 0;
      isOpen := true;
      currentLine := 1;
      endOfTokens := false;
      return 0;
    }

    /** `cleanup_token_parser`: the file is closed. */
    method CleanupTokenParser()
      requires Valid()
      modifies this
      ensures Valid() && State() == old(State()).(isOpen := false) && yylval == old(yylval)
      ensures currentLine == old(currentLine)
    {
      isOpen := false;
    }

    /** `read_next_token_from_file`. */
    method ReadNextToken() returns (code: int)
      requires Valid()
      modifies this
      ensures Valid()
      ensures (State(), code) == ReadNext(old(State()))
      ensures yylval == old(yylval) && currentLine == old(currentLine)
    {
      if !isOpen || endOfTokens {
        return 0;
      }
      while pos < |input|
        invariant pos <= |input| && isOpen && !endOfTokens
        invariant ReadNext(State()) == ReadNext(old(State()))
        invariant yylval == old(yylval) && currentLine == old(currentLine)
        decreases |input| - pos
      {
        var e := LineEnd(input, pos);
        var line := input[pos..e];
        pos := e;
        if line[0] == '#' || line[0] == '\n' || line[0] == '\r' {
          continue;
        }
        if StartsEof(line) {
          endOfTokens := true;
          return 0;
        }
        var fields := Fields(line);
        if |fields| < 2 {
          continue;
        }
        tokenType := Truncate(fields[0], TypeMax);
        lexeme := Truncate(fields[1], LexemeMax);
        if |fields| >= 3 {
          value := Atoi(fields[2]);
        } else {
          value := 0;
        }
        return StringToToken(fields[0]);
      }
      endOfTokens := true;
      return 0;
    }

    /** `yylex`: the next token, with its payload put in `yylval`. */
    method Yylex() returns (code: int)
      requires Valid()
      modifies this
      ensures Valid()
      ensures (State(), code) == ReadNext(old(State()))
      ensures code == 0 ==> yylval == old(yylval)
      ensures code != 0 ==> yylval == YylexPayload(code, State(), old(yylval))
      ensures currentLine == old(currentLine)
    {
      code := ReadNextToken();
      if code == 0 {
        return;
      }
      if code == Code(TTrue) || code == Code(TFalse) {
        yylval := BoolVal(value);
      } else if code == Code(Identifier) {
        yylval := Str(lexeme);
      }
    }
  }
}
