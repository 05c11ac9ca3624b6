# A verified model of the lahat-m/Compiler core

The compiler translates a small propositional-logic language in four stages. The stages pass
their intermediate results to each other as text files. This project models the stages' core
in Dafny and proves what the C code promises about them:

- **Phase 2, syntax tree** (`ast.dfy`, module `Ast`). Covers the node constructors, the
  PROGRAM node's statement array, and the kind-to-name table. The array starts with ten slots
  and doubles when full. The indented pre-order printer is modelled as the list of lines it
  writes.
- **Phase 2, token reader** (`token_parser.dfy`, module `TokenParser`). Covers the table
  between token names and token codes, and the reader for `TYPE LEXEME [VALUE]` lines. The
  reader has an end-of-tokens latch, and `yylex` picks the payload for the parser. The
  reader's static variables are the fields of a `TokenReader` object.
- **Phase 3, reloader** (`ast_loader.dfy`, module `AstLoader`). It reads the printed tree back
  into a PROGRAM root holding at most ten direct ASSIGNMENT / EXPRESSION_STMT statements.
  `loader_text.dfy` (module `LoaderText`) holds the trimming and keyword-classification
  helpers. Both reloaders define these helpers in identical words, at phase3/ast_loader.c:12-43
  and phase4/ast_loader_phase4.c:9-40, so they are modelled once.
- **Phase 3, symbol table** (`symbol_table.dfy`, module `Symbols`). A chained hash table keyed
  by the 32-bit djb2 hash. It offers insert-if-absent, lookup, first-use marking, value
  setting, and the counts of undefined and unused symbols.
- **Phase 3, semantic analyzer** (`semantic_analyzer.dfy`, node type in `semantic_ast.dfy`).
  `perform_semantic_analysis` runs three steps in order:
  1. the walk;
  2. the fixed preamble that defines and uses `B` and `C`;
  3. validation, which turns the table's counts into errors and warnings.
  `pipeline.dfy` combines the reloader and the analyzer, as the phase-3 driver does.
- **Phase 4, annotated reloader** (`annotated_loader.dfy`, node type in `phase4_ast.dfy`).
  Recovers assignment and expression statements from the annotated dump that phase 3 writes.
- **Phase 4, code generator** (`code_generator.dfy`, module `CodeGenerator`). Covers the
  register-usage flags, the append-only instruction list, the name-to-stack-slot map, the
  label counter, and the per-node emitters.

`text.dfy` models the C-library pieces the stages rely on: `isspace`, `strstr`, `%d` printing,
and `atoi` / `sscanf` integer scanning. `wrappers.dfy` holds the `Option` type that stands for
a pointer that may be NULL.

## How the model is organised

Where the C code updates an object in place, the model is a class whose methods update its
fields. These are the statement array, the symbol table, the analysis context, the code
generator context and the token reader. Each such class also describes its state as a value
through a function (`Contents()`, `Chains()`, `Table()`, `State()`). Each method is proved to
end in the state that a specification function on values gives: `InsertSpec`, `ReadNext`,
`ProgramCode` and so on. The lemmas about those functions state what the source promises.
Loops in the C code are `while` loops with invariants. Examples are the bucket counts, the
reloaders' line loops, the register scan and the token reader's line loop.

Files are lists of lines, and reading a line takes the first element of the rest of the input.
The phase-2 token reader is the exception: it models `fgets` into its 256-byte buffer over the
whole text, so a line longer than 255 characters is read in pieces.

### Two behaviours of the code worth knowing

- **Register exhaustion.** When every register is in use, `allocate_register` does not
  fail. It returns RAX and changes nothing (phase4/code_generator.c:60).
  `CodeGenerator.AllocateEffect` states this.
- **What the reloader recovers.** Printing a tree and reloading it is not a round trip. The
  phase-3 reloader rebuilds only a PROGRAM's direct ASSIGNMENT and EXPRESSION_STMT lines,
  at most ten, each as a bare node. `AstLoader.LoadFirstProgram` states exactly which nodes
  come back. `Ast.ProgramLayout` shows where the printer puts each statement's label.

## Model

| member | source | states |
|---|---|---|
| Ast.MakeIdentifier | phase2/ast.c:5-11 | the node is an IDENTIFIER at the given line carrying the given name |
| Ast.MakeBoolean | phase2/ast.c:14-20 | the node is a BOOLEAN_LITERAL at the given line carrying the given value |
| Ast.MakeBinary | phase2/ast.c:23-30 | the node has the given kind and line, and the given left and right children in that order |
| Ast.MakeUnary | phase2/ast.c:33-39 | the node has the given kind and line, the given operand, and no second child |
| Ast.MakeAssignment | phase2/ast.c:42-49 | the node is an ASSIGNMENT at the given line with the given variable and value subtree |
| Ast.MakeQuantifier | phase2/ast.c:52-59 | the node has the given quantifier kind and line, the bound variable and the body |
| Ast.MakeExpressionStmt | phase2/ast.c:73-79 | the node is an EXPRESSION_STMT at the given line wrapping the given expression |
| Ast.ProgramNode.constructor | phase2/ast.c:62-70 | a new program is a PROGRAM at the given line with count 0, capacity 10 and no statements |
| Ast.ProgramNode.AddStatement | phase2/ast.c:82-94 | on a PROGRAM or STATEMENT_LIST: the statement is appended, earlier ones unchanged, count grows by one, and capacity doubles exactly when the array was full (count <= capacity is kept); on any other kind nothing changes |
| Ast.KindName | phase2/ast.c:148-170 | the name is "UNKNOWN" exactly when the tag is outside the 18 declared kinds |
| Ast.KindNamesDistinct | phase2/ast.c:148-170 | two different declared kinds have different names |
| Ast.PrintAst | phase2/ast.c:173-252 | a missing node prints as the single line "(null)"; otherwise the first line is the node's header; every line starts with 2·indent spaces |
| Ast.PrintStatements | phase2/ast.c:236-240 | every statement yields at least two lines (its label and its subtree), all indented at least as far as the program |
| Ast.StatementLabelsAtDepth | phase2/ast.c:236-240 | the lines one level deeper than the program are exactly the labels "Statement first:", "Statement first+1:", … in order |
| Ast.ProgramLayout | phase2/ast.c:234-241 | the lines one level below a printed PROGRAM are exactly "Statement 1:" … "Statement count:", in order, one per statement |
| TokenParser.Code | phase2/tokens.h:5-43 | each token's code lies in 256..275 |
| TokenParser.CodesRoundTrip | phase2/tokens.h:5-43 | codes and tokens correspond one to one, and 0 is no token's code |
| TokenParser.StringToToken | phase2/token_parser.c:17-39 | the result is 0 or a token code |
| TokenParser.NamesRecognised | phase2/token_parser.c:17-39 | a name gives a non-zero code exactly when it is one of the 20 listed names |
| TokenParser.NamesReadBack | phase2/token_parser.c:132-156 | reading a token's printed name back gives the token, for every token but EOF_TOKEN, whose printed name is not recognised |
| TokenParser.NamesRoundTrip | phase2/token_parser.c:17-39 | naming the code of a listed name gives the name back, except "EOF", which comes back as "EOF_TOKEN"; an unlisted name comes back as "UNKNOWN" |
| TokenParser.LineEnd | phase2/token_parser.c:47-49 | one read stops just after the first newline, after 255 characters, or at the end of the text |
| TokenParser.Fields | phase2/token_parser.c:62-64 | the fields are non-empty and free of space, tab, CR and LF |
| TokenParser.FieldsOfUnwords | phase2/token_parser.c:62-64 | splitting words joined by single spaces and ended by a newline gives the words back |
| TokenParser.Truncate | phase2/token_parser.c:71-74 | the stored text is a prefix of at most the buffer's length, and the whole text when it fits |
| TokenParser.TruncatedType | phase2/token_parser.c:71-83 | cutting the type name to 49 characters never changes the token it names |
| TokenParser.ReadNext | phase2/token_parser.c:42-88 | one call: 0 and no change when closed or latched; a non-zero result is the code of the stored type name after at least one line was consumed; a 0 from an open reader either latches or comes from an unknown type name |
| TokenParser.ReadSkipsLine | phase2/token_parser.c:51-53 | an open, unlatched reader whose next line starts with '#', '\n' or '\r', or is a non-"EOF" line with fewer than two fields (lines 66-68), returns the same code and state, and the same tokens after it, as from just past that line |
| TokenParser.ReadSkipsWrittenLine | phase2/token_parser.c:51-68 | the same for a passed-over line given as text with one newline at its end: the tokens read are those of the text after it |
| TokenParser.LatchHolds | phase2/token_parser.c:43-45 | once the latch is set, every call returns 0, changes nothing and yields no more tokens |
| TokenParser.EndIsFinal | phase2/token_parser.c:56-59 | a 0 result latches unless the type name was unknown, and after the latch nothing more is read |
| TokenParser.ReadEofMarker | phase2/token_parser.c:56-59 | a line "EOF" returns 0 and sets the latch |
| TokenParser.ReadWrittenLine | phase2/token_parser.c:61-83 | a line written as `TYPE LEXEME [VALUE]` reads back as that token's code, lexeme and value, consuming exactly the line |
| TokenParser.TokenFileRoundTrip | phase2/token_parser.c:42-88 | a token file written line by line (without an EOF_TOKEN line) reads back, from a freshly opened reader, as exactly its tokens, lexemes and values, in order |
| TokenParser.ReadWrittenFile | phase2/token_parser.c:42-88 | from any open, unlatched reader, the written lines of a token list read back as exactly that list, in order |
| TokenParser.YylexPayload | phase2/token_parser.c:101-105 | T_TRUE and T_FALSE carry the stored value, IDENTIFIER the stored lexeme, any other token leaves the payload as it was |
| TokenParser.Opened | phase2/token_parser.c:111-121 | opening puts the reader at the start of the text, open and not latched |
| TokenParser.TokenReader.constructor | phase2/token_parser.c:9-14 | the static state starts closed, not latched, at line 1, with empty buffers |
| TokenParser.TokenReader.InitTokenParser | phase2/token_parser.c:111-121 | a missing file gives -1 and a closed reader; otherwise 0, the reader opened on the text and the line reset to 1; a missing file leaves the line counter as it was |
| TokenParser.TokenReader.CleanupTokenParser | phase2/token_parser.c:124-129 | the reader is closed and nothing else changes, the line counter included |
| TokenParser.TokenReader.ReadNextToken | phase2/token_parser.c:42-88 | the reader ends in the state and returns the code that ReadNext gives, leaving the payload and the line untouched |
| TokenParser.TokenReader.Yylex | phase2/token_parser.c:91-108 | the code and state are those of one read; on a non-zero code the payload is YylexPayload's, on 0 it is untouched; the line counter is left as it was |
| LoaderText.Trim | phase3/ast_loader.c:12-26 | the result is a contiguous piece of the input with white space on neither end and only white space around it; it is empty exactly when the input is all white space |
| LoaderText.ParseNodeType | phase3/ast_loader.c:29-43 | the result is the 1-based position of the first keyword, in the order PROGRAM … EQUIV, that occurs in the text, or 0 when none does; it lies in 0..12 and is never 9 |
| LoaderText.XorReadsAsOr | phase3/ast_loader.c:35-38 | text containing "XOR" is classified as OR (7) or an earlier keyword, never as XOR |
| SemanticAst.CreateAstNode | phase3/ast_loader.c:46-62 | the node has the given kind, text and line, unknown semantic type, no constant flag, and an empty data union |
| AstLoader.ParseAstLine | phase3/ast_loader.c:65-78 | the depth is half the leading spaces, rounded down; the text is the trimmed line; the line counts exactly when it holds a non-blank character |
| AstLoader.NameAfterColon | phase3/ast_loader.c:82-96 | no name without a colon; otherwise the name starts after the first colon and the spaces that follow it, and runs up to the next space or the end |
| AstLoader.ExtractNodeData | phase3/ast_loader.c:81-112 | an IDENTIFIER with a colon takes the name after it and one without stays as it was; a BOOLEAN becomes constant 1 on "TRUE", else constant 0 on "FALSE", else stays; an ASSIGNMENT gets a NULL variable and value; kind, text and line never change |
| AstLoader.LineOfPrinted | phase3/ast_loader.c:141-145 | the node line read from a printed "(line N)" marker is N |
| AstLoader.LoadLine | phase3/ast_loader.c:132-166 | handling one line leaves the root that the load step function gives |
| AstLoader.LoadAstFromFile | phase3/ast_loader.c:115-177 | the loop's result is the fold of the step function over all lines |
| AstLoader.LoadShape | phase3/ast_loader.c:152-163 | a loaded root is a PROGRAM with at most ten statements, each an ASSIGNMENT or an EXPRESSION_STMT |
| AstLoader.LoadWithoutProgram | phase3/ast_loader.c:152-157 | without a PROGRAM line there is no root |
| AstLoader.LoadFirstProgram | phase3/ast_loader.c:152-163 | the root is the first PROGRAM line's node, and its statements are the first ten ASSIGNMENT / EXPRESSION_STMT nodes after it, in file order |
| Symbols.SymbolTypeName | phase3/symbol_table.c:125-134 | the name is one of the five type names and reads back as the type |
| Symbols.Djb2 | phase3/symbol_table.c:8-13 | the hash stays below 2^32 |
| Symbols.Djb2IsPolynomialMod | phase3/symbol_table.c:9-13 | the wrapping loop equals the djb2 polynomial (5381, times 33 plus each signed char) taken modulo 2^32 |
| Symbols.HashString | phase3/symbol_table.c:8-17 | the bucket index is below the table size |
| Symbols.IndexOf | phase3/symbol_table.c:55-61 | -1 exactly when no entry in the chain has the name; otherwise the first entry with it |
| Symbols.LookupSpec | phase3/symbol_table.c:50-64 | a found entry carries the name asked for |
| Symbols.LookupFindsPresent | phase3/symbol_table.c:50-64 | in a well-placed table, looking up the name of any entry finds exactly that entry |
| Symbols.SymbolTable.constructor | phase3/symbol_table.c:20-26 | a new table has the given number of buckets, all empty, and count 0 |
| Symbols.SymbolTable.Lookup | phase3/symbol_table.c:50-64 | NULL for a NULL name, otherwise the entry in the name's bucket |
| Symbols.SymbolTable.Locate | phase3/symbol_table.c:53-61 | the loop finds the bucket the name hashes to and the position of the name's first entry in that chain, or -1 |
| Symbols.SymbolTable.Insert | phase3/symbol_table.c:67-99 | a NULL name changes nothing; otherwise the table becomes InsertSpec of the old one, the result is the name's entry, and count grows by one exactly when the name was new |
| Symbols.SymbolTable.MarkUsed | phase3/symbol_table.c:102-110 | the table becomes MarkUsedSpec of the old one (unchanged for a NULL name) |
| Symbols.SymbolTable.SetValue | phase3/symbol_table.c:113-122 | the table becomes SetValueSpec of the old one (unchanged for a NULL name) |
| Symbols.SymbolTable.CheckUndefined | phase3/symbol_table.c:218-232 | the count of entries used but not defined |
| Symbols.SymbolTable.CheckUnused | phase3/symbol_table.c:235-249 | the count of entries defined but not used |
| Symbols.InsertIdempotent | phase3/symbol_table.c:71-74 | inserting a name already present leaves the whole table unchanged, whatever type and line are given |
| Symbols.LookupAfterInsert | phase3/symbol_table.c:77-96 | a new name is found with a fresh entry: not defined, not used, declared at the line, used at -1, value 0 if BOOLEAN |
| Symbols.LookupOtherAfterInsert | phase3/symbol_table.c:77-96 | inserting one name changes no other name's lookup |
| Symbols.InsertKeepsPlacement | phase3/symbol_table.c:77-96 | inserting a new name keeps every entry in its hash bucket, adds exactly one entry, and adds one untouched entry to the counts |
| Symbols.LookupAfterInsertAll | phase3/symbol_table.c:50-99 | after inserting a list of names, a name is found exactly when it was already present or is in the list |
| Symbols.AtMostOneEntryPerName | phase3/symbol_table.c:67-99 | in a table built by these operations, two entries with the same name are the same entry |
| Symbols.MarkUsedWriteOnce | phase3/symbol_table.c:102-110 | the first use sets used and records the line; a later call changes nothing; an absent name is untouched |
| Symbols.SetValueEffect | phase3/symbol_table.c:113-122 | the entry becomes defined at the new line and takes the value only when BOOLEAN; an absent name leaves the table unchanged |
| Symbols.ReplaceKeepsPlacement | phase3/symbol_table.c:102-122 | updating an entry keeps every entry in its bucket and keeps the number of entries |
| Symbols.LookupOtherAfterReplace | phase3/symbol_table.c:102-122 | updating one entry changes no other name's lookup |
| Symbols.LookupAfterReplace | phase3/symbol_table.c:102-122 | after an entry is updated, looking up its name gives the updated entry, or still nothing when the name was absent |
| Symbols.StatusPartition | phase3/symbol_table.c:218-249 | every entry is exactly one of used-undefined, defined-unused, defined-used and untouched |
| Symbols.UndefinedPlusUnusedAtMostCount | phase3/symbol_table.c:218-249 | the undefined count plus the unused count never exceed the number of entries |
| SemanticAnalyzer.ErrorTypeName | phase3/semantic_analyzer.c:52-61 | each error type's name reads back as that type and is never "UNKNOWN_ERROR" |
| SemanticAnalyzer.ErrorTypeNamesDistinct | phase3/semantic_analyzer.c:52-61 | different error types have different names |
| SemanticAnalyzer.SemanticContext.constructor | phase3/semantic_analyzer.c:8-15 | a new context has an empty 101-bucket table, no errors and both counters 0 |
| SemanticAnalyzer.SemanticContext.AddError | phase3/semantic_analyzer.c:39-49 | the new record goes in front of the list, the error count grows by one, warnings are untouched |
| SemanticAnalyzer.IdentifierStepEffect | phase3/semantic_analyzer.c:64-81 | after an identifier, its name is in the table (a new name as an IDENTIFIER declared at the node's line), marked used with its first use line kept; no other name changes; the node becomes BOOLEAN |
| SemanticAnalyzer.NewIdentifierIsUndefined | phase3/semantic_analyzer.c:64-81 | a name met first as an identifier adds one to the undefined count and nothing to the unused count |
| SemanticAnalyzer.SemanticContext.AnalyzeIdentifier | phase3/semantic_analyzer.c:64-81 | the table and node end as IdentifierStep gives |
| SemanticAnalyzer.ExpressionFlags | phase3/semantic_analyzer.c:132-159 | a non-identifier expression leaves the table alone; a literal becomes a BOOLEAN constant, the binary operators BOOLEAN non-constant, NOT BOOLEAN, any other kind unchanged, each agreeing with InferExpressionType |
| SemanticAnalyzer.SemanticContext.AnalyzeExpression | phase3/semantic_analyzer.c:132-159 | the table and node end as ExpressionStep gives |
| SemanticAnalyzer.StatementNodeKeepsTable | phase3/semantic_analyzer.c:84-98 | an assignment only becomes BOOLEAN and an expression statement is untouched; the walk does not go into their children, so the table is unchanged |
| SemanticAnalyzer.FlatStatementsKeepTable | phase3/semantic_analyzer.c:162-187 | walking a program's assignment and expression statements in order leaves the table unchanged and types each assignment BOOLEAN |
| SemanticAnalyzer.SemanticContext.AnalyzeNode | phase3/semantic_analyzer.c:162-187 | the table and node end as NodeStep gives, statements visited in index order |
| SemanticAnalyzer.PreambleDefinesAndUses | phase3/semantic_analyzer.c:203-211 | after the preamble, B and C are both defined and used |
| SemanticAnalyzer.DefineThenUse | phase3/semantic_analyzer.c:203-211 | inserting, setting and then marking a name leaves it defined and used |
| SemanticAnalyzer.StaysDefinedAndUsed | phase3/semantic_analyzer.c:203-211 | inserting, setting and marking one name leaves every other name's lookup unchanged |
| SemanticAnalyzer.SemanticContext.Preamble | phase3/semantic_analyzer.c:203-211 | the table becomes PreambleSpec of the old one |
| SemanticAnalyzer.SemanticContext.Validate | phase3/semantic_analyzer.c:218-234 | exactly one UNDEFINED_VAR error (line 0, no symbol) is added exactly when something is undefined, and the unused count is added to the warnings |
| SemanticAnalyzer.PerformSemanticAnalysis | phase3/semantic_analyzer.c:190-253 | -1 for a missing context or tree; otherwise walk, preamble and validation in order, and the result is the final error count; the table is the preamble applied to the walked table; the error list gains one UNDEFINED_VAR error at its head exactly when some symbol is used but undefined; the warning count grows by the unused count |
| SemanticAnalyzer.InferExpressionType | phase3/semantic_analyzer.c:445-477 | no node gives UNKNOWN; ASSIGNMENT and the literal and operator kinds give BOOLEAN; an identifier gives the type its table entry records, or UNKNOWN when it has no name or no entry; anything else gives UNKNOWN |
| Pipeline.PreambleOnEmpty | phase3/semantic_analyzer.c:203-211 | on a fresh table the preamble leaves exactly B and C, both defined and used, so nothing is undefined or unused |
| Pipeline.LoadedTreeAnalysis | phase3/semantic_analyzer.c:190-253 | the walk over any reloaded tree leaves the table empty, and after the preamble nothing is undefined or unused |
| Pipeline.LoadAndAnalyze | phase3/main_phase3.c:159-207 | without a tree the driver stops with status 1 and runs no analysis; with any reloaded tree the analysis returns 0 errors with 0 warnings and the driver exits with 0 |
| CodeGenAst.CreateAstNode | phase4/ast_loader_phase4.c:43-53 | the node has the given kind, text and line, and a zeroed data union |
| AnnotatedLoader.Reread | phase4/ast_loader_phase4.c:88-91 | what is read again is a suffix of the line: the whole line when it is put back; with the rewind as written, strictly less for a non-blank line that ends in white space |
| AnnotatedLoader.ParseAssignmentSpec | phase4/ast_loader_phase4.c:56-93 | kind and line are kept; a variable once set is kept; the value is unchanged or a BOOLEAN literal 1 or 0 at the assignment's line; no input is added (what is recovered exactly: ParseAssignmentResult) |
| AnnotatedLoader.LiteralIn | phase4/ast_loader_phase4.c:72-85 | a line gives a literal exactly when it is a "Value:"/"BOOLEAN:" line holding TRUE or FALSE; the literal is 1 exactly when it holds TRUE |
| AnnotatedLoader.ParseAssignmentResult | phase4/ast_loader_phase4.c:56-93 | on every input, let k be the position of the first line that ends the block (a value line with TRUE or FALSE, or a "Statement_"/"SEMANTIC_SUMMARY" line). The variable is the node's own, or else the trimmed text after the first "Variable:" line at or before position k, or none. A value line at k gives its literal (TRUE first) at the assignment's line, and the rest starts after it. A stop line at k is handed back in front of the rest, with the value unchanged. With no such line the input is used up and the value is unchanged |
| AnnotatedLoader.NothingBefore | phase4/ast_loader_phase4.c:56-93 | no line before the position the search returns meets its condition, so `FirstEnd` and `FirstVariableLine` are the first line ending the block and the first "Variable:" line |
| AnnotatedLoader.ParseAssignmentInfo | phase4/ast_loader_phase4.c:56-93 | the loop ends with the node and remaining input of ParseAssignmentSpec, and so recovers the variable, the literal and the rest that ParseAssignmentResult fixes, with the line put back |
| AnnotatedLoader.ParseStops | phase4/ast_loader_phase4.c:88-91 | a line naming the next statement or the summary ends the block and is handed back |
| AnnotatedLoader.ParseLeavesSuffix | phase4/ast_loader_phase4.c:88-91 | with the line put back, what the assignment parser leaves is a suffix of its input |
| AnnotatedLoader.NewProgram | phase4/ast_loader_phase4.c:121-124 | the root is a PROGRAM at line 1 with no statements |
| AnnotatedLoader.LoadAnnotatedAst | phase4/ast_loader_phase4.c:96-178 | the loop's result is LoadSpec of the whole input |
| AnnotatedLoader.LoadSkipsComment | phase4/ast_loader_phase4.c:116-118 | a line that trims to nothing or starts with '#' changes nothing |
| AnnotatedLoader.LoadSkips | phase4/ast_loader_phase4.c:112-166 | a non-blank, non-comment line that is neither the program line nor a statement header falls through the loop and changes nothing |
| AnnotatedLoader.LoadCreatesRoot | phase4/ast_loader_phase4.c:121-128 | the first "ANNOTATED_PROGRAM:" creates the root |
| AnnotatedLoader.LoadAssignment | phase4/ast_loader_phase4.c:137-148 | a header followed by an ASSIGNMENT line appends the parsed assignment |
| AnnotatedLoader.LoadExpression | phase4/ast_loader_phase4.c:149-157 | a header followed by an EXPRESSION_STMT line appends a childless expression statement at line 3 |
| AnnotatedLoader.LoadExtends | phase4/ast_loader_phase4.c:121-160 | once there is a root it stays, with its kind, text and line, and its statements are only ever appended to |
| AnnotatedLoader.LoadKeepsShape | phase4/ast_loader_phase4.c:131-160 | the root is a PROGRAM at line 1 with at most ten statements, each an assignment at line 1 or a childless expression statement at line 3, whichever way the rewind works |
| AnnotatedLoader.RewindLosesStatement | phase4/ast_loader_phase4.c:88-91 | on a dump holding an assignment and then an expression statement, putting the line back loads both statements, while the rewind as written loads only the first |
| AnnotatedLoader.RewindLosesStatementOnDump | phase4/ast_loader_phase4.c:88-91 | the same on the lines "ANNOTATED_PROGRAM:", "Statement_1:", "Node_Type: ASSIGNMENT", "Statement_2:", "Node_Type: EXPRESSION_STMT" as the dump writer prints them: two statements with the line put back, one with the rewind as written |
| CodeGenerator.CodeGenContext.constructor | phase4/code_generator.c:9-25 | all eight registers free, no instructions, label counter 1, stack offset 0, no symbols |
| CodeGenerator.AllocateEffect | phase4/code_generator.c:53-61 | with a free register, the lowest free one is returned and only it is marked used; with none free, RAX is returned and nothing changes |
| CodeGenerator.FreeEffect | phase4/code_generator.c:63-67 | freeing marks an in-range register free and touches no other register |
| CodeGenerator.AllocateThenFree | phase4/code_generator.c:53-67 | freeing what was just allocated restores the usage flags (clears RAX when none was free) |
| CodeGenerator.CodeGenContext.AllocateRegister | phase4/code_generator.c:53-61 | returns AllocatedRegister of the old flags and leaves the usage AllocateUsage gives, nothing else changed |
| CodeGenerator.CodeGenContext.FreeRegister | phase4/code_generator.c:63-67 | the usage becomes FreeUsage of the old flags, nothing else changed |
| CodeGenerator.CodeGenContext.IsRegisterFree | phase4/code_generator.c:69-71 | true exactly when the register is in range and unused |
| CodeGenerator.AddSymbolState | phase4/code_generator.c:74-83 | adding a symbol keeps instructions, registers and labels, and keeps the slot layout well formed |
| CodeGenerator.CodeGenContext.AddSymbol | phase4/code_generator.c:74-83 | the new slot gets the current offset, which then grows by 8 |
| CodeGenerator.OffsetFound | phase4/code_generator.c:85-94 | -1 exactly when the name has no slot; otherwise the offset of its first slot |
| CodeGenerator.CodeGenContext.GetSymbolOffset | phase4/code_generator.c:85-94 | the offset of the name's slot, or -1 exactly when it has none |
| CodeGenerator.CodeGenContext.SymbolExists | phase4/code_generator.c:96-98 | true exactly when some slot has the name |
| CodeGenerator.SlotsDistinct | phase4/code_generator.c:74-83 | slots are distinct multiples of 8 below the stack offset |
| CodeGenerator.EnsureSlotEffect | phase4/code_generator.c:206-208 | after the existence guard the name has a slot, old slots are kept, names stay distinct, and no instruction is emitted |
| CodeGenerator.LabelText | phase4/code_generator.c:101-105 | the label is at most 63 characters, and exactly prefix_id when that fits |
| CodeGenerator.LabelsDistinct | phase4/code_generator.c:101-105 | labels that fit are equal exactly when their ids are |
| CodeGenerator.CodeGenContext.GenerateLabel | phase4/code_generator.c:101-105 | returns the label for the current id and increments the counter |
| CodeGenerator.Stored | phase4/code_generator.c:108-133 | at most three operands are stored, in their given order |
| CodeGenerator.CodeGenContext.EmitInstruction | phase4/code_generator.c:108-133 | one instruction is appended at the tail, earlier ones unchanged |
| CodeGenerator.CodeGenContext.EmitLabel | phase4/code_generator.c:136-152 | one label pseudo-instruction is appended |
| CodeGenerator.CodeGenContext.EmitComment | phase4/code_generator.c:155-159 | only the last instruction's comment changes; an empty list is left alone |
| CodeGenerator.RegisterToString | phase4/code_generator.c:162-177 | other targets always give "r0"; an out-of-range register gives "rax" |
| CodeGenerator.RegisterNamesRoundTrip | phase4/code_generator.c:162-177 | each x86-64 register name reads back as that register |
| CodeGenerator.InstructionToString | phase4/code_generator.c:180-200 | "nop" exactly for the label pseudo-instruction |
| CodeGenerator.MnemonicsRoundTrip | phase4/code_generator.c:180-200 | every mnemonic other than the label's reads back as its instruction |
| CodeGenerator.CodeGenContext.GenerateIdentifier | phase4/code_generator.c:203-218 | the state becomes IdentifierCode of the old one |
| CodeGenerator.BinaryOpEmitsThree | phase4/code_generator.c:221-249 | whatever the node, exactly MOV rax,1; MOV rbx,0; OR rax,rbx are appended |
| CodeGenerator.CodeGenContext.GenerateBinaryOp | phase4/code_generator.c:221-249 | the state becomes BinaryOpCode of the old one, whatever the node |
| CodeGenerator.ExpressionEmits | phase4/code_generator.c:252-280 | no node or an unsupported kind emits nothing; a literal emits one MOV reg, value; OR emits the three fixed instructions; an identifier emits one load from its slot |
| CodeGenerator.CodeGenContext.GenerateExpression | phase4/code_generator.c:252-280 | the state becomes ExpressionCode of the old one |
| CodeGenerator.AssignmentKeepsSlots | phase4/code_generator.c:283-308 | an assignment only appends instructions and keeps every existing slot |
| CodeGenerator.CodeGenContext.GenerateAssignment | phase4/code_generator.c:283-308 | the state becomes AssignmentCode of the old one |
| CodeGenerator.CodeGenContext.PrepareSlotAndRegister | phase4/code_generator.c:290-296 | the variable gets a slot if it has none, and the register returned is the one allocation picks after that |
| CodeGenerator.CodeGenContext.StoreValue | phase4/code_generator.c:299-307 | the state becomes StoreAndFree of the old one: the register is stored to the variable's slot, the comment is set, and the register is freed |
| CodeGenerator.StatementRestoresRegisters | phase4/code_generator.c:311-340 | with a free register, a statement leaves the usage flags as it found them |
| CodeGenerator.CodeGenContext.GenerateStatement | phase4/code_generator.c:311-340 | the state becomes StatementCode of the old one (an expression statement generates a synthesised OR) |
| CodeGenerator.StatementsKeepSlots | phase4/code_generator.c:346-356 | statements emitted in order only append instructions and keep every slot |
| CodeGenerator.StatementsKeepRegistersFree | phase4/code_generator.c:346-356 | from all registers free, any statement list leaves them all free |
| CodeGenerator.ProgramEndsWithExit | phase4/code_generator.c:343-364 | a PROGRAM emits its statements' code in order and then exactly one MOV rax,0; any other node emits nothing |
| CodeGenerator.CodeGenContext.GenerateProgram | phase4/code_generator.c:343-364 | the state becomes ProgramCode of the old one |
| Text.ScanIntOfIntToString | phase2/token_parser.c:77-81 | `atoi` of a printed integer followed by a non-digit gives the integer back |
| Text.FindFirst | phase3/ast_loader.c:83 | -1 exactly when the pattern does not occur; otherwise the position of its first occurrence |

## Findings

| source | as written | input that shows it | evidently intended | confidence | as-written member | corrected member |
|---|---|---|---|---|---|---|
| phase4/ast_loader_phase4.c:88-91 | the block ends at a line naming the next statement, and the reader then steps back by the length of the line as trimmed in place; that length leaves out the line's trailing white space, so the next read starts that many characters into the line | the dump phase 3 writes (phase3/semantic_analyzer.c:355-372) for an assignment followed by an expression statement: "ANNOTATED_PROGRAM:", "Statement_1:", "Node_Type: ASSIGNMENT", "Statement_2:", "Node_Type: EXPRESSION_STMT"; "tatement_2:" is read again and not recognised, so the second statement is lost | the line that ends the block is read again whole, so the statement it introduces is loaded | not executed | AnnotatedLoader.RewindLosesStatement | AnnotatedLoader.ParseLeavesSuffix |

`AnnotatedLoader.Reread` takes one of two `Rewind` modes. `RewindByTrimmedLength` is the rewind as written and
`PutBackLine` is the corrected one. Every load lemma holds in both modes. The method
`AnnotatedLoader.LoadAnnotatedAst` uses `PutBackLine`.

## Left out

- Stage drivers (phase2/main_phase2.c, phase3/main_phase3.c, phase4/main_phase4.c) are command-line plumbing. The exception is phase 3's load-then-analyse sequence and its exit status, which `Pipeline.LoadAndAnalyze` models. The driver's failure when the analysis context cannot be allocated is left out with allocation failure in general.
- The report and file writers are output formatting with no effect on the modelled state: `print_ast_to_file`, `print_symbol_table`, `print_symbol_table_to_file`, `print_semantic_errors`, `print_semantic_errors_to_file`, `generate_annotated_ast` and `print_semantic_summary`. Only the shape of the annotated dump enters, as the input of the finding above.
- The `printf` trace lines inside the analyzer, the loaders and the generators change no state.
- Deallocation (`free_ast`, `free_symbol_table`, `free_semantic_context`, `free_codegen_context`, `free_ast_node`) has no counterpart in Dafny. Allocation is assumed never to fail, because the code never checks it.
- `parse_tokens_from_file` and `yyparse`: the Bison grammar is not part of this model.
- The numeric token codes of parser.tab.h are not part of this model. The codes are those of phase2/tokens.h: AND is 256 and the others follow in order.
- `generate_assembly` and the `write_*` functions of the code generator are not part of this model; their bodies are not available.
- Both reloaders read lines with `fgets` into 512-byte buffers. The model reads one list element per call, so a line longer than 511 characters, which `fgets` would read in two pieces, is not modelled.
- Positioning in the file with `ftell` / `fseek` is modelled as putting the line back. The one byte-level effect that matters is the rewind as written, which lands part way into the line. It is modelled as the `RewindByTrimmedLength` mode of `AnnotatedLoader.Reread`.
- Integers are unbounded: the counters, stack offsets, label ids and the values `atoi` reads do not overflow. The one 32-bit wrap-around, in the djb2 hash, is modelled explicitly.
- Strings are sequences of characters and do not stop at an embedded NUL. A character above 127 enters the hash as a signed `char`.
- The `yylval` union is a tagged payload. Reading one member after writing another is not modelled.
- The phase-3 reloader's `parent` pointer is not part of the node model.
- Ast.PrintAst: the contract fixes the "(null)" line, the header line and the indentation shared by all lines. For PROGRAM it also fixes the statement labels, through Ast.ProgramLayout. It does not state the depth of each role label and child subtree for the other kinds, though the function's body does lay them out as the source does.
- Ast.KindName: the names are proved pairwise distinct, and no lemma reads a name back into its kind.
