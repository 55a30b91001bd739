# Geometry sentences: scanner and parser

This project models the parsing core of `main.py`. The program reads Ukrainian sentences such as "Поставити точку A (1,1). Побудувати трикутник A B C." and turns them into a scene. A scene holds point, rectangle, triangle and line nodes.

- The scanner (`Lexer.tokenize`) searches the whole text once per lexical category, in the order of its pattern list. It appends every match with its start offset. It then sorts the matches by offset with Python's stable sort, and drops the offsets.
- The parser (`Parser`) keeps a forward-only cursor and a registry of placed points. It reads one statement at a time and chooses the statement by the token under the cursor. BUILD looks one token further to choose between a rectangle and a triangle. Each statement may be followed by one DOT. The first error aborts the whole parse.

Modules:

- `Results`: the `Result` type with early return (`:-`).
- `Tokens`: the thirteen token kinds, tokens, matches with offsets, and the pattern list with each kind's rank in it.
- `Lexer`: the merge step.
  - It gathers the matches of each category, in pattern order.
  - It stably sorts them by offset, as a functional insertion sort.
  - It drops the offsets.
  - `ScanChars` is a model of the global search for the single-character patterns.
- `Ast`: points, the node kinds, the registry, and the definition-before-use predicate `WellFormed` over scenes.
- `Parser`: `Consume`, one parse function per statement form, dispatch, and the parse loop. The loop exists as a recursive function (`ParseFrom`) and as the loop the source runs (`RunParse`).
- `Printer`: an inverse of the parser. It writes a scene back out as tokens. The round-trip lemma ties the two together.
- `Sample`: the token sequence of the program's built-in sample text, and the scene it parses to.

Models of some source behaviours:

- Coordinates stay the NUMBER lexemes they were written as.
- Errors are values of a small datatype.
- Reading the token at the end of the token list is the `EndOfInput` error. The source gets an index error there instead of a syntax error, both inside `consume` when it builds its message and in the BUILD lookahead. Both abort the parse the same way.

## Model

| member | source | states |
|---|---|---|
| Tokens.Rank | main.py:12-26 | every kind has a position in the scanner's pattern list, and the pattern at that position is the kind |
| Tokens.PatternsAreDistinct | main.py:12-26 | no kind appears twice in the pattern list, so the rank of the pattern at position i is i |
| Lexer.Tag | main.py:29-30 | each match of one category is recorded with that category's kind, its text and its offset, in the order the search found them |
| Lexer.CollectInPatternOrder | main.py:28-30 | before sorting, the matches are grouped by category in pattern-list order |
| Lexer.SortByOffsetPermutes | main.py:32 | sorting neither loses nor invents a match: the result is a permutation of the input |
| Lexer.SortByOffsetSorted | main.py:32 | after sorting, offsets never decrease |
| Lexer.SortByOffsetIsStableSort | main.py:32 | the sort is a stable sort: sorted by offset, and the matches at each offset keep their input order |
| Lexer.StableSortUnique | main.py:32 | any two stable sorts of the same matches are equal, so the key-based stable sort of the source is pinned down by its properties |
| Lexer.TiesKeepInputOrder | main.py:28-32 | when the input is in pattern order, matches at the same offset come out in pattern-list order |
| Lexer.MergeIsStableSort | main.py:28-32 | the merged list is a permutation of all category matches, ordered by offset, with same-offset matches in pattern-list priority order and in their category's order |
| Lexer.TokenizeIsAnyStableSort | main.py:28-34 | the tokens are, one for one, the kind and text of the matches of any stable sort of the gathered matches, without offsets |
| Lexer.ScanCharsSound | main.py:20-23 | every match a single-character pattern's search reports is one accepted character at its own offset, and matches come strictly left to right |
| Lexer.ScanCharsComplete | main.py:20-23 | every accepted character in the text is reported by the search |
| Parser.Consume | main.py:82-89 | consume succeeds exactly when a token is under the cursor and has the expected kind. It then returns that token's text and advances by one. Otherwise it fails with the expected kind, the kind found and the cursor position, or past the end with an out-of-range read |
| Parser.ConsumeAll | main.py:91-99 | consuming a fixed sequence of kinds succeeds exactly when the tokens from the cursor have those kinds. It returns their texts and the cursor after them. A failure is the error of the first token that does not fit |
| Parser.Lookup | main.py:108-110 | looking up names succeeds exactly when every name is placed, giving the registry's points in order. Otherwise it fails naming all the names of the statement |
| Parser.ParsePoint | main.py:91-102 | a place statement parses exactly when its eight tokens have the place shape. The point carries the name and the two number texts, the cursor moves past the statement, and the registry stores the point under its name, overwriting any earlier point of that name |
| Parser.ParseRectangle | main.py:104-110 | a rectangle parses exactly when the shape fits and all four names are placed. Its points are the registry's entries for the four names, and the registry is unchanged. A misfit gives the first consume error; an unplaced name gives the undefined error with all four names |
| Parser.ParseTriangle | main.py:112-118 | as for rectangles, with three names |
| Parser.ParseLine | main.py:120-128 | a line parses exactly when the shape fits and both endpoints are placed. Its endpoints are the registry's entries, and the registry is unchanged. Otherwise it fails with the first consume error, or the undefined error naming both endpoints |
| Parser.Statement | main.py:133-143 | a successful statement consumes at least five tokens and stays within the token list |
| Parser.DispatchPlace | main.py:133-135 | PLACE under the cursor selects the place statement |
| Parser.DispatchBuild | main.py:136-139 | BUILD selects by the next token: RECTANGLE or TRIANGLE select that statement. A missing next token is an out-of-range read. Any other next token is an unexpected-token error for BUILD |
| Parser.DispatchConnect | main.py:140-141 | CONNECT selects the line statement |
| Parser.DispatchOther | main.py:142-143 | any other token, a stray DOT included, is an unexpected-token error |
| Parser.StatementEffect | main.py:101 | a statement changes the registry only by storing the point a place statement emits. Under a consistent registry, every point a shape or line holds is the registry's current entry for its name |
| Parser.SkipDot | main.py:144-145 | at most one DOT is consumed after a statement, and only a DOT |
| Parser.ParseFromCons | main.py:130-146 | a parse is a successful statement, then the parse of the rest from after its DOT, with the registry it left |
| Parser.RunParse | main.py:130-146 | the loop as written returns the same result as the recursive parse: the nodes in statement order, or the first error |
| Parser.ParseFromWellFormed | main.py:130-146 | every scene the parser returns is well formed: each node refers only to points registered by the statements before it |
| Parser.ParseRefsPlacedEarlier | main.py:104-128 | every point a rectangle, triangle or line node holds was emitted as a point node earlier in the scene |
| Ast.Step | main.py:101 | emitting a point node stores it under its name and keeps every other entry. Shapes and lines leave the registry as it was. No name is ever removed |
| Ast.StepKeepsConsistent | main.py:101 | the registry keeps every point under its own name |
| Ast.RegistryAfterEntries | main.py:101 | every registry entry after a scene was there at the start or is a point node of the scene |
| Ast.WellFormedPrefix | main.py:104-128 | in a well-formed scene, node k is resolved against the registry its predecessors built |
| Ast.WellFormedRefsPlacedEarlier | main.py:104-128 | in a well-formed scene, every referenced point was placed earlier |
| Printer.StatementParsesBack | main.py:133-143 | the printed statement of a resolved node parses back to that node, moves the cursor past the statement and updates the registry as the node's step does |
| Printer.PointRoundTrip | main.py:91-102 | a printed point statement parses back to the same point |
| Printer.RectangleRoundTrip | main.py:104-110 | a printed rectangle over placed points parses back to the same rectangle |
| Printer.TriangleRoundTrip | main.py:112-118 | a printed triangle over placed points parses back to the same triangle |
| Printer.LineRoundTrip | main.py:120-128 | a printed line over placed points parses back to the same line |
| Printer.ParsePrintedFrom | main.py:130-146 | tokens that are a printed well-formed scene from the cursor on parse to exactly that scene: one node per statement, in order |
| Printer.ParsePrinted | main.py:130-146 | parsing a printed well-formed scene from a fresh parser gives back the scene |
| Sample.SceneTail | main.py:178-183 | the sample's seven statements, wherever they start and whatever the registry held before, parse to the four points, the rectangle, the line and the triangle. A point placed again by the sample overwrites the earlier entry |
| Sample.SampleParses | main.py:178-183 | the sample text's tokens parse to four points A(1,1), B(3,1), C(3,3), D(1,3), then the rectangle A B C D, the line A C and the triangle A B C |

## Left out

- The regular-expression search for the keyword categories and NUMBER (main.py:13-19, 24) is not modelled. Each category's matches are an input, one list per pattern, in the order the search returns them. Only the single-character classes `[A-Z]`, `(`, `)`, `,` and `.` are modelled, by `ScanChars`. Word boundaries and Cyrillic inflections would need a regex engine.
- Sample.SampleParses: starts from the token sequence of the sample text, not from the text. The scanner's search results for that text are not derived.
- `float()` on the coordinates (main.py:44-45) is not modelled. Points keep the NUMBER texts, so the sample's "1" and "3" stand for 1.0 and 3.0.
- `draw` and plotting (main.py:149-175), and the module-level script (main.py:185-189), are output and I/O.
- Exception classes and message texts (main.py:87-89, 109, 117, 127, 143) are not modelled. The error datatype keeps the facts a message carries.
- The scanner's object state (main.py:6-9) is not modelled. `tokenize` on a fresh scanner is a pure function here; calling it twice on one instance would append to the earlier matches.
- The parser's mutable fields (main.py:77-80) become the explicit cursor and registry values that every parse function takes and returns.
- The code does none of the following, so none is modelled:
  - Matches contained in a higher-priority match are not discarded. They are sorted in like any other match.
  - A place statement without coordinates fails; there is no random fallback.
  - Triangles get no collinearity check.
  - Place statements have no comma-separated chaining.
  - A DOT where no statement starts is an unexpected-token error, not skipped.
  - An undefined-reference error names all the names of the statement, not only the missing ones.
