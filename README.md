# Excel formula engine, modelled in Dafny

This project models the formula engine of the Excel dependency viewer. It has four parts:

- **The tokenizer** (`tokenizer.ts`). It turns a cell's raw content into tokens.
  - Content that starts with `=` is scanned character by character. Spaces are dropped, and each of `( , ) + - * /` ends the pending symbol and is a symbol of its own.
  - A completed symbol becomes a number when `isNumeric` accepts it.
  - Any other content must be a single number, or tokenizing fails.
- **The recursive-descent `Parser` class** (`parser.ts`). It holds a token sequence and a position cursor that its methods advance.
  - Sums and products are folded to the left, and a leading `-` becomes `0 - x`.
  - A call is accepted only for `SUM`, `AVERAGE` and `ROUND`.
  - Any other symbol is a cell address. The content of that cell is tokenized and parsed by a fresh parser. Its root is tagged with the address and spliced in place.
- **The syntax tree and its evaluator** (`syntaxTree.ts`).
- **The string predicates** `isNumeric` and `isExcelCellAddress`, and the helper `roundToPlaces` (`src/utils/index.ts`).

Each part follows the form of its source:

- `Tokenizer.Tokenize` is the original scan loop, with its buffer.
  - It is proved to compute `Tokenizer.Tokens`, a reference definition: the text after `=`, without spaces, is cut into split letters and maximal runs of other characters.
  - The tokenizer's promises are proved about `Tokens` in `TokenizerProperties`.
- `Parsing.Parser` is a class with `position` and `tokens` fields.
  - Each method, including the `while (true)` loops of `add`, `mul` and `args`, is proved to agree with a function of `Grammar`. It returns the same tree with the cursor after it, or the same failure.
  - The grammar's properties are proved in `GrammarProperties`: every tree has the parser's shape, the expansion bound only cuts recursion short, a parse reads nothing past the position it stops at, and tokens appended after it change nothing unless they start with an operator.
- `SyntaxTree.Eval` is the pure evaluator.
  - `EvalProperties` relates each node kind to an independent reference: sums and products folded from the right, and "fails iff some later divisor is zero".
- `Utils` writes the two regular expressions as recursive character predicates.
  - It proves each one equal to a plain description of the strings it accepts.
  - It gives `Number(str)` a decimal meaning and `roundToPlaces` a real-number meaning.

Numbers are unbounded reals. A thrown JavaScript `Error` is a `Result`/`Outcome` failure with a structured error constructor (`Wrappers.Error`). The content lookup `getFormula` is a parameter `g: string -> string`.

The source has no cycle check, so it can recurse into cells without end. The model gives each parser a bound `depth` on nested cell expansions. When the bound is exhausted, the expansion fails with `DepthExceeded`, which stands for the call-stack overflow. `GrammarProperties.RootFuel` proves that raising the bound changes no result except that failure.

Modules: `Wrappers`, `Utils`, `Tokenizer`, `TokenizerProperties`, `TokenizerExamples`, `SyntaxTree`, `EvalProperties`, `Grammar`, `GrammarProperties`, `Parsing`, `ParserExamples`, `CellExamples`.

## Model

| member | source | states |
|---|---|---|
| Tokenizer.Tokens | src/features/Excel/utils/tokenizer.ts:17-55 | reference definition of `tokenizer(str)`: a formula's text after `=`, without spaces, cut by `Segments` and classified; other content is one number or refused (proved of the loop by `Tokenizer.Tokenize`, its meaning by `TokenizerProperties`) |
| Tokenizer.Segments | src/features/Excel/utils/tokenizer.ts:21-48 | reference cut of the space-free text into lone split letters and maximal runs (`SegmentsRoundTrip` and `SegmentsOfCut` prove it loses nothing and is unique) |
| Tokenizer.Classify | src/features/Excel/utils/tokenizer.ts:29-33 | a completed symbol is `NUM` with `Number(symbol)` when `isNumeric` accepts it, otherwise `RESERVED` with its text |
| Tokenizer.Tokenize | src/features/Excel/utils/tokenizer.ts:17-55 | the scan loop over the characters after `=`, with the pending buffer flushed at each split letter and at the end, returns exactly `Tokens(str)`; content without `=` is one number or the "neither formula nor number" failure |
| Tokenizer.ScanInvariant | src/features/Excel/utils/tokenizer.ts:21-40 | each of the loop's three branches (skip a space, flush and emit a split letter, append to the buffer) keeps "emitted tokens + tokens of buffer and remaining input = all tokens", and appending keeps the buffer free of split letters |
| Tokenizer.ScanStep | src/features/Excel/utils/tokenizer.ts:21-40 | one loop step on the remaining input: a space is dropped, a split letter flushes the buffer and is emitted, any other character extends the buffer |
| Tokenizer.SplitKeepsInvariant | src/features/Excel/utils/tokenizer.ts:27-37 | the split-letter branch keeps the loop invariant |
| Tokenizer.Flush | src/features/Excel/utils/tokenizer.ts:28-34 | an empty buffer emits nothing; a non-empty one emits one token, a number with `Number(buffer)` exactly when `isNumeric(buffer)`, otherwise the symbol with the buffer text |
| Tokenizer.FlushAtSplit | src/features/Excel/utils/tokenizer.ts:27-37 | a buffer free of split letters followed by a split letter gives the flushed buffer, then the split letter as a symbol, then the tokens of the rest |
| Tokenizer.SegmentsAtSplit | src/features/Excel/utils/tokenizer.ts:27-37 | a split letter closes the run before it (if any) and is a segment of its own |
| Tokenizer.SegmentsOfRun | src/features/Excel/utils/tokenizer.ts:42-48 | the trailing buffer is one segment when non-empty and none when empty |
| Tokenizer.SplitLetterNotNumeric | src/features/Excel/utils/tokenizer.ts:36 | a split letter alone is never numeric, so it becomes a `RESERVED` token |
| Tokenizer.RemoveSpaces | src/features/Excel/utils/tokenizer.ts:23-26 | the text with spaces skipped holds no space |
| Tokenizer.RunLength | src/features/Excel/utils/tokenizer.ts:27-39 | the buffer grows over a prefix free of split letters and stops exactly at the next split letter or the end |
| Tokenizer.RunLengthOfRun | src/features/Excel/utils/tokenizer.ts:27-39 | a run free of split letters followed by a split letter or the end has exactly its own length |
| Tokenizer.ClassifyAll | src/features/Excel/utils/tokenizer.ts:29-33 | one token per segment, each classified by `isNumeric` |
| TokenizerProperties.PlainContent | src/features/Excel/utils/tokenizer.ts:51-54 | content not starting with `=` tokenizes iff `isNumeric` holds, and then to exactly one `NUM` token with `Number(str)` |
| TokenizerProperties.SplitLettersInOrder | src/features/Excel/utils/tokenizer.ts:27-37 | the single-letter split-symbol tokens spell exactly the split letters after `=`, in input order, so they are as many as the split letters |
| TokenizerProperties.FormulaTokenShape | src/features/Excel/utils/tokenizer.ts:23-48 | no token holds a space; a `RESERVED` token is non-empty and, if longer than one letter, holds no split letter; every `NUM` token is non-negative because `-` always splits |
| TokenizerProperties.FormulaText | src/features/Excel/utils/tokenizer.ts:21-48 | under the raw-text view, the segments put together are the content after `=` without spaces, one token per segment; a symbol's text is its segment and a number is `Number` of a numeric segment |
| TokenizerProperties.SegmentsRoundTrip | src/features/Excel/utils/tokenizer.ts:21-48 | cutting loses nothing: the segments concatenate back to the text, each is a lone split letter or a non-empty run without split letters, and none holds a space when the text holds none |
| TokenizerProperties.SplitSymbolsOfSegments | src/features/Excel/utils/tokenizer.ts:27-37 | the split-symbol tokens of a space-free text are its split letters in order |
| TokenizerProperties.SplitLettersOfRemoveSpaces | src/features/Excel/utils/tokenizer.ts:23-26 | skipping spaces keeps every split letter, in order |
| TokenizerProperties.SplitHead | src/features/Excel/utils/tokenizer.ts:27-37 | a leading split letter is a segment of its own |
| TokenizerProperties.SegmentsOfCut | src/features/Excel/utils/tokenizer.ts:21-48 | the cut is unique: any list of lone split letters and runs free of split letters, with no two runs adjacent, is the cut of its own concatenation |
| TokenizerProperties.RunHead | src/features/Excel/utils/tokenizer.ts:39 | a leading run free of split letters, ended by a split letter or the end, is one segment |
| TokenizerExamples.ExamplePlain | src/features/Excel/utils/tokenizer.ts:51-54 | `5` and `6` are one number each; `abc` is refused |
| TokenizerExamples.ExampleOnePlusTwo | src/features/Excel/utils/tokenizer.test.ts:21-38 | `=1 + 2` gives `NUM 1`, `+`, `NUM 2` |
| TokenizerExamples.ExampleNegativeMinus | src/features/Excel/utils/tokenizer.test.ts:99-120 | `=-4 - 5` gives `-`, `NUM 4`, `-`, `NUM 5` |
| TokenizerExamples.ExampleRange | src/features/Excel/utils/tokenizer.test.ts:239-260 | `=SUM(A1:A3)` keeps `A1:A3` as one symbol |
| TokenizerExamples.ExampleCell | src/features/Excel/utils/parser.test.ts:323 | `=B4` is the single symbol `B4` |
| TokenizerExamples.ExampleCellTimesTwo | src/features/Excel/utils/parser.test.ts:327 | `=B3 * 2` gives `B3`, `*`, `NUM 2` |
| TokenizerExamples.ExampleCellSum | src/features/Excel/utils/parser.test.ts:337 | `=(B1 + B2) * B3` gives the seven expected symbols |
| TokenizerExamples.BinaryFormula | src/features/Excel/utils/tokenizer.ts:17-48 | `=a op b` with one space around a split letter gives the tokens of `a`, the operator and the tokens of `b` |
| TokenizerExamples.NegatedBinaryFormula | src/features/Excel/utils/tokenizer.ts:17-48 | `=-a op b` gives a leading `-` symbol before the tokens of `a op b` |
| TokenizerExamples.CallOfRange | src/features/Excel/utils/tokenizer.ts:17-48 | `=F(R)` with no split letters in `F` and `R` gives `F`, `(`, `R`, `)` |
| TokenizerExamples.SumTimes | src/features/Excel/utils/tokenizer.ts:17-48 | `=(a + b) * c` over runs without split letters or spaces gives `(`, the token of `a`, `+`, the token of `b`, `)`, `*`, the token of `c` |
| TokenizerExamples.ChainFormula | src/features/Excel/utils/tokenizer.ts:17-48 | `=a op b op2 c`, one space around each operator, gives the tokens of `a`, `b` and `c` with the two operators between them |
| TokenizerExamples.CallOfTwo | src/features/Excel/utils/tokenizer.ts:17-48 | `=f(a, b)` gives the token of `f`, `(`, the token of `a`, `,`, the token of `b`, `)` |
| TokenizerExamples.CallOfThree | src/features/Excel/utils/tokenizer.ts:17-48 | `=f(a, b, c)` gives the name, `(`, the three tokens separated by `,`, and `)` |
| TokenizerExamples.NestedCall | src/features/Excel/utils/tokenizer.ts:17-48 | `=f(a, g(b, c))` gives the eleven tokens of the nested call, the two closing `)` last |
| TokenizerExamples.ExampleGroupTimes | src/features/Excel/utils/tokenizer.test.ts:39-72 | `=(3 + 4) * 5` gives `(`, `NUM 3`, `+`, `NUM 4`, `)`, `*`, `NUM 5` |
| TokenizerExamples.ExampleDivideTimes | src/features/Excel/utils/tokenizer.test.ts:73-98 | `=3 / 5 * 10` gives `NUM 3`, `/`, `NUM 5`, `*`, `NUM 10` |
| TokenizerExamples.ExampleSumOfThree | src/features/Excel/utils/tokenizer.test.ts:121-158 | `=SUM(1, 5, 8)` gives `SUM`, `(`, `NUM 1`, `,`, `NUM 5`, `,`, `NUM 8`, `)` |
| TokenizerExamples.ExampleNestedSum | src/features/Excel/utils/tokenizer.test.ts:159-208 | `=SUM(1, SUM(3, 4))` gives `SUM`, `(`, `NUM 1`, `,`, `SUM`, `(`, `NUM 3`, `,`, `NUM 4`, `)`, `)` |
| TokenizerExamples.ExampleRound | src/features/Excel/utils/tokenizer.test.ts:209-238 | `=ROUND(123.456, 0)` gives `ROUND`, `(`, `NUM 123.456`, `,`, `NUM 0`, `)`: the fraction stays in one number |
| TokenizerExamples.FormulaBody | src/features/Excel/utils/tokenizer.ts:18-21 | the tokens of `=t` are those of the text `t` after the `=` |
| TokenizerExamples.BodySpace | src/features/Excel/utils/tokenizer.ts:23-26 | a leading space adds no token |
| TokenizerExamples.BodyRun | src/features/Excel/utils/tokenizer.ts:39-48 | a run left at the end is flushed as one token |
| TokenizerExamples.BodySplit | src/features/Excel/utils/tokenizer.ts:27-37 | a leading split letter is one symbol token before the tokens of the rest |
| TokenizerExamples.BodyRunSplit | src/features/Excel/utils/tokenizer.ts:27-39 | a run followed by a split letter is one token, then the split letter's symbol |
| TokenizerExamples.BodyRunSpaceSplit | src/features/Excel/utils/tokenizer.ts:23-39 | a space between a run and the split letter after it changes nothing |
| TokenizerExamples.DigitToken | src/features/Excel/utils/tokenizer.ts:29-30 | a single digit is a number with its digit value |
| TokenizerExamples.WordToken | src/features/Excel/utils/tokenizer.ts:31-33 | a symbol starting with a letter is not numeric and stays a symbol |
| TokenizerExamples.SplitToken | src/features/Excel/utils/tokenizer.ts:36 | a split letter is emitted as its own symbol |
| Parsing.Parser.constructor | src/features/Excel/utils/parser.ts:8-18 | a new parser starts at position 0 with the given address, lookup and tokens |
| Parsing.Parser.IsCurNumber | src/features/Excel/utils/parser.ts:31-37 | true iff a current token exists and is a number |
| Parsing.Parser.Consume | src/features/Excel/utils/parser.ts:44-54 | advances by exactly one iff the current token is the symbol `expected`; otherwise returns false and leaves the position |
| Parsing.Parser.ConsumeFuncName | src/features/Excel/utils/parser.ts:56-69 | advances by one and returns the name iff the current token is `SUM`, `AVERAGE` or `ROUND` |
| Parsing.Parser.Expect | src/features/Excel/utils/parser.ts:76-89 | advances by one on the expected symbol; fails at the end of input, on a number and on another symbol, reporting what was found |
| Parsing.Parser.ExpectNumber | src/features/Excel/utils/parser.ts:91-101 | returns the number and advances by one, or fails at the end of input or on a symbol |
| Parsing.Parser.ExpectReserved | src/features/Excel/utils/parser.ts:103-113 | returns the symbol and advances by one, or fails at the end of input or on a number |
| Parsing.Parser.Expr | src/features/Excel/utils/parser.ts:115-117 | agrees with the `add` grammar |
| Parsing.Parser.Add | src/features/Excel/utils/parser.ts:119-143 | the `while (true)` loop over `+`/`-` agrees with `Grammar.ParseAdd`: same left-folded tree and final position, or the same failure |
| Parsing.Parser.Mul | src/features/Excel/utils/parser.ts:145-170 | the loop over `*`/`/` agrees with `Grammar.ParseMul` |
| Parsing.Parser.Unary | src/features/Excel/utils/parser.ts:175-186 | agrees with `Grammar.ParseUnary` (`-x` as `SUB[0, x]`) |
| Parsing.Parser.Primary | src/features/Excel/utils/parser.ts:188-215 | agrees with `Grammar.ParsePrimary`: number, parenthesised expression, whitelisted call or cell |
| Parsing.Parser.Args | src/features/Excel/utils/parser.ts:217-228 | the comma loop agrees with `Grammar.ParseArgs` |
| Parsing.Parser.Cell | src/features/Excel/utils/parser.ts:230-240 | a fresh parser for the address reads that cell's content, and its tree is tagged with the address; agrees with `Grammar.ParseCell` |
| Parsing.Parser.Init | src/features/Excel/utils/parser.ts:245-249 | the tokens become `Tokens(getFormula(rootAddress))`, or the tokenizer's failure is returned and the tokens are kept |
| Parsing.Parser.Parse | src/features/Excel/utils/parser.ts:251-253 | returns `Grammar.ParseRoot`: the expression tree with its root tagged by the parser's own address |
| Grammar.IsReservedAt | src/features/Excel/utils/parser.ts:44-54 | the test `consume(e)` makes: a current token exists and is the symbol `e` |
| Grammar.IsNumberAt | src/features/Excel/utils/parser.ts:31-37 | `isCurNumber`: a current token exists and is a number |
| Grammar.FoundAt | src/features/Excel/utils/parser.ts:76-113 | what the `expect` messages report: the end of input, the number or the symbol at the position |
| Grammar.FuncNameOf | src/features/Excel/utils/parser.ts:4-6 | the whitelist `excelFuncNames` (its exact contents are stated by `GrammarProperties.FuncNameWhitelist` and `FuncNameRoundTrip`) |
| Grammar.FuncNameAt | src/features/Excel/utils/parser.ts:56-69 | the name `consumeFuncName` accepts: the current symbol when it is on the whitelist |
| Grammar.ExpectAt | src/features/Excel/utils/parser.ts:76-89 | passes iff the expected symbol is current; otherwise the failure reports what was found |
| Grammar.ExpectNumberAt | src/features/Excel/utils/parser.ts:91-101 | succeeds iff a number is current, with its value; otherwise the failure reports what was found |
| Grammar.ExpectReservedAt | src/features/Excel/utils/parser.ts:103-113 | succeeds iff a symbol is current, with its text; otherwise the failure reports what was found, under the source's own "number" wording |
| Grammar.ParseAdd | src/features/Excel/utils/parser.ts:119-143 | a successful parse consumes at least one token and stays within the tokens |
| Grammar.ParseAddTail | src/features/Excel/utils/parser.ts:122-142 | the position never moves back and never passes the end |
| Grammar.ParseMul | src/features/Excel/utils/parser.ts:145-170 | a successful parse consumes at least one token and stays within the tokens |
| Grammar.ParseMulTail | src/features/Excel/utils/parser.ts:149-169 | the position never moves back and never passes the end |
| Grammar.ParseUnary | src/features/Excel/utils/parser.ts:175-186 | a successful parse consumes at least one token and stays within the tokens |
| Grammar.ParsePrimary | src/features/Excel/utils/parser.ts:188-215 | a successful parse consumes at least one token and stays within the tokens |
| Grammar.ParseArgs | src/features/Excel/utils/parser.ts:217-228 | at least one argument, and at least one token consumed |
| Grammar.ParseArgsTail | src/features/Excel/utils/parser.ts:220-226 | the arguments collected so far are kept as a prefix, and the position never moves back |
| Grammar.ParseCell | src/features/Excel/utils/parser.ts:230-240 | a cell consumes exactly its address symbol, and the tree is tagged with that address |
| Grammar.ParseCellContent | src/features/Excel/utils/parser.ts:233-239 | a parsed cell content carries the cell's address |
| Grammar.ParseRoot | src/features/Excel/utils/parser.ts:251-253 | the tree `parse()` returns carries the root address |
| GrammarProperties.FuncNameRoundTrip | src/features/Excel/utils/parser.ts:4-6 | a symbol names a function iff it is that function's text |
| GrammarProperties.FuncNameWhitelist | src/features/Excel/utils/parser.ts:4-5 | the whitelist holds exactly `SUM`, `AVERAGE` and `ROUND` |
| GrammarProperties.BinaryShape | src/features/Excel/utils/parser.ts:124-130 | an operator node over two well-formed operands is well formed |
| GrammarProperties.AddShape | src/features/Excel/utils/parser.ts:119-143 | every tree `add` builds is well formed: operators with two operands, literals with a value, calls named and with at least one argument |
| GrammarProperties.AddTailShape | src/features/Excel/utils/parser.ts:122-142 | the `add` loop keeps the tree well formed |
| GrammarProperties.MulShape | src/features/Excel/utils/parser.ts:145-170 | every tree `mul` builds is well formed |
| GrammarProperties.MulTailShape | src/features/Excel/utils/parser.ts:149-169 | the `mul` loop keeps the tree well formed |
| GrammarProperties.UnaryShape | src/features/Excel/utils/parser.ts:175-186 | every tree `unary` builds is well formed |
| GrammarProperties.PrimaryShape | src/features/Excel/utils/parser.ts:188-215 | every tree `primary` builds is well formed; a `FUNC` node is named and has arguments |
| GrammarProperties.ArgsShape | src/features/Excel/utils/parser.ts:217-228 | every argument is well formed |
| GrammarProperties.ArgsTailShape | src/features/Excel/utils/parser.ts:220-226 | the comma loop keeps every argument well formed |
| GrammarProperties.CellShape | src/features/Excel/utils/parser.ts:230-240 | a spliced-in cell tree is well formed |
| GrammarProperties.CellContentShape | src/features/Excel/utils/parser.ts:233-239 | a parsed cell content is well formed |
| GrammarProperties.RootShape | src/features/Excel/utils/parser.ts:251-253 | the tree `parse()` returns is well formed |
| GrammarProperties.AddFuel | src/features/Excel/utils/parser.ts:119-143 | unless the expansion bound was hit, a larger bound gives the same result |
| GrammarProperties.AddTailFuel | src/features/Excel/utils/parser.ts:122-142 | the same for the `add` loop |
| GrammarProperties.MulFuel | src/features/Excel/utils/parser.ts:145-170 | the same for `mul` |
| GrammarProperties.MulTailFuel | src/features/Excel/utils/parser.ts:149-169 | the same for the `mul` loop |
| GrammarProperties.UnaryFuel | src/features/Excel/utils/parser.ts:175-186 | the same for `unary` |
| GrammarProperties.PrimaryFuel | src/features/Excel/utils/parser.ts:188-215 | the same for `primary` |
| GrammarProperties.ArgsFuel | src/features/Excel/utils/parser.ts:217-228 | the same for `args` |
| GrammarProperties.ArgsTailFuel | src/features/Excel/utils/parser.ts:220-226 | the same for the comma loop |
| GrammarProperties.CellFuel | src/features/Excel/utils/parser.ts:230-240 | the same for `cell` |
| GrammarProperties.CellContentFuel | src/features/Excel/utils/parser.ts:233-239 | the same for a cell's content |
| GrammarProperties.RootFuel | src/features/Excel/utils/parser.ts:230-240 | the bound on nested cell expansions changes no result of `parse()` except the failure saying it was hit |
| GrammarProperties.AddExtend | src/features/Excel/utils/parser.ts:119-143 | a successful `add` parse is unchanged by tokens appended after it, unless they start with `+ - * /` |
| GrammarProperties.AddTailExtend | src/features/Excel/utils/parser.ts:122-142 | the same for the `add` loop |
| GrammarProperties.MulExtend | src/features/Excel/utils/parser.ts:145-170 | the same for `mul` |
| GrammarProperties.MulTailExtend | src/features/Excel/utils/parser.ts:149-169 | the same for the `mul` loop |
| GrammarProperties.UnaryExtend | src/features/Excel/utils/parser.ts:175-186 | the same for `unary` |
| GrammarProperties.PrimaryExtend | src/features/Excel/utils/parser.ts:188-215 | the same for `primary` |
| GrammarProperties.ArgsExtend | src/features/Excel/utils/parser.ts:217-228 | the same for `args`, where an argument list that ends at the last token is also changed by a `,` after it |
| GrammarProperties.ArgsTailExtend | src/features/Excel/utils/parser.ts:220-226 | the same for the comma loop, with the same exception for a `,` |
| GrammarProperties.CellExtend | src/features/Excel/utils/parser.ts:230-240 | the same for `cell` |
| GrammarProperties.RootExtend | src/features/Excel/utils/parser.ts:251-253 | tokens appended after a successful `parse()` change nothing unless they start with `+ - * /`; a trailing `,` or `)` is left unread |
| GrammarProperties.AddPrefix | src/features/Excel/utils/parser.ts:119-143 | a successful `add` parse reads no token at or after the position it stops at: the tokens cut anywhere from there give the same result |
| GrammarProperties.AddTailPrefix | src/features/Excel/utils/parser.ts:122-142 | the same for the `add` loop |
| GrammarProperties.MulPrefix | src/features/Excel/utils/parser.ts:145-170 | the same for `mul` |
| GrammarProperties.MulTailPrefix | src/features/Excel/utils/parser.ts:149-169 | the same for the `mul` loop |
| GrammarProperties.UnaryPrefix | src/features/Excel/utils/parser.ts:175-186 | the same for `unary` |
| GrammarProperties.PrimaryPrefix | src/features/Excel/utils/parser.ts:188-215 | the same for `primary` |
| GrammarProperties.ArgsPrefix | src/features/Excel/utils/parser.ts:217-228 | the same for `args` |
| GrammarProperties.ArgsTailPrefix | src/features/Excel/utils/parser.ts:220-226 | the same for the comma loop |
| GrammarProperties.CellPrefix | src/features/Excel/utils/parser.ts:230-240 | the same for `cell` |
| GrammarProperties.RootPrefix | src/features/Excel/utils/parser.ts:251-253 | `parse()` reads only the tokens its expression spans: the tokens cut anywhere from where the expression stops give the same tree |
| ParserExamples.AdditiveLeftAssociative | src/features/Excel/utils/parser.ts:119-143 | `a op b op' c` with `+`/`-` parses to `(a op b) op' c` |
| ParserExamples.MultiplicativeLeftAssociative | src/features/Excel/utils/parser.ts:145-170 | `a op b op' c` with `*`/`/` parses to `(a op b) op' c` |
| ParserExamples.Precedence | src/features/Excel/utils/parser.ts:119-170 | in `a + b * c` and `a * b + c`, the product is an operand of the sum |
| ParserExamples.UnaryMinus | src/features/Excel/utils/parser.ts:175-186 | `-x` parses to `SUB[LITERAL 0, x]` |
| ParserExamples.TrailingTokensIgnored | src/features/Excel/utils/parser.ts:251-253 | `1 2`, `1 )` and `1 ,` all parse to the literal 1: `parse()` leaves a trailing number, `)` or `,` unread |
| ParserExamples.NumberOperand | src/features/Excel/utils/parser.ts:188-192 | a number not followed by `*` or `/` is a whole operand of `+`/`-` |
| ParserExamples.NumberFactor | src/features/Excel/utils/parser.ts:189-191 | a number is a factor, a literal without address |
| ParserExamples.NumberTerm | src/features/Excel/utils/parser.ts:188-192 | a number followed by no operator is a whole expression |
| ParserExamples.WholeOperand | src/features/Excel/utils/parser.ts:119-170 | a factor not followed by an operator is the whole `mul` and `add` at its position |
| ParserExamples.SumOfFactors | src/features/Excel/utils/parser.ts:119-143 | two factors joined by `+` parse to their `ADD` node |
| ParserExamples.ProductOfFactors | src/features/Excel/utils/parser.ts:145-170 | two factors joined by `*` parse to their `MUL` node |
| ParserExamples.CallFactor | src/features/Excel/utils/parser.ts:199-212 | a whitelisted name, `(`, the arguments and `)` make a `FUNC` node |
| ParserExamples.ArgStep | src/features/Excel/utils/parser.ts:221-224 | a comma appends one more argument |
| ParserExamples.ArgsEnd | src/features/Excel/utils/parser.ts:225 | the arguments end where no comma follows |
| ParserExamples.TwoArgumentCall | src/features/Excel/utils/parser.ts:199-228 | a call with two arguments parses to a `FUNC` node with both |
| ParserExamples.ThreeNumberCall | src/features/Excel/utils/parser.ts:199-228 | `F(a, b, c)` over numbers parses to a `FUNC` node with three literals |
| ParserExamples.NestedCall | src/features/Excel/utils/parser.ts:199-228 | `F(x, G(y, z))` parses to nested `FUNC` nodes |
| ParserExamples.EvalCons | src/features/Excel/utils/syntaxTree.ts:22 | children evaluate left to right |
| ParserExamples.EvalNumbers | src/features/Excel/utils/syntaxTree.ts:22 | literal children evaluate to their values |
| ParserExamples.ExampleOnePlusTwo | src/features/Excel/utils/parser.test.ts:12-29 | `1 + 2` parses to `ADD[1, 2]` and evaluates to 3 |
| ParserExamples.ExampleParenthesesTimes | src/features/Excel/utils/parser.test.ts:30-63 | `(3 + 4) * 5` evaluates to 35 |
| ParserExamples.ExampleDivideTimes | src/features/Excel/utils/parser.test.ts:64-89 | `3 / 5 * 10` evaluates to 6 |
| ParserExamples.ExampleNegativeMinus | src/features/Excel/utils/parser.test.ts:90-111 | `-4 - 5` evaluates to -9 |
| ParserExamples.ExampleSum | src/features/Excel/utils/parser.test.ts:112-149 | `SUM(1, 5, 8)` evaluates to 14 |
| ParserExamples.ExampleAverage | src/features/Excel/utils/parser.test.ts:150-187 | `AVERAGE(3, 12, 15)` evaluates to 10 |
| ParserExamples.NestedSumParse | src/features/Excel/utils/parser.test.ts:188-237 | `SUM(1, SUM(3, 4))` parses to the nested call |
| ParserExamples.NestedSumValue | src/features/Excel/utils/syntaxTree.ts:50-54 | the nested call evaluates to 8 |
| ParserExamples.ExampleNestedSum | src/features/Excel/utils/parser.test.ts:188-237 | `SUM(1, SUM(3, 4))` evaluates to 8 |
| ParserExamples.RoundCall | src/features/Excel/utils/syntaxTree.ts:61-71 | `ROUND(v, p)` over numbers evaluates to `roundToPlaces(v, p)` |
| ParserExamples.ExampleRound | src/features/Excel/utils/parser.test.ts:238-297 | `ROUND(123.456, 0)` is 123 and `ROUND(123.456, 1)` is 123.5 |
| CellExamples.CellReference | src/features/Excel/utils/parser.ts:213-240 | a symbol that is not `-`, `(` or a function name is a cell: its factor is the parse of that cell's content, tagged with the address, or the bound failure when no expansion is left |
| CellExamples.ContentOf | src/features/Excel/utils/parser.ts:233-239 | a cell whose tokens parse to `t` has content `t` tagged with its address |
| CellExamples.NumberCell | src/features/Excel/utils/parser.ts:230-240 | a cell holding a plain number reads as that literal, tagged with the address |
| CellExamples.CellTimes | src/features/Excel/utils/parser.ts:230-240 | `a * w`, with cell `a` holding a number, parses to `MUL` of the tagged cell literal and `w` |
| CellExamples.CellTimesNumber | src/features/Excel/utils/parser.ts:230-240 | a cell whose content is `a * w` reads as that product, tagged with its address |
| CellExamples.ParenSumTimes | src/features/Excel/utils/parser.ts:188-198 | `(x + y) * z` parses to `MUL[ADD[x, y], z]` |
| CellExamples.ParenSumTimesCells | src/features/Excel/utils/parser.ts:230-240 | `(a + b) * c` over three cell references parses to the cells' own trees |
| CellExamples.NestedContent | src/features/Excel/utils/parser.test.ts:325-333 | B4 (`=B3 * 2`, with B3 holding `6`) reads as `MUL[6 tagged B3, 2]` tagged B4 |
| CellExamples.NestedParse | src/features/Excel/utils/parser.test.ts:321-334 | `=B4` parses to B4's tree, given two nested expansions |
| CellExamples.NestedValue | src/features/Excel/utils/parser.test.ts:321-334 | that tree evaluates to 12 |
| CellExamples.ExampleNestedCells | src/features/Excel/utils/parser.test.ts:321-334 | `=B4` tokenizes, parses and evaluates to 12 |
| CellExamples.SharedContents | src/features/Excel/utils/parser.test.ts:339-350 | B1, B2 and B3 read as `5`, `6` and `1 + 2`, each tagged with its address |
| CellExamples.SharedParse | src/features/Excel/utils/parser.test.ts:335-351 | `(B1 + B2) * B3` parses to the product of the cells' trees |
| CellExamples.SharedValue | src/features/Excel/utils/parser.test.ts:335-351 | that tree evaluates to 33 |
| CellExamples.ExampleSharedCells | src/features/Excel/utils/parser.test.ts:335-351 | `=(B1 + B2) * B3` tokenizes, parses and evaluates to 33 |
| SyntaxTree.Eval | src/features/Excel/utils/syntaxTree.ts:21-83 | `eval()`: children first, left to right, the first failure wins, then the node's own case (meaning proved in `EvalProperties`) |
| SyntaxTree.EvalNode | src/features/Excel/utils/syntaxTree.ts:23-82 | the `switch` of `eval()` on the children's values: `reduce` for the operators and `SUM`, the divisor check for `DIV`, the stored value for a literal, the whitelist calls |
| SyntaxTree.FoldFrom | src/features/Excel/utils/syntaxTree.ts:25-37 | the left fold `reduce` performs from an accumulator (`EvalProperties.FoldPlus` and its siblings give its value) |
| SyntaxTree.Reduce | src/features/Excel/utils/syntaxTree.ts:25-58 | `reduce` without an initial value: the first value starts the fold and an empty array fails (`EvalProperties.ReduceMeaning`) |
| SyntaxTree.ZeroDivisor | src/features/Excel/utils/syntaxTree.ts:34 | the `DIV` guard: some value after the first is zero |
| SyntaxTree.WellFormed | src/features/Excel/utils/syntaxTree.ts:21-83 | the shape the parser builds: operators with two operands, literals with a value, named calls with arguments (kept by every parse, `GrammarProperties.RootShape`) |
| SyntaxTree.SyntaxTreeNode.SetAddress | src/features/Excel/utils/syntaxTree.ts:16-19 | only the address changes: kind, children, value and function name are kept |
| SyntaxTree.EvalAll | src/features/Excel/utils/syntaxTree.ts:22 | one value per child |
| EvalProperties.EvalAllMeaning | src/features/Excel/utils/syntaxTree.ts:22 | children are evaluated left to right: on success each value is its child's; on failure it is the first failing child's error; and if every child evaluates, so do all |
| EvalProperties.EvalAllValues | src/features/Excel/utils/syntaxTree.ts:22 | on success the i-th value is the i-th child's value |
| EvalProperties.EvalAllFirstFailure | src/features/Excel/utils/syntaxTree.ts:22 | on failure the error is that of a child all of whose predecessors evaluate |
| EvalProperties.EvalAllSucceeds | src/features/Excel/utils/syntaxTree.ts:22 | if every child evaluates, the children's values exist |
| EvalProperties.EvalNeedsChildren | src/features/Excel/utils/syntaxTree.ts:22 | a node that evaluates had every child evaluate |
| EvalProperties.FoldPlus | src/features/Excel/utils/syntaxTree.ts:25 | the left fold with `+` from `acc` is `acc` plus the reference sum |
| EvalProperties.FoldMinus | src/features/Excel/utils/syntaxTree.ts:28 | the left fold with `-` from `acc` is `acc` minus the reference sum |
| EvalProperties.FoldTimes | src/features/Excel/utils/syntaxTree.ts:31 | the left fold with `*` from `acc` is `acc` times the reference product |
| EvalProperties.FoldOver | src/features/Excel/utils/syntaxTree.ts:37 | with no zero divisor, the left fold with `/` is `acc` over the product, which is non-zero |
| EvalProperties.ProductNonZero | src/features/Excel/utils/syntaxTree.ts:34-37 | values without a zero have a non-zero product |
| EvalProperties.ReduceMeaning | src/features/Excel/utils/syntaxTree.ts:24-32 | `reduce` with `+`, `-` and `*` is the sum, the first minus the sum of the rest, and the product; with no values it fails |
| EvalProperties.ReducePlus | src/features/Excel/utils/syntaxTree.ts:24-26 | `reduce` with `+` is the sum |
| EvalProperties.ReduceMinus | src/features/Excel/utils/syntaxTree.ts:27-29 | `reduce` with `-` is the first value minus the sum of the rest |
| EvalProperties.ReduceTimes | src/features/Excel/utils/syntaxTree.ts:30-32 | `reduce` with `*` is the product |
| EvalProperties.ArithmeticMeaning | src/features/Excel/utils/syntaxTree.ts:24-32 | `ADD`, `SUB`, `MUL` nodes evaluate to the sum, the first minus the rest, and the product of their children's values, and fail without children |
| EvalProperties.DivisionMeaning | src/features/Excel/utils/syntaxTree.ts:33-38 | `DIV` fails with division by zero iff a child after the first is zero; otherwise it is the first value over the product of the rest |
| EvalProperties.LiteralMeaning | src/features/Excel/utils/syntaxTree.ts:39-44 | a literal gives its stored value, and fails when none is set |
| EvalProperties.FunctionMeaning | src/features/Excel/utils/syntaxTree.ts:45-72 | no name fails; `SUM` is the sum and `AVERAGE` the sum over the count, both failing without arguments; `ROUND` fails iff it has not exactly two arguments, and otherwise rounds |
| EvalProperties.CallMeaning | src/features/Excel/utils/syntaxTree.ts:45-72 | the same for a call on literal arguments |
| EvalProperties.AverageOfThree | src/features/Excel/utils/syntaxTree.ts:55-60 | `AVERAGE(a, b, c)` is `(a + b + c) / 3` |
| EvalProperties.EvalExamples | src/features/Excel/utils/syntaxTree.ts:45-72 | `SUM(1, 5, 8)` is 14, `AVERAGE(3, 12, 15)` is 10, a one-argument `ROUND` fails and an empty `SUM` fails |
| EvalProperties.WellFormedFailures | src/features/Excel/utils/syntaxTree.ts:21-83 | a tree of the parser's shape fails only by a zero divisor or a `ROUND` arity error |
| EvalProperties.EvalIgnoresAddress | src/features/Excel/utils/syntaxTree.ts:21-83 | the address tag does not change a node's value |
| EvalProperties.ReducePair | src/features/Excel/utils/syntaxTree.ts:24-38 | folding two values applies the operator once |
| EvalProperties.BinaryMeaning | src/features/Excel/utils/syntaxTree.ts:24-38 | an operator node with two operands fails with the left, then the right operand's error, and otherwise is `a + b`, `a - b`, `a * b`, or `a / b` (failing on a zero divisor) |
| EvalProperties.EvalLiterals | src/features/Excel/utils/syntaxTree.ts:22 | literal children evaluate to their values, in order |
| Utils.IsNumeric | src/utils/index.ts:18-20 | `/^-?\d*(\.\d*)?$/` with at least one digit, as a recursive character predicate (`Utils.NumericShape` states it plainly) |
| Utils.IsExcelCellAddress | src/utils/index.ts:22-24 | `/^[A-Z]+[1-9][0-9]*$/` as a recursive character predicate (`Utils.CellAddressShape` states it plainly) |
| Utils.NumericShape | src/utils/index.ts:18-20 | `isNumeric` holds iff, after an optional leading `-`, the text is digits and dots only, with at most one dot and at least one digit |
| Utils.DigitsOptFractionShape | src/utils/index.ts:19 | the tail `\d*(\.\d*)?` is exactly "digits and dots, at most one dot" |
| Utils.AllDigitsAt | src/utils/index.ts:19 | the recursive digit check holds iff every character is a digit |
| Utils.IsNumericExamples | src/utils/index.test.ts:15-23 | `123`, `123.45`, `-123.45`, `123.`, `.45` accepted; `123a45`, `..45`, `123..`, the empty string, `-` and `.` refused |
| Utils.CellAddressShape | src/utils/index.ts:22-24 | `isExcelCellAddress` holds iff the text is one or more letters `A`-`Z`, then a digit `1`-`9`, then any digits |
| Utils.ColumnThenRowAt | src/utils/index.ts:23 | the tail `[A-Z]*[1-9][0-9]*` holds iff some position starts the row number |
| Utils.RowStartsAtFirst | src/utils/index.ts:23 | a row number starting at position 0 is `[1-9][0-9]*` |
| Utils.RowStartsAtLater | src/utils/index.ts:23 | a row number starting later follows a column letter |
| Utils.CellAddressExamples | src/utils/index.test.ts:26-36 | `A1`, `B2`, `AA10`, `Z100` accepted; `1A`, `A0`, `AA`, the empty string and `A1B2` refused |
| Utils.UnsignedValue | src/features/Excel/utils/tokenizer.ts:30 | the value of an unsigned numeric text is non-negative |
| Utils.NumberValue | src/features/Excel/utils/tokenizer.ts:30 | `Number(s)` is negative only for text starting with `-` |
| Utils.Mantissa | src/features/Excel/utils/tokenizer.ts:30 | the digits of a numeric text read as one natural number, the dot skipped |
| Utils.DigitsValue | src/features/Excel/utils/tokenizer.ts:30 | the natural number a digit string spells (`Utils.IntegerMeaning` ties it to `Number`) |
| Utils.IntegerMeaning | src/features/Excel/utils/tokenizer.ts:30 | a digit string denotes its natural-number value |
| Utils.DecimalMeaning | src/features/Excel/utils/tokenizer.ts:30 | `a.b` denotes `a + b / 10^|b|` |
| Utils.MantissaAppend | src/features/Excel/utils/tokenizer.ts:30 | appending digits shifts the mantissa by a power of ten |
| Utils.FractionLengthAfterDigits | src/features/Excel/utils/tokenizer.ts:30 | the digits after the dot set the scale |
| Utils.NumberValueExamples | src/features/Excel/utils/tokenizer.ts:30 | `123`, `123.45`, `-123.45`, `123.`, `.45` denote 123, 123.45, -123.45, 123, 0.45 |
| Utils.NumberValueOfCases | src/features/Excel/utils/tokenizer.ts:29-30 | `123.456` and `10` are numeric and denote 123.456 and 10 |
| Utils.DigitsValueExamples | src/features/Excel/utils/tokenizer.ts:30 | the digit strings `123`, `45`, `456` and `10` have those values |
| Utils.JsRound | src/utils/index.ts:15 | `Math.round` gives an integer within one half of its argument, halves rounded up |
| Utils.PlacesFactor | src/utils/index.ts:14 | `10^places` is positive |
| Utils.RoundToPlaces | src/utils/index.ts:13-16 | the result scaled by `10^places` is the integer nearest to `value * 10^places` |
| Utils.Unscale | src/utils/index.ts:15 | the division by `10^places`: the result times the factor is the rounded integer |
| Utils.RoundToPlacesExamples | src/utils/index.test.ts:4-9 | `roundToPlaces(123.456, 0)` is 123, with 1 place 123.5, with -1 places 120, and 0 stays 0 |
| Utils.RoundToPlacesNegativeExamples | src/utils/index.test.ts:10-12 | the same for -123.456: -123, -123.5, -120 |

## Left out

- Syntax tree nodes are values and `setAddress` is a value update (`SyntaxTree.SyntaxTreeNode.SetAddress`). The parser builds every node fresh and gives it to one parent, so an in-place update and a value update cannot be told apart, including when `parse()` overwrites the tag that `cell()` set. Aliasing of nodes is not modelled.
- Numbers are unbounded reals. IEEE doubles, the rounding of `Number(str)`, `Infinity`, `NaN` and `-0` are not modelled. Division by zero is caught before it happens, as in the source.
- Utils.RoundToPlaces: `Math.pow(10, places)` is modelled only for integral `places`. A fractional `places` is floored, and floating-point error is not modelled.
- Utils.PlacesFactor: stands for `Math.pow(10, places)` only at integral `places`; a fractional `places` is floored first, and its contract states only that the factor is positive.
- Characters: a Dafny string is a sequence of Unicode characters, while `str[i]` in the tokenizer indexes UTF-16 code units. The two differ only outside the Basic Multilingual Plane, and every character the tokenizer and the regular expressions test for is ASCII, so no token comes out differently.
- Utils.NumberValue: modelled only on strings that `isNumeric` accepts, which are the only strings the tokenizer passes to `Number`.
- The call-stack overflow of unbounded cell recursion is the `DepthExceeded` failure after `depth` nested expansions. No "circular reference" error exists in the source, and none is added.
- `getFormula` is a total function parameter. A lookup that throws is not modelled; if it throws, the source's error propagates.
- Error messages are structured constructors of `Wrappers.Error` rather than strings. `expectReserved` keeps the source's "number" wording in its failures.
- `cell()` accepts any symbol as an address, including `)`, `,` or `*`, as the source does. It does not check `isExcelCellAddress`. That predicate is modelled on its own, in `Utils`.
- `SUM` and `AVERAGE` evaluate their children a second time. Evaluation is pure, so this is the same as using the values already computed, and the model computes them once.
- `unreachable` appears only as the impossible `default` branches, which Dafny's exhaustive `match` makes unnecessary.
- The position on the error path: the source throws, so the cursor value after a failure is irrelevant. The methods leave it unspecified on failure.
- The user interface (`src/app/page.tsx`, the file upload components) and the type alias in `src/features/Excel/types/index.ts` are not part of this model.
