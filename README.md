# html-template-parser in Dafny

A model of the two stages of the template language of `index.js`:

- **The token generator `genToken`** is a state machine. It turns an HTML-like source with `{{ }}`
  placeholders and `<!-- -->` comments into positioned tokens, one resumption at a time.
- **The recursive-descent `Parser`** pulls those tokens lazily. It builds a tree of `Template`, `Tag`,
  `Attr`, `Text`, `Mustache` and `Comment` nodes.

Each stage is modelled twice:

- **Specification functions.** `ScanSpec.Step` is one resumption of the generator. The `ParseSpec`
  functions thread a parser state, made of the suspended generator and `currentToken`, through one
  function per parsing routine.
- **Classes.** `Scanning.Scanner` and `Parsing.Parser` update their fields in place as the source
  does. Every method is proved to do what its specification function prescribes, on success and on
  every error path.

The properties are lemmas about the specification functions:

- Every token is read from the source text at or after the cursor, and at the cursor outside attribute mode.
  A quoted value's span starts one past its opening quote.
- Text, comments, mustaches, tag names, attribute keys and quoted values have exactly the extent the
  source's regular expressions give them.
- After a successful parse, the top-level nodes tile the input.
- Each node spans exactly the text it was built from.
- A tag's end tag repeats the tag's name.

Modules, one file each:

- `wrappers.dfy`: `Option` and `Result`.
- `tokens.dfy`: `Token.t` and `Token`.
- `lexical.dfy`: the character classes and the anchored matches.
- `nodes.dfy`: the node classes.
- `scan_spec.dfy`, `scan_facts.dfy` and `scanner.dfy`: the generator.
- `parse_spec.dfy`, `parse_facts.dfy` and `parser.dfy`: the parser.
- `as_written.dfy`: `#node` without its missing default case.
- `examples_doc.dfy`: documents worked through the model, among them the ones the repository's tests use.

## Model

| member | source | states |
|---|---|---|
| Lexical.RunEnd | index.js:35-37 | The greedy `[...]*` of a sticky expression: every character from `from` to the result is in the class, and the character at the result, if any, is not. |
| Lexical.ReadUntil | index.js:59-65 | Where the reading loop stops: no stop position between `from` and the result, and the result is a stop position unless it is the end of the input. |
| Lexical.ReadUntilUnique | index.js:59-65 | Any index with those three properties is the loop's end, so the stopping point is determined. |
| Lexical.MarkupAtChars | index.js:32 | The markup expression matches exactly where a `<` or a `{{` begins, so a lone `<` ends a text run. |
| ScanSpec.MarkupMatch | index.js:32 | The alternative that matches: none exactly when no marker starts there, and otherwise the kind whose spelling starts there, `<!--` before `</` before `<` before `{{`. |
| ScanSpec.Step | index.js:133-190 | Every token the generator yields strictly decreases remaining input plus phase rank, so the stream is finite even with empty tokens. |
| ScanSpec.QuotedStep | index.js:104-122 | A quoted value moves the cursor past the opening quote, and attribute mode continues. |
| ScanSpec.AttrStep | index.js:82-129 | Every attribute-mode token moves the cursor forward. Afterwards the generator is in attribute mode or, after `>` or `/>`, back in markup mode. |
| ScanSpec.Scan | index.js:133-190 | A stream drained without error is non-empty and ends with an EOF token, and no earlier token is EOF. |
| ScanFacts.StepSound | index.js:133-190 | Every yielded token is read from the source and ends at the new cursor. The cursor never moves back. Outside attribute mode the token starts at the cursor. EOF comes exactly when the main loop finds the input exhausted. The phase is the one the token's kind determines. |
| ScanFacts.MarkupSound | index.js:133-165 | Markup mode never fails, and its token satisfies the above. |
| ScanFacts.TextToken | index.js:139-145 | A text token is yielded exactly when input remains and no marker starts at the cursor. It is non-empty, its value is the text it spans, no marker starts inside it, and it ends at a marker or at the end of input. |
| ScanFacts.BracketedScan | index.js:148-161 | After `<!--` or `{{` the generator yields the opener, then the content up to where the closer search stops. If input remains there, the closer is yielded next and markup mode resumes after it. If the search reached the end of the input, the next resumption throws the unterminated-comment or unterminated-mustache error at the end of the input. |
| ScanFacts.CloserSearch | index.js:155-158 | The content stops at the first `-->` or `}}`, and before the end of input exactly when one exists. |
| ScanFacts.TagNameToken | index.js:163-169 | After `<` or `</` a tag name is yielded exactly when a letter stands at the cursor. It is the longest `[a-zA-Z][a-zA-Z0-9:\-]*` there. Otherwise `InvalidTagName` is thrown at the cursor. |
| ScanFacts.AttrMode | index.js:74-131 | After white space, attribute mode yields only `>`, `/>`, a key, `=` or a quoted value, and returns to markup exactly after `>` or `/>`. It throws `InvalidAttr` exactly at end of input or at a `/` not followed by `>`. Its only other error is an unterminated value. |
| ScanFacts.AttrStepInvalid | index.js:84-87 | `InvalidAttr` is thrown exactly at end of input or at a lone `/`. |
| ScanFacts.AttrTokens | index.js:76-128 | Once the white space after the cursor is skipped to `p`: `/>`, `>` and `=` are yielded exactly where they stand at `p`, each as that delimiter starting at `p`. A key is yielded exactly where a key character stands at `p`. It starts at `p` and is the longest run of key characters there, and the cursor moves to its end. |
| ScanFacts.AttrStepOutcome | index.js:82-128 | The same for one round of the attribute loop started at `p`. |
| ScanFacts.AttrStepSound | index.js:82-129 | Each attribute-mode token is read from the source at or after the cursor (where exactly is `AttrTokens`). |
| ScanFacts.QuotedAttr | index.js:102-123 | A quote in attribute mode starts a value token exactly when the same quote occurs again. The value runs to its next occurrence and includes both quotes, and its span starts after the opening quote. Otherwise `UnterminatedAttrValue` is thrown at the end of input. |
| ScanFacts.QuotedValueScan | index.js:104-122 | The same outcome, stated for the quoted-value branch from the quote itself: a value token through the next occurrence of that quote, or `UnterminatedAttrValue` at the end of the input when there is none. |
| ScanFacts.QuotedSound | index.js:102-123 | The value token holds the same quote at both ends and not in between. It is the text from the opening quote to the cursor. |
| ScanFacts.ScanOrdered | index.js:133-137 | Draining the generator without error gives tokens in source order, each ending before the next starts. The stream ends with exactly one EOF token, which carries no span. |
| ScanFacts.AfterEof | index.js:264-266 | Resuming after EOF is the parser's "No more token" error. |
| Scanning.Scanner.constructor | index.js:29-30 | A fresh generator over `src` with the cursor at 0. |
| Scanning.Scanner.MakeTokenAndAdvance | index.js:53-57 | The token spans from the old cursor to the match end, and the cursor moves there. |
| Scanning.Scanner.ReadUntilAndMakeToken | index.js:59-72 | The character-by-character loop ends at `ReadUntil`, and the token's value is exactly the text it passed. |
| Scanning.Scanner.ReadQuoted | index.js:102-123 | The quoted-value loop yields `QuotedStep`'s token and cursor, or throws its error. |
| Scanning.Scanner.GenAttr | index.js:75-130 | One round of `genAttrs` yields or throws exactly what `AttrStep` prescribes after skipping white space. |
| Scanning.Scanner.Next | index.js:133-190 | Resuming the generator object yields or throws what `Step` prescribes from its old state. After a throw the generator is finished. |
| ParseSpec.NextToken | index.js:264-268 | A new current token means progress, and a failure is a scanner failure. |
| ParseSpec.Eat | index.js:270-276 | On a wrong kind, fails with the expected kind and the current token's kind and span, consuming nothing. Succeeds only on the expected kind, and then advances. |
| ParseSpec.ParseMustache | index.js:278-286 | A mustache node, once parsed, has consumed input and leaves a valid parser. |
| ParseSpec.ParseComment | index.js:288-296 | The same for a comment node. |
| ParseSpec.ParseText | index.js:298-302 | The same for a text node. |
| ParseSpec.ParseAttr | index.js:315-327 | The same for one attribute. |
| ParseSpec.ParseTag | index.js:304-349 | The same for a tag node. |
| ParseSpec.ParseTagRest | index.js:330-348 | The same for the part of a tag after its attributes. |
| ParseSpec.ParseEndTag | index.js:340-348 | The same for an end tag. |
| ParseSpec.ParseAttrs | index.js:314-328 | The attribute loop never moves back and stops at the first token that is not a key. |
| ParseSpec.ParseChildren | index.js:337-339 | The children loop stops only at `</`. |
| ParseSpec.ParseNode | index.js:351-362 | A node always consumes input. A token that starts no node fails with that token, where the source returns `undefined` (see Findings). |
| ParseSpec.ParseTop | index.js:367-369 | The top-level loop gives no node exactly when the first token is EOF. A first token that is neither EOF nor starts a node fails with that token. |
| ParseSpec.ParseTemplate | index.js:364-372 | A failure of the top-level loop is the result. Otherwise the template starts where the first token starts and holds the loop's nodes. With EOF first it has no children and no end. |
| ParseSpec.ParseDocument | index.js:247-254 | A successful parse is a template. The empty input gives the template with no span and no children. |
| ParseFacts.NextTokenInv | index.js:264-268 | The pulled token is read from the source at or after the cursor, and the generator is in the phase its kind determines. |
| ParseFacts.EatInv | index.js:270-276 | The same for the token after a consumed one. |
| ParseFacts.TextIn | index.js:298-302 | A text node is the text it spans, containing no marker. The next token starts where it ends. |
| ParseFacts.CommentIn | index.js:288-296 | A comment node spans exactly `<!--`, its stored comment and `-->`, with no `-->` inside. The next token starts where it ends. |
| ParseFacts.MustacheIn | index.js:278-286 | A mustache node spans exactly `{{`, its stored expression and `}}`, with no `}}` inside. The next token starts where it ends. |
| ParseFacts.AttrInv | index.js:315-327 | An attribute starts at its key, which is the longest run of key characters there. A quoted value, quotes included, ends at its end, with one `=` and white space between key and value. A bare key has value `true`, and its end is the end of the token after the key. Only white space follows up to the next token. |
| ParseFacts.EqWithoutValue | index.js:319-322 | A key and `=` followed by anything but a quoted value fails, expecting a value, with the span of the token found. |
| ParseFacts.AttrsInv | index.js:314-328 | The attributes fill the start tag from the name to the `>` or `/>`, in source order: each attribute's text with only white space around, none dropped, duplicates kept. A bare attribute ends where the next key, or the closing `>` or `/>`, ends. |
| ParseFacts.TagInv | index.js:304-349 | A tag node starts with `<` and its name, read greedily, then its attributes filling the start tag. It is either closed by `/>` with no children and ends there, or it has `>`, children tiling its body, and an end tag with its own name. |
| ParseFacts.OpenTagName | index.js:304-309 | The name after `<` stands right after it and is the longest tag name there, and the scanner stands just past it. |
| ParseFacts.TagRestInv | index.js:330-348 | From the token after the attributes: with `/>` the tag is childless and ends where `/>` ends. Otherwise `>`, then children tiling the body, then an end tag with the tag's name, after which the next token starts. |
| ParseFacts.EndTagInv | index.js:340-348 | The end tag is `</`, exactly the start tag's name (no name character follows), white space and `>`, and the tag ends where that `>` ends. |
| ParseFacts.EndTagName | index.js:340-343 | Once `</` is the current token, the end tag fails with a mismatch exactly when the name read greedily after the `</` differs from the start tag's name. The mismatch carries that name and its span. Where no letter follows, `InvalidTagName` is thrown there. |
| ParseFacts.FirstEndTagToken | index.js:163-169 | After `</` the parser's next token is the longest tag name at the cursor, or the scan fails with `InvalidTagName` at the cursor. |
| ParseFacts.NodeInv | index.js:351-362 | Every node `#node` returns is read from the source and starts at the current token. |
| ParseFacts.ChildrenInv | index.js:337-339 | The children tile the text from the start tag's `>` to the `</` that stops the loop, each read from the source. |
| ParseFacts.TopInv | index.js:367-369 | The top-level nodes tile the input from the first token to its end. |
| ParseFacts.TemplateCovers | index.js:364-372 | `parse()` from a first token at 0: its template starts where that token starts, its children are read from the source and tile it to its end, and the end is absent exactly when the input is empty. |
| ParseFacts.DocumentCoversInput | index.js:364-372 | After a successful parse, the children tile the whole input in document order. The template starts at 0 and ends at the input's length, and both are absent exactly for the empty input. |
| Parsing.Parser.constructor | index.js:247-254 | A generator over `src` and its first token, which the generator always yields. |
| Parsing.Parser.NextToken | index.js:264-268 | Matches `ParseSpec.NextToken` on the generator's old state. |
| Parsing.Parser.Eat | index.js:270-276 | Leaves the state `ParseSpec.Eat` prescribes, or returns its error. |
| Parsing.Parser.MustacheNode | index.js:278-286 | Returns the node and state of `ParseMustache`, or its error. |
| Parsing.Parser.CommentNode | index.js:288-296 | Returns the node and state of `ParseComment`, or its error. |
| Parsing.Parser.TextNode | index.js:298-302 | Returns the node and state of `ParseText`, or its error. |
| Parsing.Parser.Attr | index.js:315-327 | One pass of the attribute loop returns the attribute and state of `ParseAttr`, or its error. |
| Parsing.Parser.Attrs | index.js:314-328 | The `while` loop collects what `ParseAttrs` collects and leaves its state. |
| Parsing.Parser.TagNode | index.js:304-329 | Returns the tag and state of `ParseTag`, or its error. |
| Parsing.Parser.TagRest | index.js:330-348 | The self-closing branch, or the children loop and the end tag, as `ParseTagRest` prescribes. |
| Parsing.Parser.EndTag | index.js:340-348 | Checks the end tag's name against the start tag's, as `ParseEndTag` does. |
| Parsing.Parser.Node | index.js:351-362 | Dispatches as `ParseNode` does. |
| Parsing.Parser.Parse | index.js:364-372 | The top-level loop returns `ParseTemplate` of the state it started from. |
| Parsing.ParseSource | index.js:247-254 | `new Parser(src).parse()` returns `ParseDocument(src)`. |
| AsWritten.NodeAsWritten | index.js:351-362 | `#node` as written: where it returns `undefined` it has consumed nothing. |
| AsWritten.ChildrenRounds | index.js:337-339 | `k` rounds of the children loop as written push at most `k` results, and fewer only when `</` stops the loop. |
| AsWritten.TopRounds | index.js:367-369 | The same for the loop of `parse()`, which stops at EOF. |
| AsWritten.ChildrenLoopStuck | index.js:337-339 | With `#node` as written, a token that neither starts a node nor is `</` (the EOF of an unclosed tag) is never consumed. Every round pushes `undefined`, and the loop condition keeps holding. |
| AsWritten.TopLoopStuck | index.js:367-369 | The same at the top level, for a stray `</`. |
| AsWritten.NodeAgrees | index.js:351-362 | `#node` as written and `ParseNode` agree wherever a node starts. Elsewhere the first returns `undefined` without moving and the second fails. |
| Examples.UnclosedTag | index.js:337-339 | `<p>` fails with `UnexpectedNodeStart` at EOF. |
| Examples.MismatchedEndTag | index.js:340-343 | `<a></b>` fails with `TagMismatch("a", "b")` at the span of `b`. |
| Examples.TestDocument | test/index.test.js:122-146 | `<p bar='foo'>{{a}} {{b}} : {{c}} :</p>` parses to a template from 0 to 38 holding one `p` tag from 0 to 38. The tag has the attribute `bar` from 3 to 12 with value `'foo'`, and the children `TestChildrenInOrder` lists: mustaches `a`, `b`, `c` at 13-18, 19-24, 27-32 and texts ` `, ` : `, ` :` between and after them. |
| Examples.SelfClosingTag | index.js:330-334 | `<br/>` parses to a template holding one `br` tag from 0 to 5, with no attributes and no children: the tag ends where `/>` ends. |
| Examples.BareAttribute | index.js:324-327 | `<!-- hi --><p a>x</p>` parses to a comment ` hi ` from 0 to 11 and a `p` tag from 11 to 21. The tag's bare attribute `a` has value `true` and runs from 14 to 16, the end of the `>` after it. Its one child is the text `x`. |
| Examples.MixedQuotes | test/index.test.js:54-67 | Draining the generator over `<p bar='foo">{{a}} {{b}} : {{c}} :</p>` throws `UnterminatedAttrValue` at 38: the `"` does not close a value opened by `'`. |
| Examples.MustacheNeverClosed | test/index.test.js:69-82 | Over `<p bar='foo'>{{abcdefg</p>` the generator yields the mustache value `abcdefg</p>`, up to the end of the input, then throws `UnterminatedMustache` at 26. |

## Left out

- The `typeof src !== "string"` guard (index.js:248-250): the model's input is a string by its type.
- The error message texts (index.js:49-51, 256-262, 266). Errors are a datatype of kinds:
  - A scanner error carries the cursor at which it is thrown.
  - A parser error carries the span the message reports.
- The regular-expression engine and the regexes' `lastIndex` (index.js:32-47) are not modelled. Each sticky expression is an explicit prefix test or maximal character run at the cursor.
- JavaScript's `\s` is written out in `Lexical.IsSpace` as the ECMAScript white-space and line-terminator code points.
- Strings are sequences of code points. The source indexes UTF-16 code units, so offsets differ after characters outside the Basic Multilingual Plane.
- The generator protocol (`yield*`, the `done` flag, index.js:171, 265) is replaced by the explicit phase of `ScanState`. A generator that has thrown is finished, so resuming it gives the parser's "No more token" error.
- Scanning.Scanner.ReadUntilAndMakeToken: its `checkBound` parameter is not modelled, because no call passes it (index.js:67-69).
- The endless loop of `#node`'s callers is not modelled as divergence: `ParseSpec.ParseNode` fails with `UnexpectedNodeStart` instead (see Findings). The model departs from the code here:
  - `<input disabled>` with no end tag: the code's children loop meets EOF and loops forever; the model fails with `UnexpectedNodeStart` at EOF.
  - Any token that starts no node (EOF in a tag body, a stray `</` at top level): the code loops forever; the model fails with that token. `AsWritten` models the code's loop.
- Where the language's documented behaviour and the code differ, the model follows the code:
  - A bare attribute's end is the end of the token after its key (index.js:325), not the end of the key.
  - The EOF token has no span at all (index.js:135).
  - An empty template has no end (index.js:370).
- The tests' console output and their reading of `test.html` (test/index.test.js:149-156), which is not part of this model.

## Findings

| source | as written | input that shows it | evidently intended | confidence | as-written member | corrected member |
|---|---|---|---|---|---|---|
| index.js:351-362 | `#node`'s switch has no default case. For any other token it returns `undefined` without consuming anything, and its callers (index.js:337-339, 367-369) push that and loop forever. | `<p>`: EOF inside an unclosed tag. `</a>`: a stray end tag at top level. | Fail with an error naming the offending token. | high; not executed | AsWritten.ChildrenLoopStuck | ParseSpec.ParseNode |
