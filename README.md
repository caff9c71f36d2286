# span, modelled in Dafny

`span` generates the cartesian product of config files. It takes an input config (TOML or JSON) in which some variables hold arrays of values. It also takes an output path template such as `{mode}/{id|%03d}.toml`. It then writes one output file per combination of array elements, with each variable set to one element.

This project models the program's own logic and proves properties about it:

- **Key grammar** (`parse.go`). This covers three things:
  - the tokenizer that `ParseKeySet` drives (`scanner.dfy`);
  - the key-set grammar with `ParseKeySet` and `MakeKey` (`keygrammar.dfy`);
  - the test vectors of `parse_test.go` (`keyvectors.dfy`).
- **Binding tables** (`parse.go`): `Key.Equals`, the render set `KeySet.Set`, the bind groups `KeySetSet.Set` and `Find`, and the in-place filter `RemoveBound` (`bindings.dfy`).
- **Placeholder extraction**: the two patterns `{name}` and `{name|format}` as left-to-right scanners (`placeholders.dfy`). Each of the two revisions of `ParseOutputPath` has its own module:
  - the `parse.go` one, which returns an ordered list of parsed keys (`pathkeys.dfy`);
  - the `span.go` one, which returns a set of raw names (`span.dfy`).
- **Cartesian expansion**: `GenerateOutput` of `span.go` is a `Generator` class. Its fields are the document, the variable set and a log of emitted documents. It is proved against `Expand`, a multiset specification of what the walk emits (`span.dfy`). A decoded value is one of the kinds the TOML and JSON decoders produce. A generic list (`[]interface{}`) is the only list the walk expands. A TOML array of tables (`[]map[string]interface{}`) is a separate kind, `TableArray`, and the walk reports it as not an array.
- **Codec lookup**: `FindCodec` of `codecs.go`, with `filepath.Ext` and lower-casing (`codecs.dfy`).

`results.dfy` holds the `Option`, `Result` and `Status` wrappers.

Executing the output template and writing a file are not modelled. For each finished document they are replaced by a parameter, `leafFails`, which says whether that step fails. Success appends the document to the `written` log. Whether the output path compiles as a Go template is likewise a boolean parameter, `templateParses`.

## Model

| member | source | states |
|---|---|---|
| Scanner.Scan | parse.go:236-237 | One scanner step. It returns EOF exactly when only whitespace remains. An identifier starts with a letter, an integer is all digits, and any other character is a single-character token that is not a quote. |
| Scanner.TokensFrom | parse.go:236-237 | The token stream never contains EOF. |
| Scanner.Start | parse.go:236-242 | The first Scan starts after a leading byte-order mark, if there is one, and never past the end of the input. |
| Scanner.BlankHasNoTokens | parse.go:237 | Input made only of whitespace has no tokens. |
| Scanner.ScanIdentAt | parse.go:249-250 | Leading whitespace is skipped and an identifier runs to the first non-letter, non-digit character. |
| Scanner.ScanIntAt | parse.go:249-250 | Leading whitespace is skipped and an integer token runs to the first non-digit, so `1.2` scans as `1`, `.`, `2`. |
| Scanner.ScanOtherAt | parse.go:255-264 | Any other character, such as `.`, `,` or `'`, is a token of its own. |
| Scanner.ScanPlainStringAt | parse.go:243-244 | A double-quoted literal without escapes is one string token, quotes included. |
| Scanner.Unescape | parse.go:244 | Decoding a quoted body never makes it longer. Its partner is `EscapeBody`, proved a right inverse by `UnescapeEscapeBody`. |
| Scanner.EscapeChar | parse.go:244 | A character is written as itself unless it is `"`, `\` or a newline. Those are written as a backslash and a character that `Escape` maps back to the original. |
| Scanner.UnescapeEscapeChar | parse.go:244 | Decoding an escaped character followed by more text gives the character, followed by the decoding of the rest. If the rest fails, the whole fails. |
| Scanner.UnescapeEscapeBody | parse.go:244 | Every string, once escaped, decodes back to itself. So `\"` reads as `"`, `\\` as `\` and `\n` as a newline, while a tab stands for itself. |
| Scanner.EscapeBodyAppend | parse.go:244 | Escaping distributes over concatenation. |
| KeyVectors.EscapeQuoteBetween | parse_test.go:26 | Between two texts free of quotes, backslashes and newlines, a quote is the only character that gets escaped, as `\"`. |
| Scanner.EscapeBodyPlain | parse.go:244 | Text without quotes, backslashes or newlines is its own escaped form. |
| Scanner.StringEndEscaped | parse.go:243-244 | A string literal whose body is an escaped text ends at the first quote after that body. Escaped quotes inside the body do not end it. |
| Scanner.StringEndEscapedHead | parse.go:243-244 | An escaped pair is stepped over as a whole, and a plain character one at a time. Neither ends the literal. |
| Scanner.ScanStringAt | parse.go:243-244 | After whitespace, a quoted escaped text scans as one string token, quotes included, and that token unquotes to the text. |
| Scanner.UnquoteAt | parse.go:244 | A quoted escaped text unquotes to the text. |
| Scanner.UnescapePlain | parse.go:244 | A body without quotes, backslashes or newlines unquotes to itself. |
| KeyGrammar.Section | parse.go:242-253 | A segment token is accepted iff it is an identifier, an integer, or a string whose unquoted value is non-empty. An empty or undecodable string gives "part of key missing"; anything else gives "bad formatting". |
| KeyGrammar.ParseSectionsCorrect | parse.go:240-266 | The parser loop succeeds iff the tokens alternate segment, separator, segment, ..., ending in a segment. On success it returns the keys obtained by splitting at commas. |
| KeyGrammar.KeysOfCount | parse.go:258-262 | The number of keys is the number of commas plus one. |
| KeyGrammar.KeysOfShape | parse.go:248-250 | Every key of a well-formed stream is non-empty and so is each of its segments. |
| KeyGrammar.KeySetShape | parse.go:235-267 | When ParseKeySet succeeds it returns commas+1 keys, each non-empty, with non-empty segments. |
| KeyGrammar.AcceptsWellFormed | parse.go:240-266 | A well-formed stream parses to exactly the comma-split keys. |
| KeyGrammar.RejectsMisplacedSeparator | parse.go:251-252 | A separator first, last, or directly after another separator makes the parse fail. |
| KeyGrammar.RejectsAdjacentSegments | parse.go:263-264 | Two segments with no separator between them make the parse fail. |
| KeyGrammar.RejectsBlank | parse.go:251-252 | Empty or whitespace-only input fails with "bad formatting". |
| KeyGrammar.ParseKeySet | parse.go:235-267 | The scanner-driven loop returns exactly what the grammar function gives for the input. |
| KeyGrammar.MakeKey | parse.go:18-27 | Succeeds iff the input is well formed and has no top-level comma, and then returns the single key that ParseKeySet returns. A well-formed input with a comma fails with "too many keys". |
| KeyGrammar.CommaCountZero | parse.go:23-25 | The comma count is zero iff the stream holds no comma, so MakeKey's comma test is its one-key test. |
| KeyVectors.SpacedKey | parse_test.go:15 | ` a . b ` is the key `a`.`b`. |
| KeyVectors.MixedSpaceKey | parse_test.go:16 | Tabs, CR and LF are whitespace too. |
| KeyVectors.NumberKey | parse_test.go:20 | `1.2` is the two-segment key `1`.`2`. |
| KeyVectors.QuotedOnly | parse_test.go:23-26 | A key set that is a single quoted, escaped text is one key with that one segment. |
| KeyVectors.EscapedQuoteKey | parse_test.go:26 | `"a.\". b.<tab>c"` is the one-segment key `a.". b.<tab>c`. |
| KeyVectors.QuotedKey | parse_test.go:27 | `"a b".c` is the key `a b`.`c`. |
| KeyVectors.QuotedDotKey | parse_test.go:24 | A `.` inside quotes does not separate. |
| KeyVectors.CyrillicKey | parse_test.go:32 | Non-ASCII letters form identifiers. |
| KeyVectors.EmojiKey | parse_test.go:33 | Three quoted emoji segments, joined by dots, form one three-segment key. The third segment keeps its variation selector. |
| KeyVectors.MixedKeySet | parse_test.go:42 | `"a b".ab."-ab-",φ."'q"` is the two keys `a b`.`ab`.`-ab-` and `φ`.`'q`. |
| KeyVectors.TwoKeySet | parse_test.go:41 | `a.b,c ` is the two keys `a`.`b` and `c`. |
| KeyVectors.LiteralSegment | parse.go:243-247 | A quoted segment without escapes, such as `"a b"`, `"-ab-"`, `"'q"` or an emoji, is accepted as its body. |
| KeyVectors.MarkThenKey | parse.go:236-242 | A leading byte-order mark is dropped by the first Scan, so `\uFEFFa` is the key `a`. |
| KeyVectors.MarkOnlyRejected | parse.go:236-242 | An input that is only a byte-order mark has no tokens and fails with "bad formatting". |
| KeyVectors.MarkThenDotRejected | parse.go:236-242 | After a dropped byte-order mark, a leading `.` is still rejected. |
| KeyVectors.MakeKeyTwoKeys | parse.go:23-25 | MakeKey of `a,b` fails with "too many keys". |
| KeyVectors.EmptyRejected | parse_test.go:46-47 | Empty and blank inputs fail with "bad formatting". |
| KeyVectors.MisplacedDotsRejected | parse_test.go:49-53 | `.a`, `a.` and `a..b` are rejected. |
| KeyVectors.MisplacedCommasRejected | parse_test.go:69-71 | `,a`, `a,` and `a,,b` are rejected. |
| KeyVectors.LeadingSeparatorRejected | parse_test.go:48-71 | A key starting with `.` or `,` is rejected. |
| KeyVectors.TrailingSeparatorRejected | parse_test.go:48-71 | A key ending with `.` or `,` is rejected. |
| KeyVectors.DoubledSeparatorRejected | parse_test.go:48-71 | Two `.` or two `,` in a row are rejected. |
| KeyVectors.SingleQuotesRejected | parse_test.go:55 | `'a'` is rejected with "bad formatting", because single quotes are not string delimiters. |
| KeyVectors.EmptyQuotedRejected | parse_test.go:57-59 | `""` and `""a` fail with "part of key missing". |
| KeyVectors.AdjacentSegmentsRejected | parse_test.go:58 | `a""` fails with "invalid separator". |
| KeyVectors.UnterminatedStringRejected | parse_test.go:61-62 | An unterminated `"a` fails with "part of key missing". |
| Bindings.Equals | parse.go:40-50 | The result is true iff both keys have the same length and the same segments pairwise. |
| Bindings.KeySet.Set | parse.go:65-77 | A malformed key is an error and changes nothing. An equal key already present leaves the set unchanged. Otherwise the key is appended. No duplicates ever arise. |
| Bindings.KeySetSet.Set | parse.go:92-108 | A malformed set is an error and changes nothing. The call fails with "already bound" exactly when the set parses and one of its keys is already in some group. It then names the first such key in the set's order and changes nothing. Otherwise the set is appended as a new group. Disjoint groups stay disjoint. |
| Bindings.KeySetSet.Find | parse.go:111-120 | Returns the group that GroupOf names. |
| Bindings.GroupOf | parse.go:111-120 | The result contains `k`. It is the first group holding `k`, or the singleton `[k]` when `k` is in no group. |
| Bindings.MatesAreBound | parse.go:111-120 | A key found in another key's group means both keys are bound. |
| Bindings.SameGroupFound | parse.go:111-120 | With disjoint groups, two keys of one group find each other. |
| Bindings.UnboundKept | parse.go:167-184 | A key in no group keeps its count after removal. |
| Bindings.SwapRemoveBag | parse.go:176-177 | Swap-with-last-and-truncate removes exactly one occurrence of `expand[j]`. |
| Bindings.SwapRemoveDistinct | parse.go:176-177 | The same removal keeps a duplicate-free list duplicate-free and drops `expand[j]`. |
| Bindings.DropAfter | parse.go:173-179 | The inner search either changes nothing, and then `k` is absent after `i`, or finds the first `j` after `i` holding `k`, moves the last entry into slot `j` and shortens the list by one. |
| Bindings.DropMate | parse.go:169-180 | One mate of `kx` is handled: entries up to `i` are untouched, the removed bag grows by what was dropped, and the loop invariant of the mate loop is kept. |
| Bindings.DropMates | parse.go:169-180 | The mate loop for one key: entries up to `i` are untouched, the list plus the removed bag is what it was, every removed key rides with a kept mate, and a duplicate-free list stays duplicate-free with the mates of `kx` gone from after `i`. |
| Bindings.RemoveBoundPost | parse.go:167-184 | The loop's final state gives RemoveBound's guarantees. |
| Bindings.RemoveBound | parse.go:167-184 | The result is a sub-multiset of the input. The first entry is never removed. A removed key rides with a kept member of its group. Unbound keys keep their counts. For duplicate-free input, the result stays duplicate-free and holds no two keys of one group. |
| Placeholders.VarNames | parse.go:187 | Every name captured by `{name}` is non-empty and has no `|` or `}`. |
| Placeholders.FmtMatches | parse.go:188 | Every `{name|format}` match has such a name and a non-empty format without `}`. |
| Placeholders.VarNamesOccur | parse.go:187 | Every captured name occurs in the path as `{name}`. |
| Placeholders.FmtMatchesOccur | parse.go:188 | Every match occurs in the path as `{name|format}`. |
| Placeholders.VarNamesOfPath | parse.go:187-188 | For a path written as text, plain and formatted placeholders, the scans return the plain names and the formatted matches, in order. |
| PathKeys.PlaceholderNames | parse.go:193-206 | The names are the `{name}` names followed by the `{name|format}` names. Each is a valid pattern capture. |
| PathKeys.Parsed | parse.go:193-206 | One `MakeKey` outcome per name, in order. |
| PathKeys.FirstErr | parse.go:193-206 | Every outcome before the index is a key, and the outcome at the index, if any, is an error. |
| PathKeys.ParsedAppend | parse.go:192-205 | Parsing the plain names and then the formatted names is parsing the joined list. |
| PathKeys.FirstErrAppend | parse.go:192-205 | The first error of the joined list is the first error of the plain names, or else the first error of the formatted names, shifted by the number of plain names. |
| PathKeys.ValuesAppend | parse.go:192-205 | With no error in either list, the joined keys are the plain keys followed by the formatted keys. |
| PathKeys.AppendKeys | parse.go:193-199 | The key loop appends the key of every name in order, or stops with the error of the first bad name. |
| PathKeys.ParseNames | parse.go:191-212 | Both loops and the template check together: Ok iff no name fails and the template compiles, with every key in order; otherwise the first bad name's error, and "output path incorrectly formatted" only when every name parsed. |
| PathKeys.KeysInOrder | parse.go:193-205 | When every name parses, the `i`th key returned is the key of the `i`th name. |
| PathKeys.ParseOutputPath | parse.go:191-212 | Ok iff every name parses and the template compiles. Then the value is the key of each name in order. Otherwise it fails with the first bad name's error, and only then with "output path incorrectly formatted". |
| PathKeys.PlaceholderNamesOfPieces | parse.go:193-206 | For a path made of pieces, the names are the plain names followed by the formatted names. |
| PathKeys.ExamplePathNames | span.go:15 | `{mode}/{id|%03d}.toml` yields the names `mode` then `id`. |
| PathKeys.ExampleWellWritten | span.go:15 | The example path's pieces are valid placeholders and plain text. |
| PathKeys.ExampleSpelled | span.go:15 | Those pieces spell `{mode}/{id|%03d}.toml`. |
| Span.ParseOutputPath | span.go:98-113 | Ok iff the template compiles. Then the value is the set of names of both patterns, so a repeated name counts once, and every name is a valid capture. |
| Span.NamesOfPieces | span.go:99-105 | For a path made of pieces, the name set is the set of names of its placeholder pieces. |
| Span.ExpandNotArrays | span.go:130-133 | When some variable is not an array, nothing is emitted. |
| Span.TableArrayNotExpanded | span.go:130-133 | A variable holding a TOML array of tables is not an array to the walk, so nothing is emitted. |
| Span.ExpandAt | span.go:124-139 | The emitted bag does not depend on which variable the map iteration picks first. |
| Span.ExpandCount | span.go:134-139 | The number of emitted documents is the product of the array lengths. |
| Span.ExpandMembers | span.go:134-135 | Every emitted document has the input's keys, an element of the original array at each variable, and the original value elsewhere. |
| Span.ExpandComplete | span.go:134-139 | Every such choice of elements is emitted, so the bag is the whole cartesian product. |
| Span.ExampleCount | span.go:15-26 | The documented example emits 6 documents. |
| Span.ExampleCrazy010 | span.go:27-30 | The document with `mode = "crazy"`, `id = 10` and `foo = 42` is among them. |
| Span.Generator.GenerateOutput | span.go:116-143 | Earlier output is kept and only the specified documents are added. Every document it adds was written successfully, and a passing call means no document of the whole expansion failed its write. With no variables, the current document is emitted unchanged unless its write fails. On success the document and variable set are restored and the output is exactly the expansion. A failure on a variable that is not an array writes nothing. When every array variable has elements and some variable is not an array, the call fails with "must be an array", whichever variable is picked first. The first write failure stops the walk, leaving the variable set smaller. If everything is an array and no write fails, the walk succeeds. |
| Span.EachIsSum | span.go:134-139 | What the element loop emits for its first `n` elements is the sum of the branch expansions for those elements. |
| Span.GridSwap | span.go:134-139 | Summing a grid of bags by rows or by columns gives the same bag. |
| Span.ExpandSwap | span.go:124-139 | Expanding the picked variable first equals expanding any other array variable first. |
| Span.ProductTwo | span.go:134-139 | With two array variables, the count is the product of their lengths. |
| Span.Generator.Branch | span.go:135-138 | One iteration of the element loop: the variable is set to the element and the recursive walk runs. Given a log of successful writes, every document in the extended log was written successfully. On success the log holds the expansions of the elements so far; on failure the error is explained by the input document and variable set. If a remaining variable is not an array and every remaining array has elements, the branch fails with "must be an array". |
| Span.Generator.Walk | span.go:134-139 | The element loop emits the union of the branch expansions, or stops at the first failure. Every document it emits was written successfully, so a passing loop wrote its whole expansion with no write failure. A non-array remaining variable, with every remaining array non-empty, fails the first branch, so a non-empty loop fails with "must be an array". |
| Span.Generator.Visit | span.go:136 | The recursive call emits a sub-bag of its expansion, and all of it on success. Every document it emits was written successfully. It fails with "must be an array" under the same condition as GenerateOutput. |
| Codecs.Ext | codecs.go:31 | The extension is a suffix of the path. A non-empty extension starts with `.` and has no `/` and no further `.`. It is empty iff every `.` lies in a directory name. |
| Codecs.Lower | codecs.go:31 | Lower-cases ASCII letters and leaves every other character unchanged. |
| Codecs.FindCodec | codecs.go:30-37 | Returns TOML iff the lower-cased extension is `.toml`, JSON iff it is `.json`, and otherwise "unsupported file format" carrying the lower-cased extension. |
| Codecs.ExtAt | codecs.go:31 | The extension starts at the last `.` after the last `/`. |
| Codecs.FindCodecIgnoresCase | codecs.go:31 | Paths whose extensions agree up to case find the same codec. |
| Codecs.LowerIdempotent | codecs.go:31 | Lower-casing twice is lower-casing once. |
| Codecs.DirectoryDotIgnored | codecs.go:31 | A `.` in a directory name does not affect the extension. |
| Codecs.NoExtensionUnsupported | codecs.go:32-35 | A path without an extension is an unsupported format. |
| Codecs.TomlExample | codecs.go:25 | `out/crazy/010.toml` is TOML. |
| Codecs.UpperCaseExample | codecs.go:26 | `Config.JSON` is JSON. |
| Codecs.DottedDirectoryExample | codecs.go:32-35 | `in.d/config` has no extension and is unsupported. |
| Codecs.OtherFormatExample | codecs.go:32-35 | `config.yaml` is unsupported, with `.yaml` in the error. |

## Left out

- The Go template machinery is replaced by parameters: `ParseTemplate`, `template.Parse`, `template.Execute` and `printf` formatting such as `%03d`. `templateParses` says whether the path compiles, and `leafFails` says whether executing the template or writing a document fails.
- `Config.Get` is not part of this model. The template helper that calls it (parse.go:219-225) is left out with the templates.
- `Key.String`, `KeySet.String` and `KeySetSet.String` are left out: they depend on Go's `%q` quoting.
- `main`, `Fatal`, `ParseFlags` and flag registration are command-line plumbing and are left out.
- `WriteConfig` is file I/O and is left out. So are the TOML and JSON `Encode`/`Decode` wrappers, which are library code. Only which codec is found is modelled.
- Scanner.IsLetter: every non-ASCII character counts as a letter. Go's `unicode.IsLetter` is narrower, so the model accepts some unquoted symbols that Go rejects.
- Scanner.Unescape: only single-character escapes are decoded. Octal, `\x`, `\u` and `\U` escapes, which `strconv.Unquote` accepts, are rejected.
- Go strings may hold invalid UTF-8. text/scanner reads each invalid byte as U+FFFD, which is not a letter. A Dafny `string` is a sequence of characters and cannot hold such bytes, so that case is not modelled.
- Integer tokens are plain digit runs. Hex, octal and underscore forms are not scanned.
- Scanner.StringEnd: an unterminated string ends at the end of the input or after a newline, as text/scanner does. The model then reports "part of key missing", matching the code; the test for this case is a TODO.
- The scanner's error messages are not modelled. With no error handler installed, `text/scanner` prints them (for example "literal not terminated" for `"a` or `"a\"`) to standard error. The parse result does not depend on them.
- The two patterns are identical in parse.go:187-188 and span.go:94-95, so they are modelled once and shared by both `ParseOutputPath` revisions.
- PathKeys.AppendKeys: the two loops of parse.go:193-206 share one body, called once per pattern.
- Bindings.KeySetSet.Set: duplicates inside one new group are not rejected, because the code only checks earlier groups.
- Bindings.RemoveBound: the guarantee of at most one key per group is stated only for duplicate-free input. The code's behaviour on repeated keys is outside that guarantee.
- Span.Generator.GenerateOutput: on failure, the documents written before the error are stated as a sub-bag of the expansion. The visiting order of the map iteration is not modelled.
- Span.Generator.GenerateOutput: `Pick` is an arbitrary choice. When one array is empty and another variable is not an array, success or failure depends on which variable is picked first. The model keeps that choice open. It proves the failure only when no array variable is empty.
- Codecs.Lower: only ASCII letters are lower-cased. Other characters only affect the text of the error message, since both registered extensions are ASCII.
- Codecs.Ext: only `/` separates path elements, as `filepath.Ext` does on Unix.
