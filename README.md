# TONL core in Dafny

This project models the core of TONL (Token-Optimized Notation Language), a compact
text encoding of JSON-like data. It models these parts of the library:

- **String quoting** (`src/utils/strings.ts`). The encoder uses it to decide when a string
  field must be quoted and how it is escaped. The decoder uses it to unquote the field
  again. The same file covers triple-quoted multi-line text and indentation.
- **The regular-expression safety gate** (`src/query/regex-validator.ts`). It statically
  refuses patterns that could cause catastrophic backtracking, before they are compiled.
- **Single-line block decoding** (`src/parser/value-parser.ts`). This is the text after
  the colon of `key{cols}: ...` (one object) or `key[N]{cols}: ...` (an array laid out row
  by row).
- **Schema validation** (`src/schema/validator.ts`). It checks a decoded document against
  a schema of typed fields with constraints and collects every error with its path.
- **In-place modification helpers** (`src/modification/array-ops.ts`,
  `src/modification/transform.ts`). These are `push`, `pop`, `unshift` and `shift` on the
  array a path expression resolves to, plus `transform`, `updateMany` and `merge`.

Layout, one module per file:

| file | module | contents |
|---|---|---|
| `wrappers.dfy` | `Wrappers` | `Option`, `Result` |
| `values.dfy` | `Values` | the value tree; objects as ordered, key-unique entry lists; `obj[k] = v` and `Object.assign` |
| `strings.dfy` | `Strings` | the quoting rule, escaping, `unquote`, triple quoting, indentation |
| `regex_validator.dfy` | `RegexValidation` | every rule of the validator, and `validate` |
| `value_parser.dfy` | `ValueParser` | `parseSingleLineObject`: its array and object branches |
| `schema_validator.dfy` | `SchemaValidation` | the error lists as functions, and a `Validator` class whose methods append to a shared error list |
| `paths.dfy` | `Paths` | locations in a document, in-place writes through a reference, the `Document` class, the path collaborators |
| `array_ops.dfy` | `ArrayOps` | `push`, `pop`, `unshift`, `shift` |
| `transform.dfy` | `Transform` | `transform`, `updateMany`, `merge` |

Code that changes state in the library is modelled as methods:

- The validator's functions all push onto one shared `errors` array. They become methods of
  the `Validator` class, which holds that list and the set of custom types being expanded.
- The modification helpers mutate the document in place. They become methods on a
  `Document`.
- Loops stay loops, with their invariants. These are the `unquote` scan, the depth scan, the
  dangerous-pattern search, both branches of the block decoder, the `unique` scan, the
  element and field loops of the validator, and the `updateMany` loop.

Each method is proved equal to a specification function. The properties that the library
promises are proved as lemmas about those functions.

The library calls some code that is not part of this model. That code enters as
function-typed parameters:

- `parseTONLLine` and `parsePrimitiveValue` (`ValueParser.LineCodec`);
- `parsePath` together with `evaluate`, and `set` (`Paths.PathApi`).

A parsed path is represented by what it evaluates to. The result is a `Paths.Target`: a
location inside the document, a value outside the document, or `undefined`. Mutating a
location changes the document; mutating a detached value does not.

The validator documents `allowLookarounds` as the switch that lets lookaheads and
lookbehinds through (src/query/regex-validator.ts:33-37). The code refuses them whatever
the option says. The model follows the code and proves the corrected behaviour beside it;
see "## Findings".

## Model

| member | source | states |
|---|---|---|
| `Values.TypeOf` | src/schema/validator.ts:24 | `typeof`: "object" exactly for null, arrays and objects; "number", "string" and "boolean" exactly for their kinds |
| `Values.Lookup` | src/schema/validator.ts:42 | reading an object key: absent exactly when the key is not among the keys, otherwise the value stored with it |
| `Values.PutLookup` | src/modification/transform.ts:91 | after `obj[k] = v`, `k` reads as `v` and every other key reads as before |
| `Values.PutKeys` | src/parser/value-parser.ts:69 | assignment keeps key order: an existing key stays in place, a new key is appended |
| `Values.PutUnique` | src/parser/value-parser.ts:69 | assignment never creates a duplicate key |
| `Values.AssignLookup` | src/modification/transform.ts:91 | after a run of assignments, the last assignment to a key wins and untouched keys read as before |
| `Values.AssignUnique` | src/modification/transform.ts:91 | a run of assignments keeps keys unique |
| `Values.LastValueUnique` | src/modification/transform.ts:91 | in a key-unique entry list, the last value of a key is its only value |
| `Strings.QuoteIfNeeded` | src/utils/strings.ts:44-51 | a value that needs no quoting is returned unchanged; otherwise the result is wrapped in double quotes |
| `Strings.BareValueIsPlain` | src/utils/strings.ts:10-39 | a value left bare is non-empty, has no edge space, and contains no delimiter, `:`, `{`, `}`, `#`, `"`, newline, tab or carriage return |
| `Strings.Unquote` | src/utils/strings.ts:56-80 | the scan returns the unescaped inner text of a quoted value and any other value unchanged |
| `Strings.UnescapedAt` | src/utils/strings.ts:62-75 | one scan step: `\\` and `\"` become one character and advance two; anything else is copied and advances one |
| `Strings.LoneBackslashKept` | src/utils/strings.ts:68-71 | a backslash before any other character is kept verbatim |
| `Strings.ReplaceCharConcat` | src/utils/strings.ts:48 | replacing a one-character pattern distributes over concatenation |
| `Strings.EscapedCons` | src/utils/strings.ts:48 | escaping works character by character: `\` becomes `\\`, `"` becomes `\"`, anything else is kept |
| `Strings.UnescapeEscapeChar` | src/utils/strings.ts:62-75 | unescaping consumes exactly one escape sequence |
| `Strings.UnescapeEscaped` | src/utils/strings.ts:48-75 | unescaping undoes escaping, for every string |
| `Strings.QuoteRoundTrip` | src/utils/strings.ts:44-80 | `unquote(quoteIfNeeded(s, d)) == s` for every string and delimiter |
| `Strings.QuoteInjective` | src/utils/strings.ts:44-51 | two strings quote to the same text only if they are equal |
| `Strings.TripleQuoteIfNeeded` | src/utils/strings.ts:85-95 | text with a newline or `"""` is wrapped in `"""` around its escaped form; any other text is quoted as `quoteIfNeeded` does |
| `Strings.DoubledHead` | src/utils/strings.ts:90 | after backslash doubling, the text starts with a quote exactly when the original did |
| `Strings.TripleRoundTrip` | src/utils/strings.ts:89-91 | the triple-quote escaping loses nothing: a reference inverse recovers the original text |
| `Strings.Repeat` | src/utils/strings.ts:101 | `s.repeat(n)` has length `n * |s|` and only characters of `s` |
| `Strings.MakeIndent` | src/utils/strings.ts:100-102 | the indent is exactly `level * spaces` spaces |
| `RegexValidation.Resolve` | src/query/regex-validator.ts:50-55 | with no options, the defaults are length 100, depth 3, no backreferences, no lookarounds |
| `RegexValidation.FirstMatching` | src/query/regex-validator.ts:215-225 | no rule is found exactly when none matches; a found rule matches and no earlier rule does |
| `RegexValidation.FindDangerousPattern` | src/query/regex-validator.ts:179-226 | the search returns the first listed rule that matches, or none when no rule matches |
| `RegexValidation.GetMaxNestingDepth` | src/query/regex-validator.ts:231-264 | the loop computes the depth scan: escapes skipped, an unmatched `)` ends it |
| `RegexValidation.DepthScanBounds` | src/query/regex-validator.ts:251-253 | the maximum never falls, and rises by at most one per `(` |
| `RegexValidation.MaxNestingDepthBound` | src/query/regex-validator.ts:231-264 | the depth is at most the number of `(` in the pattern |
| `RegexValidation.DepthScanMonotone` | src/query/regex-validator.ts:236-261 | appending text never lowers the scan's result |
| `RegexValidation.MaxNestingDepthPrefix` | src/query/regex-validator.ts:231-264 | a prefix never reaches a greater depth than the whole pattern |
| `RegexValidation.DepthScanConcat` | src/query/regex-validator.ts:236-261 | scanning `p + q` is scanning `p` and then resuming on `q` from the depth, maximum and escape flag it left, or returning early if `p` stopped the scan |
| `RegexValidation.EscapedParenSkipped` | src/query/regex-validator.ts:240-249 | from any depth and maximum, an escaped parenthesis changes neither |
| `RegexValidation.EscapedParenIgnored` | src/query/regex-validator.ts:240-249 | after any prefix that leaves the scan running outside an escape, inserting an escaped parenthesis does not change the depth |
| `RegexValidation.UnmatchedCloseReturns` | src/query/regex-validator.ts:254-259 | a `)` met at depth 0 returns the maximum reached so far |
| `RegexValidation.UnmatchedCloseStops` | src/query/regex-validator.ts:254-259 | after any prefix that returns to depth 0, a `)` that closes nothing ends the scan: the result is the prefix's depth and the rest is ignored |
| `RegexValidation.Validate` | src/query/regex-validator.ts:49-139 | validate returns normally or throws the error of the first failed check, in the source's order |
| `RegexValidation.NoParenShapes` | src/query/regex-validator.ts:145-280 | a pattern without `(` has no group shape, no lookaround and depth 0 |
| `RegexValidation.NoDoubledChars` | src/query/regex-validator.ts:205-212 | without two equal adjacent characters, neither adjacent-operator rule fires |
| `RegexValidation.LengthCheckedFirst` | src/query/regex-validator.ts:65-73 | a pattern longer than maxLength is refused for its length before any other check |
| `RegexValidation.EmptyPatternAccepted` | src/query/regex-validator.ts:76-78 | the empty pattern is accepted whenever the length limit admits it |
| `RegexValidation.AlternationRule` | src/query/regex-validator.ts:163-171 | the two-stage alternation test is equivalent to its inner test: a `|` group followed by `*` or `+` |
| `RegexValidation.NestedQuantifierExamples` | src/query/regex-validator.ts:147 | `(a+)+`, `(a*)+`, `(a?)*` and `(a{2,})+` are refused as nested quantifiers |
| `RegexValidation.AlternationExamples` | src/query/regex-validator.ts:163-171 | `(a|b)+` is refused; `(a|b)?` and `(a|b){2}` pass every check |
| `RegexValidation.CharacterClassAccepted` | src/query/regex-validator.ts:49-139 | `^[a-z]+$` passes with the default options |
| `RegexValidation.LookaroundIsDangerous` | src/query/regex-validator.ts:180-196 | every pattern with a lookaround matches the dangerous-pattern list |
| `RegexValidation.LookaroundsAlwaysRejected` | src/query/regex-validator.ts:91-102 | a pattern with a lookaround is refused whatever the options say |
| `RegexValidation.LookaroundCheckUnreachable` | src/query/regex-validator.ts:128-136 | the lookaround check never refuses a pattern: an earlier check always does first |
| `RegexValidation.AllowLookaroundsIgnored` | src/query/regex-validator.ts:91-102 | with allowLookarounds set, `(?=a)` is still refused, as a positive lookahead |
| `RegexValidation.BackreferenceExamples` | src/query/regex-validator.ts:117-125 | `\1` is refused by default and passes when backreferences are allowed |
| `RegexValidation.SafePatternPasses` | src/query/regex-validator.ts:285-294 | a pattern with no quantifier and no group, and without `||`, passes the nested-quantifier, dangerous-pattern and depth checks |
| `RegexValidation.SafePatternAccepted` | src/query/regex-validator.ts:285-294 | such a pattern within the length limit is accepted unless it holds a backreference that is not allowed |
| `RegexValidation.SafePatternNotSufficient` | src/query/regex-validator.ts:285-294 | `a||b` is called safe by isSafePattern but refused by validate |
| `RegexValidation.IntendedAgreesByDefault` | src/query/regex-validator.ts:49-139 | without allowLookarounds, the corrected validation is the validation as written |
| `RegexValidation.IntendedHonoursAllowLookarounds` | src/query/regex-validator.ts:33-37 | with allowLookarounds set, the corrected validation never refuses any pattern for a lookaround: not by the lookaround check, not by a lookaround entry of the dangerous-pattern list |
| `RegexValidation.IntendedAcceptsLookahead` | src/query/regex-validator.ts:33-37 | with allowLookarounds set, the corrected validation accepts `(?=a)` |
| `RegexValidation.IntendedStillRefusesByDefault` | src/query/regex-validator.ts:128-136 | without allowLookarounds, the corrected validation still refuses every lookaround |
| `ValueParser.SingleLineObject` | src/parser/value-parser.ts:17-75 | a null header throws; an array header yields a list; an object header yields an object |
| `ValueParser.ParseSingleLineObject` | src/parser/value-parser.ts:17-75 | the decoder returns what `SingleLineObject` states |
| `ValueParser.ParseRows` | src/parser/value-parser.ts:22-43 | the nested loops build the rows, with the declared length or `floor(fields / columns)` items |
| `ValueParser.ScanInlineObject` | src/parser/value-parser.ts:44-73 | the cursor loop builds the object from its key/value pairs, assigned in order |
| `ValueParser.SpaceEndSpec` | src/parser/value-parser.ts:54 | the whitespace run is maximal |
| `ValueParser.TrimEndSpec` | src/parser/value-parser.ts:57 | `trimEnd` drops exactly a trailing whitespace run |
| `ValueParser.TrimSpec` | src/parser/value-parser.ts:57 | `trim` returns a slice of its input that neither starts nor ends with whitespace |
| `ValueParser.IndexOfFromSpec` | src/parser/value-parser.ts:54 | finds the first occurrence at or after `from`, and none exactly when there is none |
| `ValueParser.KeyMatchSpec` | src/parser/value-parser.ts:54-55 | `^([^:]+):\s*` matches exactly when a colon follows a non-empty colon-free key |
| `ValueParser.RowKeysAreColumns` | src/parser/value-parser.ts:33-39 | every key of a row is a column name |
| `ValueParser.RowUpToLookup` | src/parser/value-parser.ts:33-39 | column `j` of row `i` holds field `i * |columns| + j`, or is absent when the fields have run out |
| `ValueParser.RowMajor` | src/parser/value-parser.ts:22-43 | the array branch lays the fields out row by row; a missing field leaves the key absent, not null |
| `ValueParser.DeclaredLengthWins` | src/parser/value-parser.ts:26-28 | a declared length, zero included, fixes the number of items |
| `ValueParser.InferredLength` | src/parser/value-parser.ts:26-28 | without a declared length there are `floor(fields / columns)` items |
| `ValueParser.RowPastFieldsEmpty` | src/parser/value-parser.ts:31-42 | a row past the last field is still produced, as an empty object |
| `ValueParser.ExtraFieldsIgnored` | src/parser/value-parser.ts:31-42 | fields past the last row do not change the rows |
| `ValueParser.NoColonNoPairs` | src/parser/value-parser.ts:54-55 | text without a colon yields no pairs |
| `ValueParser.NoColonEmptyObject` | src/parser/value-parser.ts:44-73 | an object line without a colon decodes to the empty object |
| `ValueParser.PairsStep` | src/parser/value-parser.ts:52-71 | one scanner step: the trimmed key, the value parsed up to the next `key:` marker, then the rest |
| `ValueParser.TrimmedKeyClean` | src/parser/value-parser.ts:57 | a trimmed key has no colon and no surrounding whitespace |
| `ValueParser.PairKeysClean` | src/parser/value-parser.ts:52-71 | every key the scanner reads has no colon and no surrounding whitespace |
| `ValueParser.InlineKeysUnique` | src/parser/value-parser.ts:44-73 | the decoded object never holds a key twice |
| `ValueParser.InlineLastWins` | src/parser/value-parser.ts:69 | a repeated key keeps its last value |
| `ValueParser.ValueRunsToNextKey` | src/parser/value-parser.ts:60-68 | in `a: x y b: z`, the value of `a` is `x y`, up to the next `key:` marker |
| `SchemaValidation.Describe` | src/schema/validator.ts:27-29 | "array" exactly for arrays; "object" exactly for null and objects |
| `SchemaValidation.PrimitiveErrors` | src/schema/validator.ts:168-263 | at most one error, at the field's path, never a missing-field error |
| `SchemaValidation.ConstraintErrors` | src/schema/validator.ts:268-440 | at most one error, at the field's path; `required` adds nothing here |
| `SchemaValidation.ValidateTONLSpec` | src/schema/validator.ts:47-50 | the result is valid exactly when the error list is empty |
| `SchemaValidation.VisitShrinks` | src/schema/validator.ts:136-147 | marking a declared custom type as visited shrinks the set of types still to expand, so validation terminates |
| `SchemaValidation.U32Range` | src/schema/validator.ts:187-210 | a `u32` field accepts exactly the integers 0 to 2^32-1 |
| `SchemaValidation.I32Range` | src/schema/validator.ts:211-234 | an `i32` field accepts exactly the integers -2^31 to 2^31-1 |
| `SchemaValidation.RequiredMissingOnly` | src/schema/validator.ts:66-73 | for a required field, one missing-field error and nothing else exactly when the value is absent or null |
| `SchemaValidation.OptionalMissingSkipped` | src/schema/validator.ts:76-78 | an absent or null optional field is not checked |
| `SchemaValidation.FieldErrorsIssues` | src/schema/validator.ts:57-87 | a present value never yields a missing-field error at its own path |
| `SchemaValidation.ConstraintsNoRequired` | src/schema/validator.ts:84-86 | the constraint loop reports only at the field's path and never a missing field |
| `SchemaValidation.ConstraintsAtMostOneEach` | src/schema/validator.ts:84-86 | each constraint adds at most one error |
| `SchemaValidation.FieldErrorsUnderPath` | src/schema/validator.ts:57-87 | every error of a field lies at its path or below it |
| `SchemaValidation.TypeErrorsUnder` | src/schema/validator.ts:93-163 | every type error lies at the path or below it, and a missing nested field lies strictly below it |
| `SchemaValidation.ItemsErrorsUnder` | src/schema/validator.ts:113-116 | element errors lie strictly below the list's path |
| `SchemaValidation.FieldsErrorsUnder` | src/schema/validator.ts:126-131 | field errors lie strictly below the object's path |
| `SchemaValidation.ItemsErrorsStep` | src/schema/validator.ts:114-116 | element `n` is checked after elements `0..n-1`, at `path[n]` |
| `SchemaValidation.FieldsErrorsStep` | src/schema/validator.ts:128-131 | field `n` is checked after fields `0..n-1`, at `path.name` |
| `SchemaValidation.FieldErrorsPresent` | src/schema/validator.ts:80-86 | a present value is type-checked first, then its constraints in order |
| `SchemaValidation.ShapeMismatchOneError` | src/schema/validator.ts:104-125 | a list or object type met by another kind of value gives exactly one wrong-type error and nothing below it |
| `SchemaValidation.CircularReported` | src/schema/validator.ts:136-144 | a custom type already on the current path is reported once, as circular, where it recurs |
| `SchemaValidation.UndeclaredCustomAccepts` | src/schema/validator.ts:150-158 | an undeclared or fieldless custom type accepts every value |
| `SchemaValidation.CustomExpands` | src/schema/validator.ts:146-158 | a declared custom type checks the value as an object with its fields, with itself marked visited |
| `SchemaValidation.RecursiveTypeNestedValue` | src/schema/validator.ts:134-162 | a self-referencing type reports a circular reference as soon as a value nests one level |
| `SchemaValidation.DuplicateCountPositive` | src/schema/validator.ts:341-349 | the duplicate count is positive exactly when some item occurs twice |
| `SchemaValidation.UniqueRejectsRepeats` | src/schema/validator.ts:339-359 | `unique` rejects a list exactly when some item occurs twice |
| `SchemaValidation.BoundsCompareMagnitude` | src/schema/validator.ts:275-323 | `min` and `max` reject exactly the strings, numbers and arrays whose length or value lies beyond the bound |
| `SchemaValidation.LengthIgnoresNumbers` | src/schema/validator.ts:405-421 | `length` rejects exactly the strings and arrays of another length; numbers always pass |
| `SchemaValidation.RootMismatchOnly` | src/schema/validator.ts:23-37 | a schema with root fields rejects a non-object root with that one error alone |
| `SchemaValidation.NoRootFieldsAcceptsAll` | src/schema/validator.ts:18-51 | a schema without root fields accepts every document |
| `SchemaValidation.RootErrorsUnderFields` | src/schema/validator.ts:40-45 | every error lies under the name of some root field |
| `SchemaValidation.AgeTooSmall` | src/schema/validator.ts:283-289 | `age: u32 min:18` rejects 12 with one below-minimum error |
| `SchemaValidation.AgeAccepted` | src/schema/validator.ts:18-51 | `age: u32 min:18` accepts 30 |
| `SchemaValidation.AgeAbsent` | src/schema/validator.ts:76-78 | an absent optional `age` is not checked |
| `SchemaValidation.AgeNegative` | src/schema/validator.ts:80-86 | -1 fails the `u32` range and the minimum, reported in that order |
| `SchemaValidation.CountDuplicates` | src/schema/validator.ts:341-349 | the `seen` set loop counts the items equal to an earlier item |
| `SchemaValidation.Validator.constructor` | src/schema/validator.ts:19 | an empty error list and no custom type visited |
| `SchemaValidation.Validator.ValidatePrimitiveType` | src/schema/validator.ts:168-263 | appends the primitive-type errors; nothing else changes |
| `SchemaValidation.Validator.ValidateConstraint` | src/schema/validator.ts:268-440 | appends the constraint's error, if any; nothing else changes |
| `SchemaValidation.Validator.ValidateField` | src/schema/validator.ts:57-87 | appends the field's errors; the visited set is as before |
| `SchemaValidation.Validator.ValidateType` | src/schema/validator.ts:93-163 | appends the type's errors; a custom type is removed from the visited set again afterwards |
| `SchemaValidation.Validator.ValidateItems` | src/schema/validator.ts:113-116 | appends every element's errors in index order |
| `SchemaValidation.Validator.ValidateFields` | src/schema/validator.ts:126-131 | appends every field's errors in declaration order |
| `SchemaValidation.ValidateTONL` | src/schema/validator.ts:18-51 | returns the result `ValidateTONLSpec` states |
| `Paths.GetUpdate` | src/modification/array-ops.ts:22 | a node written through a reference reads back as what was written |
| `Paths.UpdateElsewhere` | src/modification/array-ops.ts:22 | writing a node leaves every node outside it unchanged |
| `Paths.UpdateSame` | src/modification/array-ops.ts:22 | writing back the node that is already there changes nothing |
| `Paths.UpdateTwice` | src/modification/array-ops.ts:22 | a second write to the same node overrides the first |
| `Values.PutExisting` | src/modification/transform.ts:91 | assigning a key its current value changes nothing |
| `Values.PutTwice` | src/modification/transform.ts:91 | a second assignment to a key overrides the first |
| `Paths.ReplaceLocal` | src/modification/array-ops.ts:22 | mutating a referenced node changes only it; mutating a detached value leaves the document as it was |
| `Paths.Document.constructor` | src/modification/array-ops.ts:11-24 | the document holds the given root |
| `ArrayOps.ResolveArray` | src/modification/array-ops.ts:12-20 | a resolved path denotes an array holding the returned items |
| `ArrayOps.ResolveArrayFails` | src/modification/array-ops.ts:12-20 | throws the parse error for a bad path; throws not-an-array exactly when the path's value is not an array |
| `ArrayOps.FailureChangesNothing` | src/modification/array-ops.ts:11-76 | every operation that throws leaves the document as it was |
| `ArrayOps.ReplaceEdits` | src/modification/array-ops.ts:22 | the mutated array reads back as its new items, and the rest of the document is untouched |
| `ArrayOps.PushAppends` | src/modification/array-ops.ts:22-23 | `push` appends the values in order and returns the new length |
| `ArrayOps.UnshiftPrepends` | src/modification/array-ops.ts:57-58 | `unshift` prepends the values in their given order and returns the new length |
| `ArrayOps.PopRemovesLast` | src/modification/array-ops.ts:29-41 | `pop` removes and returns the last item; on an empty array it returns undefined and changes nothing |
| `ArrayOps.ShiftRemovesFirst` | src/modification/array-ops.ts:64-76 | `shift` removes and returns the first item; on an empty array it returns undefined and changes nothing |
| `ArrayOps.PushThenPop` | src/modification/array-ops.ts:11-41 | pushing a value and popping it returns that value and restores the document |
| `ArrayOps.UnshiftThenShift` | src/modification/array-ops.ts:46-76 | unshifting a value and shifting it returns that value and restores the document |
| `ArrayOps.Push` | src/modification/array-ops.ts:11-24 | result and new document as `PushOutcome` states |
| `ArrayOps.Pop` | src/modification/array-ops.ts:29-41 | result and new document as `PopOutcome` states |
| `ArrayOps.Unshift` | src/modification/array-ops.ts:46-59 | result and new document as `UnshiftOutcome` states |
| `ArrayOps.Shift` | src/modification/array-ops.ts:64-76 | result and new document as `ShiftOutcome` states |
| `Transform.TransformCases` | src/modification/transform.ts:17-39 | a bad path throws; an array value returns 0 and changes nothing; otherwise `set` is called once with `fn(value)`, its exception propagates, and 1 is returned |
| `Transform.TransformCountsAtMostOne` | src/modification/transform.ts:29-38 | transform never reports more than one transformed value |
| `Transform.RunConcat` | src/modification/transform.ts:55-64 | the loop over two lists of paths is the loop over their concatenation |
| `Transform.RunCountBounds` | src/modification/transform.ts:55-64 | the count never falls, and rises by at most one per path |
| `Transform.UpdateManyCountBounded` | src/modification/transform.ts:49-66 | updateMany returns at most the number of paths |
| `Transform.RunCountsAll` | src/modification/transform.ts:55-64 | every path is counted exactly when `set` succeeds at each in turn |
| `Transform.UpdateManyAllSucceed` | src/modification/transform.ts:49-66 | updateMany returns the number of paths exactly when every `set` succeeds |
| `Transform.ThrowingPathSkipped` | src/modification/transform.ts:56-63 | a path whose `set` throws is skipped: the result is as if it were absent |
| `Transform.MergeRejects` | src/modification/transform.ts:80-88 | merge throws, and changes nothing, exactly when the path does not parse or does not lead to an object |
| `Transform.MergeOverwrites` | src/modification/transform.ts:90-91 | each key of the updates reads as its whole new value, other keys of the target read as before, and the rest of the document is untouched |
| `Transform.MergeKeepsKeysUnique` | src/modification/transform.ts:91 | merging keeps the target's keys unique |
| `Transform.TransformAt` | src/modification/transform.ts:17-39 | result and new document as `TransformOutcome` states |
| `Transform.UpdateMany` | src/modification/transform.ts:49-66 | the loop's count and document are those of running the paths in order |
| `Transform.Merge` | src/modification/transform.ts:75-92 | result and new document as `MergeOutcome` states |

## Left out

- Numbers are exact integers and rationals. IEEE-754 rounding, NaN, Infinity and `-0` are not modelled, so the `f64` finiteness check of validatePrimitiveType is left out: every `f64` number passes.
- The `pattern` constraint and `getBuiltinPattern` are left out: they compile regular expressions, which is not modelled. A `pattern` constraint is not representable in `SchemaValidation.Constraint`.
- The `multipleOf` constraint is left out: its epsilon comparison is floating-point arithmetic.
- String lengths count Unicode code points, where JavaScript counts UTF-16 code units. The two differ for characters outside the Basic Multilingual Plane.
- JavaScript objects list integer-like keys first and treat `__proto__` specially; entry lists here keep plain insertion order for every key.
- `Values.Lookup` reads only an object's own keys. JavaScript's `obj[name]` also finds members inherited from `Object.prototype` (`constructor`, `toString`, `hasOwnProperty`, ...). The schema field reads (src/schema/validator.ts:42, 129) therefore differ for a field with such a name. In the source, a field named `constructor` is present on every object as a function: a required one is never reported missing, and a `str` one gets a wrong-type error with actual type "function". The model treats such a field as absent.
- `RegexValidation.FindDangerousPattern` returns the rule that matched but not the matched text (the `detected` field of the error, src/query/regex-validator.ts:99 and 217-220).
- Error messages, and the `expected`/`actual` texts, are not modelled. Each error carries a `SchemaValidation.Issue` that names the check that failed and the values it reports, so the message can be recovered from it.
- `unique` compares items by value equality; the source compares their `JSON.stringify` texts, which agree for the values modelled here apart from key order inside objects.
- `Strings.MakeIndent` takes natural numbers; negative or fractional levels (for which `repeat` throws or truncates) are not modelled.
- `ValueParser.ParseSingleLineObject`: the array branch requires a declared length, at least one column or no fields. Without them the item count is `fields / 0`, which is Infinity, and the loop does not end.
- `ValueParser.ParseContext` holds only the delimiter. The other fields of the parse context are passed through to `parsePrimitiveValue` only.
- `RegexValidation.Validate` takes a string: the `typeof pattern !== 'string'` check cannot fail for a typed argument.
- src/types.ts, src/parser.ts (parseTONLLine), src/parser/line-parser.ts (parsePrimitiveValue), src/query/path-parser.ts, src/query/evaluator.ts and src/modification/setter.ts are not part of this model. They enter as function-typed parameters.
- `Transform.TransformAt`: the transform callback returns a value. A callback that throws, or that returns `undefined`, is not modelled.
- `set` is modelled as either finishing with a new document or throwing with the document unchanged. A `set` that mutates the document and then throws is not modelled.
- Aliasing between the document and the `values`/`updates` arguments is not modelled. Values are immutable trees, so an array pushed into itself does not become cyclic.
- `SchemaValidation.Validator`: the source passes a new visited set to every root field. Within one field, the set is shared and restored after each custom type. The model keeps it in the `Validator` and proves that every call restores it, which is the same.
- The regular-expression executor (src/query/regex-executor.ts) and the streaming codec are not part of this model.

## Findings

| source | as written | input that shows it | evidently intended | confidence | as-written member | corrected member |
|---|---|---|---|---|---|---|
| src/query/regex-validator.ts:91-136 | The dangerous-pattern list matches every lookaround, and validate consults it before `allowLookarounds`. A lookaround is therefore refused even when lookarounds are allowed, and the lookaround check at lines 128-136 never fires. | `validate("(?=a)", { allowLookarounds: true })` throws "Positive lookahead - can be slow" | With `allowLookarounds` set, the four lookaround entries of the list are skipped, so `(?=a)` is accepted. Without it, every lookaround is still refused. | high, not executed | `RegexValidation.AllowLookaroundsIgnored` | `RegexValidation.IntendedHonoursAllowLookarounds` |
