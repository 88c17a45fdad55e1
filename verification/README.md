# parse-function, modelled in Dafny

This project models the introspection pipeline of `parse-function` (`index.js`).
The pipeline takes the source text of one JavaScript function, or a callable
carrying that source, and returns one result record. The record holds:

- the name, the body text, the ordered argument names and their `, `-joined string;
- a map from each argument name to the exact source text of its default;
- the flags `valid`, `isArrow`, `isAsync`, `isGenerator`, `isNamed`, `isAnonymous` and `isExpression`;
- the normalised source `orig`.

The stages are modelled as pure functions over immutable datatypes:

- **Input normalisation** (`Normalize`, `Record`):
  - the input is a string, a callable with its source text, or anything else;
  - `getDefaults` rewrites the leftmost `function *(`. The rewritten text carries the placeholder identifier `____foo$1o__i3n8v$al4i1d____`; the `$1` is literal, because the pattern has no capture group;
  - `hiddens` builds the initial record. It is valid exactly when the text is non-empty.
- **Syntax tree** (`Ast`):
  - the parser's output is an input datatype holding top-level statements and character offsets;
  - the parser is a parameter `string -> Result<Tree, string>`.
- **Node classification** (`Classify`):
  - `update` sets the flags;
  - `visitArrows` unwraps an arrow statement one level;
  - `visitFunctions` takes a declaration's name.
- **Parameter extraction** (`Params`): one name per Identifier, AssignmentPattern or RestElement node. Defaults are exact source slices, and the last occurrence of a repeated name wins.
- **Body extraction** (`Body`): the body's source slice with one enclosing brace pair removed.
- **Name resolution** (`Name`): the placeholder becomes `anonymous`, and `isAnonymous`/`isNamed` follow from the final name.
- **Main loop** (`Pipeline`):
  - invalid input returns before the parser is reached;
  - otherwise the top-level statements are folded in order, and the name is resolved at the end.
- **Properties** (`Properties`): what a text holding one function reports, and how several candidates combine.
- **Test suite's records** (`Examples`): lemmas for concrete inputs from `test.js`.

Points where the code behaves in ways a reader may not expect:

- **The rewrite does not simply insert the placeholder.** A match is `function`, k spaces and `(` (9 + k characters), and it is replaced by a fixed 38-character text. With no space, a space is inserted as well as the placeholder. With one space, the placeholder alone is inserted (`Normalize.RewriteInsertsPlaceholder`). With thirty or more spaces, the text gets shorter. So `Normalize.Rewrite` promises nothing about the length, except that empty stays empty and non-empty stays non-empty.
- **`defaults` does not always hold one entry per argument.** The code never resets `defaults`, and it resets `args` only for an empty parameter list. So when a text holds several candidate statements, the keys of `defaults` and the set of `args` can differ (`Properties.EmptyParamsResetArgsOnly`). The correspondence holds for a single candidate (`Properties.OneFunctionDefaults`).
- **`isExpression` is true for a declaration.** It is `!node.expression`. For a `FunctionDeclaration` the parser sets `expression` to false, so the flag is true. For an `ExpressionStatement`, `expression` is the wrapped node, so the flag is false.
- **A parenthesised function expression is not unwrapped.** It sits in an `ExpressionStatement` with no `body` or `params` of its own, so it is skipped after its flags are set (`Properties.WrappedFunctionExpressionSkipped`).
- **`slice` clamps its offsets.** `String.prototype.slice` clamps offsets to the text, so the pipeline needs no precondition on offsets. The facts about exact slices (`Params.FreshDefaults`, `Body.FixBody`, `Properties.OneFunctionDefaults`) require offsets with `start <= end <= |orig|`.

## Model

| member | source | states |
|---|---|---|
| Strings.Slice | index.js:121-123 | `slice(start, end)` is the exact substring when the offsets are in range, and empty when the range is crossed or starts past the end |
| Strings.SplitJoin | index.js:125 | joining comma-free names with `, ` loses nothing: splitting the joined string gives the list back |
| Strings.JoinLength | index.js:125 | the joined string's length is the sum of the pieces plus one separator between neighbours |
| Record.Hiddens | index.js:61-73 | the initial record has every flag false, empty collections and name `anonymous`; `orig` is the text or `""`; `valid` holds exactly when there is a non-empty text |
| Normalize.MatchEndAt | index.js:55 | a match of `function *\(` starting at a position is found exactly when one exists there |
| Normalize.FirstMatchFrom | index.js:55 | the match found is a match, and no match starts earlier; when none is found, none exists |
| Normalize.Rewrite | index.js:55 | a text with no match is unchanged; otherwise only the leftmost match is replaced; empty stays empty and non-empty stays non-empty |
| Normalize.FirstMatchIsFound | index.js:55 | the leftmost match is unique, so it is the one the search returns |
| Normalize.RewriteInsertsPlaceholder | index.js:55 | with one space before `(`, the rewrite only inserts the placeholder identifier before the parenthesis |
| Normalize.GetDefaults | index.js:45-59 | the initial record is valid exactly for a non-empty string or a callable with non-empty source; `orig` is then the rewritten text, and `""` otherwise; every other field is at its default |
| Classify.Update | index.js:75-84 | `isAsync`/`isGenerator` come from the statement's function node; `isExpression` holds exactly for a declaration whose node is not an expression; nothing else changes |
| Classify.VisitArrows | index.js:86-95 | an expression statement wrapping an arrow function sets `isArrow` and continues on the arrow node; any other statement passes through; only `isArrow` can change |
| Classify.VisitFunctions | index.js:97-105 | only a declaration changes the name: to `anonymous` for an empty identifier span, to the identifier otherwise |
| Classify.Target | index.js:33-35 | processing continues exactly for an arrow node or a function declaration |
| Params.Names | index.js:109-120 | one name per parameter node, in list order, with no deduplication |
| Params.AddDefaults | index.js:121-123 | every name gains an entry; the last parameter with a name decides its value; keys no parameter names keep their value |
| Params.VisitParams | index.js:107-132 | a non-empty list appends its names to `args` and records their defaults; an empty list resets `args` and `params`; `params` always joins `args`; every argument keeps a default entry; no other field changes |
| Params.DefaultIsExactSlice | index.js:121-123 | an AssignmentPattern's default is exactly the in-range source text of its right-hand side |
| Params.ParamsDetermineArgs | index.js:125 | the `params` string determines `args`: splitting it on `, ` gives `args` back |
| Params.FreshDefaults | index.js:107-132 | starting from an empty map, the keys are exactly the parameter names, and each name maps to its last occurrence's exact default slice or to no default |
| Body.StripBraces | index.js:137-142 | a braced text loses exactly its first and last character (re-wrapping gives it back); any other text is unchanged; the length drops by 2 or by 0 |
| Body.StripWrapped | index.js:137-142 | exactly one brace pair is removed, even from a text that is itself braced, so `{}` becomes `""` |
| Body.FixBody | index.js:134-145 | the body is the span's source with one brace pair removed when both ends are braces, and unchanged otherwise; no other field changes |
| Name.FixName | index.js:147-157 | `isAnonymous` holds exactly when the name is `anonymous`, and `isNamed` is its negation; the placeholder never survives; other names are kept; nothing else changes |
| Name.FixNameIdempotent | index.js:147-157 | resolving a resolved record changes nothing |
| Pipeline.Step | index.js:24-39 | one loop step keeps `orig`, `valid` and the name flags; it leaves the record alone for non-candidate statements; `isArrow` only turns on; it keeps `params` joining `args` and every argument with a default |
| Pipeline.Walk | index.js:24-39 | the fold keeps the same invariants; `isArrow` holds exactly when it held before or some statement is an arrow statement |
| Pipeline.ParseFunction | index.js:13-43 | invalid input returns the initial record; valid input fails exactly when the parser fails, passing its error on; a result keeps `valid` and `orig`, resolves the name flags, has `params` joining `args` and a default entry for every argument |
| Pipeline.ParserNotReached | index.js:14-18 | for invalid input the parser is never consulted: any two parsers give the same all-defaults record, whose `isAnonymous` is false |
| Pipeline.WalkSkipsNonCandidates | index.js:25-27 | statements that are neither expression statements nor declarations leave the record unchanged |
| Pipeline.WalkSingleCandidate | index.js:24-39 | with one candidate statement, the fold is that statement's step |
| Pipeline.StepOnFunction | index.js:29-38 | a function-bearing step sets `args`, `params`, `defaults`, `body`, the flags and the name from that function node |
| Pipeline.ParseFunctionAsWritten | index.js:24 | with line 24 as written, every valid input whose text parses ends in a ReferenceError on `ast` |
| Pipeline.AsWrittenDiffersFromIntended | index.js:24 | the two readings of line 24 agree on invalid input and on parser errors, and differ on every valid input that parses |
| Properties.OneFunctionStep | index.js:13-43 | for a text holding one function, the record is the resolved result of that function's single step |
| Properties.OneFunctionArgs | index.js:109-125 | for a text holding one function, `args` has one name per parameter node, in order, and `params` joins them |
| Properties.OneFunctionDefaults | index.js:109-123 | for a text holding one function, the keys of `defaults` are exactly the names in `args`; each name maps to its last occurrence's exact default source, or to no default |
| Properties.OneFunctionCollections | index.js:107-132 | for a text holding one function, `args` is the parameter names and `defaults` is built from an empty map |
| Properties.OneFunctionShape | index.js:29-41 | for a text holding one function: the body is the function body's source with one brace pair removed; the flags come from the node; the name is the declared identifier unless it is empty or the placeholder |
| Properties.WrappedFunctionExpressionSkipped | index.js:29-35 | a parenthesised function expression sets only the async/generator flags; the record otherwise stays empty and anonymous |
| Properties.ArgsAccumulateAcrossCandidates | index.js:108-125 | two declarations with parameters report both name lists concatenated, with the second one's name and body |
| Properties.EmptyParamsResetArgsOnly | index.js:126-129 | a later candidate with no parameters empties `args` and `params`, but keeps the earlier candidate's defaults |
| Properties.WalkTwo | index.js:24-39 | two statements are processed in order, each on the record the previous one left |
| Examples.RewriteLeading | index.js:55 | a text starting with `function (` gets the placeholder inserted right after `function ` |
| Examples.AnonymousRewrite | test.js:20 | `function (c) {return c * 3}` is rewritten to carry the placeholder name |
| Examples.AnonymousOneFunction | test.js:20 | the same text, with the tree its parser returns, holds exactly one function declaration |
| Examples.AnonymousShape | test.js:79-82 | that text reports a valid, anonymous, non-arrow function with body `return c * 3` |
| Examples.AnonymousSingleParam | test.js:80-83 | that text reports `args = ["c"]`, `params = "c"` and `c` without a default |
| Examples.DefaultsRewrite | test.js:18 | the three-parameter test text is rewritten only at its anonymous signature |
| Examples.ThreeParamNames | test.js:68-69 | a defaulted, a plain and a rest parameter give three names in order, joined by `, ` |
| Examples.ThreeParamDefaults | test.js:71 | for that test, `a` maps to `{foo: "ba)r", baz: 123}`, and `cb` and `restArgs` to no default |
| Examples.DefaultsBodySlice | test.js:70 | that test's body is `return a * 3` |
| Examples.NamedRewrite | test.js:29 | a named function's text is left unchanged by the rewrite |
| Examples.NamedEmpty | test.js:121-126 | `function namedFn () {}` reports name `namedFn`, no arguments, an empty body and no defaults |
| Examples.EmptyArrow | test.js:152-157 | `() => {}` reports an anonymous arrow with no arguments and an empty body, not flagged as an expression |
| Examples.InvalidInputs | index.js:14-18 | the empty string and a value that is neither string nor callable give the same invalid record: every field at its default, every flag false, and `orig` empty |
| Examples.AsWrittenThrowsOnTestInput | index.js:24 | as written, the anonymous test input throws, while the intended reading returns a record |

## Left out

- The parser (`babylon.parse`) and the `options.parser` injection (index.js:10, 19-22) are not part of this model. The parser is a function parameter, and `options` is not passed on to it.
- Nothing about `Function.prototype.toString` (index.js:53) is modelled: a callable input is given as the source text it would produce.
- `define-property` (index.js:11, 61-73) is left out: a property's enumerability has no counterpart in the model, so every record field is an ordinary field.
- Destructuring parameter patterns are left out. A parameter node is an Identifier, an AssignmentPattern with a plain name on its left, or a RestElement with a plain name.
- Hiddens: `valid` is a boolean here. In the source it is the value of `code && code.length > 0`, which can be `""` or `false` rather than `false`.
- Pipeline.ParseFunction: a parser error is an opaque string passed on unchanged; exception stacks and positions are not modelled.
- src/lib/plugins/params.js is not part of this model. It wraps helpers from the `func-args` package, which this model does not cover.
- Params.AddDefaults: `defaults` is a Dafny map, not a JavaScript object, so the special behaviour of the key `__proto__` is not modelled. In the source, assigning to `defaults["__proto__"]` goes to the prototype setter and adds no key. The model records an ordinary entry for a parameter named `__proto__`. So the claims that every argument has a default entry and that the keys are exactly the argument names (`Record.ArgsHaveDefaults`, `Params.FreshDefaults`, `Properties.OneFunctionDefaults`) do not hold for the program when a parameter has that name.
- Strings.Slice: offsets count characters of a Dafny string, that is Unicode scalar values. The parser's offsets, `slice` and `charCodeAt` count UTF-16 code units. Surrogate pairs are not modelled, so when a character outside the Basic Multilingual Plane comes before a default or a body, the exact-slice facts (`Params.FreshDefaults`, `Body.FixBody`, `Properties.OneFunctionDefaults`) describe a different substring from the one the program takes.

## Findings

| source | as written | input that shows it | evidently intended | confidence | as-written member | corrected member |
|---|---|---|---|---|---|---|
| index.js:24 | the parser's result is called as a function whose argument reads `ast` inside the initialiser of `const ast`, which throws a ReferenceError | `'function (c) {return c * 3}'`, or any other non-empty text that parses | parse once, then iterate over `(ast.program or ast).body` | not executed | Pipeline.ParseFunctionAsWritten (shown by Pipeline.AsWrittenDiffersFromIntended and Examples.AsWrittenThrowsOnTestInput) | Pipeline.ParseFunction |
