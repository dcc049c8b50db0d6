# fjl-errorThrowing in Dafny

A model of `fjl-errorThrowing`, a small runtime type-assertion library. Given a context name, a value
name, a value and one or more expected types, a check either returns normally or throws an `Error`
whose message names the value, the expected types, the type received and the value.

The model covers:

- **Type-name resolution** (`getTypeName`): a type name or a constructor resolves to a name; anything
  else is rejected with a fixed message (`TypeNames`).
- **List rendering** (`multiTypesToString`): resolved names, backtick-quoted and joined with `", "`.
  A parser for that format is given as an independent partner, and the two are proved inverse in both
  directions (`TypeNames`).
- **The default message template** (`defaultErrorMessageCall`): context-name qualification, the
  type phrase, the received type and value, and the optional suffix (`Messages`).
- **The single- and multi-type checks** that every factory builds (`Throwers`).
- **The current curried API** of `src/fjl.errorThrowing.js`: the `$`-suffixed uncurried factories,
  their curried forms, and the default-message instances `errorIfNotType` / `errorIfNotTypes` (`SrcApi`).
  Partial application is modelled by a small accumulator (`Curry`).
- **The earlier context-first API** of the built bundles `dist/cjs` and `dist/amd`. The two bundles
  share one module (`DistApi`); they differ only in how a value is turned into a string (see Left
  out). The model proves that both API revisions agree.

JavaScript values are one datatype (`JsValues.JsValue`). A call is a positional argument list, and a
missing argument reads as `undefined`. Truthiness is modelled exactly for the values the model has.
The library's collaborators from `fjl` are parameters: `typeOf`, `_isType`/`isType`, and the string
form of numbers, functions, arrays and objects are fields of a `Host` record. The model makes no assumption about how
they behave. A thrown error is a `Fail` outcome. Its message is kept, and it is tagged with where it
was thrown (a rejected type reference or a type mismatch). A message function that throws passes its
own error through.

Behaviour a reader might not expect, which the model keeps:

- The type phrase is the reverse of what its wording suggests. A single expected name is rendered
  after "of one of the types: ", and an array of names after "of type: ". The library's own test pins
  the single-name form.
- The multi-type check with no type references always throws. No reference can match.
- Passing `null`/`undefined` as the template context makes `defaultErrorMessageCall` throw when it
  destructures the context. The model's context is always an object, so this error does not exist in
  the model (see Left out).

## Model

| member | source | states |
|---|---|---|
| TypeNames.GetTypeName | src/fjl.errorThrowing.js:60-65 | resolution succeeds exactly for strings and functions; a string resolves to itself, a constructor to its name; anything else is rejected with the fixed message naming the value's type and value |
| TypeNames.GetTypeNameIdempotent | dist/cjs/fjl.errorThrowing.js:60-67 | resolving an already resolved name gives the same name again |
| TypeNames.ResolveAll | src/fjl.errorThrowing.js:111 | mapping resolution over a list succeeds exactly when every element is a type reference; the names keep length and order and agree element-wise with single resolution; otherwise the error is the one for the first rejected element |
| TypeNames.ResolveAllAppend | src/fjl.errorThrowing.js:111 | resolving a concatenation gives the two name lists one after the other |
| TypeNames.MultiTypesToString | src/fjl.errorThrowing.js:76-77 | the empty list renders as ""; rendering succeeds exactly when all elements are type references, and is then the quoted, comma-joined list of the resolved names; otherwise it fails with the first rejected element's error |
| TypeNames.MultiTypesToStringOfNames | dist/amd/fjl.errorThrowing.js:76 | a list of names renders as the quoted list of those same names |
| TypeNames.QuotedListRoundTrip | tests/fjl.errorThrowing-test.js:53-55 | the rendering of names without backticks parses back to exactly those names, in order and with duplicates |
| TypeNames.ParseRendered | dist/cjs/fjl.errorThrowing.js:79-83 | a non-empty list of names without backticks renders to a string the item parser reads back to those names |
| TypeNames.ParsedIsRendered | dist/cjs/fjl.errorThrowing.js:79-83 | every string the parser accepts is the rendering of the names it reads, and those names hold no backtick, so the rendering is exactly the parser's language |
| Messages.DefaultErrorMessageCall | src/fjl.errorThrowing.js:87-99 | rendering fails exactly when the expected names are an array with an element that is not a type reference, with that element's error; otherwise a single name follows "of one of the types: " and an array follows "of type: " as its quoted list, between the head and the tail |
| Messages.MessageOpening | src/fjl.errorThrowing.js:95-96 | the message starts with the backticked value name, qualified by the context name exactly when the context name is truthy, then "` is not " |
| Messages.MessageClosing | src/fjl.errorThrowing.js:96-98 | the message ends with ".  Value: <value>;", followed by "  <suffix>;" exactly when the suffix is truthy |
| Messages.SuffixAppends | dist/cjs/fjl.errorThrowing.js:105 | a truthy suffix does not change whether rendering succeeds, and only appends "  <suffix>;" to the message rendered without it |
| Messages.FalsySuffixesAgree | dist/amd/fjl.errorThrowing.js:95 | all falsy suffixes give the same result |
| Messages.ContextInserts | src/fjl.errorThrowing.js:95 | a truthy context name does not change whether rendering succeeds, and only inserts "<context>." after the opening backtick |
| Messages.FalsyContextsAgree | dist/amd/fjl.errorThrowing.js:95 | all falsy context names give the same result |
| Messages.SingleAndListLabels | src/fjl.errorThrowing.js:92-94 | a lone name reads "of one of the types: n", and the one-element list reads "of type: `n`", with the same head and tail |
| Messages.ListMessageReadsBack | dist/amd/fjl.errorThrowing.js:92-95 | the message for a list of names contains, between "of type: " and the tail, a segment that parses back to exactly those names |
| Messages.EmptyContextRenders | tests/fjl.errorThrowing-test.js:65-67 | a context with every field missing still renders, with every field read as "undefined" |
| Messages.StringFieldsMessage | src/fjl.errorThrowing.js:95-98 | for string fields, a non-empty context and no suffix, the message is the pieces in order: "`c.vn` is not ", the single-name label, the name, the received type and the value |
| Messages.PinnedMessage | tests/fjl.errorThrowing-test.js:68-80 | the pinned rendering of the library's test, character for character |
| Throwers.AnyMatch | src/fjl.errorThrowing.js:112 | the left-to-right scan is true exactly when some name in the list accepts the value |
| Throwers.IfNotType | src/fjl.errorThrowing.js:101-108 | the single-type check passes exactly when the reference resolves and `isType` accepts the value under that name; a rejected reference throws its own error; a mismatch throws the message function's rendering of the full context (or that function's own error) |
| Throwers.IfNotTypes | src/fjl.errorThrowing.js:110-121 | the multi-type check passes exactly when every reference resolves and one of them accepts the value; no references always throws; the first rejected reference throws its error even if another would match; a mismatch throws the rendering of the ordered name list without a suffix |
| Throwers.MultiPassesOnMatch | src/fjl.errorThrowing.js:112-114 | with every reference valid, the multi-type check passes exactly when some resolved name accepts the value |
| Throwers.SingleIsMultiOfOne | src/fjl.errorThrowing.js:101-121 | the single-type check and the multi-type check on the one-element list pass or fail together |
| Throwers.SingleIsMultiOfOneRejected | src/fjl.errorThrowing.js:102 | for a rejected reference, the single-type check and the multi-type check on the one-element list throw the same error |
| Throwers.AnyMatchAppend | src/fjl.errorThrowing.js:112 | a list of names accepts a value exactly when one of its two halves does |
| Throwers.MultiAppend | src/fjl.errorThrowing.js:110-114 | with all references valid, a value passes the concatenation of two lists exactly when it passes one of them |
| Throwers.SingleDefaultMessage | src/fjl.errorThrowing.js:123 | with the default template, a failed single-type check throws a mismatch whose message is head, "of one of the types: ", the resolved name and tail |
| Throwers.MultiDefaultMessage | src/fjl.errorThrowing.js:125 | with the default template, a failed multi-type check throws a mismatch listing the resolved names after "of type: ", and that list parses back to the names |
| Throwers.MismatchScenario | src/fjl.errorThrowing.js:101-108 | checking 42 against `String` in context "Ctx" throws a mismatch reading "`Ctx.v` is not of one of the types: String.  Type received: Number.  Value: " then the rendered value and ";" |
| Curry.MakeCurried | src/fjl.errorThrowing.js:136 | a freshly curried function called once with fewer arguments than its arity gives back a function holding them, and with at least that many runs the underlying function on all of them |
| Curry.Feed | src/fjl.errorThrowing.js:136 | one call returns a function holding all arguments so far while fewer than the arity are bound, and otherwise runs the function on every argument supplied |
| Curry.FeedAllPending | src/fjl.errorThrowing.js:136 | too few arguments, in any grouping, leave a function holding exactly those arguments in order |
| Curry.FeedAllCompletes | src/fjl.errorThrowing.js:148 | any grouping whose last call completes the arity runs the function once, on all arguments in order |
| SrcApi.GetErrorIfNotTypeThrowerUncurried | src/fjl.errorThrowing.js:101-108 | a call passes exactly when the fourth argument is a type reference whose name `isType` accepts the third argument under; arguments after the fifth are ignored; an omitted, `undefined` or `null` fifth argument gives the same outcome |
| SrcApi.GetErrorIfNotTypesThrowerUncurried | src/fjl.errorThrowing.js:110-121 | a call with no type reference always throws; a fourth argument that is not a type reference throws its own rejection whatever follows |
| SrcApi.MultiUncurriedPasses | src/fjl.errorThrowing.js:110-114 | a multi-type call passes exactly when every argument from the fourth on is a type reference and some resolved name accepts the third argument |
| SrcApi.MoreTypeRefsKeepPass | src/fjl.errorThrowing.js:112 | appending valid type references to a passing multi-type call keeps it passing |
| SrcApi.ErrorIfNotTypeUncurried | src/fjl.errorThrowing.js:123 | `errorIfNotType$` throws, on a mismatch, the default message: head, "of one of the types: ", the resolved name, and the tail with the fifth argument (or `null`) as suffix |
| SrcApi.ErrorIfNotTypesUncurried | src/fjl.errorThrowing.js:125 | `errorIfNotTypes$` throws, when every reference is valid and none matches, the default message with the resolved names quoted in order after "of type: " |
| SrcApi.GetErrorIfNotTypeThrower | src/fjl.errorThrowing.js:158 | a first call with fewer than four arguments gives back a function holding them; one with four or more runs the uncurried single-type check on all of them |
| SrcApi.GetErrorIfNotTypesThrower | src/fjl.errorThrowing.js:168 | a first call with fewer than four arguments gives back a function holding them; one with four or more runs the uncurried multi-type check on all of them |
| SrcApi.ErrorIfNotType | src/fjl.errorThrowing.js:136 | a first call with fewer than four arguments gives back a function; one with four or more is `errorIfNotType$` on all of them |
| SrcApi.ErrorIfNotTypes | src/fjl.errorThrowing.js:148 | a first call with fewer than four arguments gives back a function; one with four or more is `errorIfNotTypes$` on all of them |
| SrcApi.SingleAnyGrouping | src/fjl.errorThrowing.js:158 | however the arguments are grouped, once a call brings them to four or more the outcome is the single-type check's on the first four, with the fifth (or `null`) as suffix |
| SrcApi.MultiAnyGrouping | src/fjl.errorThrowing.js:168 | however the arguments are grouped, the multi-type check runs once on all of them as soon as the count reaches four |
| SrcApi.PartialCallsReturnFunctions | src/fjl.errorThrowing.js:158-168 | fewer than four arguments, in any grouping, always give back a function and never run the check |
| SrcApi.DefaultSingleAnyGrouping | src/fjl.errorThrowing.js:136 | the grouping result for `errorIfNotType`, with the default template and an optional fifth argument as suffix |
| SrcApi.DefaultMultiAnyGrouping | src/fjl.errorThrowing.js:148 | the grouping result for `errorIfNotTypes`, with the default template |
| SrcApi.SingleTwoCalls | tests/fjl.errorThrowing-test.js:130-150 | the context alone, then value name, value and type reference in one call, runs the single-type check with a null suffix |
| SrcApi.SingleScenarios | tests/fjl.errorThrowing-test.js:130-150 | `errorIfNotType(ctx)` returns a function; it then throws for a value "Array" rejects and passes for one it accepts |
| SrcApi.MultiTwoCalls | tests/fjl.errorThrowing-test.js:110-127 | the context alone, then the rest in one call, runs the multi-type check on them |
| SrcApi.MultiScenarioThrowsFor | tests/fjl.errorThrowing-test.js:115-121 | with any message function, a value none of Array, Function, Boolean accepts throws |
| SrcApi.MultiScenarioPassesFor | tests/fjl.errorThrowing-test.js:122-127 | with any message function, a value "Array" accepts passes though Function is listed first |
| SrcApi.MultiScenarios | tests/fjl.errorThrowing-test.js:152-170 | the same two outcomes for `errorIfNotTypes` |
| DistApi.GetErrorIfNotTypeThrower | dist/cjs/fjl.errorThrowing.js:118-129 | the context-first single-type check is the current uncurried check with the context name prepended to the arguments |
| DistApi.GetErrorIfNotTypesThrower | dist/cjs/fjl.errorThrowing.js:141-160 | the context-first multi-type check is the current uncurried check with the context name prepended |
| DistApi.ErrorIfNotTypeThrower | dist/cjs/fjl.errorThrowing.js:172-174 | with the default template it is `errorIfNotType$` with the context name prepended |
| DistApi.ErrorIfNotTypesThrower | dist/cjs/fjl.errorThrowing.js:187-189 | with the default template it is `errorIfNotTypes$` with the context name prepended |
| DistApi.MissingTypeRefThrows | dist/amd/fjl.errorThrowing.js:108-109 | the returned check is not curried: with the type reference left out it throws the rejection for `undefined` |
| DistApi.NoTypeRefsThrows | dist/amd/fjl.errorThrowing.js:127-133 | with no type references the multi-type check throws the rendering of an empty name list |
| DistApi.SuffixDefaultsToNull | dist/cjs/fjl.errorThrowing.js:120 | an omitted, undefined or null suffix gives the same outcome |
| DistApi.SingleRevisionsAgree | dist/amd/fjl.errorThrowing.js:108-115 | the curried current check, given the context and then three or more arguments, returns what the context-first check returns |
| DistApi.MultiRevisionsAgree | dist/amd/fjl.errorThrowing.js:127-138 | the same agreement for the multi-type check |

## Left out

- `typeOf`, `isType`/`_isType`, `isString`, `isFunction`, `isArray`, `curry`, `curry4`, `length`,
  `intercalate` and `map` come from `fjl`, which is not part of this model. `typeOf`, `isType` and
  the string form of numbers, functions, arrays and objects are parameters. The others are modelled by what
  the library uses them for. Name matching versus `instanceof` matching is left inside `isType`.
- Curry.Feed: surplus arguments in the completing call are passed on to the function. Calling a
  check again after it has run is `None`. Both are properties of `fjl`'s curry that the library
  relies on but does not define.
- `defaultErrorMessageCall(null)` and `defaultErrorMessageCall()`: destructuring throws a `TypeError`.
  The model's context is always an object, so this case is absent.
- JsValues.ToStr: one `Host.render` stands for two string conversions. The `dist/cjs` template splices
  the value with `+`; `src` and `dist/amd` use template literals (all three use `+` for the rejection
  message and the suffix). `+` asks an object's `valueOf` before its `toString`, a template literal the
  reverse, so for an object such as `{valueOf(){return 1}}` the `dist/cjs` message ends "Value: 1;"
  while the others end "Value: [object Object];". The model does not tell these apart, so
  `DistApi.SingleRevisionsAgree` and `DistApi.MultiRevisionsAgree` do not cover `dist/cjs` on such values.
- Numbers are integers. `NaN`, `-0` and fractions, and their truthiness and string forms, are not
  modelled. Symbols and BigInts are absent from `JsValue`.
- An `Error` is modelled by its message only. The tags on `JsError` are an addition of the model; the
  library throws a plain `Error` in both cases.
- The `version` export and the module wrappers (ES module, CommonJS, AMD) are not modelled.
