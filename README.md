# Raygun error-reporting service, modelled in Dafny

This project models the troopjs Raygun service component (`service.js`). The
component wires an application's start and stop signals to the Raygun
JavaScript client. It also reports two kinds of failure to Raygun: native
`Error` objects, and when.js "Potentially unhandled rejection" messages.

The modules follow the parts of that one file:

- `Lines` (lines.dfy) models `String.prototype.split('\n')` and `Array.prototype.join('\n')`.
  It proves that the two undo each other.
- `Header` (header.dfy) is a hand-written matcher for the regular expression
  `Potentially\sunhandled\srejection\s*\[\d\]\s*`. `Strip` models
  `replace(regex, '')` without the `g` flag. The language of the expression is
  also stated on its own, as `Spelled` and `InLanguage`. The matcher is proved
  sound and complete against it, and `Strip` is proved to delete exactly the
  leftmost, longest match.
- `Normalize` (normalize.dfy) builds the `{name: 'Promise rejection', message, stack}`
  record that `report` sends for anything other than a native `Error`.
- `RaygunOptions` (raygun_options.dfy) models `_.extend(defaults, this.options)`.
- `Service` (service.dfy) holds the component. It has a class with the fields
  `token`, `env` and `options`, and a `Host` object that stands for the page.
  The Raygun client is modelled as the ordered log of calls made on it.
  `console.error` is modelled as a count of how many times it was wrapped.
  The AMD loader is modelled as the list of modules requested.
- `JsValues` (js_values.dfy) and `Wrappers` (wrappers.dfy) hold JavaScript
  values, truthiness, and Option/Result.

The constructor can throw, so it is modelled as `RaygunService.Create`. That
method returns either the new service or the error message.

Three behaviours of the code are easy to misread, and the model follows the code in each:

- A title that is only the header, such as
  `"Potentially unhandled rejection [0]\nError: boom\nat foo.js:10"`, gives an
  empty message. Everything after the first line becomes the stack. The header
  is removed only from the first line. See `Normalize.HeaderLineExample`. When
  the error text shares the header's line, as when.js writes it, the message
  is that text. See `Normalize.WhenRejectionExample`.
- A value that is neither an `Error` nor a string is not turned into a string.
  `report` calls `shift()` on it. An array is used as the list of lines, and
  `report` removes the array's first item in place. Any other value throws a
  TypeError, as does an empty array.
- The header is removed wherever it first occurs in the title, not only at
  the start.

## Model

| member | source | states |
|---|---|---|
| `Lines.IndexOf` | service.js:74 | the position of the first separator: no earlier character is the separator, and the result is the length exactly when the separator is absent |
| `Lines.Split` | service.js:74 | `split('\n')` never returns an empty array |
| `Lines.SplitPartsClean` | service.js:74 | no piece of a split contains a newline |
| `Lines.SplitSingle` | service.js:74 | a string splits into one piece exactly when it has no newline |
| `Lines.Join` | service.js:79 | `join('\n')`: an empty array gives the empty string; otherwise the result starts with the first item, followed by a newline when there are more (`Lines.JoinSplit` and `Lines.SplitJoin` prove it undoes `split`) |
| `Lines.JoinSplit` | service.js:74-79 | joining the pieces of a split with '\n' gives back the original string |
| `Lines.SplitJoin` | service.js:74-79 | splitting a join of newline-free pieces gives back the pieces |
| `Lines.SplitTail` | service.js:74-79 | after `shift()`, joining the remaining lines gives exactly the text after the first newline |
| `Header.IsSpace` | service.js:78 | the `\s` class of ECMAScript: tab, line feed, vertical tab, form feed, carriage return, space, U+00A0, U+1680, U+2000 to U+200A, U+2028, U+2029, U+202F, U+205F, U+3000 and U+FEFF (`Header.AsciiSpaces` gives its ASCII members) |
| `Header.IsDigit` | service.js:78 | the `\d` class: exactly the ten ASCII digits (`Header.DecimalDigits`) |
| `Header.ClassesDisjoint` | service.js:78 | no whitespace character is a digit or a bracket, so each `\s*` run stops before `[` and after `]` |
| `Header.SkipSpaces` | service.js:78 | a greedy `\s*` run: every character it covers is whitespace and the next one is not |
| `Header.MatchAt` | service.js:78 | a match found at a position is at least 34 characters long and ends inside the title; `Header.MatchAtSound` and `Header.MatchAtComplete` prove it finds exactly the longest match starting there |
| `Header.MatchAtSound` | service.js:78 | a match the matcher reports is in the expression's language and cannot be extended by more whitespace |
| `Header.MatchAtComplete` | service.js:78 | every match that starts at a position is found there, ending no earlier than that match |
| `Header.FindFrom` | service.js:78 | the search reports a start at or after its starting point with the end that `MatchAt` gives there; `Header.FindFromCorrect` proves that start is the first with a match |
| `Header.FindFromCorrect` | service.js:78 | the search returns the first start position that has a match, with the longest match there, and returns none only when no match starts at or after the starting point |
| `Header.FindLeftmostLongest` | service.js:78 | the search finds nothing exactly when the title holds no match; otherwise it finds the leftmost, longest match |
| `Header.Strip` | service.js:78 | `replace` without the `g` flag: the title is returned unchanged when no position has a match, and otherwise loses at least 34 characters |
| `Header.StripRemovesLeftmostLongest` | service.js:78 | `replace` removes exactly the leftmost, longest match and keeps what is before and after it |
| `Header.StripUnchangedIff` | service.js:78 | the title is unchanged exactly when it holds no match; otherwise it loses at least 34 characters |
| `Header.ShortTitleUnchanged` | service.js:78 | a title shorter than the shortest possible match is left as it is |
| `Header.MultiDigitIndexNotMatched` | service.js:78 | an index of two digits such as `[12]` is not matched |
| `Header.StripLeadingHeader` | service.js:78 | a title that starts with the header and its trailing whitespace keeps only the text after them |
| `Header.StripBareHeader` | service.js:78 | `"Potentially unhandled rejection [0]"` becomes the empty string |
| `Header.StripHeaderBeforeMessage` | service.js:78 | `"Potentially unhandled rejection [1] Error: boom"` becomes `"Error: boom"` |
| `Normalize.FromLines` | service.js:78-86 | an array of lines yields a record named "Promise rejection" exactly when the array is not empty; an empty array throws |
| `Normalize.FromString` | service.js:73-86 | every record built from a string is named "Promise rejection" |
| `Normalize.FromStringFirstNewline` | service.js:74-86 | the message is the text before the first newline less its header, and the stack is everything after that newline |
| `Normalize.FromStringSingleLine` | service.js:74-86 | a string without a newline gives an empty stack, and the message is the string less its header |
| `Normalize.FromStringRoundTrip` | service.js:74-86 | when the first line has no header, message + "\n" + stack is the input |
| `Normalize.FromLinesAsJoined` | service.js:73-86 | an array of newline-free lines is reported as the string it joins to |
| `Normalize.WhenRejectionExample` | service.js:74-86 | the when.js header and the message on one line give message "Error: boom" and stack "at foo.js:10" |
| `Normalize.HeaderLineExample` | service.js:74-86 | a header alone on the first line gives an empty message, and both later lines go to the stack |
| `Normalize.SingleLineExample` | service.js:74-86 | "Just one line" gives message "Just one line" and an empty stack |
| `JsValues.Truthy` | service.js:18 | the falsy values are exactly undefined, null, false, 0 (and -0), NaN, 0n and the empty string; arrays and objects are truthy |
| `RaygunOptions.Defaults` | service.js:44-52 | five defaults: insecure submissions allowed and third-party errors ignored (truthy), Ajax aborts and Ajax errors not ignored (falsy), and the hostnames "localhost" and ".dev" excluded |
| `RaygunOptions.Merge` | service.js:44-53 | each key the caller gives takes the caller's value, every other default keeps its value, and no other key appears |
| `RaygunOptions.MergeWithoutOptions` | service.js:44-53 | with no options, or with an empty object, the result is exactly the five defaults |
| `RaygunOptions.MergeIdempotent` | service.js:44-53 | merging the merged options again changes nothing |
| `Service.InitCountAppend` | service.js:56 | counting Raygun.init calls adds up over a log that is extended |
| `Service.JsArray.Shift` | service.js:78 | `shift()` returns the first item and removes it, or returns undefined on an empty array |
| `Service.RaygunService.constructor` | service.js:18-23 | can only be called when the guard holds (truthy key, string environment, Raygun present), stores the token, the environment and the options unchanged, and leaves the guard true of the new object (`Valid`) |
| `Service.RaygunService.Create` | service.js:17-23 | construction throws exactly when the key is falsy, the environment is not a string, or Raygun is absent; otherwise the three arguments are kept unchanged |
| `Service.RaygunService.Start` | service.js:25-57 | in "dev", only the console monitor is requested, Raygun is not called and console.error is not wrapped; elsewhere, console.error is wrapped once if it exists and Raygun.init is called exactly once, with the token and the merged options, then withCustomData and attach |
| `Service.RaygunService.GetData` | service.js:61 | the custom data is an empty object |
| `Service.RaygunService.Report` | service.js:66-88 | an Error is sent as the identical object; a string is sent as its record; an array is sent as its record and loses its first item; an empty array or any other value throws a TypeError and sends nothing; exactly one call is added per report that does not throw |
| `Service.RaygunService.Stop` | service.js:89-91 | appends one detach call to the Raygun log |

## Left out

- The AMD `define` wrapper and the when.js deferred in the "dev" branch of `sig/start` (service.js:1-6, 31-33) are left out. The model records that the console monitor was requested and that a promise is returned. It does not model the load itself or when the promise resolves.
- The behaviour of the wrapper that `_.after(console.error, report)` installs (service.js:38-41) is left out. The model only counts that `console.error` was replaced. `_.after` takes a call count as its first argument, so whether the wrapper calls `report` depends on the lodash version. The original `console.error` is not called by it.
- The Raygun client's own behaviour (delivery, retries, the wire format) is left out. Its calls are only logged, and the custom data provider is recorded without its argument.
- `Service.RaygunService.Create`: the options are limited to a plain object or undefined/null, as the source's `@param {Object}` documents. For a string or array, `_.extend` would copy index keys, and that is not modelled.
- `Service.RaygunService.Report`: the array path covers arrays of strings only. An array holding non-strings would have its items converted by `join`, or would make `replace` throw on a non-string first item. Objects that define their own `shift` are treated as values without one.
- `JsValues.Truthy`: JavaScript numbers are modelled as reals plus NaN. Only their truthiness is used, and floating-point behaviour is not modelled.
- The thrown TypeErrors are modelled by their type alone. The wording of the message differs between JavaScript engines, and for null or undefined it also differs from the wording for other values.
- Functions and symbols have no case in `JsValue`. Both are truthy, so a function or symbol key would pass the constructor's guard, and the model cannot express that. JavaScript strings are sequences of UTF-16 code units, but Dafny strings hold Unicode scalar values, so a lone surrogate cannot be written in a title.
- `instanceof Error` is taken as a given tag on the input (`ErrorValue`). Prototype chains and cross-frame errors are not modelled.
