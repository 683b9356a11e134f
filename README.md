# Essay evaluation handler, modelled in Dafny

This project models `onRequest` in `api/evaluate.js`. That handler takes a POST with a
college-application essay and loads five rubric files. It asks a chat-completion endpoint
(DeepSeek) to grade the essay against each rubric category. It then answers with a report:
the five category results, their total score, and the points deducted from 90.

The model is pure. Everything the handler gets from outside is a parameter of the handler:
- the request (method and body);
- the five rubric files, or the fact that loading them failed;
- the endpoint, as a function from a category and the essay to a reply (status, body);
- `JSON.parse`, as a partial function from text to a category result.

"The endpoint is not called" is stated as: the result does not depend on the endpoint.

Files:
- `wrappers.dfy` holds `Option`.
- `js_text.dfy` holds JavaScript's whitespace set and `String.prototype.trim`.
  `trim` is split into its leading and trailing halves.
- `fences.dfy` models the three regular-expression replaces and the trim that strip Markdown
  code fences from the endpoint's reply. Each replace is proved against a reference predicate
  for the regex match: a greedy leading match, and the leftmost match anchored at the end of
  the text.
- `evaluate.dfy` models the request gate and the five categories. It also models the outcome
  of one category, the all-or-nothing join of the five outcomes, the score fold, the report
  and the handler.

How failures and replies are handled, as the code has it:
- The handler does not isolate a failing category. Any non-OK reply fails the whole request
  with 500.
- The reply text has only its code fences stripped and its ends trimmed. Surrounding quotes
  are not removed, and nothing salvages a partly valid reply.
- A reply that cannot be used is not tagged as a failure. It gets score 0 and the category's
  full maximum.
- A parsed reply is returned as it is. Nothing checks that `0 <= score <= maxScore`.

## Model

| member | source | states |
|---|---|---|
| JsText.IsWhitespace | api/evaluate.js:122-124 | the white-space set of `\s` and `trim`; WhitespaceIsListed shows it is exactly ECMAScript's WhiteSpace and LineTerminator characters |
| JsText.WhitespaceIsListed | api/evaluate.js:122-124 | a character is white space exactly when it is one of the 25 listed characters: tab, line feed, vertical tab, form feed, carriage return, space, no-break space, the Unicode space separators, line and paragraph separator, and the byte-order mark |
| JsText.TrimStart | api/evaluate.js:124 | the result is a suffix of the input; what it drops is all whitespace; it starts with a non-whitespace character unless empty |
| JsText.TrimEnd | api/evaluate.js:124 | the result is a prefix of the input; what it drops is all whitespace; it ends with a non-whitespace character unless empty |
| JsText.Trim | api/evaluate.js:124 | `trim()` returns a contiguous piece of the text with only white space before and after it; the piece has no white space at either end; already trimmed text is unchanged |
| JsText.TrimStartSkips | api/evaluate.js:124 | trimming whitespace followed by a text that starts with a non-whitespace character gives exactly that text |
| JsText.TrimEndSkips | api/evaluate.js:124 | trimming a text that ends with a non-whitespace character followed by whitespace gives exactly that text |
| Fences.ReplaceLeading | api/evaluate.js:122 | `replace(/^p\s*/, '')`: unchanged when the text does not start with p; otherwise removes exactly the longest match of p plus whitespace |
| Fences.ReplaceTrailing | api/evaluate.js:123 | `replace(/\s*p$/, '')`: unchanged when the text does not end with p; otherwise removes exactly the leftmost match of whitespace plus p at the end |
| Fences.StripFences | api/evaluate.js:122-124 | the stripped reply is never longer than the reply and has no whitespace at either end |
| Fences.StripFencesKeepsCleanText | api/evaluate.js:122-124 | a trimmed text that neither starts nor ends with a fence is returned unchanged |
| Fences.StripFencesUnwrapsJsonFence | api/evaluate.js:122-124 | a `json` fence, whitespace, content, whitespace and a closing fence give back exactly the content |
| Fences.StripFencesUnwrapsBareFence | api/evaluate.js:122-124 | a bare fence, whitespace, content, whitespace and a closing fence give back exactly the content; the whitespace after the opening fence may be empty when the content does not start with `json` |
| Fences.StripFencesKeepsFenceBeforeTrailingWhitespace | api/evaluate.js:123 | a closing fence followed by whitespace is not removed, because the trim runs after the end-anchored replace |
| Fences.TrimKeepsClosingFence | api/evaluate.js:124 | trimming content, a fence and trailing whitespace keeps the fence |
| Fences.StripFencesRemovesOneLeadingFence | api/evaluate.js:122 | each replace fires once: of two leading bare fences only the first is removed |
| Fences.ReplaceLeadingSkips | api/evaluate.js:122 | removing a leading p from p, whitespace and a text that starts with a non-whitespace character gives exactly that text |
| Fences.ReplaceTrailingSkips | api/evaluate.js:123 | removing a trailing p from a text that ends with a non-whitespace character, whitespace and p gives exactly that text |
| Fences.TrimDropsTrailingWhitespace | api/evaluate.js:124 | trimming a trimmed text followed by whitespace gives that text |
| Evaluate.CheckRequest | api/evaluate.js:7-23 | 405 exactly for a method other than POST; 500 exactly for a POST whose body is not JSON or is null; 400 exactly for a POST whose essay is absent, empty or not a string; otherwise the non-empty essay |
| Evaluate.Categories | api/evaluate.js:39-45 | five categories in fixed slot order, with keys PersonalStrengths, LogicalConsistency, LogicalConsistency2, Readability and LanguageQuality; each is its file's entry under its concept name, spread |
| Evaluate.Spread | api/evaluate.js:40-44 | the category carries the slot's key; it has the file entry's `category` and `items` when the concept is in the file, and otherwise no name and no items |
| Evaluate.EvaluateCategory | api/evaluate.js:48-136 | a category aborts exactly when it has items and the reply has a non-OK status (the throw at 113-114) or a body that is not JSON (the `response.json()` at 117, outside the inner try) |
| Evaluate.EmptyCategorySkipsRemote | api/evaluate.js:49-56 | a category with missing or empty items gets score 0 and maximum 0, whatever the endpoint would answer |
| Evaluate.UnusableReplyDegrades | api/evaluate.js:119-135 | an OK reply with no string content, or whose stripped content does not parse, gives score 0, maximum five per item, no standards |
| Evaluate.ParsedReplyPassesThrough | api/evaluate.js:119-126 | a reply whose stripped content parses is the category's result verbatim |
| Evaluate.NoScoreRangeCheck | api/evaluate.js:126 | a parsed score of 1000 for a one-item category, maximum 5, is returned unchanged |
| Evaluate.EvaluateAll | api/evaluate.js:48-136 | the join succeeds exactly when no category aborts; it then holds one result per category, in category order, each that category's outcome |
| Evaluate.EvaluateAllConsultsOnlyCategoriesWithItems | api/evaluate.js:48-56 | two endpoints that agree on the categories with items give the same joined outcome |
| Evaluate.ScoreOf | api/evaluate.js:139 | `cat.score \|\| 0`: a missing score counts as 0, and a present score counts as itself |
| Evaluate.FoldScores | api/evaluate.js:139 | the left fold of the `reduce`, from any start, adds exactly the reference right-to-left sum of the scores |
| Evaluate.MakeReport | api/evaluate.js:139-146 | the report holds the results in order; its total is their score sum; its deduction is 90 minus the total, negative exactly when the total exceeds 90 |
| Evaluate.SumOfFive | api/evaluate.js:139 | the score sum of five results is the sum of their five scores |
| Evaluate.HandleRequest | api/evaluate.js:3-159 | every error response has status 405, 400 or 500; a request that passes the gate but whose rubric files fail to load (30-36, caught at 152-157) gets 500 |
| Evaluate.NonPostIsRejectedFirst | api/evaluate.js:7-12 | a method other than POST gets 405, whatever the body, rubric files, endpoint and parser |
| Evaluate.BadBodyStatuses | api/evaluate.js:14-23 | a POST with an invalid essay gets 400; a POST whose body is not JSON or is null gets 500 |
| Evaluate.AnyAbortFailsRequest | api/evaluate.js:113-157 | if any one of the five categories aborts, the response is 500 with no partial report |
| Evaluate.SuccessIff | api/evaluate.js:3-159 | a request succeeds exactly when it passes the gate, the rubric files load and no category aborts |
| Evaluate.SuccessfulReport | api/evaluate.js:139-150 | a successful report holds the five slot outcomes in slot order; its total is the sum of their five scores; its deduction is 90 minus the total |
| Evaluate.RemoteConsultedOnlyForCategoriesWithItems | api/evaluate.js:48-56 | two endpoints that agree on every category with items give the same response |

## Left out

- `api/server.js`, the Express entry point (static hosting, the `/api/evaluate` route and
  `listen`), is not part of this model.
- Network I/O is not modelled. That covers fetching the rubric files, the endpoint call, the
  request URL, the API key, headers and the prompt text. The endpoint and the loaded files
  are inputs.
- Rubric files: a load that fails for any reason is one outcome, `None`. That covers a fetch
  that fails, a body that is not JSON, and a file that is JSON `null`. Each gives 500. A file
  that is JSON but not an object is not modelled.
- Rubric items are opaque and only their number matters. Items that are not an array are not
  modelled.
- A DeepSeek `fetch` that rejects (a network error) is not a reply. The model represents it
  by a reply with a non-OK status, which aborts the request the same way.
- `Promise.all` runs the five categories concurrently. The model joins them in order and stops
  at the first abort. The response is the same 500 either way. Which rejection's error
  message is reported is not modelled.
- The JSON error messages and the `Content-Type` headers of responses are not modelled; only
  the statuses are.
- Logging (`console.error`) is not modelled.
- `JSON.parse` is an uninterpreted input that yields a category result or fails.
- Evaluate.ScoreOf: scores are integers or absent. Fractional scores, JavaScript's
  double-precision arithmetic in the sum, and a string, NaN or other non-numeric score are not
  modelled.
- Evaluate.HandleRequest: a reply that parses to a value that is not an object (e.g. `null`)
  is not modelled. In the source, reading `score` from a `null` result throws and the request
  gets 500.
- Fences.StripFences: the replies are JavaScript strings of UTF-16 code units. Here they are
  Dafny character sequences. The whitespace set is the one `\s` and `trim` share in
  ECMAScript.
