# Tig middleware: the `/chat` handler

The Tig middleware is a small HTTP relay between a game client and an
OpenAI-style chat-completion API. Its one piece of logic is the `POST /chat`
handler: it rejects a request when no API key is configured (500, "…uh i
forgot") or when `userText` is not a string (400, "…uh"); otherwise it builds
the upstream `messages` array — the Tig persona as the system message, a
"Player facts: " message carrying at most 500 characters of the serialised
`facts`, the last ten `history` entries with their `role` and `content`
copied, and `userText` — makes one upstream call, and replies with the
trimmed first completion cut to 240 characters ("…uh" when it is missing or
blank). Every failure, including any exception, becomes 500 with "…uh i
forgot".

The model is pure, as the handler is (no loops, no state kept between
requests):

- `js_value.dfy` (module `JsValues`): the JavaScript values a JSON body can
  hold, truthiness (what `||` and `!` test), property reads, optional
  chaining (`?.`, `?.[0]`) and the TypeError a property read on `null` or
  `undefined` throws (`Completion.Throw`).
- `js_string.dfy` (module `JsString`): `slice` with negative positions
  counted from the end, and `String.prototype.trim` over the ECMA-262
  WhiteSpace and LineTerminator characters, characterised by lemmas.
- `chat.dfy` (module `Chat`): the handler in its three parts — `Validate`,
  `BuildMessages` (with `HistoryWindow`, `MapMessages`, `FactsSummary`) and
  `Finish` (with `ReplyText`) — composed by `Handle`.

Inputs that are I/O in the source are parameters: the API key and the persona
text are a `Config` value; `JSON.stringify` is an uninterpreted parameter
`stringify: JsValue -> string`; the upstream call is a parameter
`upstream: seq<Message> -> Upstream` whose result is `NotOk(status, body)`,
`Ok(data)` (the parsed body) or `Threw` (the fetch or the body parse
rejected). `Handle` returns the reply together with the messages it sent
(`None` when it made no upstream call), so "no upstream call" is a statement
about its result.

Three behaviours of the code are easy to miss:

- A completion of only whitespace yields "…uh", because the code trims before
  applying `|| "…uh"` (index.js:89; `Chat.BlankCompletionFallsBack`).
- A `null` entry among the last ten `history` entries makes `m.role` throw
  (index.js:60), so the request ends in 500 "…uh i forgot" with no upstream
  call (`Chat.MapMessages`, `Chat.BuildMessages`, `Chat.Handle`).
- Of the malformed upstream payloads, only one shape throws: a first-choice
  `content` that is an object with a non-null `trim` member, which
  `content?.trim?.()` then calls as a function (index.js:89). Every other
  missing or non-string content gives 200 "…uh" (`Chat.TrimCall`,
  `Chat.ReplyText`).

## Model

| member | source | states |
|---|---|---|
| `JsValues.Truthy` | index.js:46 | the falsy values are exactly `undefined`, `null`, `false`, `0` and `""`; every object and array, even an empty one, is truthy |
| `JsValues.Or` | index.js:59 | `a \|\| b` is one of its operands, is `a` when `a` is truthy, and is truthy exactly when either operand is |
| `JsValues.Member` | index.js:44 | a named property read on a non-nullish value is `undefined` unless the value is an object holding that key, and then it is that key's value |
| `JsValues.GetProperty` | index.js:60 | `v.key` throws exactly when `v` is `null` or `undefined`, and otherwise reads the property |
| `JsValues.OptMember` | index.js:89 | `v?.key` is `undefined` for a nullish `v` and otherwise the value `v.key` reads without throwing |
| `JsValues.OptIndex0` | index.js:89 | `v?.[0]` is the first element of a non-empty array, the first character of a non-empty string, an object's "0" property, and `undefined` in every other case |
| `JsString.Slice` | index.js:54 | `s.slice(start, end)` has max(0, to - from) elements, element i being `s[from + i]`, where from and to are the positions resolved from the end for negative arguments and clamped to the length |
| `JsString.SliceLast` | index.js:54 | `s.slice(-k)` with k > 0 is exactly the last min(k, \|s\|) elements of `s`, in order |
| `JsString.SlicePrefix` | index.js:59 | `s.slice(0, n)` is exactly the first min(n, \|s\|) elements of `s` |
| `JsString.SkipLeading` | index.js:89 | the first position at or after `i` holding a non-whitespace character (the length when none), with only whitespace skipped |
| `JsString.SkipTrailing` | index.js:89 | the position after the last non-whitespace character before `j` and not before `lo` (`lo` when none), with only whitespace skipped |
| `JsString.TrimBounds` | index.js:89 | `trim` keeps `s[a..b]`: all of `s[..a]` and `s[b..]` is whitespace, and a non-empty kept part starts and ends with a non-whitespace character |
| `JsString.Trim` | index.js:89 | the trimmed string is no longer than the input and is empty or starts and ends with a non-whitespace character |
| `JsString.TrimEmptyIff` | index.js:89 | `trim` gives the empty string if and only if every character of the input is whitespace |
| `JsString.TrimIdempotent` | index.js:89 | trimming an already trimmed string changes nothing |
| `Chat.Validate` | index.js:44-51 | 500 "…uh i forgot" exactly when the key is absent or empty (checked first); 400 "…uh" exactly when the key is set and `userText` of `body \|\| {}` is not a string; otherwise the request goes on with the body's `userText`, `facts` and `history` |
| `Chat.HistoryWindow` | index.js:54 | for an array, the last min(10, n) of its n entries in their original order; for anything else, no entries |
| `Chat.ToMessage` | index.js:60 | the map callback throws exactly for a nullish entry, and otherwise builds a message from the entry's `role` and `content` |
| `Chat.MapMessages` | index.js:60 | the map completes exactly when no window entry is null or undefined, and then yields one message per entry carrying that entry's `role` and `content` unchanged |
| `Chat.SerializedFacts` | index.js:59 | `JSON.stringify(facts \|\| {})` serialises `facts` itself when it is truthy and `{}` when it is falsy |
| `Chat.FactsSummary` | index.js:59 | the facts content is "Player facts: " followed by the first min(500, n) characters of the n-character serialisation of `facts \|\| {}`; a falsy `facts` is serialised as `{}`; the prefix lies outside the 500-character cut |
| `Chat.BuildMessages` | index.js:57-62 | the list has 3 + \|window\| messages: the persona as `system`, the facts summary as `user`, each window entry's role and content in order, and `userText` as the last `user` message; it throws exactly when a window entry is nullish |
| `Chat.FirstChoiceContent` | index.js:89 | `data?.choices?.[0]?.message?.content` is the `content` of the `message` of the first element of a non-empty `choices` array; it is `undefined` when `data` is not an object or `choices` is missing, null, a boolean, a number or empty |
| `Chat.TrimCall` | index.js:89 | `content?.trim?.()` is the trimmed string for a string, `undefined` for any other value without a `trim` member or with a nullish one, and throws exactly for an object whose `trim` member is not nullish |
| `Chat.ReplyText` | index.js:89-90 | for the first choice's `content` (`data?.choices?.[0]?.message?.content`), the reply is the first min(240, n) characters of the n-character trimmed content when that is non-empty, "…uh" otherwise, never longer than 240, and throws exactly when `trim` is uncallable |
| `Chat.Finish` | index.js:82-95 | a non-ok response or a rejection gives 500 "…uh i forgot" whatever its body; an ok response gives 200 with the reply text exactly when reading the reply does not throw; every non-200 result is 500 "…uh i forgot" |
| `Chat.Handle` | index.js:42-96 | an upstream call is made exactly when validation passes and the messages build, with exactly the built messages, and the reply is then `Finish` of the upstream outcome |
| `Chat.MissingKeyIsServerError` | index.js:46-48 | with no key (or an empty one), whatever the body, the reply is 500 "…uh i forgot" and no upstream call is made |
| `Chat.BadUserTextIsClientError` | index.js:49-51 | with a key and a `userText` that is not a string, the reply is 400 "…uh" and no upstream call is made |
| `Chat.ResponsesAreTotal` | index.js:42-96 | every request gets a reply with a text; its status is 200, 400 or 500; 500 carries "…uh i forgot", 400 carries "…uh" and happens exactly for a bad `userText` with a key set; a 200 text is at most 240 characters and follows an upstream call |
| `Chat.SentMessagesShape` | index.js:54-62 | the sent list is the persona, the facts summary, the role and content of the last min(10, n) entries of an n-entry `history` array (none for a non-array), and `userText`, in that order, 3 + min(10, n) messages in all |
| `Chat.ScenarioHello` | index.js:42-96 | with a key, `userText` "hello", no facts and no history, an upstream whose first choice says "hi there" gives 200 "hi there" |
| `Chat.HiThereReply` | index.js:88-90 | an ok upstream body `{choices: [{message: {content: "hi there"}}]}` gives 200 "hi there" |
| `Chat.ScenarioNoChoices` | index.js:89-90 | an ok upstream body with an empty `choices` array gives 200 "…uh" |
| `Chat.BlankCompletionFallsBack` | index.js:89 | an ok upstream body whose first-choice content is only whitespace gives 200 "…uh" |

## Left out

- Express setup, CORS, JSON body parsing and server start-up (index.js:3-10, 99-101): framework configuration and I/O. The parsed body is the input `body`.
- The `/` and `/diag` routes (index.js:30-39): they read configuration and contain no logic.
- The `fetch` request itself (endpoint, headers, model name, generation parameters; index.js:65-80): a network client. Its result is the `upstream` parameter.
- Reading the upstream error body and `console.error` logging (index.js:83-84, 93): diagnostics with no effect on the reply.
- `JSON.stringify` (index.js:59): a library function; the model leaves it uninterpreted as `stringify`.
- `Chat.SerializedFacts`, `Chat.FactsSummary`: objects are modelled as maps (`JsValues.Obj`), so the order of an object's properties is not kept; two `facts` objects with the same properties in a different order serialise to different text in the source but to the same text in the model, so `stringify` stands for a serialisation in one fixed key order. Duplicate keys in the parsed JSON are likewise already resolved in the map.
- The persona text (index.js:18-27): an opaque `Config.persona` string; nothing is proved about its wording.
- String lengths: JavaScript measures `slice` positions in UTF-16 code units, while a Dafny `string` counts Unicode scalar values, so the 500- and 240-character cuts agree with the source only for text in the Basic Multilingual Plane.
- JavaScript values that a JSON body cannot hold (NaN, BigInt, functions, symbols) are not in `JsValue`; in particular `content.trim` is never a function other than `String.prototype.trim`.
- The asynchronous, event-loop execution of the handler: each request is handled independently and shares no mutable state, so it is modelled as one function call.
