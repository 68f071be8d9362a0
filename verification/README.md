# Chat relay: presence list, bot retry loop and chat page transitions

A Dafny model of the sequential logic inside a small socket.io group chat.
The relay (`server/server.js`) keeps a process-wide presence list
`onlineUsers`, broadcasts chat messages under the sender's name or
`'Anonymous'`, forwards `'gemini bot query'` events to a text-generation API
with exponential backoff, and removes a socket's entries when it
disconnects. The page (`client/src/App.jsx`) trims and routes what the user
types: blank input is ignored, `@Gemini …` goes to the bot when the bot is
enabled, everything else is broadcast as typed; the relay's broadcasts
append to the history and replace the user list.

Every handler invocation is one atomic step, written as a pure function from
the state before to the state after plus the list of events emitted, in
order:

- `protocol.dfy` — `Protocol`: users, messages, the relay's broadcasts and the
  page's outbound events, the `'Anonymous'` and `'Gemini Bot'` names.
- `text.dfy` — `Text`: `trim`, `startsWith` and `substring` on strings of
  Unicode characters, with whitespace as the ECMAScript WhiteSpace and
  LineTerminator characters.
- `presence.dfy` — `Presence`: the `onlineUsers` sequence, `push` and `filter`.
- `server.dfy` — `Server`: the `'set username'`, `'chat message'` and
  `'disconnect'` handlers.
- `backoff.dfy` — `Backoff`: the wait `2^n * 1000` ms after the n-th counted failure.
- `botquery.dfy` — `BotQuery`: the `'gemini bot query'` handler. Each pass of the
  loop body sees the next entry of a finite sequence of request outcomes
  (`HttpError`, `Throws`, `OkNoCandidates`, `OkText(t)`); each wait is an entry
  appended to a delay log. `Describes` states the handler's behaviour
  without running the loop, `Run` is the loop as a recursive function, and
  `HandleBotQuery` is the loop as the source writes it (`while`, `break`,
  `retries++`).
- `client.dfy` — `Client`: the page's state and its handlers.
- `session.dfy` — `Session`: a page and the relay together.

Behaviour of the code worth knowing:

- Every `'set username'` appends an entry, so a second one from the same
  socket leaves two entries for it (server/server.js:27). The relay accepts
  any name, the empty one included; only the page refuses blank names
  (client/src/App.jsx:46).
- The first wait is 2 s: `Math.pow(2, retries)` is taken after the
  increment (server/server.js:80-81).
- A wait follows the fifth failure too, just before the loop ends
  (server/server.js:80-83).
- An `ok` response for which the condition at server/server.js:69-71 is
  false without throwing neither increments `retries` nor waits, and the
  loop requests again with no bound (server/server.js:67-75).
  `BotQuery.Completion.Unresolved` is the model's name for a loop that is
  still running when the given outcomes run out. A response whose shape
  makes lines 69-72 throw (a `null` body, a `null` first candidate, a `null`
  first part) lands in the `catch` at server/server.js:79-80 and is a
  `Throws` outcome.
- `'disconnect'` broadcasts exactly when the socket has an entry in the list
  (server/server.js:96-99).

## Model

| member | source | states |
|---|---|---|
| Text.Trim | client/src/App.jsx:46-47 | `trim()` leaves no whitespace at either end, and gives the empty string exactly when the input is all whitespace |
| Text.TrimStart | client/src/App.jsx:46 | removes exactly a whitespace prefix, leaving a suffix that starts with non-whitespace or is empty |
| Text.TrimEnd | client/src/App.jsx:46 | removes exactly a whitespace suffix, leaving a prefix that ends with non-whitespace or is empty |
| Text.TrimOfPadded | client/src/App.jsx:46-47 | `trim` of whitespace + core + whitespace is the core whenever the core has no whitespace at its ends: trimming is exactly stripping both margins |
| Text.TrimIdempotent | client/src/App.jsx:57 | trimming twice gives what trimming once gives |
| Text.TrimIgnoresTrailingWhitespace | client/src/App.jsx:57 | appending whitespace does not change the trimmed result |
| Text.TrimStartOfWhitespacePrefix | client/src/App.jsx:55 | prepending whitespace does not change what remains after leading whitespace is removed |
| Text.TrimEndOfWhitespaceSuffix | client/src/App.jsx:57 | appending whitespace does not change what remains after trailing whitespace is removed |
| Text.TrimEndKeepsPrefix | client/src/App.jsx:57 | trailing-whitespace removal stops at a non-whitespace character and never reaches into the text before it |
| Text.TrimStartOfAppend | client/src/App.jsx:57 | leading-whitespace removal from text with a non-whitespace character never reaches what is appended after it |
| Text.TrimOfPaddedStart | client/src/App.jsx:55 | a padded string whose core starts with non-whitespace trims to the core less its trailing whitespace |
| Text.TrimAfterTrimEnd | client/src/App.jsx:57 | removing trailing whitespace before trimming changes nothing |
| Text.StartsWith | client/src/App.jsx:55 | `startsWith(p)`: s is at least as long as p and begins with it; its properties are in StartsWithConcat |
| Text.StartsWithConcat | client/src/App.jsx:55 | every `p + t` starts with p, and a string that starts with p is p followed by the rest |
| Text.Substring | client/src/App.jsx:57 | `substring(n)` is the part after the first n characters, and empty when n is past the end |
| Presence.PresentIffSomeEntry | server/server.js:96-97 | a socket counts as present exactly when some index of the list holds an entry of it, which is when `find` returns an entry |
| Presence.Remove | server/server.js:98 | the `filter(u => u.id !== id)` itself; it carries no contract of its own, and its properties are in RemoveCounts, RemoveMembers, RemoveDistributes, RemoveSingle and RemoveAbsent |
| Presence.RemoveCounts | server/server.js:98 | `filter` leaves no entry of the socket, keeps every other socket's entry count, and shrinks the list by the socket's entry count |
| Presence.RemoveMembers | server/server.js:98 | an entry survives `filter` exactly when it was in the list and belongs to another socket |
| Presence.Register | server/server.js:26-27 | `push` adds one `{id, username}` at the end and leaves every earlier entry in place |
| Presence.CountAppend | server/server.js:27 | a socket's entry count over a concatenation is the sum of the counts |
| Presence.RegisterCounts | server/server.js:27 | registering adds exactly one entry of the registering socket, whether or not it already had one, and no entry of any other socket |
| Presence.RemoveDistributes | server/server.js:98 | removal commutes with concatenation, so the surviving entries keep their relative order |
| Presence.RemoveSingle | server/server.js:98 | a single entry survives removal exactly when it belongs to another socket |
| Presence.RemoveAbsent | server/server.js:96-98 | removing a socket with no entry leaves the list unchanged |
| Presence.RegisterFreshKeepsUnique | server/server.js:27 | registering a socket that has no entry keeps the list free of duplicate ids |
| Presence.RegisterTwiceDuplicates | server/server.js:24-27 | registering one socket twice leaves two more entries of it, so the list has a duplicate id |
| Presence.RemoveKeepsUnique | server/server.js:98 | removal keeps a duplicate-free list duplicate-free |
| Server.OnSetUsername | server/server.js:24-32 | sets the socket's name, appends one entry for the socket at the end, leaves earlier entries unchanged, and broadcasts the new list once |
| Server.Sender | server/server.js:36 | the sender is the socket's name when set and non-empty, and `'Anonymous'` when unset or empty; it is never empty |
| Server.OnChatMessage | server/server.js:34-41 | broadcasts exactly one chat message whose text is the payload unchanged and whose sender is `Sender`; list and socket untouched |
| Server.OnDisconnect | server/server.js:95-104 | with an entry present, removes all of the socket's entries, keeps exactly the others, and broadcasts the new list once; with none, changes nothing and broadcasts nothing |
| Server.DisconnectKeepsOrder | server/server.js:98 | the list after a disconnect is the entry-by-entry filter of the list before it, so relative order is kept |
| Server.RegisterTwiceThenDisconnect | server/server.js:24-27 | a socket that registers twice has two entries, and its disconnect restores the list it found |
| Server.AliceBobScenario | server/server.js:24-39 | alice and bob join, alice says "hi" under her name, alice leaves and the list broadcast is `[bob]` |
| Backoff.Pow2 | server/server.js:81 | `Math.pow(2, n)` is at least 1; its exact values for the failure counts that occur are pinned by DelayDoubles and FiveFailureSchedule |
| Backoff.Delay | server/server.js:81 | every wait is at least one second; the exact value (2000 ms, doubling) is stated by DelayDoubles and, per failure, by Schedule |
| Backoff.Schedule | server/server.js:80-83 | the delay log after k counted failures has k entries, the j-th being the wait after failure j |
| Backoff.DelayDoubles | server/server.js:81 | the first wait is 2000 ms and each wait doubles the one before |
| Backoff.DelayIncreasing | server/server.js:81 | waits grow strictly with the failure count |
| Backoff.FiveFailureSchedule | server/server.js:80-83 | the waits after five failures are 2000, 4000, 8000, 16000 and 32000 ms |
| BotQuery.CountFails | server/server.js:79-80 | there are never more counted failures than outcomes |
| BotQuery.Describes | server/server.js:44-93 | the handler's behaviour stated without running the loop: which prefix of the outcomes it consumes, `retries` as the failure count of that prefix (at most 5), the delay log as its schedule, and the single bot broadcast of a finished run; LoopDescribes, Run and DescribesDeterminesRun prove the loop meets it and that it admits only the handler's run |
| BotQuery.Loop | server/server.js:52-85 | the `while` loop as a recursive function in the source's order: test `retries`, request, break on text, repeat on an empty `ok`, count and wait on a throw; its properties are in LoopDescribes, LoopSkipsFailures, NoCandidatesNeverEnd and LoopIgnoresLaterOutcomes |
| BotQuery.LoopStateStep | server/server.js:52-84 | one pass of the loop body that does not break keeps the loop-head state: `retries` counts failures so far, the delay log is their schedule, no text seen |
| BotQuery.LoopDescribes | server/server.js:52-92 | from every loop-head state, the loop ends as `Describes` says |
| BotQuery.Run | server/server.js:44-93 | the handler consumes a prefix of the outcomes; `retries` counts its failures and never exceeds 5; the delay log is their schedule; it stops at the first text (reply is that text), at the fifth failure (reply is the apology), or still running when outcomes run out (nothing broadcast); a finished run broadcasts exactly one `'Gemini Bot'` message |
| BotQuery.HandleBotQuery | server/server.js:46-92 | the `while`/`break`/`retries++` loop computes the same run as `Run`, so everything `Run` states |
| BotQuery.LoopSkipsFailures | server/server.js:79-83 | m failures in a row, none beyond the fifth, add m to `retries` and the next m waits to the log |
| BotQuery.AllFailuresExhaust | server/server.js:46-48 | when every attempt throws, exactly 5 requests are made, `retries` is 5, the waits are 2000, 4000, 8000, 16000, 32000 ms including one after the last failure, and the apology is broadcast |
| BotQuery.SuccessOnAttempt | server/server.js:67-73 | when attempts 1..k-1 throw and attempt k (k at most 5) has text, that text is broadcast, k requests are made, and exactly the k-1 waits 2000 … 2^(k-1)·1000 ms were logged |
| BotQuery.FailTwiceThenAnswer | server/server.js:67-92 | two failures then "42" broadcast "42" from the bot after waits of 2 s and 4 s, and no wait after the success |
| BotQuery.NoCandidatesNeverEnd | server/server.js:67-75 | `ok` responses without candidates are neither counted nor waited for, from any point with no failures yet |
| BotQuery.NoCandidatesRun | server/server.js:67-75 | fed only `ok` responses without candidates, the handler has not finished after any number of them, with `retries` 0, no waits and nothing broadcast |
| BotQuery.LoopIgnoresLaterOutcomes | server/server.js:73 | a loop that finished from some state is unaffected by outcomes past those it consumed |
| BotQuery.CompletedRunIgnoresLaterOutcomes | server/server.js:52-73 | once the handler has finished, responses to requests it never made do not matter |
| BotQuery.CountFailsMonotone | server/server.js:80 | the failure count of a longer prefix is never smaller |
| BotQuery.DescribedAttemptsNotFewer | server/server.js:52-85 | a run that satisfies `Describes` makes no fewer requests than any other run that does |
| BotQuery.DescribesDeterminesRun | server/server.js:44-93 | `Describes` admits exactly one run for given outcomes, the handler's |
| Client.PromptStartIsPrefixLength | client/src/App.jsx:55-57 | the 7 characters `substring` drops are exactly the length of `'@Gemini'` |
| Client.JoinFromInitial | client/src/App.jsx:8-15 | the `useState` defaults: not joined, nothing typed, no history, no users, bot off and not thinking; sending from there does nothing, and " alice " typed as the name is sent as "alice" |
| Client.HandleSetUsername | client/src/App.jsx:44-50 | a blank name sends nothing and changes nothing; otherwise exactly one `'set username'` with a non-empty trimmed name is sent and the join form is left |
| Client.SetUsernameSendsCore | client/src/App.jsx:46-47 | the name sent is the typed name without its whitespace margins |
| Client.IsBotQuery | client/src/App.jsx:55 | the routing condition: the bot is enabled and the trimmed message starts with `'@Gemini'`; SendMessage states what each side of it sends |
| Client.SendMessage | client/src/App.jsx:52-64 | blank input sends nothing and stays; a bot query sends one `'gemini bot query'` with a trimmed prompt, no chat message, and sets the bot thinking; any other input sends the typed text untrimmed; a sent input is cleared |
| Client.TrimPrefixedMessage | client/src/App.jsx:55 | a whitespace-padded `'@Gemini'` message trims to the prefix and the following text less its trailing whitespace |
| Client.PromptAfterPrefix | client/src/App.jsx:55-57 | the trimmed message starts with the prefix, and dropping 7 characters and trimming again leaves the text after the prefix without its margins |
| Client.BotQueryPrompt | client/src/App.jsx:55-58 | with the bot enabled, `'@Gemini'` padded by whitespace sends exactly the text after the prefix without its whitespace margins |
| Client.DisabledBotSendsChat | client/src/App.jsx:59-60 | with the bot disabled, a message starting with `'@Gemini'` is sent as an ordinary chat message, as typed |
| Client.OnChatMessage | client/src/App.jsx:18-23 | an incoming message is appended after all earlier ones; a `'Gemini Bot'` message clears the thinking flag, any other leaves it; nothing else changes |
| Client.OnUserList | client/src/App.jsx:25-27 | an incoming list replaces the users wholesale; nothing else changes |
| Client.ToggleBot | client/src/App.jsx:103 | the toggle flips whether the bot is enabled and changes nothing else |
| Client.EditUsername | client/src/App.jsx:76 | typing sets the name input and changes nothing else |
| Client.EditMessage | client/src/App.jsx:166 | typing sets the message input and changes nothing else |
| Client.Deliver | client/src/App.jsx:17-27 | broadcasts delivered to the page never change its inputs, its join flag or its bot toggle |
| Session.DeliverOne | client/src/App.jsx:18-19 | delivering one chat broadcast is one run of the `'chat message'` listener |
| Session.BotRoundTrip | client/src/App.jsx:18-22 | after a bot query the page is thinking, and delivering the relay's broadcasts ends the thinking exactly when the handler finished, adding one bot message |
| Session.JoinRoundTrip | client/src/App.jsx:46-47 | the trimmed name the page sends is registered for its socket, and the list broadcast back becomes the page's user list |
| Session.ChatRoundTrip | client/src/App.jsx:59-60 | an ordinary message comes back to the page untrimmed, under the sender's name, at the end of the history |

## Left out

- The transport and hosting: the socket.io connection, Express, static files, CORS and `server.listen` (server/server.js:1-17, 108-110). Each `io.emit` is one entry in a handler's list of broadcasts; delivery to every connection is not modelled.
- The HTTP request and JSON parsing: the API URL, key, request payload, `fetch` and `response.json()` (server/server.js:49-66). Each request is an abstract outcome; a rejected `response.json()` is a `Throws` outcome, and so is an `ok` body whose shape makes server/server.js:69-72 throw (`null` body, `null` first candidate, `null` first part).
- BotQuery.Run: an `ok` response whose first part has no `text` field makes the source broadcast `undefined`; the model's `OkText` always carries a string, because text payloads are strings throughout the model.
- Timers and interleaving: `setTimeout` is an appended delay-log entry, and each handler invocation is one atomic step. Other sockets' events arriving while a bot query waits are not modelled.
- `Math.pow` works in floating point; for the counts up to 5 that occur it is exact, so the delay is an integer.
- The unbounded loop on `ok` responses without candidates is modelled up to the outcomes given; `Unresolved` marks a loop that would request again.
- Payload types: the relay treats every payload as a string; a non-string `username` or message payload from a misbehaving client is not modelled.
- Text: a character is a Unicode scalar value, while JavaScript strings are UTF-16 code units. Lone surrogates cannot be written, and `substring(7)` counts the seven ASCII characters of `'@Gemini'` the same either way.
- The page's rendering: JSX markup, CSS classes, icons, `scrollIntoView`, the `'disconnect'` listener (which only logs), listener cleanup and `preventDefault` (client/src/App.jsx:29-42, 66-182 apart from the toggle and the two inputs).
- All `console.log` and `console.error` calls.
