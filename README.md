# WhatsApp sender service: session flags, send pipeline and dashboard page

A Dafny model of the core of a small Node.js service that drives a WhatsApp
Web client. A user logs in by scanning a QR code on a dashboard page. The
page then submits a list of phone numbers and one message, and the server
sends that message to every registered number, pausing a random time after
each one.

The model covers three pieces of logic.

1. **Session flags** (`index.js`). The server keeps three module-level
   variables: `currentQR`, `isAuthenticated` and `isReady`. The adapter's
   events `qr`, `ready`, `authenticated`, `auth_failure` and `disconnected`
   change them. So do the three manual polls of `getState()` and the
   failed-logout fallback. The three polls are the 30-second "stuck at
   100%" timer, the check on a new socket connection, and `check_state`.
   `loading_screen` changes no flag; it only relays the progress and may
   arm the timer.
   - `session.dfy` (module `Session`) gives the meaning of each handler as
     one function, `Step`. It maps the old flags and an event to the new
     flags and the list of effects. An effect is one of: a broadcast, a
     reply to one socket, arming the timer, destroying the adapter, or
     creating a new one.
   - `server.dfy` (module `Server`) holds the same handlers as methods of
     the class `SessionServer`. They assign its three fields in place, and
     each one is proved equal to `Step`.
2. **Send pipeline** (`index.js`).
   - `api.dfy` (module `Api`) models the `/api/send` guard chain and the
     reply.
   - `sender.dfy` (module `Sender`) models the `@c.us` address
     normalisation and the `sendMessages` loop. The adapter is an oracle:
     one `Answers` per number says what `isRegisteredUser` and
     `sendMessage` do and which integer the random draw picks. The loop
     records a trace of adapter calls and pauses.
3. **Dashboard page** (`public/script.js`).
   - `recipients.dfy` (module `Recipients`) parses the numbers field. It
     splits on runs of newlines and commas, trims with JavaScript's
     whitespace set, and drops empty entries.
   - `page.dfy` (module `Page`) holds the class `Dashboard`. Its fields are
     the display state that the socket handlers and the submit handler set
     in place.

`js_values.dfy` (module `JsValues`) models the JavaScript values the server
receives and their truthiness.

Behaviour of the code worth knowing, each item stated by a lemma:
- The server keeps three independent flags, not one phase value.
  `auth_failure` clears `isAuthenticated` but leaves `isReady` set, so the
  flags can reach a "ready but not authenticated" state. See
  `AuthFailureBreaksCoherence`.
- A pause follows every iteration that did not throw, the last one
  included. A single unregistered number still costs one pause. See
  `SingleNumberStillPauses`.
- `sendMessages` returns no per-number report. The route answers 200 once
  the loop finishes, even if every number failed. The per-number `Result`
  in the model is what the source writes to its log.
- A new observer is sent the QR only when `currentQR` is truthy. An empty
  challenge string sends nothing.
- When the on-connect poll forces the ready state, the new observer hears
  `ready` twice: once from the broadcast and once from its own reply. See
  `ConnectBroadcastsOnlyForcedReady`.
- The failed-logout fallback awaits `destroy()`. If that rejects, no new
  adapter is created. The `disconnected` handler does not await it and
  always creates one. See `ResetPathsAgree`.
- The page reports success only for an ok response whose JSON body is not
  `null`. Reading `result.message` of `null` throws, and the catch block
  reports an error.
- `number.includes(...)` runs outside the per-number `try`. An element of
  `numbers` that is not a string therefore ends the loop, and the route
  answers 500.

## Model

| member | source | states |
|---|---|---|
| `Session.Step` | index.js:42-189 | Every handler keeps the invariant `isReady ⇒ isAuthenticated`. The one exception is `auth_failure` while ready. Only the `qr` handler, `ready`, or a full reset changes the stored challenge |
| `Session.AuthFailureBreaksCoherence` | index.js:70-74 | On any ready, authenticated session, `auth_failure` clears only `isAuthenticated`. The result is "ready but not authenticated", which breaks the invariant |
| `Session.QrStartsNewChallenge` | index.js:42-54 | `qr` stores the challenge and clears both flags, whatever the state before. It broadcasts only when the image encoder succeeded |
| `Session.ReadyIsIdempotent` | index.js:56-62 | `ready` clears the challenge and sets both flags. Applying it twice gives the same state and effects as applying it once |
| `Session.ResetPathsAgree` | index.js:106-171 | `disconnected` and a failed logout both reset to the start-up values. Both broadcast `disconnected` (with `forced_logout` for the logout) and then destroy the adapter. `disconnected` always creates a new adapter. The fallback creates one only when its awaited `destroy()` resolved. A successful logout changes nothing |
| `Session.PollsForceReadyOnlyWhenConnected` | index.js:82-189 | The three manual polls change the flags only when the polled state is `CONNECTED`, and then only by setting both flags. A failed poll changes nothing. A repeated poll is idempotent |
| `Session.ConnectSyncByPriority` | index.js:123-152 | A new socket gets at most one sync message, by priority: ready, then authenticated, then the QR image, then nothing. A socket that connects while the session is ready gets `ready` and nothing else |
| `Session.ConnectBroadcastsOnlyForcedReady` | index.js:127-152 | The only broadcast on a new connection is the `ready` of a poll that forced the ready state. The observer then gets `ready` twice. Without a forced ready, every effect is a reply to that observer |
| `Session.LoadingOnlyArmsTimer` | index.js:76-100 | `loading_screen` never changes the flags. It arms the timer exactly for the number 100 or the string `'100'` |
| `Server.SessionServer.constructor` | index.js:17-20 | The process starts with no challenge and both flags false |
| `Server.SessionServer.OnQr` | index.js:42-54 | The new fields and the effects are those of `Step` for `qr` |
| `Server.SessionServer.OnReady` | index.js:56-62 | The same as `Step` for `ready` |
| `Server.SessionServer.OnAuthenticated` | index.js:64-68 | The same as `Step` for `authenticated` |
| `Server.SessionServer.OnAuthFailure` | index.js:70-74 | The same as `Step` for `auth_failure` |
| `Server.SessionServer.OnLoadingScreen` | index.js:76-81 | The same as `Step` for `loading_screen` |
| `Server.SessionServer.OnStuckTimer` | index.js:82-98 | The same as `Step` when the 30-second timer fires |
| `Server.SessionServer.OnDisconnected` | index.js:106-116 | The same as `Step` for `disconnected` |
| `Server.SessionServer.OnConnection` | index.js:123-152 | The same as `Step` for a new socket connection |
| `Server.SessionServer.OnLogout` | index.js:156-171 | The same as `Step` for `logout` |
| `Server.SessionServer.OnCheckState` | index.js:174-189 | The same as `Step` for `check_state` |
| `Sender.IncludesIsOccurrence` | index.js:223 | The `includes` test agrees with "the suffix occurs at some index" |
| `Sender.Format` | index.js:223 | The address always contains `@c.us`. It is the number itself exactly when the number already contains `@c.us`; otherwise it is the number with `@c.us` appended |
| `Sender.FormatIsIdempotent` | index.js:223 | Normalising an address twice is the same as normalising it once |
| `Sender.FormatKeepsInnerSuffix` | index.js:223 | The test is containment, not a suffix test. `1@c.us2` is left unchanged |
| `Sender.VisitNumber` | index.js:223-241 | One iteration always starts with the query for the formatted address. It fails exactly when the query throws, or when the send to a registered number throws |
| `Sender.Process` | index.js:219-244 | One result per number reached. The run is cut short exactly when it reaches an element that is not a string, and it stops at that element |
| `Sender.SendOne` | index.js:225-241 | One iteration's calls and result are those of the per-number specification `VisitNumber` |
| `Sender.SendMessages` | index.js:219-244 | The loop's trace, per-number results and early stop are exactly those of `Process` |
| `Sender.VisitShape` | index.js:225-241 | One iteration queries the normalised address exactly once. It sends exactly when the query answered true. It pauses, for `minDelay + draw`, exactly when nothing threw |
| `Sender.VisitSendsFollowChecks` | index.js:226-229 | Within one iteration, a send comes right after the query for the same address and carries the request's message |
| `Sender.ResultsFollowNumbers` | index.js:222-242 | Numbers are processed in input order. Number k's result depends only on its own answers. Only a non-string element stops the loop, and it stops there |
| `Sender.EachNumberCheckedOnceInOrder` | index.js:222-226 | The k-th registration query is for the normalised k-th number. There is one query per processed number |
| `Sender.SendsOnlyToRegistered` | index.js:226-233 | The sends go, in order, exactly to the numbers whose query answered true |
| `Sender.SendsFollowChecksInRun` | index.js:226-229 | In the whole trace, every send comes right after the query for the same address and carries the request's message |
| `Sender.PausesAfterEachSuccess` | index.js:235-241 | The number of pauses is the number of iterations that did not throw, the last one included. Every pause lies in `[minDelay, maxDelay]` |
| `Sender.SingleNumberStillPauses` | index.js:235-237 | For any single unregistered number, any draw and any `minDelay`, the trace is the query followed by one pause of `minDelay + draw` |
| `Api.StatusCode` | index.js:193-216 | Status 503 exactly when the client is not ready, 400 exactly for the two input errors, 200 exactly for a finished loop and 500 exactly when the loop rejected |
| `Api.ValidNumbers` | index.js:199 | The numbers guard passes exactly for a non-empty array. Arrays are always truthy, so the `!numbers` test adds nothing |
| `Api.PostSend` | index.js:192-217 | Not ready gives 503 before the body is read. A missing, non-array or empty `numbers` gives 400. A falsy `message` gives 400. None of these three calls the adapter. Otherwise the trace is that of the loop, with 200 if the loop finished and 500 if it stopped early |
| `Api.GuardedRequestReachesAdapter` | index.js:209-226 | A request that passes the guards and whose first number is a string reaches the adapter |
| `Recipients.SplitRuns` | public/script.js:127 | Splitting always yields at least one piece, and at most one more piece than the text has characters |
| `Recipients.PiecesHaveNoSeparator` | public/script.js:127 | No piece of the split contains a comma or a newline |
| `Recipients.Trim` | public/script.js:127 | The trimmed text is never longer than the input, and it has no whitespace at either end |
| `Recipients.TrimSpec` | public/script.js:127 | Trimming keeps a slice of the input. It removes only whitespace, from both ends, and leaves no whitespace at either end |
| `Recipients.ParseNumbers` | public/script.js:127 | Every parsed number is non-empty, has no whitespace at either end, and contains no comma or newline |
| `Recipients.ParseSkipsSeparator` | public/script.js:127 | A leading comma or newline does not change the parse |
| `Recipients.ParseSplitsAtSeparator` | public/script.js:127 | Parsing `a`, a separator, then `b` gives the parse of `a` followed by the parse of `b`. Order is kept, and runs of separators add no entries |
| `Recipients.ParseSingleNumber` | public/script.js:127 | A field with no separator parses to its trimmed text, or to nothing when that is empty |
| `Page.StringPercentArmsOnlyServerTimer` | public/script.js:48 | The page arms its fallback only for the number 100. The server also arms its timer for the string `'100'`, and the page does not |
| `Page.Dashboard.constructor` | public/script.js:4-11 | The sections start as the markup sets them; everything else starts unset |
| `Page.Dashboard.ShowLogin` | public/script.js:80-84 | Only the login section is shown, and nothing outside the sections changes |
| `Page.Dashboard.ShowInitializing` | public/script.js:86-90 | Only the initializing section is shown, and nothing outside the sections changes |
| `Page.Dashboard.ShowDashboard` | public/script.js:92-96 | Only the dashboard section is shown, and nothing outside the sections changes |
| `Page.ShowingIsExclusive` | public/script.js:80-96 | Showing one view means exactly one section is displayed, and no other view counts as shown |
| `Page.Dashboard.OnQrCode` | public/script.js:18-24 | `qr_code` gives the login view, with the new image shown and the placeholder hidden |
| `Page.Dashboard.OnReady` | public/script.js:26-29 | `ready` gives the dashboard view |
| `Page.Dashboard.OnAuthenticated` | public/script.js:31-38 | `authenticated` gives the initializing view |
| `Page.Dashboard.OnDisconnected` | public/script.js:66-76 | `disconnected` gives the login view, with the image hidden and the placeholder shown |
| `Page.Dashboard.OnLoading` | public/script.js:40-56 | The fallback timer is armed exactly when `percent` is the number 100 |
| `Page.Dashboard.OnFallbackTimer` | public/script.js:49-54 | The check-state button is revealed exactly when the dashboard is not shown when the timer fires. No other field changes |
| `Page.Dashboard.Submit` | public/script.js:115-157 | An empty parse ends in `status error` with no request. Otherwise the parsed numbers and the message are posted. The status ends in `status success` exactly when the response is ok and its body parses as JSON other than `null`. Otherwise it ends in `status error`. The sections, the QR image and the check-state button are unchanged |

## Left out

- The `whatsapp-web.js` client, `LocalAuth`, the browser options, and `client.initialize()` (index.js:22-40, 118). These are a foreign library. `getState`, `isRegisteredUser`, `sendMessage` and `logout` appear only as oracle inputs.
- `client.destroy()` and `initializeClient()` (index.js:114-115, 168-169) appear only as the `DestroyClient` and `CreateClient` effects. In the `disconnected` handler, `destroy()` is not awaited, so the old and the new adapter can overlap. That, and the "only one live adapter" question, are concurrency, which is not modelled.
- Handlers firing while `sendMessages` is in flight, and every other async interleaving. The model runs each handler and each request as one atomic step.
- `QRCode.toDataURL` (index.js:49, 147): its result is a parameter, and None stands for its error callback.
- `Math.random` (index.js:235): it is replaced by an integer draw in `[0, maxDelay - minDelay]`. `setTimeout` delays are not modelled; each timer's expiry is an explicit event or method.
- The `change_state` handler, `console` output, `alert` and `confirm` are not modelled. The texts that `textContent` writes are not modelled either: the status texts on the page and the button caption timer. Only one part of them matters to the model. Building the status text reads `result.message` or `result.error`, which throws on a `null` body, and `Page.Dashboard.Submit` models that throw.
- The check-state and logout button handlers (public/script.js:99-112): they only emit a socket event.
- `status_update` on the page (public/script.js:58-64): it only writes text.
- express and socket.io transport, `express.static`, `server.listen`, `fetch` and `JSON.stringify`. The JSON error and success texts of the responses are not modelled either.
- `config.js`: `minDelay` and the draw are parameters. `PausesAfterEachSuccess` assumes each draw lies in `[0, maxDelay - minDelay]`.
- The body parser is not modelled. A body that is not a JSON object is modelled as an object whose `numbers` and `message` are both `Undefined`.
- JSON numbers are integers in the model; fractions and NaN are not modelled.
- An element of `numbers` that is itself an array has an `includes` method in JavaScript. The model treats every non-string element as throwing.
