# Direct-message client of mgkid3310/front, in Dafny

This project models the client-side core of a Next.js front end. Users sign
in and chat with a character profile. Administrators manage universes,
worlds, characters, lives and profiles, and can watch the thread between
any two profiles.

The model covers:

- **The event-stream reader** behind `dmAPI.createMessageStream` (`Stream`, with `Strings`).
  - Text arrives in chunks and is cut on `'\n'`.
  - The unterminated rest is carried over in a buffer.
  - Every complete line that starts with `data: ` is decoded and handed to the subscriber.
  - This is a narrowed form of the `text/event-stream` format of the WHATWG HTML Living Standard, section 9.2. It differs in three ways: only `'\n'` ends a line, the field must be exactly `data: ` (space included), and each data line is dispatched by itself rather than at a blank line.
- **The HTTP client's pure parts** (`Api`): the request interceptor that attaches `Authorization: Bearer <token>`, the stream request's headers, the history query, and the error-message fallback chain.
- **The thread reducer** shared by the DM page and the message debugger (`Thread`). It merges incoming messages by uid and finds the character's last message.
- **The DM page** (`Dm`):
  - the payload handler with its typing flag;
  - the send protocol: guard, trim, optimistic clear, append or restore;
  - the typing indicator, throttled to one call per 1000 ms.
- **The admin message debugger's connection state machine** (`Debugger`).
- **The auth store**, which keeps `access_token` in browser storage in step with its fields (`Auth`).
- **The admin route guard** (`Middleware`).
- **The admin pages' lookups, world aggregation and loading flags** (`Lookup`, `LifeAdmin`, `ProfileAdmin`).

How the model is built:

- Network calls are not performed. Their outcomes (`Outcome.Resolved(value)` or `Outcome.Rejected`) are inputs.
- Where a handler's state between its request and the response matters, the handler is split in two. A `Begin…` method runs up to the `await` and returns the request. A `Finish…` method is given the outcome. `LifeAdmin.LifePage.LoadMetadata` and `Dm.DmPage.SendTypingIndicator` are not split; see "Left out".
- `JSON.parse` is the parameter `parse: string -> Option<StreamEvent>`. `None` stands for a payload it throws on.
- The clock (`Date.now()`) and the character's profile uid are parameters.
- Browser storage is a `map<string, string>`.

Some behaviour of the code that a reader might not expect:

- The client has no token refresh and no retry on 401. The interceptor only attaches a header.
- The stream is opened once and never reconnects.
- An empty `typing_ref` gets no special treatment: it is compared with message uids like any other string.
- The DM page's history load and its stream are started by two independent effects. A history load that finishes after stream payloads replaces the list, including anything the stream merged.
- The page's `isTyping` flag is cleared by a non-empty batch. A string `typing_ref` is then matched against the character's last message in the list after that batch.

The model also proves some consequences of the code as written:

- The message the send path appends is not checked against the list (`Thread.AppendCanDuplicate`). If the stream already delivered that message, its uid appears twice.
- The interceptor replaces an `Authorization` header the caller set itself (`Api.Intercept`).
- The uid filter consults only the list as it was before the batch. A batch that carries a new uid twice appends it twice (`Thread.BatchCanDuplicate`).
- A stream the server ends (`done`, src/lib/api.ts:128) stops without calling `onError`: `Stream.EventStream.OnRead` on `Done` ends in phase `Ended` with no error call. The message debugger therefore stays connected after the server closes its stream.

## Model

| member | source | states |
|---|---|---|
| Strings.Take | src/app/admin/life/page.tsx:106 | `slice(0, n)` keeps the first `min(n, length)` characters and is a prefix of the input |
| Strings.SplitLines | src/lib/api.ts:131 | `split('\n')` gives at least one piece and no piece contains `'\n'` |
| Strings.JoinSplitLines | src/lib/api.ts:131 | joining the pieces of a split with `'\n'` gives back the text |
| Strings.SplitJoinLines | src/lib/api.ts:131 | splitting newline-free pieces joined by `'\n'` gives back the pieces |
| Strings.SplitTerminated | src/lib/api.ts:130-132 | a text is its complete pieces, each followed by `'\n'`, then its last piece |
| Strings.SplitAppend | src/lib/api.ts:130-132 | appending text keeps the complete pieces and re-splits only the last piece together with the new text |
| Strings.IsWhitespace | src/app/dm/page.tsx:163 | the characters `trim()` removes include space, tab, `'\n'` and `'\r'`, and no visible ASCII character |
| Strings.TrimStart | src/app/dm/page.tsx:163-165 | the result is a suffix of the input, everything dropped is whitespace, and the result does not start with whitespace |
| Strings.TrimEnd | src/app/dm/page.tsx:163-165 | the result is a prefix of the input, everything dropped is whitespace, and the result does not end with whitespace |
| Strings.StartsWith | src/lib/api.ts:135 | `startsWith(p)` holds iff `p` is no longer than the text and matches it character by character |
| Strings.Trim | src/app/dm/page.tsx:163-165 | `trim()` returns a contiguous part of the input, starting where `trimStart()` starts |
| Strings.TrimDropsWhitespace | src/app/dm/page.tsx:163-165 | everything `trim()` drops on either side is whitespace |
| Strings.TrimHasNoOuterWhitespace | src/app/dm/page.tsx:163-165 | the result of `trim()` neither starts nor ends with whitespace |
| Strings.TrimEmptyIff | src/app/dm/page.tsx:163 | `trim()` is empty exactly when every character is whitespace |
| Stream.LinePayload | src/lib/api.ts:135-137 | a line yields a payload iff it starts with `data: `, and then the line is `data: ` followed by the payload |
| Stream.DataPayloads | src/lib/api.ts:134-143 | at most one payload per line |
| Stream.DataPayloadsFromLines | src/lib/api.ts:134-137 | each payload `p` comes from a line `data: p` |
| Stream.Decoded | src/lib/api.ts:136-141 | no more events than payloads, and one per payload when all of them parse |
| Stream.DecodedFromPayloads | src/lib/api.ts:136-141 | each event is what `parse` gave for some payload |
| Stream.DeliverLines | src/lib/api.ts:134-143 | the loop over the complete lines yields exactly the data payloads, in line order, and delivers exactly those that parse |
| Stream.FeedAll | src/lib/api.ts:126-144 | after at least one chunk the carried text has no `'\n'` |
| Stream.FeedAllPayloadsOneLine | src/lib/api.ts:130-137 | no delivered payload contains `'\n'`: a payload never spans two lines |
| Stream.CompleteLines | src/lib/api.ts:131-132 | the lines left after `lines.pop()` contain no `'\n'` |
| Stream.Unterminated | src/lib/api.ts:131-132 | the popped piece, which becomes the new buffer, has no `'\n'`, and the text is the complete lines, each followed by `'\n'`, then that piece |
| Stream.DataPayloadsAppend | src/lib/api.ts:134-143 | the payloads of two runs of lines are the payloads of each, in line order |
| Stream.DecodedAppend | src/lib/api.ts:136-141 | decoding distributes over concatenation, so payloads that fail to parse are skipped without disturbing order |
| Stream.NonDataLinesIgnored | src/lib/api.ts:135 | lines that do not start with `data: ` deliver nothing |
| Stream.DataLinePayload | src/lib/api.ts:135-137 | a line `data: p` delivers exactly `p`, that is the line minus its first six characters |
| Stream.SplitNoNewline | src/lib/api.ts:131-132 | a newline-free buffer is one unterminated piece, so it contributes no complete line |
| Stream.CompleteLinesAppend | src/lib/api.ts:130-132 | after more text arrives, the complete lines are the old ones followed by those of the carried rest plus the new text |
| Stream.FeedAllFramesWholeText | src/lib/api.ts:126-144 | feeding chunks one at a time delivers the data payloads of the complete lines of all the text received, in order, and carries exactly its unterminated rest |
| Stream.ChunkingIsIrrelevant | src/lib/api.ts:126-144 | two chunkings of the same text deliver the same payloads and leave the same buffer |
| Stream.UnterminatedTextNotDelivered | src/lib/api.ts:127-132 | text after the last newline is never delivered: it only extends the buffer |
| Stream.FrameEncoded | src/lib/api.ts:134-137 | round trip: the payloads written as `data: p\n` lines are read back exactly, leaving an empty buffer |
| Stream.EventStream.constructor | src/lib/api.ts:100-124 | a new connection has an empty buffer, is connecting and not aborted, and has delivered nothing |
| Stream.EventStream.Close | src/lib/api.ts:155-166 | `close()` aborts and changes nothing else |
| Stream.EventStream.Open | src/lib/api.ts:105-120 | after `fetch` settles the loop reads only for an ok response with a body; an abort ends it silently; any other failure reports once |
| Stream.EventStream.Fail | src/lib/api.ts:145-150 | an `AbortError` ends the stream without calling `onError`; any other error calls it exactly once |
| Stream.EventStream.Feed | src/lib/api.ts:130-143 | old buffer + chunk = complete lines, each `'\n'`-terminated, + new buffer; the new buffer has no `'\n'`; the payloads are those of the complete data lines, and those that parse are delivered in order |
| Stream.EventStream.OnRead | src/lib/api.ts:127-132 | a chunk is framed as above; `done` ends the loop; a rejected read fails; after `close()` nothing is delivered |
| Stream.EventStream.Run | src/lib/api.ts:126-144 | the read loop delivers the framing of the chunks read before the first non-chunk read, and stops in the phase that read decides |
| Thread.Known | src/app/dm/page.tsx:70 | `prev.some(m => m.uid === uid)` holds iff the uid is among the list's uids |
| Thread.Fresh | src/app/dm/page.tsx:69-71 | the filter keeps no more messages than the batch has, each from the batch and with a uid not in the old list |
| Thread.Merge | src/app/dm/page.tsx:67-73 | the old list is kept as an unchanged prefix |
| Thread.FreshMembers | src/app/dm/page.tsx:69-71 | a message is appended iff it is incoming and its uid is not already in the list |
| Thread.FreshAppend | src/app/dm/page.tsx:69-71 | the filter keeps incoming order (it distributes over concatenation) |
| Thread.AllKnownChangesNothing | src/app/dm/page.tsx:67-73 | a batch whose uids are all known leaves the list unchanged |
| Thread.MergedUidsKnown | src/app/dm/page.tsx:67-73 | after a merge every uid of the batch is in the list |
| Thread.MergeIdempotent | src/app/dm/page.tsx:68-72 | delivering the same batch again changes nothing |
| Thread.FreshDistinct | src/app/dm/page.tsx:69-71 | the appended messages have new uids and, for a batch with distinct uids, distinct ones |
| Thread.MergeDistinct | src/app/dm/page.tsx:68-72 | distinct uids in list and batch give distinct uids in the merged list |
| Thread.AppendCanDuplicate | src/app/dm/page.tsx:183 | appending a sent message that is already listed duplicates its uid |
| Thread.BatchCanDuplicate | src/app/dm/page.tsx:69-72 | a batch carrying a new message twice leaves the merged list with a repeated uid |
| Thread.LastFrom | src/app/dm/page.tsx:86-88 | the result is a message of the sender followed by none of theirs, or nothing iff the sender has no message in the list |
| Thread.LastFromIsLast | src/app/dm/page.tsx:86-88 | a sender's message with none of theirs after it is exactly what the lookup finds |
| Thread.LastFromIgnoresOthers | src/app/dm/page.tsx:86-88 | messages from others appended later do not change the sender's last message |
| Dm.HasProfile | src/app/dm/page.tsx:36 | `profileUid` is truthy iff it is neither `null` nor the empty string |
| Dm.LastUid | src/app/dm/page.tsx:134-138 | there is no uid exactly for an empty thread; otherwise it is the uid of the last message, which the thread lists |
| Dm.CharacterTyping | src/app/dm/page.tsx:84-98 | the flag is true iff the character has a message with that uid and sent nothing after it |
| Dm.UserMessagesKeepTyping | src/app/dm/page.tsx:84-98 | the user's own later messages do not change the flag |
| Dm.NewCharacterMessageEndsTyping | src/app/dm/page.tsx:90-96 | once a new character message is listed, a reference to any older message gives false |
| Dm.SendContent | src/app/dm/page.tsx:163-165 | a send happens iff the input has a non-whitespace character, a profile is signed in and no send is running; the content is the trimmed input, non-empty and without outer whitespace |
| Dm.SpacedSnoc | src/app/dm/page.tsx:126-131 | an issue time at least 1000 ms after the last keeps all issue times pairwise 1000 ms apart |
| Dm.DmPage.constructor | src/app/dm/page.tsx:16-23 | empty thread and input, not typing, loading, not sending, last typing time 0 |
| Dm.DmPage.HistoryQuery | src/app/dm/page.tsx:36-48 | without a user or profile there is no request (redirect to login); otherwise the query names the profile and the character, limit 50, no `before_uid` |
| Dm.DmPage.FinishLoad | src/app/dm/page.tsx:49-55 | a loaded history replaces the list, a failure keeps it, and loading ends either way |
| Dm.DmPage.HandleMessage | src/app/dm/page.tsx:65-101 | the list becomes the uid-merge; no `typing_ref` with a non-empty batch, or a `null` one, leaves the flag false; a string one sets it by `CharacterTyping` on the merged list; nothing else changes |
| Dm.DmPage.SendTypingIndicator | src/app/dm/page.tsx:120-143 | a call is issued iff a profile is signed in and at least 1000 ms passed since the last call; it carries the last message's uid, or none; only an issued call updates the last time; issued calls stay 1000 ms apart |
| Dm.DmPage.HandleInputChange | src/app/dm/page.tsx:146-158 | the input takes the value, and a typing call is attempted only for a non-empty value |
| Dm.DmPage.BeginSend | src/app/dm/page.tsx:161-173 | the guard's early return changes nothing; otherwise the trimmed content is sent, the input is cleared and a send is running |
| Dm.DmPage.FinishSend | src/app/dm/page.tsx:175-195 | success appends the returned message at the end without a uid check; failure restores the sent content into the input and leaves the list; the send is over either way |
| Debugger.MessageDebugger.constructor | src/app/admin/message/page.tsx:10-16 | disconnected, empty, not loading, no stream kept |
| Debugger.MessageDebugger.BeginConnect | src/app/admin/message/page.tsx:34-41 | with either uid empty nothing happens; otherwise loading starts and the history query for the pair is returned |
| Debugger.MessageDebugger.FinishConnect | src/app/admin/message/page.tsx:41-73 | success replaces the list, connects, closes the kept stream and keeps the new one's `close`; failure disconnects and keeps list and streams; loading ends; at most one stream is open |
| Debugger.MessageDebugger.OnStreamPayload | src/app/admin/message/page.tsx:51-60 | the list becomes the uid-merge of the batch, with no typing state, and nothing else changes |
| Debugger.MessageDebugger.OnStreamError | src/app/admin/message/page.tsx:61-64 | the view is disconnected and the list is kept |
| Debugger.MessageDebugger.Disconnect | src/app/admin/message/page.tsx:76-83 | the kept stream is closed and forgotten, the view is disconnected and emptied, and no stream is open |
| Auth.AuthStore.constructor | src/stores/authStore.ts:15-18 | user, token and profile uid start null; storage is untouched |
| Auth.AuthStore.SetAuth | src/stores/authStore.ts:19-25 | `access_token` is stored with the token, every key other than `access_token` is as before (the persist key is not modelled), the three fields are set, and token and storage agree |
| Auth.AuthStore.ClearAuth | src/stores/authStore.ts:26-31 | `access_token` is removed, every key other than `access_token` is as before (the persist key is not modelled), the three fields are null, and token and storage agree |
| Auth.RequestsAfterSetAuth | src/stores/authStore.ts:22 | after `setAuth` with a non-empty token, requests carry `Bearer <token>`; with an empty one they go out unchanged |
| Auth.RequestsAfterClearAuth | src/stores/authStore.ts:28 | after `clearAuth` requests go out unchanged |
| Auth.InterceptFollowsStore | src/stores/authStore.ts:19-31 | while store and storage agree, a header is attached iff the store holds a non-empty token, and it names that token |
| Api.HasToken | src/lib/api.ts:21-22 | the token is truthy iff `getItem('access_token')` is neither `null` nor the empty string |
| Api.BearerFor | src/lib/api.ts:21-23 | there is a value iff a non-empty token is stored, and it is `Bearer ` followed by the token |
| Api.Intercept | src/lib/api.ts:19-27 | with a stored token `Authorization` names it; without one the headers are unchanged; other headers are kept; only `Authorization` may be added |
| Api.AttachedIffStored | src/lib/api.ts:19-27 | for a request without its own `Authorization`, the header is attached iff a token is stored, and it carries that token |
| Api.InterceptIdempotent | src/lib/api.ts:19-27 | intercepting twice is intercepting once |
| Api.StreamHeaders | src/lib/api.ts:105-112 | the stream request accepts `text/event-stream` and carries `Authorization` iff a token is stored |
| Api.StreamHeadersAsIntercepted | src/lib/api.ts:94-112 | the stream request carries the same credentials the interceptor would attach |
| Api.MessagesQuery | src/lib/api.ts:63-77 | `source_uid`, `target_uid` and `limit` are always sent; `before_uid` only when it is given and non-empty; nothing else |
| Api.ErrorMessage | src/lib/api.ts:171-177 | the message is never empty: `detail`, else the axios message, else `An error occurred`; non-axios errors give `An unexpected error occurred` |
| Middleware.Decide | middleware.ts:4-19 | redirect iff the path starts with `/admin` and there is no `access_token` cookie; the redirect goes to `/login` with `from` set to the path |
| Middleware.CookieValueIgnored | middleware.ts:7-10 | the cookie's value never matters, only its presence |
| Middleware.OtherCookiesIgnored | middleware.ts:7 | cookies other than `access_token` never matter |
| Middleware.PlainPrefixGuarded | middleware.ts:6 | any path extending `/admin`, such as `/administrator`, is guarded by the function; the matcher at middleware.ts:22-27 keeps such paths from reaching it, so this is a property of `middleware` alone |
| Lookup.Find | src/app/admin/life/page.tsx:101 | `find` by uid gives the first matching position, or nothing iff no element matches |
| Lookup.FoundOrderFree | src/app/admin/profile/page.tsx:49 | whether some element matches does not depend on the order of the list |
| LifeAdmin.CharacterName | src/app/admin/life/page.tsx:101 | the name of the first character with the uid; the uid when none matches or the name is empty |
| LifeAdmin.UniverseLabel | src/app/admin/life/page.tsx:105-106 | the name of the first universe with the uid; `Unknown` when none matches or the name is empty |
| LifeAdmin.WorldName | src/app/admin/life/page.tsx:102-107 | the uid unchanged when no world matches; otherwise the universe label, ` / `, at most six characters of the uid, and `...` |
| LifeAdmin.AllWorlds | src/app/admin/life/page.tsx:39-43 | aggregation succeeds iff every universe's world call succeeds |
| LifeAdmin.AllWorldsAppend | src/app/admin/life/page.tsx:39-44 | aggregation concatenates per universe in universe order |
| LifeAdmin.AllWorldsMembers | src/app/admin/life/page.tsx:39-44 | the aggregated list holds exactly the worlds some universe's call returned |
| LifeAdmin.LifePage.constructor | src/app/admin/life/page.tsx:8-16 | empty lists, no selection, not deploying |
| LifeAdmin.LifePage.LoadMetadata | src/app/admin/life/page.tsx:31-53 | a failed universe or character call changes nothing; otherwise both lists are stored, and if every world call succeeds the worlds become their concatenation and the first is selected; a failed world call keeps worlds and selection |
| LifeAdmin.LifePage.BeginDeploy | src/app/admin/life/page.tsx:64-73 | with no character or no world nothing happens; otherwise deploying starts and the request names both |
| LifeAdmin.LifePage.FinishDeploy | src/app/admin/life/page.tsx:74-82 | success closes the dialog and reloads lives; deploying ends on every path |
| ProfileAdmin.IsOrphan | src/app/admin/profile/page.tsx:47-50 | never for owners other than `life`; for `life`, iff no loaded life has the owner's uid |
| ProfileAdmin.IsOrphanOrderFree | src/app/admin/profile/page.tsx:49 | the verdict does not depend on the order of the lives |
| ProfileAdmin.MoreLivesFewerOrphans | src/app/admin/profile/page.tsx:49 | loading more lives can clear an orphan flag but never raise one |
| ProfileAdmin.ProfilePage.constructor | src/app/admin/profile/page.tsx:9-11 | empty lists, loading |
| ProfileAdmin.ProfilePage.BeginLoad | src/app/admin/profile/page.tsx:17-18 | loading starts and the lists are kept |
| ProfileAdmin.ProfilePage.FinishLoad | src/app/admin/profile/page.tsx:19-33 | both lists are replaced when both calls succeed and neither when one fails; loading ends on every path |

## Left out

- Strings are sequences of Unicode scalar values, not of UTF-16 code units as in JavaScript. Lengths, indices and slices count characters.
- LifeAdmin.WorldName: `Take(uid, 6)` keeps six characters, where `uid.slice(0, 6)` (src/app/admin/life/page.tsx:106) keeps six UTF-16 code units. The two differ for a uid with a character outside the Basic Multilingual Plane, and `slice` can split a surrogate pair.
- Network I/O (`fetch`, axios, `AbortController`): the outcome of each call is an input, and the reads of a stream are a list of settled results.
- `streamReader.cancel()` in `close()` (src/lib/api.ts:159-161): the model keeps only the abort, whose effect is that pending and later reads end silently.
- `TextDecoder`: chunks are already-decoded strings.
- `JSON.parse`: it is a parameter; what it accepts is not modelled.
- An exception thrown by the payload callback itself: it is caught and logged like a parse failure. The model's callbacks return normally.
- The stream URL and its query-string encoding (src/lib/api.ts:96-98).
- The `typeof window` guards (src/lib/api.ts:20, 94; src/stores/authStore.ts:21, 27): the model runs in the browser.
- The zustand `persist` middleware: browser storage is a plain map, and rehydration of the store is not modelled.
- Auth.AuthStore.SetAuth / ClearAuth: the `persist` middleware (src/stores/authStore.ts:33-36) also rewrites the `auth-storage` entry on every `set`. The model does not write that entry, so its "every other key is as before" holds only for the keys the model writes.
- The effects that open and close each page's stream (src/app/dm/page.tsx:62-117; src/app/admin/message/page.tsx:26-32): payloads reach the pages through `HandleMessage` / `OnStreamPayload`, and the wiring itself is not modelled.
- Router navigation: the DM page's redirect to `/login` appears only as `HistoryQuery` returning nothing.
- The failure of the typing call: the source only logs it, and no state depends on it.
- Dm.DmPage.SendTypingIndicator: the call is awaited, but the model has no step after the `await`. The last typing time is updated before the `await` and nothing after it changes state, so only the interleaving with other handlers during the call is not captured.
- LifeAdmin.LifePage.LoadMetadata: takes the outcomes of the universe, character and every world call at once. The intermediate states between its `await`s (universes and characters stored, worlds still loading) are not reachable in the model, nor is any handler that runs in between.
- `loadLives`, both `handleDelete` handlers, and the effect that copies the selected world into the deploy form (src/app/admin/life/page.tsx:26-29, 55-62, 85-99; src/app/admin/profile/page.tsx:35-45): these are thin calls without logic to state.
- The middleware's `matcher` configuration (middleware.ts:21-28): `Middleware.Decide` is stated for every path.
- LifeAdmin.AllWorlds: the world call is a function of the universe uid, so a universe listed twice gets the same outcome both times.
- Rendering, scrolling, textarea resizing, focus, `alert`/`confirm`, logging and date formatting.
- The proxy route handlers and `src/lib/adminApi.ts`: they are not part of this model, apart from the history query shape, which `adminAPI.getMessages` shares with `dmAPI.getMessages`.
