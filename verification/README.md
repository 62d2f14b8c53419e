# Chat application core, modelled in Dafny

This project models the core of a two-party real-time chat application (an Express and
Socket.IO server with a React client):

- the Socket.IO **presence and signalling hub**. It keeps the registry `users` from user id to
  the socket that last registered it. It relays chat notifications and forwards the call
  handshake: offer, answer, ICE candidates and hang-up;
- the **account and message controllers**: signup, login, conversation history and file upload.
  They run over an in-memory store that stands in for the MongoDB collections;
- the **Joi request validators** that run in front of signup and login, and the two routes that
  chain each validator to its controller;
- the client dashboard's **call-state machine** (`callState`) and its pure helpers: the send
  guard, the contact search, and the rewriting of file URLs.

Each socket handler runs to completion before the next one starts. So the hub is one pure step
function, `Server.Step(registry, socket, event)`. It returns the new registry and the list of
emits, each addressed to one socket or to everyone. Every controller is likewise a pure function
from the store and the request to the new store and the reply: each request is modelled as
running atomically, with no other request interleaved at its `await`s.

Files, one module each: `options.dfy`, `strings.dfy` (`startsWith`, `includes`, `toLowerCase`,
`trim`), `seqs.dfy` (`filter`, `find`), `protocol.dfy` (wire types and the `/uploads` URL
rule), `server.dfy` and `server_properties.dfy`, `controllers.dfy` and
`controller_properties.dfy`, `validation.dfy`, `routes.dfy`, `chat_dashboard.dfy` and
`chat_properties.dfy`, and `end_to_end.dfy` (properties that cross components).

## Model

| member | source | states |
|---|---|---|
| Server.Register | backend/server.js:35 | after `addUser(u)` on socket `s`, `u` resolves to `s` whatever it mapped to before; the key set gains `u`; every other user resolves as before |
| Server.Unregister | backend/server.js:96-98 | a user stays registered exactly when it was registered to a socket other than the closing one, with the same socket; the closing socket is left in no entry |
| Server.RemoveSocket | backend/server.js:96-98 | the `forEach` deletion loop removes exactly the entries that name the closing socket and keeps all others unchanged, so its result is `Server.Unregister`'s |
| Server.OnAddUser | backend/server.js:34-38 | the last registration wins with no other entry changed, and exactly one `onlineUsers` broadcast goes to everyone, carrying the old key set plus `u` |
| Server.OnDisconnect | backend/server.js:95-101 | users held by the closing socket become absent and all other users resolve as before; exactly one `onlineUsers` broadcast carries the users not held by that socket; no `callEnded` is synthesised |
| Server.OnSendMsg | backend/server.js:40-48 | the registry is unchanged; every emit is `shareMsg` with the unchanged payload; a socket receives one copy if it is the receiver's, and one more if it is the sender's and not the originating socket; nothing goes to everyone |
| Server.OnCallUser | backend/server.js:50-66 | an online callee gets exactly one `incomingCall{from, offer}` and nothing else is sent; for an offline callee no `incomingCall` is sent, and an online caller gets exactly one `callUnavailable{to, "User is not online"}`, otherwise nothing |
| Server.Forward | backend/server.js:68-93 | `answerCall`, `iceCandidate` and `endCall` send exactly one event to the addressee's socket when the addressee is online and none otherwise, without touching the registry |
| Server.Step | backend/server.js:31-102 | only `addUser` and `disconnect` change the registry, and both answer with one presence broadcast of the new key set; only `onlineUsers` goes to everyone; `sendMsg` sends the unchanged payload once to the receiver's socket and once more to the sender's socket unless that is the socket it came from; `callUser` rings the callee's socket if online, else tells an online caller `callUnavailable` with "User is not online", else sends nothing; `answerCall`, `iceCandidate` and `endCall` each send exactly one `callAnswered`, `iceCandidate` or `callEnded` naming the sender to `users[toUserId]` when that user is online, and nothing otherwise; an event with no handler does nothing |
| Server.RunAppend | backend/server.js:29-31 | the one `users` object shared by all connections is the only state carried between events: running two batches of events one after the other gives the same registry and emits as running them as one trace |
| ServerProperties.RegistryReflectsLatestRegistration | backend/server.js:29-101 | from the empty registry, after any sequence of events a user resolves to socket `s` exactly when `s` registered it and neither a newer registration of the user nor the closing of `s` came later |
| ServerProperties.StaleDisconnectKeepsNewerSocket | backend/server.js:95-98 | a user who re-registered on a newer socket keeps that socket when the older socket closes |
| ServerProperties.CallHandshakeOrder | backend/server.js:50-75 | with both users online, `callUser` then `answerCall` sends exactly `incomingCall` to the callee and then `callAnswered` to the caller |
| Controllers.ServerUrl | backend/controller/userControllers.js:7 | an unset or empty `SERVER_URL` falls back to `http://localhost:5000`; any other value is used as given |
| Controllers.FindByUsername | backend/controller/userControllers.js:49 | `findOne({username})` finds nothing exactly when no stored user has the name, and otherwise finds a stored user with it |
| Controllers.FindByEmail | backend/controller/userControllers.js:21 | `findOne({email})` finds nothing exactly when no stored user has the email |
| Controllers.SignUp | backend/controller/userControllers.js:12-44 | a taken username is refused with field `username` without checking the email; a free username with a taken email is refused with field `email`; with both free, an empty username or email fails the schema's `required` check in `save()` and the `catch` replies 404; every refusal leaves the store unchanged; success happens exactly when both are free and non-empty, appends exactly one user, whose password is the digest `hash(password)`, and keeps the unique-index invariant when the new id is fresh |
| Controllers.LogIn | backend/controller/userControllers.js:48-77 | an unknown username gives 401 with field `username`; for a known username (under the unique index) login succeeds exactly when `compare` accepts the password against the stored digest, and a mismatch gives 404 with field `password`; success returns the stored user's `_id` as `userId` |
| Controllers.SortByCreation | backend/controller/userControllers.js:138 | the result is ordered by ascending `createdAt` and is a permutation of the input |
| Controllers.Conversation | backend/controller/userControllers.js:132-139 | the query result holds each message with (sender, receiver) equal to (a, b) or (b, a) as often as the store does, and nothing else, in ascending `createdAt` order |
| Controllers.WithServerUrl | backend/controller/userControllers.js:142-147 | the length is kept; only `fileUrl` may change; a file URL starting with `/uploads` gets the server URL in front; every other message is unchanged |
| Controllers.ShowMessage | backend/controller/userControllers.js:129-149 | the reply has as many messages as the conversation filter selects; all are between the two users, in ascending `createdAt` order, each equal to the stored one apart from its file URL, which is the stored URL made absolute against the server's base URL |
| Controllers.FileTypeOf | backend/controller/userControllers.js:170-175 | `image`, `video` and `audio` are returned exactly for the MIME prefixes `image/`, `video/` and `audio/`; `document` is returned exactly when none of them applies; `other` is never returned |
| Controllers.UploadFile | backend/controller/userControllers.js:157-199 | a missing file is refused first, then a missing or empty sender or receiver, and neither refusal saves anything; success saves exactly one message with empty text, `fileUrl = "/uploads/" + filename`, the classified type and the original name; the reply shows that URL with the server URL in front |
| ControllerProperties.LogInAfterSignUp | backend/controller/userControllers.js:57-72 | after a successful signup, logging in with the same name and password succeeds with the new user's id, given that bcrypt accepts a password against its own digest |
| ControllerProperties.UsernameTakenAfterSignUp | backend/controller/userControllers.js:13-20 | after a successful signup, a second signup with the same username is refused with field `username` and the store stays unchanged |
| ControllerProperties.ConversationSymmetric | backend/controller/userControllers.js:132-137 | the history of (a, b) is the history of (b, a) |
| ControllerProperties.NewestMessageComesLast | backend/controller/userControllers.js:132-138 | a message between a and b that is no older than any stored message appears last, after the previous history unchanged |
| ControllerProperties.UploadShownInHistory | backend/controller/userControllers.js:177-193 | the upload reply is exactly the message the history endpoint serves for it, absolute URL included |
| Protocol.AbsoluteFileUrl | backend/controller/userControllers.js:143-144 | no URL stays none; a URL starting with `/uploads` gets the base in front; any other URL is unchanged |
| Protocol.RewrittenIsAbsolute | frontend/src/Components/Chat.jsx:75-76 | once a `/uploads` URL has been rewritten against a base that does not itself look like an upload path, it no longer starts with `/uploads` |
| Protocol.AbsoluteFileUrlIdempotent | backend/controller/userControllers.js:143-144 | for such a base, applying the rewrite twice gives the same result as applying it once |
| Validation.CheckUsername | backend/validation/userValidation.js:5-9 | a username passes exactly when it is present and 3 ≤ length ≤ 20; any error names field `username`; a short non-empty name gets the "at least 4" text although the bound is 3 |
| Validation.CheckEmail | backend/validation/userValidation.js:10-13 | an email passes exactly when it is present, non-empty and accepted by the email predicate; any error names field `email` |
| Validation.CheckPassword | backend/validation/userValidation.js:14-18 | a password passes exactly when it is present and 6 ≤ length ≤ 12; any error names field `password` |
| Validation.FirstError | backend/validation/userValidation.js:20 | the reported error is the first failing check in schema order, and there is none exactly when all checks pass |
| Validation.ValidateSignUp | backend/validation/userValidation.js:4-20 | a body passes exactly when all three fields are present and within their rules; a username error wins over any email error, which wins over any password error |
| Validation.ValidateLogIn | backend/validation/userValidation.js:32-44 | a login body passes exactly when username and password are present and within the signup bounds; a username error wins over a password error; only those two fields are ever reported |
| Validation.SignUpValidation | backend/validation/userValidation.js:20-28 | `next()` is called in every case; a reply is sent exactly when validation fails, and it is `{success: false, field, message}` of the first error with status 401 |
| Validation.LogInValidation | backend/validation/userValidation.js:44-52 | the same control flow for login: `next()` always, a 401 reply carrying the first error only on failure |
| Validation.LogInMatchesSignUp | backend/validation/userValidation.js:32-43 | for any acceptable email, login validation reports the same result as signup validation on the same username and password |
| Routes.SignUpRouteAsWritten | backend/router/userRouter.js:51 | the store after the route is the store after `signUp`, whatever the validator said; when validation fails, the client receives the validator's 401, and otherwise `signUp`'s own reply |
| Routes.RejectedSignUpStillSaved | backend/validation/userValidation.js:20-28 | a request the validator rejects, with a free and non-empty username and email, still appends the account while the client is told it failed |
| Routes.ShortPasswordAccountCreated | backend/validation/userValidation.js:14-28 | concretely, signing up as `bob` with password `abc` is answered by the password error and yet stores the account `bob` |
| Routes.AsWrittenAdmitsMalformedAccount | backend/validation/userValidation.js:5-28 | concretely, a two-character username reaches the store, although every account in it satisfied the rules before |
| Routes.SignUpRoute | backend/router/userRouter.js:51 | corrected route: a validation error ends the request with the store unchanged; otherwise the route is `signUp`; every stored account keeps satisfying the username and email rules |
| Routes.LogInRoute | backend/router/userRouter.js:52 | the client receives the validator's 401 when login validation fails, and `logIn`'s reply otherwise |
| Strings.Contains | frontend/src/Components/Chat.jsx:416 | `includes` holds exactly when the needle occurs at some offset of the haystack |
| Strings.LowerChar | frontend/src/Components/Chat.jsx:416 | the result is never an ASCII capital; `A`–`Z` become the lower-case letter at the same position of the alphabet; every other character is unchanged |
| Strings.ToLower | frontend/src/Components/Chat.jsx:416 | `toLowerCase` keeps the length and lower-cases character by character |
| Strings.Trim | frontend/src/Components/Chat.jsx:88 | `trim` leaves the part of the input between a blank prefix and a blank suffix; the result neither starts nor ends with white space; it is empty exactly when the input is all white space |
| Seqs.Filter | frontend/src/Components/Chat.jsx:411-417 | `Array.prototype.filter` keeps each element satisfying the predicate as often as it occurs, drops every other element, and never lengthens the sequence |
| Seqs.FindFirst | frontend/src/Components/Chat.jsx:203 | `find` (and `findOne`) gives nothing exactly when no element satisfies the predicate; otherwise it gives the element at the first index that does |
| Strings.TrimStart | frontend/src/Components/Chat.jsx:88 | the result is the longest suffix that does not begin with white space; it is empty exactly when the input is all white space |
| Strings.TrimEnd | frontend/src/Components/Chat.jsx:88 | the result is the longest prefix that does not end with white space; it is empty exactly when the input is all white space |
| ChatDashboard.FindContact | frontend/src/Components/Chat.jsx:203 | the lookup finds nothing exactly when no contact has the id, and otherwise finds a contact with it |
| ChatDashboard.OnIncomingCall | frontend/src/Components/Chat.jsx:199-205 | only `incoming` and `remoteUser` change: `incoming` records the caller and the offer; `remoteUser` is the caller's contact entry, or null exactly when the caller is not among the contacts |
| ChatDashboard.StartCall | frontend/src/Components/Chat.jsx:316-325 | with no user nothing changes; otherwise `inCall` and `isCaller` are true, `remoteUser` is the callee and `incoming` is null |
| ChatDashboard.AcceptIncomingCall | frontend/src/Components/Chat.jsx:327-342 | a no-op without `incoming`; otherwise `inCall` is true, `isCaller` is false, `incoming` is kept and `remoteUser` is the caller's contact entry |
| ChatDashboard.RejectIncomingCall | frontend/src/Components/Chat.jsx:344-359 | a no-op without `incoming`; otherwise the state resets to all false/null and `endCall` goes to the ringing caller |
| ChatDashboard.HangUp | frontend/src/Components/Chat.jsx:361-377 | Chat's `endCall` handler: the state always resets to all false/null; the handler sends `endCall` to `remoteUser` only when it is non-null |
| ChatDashboard.HandleClickCall | frontend/src/Components/Chat.jsx:379-385 | a call starts exactly when a contact is selected and its id is in `onlineUsers`; otherwise the matching alert is shown and no call starts |
| ChatDashboard.HandleSendMessage | frontend/src/Components/Chat.jsx:87-93 | nothing happens exactly when the text is all white space and no file is pending; a pending file always takes the upload path; text is posted otherwise |
| ChatDashboard.TextPayload | frontend/src/Components/Chat.jsx:109-113 | the emitted text message carries the text as typed and no file fields |
| ChatDashboard.UploadedPayload | frontend/src/Components/Chat.jsx:149-161 | nothing is emitted exactly when the reply has no file URL (`startsWith` throws and the `catch` only logs); otherwise the emitted file message has empty text, its URL is kept when it starts with `http` and otherwise gets the client's server URL, and type, name and time are copied |
| ChatDashboard.Received | frontend/src/Components/Chat.jsx:188-192 | a relayed message changes only in its file URL, which gets the server URL in front exactly when it starts with `/uploads` |
| ChatDashboard.History | frontend/src/Components/Chat.jsx:74-79 | fetched history keeps its length; `/uploads` URLs get the client's server URL in front; all other messages are unchanged |
| ChatDashboard.VisibleContacts | frontend/src/Components/Chat.jsx:410-417 | a contact is listed exactly when its name differs from the signed-in user's name (every contact when no one is signed in) and its lower-cased name contains the lower-cased search, as often as it occurs in the contacts |
| ChatProperties.VisibleContactsKeepOrder | frontend/src/Components/Chat.jsx:410-417 | filtering a concatenation is concatenating the filtered parts, so listed contacts keep their original order |
| ChatProperties.EmptySearchHidesOnlyMe | frontend/src/Components/Chat.jsx:410-417 | with an empty search the list is every contact except the signed-in user |
| ChatProperties.AcceptThenHangUpNotifiesCaller | frontend/src/Components/Chat.jsx:327-377 | after ringing and accepting, Chat's `endCall` handler sends `endCall` to the caller exactly when the caller is among the loaded contacts |
| ChatProperties.RejectNotifiesCaller | frontend/src/Components/Chat.jsx:344-356 | rejecting a ringing call resets the state and sends one `endCall` to that caller |
| ChatProperties.IncomingCallDuringCallRetargetsHangUp | frontend/src/Components/Chat.jsx:199-205 | a second incoming call during a call replaces `remoteUser`, so Chat's `endCall` handler notifies the new caller instead of the current peer |
| EndToEnd.HangUpReachesPeer | backend/server.js:88-93 | the `endCall` emitted by Chat's `endCall` handler reaches the peer's current socket as one `callEnded` naming this user when the peer is online, and is dropped otherwise |
| EndToEnd.TextReachesReceiver | backend/server.js:40-45 | a text message sent by the client reaches an online receiver's socket unchanged |
| EndToEnd.UploadUrlKeptByClient | frontend/src/Components/Chat.jsx:149-151 | with an `http` server URL, the client relays the upload reply's URL unchanged |
| EndToEnd.ReceivedUploadUnchanged | frontend/src/Components/Chat.jsx:188-191 | the receiving client shows a relayed upload exactly as it was sent |
| EndToEnd.HistoryRewriteStable | frontend/src/Components/Chat.jsx:74-79 | with an `http` server URL, the client's rewrite of fetched history changes nothing, so no URL gets the base twice |

## Left out

- Socket.IO transport, `io.to(...)` and `io.emit` delivery, connection logging, CORS, the static
  `/uploads` route and `server.listen`. Emits are returned as a list of (target, event) records.
- The order of the user ids in `onlineUsers` (`Object.keys` insertion order). The broadcast
  carries a set.
- `users` is a plain JavaScript object. A lookup of an inherited property name such as
  `constructor` would be truthy there. The model's registry holds only what was registered.
- The call-session states Ringing, Active and Ended. The server keeps no call state and
  forwards each signalling event on its own, so the model has none either. A disconnect
  synthesises no `callEnded`, which is what the code does.
- MongoDB and Mongoose. The store is two in-memory sequences. Some behaviour is not modelled:
  `findOne` filters with undefined values, cast errors for ids that are not ObjectIds, and the
  `catch` replies (404 and 500) to thrown errors other than `signUp`'s failed schema check.
- `getAllUsers` and `sendMessage` are outside the modelled core. One returns every user; the
  other saves a text message.
- bcrypt. `hash` and `compare` are functions passed in by the caller.
- Joi internals. The email grammar is the predicate passed in. Not modelled: non-string values
  (`string.base`), keys outside the schema (`object.unknown`), and lengths counted in UTF-16
  units where a string holds characters outside the Basic Multilingual Plane.
- Clock, randomness and filesystem. The `time` string, the `createdAt` stamp, new ids, multer's
  stored filename and `fs.unlinkSync` of a rejected upload are parameters or omitted.
- Controllers.SortByCreation: MongoDB promises no order among messages with equal `createdAt`.
  The model keeps their stored order.
- Strings.LowerChar: `toLowerCase` is modelled for the ASCII letters A–Z only.
- Controllers.SignUp: the text of Mongoose's validation error in the 404 reply is not
  reproduced; `SaveRejectedMessage` stands in for it. The schema's other `required` field,
  `password`, always holds a digest when `save()` runs, so it never fails.
- Controllers.UploadFile: the message schema requires `time`, which the controller fills from
  `toLocaleTimeString`; that string is never empty, so the model has no failing branch for it.
- Concurrent requests. Each controller is modelled as atomic, but `signUp` awaits between the
  username lookup, the email lookup and `save()` (`backend/controller/userControllers.js` lines
  13, 21 and 35). Two signups with one name can both pass the lookups; the unique index then
  makes the second `save()` throw, and that client gets the `catch`'s 404 instead of the 401
  refusal with field `username`. Interleavings are not modelled.
- ChatDashboard.HangUp: models Chat's `endCall` handler only. The call screen's `hangUp`
  (`frontend/src/Components/CallScreen.jsx` lines 220-223) first emits `endCall` itself, to
  `remoteUser?._id || incomingFrom`, and then invokes that handler through `onEndCall`
  (`frontend/src/Components/Chat.jsx` line 612). So the caller is told the call ended even when
  not among the contacts, and a peer recorded in `remoteUser` receives two `callEnded` events.
- Routes.SignUpRouteAsWritten: modelled only for requests whose three fields are strings. What
  the controller does with a missing field depends on Mongoose's treatment of undefined
  filters, which is not modelled.
- After a validator's 401, the controller that still runs throws `ERR_HTTP_HEADERS_SENT` when it
  replies. Its `catch` replies again and throws again, which leaves a rejected promise with no
  handler. What that does to the process depends on the Express and Node versions. The routes
  model the first reply and the store only.
- Server.Step: each inbound event carries a well-formed payload object. The handlers
  destructure their payloads (`backend/server.js` lines 41, 50, 68, 78 and 88). A missing or
  non-object payload throws inside the listener; the `Inbound` type leaves that case out.
- Routes.LogInRoute: modelled only for requests whose two fields are strings. With a missing
  password, the validator's 401 is followed by `bcrypt.compare(undefined, …)`, which throws.
- The client's HTTP round trips and async handling. The payload functions give what is emitted
  after a success reply.
- The client's rendering, `localStorage`, the `window.__INCOMING_CALL` globals, custom DOM
  events, `alert`, and the crash when `currentUser` is null.
- `CallScreen.jsx` (WebRTC and media devices), the login, signup, splash and loader screens,
  `App.jsx`, and the client's unhandled `userId` emit.

## Findings

| source | as written | input that shows it | evidently intended | confidence | as-written member | corrected member |
|---|---|---|---|---|---|---|
| backend/validation/userValidation.js:20-28 | `signUpValidation` sends the 401 for an invalid body and then calls `next()` anyway. `signUp` therefore runs and, when the username and email are free and non-empty, saves the account. Its own reply then throws because the headers are already sent; the effect of that unhandled rejection is not modelled | signup with username `bob`, a fresh email and password `abc` | return after the 401, so the controller runs only on a valid body | high; not executed | Routes.SignUpRouteAsWritten (shown by Routes.ShortPasswordAccountCreated and Routes.RejectedSignUpStillSaved) | Routes.SignUpRoute |
