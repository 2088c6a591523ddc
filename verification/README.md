# A verified model of go-platform's core

go-platform serves a PostgreSQL application over HTTP behind a gateway. Most of it is a thin layer;
this project models the parts that hold state or translate one language into another, and proves
what its documentation says they are for, for every input, every pattern of statement failures and
every interleaving.

| file | models |
|---|---|
| Transaction.dfy | `lib/pgtx`: one HTTP request as one database transaction, on the direct and on the daemon road |
| StatusProtocol.dfy | `lib/gatewayclient`: the load counter, its watcher, `SetOverloaded`, registration and drain as one step system |
| Calls.dfy, Frames.dfy | calls and answers on the control socket; the frames they travel in |
| Search.dfy, Query.dfy | the list parameters of a URL, and the search array the database reads |
| Idempotency.dfy | the Idempotency-Key store |
| Prefixes.dfy, ClientAddr.dfy | announced prefixes and the client's address (`module.go`) |
| DsnKeys.dfy, CallSql.dfy | the connection-string scanner and the named-call builder (`lib/pgtx`) |
| Text.dfy, Options.dfy | Go's string helpers and the optional value |

`dafny verify dfyconfig.toml` checks all of it.

## Main results

- **Atomicity.** `Do`, on either road and under every pattern of failures, is one abstract step: nil
  means the handler ran once after authorisation and exactly its effects were added; any other answer
  adds nothing and carries the status its failure calls for, also when the handler swallowed a failed statement (`Transaction.Runner.DoDirect`,
  `DoDaemon`, `Do`). `Serve` lifts it to a process's life.
- **Journal.** At most one row a call, under a fresh id; a reported `LogID` is a committed row with
  the client's status, but for one failure of the direct road; there a committed row is always reported.
- **Announcements.** On every session draining comes once and last; the announced states are
  (overloaded ready)\* [overloaded] [draining], the gateway holds the flag and `State()` says it, each
  exactly when one thing did not happen at the registration; when nobody is in `syncStatus`, `said` is
  the flag whatever happened; no wake-up is lost; flips are paid for by changes in the count.
- **Calls.** The reader never blocks, a channel gets at most one frame, an answer reaches only the call
  that asked, and it does reach it while the call waits.
- **Queries.** The search array, read with SQL precedence, selects the rows the request asks for;
  an escaped term matches exactly the texts that contain it (`Query.RequestSelects` joins both with
  `Parse`); `Parse` accepts exactly the acceptable parameters and drops none of its own.
- **Idempotency.** The swept store is indistinguishable from a map that keeps every first answer; the
  work runs exactly when no such answer is live.
- **Small parts.** A covering antichain of prefixes that passes the gateway's test, the rightmost
  untrusted address, a scanner that finds exactly the keys, a statement that reads back as the call.

## Where the code does less than it says

Each has a lemma or a contract with the exact condition.

- Direct road, audit: a request whose authorised handler leaves the transaction aborted and returns
  nil leaves no row although every statement of `Do` succeeds. It is the only such case (the
  equivalence in `DoDirect`; `SwallowingHandler` is an instance). The daemon road salvages the row.
- Daemon road, a refusal of `daemon.begin`: the row keeps the database's status while the client is
  told 500 when the database gave no code with it, unless that status is 401 or 500 (`BeginRefusalTold`).
- Direct road, `LogID`: an error met after the id of the success row was read leaves the id reported
  though the row is rolled back (pgtx.go:474-476 does not reset it, pgtx.go:479-483 does). It is the only such
  case (the equivalence in `DoDirect` and `Do`, by the guard `Stray`).
- Registration publishes the session (session.go:108) before it writes `said` (117) and the state
  (118), without `statusMu`. Three things can go wrong, each marked on the session where it happens,
  and each mark is exact in every interleaving:
  `lost`, the registration wrote `said` over an overloaded already told and nothing was told since: then,
  and only then, the gateway holds another word than `said` (`AnnouncementOrder`, `Convergence`);
  `misordered`, the first word told was ready, or a word was told while `lost`: then, and only then, the
  announcements are out of order (`AnnouncementOrder`);
  `misstated`, State() was last written by the registration after an overloaded had been said, or by a
  turn whose word the registration had written over: then, and only then, `State()` is not the flag
  once it is quiet (`Convergence`).
  `RacedRegistrationRepeats`, `RacedRegistrationStrands`, `CrossedRegistrationMisreports` and
  `OverwrittenTurnMisreports` are interleavings of each kind. In terms of calls: with no `SetOverloaded`
  inside the window no session is marked (`UndisturbedIsEnough`).
- A CALLERROR built without a payload arrives with the payload `{}` (`Frames.BuiltFramesArrive`).
- A handler that writes nothing is stored with status 0, which `Replay` hands to `WriteHeader`; one
  that writes two different headers is replayed with the last, or with 200 when the last is
  informational; one that changes a header after the answer has begun is replayed with the changed one
  (`ReplayIsTheAnswer`, an equivalence).
- The joined Idempotency key needs its user and its key free of NULs (`UserNeedsNoNul`,
  `KeyNeedsNoNul`, equivalences).
- Daemon road, the row's code: where the text of a failure that is no refusal (another SQLSTATE than
  P0001) reads as a catalogue code, the row carries it and the client is told none (`DoDaemon`, an
  equivalence by the guard `StrayCode`).
- The second bracket of a page key is not looked at (`SecondPageBracketIgnored`).
- Only the space is a blank to the connection-string scanner. Of pairs separated by any of libpq's
  blanks it finds exactly the keys if and only if every separator ends in a space, or is left out at the
  start or after a quoted value (`SeparatorsThatServe`); otherwise it finds a key with blanks before it,
  or takes the pair for a part of the value before (`PiecesScanned`, `TabHidesKey`).
  Around an equals sign it finds exactly the key, whatever text the value quotes, if and only if the
  blanks on both sides are all spaces (`BlanksAroundEquals`). After a tab the quote is not seen and a
  name inside the value is a parameter: `a=<TAB>'x b=1'` gives `b` too (`BlankLetsNameOut`).

## Assumptions

- PostgreSQL: a failed statement aborts the transaction until a rollback; COMMIT of an aborted
  transaction rolls back and is reported; ROLLBACK TO keeps its savepoint; a COMMIT error means
  nothing was committed. A handler opens and undoes only savepoints of its own.
- `Load` is taken before `Run`; the counter does not reach the 32-bit limits; "announced" means the
  `/status` call was attempted.
- Frame ids do not collide; a body's hash stands for the body; the clock does not run backwards;
  requests under one Idempotency-Key do not overlap.
- api.sql() reads a search array as lib/entity/search.go:22-26 says. Beyond these lines: a compare code
  means its comparison, an element without one tests membership in its list, NULL meets no test but ISN,
  and an element whose value was left out of the JSON for being empty is read as the empty text.
- The row daemon.begin writes for a refusal carries the status it answers.
- The header map of a response is empty when a POST's work begins, names in it are in canonical form,
  and handlers write valid codes, 100 to 999. An informational header other than 101 begins no answer
  (net/http) and is not itself part of the answer that is compared.
- Address parsing, trust of an address, case folding and the database's order of values are parameters.

## Model

| member | source | states |
|---|---|---|
| Transaction.HandlerWithin | lib/pgtx/pgtx.go:453-458 | a handler leaves the same effects and abort flag above whatever savepoints and journal row it runs, and touches neither |
| Transaction.HandlerOnRoad | lib/pgtx/daemon.go:88-91 | the same for the two roads: with or without the savepoint `request`, which is still there afterwards |
| Transaction.CleanHandlerKeepsEverything | lib/pgtx/pgtx.go:458-485 | the effects of a handler that undoes nothing and meets no failure are all its writes in order |
| Transaction.UnansweredFailureAborts | lib/pgtx/pgtx.go:458-486 | a failed statement that no later rollback to a savepoint undoes leaves the transaction aborted, whatever else is sent |
| Transaction.SavepointUndoes | lib/pgtx/daemon.go:97-97 | a rollback to a savepoint drops whatever its block wrote, clears the abort and leaves the transaction as it was, whatever failed in the block |
| Transaction.SavepointReleases | lib/pgtx/pgtx.go:458-458 | releasing it keeps what the block did |
| Transaction.SwallowingHandler | lib/pgtx/pgtx.go:458-486 | a concrete handler for which the direct road keeps no audit row, and its harmless twin that reports the failure |
| Transaction.Explain | lib/pgtx/pgtx.go:554-637 | for every failure: the problem made or named by the database; else 409 exactly for 23505 and for 23503 under DELETE, 400 exactly for the other class-23 states, class 22 and P0001 without a catalogue code, 500 for the rest |
| Transaction.BeginRefusalTold | lib/pgtx/daemon.go:201-230 | the status in the row is the client's exactly when the database gave one that is 401 or 500 or came with a code |
| Transaction.BeginRefusal | lib/pgtx/daemon.go:201-230 | 401 exactly when the database said so; the code given is told with the status given; without one a 401 has ERR-401-001 and the rest is 500 |
| Transaction.Database.Commit | lib/pgtx/pgtx.go:479-485 | all of an unaborted transaction's writes and rows, or nothing and an error |
| Transaction.Runner.LogRequest | lib/pgtx/pgtx.go:499-516 | on success the row is in the transaction under the id scanned into the request; on failure the id is not touched, unless it had been read before the error |
| Transaction.Runner.JournalRefusal | lib/pgtx/pgtx.go:521-540 | the row is committed alone with the problem's status exactly when id is reported; nothing else changes |
| Transaction.Runner.Handle | lib/pgtx/pgtx.go:458-458 | the handler's statements one by one are its whole trace; status set only if the handler set one |
| Transaction.Runner.Finish | lib/pgtx/pgtx.go:474-486 | nil exactly when not aborted and every statement succeeded; then writes and row committed together, else neither, and no id unless it was read before the error |
| Transaction.Runner.Conclude | lib/pgtx/pgtx.go:474-486 | the same with the problem the client is told, by the statement that failed |
| Transaction.Runner.Refuse | lib/pgtx/pgtx.go:458-472 | a failed handler's row carries its problem's status and code and the caller's session, and is kept exactly when rollback, row and COMMIT succeed |
| Transaction.Runner.RefuseEarly | lib/pgtx/pgtx.go:419-451 | the same for a request that was not admitted |
| Transaction.Runner.ServeAuthorized | lib/pgtx/pgtx.go:453-486 | atomicity after authorisation; the audit row is missing exactly for a swallowing handler; the journal is truthful exactly when no stray id is reported |
| Transaction.Runner.DoDirect | lib/pgtx/pgtx.go:398-486 | nil exactly when nothing of the road fails, else the client is told the status its own failure calls for, whichever statement failed; one abstract step under every failure pattern; id reported iff row committed, with the client's status and code, exactly when the id is not stray; audit completeness with its exact exception |
| Transaction.Runner.End | lib/pgtx/daemon.go:154-163 | completes begin's row and reports its id only when the answer carries it |
| Transaction.Runner.Salvage | lib/pgtx/daemon.go:141-149 | the second rollback to the same savepoint commits begin's row alone, nothing of the handler |
| Transaction.Runner.Close | lib/pgtx/daemon.go:103-136 | nil means ended and committed; otherwise no write; an id is reported only for the completed, committed row |
| Transaction.Runner.ServeAdmitted | lib/pgtx/daemon.go:88-136 | atomicity once admitted; the row left behind is the caller's, with the client's status or none; it is there whenever only handler and daemon.end fail |
| Transaction.Runner.DoDaemon | lib/pgtx/daemon.go:39-149 | nil exactly when nothing of the road fails, else the status the failure calls for; the same abstract step as the direct road; the id is reported exactly when every statement succeeds; a completed row has the client's status, and its code unless the text holds a stray one; audit completeness without exception; what a refusal of daemon.begin leaves |
| Transaction.Runner.Do | lib/pgtx/pgtx.go:398-404 | whichever road the database offers, the same step and the status the failure calls for; the journal is truthful exactly when the road is the daemon's or the id is not stray |
| Transaction.Runner.ServeOne | lib/pgtx/pgtx.go:398-486 | one request with its own Request: data grows by its effects iff it is answered nil; its id is truthful exactly when not stray |
| Transaction.Runner.Serve | lib/pgtx/pgtx.go:398-486 | over any run of requests the data is the accepted effects in order, no earlier row is touched, no id is reported twice, every reported id but a stray one is a row with its client's status |
| StatusProtocol.WakeStep | lib/gatewayclient/load.go:37-72 | a count past a mark that the flag does not reflect always has a look coming |
| StatusProtocol.CostStep | lib/gatewayclient/load.go:56-72 | the cost invariant of the hysteresis, kept by every step |
| StatusProtocol.Verdicts | lib/gatewayclient/load.go:58-72 | the watcher's flag changes only as a flip that leaves SetOverloaded to be called |
| StatusProtocol.SayingNext | lib/gatewayclient/client.go:325-341 | under statusMu what is said next is not what was said last, and is out of turn exactly when it is a first ready or the session is marked lost |
| StatusProtocol.SpeakSync | lib/gatewayclient/client.go:312-350 | SetOverloaded and syncStatus keep of every session: `said` is what was told but for the mark, order but for the mark, draining last |
| StatusProtocol.SpeakRun | lib/gatewayclient/session.go:107-174 | so do registration, loss of the socket and drain |
| StatusProtocol.FlagSync | lib/gatewayclient/client.go:312-350 | the flag of every live session, raced or not, is said or about to be read again |
| StatusProtocol.FlagRun | lib/gatewayclient/session.go:107-174 | the same through registration and drain |
| StatusProtocol.StateSync | lib/gatewayclient/client.go:341-350 | a turn leaves State() at what was said, unless its word was written over meanwhile, which marks it |
| StatusProtocol.StateRun | lib/gatewayclient/session.go:117-121 | so does the registration, unless an overloaded came before it, which marks it |
| StatusProtocol.CountSync | lib/gatewayclient/client.go:325-341 | a turn of syncStatus speaks at most once |
| StatusProtocol.Step | lib/gatewayclient/client.go:216-350 | every step of every goroutine keeps the whole invariant |
| StatusProtocol.Always | lib/gatewayclient/client.go:216-350 | it holds after every interleaving |
| StatusProtocol.AlternatesInOrder | lib/gatewayclient/session.go:107-121 | alternation from overloaded, closed by draining, is exactly the language (overloaded ready)\* [overloaded] [draining] |
| StatusProtocol.InOrderNeverRepeats | lib/gatewayclient/session.go:166-174 | in that language no two neighbours are equal and nothing follows draining |
| StatusProtocol.AnnouncementOrder | lib/gatewayclient/client.go:312-350 | in every interleaving and on every session: draining once and last; the announcements are in that language exactly when not misordered; `said` is what the gateway holds exactly when not lost |
| StatusProtocol.Convergence | lib/gatewayclient/client.go:322-350 | with a live, non-draining session and nobody in syncStatus, `said` is the current flag, however callers raced each other or the registration; the gateway holds it exactly when not lost, State() is it exactly when not misstated |
| StatusProtocol.DrainIsNotOverwritten | lib/gatewayclient/session.go:166-174 | once a drain has set State() to draining nobody overwrites it while the drain lasts |
| StatusProtocol.DrainIsAnnounced | lib/gatewayclient/session.go:166-174 | a drain past its call has announced draining, as the last word; without a connection State() is offline or connecting |
| StatusProtocol.NoLostWakeUp | lib/gatewayclient/load.go:37-72 | watcher idle, slot empty, no Add in progress: the flag is on from the capacity up and off from max(1, capacity/4) below it, the count being the sum of all Adds; after a capacity change, once a registration has poked |
| StatusProtocol.AmortisedStatus | lib/gatewayclient/load.go:37-72 | with the capacity c unchanged the flips of an interleaving, and the /status calls they cause, times max(1, c/4) never exceed the total change by its Adds |
| StatusProtocol.AddsUp | lib/gatewayclient/load.go:37-72 | count, capacity, flips, words told, registrations and callers are what the events of the interleaving add up to |
| StatusProtocol.FlagSetBy | lib/gatewayclient/client.go:312-316 | the flag changes by a caller's SetOverloaded and the watcher's, to what they say, and by nothing else |
| StatusProtocol.UndisturbedIsEnough | lib/gatewayclient/session.go:107-118 | no SetOverloaded inside a registration's window: no session is marked, all announcements are in order, gateway and State() converge |
| StatusProtocol.RacedRegistrationRepeats | lib/gatewayclient/session.go:107-121 | an interleaving that announces overloaded twice in a row |
| StatusProtocol.RacedRegistrationStrands | lib/gatewayclient/session.go:107-121 | an interleaving that ends quiet with the gateway holding overloaded and the client ready |
| StatusProtocol.CrossedRegistrationMisreports | lib/gatewayclient/session.go:107-121 | an interleaving that ends quiet with State() ready and the flag overloaded |
| StatusProtocol.OverwrittenTurnMisreports | lib/gatewayclient/session.go:107-121 | an interleaving that ends quiet with State() overloaded, the flag off and `said` ready |
| Frames.RoundTrip | lib/gateway/frame/frame.go:51-114 | Parse of Encode gives the frame back exactly when it is canonical |
| Frames.BuiltFramesArrive | lib/gateway/frame/frame.go:117-137 | frames of NewCall and Result arrive unchanged, those of Error with `{}` for the payload |
| Frames.ParsedIsAllowed | lib/gateway/frame/frame.go:51-90 | Parse takes exactly the records up to 64 KiB with a type of three, a UUID, an action when a call, a code when an error, and no payload but an object |
| Calls.AnsweredId | lib/gateway/frame/frame.go:126-137 | an answer carries the id of the frame the gateway parsed |
| Calls.Step | lib/gatewayclient/session.go:213-284 | every step of callers, reader and gateway keeps tables, questions and deliveries consistent |
| Calls.Always | lib/gatewayclient/session.go:213-284 | so does every interleaving |
| Calls.ReaderNeverBlocks | lib/gatewayclient/session.go:271-279 | whenever the reader has a frame to hand over the slot is empty |
| Calls.AtMostOneFrame | lib/gatewayclient/session.go:271-279 | no channel gets two frames, however often an id is answered |
| Calls.AnswerReachesItsCall | lib/gatewayclient/session.go:213-233 | call returns only a frame with its own id, and a frame that answers a sent one only if that one was its own |
| Calls.AnswerIsDelivered | lib/gatewayclient/session.go:213-284 | from every reachable state in which the reader reads and a call waits, given nothing: an answer to its question, a result or an error, is handed to it and returned, with the payload or the code and message sent |
| Calls.TimedOutIsForgotten | lib/gatewayclient/session.go:226-231 | a call that timed out has left the pending table |
| Search.EscapedIsLiteral | lib/entity/search.go:61-63 | an escaped text matches itself and nothing else, before any further pattern |
| Search.PatternMatchesContaining | lib/entity/search.go:40-63 | `%` + EscapeLike(t) + `%` matches exactly the strings that contain t |
| Search.ContainsSomewhere | lib/entity/search.go:40-63 | containing is having t at some position |
| Search.PatternNoDangling | lib/entity/search.go:61-63 | the pattern never ends in a dangling escape |
| Search.PatternMatchesFolded | lib/entity/search.go:40-63 | the same under ILIKE for every folding that keeps the three special characters |
| Search.SearchOf | lib/entity/search.go:27-57 | nil exactly when there is nothing to say; else filters in order, then one bracketed OR group |
| Search.ArrayMeans | lib/entity/search.go:22-57 | read with SQL precedence the array is: every filter and, with a term, some field's test; for any number of both |
| Search.SearchSelects | lib/entity/search.go:22-57 | a row is selected exactly when it passes every filter and some field contains the trimmed term but for case |
| Query.KeyRoundTrip | lib/query/query.go:93-104 | a well-made key is read back from its parameter name |
| Query.NameRoundTrip | lib/query/query.go:93-104 | a name that reads as a key is the name of that key |
| Query.Parse | lib/query/query.go:62-117 | whatever order the map is walked in, the fold of the single-parameter step over the sorted keys |
| Query.ParseSort | lib/query/query.go:73-83 | the loop over sort= appends every term or refuses |
| Query.ParseFields | lib/query/query.go:84-90 | the loop over fields= appends every name or refuses |
| Query.OrderTermsExact | lib/query/query.go:73-83 | accepted exactly when every bare field is an identifier, then one direction per field in order |
| Query.FieldsAsWritten | lib/query/query.go:84-90 | fields= over a list of names selects these names in order, and is refused exactly when one is no identifier |
| Query.SortAsWritten | lib/query/query.go:73-83 | sort= over a list of fields and directions orders by these in order, and is refused exactly when one is no identifier |
| Query.StepExact | lib/query/query.go:62-159 | one parameter: accepted exactly when acceptable, and what it then adds |
| Query.FoldExact | lib/query/query.go:62-117 | Parse succeeds exactly when each parameter is acceptable by itself, and adds them up |
| Query.SearchExact | lib/query/query.go:93-108 | the conditions are the filter keys' and no others |
| Query.SearchedKeys | lib/query/query.go:68-108 | one condition per filter key, in key order |
| Query.PassedOver | lib/query/query.go:109-114 | a parameter that is neither sort, fields nor a well-made filter or page key is refused exactly when its family, up to the first bracket, is of a-z only, and otherwise changes nothing |
| Query.ParseLosesNothing | lib/query/query.go:62-159 | Parse succeeds exactly when every key's last value is acceptable; then one condition per filter key, limit 1..1000, offset >= 0, every name an identifier |
| Query.ParseSelects | lib/query/query.go:62-135 | fields and order are those of the last fields= and sort= given; limit and offset the last page keys' in key order, 500 and 0 where there is none |
| Query.FilterKeysSorted | lib/query/query.go:68-108 | the conditions come in key order |
| Query.AtoiReads | lib/query/query.go:119-135 | a page number is read as written, with its sign, when it is one of 64 bits |
| Query.OrderFree | lib/query/query.go:62-68 | the order the map is walked in does not matter |
| Query.FilterMeans | lib/query/query.go:138-159 | the condition asks of the field's value what the request's operator says, NULLs and lists included |
| Query.ListAsWritten | lib/query/query.go:138-159 | filter[x][in] over a list of values asks for one of these values |
| Query.RequestSelects | lib/entity/search.go:22-57 | from the URL to the rows: Parse's conditions in SearchOf's array select exactly the rows that have what every filter key asks and the term in some field |
| Query.SecondPageBracketIgnored | lib/query/query.go:93-103 | page[x][y] is page[x] |
| Idempotency.JoinedInjective | lib/rest/rest.go:448-485 | the joined map key is injective when user and key hold no NUL, whatever the path holds |
| Idempotency.JoinedCollides | lib/rest/rest.go:448-485 | a NUL in user or in key moves to the path: two triples with one join, for any texts |
| Idempotency.UserNeedsNoNul | lib/rest/rest.go:448-485 | the user has no NUL exactly when its join meets no other user's or path's, other users and all keys being free of it |
| Idempotency.KeyNeedsNoNul | lib/rest/rest.go:448-485 | the key has no NUL exactly when its join meets no other key's or path's, other keys and all users being free of it |
| Idempotency.Capture.WriteHeader | lib/rest/rest.go:552-552 | the status is the last header's, body and header map untouched |
| Idempotency.Capture.Write | lib/rest/rest.go:555-561 | the body grows; a first write means 200 |
| Idempotency.Capture.Run | lib/rest/rest.go:545-561 | what is recorded of a whole handler: status, body, header map at its end |
| Idempotency.BodiesConcat | lib/rest/rest.go:555-561 | a body is its writes one after another |
| Idempotency.ReplayIsTheAnswer | lib/rest/rest.go:535-561 | for every handler that writes valid codes, informational ones included: a replay is the answer the client got, marked, exactly when something was written, the last code written gives the status sent, and no header touched after the answer began is left other than sent |
| Idempotency.LateValue | lib/rest/rest.go:508-561 | a header's value when the answer is stored is what the handler last did to it after the answer began, or else the value sent |
| Idempotency.LateIsTouchedLate | lib/rest/rest.go:508-561 | a header is late exactly when some statement touches it after one that began the answer |
| Idempotency.HeadersReplayed | lib/rest/rest.go:535-541 | replayed and sent headers agree, the mark aside, exactly when every late change left the value sent |
| Idempotency.SettledHeadersStand | lib/rest/rest.go:535-561 | a handler that touches no header once its answer has begun is replayed with the headers sent |
| Idempotency.Replay | lib/rest/rest.go:535-542 | the loop over the stored headers copies them all and adds the mark; a status that is no valid code is a panic, an informational one is answered 200 |
| Idempotency.Store.Lookup | lib/rest/rest.go:482-493 | the swept map answers as the unswept one would |
| Idempotency.Store.Sweep | lib/rest/rest.go:499-505 | only expired entries go, and all of them |
| Idempotency.Store.Keep | lib/rest/rest.go:496-508 | the last answer per key, sweep or no sweep |
| Idempotency.Store.Once | lib/rest/rest.go:513-532 | outcome and store move as the first-answer map does; the response for each outcome: 409 for a conflict, Idempotency-Replayed on a replay |
| Idempotency.Store.Serve | lib/rest/rest.go:513-532 | over any run of requests that do not overlap the store ends as the first-answer map and gives its outcomes, one by one |
| Idempotency.LiveAnswerStands | lib/rest/rest.go:482-532 | while an answer is live no run of requests changes it |
| Idempotency.AtMostOnce | lib/rest/rest.go:510-532 | after a stored answer every POST of its user, path and key inside the TTL is replayed or refused, never run |
| Idempotency.AtMostOnceInRun | lib/rest/rest.go:510-532 | in any such run, when the i-th request ran and was answered below 500, no later one of its user, path and key inside the TTL runs |
| Idempotency.RunsExactlyWhen | lib/rest/rest.go:482-532 | in any run from the empty store a request runs its work exactly when it has no key, or no earlier one of its user, path and key ran, was answered below 500 and stored within the TTL: the retry of a 5xx reaches the database |
| Idempotency.OthersUnaffected | lib/rest/rest.go:446-508 | a POST under another user, path or key sees no difference |
| Prefixes.New | module.go:77-97 | refused exactly when there is no module or a prefix is claimed twice; the two modules named do claim it |
| Prefixes.Claim | module.go:86-93 | one module's prefixes: refused at the first that is taken |
| Prefixes.AllConcat | module.go:103-106 | the prefixes in question are the modules' own, one module after another |
| Prefixes.UnderIsOn | module.go:110-114 | nesting stops at a segment: the test by text holds exactly when the segments of the one begin those of the other |
| Prefixes.Announced | module.go:102-121 | a prefix is announced exactly when it is one of the modules' and no other of them has segments that begin its own |
| Prefixes.UnderChain | module.go:110-114 | the prefixes above one path are comparable |
| Prefixes.KeptInOrder | module.go:99-121 | registration order is kept and nothing repeats |
| Prefixes.SomeKeptAbove | module.go:99-121 | above every prefix one is announced |
| Prefixes.CoveringAntichain | module.go:99-121 | by segments: none announced is nested in another, and every prefix lies under exactly one |
| Prefixes.NoOverlap | internal/gatewaystub/stub.go:316-325 | the gateway's test accepts exactly the lists of prefixes none of which is nested in another by segments |
| Prefixes.AnnouncedPasses | internal/gatewaystub/stub.go:316-325 | what is announced passes it exactly when it repeats nothing, so always for the prefixes New accepts |
| ClientAddr.ForwardedChain | module.go:320-330 | all headers' elements in order, trimmed, blanks dropped |
| ClientAddr.ChainJoins | module.go:318-330 | a header in two lines is the header in one |
| ClientAddr.ChainAsWritten | module.go:318-330 | a header line reads as the hops written in it, in order, white space and blank ones dropped |
| ClientAddr.Resolve | module.go:302-315 | the backwards loop is the recursive walk |
| ClientAddr.ClientAddr | module.go:286-316 | the answer with and without a list of proxies, without one the last element if it reads; never empty when the peer reads |
| ClientAddr.AnswerIsClient | module.go:60-67 | it is the address at the rightmost untrusted hop, the one after an unreadable hop, or the leftmost |
| ClientAddr.ForgedHopsIgnored | module.go:279-316 | nothing on the left of an untrusted or unreadable element, or of the last without a list, changes the answer |
| DsnKeys.PastQuoted | lib/pgtx/pgtx.go:319-325 | past the closing quote, or at most two past the end |
| DsnKeys.PastPlain | lib/pgtx/pgtx.go:326-333 | past an unquoted value with escapes, or at most one past the end |
| DsnKeys.NextKey | lib/pgtx/pgtx.go:301-336 | each turn of the loop moves forward and finds one pair's key or none |
| DsnKeys.KeywordKeys | lib/pgtx/pgtx.go:300-339 | every string is scanned to its end without reading out of range |
| DsnKeys.KeysAreWords | lib/pgtx/pgtx.go:300-339 | on every string, well written or not, what is found is not empty and holds no blank and no equals sign |
| DsnKeys.DsnKeys | lib/pgtx/pgtx.go:290-339 | the URL's query names, or the scan |
| DsnKeys.WrittenKeysFound | lib/pgtx/pgtx.go:286-339 | for any list of pairs and valueless words, any blanks, any quoting and escapes: exactly the keys of the pairs |
| DsnKeys.AnyTextQuotes | lib/pgtx/pgtx.go:286-289 | every text can be written as a quoted value |
| DsnKeys.ValueTextIsNoKey | lib/pgtx/pgtx.go:286-289 | a name inside a value is not a parameter, whatever the text |
| DsnKeys.TabHidesKey | lib/pgtx/pgtx.go:301-333 | any blanks without a space between two unquoted pairs hide the second, for every pair |
| DsnKeys.PiecesScanned | lib/pgtx/pgtx.go:300-337 | what is found in pairs separated by any blanks: each key with the blanks since the last space, but for pairs taken for part of an unquoted value |
| DsnKeys.SeparatorsThatServe | lib/pgtx/pgtx.go:286-337 | of pairs of distinct keys exactly the keys are found if and only if every separator ends in a space, or is left out where no unquoted value stands before |
| DsnKeys.KeyBeforeBlanks | lib/pgtx/pgtx.go:304-313 | key, blanks, sign and anything: one key is read there, of the key and the blanks what follows the last space but those at the end |
| DsnKeys.KeyReadExact | lib/pgtx/pgtx.go:304-313 | it is the pair's key exactly when the blanks before the sign are all spaces |
| DsnKeys.BlankLetsNameOut | lib/pgtx/pgtx.go:314-333 | blanks after the sign that are not all spaces hide the quote: for every name without quotes and backslashes there is a quoted text in which it is taken for a parameter |
| DsnKeys.BlanksAroundEquals | lib/pgtx/pgtx.go:286-337 | whatever text the value quotes exactly the key is found, if and only if the blanks on both sides of the sign are all spaces |
| CallSql.SqlTypesAreWords | lib/pgtx/call.go:53-58 | every type of the list is a word of name characters |
| CallSql.FirstNotIdent | lib/pgtx/call.go:69-74 | a key that is no identifier is found in whatever order the map is walked |
| CallSql.Build | lib/pgtx/call.go:76-93 | argument i is key i with placeholder i+1 and its pin, value i its value; or the first refused argument in key order |
| CallSql.CallSql | lib/pgtx/call.go:63-95 | accepted exactly when name, keys and arguments are; which refusal otherwise; text and values on success |
| CallSql.StatementReadsBack | lib/pgtx/call.go:91-94 | an independent reader of the statement gets the function and the bound arguments back |
| CallSql.CallReadsBack | lib/pgtx/call.go:60-95 | every key once, in key order, placeholder i for the i-th key |
| CallSql.OneCallOneText | lib/pgtx/call.go:60-95 | two accepted calls send one text exactly when function, keys and pins agree; values and map order do not show |
| CallSql.CallIsOfApi | lib/pgtx/call.go:60-94 | the statement calls the function of schema api that was named, with or without the schema |
| CallSql.OneFunctionTwoNames | lib/pgtx/call.go:60-64 | "api.f" and "f" are one function |

## Left out

- Transaction.Explain: titles, detail texts and catalogue lookups; only which problem and status.
- Transaction.Runner.DoDaemon: the arguments of daemon.begin, the context marker of the road and `daemon.call`.
- Cancellation of a request in the middle of a query: it depends on the driver; a failing statement stands for it.
- StatusProtocol.UndisturbedIsEnough: one direction, in terms of calls, since a call inside the window whose turn comes after it does no harm; the equivalences, in terms of what the code did, are AnnouncementOrder and Convergence.
- `Run`'s back-off, replacement handling, heartbeats, events, the waiting loop of a drain and the `/reload` merge of prefixes; of `/reload` only the capacity is kept.
- StatusProtocol.Step: the fields the goroutines share are one value and each access a function of it, since an interleaving is a sequence of accesses; the goroutines' own control flow is the position each is at.
- Calls.Step: the same form as StatusProtocol; commands the gateway sends (`handle`) and frames that do not parse, which never touch the table of calls.
- Frames.RoundTrip: the JSON text itself; a frame is its wire record and its size.
- Search.SearchOf: the JSON encoding of the array.
- Query.StepExact: `page` and the appends of one parameter are functions of the translation so far, not updates in place.
- ClientAddr.ClientAddr: the loop of `isTrusted` and the parsing in `addrOf`, which are parameters.
- Query.Parse: the texts of the refusals; the URL decoding before it.
- Idempotency.Store.Once: headers and body of the 409, repeated values of one header; two overlapping requests under one key, which the code does not serialise.
- A bound on the size of the idempotency map: the sweep removes only expired entries, so there is none.
- DsnKeys.SeparatorsThatServe: pairs with no blanks around the sign, and no quoted value taken for part of the value before it, whose text would then decide which keys are found; blanks around the sign are BlanksAroundEquals, one pair at a time.
- DsnKeys.DsnKeys: url.Parse; the names in a URL's query are a parameter.
- CallSql.CallSql: the code fills slices made in their final length; here they grow element by element. The texts of the refusals.
- `OpenPrefixes`, `catalogueTitle`, `Detect`, pool limits, `NewID`: easy members or input and output.
- ETags, PATCH preconditions, OpenAPI building, JWT checking, the platform packages (admin, workflow, registry, log, current and the others) and the test harnesses.
