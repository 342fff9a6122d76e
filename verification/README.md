# Verification of the SMTP-to-webhook bridge

These Dafny files model the logic of a bridge that takes mail over SMTP and
hands each message to HTTP webhooks, either inline ("sync", the SMTP reply
waits for the webhook) or through a durable SQLite queue that a worker drains
("async"). `dafny verify dfyconfig.toml` checks everything.

How the parts fit together:

- **The queue and its worker.** `Queue` has the tables and a `Store` class with
  one method per SQL statement; `Delivery` has one webhook attempt, the fate it
  leads to, and the `Deliverer` class that handles one job at a time. `Worker`
  is the same worker as a step system: the loop's semaphore, its goroutines, the
  barrier, concurrent arrivals and sync deliveries, refused writes, cancellation, and crash with
  restart under any settings. A run is a sequence of labels; a label carries
  everything chance decides (replies, clock readings, refusals, the order in
  which ties are claimed). `Exclusion`, `Once`, `Progress`, `Loss`, `Settlement`, `Attempts`,
  `Serial`, `Liveness`, `Timing` and `Cancellation` prove what holds of every run.
- **The session.** `Session` is the SMTP session as a machine over callbacks in
  any order; `Server` is the session object itself, whose methods are proved to
  be that machine, and whose `Data` drives deliveries and enqueues. `Fanout` says
  what the distinct routes of a recipient list are. `Login` is SASL LOGIN.
- **Configuration.** `Config` (defaults and validation) and `Router` (matching),
  joined with the session and the worker in `EndToEnd`.
- **Smaller parts.** `Backoff` (64-bit delays, millisecond times), `Mail` and
  `Payload` (MIME tree walk, webhook body), `Recipients` (stored recipient column).

Durations and clock readings are integers in nanoseconds, with 64-bit
wrap-around written out where the program computes a delay; rows hold
milliseconds.

## What turned out to need a condition

- **Conflicting credentials.** The comparison key `password NUL hash` does not
  determine the two parts. `Config.CollisionWitness` gives an accepted
  configuration in which one username has two different credentials;
  `Config.AdmissibleCredentials` shows this happens exactly when a password
  starts with NUL and a same-user hash is its tail followed by NUL.
- **Backoff.** Nothing bounds `max_retries` or `retry_backoff`, so the delay can
  wrap: with the default base of 10 s it is negative after attempt 31
  (`Backoff.DefaultBaseWraps`). `Backoff.DelaysExact` says exactly which settings,
  negative bases included, are free of it.
- **Subaddressing.** A `+tag` is ignored by the local-part condition but not by
  an exact `rcpt` condition (`Router.ExactConditionSeesTag`).
  `Router.TagBlindExactly` says exactly when the tag makes no difference: when
  the user's first route that can take either address has no exact condition.
- **Recipients.** The stored column gives the list back exactly when the list is
  non-empty and no address holds a comma or outer white space
  (`Recipients.RoundTripExactly`).
- **Cancellation.** Once the context is cancelled a drain can be abandoned with
  work in flight, and a further tick can start the same job again, for every
  concurrency (`Cancellation.CancellationBreaksExclusion`). That is the only step
  that breaks exclusion, cancelled or not (`Exclusion.ExclusiveStep`), and a run
  without it since the last restart stays exclusive (`Exclusion.ExclusionWhileTidy`).
  Attempt bounds and timing are stated up to cancellation, and a delivered job
  left to another goroutine can be attempted again (`Settlement.NotSoleCallsAgain`);
  no-silent-loss, authorisation and never-dropped hold regardless.
- A comment calls the domain returned by `split` lowercased; the code does not
  change its case, and matching folds case instead. The model follows the code.

## Model

| member | source | states |
|---|---|---|
| Exclusion.MutualExclusion | internal/delivery/delivery.go:169-192 | in every reachable state that is not past cancellation: at most `Concurrency` goroutines, no job in two of them or both running and waiting, each unwritten one still matching its row, none between drains |
| Exclusion.ExclusionWhileTidy | internal/delivery/delivery.go:169-192 | after every run, cancelled or not, that has left no drain behind with work in flight since its last restart, the same holds |
| Exclusion.ExclusiveStep | internal/delivery/delivery.go:176-191 | a step keeps exclusion if and only if it is not an abandoning of the drain while goroutines are at work |
| Exclusion.InvStep | internal/delivery/delivery.go:169-221 | the inductive invariant behind it survives every single step, crashes included |
| Exclusion.FillKeeps | internal/delivery/delivery.go:188-191 | the token that completes the barrier fits only when no goroutine is left, so a drain never ends with a job in flight |
| Worker.AccountedStep | internal/delivery/delivery.go:176-191 | every step keeps: the channel holds one token per goroutine of its own drain plus the loop's own, never more than its capacity |
| Cancellation.CancellationBreaksExclusion | internal/delivery/delivery.go:160-181 | for every concurrency a concrete run in which cancellation leads to one job in two goroutines and to more goroutines than the limit |
| Progress.NeverStuck | internal/delivery/delivery.go:177-191 | a drain in progress always has an enabled step: neither acquiring a token nor the barrier can block for ever |
| Progress.StepConsumes | internal/delivery/delivery.go:177-191 | every drain step strictly lowers a non-negative measure |
| Progress.DrainIsBounded | internal/delivery/delivery.go:169-192 | under any interleaving with arrivals, a drain takes at most as many steps as the measure at its start |
| Progress.DrainCanFinish | internal/delivery/delivery.go:169-192 | from any point of a drain there is a bounded continuation that ends with no goroutine left |
| Serial.DrainIsSerial | internal/delivery/delivery.go:176-221 | every interleaving of a completed drain, with arrivals and the log entries of concurrent sync deliveries mixed in, leaves exactly the table and the log that handling the claimed jobs one after another leaves, followed by the arrivals and with those entries |
| Serial.InterleavingsAgree | internal/delivery/delivery.go:176-221 | two interleavings with the same outcomes per job, the same arrivals and the same entries of sync deliveries end with the same table and log |
| Serial.HandleAllAt | internal/store/store.go:391-403 | handling a batch of distinct jobs changes each row only through its own job, with that job's own outcome |
| Once.OncePerDrain | internal/delivery/delivery.go:177-202 | a completed drain attempts the webhook once for each claimed job with a known route, and for no other job |
| Loss.NoSilentLoss | internal/delivery/delivery.go:194-221 | in every run, with crashes, restarts under other settings, refused writes and cancellation, each id ever inserted is still queued, or was answered 2xx, or failed an attempt numbered at least `MaxRetries` of the settings then running, or named a route those settings lacked |
| Loss.LossStep | internal/delivery/delivery.go:194-221 | the invariant behind it survives every step, writes by stale goroutines included |
| Loss.CallsAreGenuine | internal/delivery/delivery.go:202-202 | every attempt carries message id, route and payload of a job that really arrived, to a route in force |
| Settlement.DeliveredForGood | internal/delivery/delivery.go:201-208 | after any run that left no drain behind: once the write of a job answered with a status from 200 to 299 is accepted, the job is never queued and never attempted again, whatever follows, cancellation, crashes and restarts under other settings included |
| Settlement.SoleIsSettled | internal/delivery/delivery.go:201-208 | the same from any state in which no other goroutine is still to call for the job and it does not wait to be started |
| Settlement.NotSoleCallsAgain | internal/delivery/delivery.go:177-187 | if another goroutine is still to call for a delivered job, the very next step can attempt it again |
| Settlement.WriteExactly | internal/delivery/delivery.go:204-217 | a goroutine's accepted write removes exactly its own row after a status from 200 to 299 or the last attempt, and otherwise leaves that row with one more attempt, due one delay after the clock reading; a refused write changes nothing |
| Settlement.DropExactly | internal/delivery/delivery.go:195-200 | a job without a route loses exactly its own row |
| Settlement.RetryExactly | internal/delivery/delivery.go:214-217 | for a base in whole milliseconds a retried row is due exactly base * 2^(attempt-1) milliseconds after the clock reading, neither early nor late, and is otherwise unchanged |
| Settlement.NoteExactly | internal/delivery/delivery.go:203-203 | the record names the message, the route, the attempt number, the status (0 without one) and whether it was from 200 to 299 |
| Settlement.RecordsStay | internal/store/store.go:143-153 | in every run no delivery record is lost and no id is given twice |
| Settlement.CrashKeeps | internal/store/store.go:72-80 | a crash loses what is in flight and nothing that was written |
| Attempts.AttemptsBounded | internal/delivery/delivery.go:201-219 | a job's attempts number at most max(1, `MaxRetries`) plus the crashes and refused queue writes that hit it; a live row's count never exceeds the attempts made and stays below that limit |
| Attempts.AttemptsNeverFall | internal/delivery/delivery.go:217-217 | no step lowers a live row's attempt count or raises it by more than one |
| Attempts.AttemptStep | internal/delivery/delivery.go:194-221 | the counting invariant, including the call that has been made but not recorded, survives every step |
| Liveness.NoStarvation | internal/store/store.go:369-374 | a row due by `t` with m others due by `t` is claimed by drain number m / (4 * Concurrency) + 1 at the latest, however ties are ordered and whatever arrives later |
| Liveness.DrainClears | internal/delivery/delivery.go:169-221 | after a faultless drain the rows due by `t` are among those that were before and were not claimed; unclaimed rows are unchanged |
| Liveness.QueueEmpties | internal/delivery/delivery.go:194-221 | without arrivals or faults the number of jobs handled over any series of drains is at most the sum of max(1, `MaxRetries` - attempts), and after that many drains that find something due the table is empty |
| Liveness.HandledLowersRank | internal/delivery/delivery.go:204-217 | handling any one queued job with its write accepted strictly lowers that sum |
| Liveness.DrainIsFine | internal/delivery/delivery.go:188-221 | when no write is refused, the barrier guarantees that each claimed job's write was made by the end of the drain, timed no earlier than the claim |
| Timing.NeverEarly | internal/delivery/delivery.go:214-217 | attempt k is claimed no earlier than arrival plus base * (2^(k-1) - 1) milliseconds, in every uncancelled run in which a goroutine never reads the clock earlier than its drain did, refused writes and crashes included |
| Timing.NextTryMillis | internal/store/store.go:397-403 | for a base in whole milliseconds truncation loses nothing: the stored time is the truncated clock reading plus the exact delay |
| Backoff.DelayExact | internal/delivery/delivery.go:215-215 | the 64-bit product equals base * 2^(attempt-1) if and only if that number fits in 64 bits |
| Backoff.DelaysExact | internal/delivery/delivery.go:209-216 | for any base, negative ones included, every delay that can be used is exact if and only if the longest one fits in 64 bits, a condition on the settings alone |
| Backoff.DelayIsWrapped | internal/delivery/delivery.go:215-215 | shift past the width, truncated power and wrapped product together amount to one wrap of the exact product |
| Backoff.DefaultBaseWraps | internal/config/config.go:278-280 | with the default base the delay is positive after attempt 30 and negative after attempt 31 |
| Backoff.MillisFloor | internal/store/store.go:373-373 | a stored time is the number of whole milliseconds, a million nanoseconds each, rounded down |
| Queue.Store.ClaimDue | internal/store/store.go:369-388 | an answer is a list of distinct jobs with the contents of their rows, all due at the reading or before, earliest first, at most the limit, passing over a due row only when full of rows due no later; query, scan and iteration errors give no answer; nothing is marked |
| Queue.Store.SelectDue | internal/store/store.go:370-374 | the select itself meets that description, by repeated choice of any earliest row |
| Queue.SelectOne | internal/store/store.go:372-373 | choosing an earliest remaining row keeps the selection ordered, distinct, and no later than what remains |
| Queue.Store.Enqueue | internal/store/store.go:355-366 | one new row under an id never used before, due at the clock reading with no attempts, every other row as it was; or no change |
| Queue.Store.CompleteJob | internal/store/store.go:391-394 | removes that row and no other; ids are not freed |
| Queue.Store.RescheduleJob | internal/store/store.go:397-403 | the row, if there, gets the given count and the given time in whole milliseconds; its other fields and every other row stay |
| Queue.Store.LogMessage | internal/store/store.go:124-139 | replaces the message of that id when content logging is on and the write succeeds; otherwise nothing changes |
| Queue.Store.LogDelivery | internal/store/store.go:143-153 | adds one record when content logging is on and the write succeeds; otherwise nothing changes |
| Delivery.Deliverer.Attempt | internal/delivery/delivery.go:105-132 | an attempt becomes an HTTP request exactly when the request can be built; no error exactly for a status from 200 to 299, otherwise the stated text; code 0 without a response |
| Delivery.DecimalReads | internal/delivery/delivery.go:129-129 | the status in the error text is written in decimal digits that stand for it, without leading zeros |
| Delivery.Deliverer.DeliverSync | internal/delivery/delivery.go:136-144 | a failed marshal attempts and logs nothing; otherwise one record of attempt 1, and one request unless it could not be built; success exactly on 2xx |
| Delivery.Deliverer.Enqueue | internal/delivery/delivery.go:147-153 | a row under the payload's own message and route exactly when it could be marshalled and stored |
| Delivery.Deliverer.Process | internal/delivery/delivery.go:194-221 | with the write accepted the row goes when the route is unknown, the status was from 200 to 299 or the attempt was the last, and otherwise is kept with one more attempt and its next time; other rows stay; the record and the attempt made are stated too; all of it equals the handling the serial theorem is about |
| Payloads.BuildPayload | internal/delivery/delivery.go:50-81 | the body carries the whole message; each attachment keeps place, name and size, its content appears only when included and within the cap, truncation is flagged exactly when the cap cut it |
| Server.Connection.Data | internal/server/server.go:284-347 | accepted exactly when every sync route was answered 2xx and every async route stored; then one attempt per distinct sync route and one row per distinct async route; a sync failure leaves no row and no later attempt; an enqueue failure leaves exactly a prefix of the async rows, after all sync attempts; log entries and the captured message are fixed too |
| Server.Connection.DeliverFirst | internal/server/server.go:313-336 | either all sync routes were attempted in first-seen order and succeeded, or attempts stop at the first failure |
| Server.Connection.QueueRest | internal/server/server.go:337-345 | exactly the async routes up to the first refusal have rows, under consecutive new ids |
| Server.Connection.DistinctRoutes | internal/server/server.go:293-301 | the name list and the map built in one pass are the distinct matched routes in first-seen order, each name leading to its route |
| Server.Connection.KeepMessage | internal/server/server.go:303-309 | the captured message has the session's sender and user, the subject, raw text and its size, the time in milliseconds, and the joined recipients and route names; a refused write changes nothing |
| Server.SyncPrefix | internal/server/server.go:323-334 | when delivery stops at a sync route, the routes called before it are exactly the sync routes ahead of it in the full list |
| Server.SuccessIsOnWire | internal/server/server.go:323-334 | when all sync routes succeeded each attempt was a request that was sent |
| Server.Connection.Authenticate | internal/server/server.go:227-242 | succeeds exactly when the name is known and the password passes: against the hash if there is one, otherwise by being equal; sets the username exactly then and nothing else |
| Server.Connection.Mail | internal/server/server.go:264-270 | refused with 530 exactly when no username is set |
| Server.Connection.Rcpt | internal/server/server.go:275-282 | refused with 550 exactly when the user has no matching route; otherwise the recipient is kept with its route |
| Server.Connection.Reset | internal/server/server.go:357-360 | sender and recipients are empty afterwards and the user is kept |
| Server.LoginServer.Next | internal/server/login.go:21-37 | each response gets the prompt "Username:" or "Password:" or is checked through the session with the username given, exactly as the exchange machine says |
| Fanout.DistinctInOrder | internal/server/server.go:293-301 | each listed route is the one that carried its name first, in order of first sight |
| Fanout.DistinctCovers | internal/server/server.go:296-301 | no recipient's route name is missing from the list |
| Fanout.ListedExactly | internal/server/server.go:293-301 | under unique names the list holds exactly the recipients' own routes |
| Fanout.DividedExactly | internal/config/config.go:202-210 | the inline part holds, once each, exactly the recipients' routes that have a webhook and whose own mode, or else the default, is sync; the queued part exactly the others with a webhook |
| Session.AuthenticationIsMandatory | internal/server/server.go:227-282 | after any callbacks in any order: no username exactly when nobody was proved, and every accepted recipient's route is its proved owner's first match |
| Session.RecipientsHoldCredentials | internal/server/server.go:257-282 | to have a route accept a recipient the session presented a password that passes bcrypt against that route's hash, or equals its password when it has no hash |
| Session.EmptyUserNeverProves | internal/config/config.go:369-371 | under an accepted configuration no password proves the empty username |
| Session.BuildUsers | internal/server/server.go:63-66 | the credential map holds exactly the configured usernames, each with the credential of its last route |
| Session.UsersAgree | internal/server/server.go:61-66 | for every accepted route the map's password and hash for its user are that route's own, whatever the route order |
| Session.BuildRouteMap | cmd/smtp-bridge/main.go:100-103 | under unique names each route is found under its own name, and nothing else is |
| EndToEnd.CallsAreAuthorised | internal/server/server.go:313-336 | whatever callbacks came before, a message's attempts go only to configured sync routes whose own credential the session has met |
| EndToEnd.RowsAreAuthorised | internal/server/server.go:337-345 | its queued rows name routes that resolve to configured async routes whose own credential the session has met |
| EndToEnd.WorkerCallsAreAuthorised | internal/delivery/delivery.go:194-203 | in every run whose arrivals come from sessions, crashes and cancellation included, each attempt of the worker is for a configured async route whose own credential some session has met |
| EndToEnd.QueuedIsArrivals | internal/server/server.go:337-345 | the rows a message adds are, one by one and in order, arrivals of the worker machine, which may fall anywhere between its steps |
| EndToEnd.SessionFeeds | internal/server/server.go:337-345 | those arrivals are for the session's own async routes, all of them or those up to a refusal |
| EndToEnd.TriedIsInline | internal/delivery/delivery.go:141-142 | the log entries of a message's sync deliveries are steps that may fall anywhere beside the worker |
| EndToEnd.QueuedRouteResolves | internal/delivery/delivery.go:195-195 | a row queued for an async route resolves, in the worker's map, to the very route a recipient matched |
| EndToEnd.NeverDropped | internal/delivery/delivery.go:195-200 | when everything queued was queued by sessions of one accepted configuration, no run drops a job for an unknown route, crashes and cancellation included |
| Config.Config.Validate | internal/config/config.go:345-397 | accepts exactly the admissible configurations: usable routes, unique names, one credential key per user; otherwise names the first route that breaks this and the first of the checks, in their order, that fails on it |
| Config.Config.ApplyDefaults | internal/config/config.go:269-293 | zero values become async, 30 s, 5 retries, 10 s, 4 at a time and POST; everything else is untouched |
| Config.ComplaintIsJustified | internal/config/config.go:359-395 | given the tables of the routes before it, a route is complained about exactly when it does not fit with them, and the complaint is the first, in the order of the checks, that is true |
| Config.JustifiedIsFatal | internal/config/config.go:359-395 | a true complaint about one route rules out every configuration that contains it at that place |
| Config.KeyEquality | internal/config/config.go:379-379 | two credential keys are equal exactly when the credentials are, or one password starts with NUL and the other hash mirrors it |
| Config.AdmissibleCredentials | internal/config/config.go:378-383 | in an accepted configuration usernames have one credential each if and only if no such mirrored pair occurs |
| Config.NulFreeCredentials | internal/config/config.go:378-383 | without NUL characters an accepted configuration gives each username one credential |
| Config.CollisionWitness | internal/config/config.go:378-383 | an accepted configuration exists that gives one username two credentials |
| Router.FindRouteIsFirst | internal/router/router.go:23-35 | the answer is the owned, matching route of least index, and none exactly when there is none |
| Router.TakesExactly | internal/router/router.go:37-65 | a route takes a recipient if and only if each condition it sets equals, character by character up to folding, the address, the domain after its last @, or the local part up to its first + |
| Router.PartsExist | internal/router/router.go:51-65 | every address has such parts |
| Router.MatchIsScoped | internal/router/router.go:26-34 | other users' routes have no influence: the answer is the first match among the user's own |
| Router.MatchRespectsFolding | internal/router/router.go:23-65 | recipients of equal length whose characters fold alike one by one get the same route, for any folding that leaves '@' and '+' alone |
| Router.TagBlindExactly | internal/router/router.go:23-65 | under unique names, base+tag@domain and base@domain get the same answer if and only if the user's first route that can take either of them has no exact condition |
| Router.SeparatorPositions | internal/router/router.go:51-65 | last '@' and first '+' stand at the same places in recipients that differ only in case |
| Router.MatchIsTagBlind | internal/router/router.go:51-65 | in particular, and without unique names, for a user none of whose routes names either address in full |
| Router.ExactConditionSeesTag | internal/router/router.go:38-40 | with an exact condition they can get different answers |
| Mail.Message.Walk | internal/mail/message.go:71-121 | the recursive in-place walk collects what a fold over the leaves in document order collects |
| Mail.WalkMeaning | internal/mail/message.go:88-120 | text and HTML are the first non-empty qualifying leaves, attachments are exactly the qualifying leaves in order, each named by its disposition or else its type |
| Mail.BodiesAreFirst | internal/mail/message.go:103-110 | a body once found stays; before that the first non-empty qualifying leaf is taken |
| Mail.AttachmentsInOrder | internal/mail/message.go:97-119 | attachments grow by exactly the qualifying leaves, in order |
| Mail.Message.Parse | internal/mail/message.go:42-68 | envelope and raw bytes are kept always; an unreadable body leaves everything else empty |
| Mail.Flatten | internal/mail/message.go:55-63 | the header map holds exactly the keys that occur, each with its last value |
| Login.ExchangeMeaning | internal/server/login.go:21-37 | leading empty responses only prompt for the username, the first non-empty one is the username and is answered by the password prompt, each later one is checked against exactly that username |
| Login.NoTextNoCheck | internal/server/login.go:25-27 | as long as responses are empty nothing is checked |
| Login.FlowsAgree | internal/server/login.go:23-36 | username given with the command or after prompts: the same credential checks |
| Recipients.RoundTripExactly | internal/store/store.go:132-132 | splitting and trimming the stored column returns the list if and only if it is non-empty and every address is comma-free and trimmed |
| Recipients.RoundTrip | internal/web/web.go:159-165 | the list comes back for all such lists |
| Recipients.JoinAppends | internal/store/store.go:132-132 | joining two lists puts one separator between their joined texts |
| Recipients.NamesComeBackExactly | internal/server/server.go:305-305 | the column of route names determines them if and only if there are some and none holds a comma |
| Recipients.SplitRcpt | internal/web/web.go:159-165 | the in-place loop trims every piece between commas, once, in place |
| Recipients.SplitJoins | internal/web/web.go:160-160 | splitting loses nothing: the pieces joined with commas are the text |
| Recipients.TrimExactly | internal/web/web.go:162-162 | trimming takes white space off both ends, all of it and nothing else |

## Left out

- The loop and its goroutines are a step system on values, not a class: Dafny has no goroutines, so the channel as an object shared by closures is not captured; `Deliverer.Process` is the same code as an object, one job at a time.
- Server.Connection.Data: its contract is that of one message with nothing else writing between its statements; sessions and worker side by side are covered step by step instead, because its inserts and log entries are arrivals and inline steps of the worker machine (`EndToEnd.QueuedIsArrivals`, `EndToEnd.TriedIsInline`).
- Steps within one HTTP exchange, one SQL statement and one assignment are atomic; a refused write changes nothing (a write that is applied and yet reported as failed is not modelled).
- A negative `concurrency`, which validation accepts and which the program could not run with, is outside the worker theorems; they take `concurrency` at least 1. The order of rows due at the same time is left open, as SQL leaves it.
- Timing and starvation theorems assume that a goroutine reads the clock no earlier than its own drain did.
- After cancellation only no-silent-loss, genuine calls and never-dropped are claimed; the order of shutdown is not modelled.
- The text of stored errors for transport failures, HTTP headers and signatures, JSON and base64 encodings, and the size of bodies in bytes rather than characters.
- bcrypt is an unspecified comparison; the dummy comparison for unknown users and constant-time comparison have no timing here.
- MIME and header decoding: a message is a tree whose part lists stop at the first read error, with bodies as read.
- CIDR and TLS checks are one boolean input of `Validate`; listener, TLS, hostname, size and timeout defaults are not modelled.
- The remote address and the local port of stored messages, rejection records, message listing and purging, web handlers, the IP allowlist, `Logout`, command-line subcommands.
- Store initialisation and migrations; SQLite itself, beyond one atomic step per statement and ids that are never reused.
- Session timeouts and the SMTP and SASL engines that call the session: callbacks come in any order instead.
- Server.Connection.KeepMessage: that a capture-only message is durably stored is not promised, because the program only logs a failed write and accepts the message.
