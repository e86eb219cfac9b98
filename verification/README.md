# cloudtse in Dafny

cloudtse is a small C server in front of a fiscal signing device (a TSE). This project models the
parts of it that carry hard properties and proves those properties:

- **the recovery protocol** around libWormAPI: self-test, login, update-time, logout and retry-once,
  and the start, finish, register and export operations built on them (`Device`, `Worm`,
  `Discipline`), with the poller that keeps clock and self-test alive (`Schedule`, `Poller`) and the
  client-id shortener (`ClientId`);
- **the single-slot worker queue** as a monitor protocol with any number of callers, spurious wake-ups
  and signals that may wake anybody (`Worker`);
- **HTTP framing** over the sliding buffer and the chunked-body decoder (`Framing`, `Headers`, `Http`,
  `Chunked`);
- **the JSON reader** (`strstr` and a look at the next character) against the JSON printers and against
  objects with white space anywhere (`Json`, `Response`, `Spaced`);
- **the Base64 codec** with its unmasked 32-bit accumulator and the export stream built on it
  (`Base64`, `Export`);
- **the transaction store**: the simulator's ledger and the mirror of the hardware's open transactions
  (`Store`, `Mirror`, `Listing`).

`Bytes`, `Ctype`, `CString`, `Decimal`, `Numerals` and `Wrappers` hold what these share.

Code that works by changing things step by step is a method with loops over arrays, or a class whose
fields are the static variables of the C file; functions next to it say what it computes, and lemmas
say what that means. Foreign code becomes a parameter: libWormAPI is an arbitrary oracle of replies
(`answers` in `Worm.Worm`), the network an arbitrary sequence of reads, time-outs and failures (`events`
in `Http.HandleClient`), a write to a socket fails or not as an oracle says (`broken` in `Export.Stream`),
and every SQL statement may fail as the flags of an operation say (`Store.Luck`).

The recovery protocol is proved twice over the same code. A discipline monitor (`Device.Scan`) reads
the log of calls and never asks whether the replies make sense, so what it says holds against every
oracle: sessions and handles, the time sent to the device, and what a poll was told. A concrete device
(`Device.Replay`) runs along the log as well; `sound` says that the replies so far are ones this device
could have given. The device may be `lenient` (it may fail any call for any
reason) and `honest` or not (its info block may lie); convergence needs a device that is not lenient
(`Healthy`), and does not need an honest one. However a caller chooses its calls from what it has seen, such
replies exist (`Device.Conversation`).

Where the code and its surroundings differ from what one might expect, the model follows the code:

- A caller of `tse_worker_run` that waits for the slot does not look at `s_running` again when it wakes
  up. When shutdown has cleared the flag, some run leaves a caller hanging for ever if and only if such a
  caller exists (`Worker.StrandsExactlyTheLate`), and it can exist (`Worker.LateCallerExists`). Without one,
  every call returns (`Worker.EveryCallReturns`).
- A request framed by chunks is taken to end where the bytes received so far end, so its extent depends
  on how the stream was read (`Framing.StableExactlyWithoutChunks`, `Framing.ChunkedExample`); and the end
  of a chunked body is seen too early exactly when "0 CR LF CR LF" stands inside one of its chunks
  (`Chunked.SeenTooEarlyExactly`). What the framing theorems say about the list of requests is therefore
  about requests with a Content-Length or without a body (`Http.WellFramed`).
- At the end of the stream `fill_buffer` reports success as long as the buffer is not empty. A client that
  closes its side inside a request, however the request is framed, therefore keeps `handle_client` reading
  for ever (`Http.HangsExactly`, `Http.HangingClient`, `Http.HangingUpload`, `Http.NeverEnds`), until the
  server is stopped.
- A negative Content-Length shortens the message below its header, which then does not parse, or wraps around
  to a length that is never reached (`Framing.NegativeLength`).
- `db_increment_counter` ignores a failing read and a failing write. `Store.Harmless` is the exact condition
  under which every ledger stays in order (`Store.BooksKeptExactly`); two concrete failures are
  `Store.FailedReadRepeatsSignature` and `Store.FailedWriteRepeatsNumber`.
- `json_escape` does not turn line breaks and tabs into something `json_get_string` turns back; they come
  back as the letters n, r and t, and a text survives exactly if it has none (`Json.RereadIsSame`).
- `ensure_client_registered` remembers a client even when its registration failed; a client that was
  cached but is not on the device is refused (the condition `Worm.ClientUsable`).

To check everything: `dafny verify dfyconfig.toml`.

## Model

| member | source | states |
|---|---|---|
| ClientId.Fnv1a64 | c/src/tse_worm.c:180-188 | the loop computes FNV-1a on 64-bit words |
| ClientId.SafeClientId | c/src/tse_worm.c:190-215 | the shortened id is SafeId of the id: at most 30 bytes, and the id itself when it is 1 to 30 bytes long |
| ClientId.SafeIdIdempotent | c/src/tse_worm.c:190-215 | shortening twice changes nothing more |
| ClientId.MixInjectiveInHash | c/src/tse_worm.c:180-188 | one FNV round is injective in the hash, because the prime is invertible modulo 2^64 |
| ClientId.MixInjectiveInByte | c/src/tse_worm.c:180-188 | one FNV round is injective in the byte |
| ClientId.FnvSeparates | c/src/tse_worm.c:180-188 | two texts that differ in exactly one byte have different hashes |
| ClientId.HexInjective | c/src/tse_worm.c:205-215 | the hexadecimal print of the hash is injective |
| ClientId.LongIdsStayDistinct | c/src/tse_worm.c:190-215 | two ids over 30 bytes that differ in exactly one byte get different shortened ids |
| ClientId.LongIdSpelled | c/src/tse_worm.c:190-215 | an id over 30 bytes becomes its first 13 bytes, a dash and the 16 hexadecimal digits of its hash |
| ClientId.NamesSpelled | c/src/tse_worm.c:190-195 | an empty id becomes "default", and the startup client is "cloudtse-startup" |
| ClientId.FnvVectors | c/src/tse_worm.c:180-188 | the hash agrees with the published FNV-1a values of the empty text and of "a" |
| Schedule.FirstPollTracks | c/src/tse_worm.c:1101-1126 | whatever the process knew, its first poll makes it track the device's last sync |
| Schedule.ClockStaysValid | c/src/tse_worm.c:1101-1126 | in every run of waits, syncs by other threads and polls at most gap apart the clock is valid at the end, hence at every instant |
| Schedule.ClockStaysValidAfterFirstPoll | c/src/tse_worm.c:1101-1126 | with a window of at least 20 seconds, polls at most maxDelay - maxDelay/2 apart keep the clock valid from the first poll on |
| Schedule.ClockBoundIsTight | c/src/tse_worm.c:1101-1126 | whenever that bound is broken, some run that polls in time lets the clock lapse |
| Schedule.SelfTestNeverLapses | c/src/tse_worm.c:1078-1099 | with polls at most an hour apart the self-test countdown never reaches zero |
| Schedule.SyncsAtHalfWindow | c/src/tse_worm.c:1101-1126 | a valid clock is synced anew when half its window and ten seconds have passed and not before; an invalid or unknown one at once |
| Schedule.BackwardsIsOld | c/src/tse_worm.c:1110-1117 | a clock that ran backwards counts as too old |
| Schedule.NoNeedlessTest | c/src/tse_worm.c:1078-1083 | no self-test is run that is neither failed, nor scheduled, nor due within an hour |
| Schedule.PastSlotIsPast | c/src/tse_worm.c:996-1008 | the comparison of hours and minutes is the comparison of seconds of the day |
| Schedule.FiresOncePerDay | c/src/tse_worm.c:1062-1076 | the daily self-test fires at most once a day and never before its slot |
| Schedule.FiresOnPolledDay | c/src/tse_worm.c:1062-1076 | a poll past the slot of a new day fires on that day |
| Schedule.FiresExactlyOnce | c/src/tse_worm.c:996-1076 | on every fully covered day it fires exactly once, if polls are at most gap apart and the slot leaves gap seconds to midnight |
| Schedule.LateStartSkipsDay | c/src/tse_worm.c:996-1008 | a poller that starts past the slot does not fire on that day |
| Device.CuresExactly | c/src/tse_worm.c:36-40 | the errors taken for a missing self-test or a missing clock are exactly those by which the device reports one |
| Discipline.AllowedAt | c/src/tse_worm.c:1438-1644 | in an accepted log every call was allowed where it was made |
| Discipline.LoginsMatchLogouts | c/src/tse_worm.c:874-946 | every successful login has exactly one logout |
| Discipline.LocksMatchUnlocks | c/src/tse_worm.c:1438-1644 | the mutex is never taken by its holder and every lock has its unlock |
| Discipline.UpdateTimeInsideSession | c/src/tse_worm.c:874-946 | every updateTime follows a successful TimeAdmin login with no login or logout in between |
| Discipline.UpdateSendsTheClock | c/src/tse_worm.c:874-946 | the time sent to the device is always the one just read from the clock |
| Discipline.PolledIsHeard | c/src/tse_worm.c:1018-1050 | what the monitor keeps for a poll are the last replies of the info getters since the lock was taken, at the last reading of the clock outside a session, and that clock |
| Discipline.HandlesFreedOnce | c/src/tse_worm.c:1491-1644 | every handle that is no longer alive was freed exactly once |
| Discipline.UsedWhileAlive | c/src/tse_worm.c:1491-1644 | no call is made with a handle before it exists or after it was freed |
| Discipline.RestIsClean | c/src/tse_worm.c:1438-1644 | an operation that ends at rest leaves as many logouts as logins, as many unlocks as locks, and no handle behind |
| Worm.Worm.constructor | c/src/tse_worm.c:140-176 | the static state at rest, with nothing logged |
| Worm.Worm.LoginCall | c/src/tse_worm.c:316-325 | a session opens exactly when the login succeeds, and a TimeAdmin attempt and a wrong PIN are counted |
| Worm.Worm.LogoutCall | c/src/tse_worm.c:327-329 | ends the session that is open |
| Worm.Worm.HasPassedSelfTest | c/src/tse_worm.c:775-799 | reads the self-test flag; only a positive reply counts as passed, handles are freed on every path, and an honest device answers truly |
| Worm.Worm.HasValidTime | c/src/tse_worm.c:857-872 | reads the time flag; only a negative reply counts as invalid, and an honest device answers truly |
| Worm.Worm.MarkRegistered | c/src/tse_worm.c:150-173 | the cache gains the client, or is full, or had it already |
| Worm.Worm.RegisterInSession | c/src/tse_worm.c:1447-1460 | the calls of a registration, one by one: inside an Admin session if one is configured and can be had, and none left behind; a failure changes nothing on the device |
| Worm.Worm.RetestAsStartup | c/src/tse_worm.c:826-852 | with a free slot and the startup client unknown, registers it and passes the self-test with it |
| Worm.Worm.EnsureSelfTestPassed | c/src/tse_worm.c:808-855 | ends outside any session; on a healthy device with a usable client the self-test has passed with the known client if it is on the device and else with the startup client, which was registered exactly when that was needed |
| Worm.Worm.LoginForSync | c/src/tse_worm.c:889-919 | one TimeAdmin login, and exactly one more after an error that a self-test can cure; at most one wrong PIN; on a healthy device the session is open, and on an honest one the first login opens it |
| Worm.Worm.UpdateInSession | c/src/tse_worm.c:920-935 | one updateTime call with the clock just read, and one more in a new session exactly after an error that a self-test can cure, unless that login fails; on a healthy device it works in the end |
| Worm.Worm.CloseSync | c/src/tse_worm.c:936-946 | a successful update is noted with the clock reply read after it, and the session is closed |
| Worm.Worm.PerformTimeSync | c/src/tse_worm.c:874-946 | against every oracle: at most one wrong TimeAdmin PIN, three TimeAdmin logins and two updateTime calls, and no session left; g_last_time_sync is the clock reply read after a successful update, or unchanged; on a healthy device the clock is valid after it |
| Worm.Worm.RecoverAfter | c/src/tse_worm.c:955-969 | says retry exactly for the recoverable errors, and on a healthy device has then cured them; without a self-test error a tested honest device gets no self-test |
| Worm.Worm.RegisterClient | c/src/tse_worm.c:1438-1468 | succeeds exactly when the shortened id is new and there is a free slot, is then remembered under the name given, and touches nothing else |
| Worm.Worm.EnsureClientRegistered | c/src/tse_worm.c:1470-1489 | afterwards the client is on the device exactly if it was or could be registered; failures are cached too |
| Worm.Worm.Prepare | c/src/tse_worm.c:1505-1510 | the checks before a transaction call, within the PIN and update bounds; a healthy honest device is ready after them, and it is stated which clients are on it then |
| Worm.Worm.CloseResponse | c/src/tse_worm.c:1539-1553 | the response of a call that worked is read before it is freed, and every response is freed |
| Worm.Worm.RenewResponse | c/src/tse_worm.c:1528-1534 | the old response is freed before a new one is made |
| Worm.Worm.StartAgain | c/src/tse_worm.c:1527-1538 | a second transaction call exactly after a recoverable error and with a new response; on a healthy device it succeeds if and only if the client and the limit allow it |
| Worm.Worm.StartUpToTwice | c/src/tse_worm.c:1524-1538 | at most two transaction calls, the second only after a recoverable error; success is the last one's, and on a healthy device it means exactly that the client is registered in the end and the limit was not reached |
| Worm.Worm.StartLocked | c/src/tse_worm.c:1511-1555 | the part under the lock leaves no handle behind and opens one transaction or none; on a healthy device that is ready it succeeds if and only if the client is registered and the limit is not reached |
| Worm.Worm.StartTransaction | c/src/tse_worm.c:1491-1556 | against every oracle: at rest on every path, at most two transaction calls, the second only after a recoverable error, at most two wrong PINs, and success is a call for the shortened client that worked, with its number, whose response was read and freed; on a healthy device one call succeeds exactly when the limit allows it and the client is on the device in the end, which is the case if it is usable and, on an honest device, exactly if it is usable or is the startup client that a due self-test registers; success opens exactly one new transaction; an honest device that is ready gets one transaction call and no self-test, login or update |
| Worm.Worm.FinishAgain | c/src/tse_worm.c:1612-1624 | the second attempt of a finish, as for a start |
| Worm.Worm.FinishUpToTwice | c/src/tse_worm.c:1608-1624 | at most two transaction calls, the second only after a recoverable error; on a healthy device success means exactly that the client is registered in the end and the number was open |
| Worm.Worm.FinishLocked | c/src/tse_worm.c:1585-1643 | the part under the lock leaves no handle behind and closes the transaction or changes none; on a healthy device that is ready it succeeds if and only if the client is registered and the number is open |
| Worm.Worm.FinishTransaction | c/src/tse_worm.c:1558-1644 | the same bounds, and the same for a success; on a healthy device one call closes exactly the given transaction if and only if it is open and the client is on the device in the end; on an honest device that is the case exactly if it was registered or is the startup client that a due self-test registers, and when it is ready it gets one transaction call and no self-test, login or update |
| Worm.Worm.ExportPrepare | c/src/tse_worm.c:1695-1714 | success means that self-test and clock are good, and a healthy honest device always gets there |
| Worm.Worm.ExportTarLocked | c/src/tse_worm.c:1716-1735 | at rest on every path and within the bounds; a healthy honest device exports |
| Worm.Worm.PollInfo | c/src/tse_worm.c:1019-1050 | the report holds the replies of the getters, a default for each that was not read, and the clock; an honest device is reported truly, its window included, and the block is freed on every path |
| Worm.Worm.PollSelfTest | c/src/tse_worm.c:1084-1099 | a scheduled self-test brings exactly one time sync, another one none |
| Worm.Worm.Renew | c/src/tse_worm.c:1078-1126 | one time sync exactly if the self-test was scheduled or the clock needs it |
| Worm.Worm.PollOnce | c/src/tse_worm.c:1018-1133 | one poll: the report holds what the getters and the clock replied and what was decided on it, an honest device's own state and window, a scheduled self-test exactly past the slot of a day not yet done; the mutex is released, there is at most one time sync in it, and g_last_time_sync is the clock reply read after its update |
| Worm.Worm.StartPoller | c/src/tse_worm.c:990-1008 | a poller that starts past the slot counts that day as done |
| Worm.Worm.RunPoller | c/src/tse_worm.c:987-1135 | over a whole run of the poller the daily self-tests reported are those of Schedule.Fires, every poll decides about its time sync by the g_last_time_sync that the polls before it left, on a healthy device every sync works, on an honest one every report has the device's window, and there is at most one wrong PIN per poll |
| Poller.PollsFollowRun | c/src/tse_worm.c:1018-1133 | when the device tells the truth about its clock, the g_last_time_sync values of what RunPoller reports are those of Schedule.Run |
| Poller.FreshTillNext | c/src/tse_worm.c:1101-1126 | with a window of at least 20 seconds the clock stays valid for maxDelay - maxDelay/2 seconds after every poll |
| Poller.PollerKeepsClock | c/src/tse_worm.c:1101-1126 | so a poller that wakes up that often never again reads an invalid clock after its first poll |
| Worker.InvStep | c/src/tse_worker.c:33-126 | every step of every thread, and every spurious wake-up, keeps the invariant |
| Worker.ReachableInv | c/src/tse_worker.c:33-126 | the invariant holds in every state that any interleaving reaches |
| Worker.NobodyWaitsInVain | c/src/tse_worker.c:39-45 | whenever the mutex is free, an empty slot means that no caller waits for it, and a waiting worker means an empty slot and a running queue |
| Worker.SignalsReachWorker | c/src/tse_worker.c:84-114 | the single signals at lines 87 and 113 always reach the worker if it is waiting |
| Worker.Progress | c/src/tse_worker.c:33-126 | while some call is unfinished some thread can take a step that is not a spurious wake-up, unless the worker is gone and a late caller exists |
| Worker.ExactlyOnceInOrder | c/src/tse_worker.c:46-61 | jobs run at most once and in the order of posting; 0 is returned only after the job ran, -1 only if it was never posted |
| Worker.JobsOutliveTheirUse | c/src/tse_worker.c:53-61 | the worker never works on a job whose caller has begun to destroy it |
| Worker.ShutdownDrains | c/src/tse_worker.c:84-91 | when shutdown returns every job posted before it cleared s_running has run and is marked done |
| Worker.GenuineStepsAdvance | c/src/tse_worker.c:33-126 | every step that is neither a new call nor spurious brings the system closer to rest, under any schedule |
| Worker.NoEndlessRun | c/src/tse_worker.c:33-126 | there is no infinite run of such steps |
| Worker.StrandedForEver | c/src/tse_worker.c:102-119 | a job posted after the worker left keeps its caller waiting for ever |
| Worker.LateCallersCanBeStranded | c/src/tse_worker.c:102-112 | from every reachable state with a late caller at shutdown some run strands that caller |
| Worker.StrandsExactlyTheLate | c/src/tse_worker.c:84-119 | the condition of Progress is exact: when s_running was just cleared, some run strands a caller if and only if some caller is past the check and waits for the slot |
| Worker.LateCallerExists | c/src/tse_worker.c:102-112 | such a state is reachable: with the slot taken, a second caller waits when shutdown comes |
| Worker.StrandedNeedsLate | c/src/tse_worker.c:84-119 | nobody is stranded if nobody was late |
| Worker.RunToRest | c/src/tse_worker.c:33-126 | from every state of the invariant genuine steps lead to a state in which no thread can go on |
| Worker.EveryCallReturns | c/src/tse_worker.c:33-126 | in every reachable state in which no thread can go on, all calls have returned if and only if nobody is stranded, and they all have if nobody was late |
| Framing.BlankLineStable | c/src/http.c:93-100 | more bytes do not move the end of a header that is there, and do not bring it forward |
| Framing.ExtentStable | c/src/http.c:132-169 | once the header is there, more bytes change nothing it says about the length, and a good length stays good |
| Framing.CompleteStable | c/src/http.c:132-169 | a request framed by its header is complete exactly when all its bytes are there, unless its length is negative; more bytes do not change where it ends |
| Framing.NegativeLength | c/src/http.c:138-168 | a negative length cuts the request inside its header, whose end is then missing, or it is never complete |
| Framing.ChunkedTakesAll | c/src/http.c:154-160 | a request framed by chunks takes everything received so far |
| Framing.StableExactlyWithoutChunks | c/src/http.c:132-169 | the end of a complete request is a property of the stream if and only if it is not framed by chunks |
| Framing.ChunkedExample | c/src/http.c:154-160 | a concrete chunked PUT request that swallows the start of the next one |
| Http.FindHeaderEnd | c/src/http.c:93-100 | the loop finds the first blank line |
| Http.StandsAt | c/src/http.c:142-143 | the comparison in any case, which stops at the end of the header |
| Http.HeaderHasChunked | c/src/http.c:102-115 | true exactly if some place in the header says Transfer-Encoding: chunked, in any case; it never reads past the header |
| Http.ChunkedBodyComplete | c/src/http.c:117-130 | true exactly if the mark of the last chunk stands somewhere in the body |
| Http.FindLength | c/src/http.c:142-152 | finds the first Content-Length in the header and the place where atoi starts to read |
| Http.SkipWhiteSpace | c/src/http.c:143-152 | the white space that atoi skips |
| Http.ReadNumber | c/src/http.c:143-152 | what atoi reads behind its white space: an optional sign and the value of the digits in base 10, 0 without digits |
| Http.FindExtent | c/src/http.c:138-167 | reads from the header how the end of the request is found |
| Http.RequestComplete | c/src/http.c:132-169 | computes Framing.Complete of the bytes in the buffer |
| Http.FramesCoverStream | c/src/http.c:522-571 | the extracted requests and the rest, put together, are the stream |
| Http.FramesAreRequests | c/src/http.c:522-571 | every extracted request of a well framed stream is complete by itself, or the first 73727 bytes of one, and has at least four bytes |
| Http.SentIsServed | c/src/http.c:522-571 | any list of requests that are taken whole, sent in a row, is well framed and comes out as it was sent |
| Headers.WordInAnyCase | c/src/http.c:102-115 | the comparison of names finds exactly the spellings of the word in capital or small letters |
| Headers.LengthFrames | c/src/http.c:132-169 | a message ends as many bytes behind its header as its Content-Length says, in any spelling of the name, white space and sign; a negative one ends it before that |
| Headers.ChunkedIsSaid | c/src/http.c:102-115 | header_has_chunked finds exactly Transfer-Encoding: chunked in any case with any number of blanks |
| Headers.ChunksFrame | c/src/http.c:154-160 | a message without a length that says so takes all that was received as soon as 0 CR LF CR LF stands in its body |
| Headers.PrintedRequest | c/src/http.c:132-169 | headers with the Content-Length of a body, its name in any case, with blanks, tabs or a plus sign before the number, a blank line and the body are one request, whatever the body contains |
| Headers.PrintedBodiless | c/src/http.c:132-169 | headers without length and transfer encoding in any case and a blank line are one request |
| Http.Fill | c/src/http.c:171-196 | a call appends what select and read give to the bytes in the buffer; it answers -1 on a time-out, an error or the end of the stream with an empty buffer, and success at the end of the stream with bytes in it |
| Http.Slide | c/src/http.c:546-549 | the bytes behind the request move to the front, in place |
| Http.PrefixDecides | c/src/http.c:522-541 | what has arrived decides where the first request ends; a full buffer or a whole stream without one will never hold one |
| Http.Await | c/src/http.c:530-538 | the loop over the buffer computes Wait: the first request, a full buffer, a failure, or no end within the given events |
| Http.WaitSound | c/src/http.c:530-538 | whatever happens on the connection, the request found is the first one of the stream |
| Http.WaitEnds | c/src/http.c:530-538 | when the header frames the request, the wait on a readable socket ends with the first request, with a full buffer if the request does not fit, and with the end of the stream only if no request was begun |
| Http.WaitSettles | c/src/http.c:171-196 | in any framing, one event per byte and one more on a readable socket are enough to see a request, a full buffer, the end of a stream without a request begun, or a buffer that will never change again |
| Http.WaitHangs | c/src/http.c:171-196 | after a client closed inside a request, framed in any way, the wait does not end, however long it is watched |
| Http.HangsExactly | c/src/http.c:171-196 | the wait goes on for ever on a readable socket if and only if the client closes after a part of a request that fits the buffer, however the request is framed |
| Http.HangingClient | c/src/http.c:171-196 | a client that sends GET and closes is one |
| Http.HangingUpload | c/src/http.c:171-196 | so is one whose chunked upload breaks off before its last byte |
| Http.Round | c/src/http.c:527-549 | one turn: no request, or the next one of the stream cut to req_raw, and the buffer holds what follows it |
| Http.HandleClient | c/src/http.c:522-571 | whatever happens on the connection the requests and the bytes left are the bytes received; if the headers frame the requests they are the first ones of the stream for every way of cutting it into reads, and on a socket that stays readable they are all of them and the stream alone tells how the connection ends; in any framing the loop is endless on such a socket exactly when the client has closed and a part of a request that fits the buffer is left |
| Http.NeverEnds | c/src/http.c:522-571 | the end of a well framed connection is an endless loop if and only if every request keeps the connection open and the client then closes with a part of a request sent that fits the buffer |
| Chunked.DecodeInverts | c/src/http.c:263-308 | decoding an encoded list of chunks gives the data of the chunks in front that fit the output, all of them when it is large enough, whatever precedes or follows the body, in any spelling of the sizes up to 15 digits |
| Chunked.FullBodyIsDone | c/src/http.c:117-130 | a chunked body that is all there is never missed |
| Chunked.SeenTooEarlyExactly | c/src/http.c:117-130 | some proper prefix of a chunked body is taken for all of it if and only if the mark of the last chunk stands inside one of the chunks, with its size line and line breaks |
| Chunked.DoneTooEarly | c/src/http.c:117-130 | such a body exists: its data is the mark itself |
| Chunked.FindLineEnd | c/src/http.c:269-275 | finds the next line break, or the end of the bytes |
| Chunked.ParseSize | c/src/http.c:285 | the value of the hexadecimal digits, in base 16 |
| Chunked.HexDigits | c/src/http.c:285 | the digits are 0 to 9 and a to f, small or capital |
| Chunked.SizeSpelled | c/src/http.c:285 | white space, a plus sign and 0x may precede the digits of a size, and what follows them is not looked at |
| Chunked.ChunkIsTaken | c/src/http.c:269-304 | a chunk whose size line is any line of at most 15 characters that spells its size is taken if there is room, with or without a line break behind it and at the very end of the bytes |
| Chunked.BrokenChunkIsDropped | c/src/http.c:289-291 | a chunk that broke off gives nothing, not even the part that is there |
| Chunked.OtherLineEnds | c/src/http.c:277-288 | a line that is empty, longer than 15 characters or no size ends the body |
| Chunked.FindPiece | c/src/http.c:268-297 | the checks on one chunk in the order of the code |
| Chunked.DecodeChunkedBody | c/src/http.c:263-308 | the loop ends, writes what Decoded says, and the result is shorter than the output and NUL-terminated |
| Json.EscapedIsClean | c/src/json.c:60-101 | escaped text has no raw line break or tab, and every quote in it follows a backslash |
| Json.JsonEscape | c/src/json.c:60-101 | succeeds if and only if the escaped text and its NUL fit, and then writes exactly that |
| Json.NoHitAtString | c/src/json.c:7-22 | a quoted text that no colon follows is never taken for a key |
| Json.PassesString | c/src/json.c:7-22 | the scan passes an escaped value with all its quotes, whatever the value |
| Json.PassesKey | c/src/json.c:7-22 | the scan passes every key but the one it looks for |
| Json.FindIsLookup | c/src/json.c:7-22 | on every document of keys, escaped strings and other text find_key finds the first key with that name and nothing else |
| Json.UnquoteEscape | c/src/json.c:35-45 | reading an escaped value gives the value, line breaks and tabs apart, cut to the buffer |
| Json.RereadIsSame | c/src/json.c:35-45 | the value itself comes back if and only if it has no line break and no tab |
| Json.LineBreakIsLost | c/src/json.c:35-101 | a line break, a carriage return and a tab come back as the letters n, r and t |
| Json.EscapeAtMostDoubles | c/src/json.c:60-101 | escaping at most doubles a text, so the local buffers of the printers always hold the struct fields |
| Json.EscapeIsSame | c/src/json.c:60-101 | a text is left alone if and only if it has no quote, backslash, line break or tab |
| Json.FlatLookup | c/src/json.c:24-58 | on every flat object of escaped values json_get_string finds the field with that key, and fails exactly when there is none |
| Spaced.SpacedLookup | c/src/json.c:7-58 | on every flat object, with any white space around names, colons, values, commas and brackets, json_get_string gives the first member of that name: a string with its escapes resolved, a bare value as it is, nothing for null |
| Json.FindKey | c/src/json.c:7-22 | the scan computes Find: the place after the colon of the first hit |
| Json.ReadQuoted | c/src/json.c:35-45 | the loop over a quoted value stops at the first bare quote or when the buffer is full |
| Json.ReadBare | c/src/json.c:51-57 | the loop over a bare value stops at a comma, a closing bracket or white space, or when the buffer is full |
| Json.JsonGetString | c/src/json.c:24-58 | computes GetString, with the NUL behind what it read |
| Response.TxErrorJson | c/src/response.c:192-198 | prints the whole object, or reports that it does not fit |
| Response.ErrorJson | c/src/response.c:180-190 | prints the whole object, or reports that it does not fit |
| Response.OpenTransactionsJson | c/src/response.c:74-111 | prints the whole list piece by piece, or reports that it does not fit |
| Response.TxErrorIsObject | c/src/response.c:196 | what is printed is the flat object of the two fields |
| Response.TxErrorReadsBack | c/src/response.c:192-198 | reading the error back gives code and message, whatever the message contains, and no other key |
| Response.ErrorReadsBack | c/src/response.c:180-190 | reading the error back gives its three fields and no other key |
| Response.ItemIsObject | c/src/response.c:94-100 | one printed transaction is the flat object of its five fields |
| Response.OpenListReadsBack | c/src/response.c:74-111 | whatever client ids, external ids and process types contain, every key reads back: "count" as the number of transactions, "openTransactions" as the start of the list, each key of the items as that field of the first transaction, and no other key is found |
| Response.ItemReadsBack | c/src/response.c:94-100 | every printed transaction by itself reads back field by field |
| Response.OpenListIs | c/src/response.c:74-111 | the list holds every transaction in order with a comma between each two, and their number |
| Decimal.AtollPrint | c/src/db.c:160-170 | atoll reads back what %lld printed |
| Decimal.AtollReads | c/src/db.c:160-170 | white space and a sign may precede the digits, and what follows them is not looked at |
| Decimal.PrintSpelled | c/src/db.c:160-170 | the digits are 0 to 9, the last one last |
| Decimal.CounterFits | c/src/db.c:160-170 | no 64-bit counter is cut by the 64-byte buffer |
| Numerals.DigitsOfValue | c/src/util.c:108-192 | a numeral is determined by its base, value and length |
| Base64.ByteCount | c/src/util.c:163-192 | k alphabet characters decode to 3k/4 bytes, rounded down |
| Base64.EncodedLength | c/src/util.c:108-129 | n bytes encode to 4*ceil(n/3) characters |
| Base64.RoundTrip | c/src/util.c:108-192 | decode(encode(x)) == x for every byte string |
| Base64.NoiseIsSkipped | c/src/util.c:169-176 | decoding a text is decoding its alphabet characters only |
| Base64.EncodedIsClean | c/src/util.c:108-129 | encoding uses the alphabet and the padding sign only |
| Base64.AlphabetOfRfc | c/src/util.c:144-161 | the alphabet is that of table 1 of RFC 4648, in both directions |
| Base64.EncodedFo | c/src/util.c:108-129 | a test vector of section 10 of RFC 4648 |
| Base64.Take | c/src/util.c:177-185 | one sextet through the unmasked accumulator keeps text and bytes numerals of the same number, up to the pending bits |
| Base64.Decode | c/src/util.c:163-192 | writes the decoded bytes and a NUL, and fails if and only if the bytes are not fewer than the output |
| Base64.Encode | c/src/util.c:108-129 | writes the encoded text and a NUL if 4*ceil(n/3)+1 characters fit, and otherwise nothing |
| Export.ExportIsFaithful | c/src/handlers.c:371-398 | splitting the stream at line breaks, decoding each line and joining the results gives the concatenation of the chunks |
| Export.StreamIsLines | c/src/handlers.c:371-398 | the stream has one line for each chunk, with alphabet characters and padding signs in it and a line break behind it |
| Export.TruncatedExport | c/src/handlers.c:371-398 | a stream that breaks off inside a line yields the chunks before it |
| Export.Stream.WriteAll | c/src/http.c:51-73 | a failed write may have sent a part, never anything else |
| Export.Stream.OnChunk | c/src/handlers.c:371-398 | one line per chunk, nothing at all after a failure, and no failure without a cause |
| Export.Stream.Deliver | c/src/handlers.c:371-398 | over a whole export the receiver decodes a whole number of chunks, and all of them when nothing failed |
| Store.CounterAdvances | c/src/db.c:160-170 | the counter hands out and stores the next number if and only if the write works, and the read works or there was nothing yet |
| Store.BooksKept | c/src/store.c:271-408 | every harmless operation keeps row numbers and signature counters distinct and within the counters |
| Store.BooksKeptExactly | c/src/store.c:271-408 | an operation keeps every ledger in order if and only if no counter is written without being read, and no row is written without its counters |
| Store.HarmfulStart | c/src/store.c:271-318 | every other start spoils one of two small ledgers |
| Store.HarmfulFinish | c/src/store.c:343-408 | every other finish spoils a small ledger |
| Store.NumbersAreNew | c/src/store.c:271-408 | the numbers an operation reports are one above the counters before it, and are those of its row |
| Store.StartedRow | c/src/store.c:271-318 | a start writes exactly the request into at most one new row and touches no other, and is reported exactly when nothing it needs failed and the number was free |
| Store.FinishedRow | c/src/store.c:343-408 | a finish of an active row keeps its owner, takes the request's type and data where it has any, touches no other row, and is reported exactly when nothing it needs failed |
| Store.FinishedForEver | c/src/store.c:271-408 | FINISHED never reverts, even if every statement may fail; an active row keeps its owner and never loses its process type or data |
| Store.RejectedChangesNothing | c/src/store.c:343-368 | a finish reports that there is no such transaction exactly if the lookup runs and finds no active row, or its step fails; it then changes nothing, as it does for every number that is not active |
| Store.Balance | c/src/store.c:271-408 | what one harmless operation adds to the counters and to the rows, whatever else fails |
| Store.LedgerBalances | c/src/store.c:271-408 | after any run of harmless operations, whatever else fails, the counters are exactly the rows (finished ones counted twice for signatures) plus what operations used up without a row |
| Store.CountersCoverRows | c/src/store.c:271-408 | so over any such run the transaction counter is at least active + finished, and the signature counter at least active + 2*finished |
| Store.LuckyRunBalances | c/src/store.c:271-408 | without failures the counters are exactly active + finished and active + 2*finished |
| Store.NumbersRise | c/src/store.c:271-408 | over any run the reported signature counters and transaction numbers are strictly increasing |
| Store.FailedReadRepeatsSignature | c/src/db.c:160-170 | a failing read of the counter makes two rows share a signature counter |
| Store.FailedWriteRepeatsNumber | c/src/db.c:160-170 | a failing write of the counter hands the same number out again, and the next start fails |
| Store.Db.IncrementCounter | c/src/db.c:160-170 | read, add one, print, write |
| Store.Db.StartTransaction | c/src/store.c:271-318 | the tables and the result are those of Start |
| Store.Db.FinishTransaction | c/src/store.c:343-408 | the tables and the result are those of Finish |
| Store.Db.ListOpenTransactions | c/src/store.c:230-246 | the first max of the active numbers |
| Listing.FirstOnes | c/src/store.c:230-246 | the listing is ascending, as long as the output allows, and below everything it leaves out |
| Listing.Fetch | c/src/store.c:240-243 | the loop stops at the end of the rows or of the output |
| Mirror.HardwareStore.StartTransaction | c/src/store.c:248-269 | a mirror that agrees with the device still agrees exactly when nothing was started or the start was recorded; success is one new device number and its row, and a healthy device serves a usable client |
| Mirror.HardwareStore.FinishTransaction | c/src/store.c:320-342 | the mirror still agrees exactly when nothing was finished or the finish was recorded; a healthy device finishes what is open for a registered client |
| Mirror.HardwareStore.ServeAll | c/src/store.c:248-342 | over any run, with errors and recoveries anywhere, the ACTIVE rows are the device's open transactions as long as what succeeded was recorded |
| Mirror.HardwareStore.ListOpenTransactions | c/src/store.c:230-246 | lists the device's open transactions, lowest first, as many as fit |

## Left out

- libWormAPI itself, loading it and its two flavours; the oracle and the concrete device stand for it.
- Sockets, select, signals, address discovery and the main program; a client is a stream and whether it closes its side, and each call of `fill_buffer` meets one event. A read that a signal interrupts is repeated inside the call and has no event of its own.
- http.c, `http_parse_request` and `should_keep_alive`: whether a request with a complete header parses and the connection stays open is an arbitrary function of the request (`goOn`).
- Content-Length values that are no int or whose text starts behind the header: atoi is then undefined or reads beyond the bytes received (`Framing.GoodLength`).
- Chunk sizes with a minus sign: what the decoder makes of such a malformed number is not part of this model, so its precondition excludes them (`Chunked.Decodable`).
- JSON keys longer than the pattern buffer: `Json.Pattern` cuts them as the code does, and the lookup theorem is about keys that fit.
- response.c: the printers of texts without untrusted values.
- Times of any kind in rows and printed objects, and calendar arithmetic; local time is a day and a second of the day, without daylight saving.
- SQLite: a table is a map, and a statement works or not as a flag says; reading a row back after a write fails only by its prepare.
- Overflow of the 64-bit counters.
- Random signatures: an arbitrary text, or a failure.
- tse_worm.c: the failure of settings writes of `worm_known_client`, the info block copied by `tse_worm_fill_info`, the payload a transaction reads out of its response, diagnostics and provisioning.
- tse_worker.c: a `pthread_create` that fails in `tse_worker_init`, and calls made before it.
- A bound on Admin logins: repeated self-test attempts may each try one.
- handlers.c, routing, headers, CORS, tokens; config.c, the list of allowed clients; log.c, tse_block.c and tse_worm_director.c: they would only add easy members.
- Worm.Worm.StartTransaction: for a device whose info block may lie, the exact condition is about the clients on the device after the call, because it depends on the lies whether a self-test registers the startup client on the way.
- Worm.Worm.FinishTransaction: the same.
- Syncs by request threads between two polls of `Worm.Worm.RunPoller`; the clock model has them (`Schedule.OtherSync`). In `Poller` the device's window starts at the clock reply read after the update.
- Export.Stream.Deliver: the chunks arrive in order from a device that may or may not stop when asked to; how the device cuts the tar is arbitrary.
