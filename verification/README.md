# A verified model of ipaversion

ipaversion sits between iTunes and the App Store as a proxy, replays one purchase request for every historical
version of an app, and lets the user download one of them. This project models the state machines and the text
rewrite underneath it, and proves what they guarantee. Sockets, HTTP, certificates, compressed formats and property
lists are oracles: values or functions that may return anything, including failures.

| file | what it models |
|---|---|
| `Rewrite.dfy` | replacing `<string>OLD</string>` by `<string>NEW</string>` in a request body |
| `Replay.dfy` | the index range, one attempt with its recover-and-retry recursion, the loop over the versions |
| `Handoff.dfy` | the try-lock, the unbuffered channel and the deferred unlock between the addon and `main` |
| `Readers.dfy` | readers as arbitrary chunks with a clean or broken end, and the buffer-or-stream decision |
| `Addons.dfy` | addons as arbitrary functions, their events, and what one loop over them comes to |
| `Replies.dfy` | the reply side of one request, on which any transfer may fail |
| `Exchange.dfy` | one non-CONNECT exchange as a function of addons, request and outside, and its properties |
| `Flow.dfy` | the handler itself, with its loops, early exits and writes, proved to do what that function says |
| `Connections.dfy` | the wrapped client and server connections and their `Close` methods |
| `Tunnel.dfy` | one intercepted CONNECT tunnel as interleaved steps: two copiers, the parent, everybody else |
| `Lru.dfy`, `CertCache.dfy` | the certificate cache and its single flight, as interleaved steps of any number of callers |
| `Package.dfy` | adding the sinf entries to a package on a disk on which any operation may fail |
| `Memo.dfy` | the remembered decoded body of a response |
| `Common.dfy` | bytes and options |

How the outside is modelled:

- Addons are arbitrary functions on the flow that may set a response, change any field, replace a reader by another
  or by nil, or panic. A component `world` of the flow stands for whatever the addons share, so they may have state.
- A reader is any sequence of chunks, empty ones included, followed by its end, which arrives either with the last
  chunk or by a read of its own.
- The upstream server may read a request body to its end, or answer or fail after any part of it. Each transfer of
  a body to the client may fail after any number of bytes; the rest of it is lost and the handler goes on.
- An attempt of the replay ends in a parsed reply or in a panic; all panics happen before the result is appended.
- The two concurrent protocols and the handoff are step systems, and their results hold for every run.

## Where the code and the expectation differ

- **Rewrite round trip.** Replacing forth and back restores the body exactly when the two versions are the same or
  the body had no tag with the new version (`RewriteRoundTrip`). A body that is just the new tag is lost
  (`RoundTripLoses`).
- **Reading up to the limit.** A read error at exactly the limit is reported only if the reader delivers it together
  with the last byte; otherwise the body is streamed and breaks later (`Fails`, `ErrorAtTheLimit`).
- **Bodies upstream.** An upstream server that answers before it has read the body gets only a part of it, even when
  the flow succeeds. What reaches it is a prefix of the client's body, and the whole exactly when it reads that far
  (`BodiesUpstream`, `EarlyAnswer`).
- **Closing a tunnel.** `Close` tests and sets its flag without a lock. With each `Close` body as one step, both
  connections are closed when `handleConnect` returns (`TornDownAtReturn`). If another goroutine runs between the
  client's own part and its nested close of the server, the server is still open at that moment exactly when the
  client's copier is interrupted there and nobody else has closed the server (`HalfTornDownAtReturn`);
  `ServerOpenAtReturn` gives such a run.
- **Package rewriting.** The error of closing the archive writer is dropped
  (`ipaversionlib/appstore_replicate_sinf.go:126`). The call reports success, with the old package removed, also when
  that close failed; the new package is readable if and only if the close got through (`ReplicateSinf`,
  `SuccessWithoutPackage`).
- **Watch apps.** The bundle name is never taken from a watch app, but the executable name may be. Both come from the
  same entry exactly when the first matching one is not inside `/Watch/` (`BundleAndInfo`); a package that lists the
  watch app first shows it (`WatchExecutable`).
- **Typed numbers.** The number printed for a version selects it exactly when no earlier version failed in all its
  attempts (`TypedNumberSelectsPrinted`). Otherwise it may select another version (`TypedNumberMisses`).
- **After the return of main.** The one-shot guarantee ends with the unlock: a run from the start in which a second
  replay writes what main has taken is `SecondReplayAfterReturn`.
- **Recovered panics.** Not every exchange writes a status. None is written exactly if an addon that is asked panics,
  or the request or response is missing where the handler looks at it (`Crashes`, `RecoveredExactly`); addons that
  neither panic nor remove either get every exchange answered (`SafeIsAnswered`). `PanicAtOnce` gives an input without
  an answer.
- **Nil headers.** Replacing the body of a response whose header map is nil panics after the body has been replaced
  (`ReplaceToDecodedBody`).

## Model

| member | source | states |
|---|---|---|
| Rewrite.RewriteExact | ipaversionlib/ipaversion.go:62-64 | for different versions the rewritten body holds no old tag, as many new tags as old and new ones before, and its length changes by the difference in digits per occurrence |
| Rewrite.RewriteKeepsTheRest | ipaversionlib/ipaversion.go:62-64 | the body is its tag-free pieces joined by the old tag, and the rewritten body the same pieces joined by the new tag |
| Rewrite.RewriteToSameVersion | ipaversionlib/ipaversion.go:62-64 | rewriting to the same version changes nothing |
| Rewrite.RewriteRoundTrip | ipaversionlib/ipaversion.go:62-64 | rewriting forth and back restores the body if and only if the versions are equal or the new tag was absent |
| Rewrite.RoundTripLoses | ipaversionlib/ipaversion.go:62-64 | a body that is just the new tag comes back as the old tag |
| Rewrite.CountsOccurrences | ipaversionlib/ipaversion.go:62-64 | the count of a pattern is the number of positions at which it stands |
| Rewrite.TagIsText | ipaversionlib/ipaversion.go:62-63 | a tag is the decimal number between the texts of the opening and the closing element |
| Rewrite.DecIsTheNumeral | ipaversionlib/ipaversion.go:62-63 | a number is printed as its only numeral without a leading zero |
| Rewrite.DecIsShort | ipaversionlib/ipaversion.go:62-63 | one digit below ten, at least two and no leading zero above |
| Rewrite.TagsSeparated | ipaversionlib/ipaversion.go:62-63 | tags of different versions neither contain, prefix nor overlap each other or themselves |
| Rewrite.TagsDiffer | ipaversionlib/ipaversion.go:62-63 | tags of which one is a prefix of the other carry the same number |
| Rewrite.ReplaceBack | ipaversionlib/ipaversion.go:64 | for any two separated patterns, replacing back restores a text without the second one |
| Replay.NormaliseRange | ipaversionlib/ipaversion.go:148-164 | for all 64-bit bounds the range lies in the list, is non-empty if the list is, equals the requested slice counted from either end, and is the full list when that slice is empty |
| Replay.SettleIsFirstSuccess | ipaversionlib/ipaversion.go:45-56 | the retry recursion yields the first success among the attempts allowed, and tries them all before giving up |
| Replay.Addon.ReplayRequest | ipaversionlib/ipaversion.go:45-95 | one target appends at most one result, prints it under its position, counts every attempt, and sends the rewritten body each time |
| Replay.Addon.ReplayRange | ipaversionlib/ipaversion.go:167-184 | the loop replays the targets of the range one after the other with consecutive positions |
| Replay.Addon.HandleBuyRequest | ipaversionlib/ipaversion.go:97-189 | the user agent is taken or defaulted; a failed query sends false and replays nothing; otherwise the normalised range is replayed with four attempts per target, with exactly the attempts, bodies, results and lines that follow from the replies, and true is sent |
| Replay.Addon.constructor | main.go:139-145 | a new addon has no results, no attempts and the given range |
| Replay.AfterRecordsThePlan | ipaversionlib/ipaversion.go:169-184 | replaying target by target adds exactly what the plan of slots says: its successes, its printed lines, its attempts, its bodies |
| Replay.SlotIsFirstSuccess | ipaversionlib/ipaversion.go:169-184 | each target's slot is the first success of its own attempts, which start where the previous target's ended |
| Replay.BodyOfTarget | ipaversionlib/ipaversion.go:60-64 | each target is asked for with the original body rewritten to its own version |
| Replay.ExhaustedAfterFour | ipaversionlib/ipaversion.go:182-182 | a target is given up if and only if its next four attempts all fail, and it is kept with the first success among them otherwise |
| Replay.PlannedReplaysAll | ipaversionlib/ipaversion.go:169-184 | said without the recursion: each target's attempts end with its first success or its fourth failure, each sends the target's body, the list grows by the successes in order, and each is printed under its position |
| Replay.PlanCounts | ipaversionlib/ipaversion.go:57-57 | N targets take between N and 4N attempts, and each is kept once or exhausted |
| Replay.KeptPosition | ipaversionlib/ipaversion.go:84-85 | a success sits at its printed position minus the number of exhausted targets before it |
| Replay.KeptAreDistinct | ipaversionlib/ipaversion.go:84-84 | no two entries of the list come from the same attempt, and later entries come from later ones |
| Replay.TypedNumberMisses | main.go:198-210 | with the first of three targets exhausted, the number printed for the second selects the third |
| Replay.TypedNumberSelectsPrinted | main.go:198-210 | the printed number selects the printed result if and only if no earlier target was exhausted |
| Handoff.OneShot | ipaversionlib/ipaversion.go:192-206 | until main returns, over every run, the replay starts at most once, sends at most one value, and main has received it as soon as the sender is past the channel |
| Handoff.FirstTryWins | ipaversionlib/ipaversion.go:192-206 | the flow that tries the lock first replays, and every other one that tries is turned away |
| Handoff.MainGetsTheReplay | main.go:153-164 | what main receives is how that flow's replay ended, and what it takes is what was written last |
| Handoff.WritesAreTheReplays | ipaversionlib/ipaversion.go:192-206 | only that flow writes |
| Handoff.NothingWrittenAfterReceive | main.go:153-164 | between main's receive and its return nothing writes the versions or the user agent |
| Handoff.UnlockIsGood | main.go:123-126 | the deferred unlock always finds the mutex locked |
| Handoff.SenderIsServed | main.go:154-154 | a flow that wants to send while main has not returned meets a waiting main |
| Handoff.SecondReplayAfterReturn | main.go:125-125 | a run from the start in which, after main's unlock, a further flow starts a second replay and writes what main has taken |
| Readers.ReaderToBuffer | lib/go-mitmproxy/proxy/helper.go:90-107 | whole body below the limit, otherwise a reader that yields the whole body from its first byte, failure exactly when a read error is met; at most limit bytes are consumed, whatever the chunks and buffer sizes |
| Readers.ErrorAtTheLimit | lib/go-mitmproxy/proxy/helper.go:92-99 | at exactly the limit, an error with the last byte is reported and one after it is not |
| Readers.RestartedYieldsAll | lib/go-mitmproxy/proxy/helper.go:99-103 | the reader that starts over yields the whole body from its first byte and ends like it |
| Readers.CopyLimited | lib/go-mitmproxy/proxy/helper.go:91-97 | whatever the chunks and buffer sizes, the copy holds the first bytes up to the limit, and what is left is the rest |
| Readers.Read | lib/go-mitmproxy/proxy/helper.go:92-94 | a read returns a prefix of what is left, within the size asked for |
| Addons.LoopIsFirst | lib/go-mitmproxy/proxy/proxy.go:188-195 | a loop asks the addons in turn, each on what the one before it left, all of them getting through before the last one asked, and ends with what that one did; so no addon is asked after one that answers or panics |
| Addons.LoopSuppliesExactly | lib/go-mitmproxy/proxy/proxy.go:189-194 | a loop ends with a response if and only if it gets to an addon that leaves this response |
| Addons.LoopCrashesExactly | lib/go-mitmproxy/proxy/proxy.go:189-195 | a loop crashes if and only if it gets to an addon that panics, or that removes the response whose body is looked at |
| Addons.PassCrashesExactly | lib/go-mitmproxy/proxy/proxy.go:226-228 | passing a reader on crashes if and only if an addon panics on the flow and reader that reach it |
| Addons.LoopIsNeutral | lib/go-mitmproxy/proxy/proxy.go:188-195 | neutral addons, one after the other, change no body and answer nothing |
| Addons.LoopIsSafe | lib/go-mitmproxy/proxy/proxy.go:188-195 | safe addons, one after the other, do not crash and keep request and response |
| Addons.ChainsByPhase | lib/go-mitmproxy/proxy/proxy.go:188-295 | each event asks the addon's own method for it, and ends on its own condition |
| Addons.TrailIsChain | lib/go-mitmproxy/proxy/proxy.go:188-195 | a loop that gets through has made the flow step by step, each addon from what the one before it left |
| Addons.ChainIsLoop | lib/go-mitmproxy/proxy/proxy.go:188-195 | and any such steps are what the loop does |
| Addons.PassUpIsTrail | lib/go-mitmproxy/proxy/proxy.go:226-228 | the same for the flow and the reader passed to the upstream |
| Addons.PassDownIsTrail | lib/go-mitmproxy/proxy/proxy.go:298-300 | the same for the flow and the reader passed to the client |
| Addons.SuppliesByPhase | lib/go-mitmproxy/proxy/proxy.go:188-274 | a loop ends with a response if and only if some addon is the first to leave it, after all before it let the flow pass |
| Addons.AskedLater | lib/go-mitmproxy/proxy/proxy.go:188-228 | one more phase keeps the order of the events and what has been seen |
| Addons.AddonSeesPhasesInOrder | lib/go-mitmproxy/proxy/proxy.go:188-300 | in an ordered trace each addon sees each event at most once and the events in their order |
| Replies.ResponseWriter.Reply | lib/go-mitmproxy/proxy/proxy.go:141-172 | headers are added, one status is written, and the reader, the body reader and a non-empty body follow in this order, each as far as its transfer gets |
| Replies.HeadIsTheResponse | lib/go-mitmproxy/proxy/proxy.go:141-152 | the status written is the response's, and each header keeps its values and gets the response's in order, and the close at the end |
| Replies.AllArrives | lib/go-mitmproxy/proxy/proxy.go:154-171 | if no transfer fails, all three bodies arrive in their order |
| Replies.PrefixArrives | lib/go-mitmproxy/proxy/proxy.go:154-171 | if the body comes from one place, a part from its beginning arrives, whichever transfers fail |
| Exchange.RunIsInOrder | lib/go-mitmproxy/proxy/proxy.go:181-302 | events come in order; Request only for a body that fits; a reply only after all addons saw the response; Response only after Request when streaming is not switched off |
| Exchange.RunSendsAtMostOnce | lib/go-mitmproxy/proxy/proxy.go:181-253 | at most one upstream request, after all addons have seen headers and reader, and none after an addon's early response |
| Exchange.RecoveredExactly | lib/go-mitmproxy/proxy/proxy.go:174-302 | an exchange is recovered if and only if an addon that is asked panics, or no request or response is there where the handler looks at it |
| Exchange.SafeIsAnswered | lib/go-mitmproxy/proxy/proxy.go:174-302 | with addons that neither panic nor remove request or response, no exchange is recovered |
| Exchange.PanicAtOnce | lib/go-mitmproxy/proxy/proxy.go:174-190 | if the first addon panics at the request headers, the exchange is recovered, with nobody else asked and nothing sent |
| Exchange.RefusedExactly | lib/go-mitmproxy/proxy/proxy.go:199-297 | a 502 if and only if a body breaks while it is buffered, or the request cannot be made, is refused, or breaks before an answer |
| Exchange.SuppliedAtHeaders | lib/go-mitmproxy/proxy/proxy.go:188-195 | the reply is an addon's response to the request headers if and only if it is the first to supply one there |
| Exchange.SuppliedAtBody | lib/go-mitmproxy/proxy/proxy.go:211-221 | the same for the buffered request body, which all addons let through at the headers |
| Exchange.SuppliedAtAnswer | lib/go-mitmproxy/proxy/proxy.go:267-274 | the same for a body set on the response at the headers of the answer |
| Exchange.AskedAtHeaders | lib/go-mitmproxy/proxy/proxy.go:188-195 | when an addon answers at the headers, it and those before it were asked, and nothing else happened |
| Exchange.AskedAtBody | lib/go-mitmproxy/proxy/proxy.go:211-221 | when one answers at the buffered body, all were asked at the headers, and it and those before it at the body |
| Exchange.AskedAtAnswer | lib/go-mitmproxy/proxy/proxy.go:267-274 | when one answers at the headers of the answer, it and those before it were asked after the events of the request |
| Exchange.RequestEvents | lib/go-mitmproxy/proxy/proxy.go:188-228 | a request that is made was shown to all addons at the headers and at the modifiers, and at the body if and only if it was buffered |
| Exchange.ResponseEvents | lib/go-mitmproxy/proxy/proxy.go:267-300 | so was an answer that is relayed |
| Exchange.RequestIsWhatAddonsMade | lib/go-mitmproxy/proxy/proxy.go:188-229 | for any addons, the flow and reader sent upstream are what they made of the client's request, state by state, from the header event over the body event to the modifiers |
| Exchange.ReplyIsWhatAddonsMade | lib/go-mitmproxy/proxy/proxy.go:261-302 | for any addons, the response and reader relayed are what they made of the upstream's answer, state by state, from the header event over the body event to the modifiers |
| Exchange.RelayedIsWhatAddonsMade | lib/go-mitmproxy/proxy/proxy.go:229-302 | the same for the whole exchange, starting from what the outside answers to what was sent, and the part of the body it reads is what reaches it |
| Exchange.NeutralConserves | lib/go-mitmproxy/proxy/proxy.go:181-302 | with neutral addons the reader sent yields the client's body and ends like it, what is to be written is the upstream's body, and no response is supplied |
| Exchange.BodiesUpstream | lib/go-mitmproxy/proxy/proxy.go:226-253 | with neutral addons a prefix of the client's body goes upstream, and all of it if and only if the server reads that far |
| Exchange.EarlyAnswer | lib/go-mitmproxy/proxy/proxy.go:243-253 | an answer before the body is read succeeds with nothing sent of it |
| Exchange.IdleIsTransparent | lib/go-mitmproxy/proxy/proxy.go:181-302 | with addons that do nothing the client's own request is sent, status, headers and body of the answer come back, and there is a 502 if and only if a body breaks while buffered or the request is rejected |
| Exchange.OneStatus | lib/go-mitmproxy/proxy/proxy.go:132-302 | every end of an exchange but a recovered panic writes exactly one status |
| Flow.Proxy.constructor | lib/go-mitmproxy/proxy/proxy.go:35-44 | the limit is the given one if positive and five megabytes otherwise |
| Flow.Proxy.RunHooks | lib/go-mitmproxy/proxy/proxy.go:188-195 | the loop over the addons asks those, and leaves the flow, that the loop's specification says |
| Flow.Proxy.Pipe | lib/go-mitmproxy/proxy/proxy.go:226-228 | so does the loop that passes a reader on |
| Flow.Proxy.Greet | lib/go-mitmproxy/proxy/proxy.go:188-195 | the first event; the first response that an addon leaves is replied; it panics exactly if an addon that is asked does |
| Flow.Proxy.AnnounceRequest | lib/go-mitmproxy/proxy/proxy.go:211-222 | the buffered body is put on the request and shown to the addons; the first supplied response is replied, otherwise the reader yields the request's body as they left it; the panics are exact |
| Flow.Proxy.ReadRequestBody | lib/go-mitmproxy/proxy/proxy.go:197-224 | a read error while buffering gives 502 and nothing else does; a body that does not fit is streamed from its first byte, with no event |
| Flow.Proxy.PrepareRequest | lib/go-mitmproxy/proxy/proxy.go:187-228 | all exits before the upstream request, with what each has written, and exactly when one is a panic; with neutral addons the client's body is what will be read |
| Flow.Proxy.Forward | lib/go-mitmproxy/proxy/proxy.go:229-253 | the request reaches the upstream at most once, with as much of the body as it reads, and there is one 502 exactly when it cannot be made, is refused, or the body breaks before an answer |
| Flow.Proxy.ShowAnswer | lib/go-mitmproxy/proxy/proxy.go:261-274 | the answer becomes the response; the first addon that sets its body ends the exchange with that reply, and one that panics or removes it panics the handler, nothing else does |
| Flow.Proxy.ReadResponseBody | lib/go-mitmproxy/proxy/proxy.go:276-297 | a read error while buffering gives 502 and nothing else does; a body that does not fit is streamed; a buffered body is shown to the addons, whose response goes on, and leaves no reader |
| Flow.Proxy.FinishReply | lib/go-mitmproxy/proxy/proxy.go:276-302 | one reply of what the addons left, a 502 or a panic, the last exactly if an addon panics or no response is left |
| Flow.Proxy.RelayResponse | lib/go-mitmproxy/proxy/proxy.go:255-302 | all exits of the response half, with what each has written, and exactly when one is a panic |
| Flow.Proxy.RunExchange | lib/go-mitmproxy/proxy/proxy.go:181-302 | the exchange is the one the specification describes, with the writes that belong to its outcome |
| Flow.Proxy.ServeHTTP | lib/go-mitmproxy/proxy/proxy.go:120-303 | one status per exchange, except exactly when the handler panics; a flow is done exactly once after any end of the exchange, panics included; a request without an absolute address gets 400; events in order, one upstream request; with neutral addons the upstream's body arrives as far as the client takes it |
| Connections.WrapClientConn.Close | lib/go-mitmproxy/proxy/connection.go:245-263 | the first call closes the connection, tells every addon once and closes the server's; later calls change nothing and return the same error |
| Connections.WrapServerConn.Close | lib/go-mitmproxy/proxy/connection.go:292-315 | the same for the server, then the client's read side is shut or, under TLS and keep-alive, the pipe closed |
| Connections.ServerCloseShuts | lib/go-mitmproxy/proxy/connection.go:299-312 | closing an open server closes it, tells everyone, and shuts the client's read side without TLS, the pipe under TLS with keep-alive, and nothing under TLS without |
| Connections.ClientCloseCascades | lib/go-mitmproxy/proxy/connection.go:245-263 | closing an open client closes it and the server; closing a closed one does nothing |
| Connections.TellAll | lib/go-mitmproxy/proxy/connection.go:254-256 | every addon is told once, the first one first |
| Tunnel.StepKeepsInv | lib/go-mitmproxy/proxy/helper.go:45-85 | every step of every participant keeps: closed at most once, told at most once, results and done in agreement with the parent |
| Tunnel.EveryRunEnds | lib/go-mitmproxy/proxy/helper.go:79-84 | no run has more than 24 steps, and one in which nobody can move has parent and copiers at their end |
| Tunnel.NoDeadlock | lib/go-mitmproxy/proxy/helper.go:54-76 | until parent and copiers have ended, one of them can move; a late copier gets out through done |
| Tunnel.TransferResults | lib/go-mitmproxy/proxy/helper.go:45-84 | transfer receives one result per delivering copier, an error exactly if that copier's copy failed, and waits exactly as long as it has neither an error nor two nils |
| Tunnel.FailureReturnsAtOnce | lib/go-mitmproxy/proxy/helper.go:50-84 | whichever copy fails first, transfer leaves after this one result |
| Tunnel.CopiersCloseTheirSources | lib/go-mitmproxy/proxy/helper.go:51-71 | each copier closes its own source before it offers its result, and for the pipe shuts the client's read side |
| Tunnel.WhoClosedWhat | lib/go-mitmproxy/proxy/connection.go:245-315 | over all runs: what closed the client and the server, what was shut with the server, and that hooks, done and return are the parent's own steps |
| Tunnel.TornDownAtReturn | lib/go-mitmproxy/proxy/proxy.go:337-372 | once handleConnect has returned, client and server are closed, each once, every addon told once of each, the flow finished once, whichever side went first |
| Tunnel.HalfTornDownAtReturn | lib/go-mitmproxy/proxy/connection.go:245-263 | when a Close can be interrupted before its nested close, the client is closed at the return, and the server is open if and only if the client's copier is interrupted there and nobody else has closed it |
| Tunnel.ServerOpenAtReturn | lib/go-mitmproxy/proxy/connection.go:246-260 | a run in which that happens |
| CertCache.StepKeepsInv | lib/go-mitmproxy/cert/cert.go:302-326 | every step of every caller keeps the invariant of mutex, cache and flights |
| CertCache.CertsMatchNames | lib/go-mitmproxy/cert/cert.go:304-325 | every cached certificate, and every returned one, is what a flight for the requested name generated |
| CertCache.HitsAreAnswered | lib/go-mitmproxy/cert/cert.go:303-309 | a cached name is answered with the certificate inserted last and touched, and a name is missed if and only if it is not cached |
| CertCache.FlightsAreShared | lib/go-mitmproxy/cert/cert.go:311-312 | a caller that missed joins the flight for its name if somebody is at work on one, and starts one otherwise |
| CertCache.CallersGetWhatWasGenerated | lib/go-mitmproxy/cert/cert.go:302-326 | a caller returns for the name it came with, with a certificate if and only if its flight's generation succeeded, and with the error if and only if it failed |
| CertCache.SuccessIsStored | lib/go-mitmproxy/cert/cert.go:313-317 | a generated certificate is inserted before anybody returns with it, and nothing else is ever inserted |
| CertCache.OneGenerationPerName | lib/go-mitmproxy/cert/cert.go:311-312 | two callers never generate for one name at the same time |
| CertCache.OneOutcomePerFlight | lib/go-mitmproxy/cert/cert.go:311-325 | all callers of one flight return the same certificate or the same error |
| CertCache.LockIsShort | lib/go-mitmproxy/cert/cert.go:303-316 | the mutex is held exactly during the two cache accesses |
| CertCache.NoDeadlock | lib/go-mitmproxy/cert/cert.go:302-326 | in every reachable state in which a caller has not returned, some caller can move |
| CertCache.EveryRunEnds | lib/go-mitmproxy/cert/cert.go:302-326 | a run with k callers has at most 9k steps, and one in which nobody can move has everyone returned |
| CertCache.CacheIsLru | lib/go-mitmproxy/cert/cert.go:94-98 | at every reachable state the cache holds the most recently touched names, as many as fit into 100, newest first, each with its latest certificate |
| Lru.AddKeepsLru | lib/go-mitmproxy/cert/cert.go:314-316 | an insert keeps the cache equal to what its history says |
| Lru.HitKeepsLru | lib/go-mitmproxy/cert/cert.go:304-305 | so does a hit |
| Lru.LastIsLast | lib/go-mitmproxy/cert/cert.go:303-317 | the time of a name is its last touch |
| Lru.LatestIsLast | lib/go-mitmproxy/cert/cert.go:303-317 | its certificate is the one inserted last |
| Lru.LruSize | lib/go-mitmproxy/cert/cert.go:108-112 | such a cache holds as many names as were touched, up to its capacity |
| Package.ReplicateSinf | ipaversionlib/appstore_replicate_sinf.go:78-140 | on success the package is the old entries followed by the new ones, readable if and only if the writer's close got through; a failed rename leaves that under the temporary name; every other failure, a panic included, leaves the package untouched; no other file changes |
| Package.BuildTmp | ipaversionlib/appstore_replicate_sinf.go:79-127 | until the removal only the temporary file is written |
| Package.Install | ipaversionlib/appstore_replicate_sinf.go:129-139 | remove, then rename, and what is on the disk if either fails |
| Package.ReplicateZip | ipaversionlib/appstore_replicate_sinf.go:189-210 | the entries are copied in order, and nothing but the temporary file is written |
| Package.ReplicateFromManifest | ipaversionlib/appstore_replicate_sinf.go:150-171 | sinf k goes to path k of the manifest, lists of different lengths write nothing, and with a nil sinf, or data for a directory, the call does not succeed |
| Package.ReplicateFromInfo | ipaversionlib/appstore_replicate_sinf.go:173-187 | the first sinf goes to the path of the executable; without sinfs, or with a nil one, the call panics or has already failed |
| Package.AddEntry | ipaversionlib/appstore_replicate_sinf.go:158-168 | an entry is created and then filled; it succeeds only if the sinf is there and the name may hold its data, and then whenever the disk does |
| Package.ReadManifest | ipaversionlib/appstore_replicate_sinf.go:241-268 | no manifest is not an error, an unreadable one is |
| Package.ReadParts | ipaversionlib/appstore_replicate_sinf.go:100-113 | bundle, manifest and info are read; the info is never missing once there is a bundle name |
| Package.ReadFromFirst | ipaversionlib/appstore_replicate_sinf.go:212-286 | info, bundle and manifest are looked up as the first entry whose name contains, or ends in, the fixed part |
| Package.ContainsExactly | ipaversionlib/appstore_replicate_sinf.go:214-214 | containing means occurring at some position |
| Package.BundleIsTheDirectory | ipaversionlib/appstore_replicate_sinf.go:270-286 | the bundle is named after the directory that holds the info |
| Package.EntryNames | ipaversionlib/appstore_replicate_sinf.go:157-174 | the names of new entries, spelled out |
| Package.AddsByManifest | ipaversionlib/appstore_replicate_sinf.go:150-171 | sinf k is the entry at the k-th path of the manifest, inside the bundle |
| Package.AddsByInfo | ipaversionlib/appstore_replicate_sinf.go:173-187 | without a manifest the first sinf is the entry named after the executable, inside the bundle |
| Package.BundleAndInfo | ipaversionlib/appstore_replicate_sinf.go:212-286 | a bundle name implies an info entry, and both come from one entry if and only if the first info entry is not a watch app's |
| Package.WatchExecutable | ipaversionlib/appstore_replicate_sinf.go:212-281 | a package whose watch app comes first is named after the app, and its info is the watch app's |
| Package.ZipPairs | ipaversionlib/appstore_replicate_sinf.go:293-307 | pairs by position, or nothing for different lengths |
| Package.AddsOnce | ipaversionlib/appstore_replicate_sinf.go:115-119 | package and sinfs determine the entries to add |
| Package.SuccessWithoutPackage | ipaversionlib/appstore_replicate_sinf.go:124-139 | with a disk that fails only at the writer's close, the call reports success and leaves no readable package |
| Memo.Response.DecodedBody | lib/go-mitmproxy/proxy/flowencoding.go:37-71 | a first call returns nil without a body, the body if it is empty or not encoded, and what decode makes of it otherwise; any call returns the remembered answer and does not change what the next one returns |
| Memo.Response.ReplaceToDecodedBody | lib/go-mitmproxy/proxy/flowencoding.go:73-83 | the answer stays the same, also when computed anew from the replaced body and headers; nothing changes for nil or an error; with a nil header map the call panics once the body is replaced |
| Memo.Response.Calls | lib/go-mitmproxy/proxy/flowencoding.go:37-83 | over any sequence of the two calls there is one answer per reading call, each the first one, and repeated replacing is like replacing once |
| Memo.PlainHeaderIsPlain | lib/go-mitmproxy/proxy/flowencoding.go:79-82 | after a replace Content-Length is the numeral of the body's length, Content-Encoding and Transfer-Encoding are absent, all other headers are kept (sections 8.4 and 8.6 of RFC 9110, section 6.1 of RFC 9112) |

## Left out

- Sockets, HTTP clients and servers, TLS handshakes, certificate creation and storage: oracles with success and failure.
- The TLS handshake gate, dialling, and telling TLS from websocket traffic: single-use signalling whose properties are easy next to the tunnel's.
- The byte formats of gzip, brotli, deflate, property lists and archives: abstract functions and sequences of entries.
- Readers are values: the model returns the rest of a reader instead of advancing it in place, so two holders of one reader are not modelled.
- bytes.ReplaceAll, the LRU list and the flight group are library code; the model follows their documented behaviour, as functions and steps.
- That an upstream server knows only what it has read: its answer may depend on the whole body, which only allows more runs.
- Addons that set the connection context of a flow to nil, and status codes that the HTTP library itself rejects.
- Panics of addons inside a CONNECT tunnel or inside Close, and a generation that panics instead of returning an error.
- Tunnel.HalfTornDownAtReturn: one point of interruption, between the client's own part of Close and the nested close; two goroutines that both pass the test of the flag, and a server Close interrupted half way, are not covered.
- Plain-HTTP server connections that a redial has replaced before the client closes.
- Earlier failures of handleConnect: a failed dial or hijack answers 502 and starts no tunnel.
- Delivery of all bytes in both directions of a tunnel: each copier closes its own source, so the other direction may be cut short.
- Exchange.RunIsInOrder: that Response implies Request is shown for addons that keep streaming on; an addon may switch it off, and then only the response's own size decides.
- The flow counter of a connection, and the note ServeHTTP leaves there that the server closes after the response: `Connections.dfy` takes that note as a field with any value.
- ApplyPatches and the download: a truncated destination after an error is visible in the code and needs no model.
- The wrap-around of the attempt counter at 2^63.
- Flag parsing, console output, system proxy control, logging, saved responses and the programs under `test/`.
