# A verified model of codex-reset-proxy

`codex_reset_proxy` stands between a Codex client and its upstream. It retries requests until the
upstream answers, turns HTTP requests into upstream WebSocket exchanges, keeps finished WebSockets
in a pool, streams the upstream's messages back as server-sent events in HTTP chunks, and speaks
SOCKS5 on both sides. This project models that behaviour in Dafny and proves what it is for.

Check it with `dafny verify dfyconfig.toml`.

## The parts

**The pooled bridge** (`Pool`, `PoolKeys`, `Messages`, `Bridge*`). The pool is a class with a map of
buckets that its methods change in while loops; each method is proved against a small specification of a
bounded stack per key. Around it, `BridgeSystem` is a step system: request tasks, background tasks and
`aclose` tasks share sockets, pool and clock, and an adversarial upstream, network and scheduler choose
among 25 kinds of events. An `await` is where tasks interleave; what happens between two of them, such as
a critical section under the pool's lock, is one event. Every socket records who answers for it,
everything sent and received on it, what is queued on it and how often it was closed. `BridgeInvariants`
holds the inductive invariant and `BridgeSteps`, `BridgePoolSteps` and `BridgeRuns` prove that every
event keeps it; `BridgeShape` says what one step can change. `BridgeOwnership`, `BridgeWire`,
`BridgeFlight`, `BridgeTransparency`, `BridgeRefinement`, `BridgeUnpooled` and `BridgeRetries` prove what
follows for whole runs; `BridgeReports` says what a request reports and what the pool gives and keeps in
a running system, and that every way an `await` can end is open to it; `BridgeRefill` and
`BridgeShutdown` prove what `aclose` achieves and exactly when; `BridgeStray` and `BridgeLeaks` show,
with runs from the beginning, what the code does not guard against.

The refinement has two halves. What a request with a pool looks like, step by step, is a run of a
small machine with one request and one upstream (`BridgeRefinement.Private`); and every run of that
machine is what a request looks like, in that order, in a run of the same step system with pooling
switched off (`BridgeUnpooled`).

**The byte pipeline** (`Sse`, `Utf8`, `Streams`, `PyInt`, `PyBytes`, `Chunked`, `HttpMessages`,
`HttpRoundTrips`, `HttpResponses`, `Pipeline`). Server-sent event frames, chunked coding and HTTP
heads, as loops over streams, each proved against a specification, and the specifications proved to
invert each other. The client side is a reader of event streams as sections 9.2.5 and 9.2.6 of the
WHATWG HTML Standard describe it, strict UTF-8 decoding (RFC 3629), and the repository's own HTTP
readers (sections 3 to 7 of RFC 9112). `ClientView` joins the pipeline to the bridge.

**SOCKS5** (`Socks`, `SocksWire`, `SocksEndpoints`, `SocksComposition`). The client handshake of the
outbound proxy and the server handshake of this proxy (sections 3 to 6 of RFC 1928, section 2 of RFC
1929), each proved against a state machine, each state machine against the bytes of an arbitrary peer,
and the two machines joined by byte queues with arbitrary fragmentation.

**Retries and headers** (`Retries`, `HeaderFilter`). Both retry loops and the header filters.

## What is assumed

- A task is cancelled only while it waits in `recv` inside the generator or at the generator's
  `yield`; all other `await`s run to their end or raise what the code around them can raise.
- Opening a connection and sending on it fail with the errors that the code turns into status 502
  or 504. Entered contexts are counted from the moment `__aenter__` returns.
- Closing a context is one event and does not raise (the code swallows what it raises).
- `recv` returns a queued message at once, so the drain of a release times out only when nothing is
  queued.
- The monotonic clock does not go backwards; `upstream_max_attempts` is at least 1, as
  `codex_reset_proxy/config.py:84` ensures, where a theorem says so.
- The digest of the identity headers is collision free where a theorem says so.
- JSON, IDNA, reason phrases and URL handling are parameters, with the hypotheses that the theorems
  name.

Three exits of the code close nothing: an unexpected exception of the first `recv`, a returned
generator that is never started, and an undecodable binary message met while draining. They are
events of the model like any other, their sockets are owned by nobody (`Escaped`), `BridgeLeaks` has a
run from the beginning through each of them, and `AllClosedExactlyOnce` says that they are exactly the
leaks.

`aclose` empties the pool, but a task that is not over yet may fill it again. `AcloseIsFinalExactly`
says when none can: `TaskMayPark` reads off each task whether it may still put a socket into the pool,
from its phase, the attempts it has left and what is queued on its socket. Under that condition
`AllClosedAfterAclose` concludes that everything is closed; without it, `OtherwiseOneIsLeftOpen` gives a
continuation that leaves an open context in the pool.

Where the promises of the documentation and the code part: the repository's `README.md:79` says that
a pooled socket which "has unexpected pending messages after processing" is discarded. The code looks
for such messages once, for 10 milliseconds, while the socket is being released
(`codex_reset_proxy/websocket_bridge.py:156-158`), and checkout does not look again. A message that
arrives later is just as unexpected and still arrives after processing, but it meets a socket that is
already idle, and `AnyStrayIsShown` proves that it is then shown to the next client;
`StrayIsShownFromTheStart` gives the runs. `PoolTransparency` therefore assumes an upstream that is
quiet on sockets between exchanges, and `OwnAnswerIffNoOtherWasQueued` says exactly when a client gets
its own answer without that.

## Model

| member | source | states |
|---|---|---|
| `Pool.WebSocketBridgePool.Checkout` | codex_reset_proxy/websocket_bridge.py:191-216 | the loop under the lock pops the newest entries until one is usable, and leaves the pool, the selected entry and the stale ones that the stack specification gives |
| `Pool.WebSocketBridgePool.Return` | codex_reset_proxy/websocket_bridge.py:160-173 | the loop under the lock evicts from the front while the bucket is full, then appends: the last `max_idle` of the old bucket and the new entry remain |
| `Pool.WebSocketBridgePool.TakeAll` | codex_reset_proxy/websocket_bridge.py:182-187 | `aclose` takes every entry of every bucket, in some order of the keys, and leaves the pool empty |
| `Pool.ScanCutsAtNewestUsable` | codex_reset_proxy/websocket_bridge.py:196-202 | a checkout cuts its bucket at the newest entry that is within its age and appears open: that one is selected, exactly the newer ones are stale, the older ones stay untouched |
| `Pool.CheckoutConserves` | codex_reset_proxy/websocket_bridge.py:191-211 | the old bucket is what stays, what is selected and what is stale, in order; nothing is lost or invented |
| `Pool.CheckoutKeepsOtherKeys` | codex_reset_proxy/websocket_bridge.py:196-204 | buckets of other keys are unchanged |
| `Pool.CheckoutSelectsMostRecent` | codex_reset_proxy/websocket_bridge.py:197-201 | if any entry is within its age and appears open, one is selected, and no other such entry was used more recently |
| `Pool.CheckoutPastAgeEmptiesBucket` | codex_reset_proxy/websocket_bridge.py:197-216 | meeting one entry past its age empties the bucket and removes its key |
| `Pool.CheckoutKeepsPool` | codex_reset_proxy/websocket_bridge.py:191-216 | buckets stay sorted by last use, within `max_idle`, never stored empty, entries under their own key |
| `Pool.ReturnKeepsPool` | codex_reset_proxy/websocket_bridge.py:160-173 | the same after a release, which evicts at most one entry, the oldest, and only from a full bucket |
| `PoolKeys.KeyIsCanonical` | codex_reset_proxy/websocket_bridge.py:308-318 | given a collision-free digest, two requests share a key if and only if their URLs are equal and, for every value and every name that is the lower-cased key header, a lower-cased configured name, or has `auth` or `token` in it, the two lists have equally many positions with that name, in any case, and that value |
| `PoolKeys.IdentityHeadersExactly` | codex_reset_proxy/websocket_bridge.py:311-315 | the identity headers of two lists are the same multiset if and only if every identity name and value stands in both lists equally often |
| `PoolKeys.LowerCharExactly` | codex_reset_proxy/websocket_bridge.py:309-312 | the letters `A` to `Z` become the small letter at the same place of the alphabet, the accented capitals of Latin-1 the letter 32 further on, and no other character changes |
| `PoolKeys.KeyIgnoresOrder` | codex_reset_proxy/websocket_bridge.py:308-318 | exchanging two stretches of the header list never changes the key |
| `PoolKeys.KeyIgnoresOtherHeaders` | codex_reset_proxy/websocket_bridge.py:308-318 | a header whose name is none of these, wherever it stands, never changes the key |
| `PoolKeys.SortedUnique` | codex_reset_proxy/websocket_bridge.py:316 | a list sorted by the order of Python tuples is determined by its multiset |
| `Messages.CreateRequest` | codex_reset_proxy/websocket_bridge.py:273-297 | a body becomes a request if and only if it is a JSON object; the type is overwritten and every other field kept |
| `Messages.CompletedIdExactly` | codex_reset_proxy/websocket_bridge.py:544-558 | a message gives the id of a completed response if and only if it is a JSON object of type `response.completed` and that is the string `response.id`, or, only when there is no such string, the string `response_id` |
| `Messages.CompletedMessage` | codex_reset_proxy/websocket_bridge.py:552-557 | with the type `response.completed`, a nested id counts whatever stands under `response_id`; without one the id is the string there, or there is none |
| `Messages.TerminalExactly` | codex_reset_proxy/websocket_bridge.py:489-494 | a stream ends at exactly the messages that complete a response with a non-empty id |
| `Messages.EventTypeExactly` | codex_reset_proxy/websocket_bridge.py:534-541 | the type of an event is the string under `type` of a JSON object, and `message` for everything else |
| `BridgeRuns.StepKeepsInvariant` | codex_reset_proxy/websocket_bridge.py:79-211 | every event of every task and of the upstream keeps the invariant of the whole system |
| `BridgeInvariants.TouchedIsEnough` | codex_reset_proxy/websocket_bridge.py:146-211 | a step need only be checked on the tasks and sockets it touches and on the pool |
| `BridgePoolSteps.CheckoutTakes` | codex_reset_proxy/websocket_bridge.py:191-211 | a checkout takes distinct pooled sockets of its key and leaves every other pooled socket listed where it was |
| `BridgePoolSteps.ReturnSplits` | codex_reset_proxy/websocket_bridge.py:169-173 | after a release the bucket and the evicted entry hold distinct sockets, together the old bucket's and the new one |
| `BridgeOwnership.EveryContextHasOneKeeper` | codex_reset_proxy/websocket_bridge.py:146-211 | in every reachable state each entered context is exactly one of: held by one task, idle in one bucket, closed once, or escaped |
| `BridgeOwnership.NoContextIsListedTwice` | codex_reset_proxy/websocket_bridge.py:146-211 | no task and no bucket lists a context twice or one that was never entered |
| `BridgeOwnership.PoolStaysBounded` | codex_reset_proxy/websocket_bridge.py:160-204 | in every reachable state every bucket is sorted by last use, non-empty and at most `max_idle` long |
| `BridgeOwnership.RetentionCanBeDisabled` | codex_reset_proxy/websocket_bridge.py:146-158 | with pooling off, a pool size of 0 or an idle time of 0, no socket is idle in any reachable state |
| `BridgeOwnership.StepOwners` | codex_reset_proxy/websocket_bridge.py:79-211 | a task changes the log, queue and owner only of what it holds, a socket enters the pool only from a drain that found nothing, and what is closed or lost stays so |
| `BridgeOwnership.NothingAfterClose` | codex_reset_proxy/websocket_bridge.py:692-696 | over every continuation of a run nothing is sent or received on a closed context and it is not closed again |
| `BridgeOwnership.EscapedIffSomethingEscaped` | codex_reset_proxy/websocket_bridge.py:414-471 | a context is left without an owner if and only if one of the three unhandled exits happened |
| `BridgeRefill.StaysEmptyExactly` | codex_reset_proxy/websocket_bridge.py:146-189 | from every state of the system with an empty pool: no continuation without a new request ever fills it, if and only if the settings keep nothing or no task may still park a socket, which each task's phase, attempts left and queue decide |
| `BridgeRefill.StepStaysSpent` | codex_reset_proxy/websocket_bridge.py:146-173 | when no task may still park a socket, no step but a new request changes that, whatever the upstream sends |
| `BridgeRefill.WhoMayCan` | codex_reset_proxy/websocket_bridge.py:146-173 | from wherever such a task stands it can be brought to put a socket into the pool, with the settings that keep sockets |
| `BridgeShutdown.AllClosedExactlyOnce` | codex_reset_proxy/websocket_bridge.py:182-189 | in any final state whose pool is empty, every context was closed exactly once if and only if no unhandled exit happened on the way |
| `BridgeShutdown.AcloseClosesUnderEverySchedule` | codex_reset_proxy/websocket_bridge.py:182-189 | however its closes interleave with all other tasks: each context that was idle is still in the list of `aclose` and open, or was closed once; all are closed when its loop has ended |
| `BridgeShutdown.AcloseClosesEveryIdleContext` | codex_reset_proxy/websocket_bridge.py:182-189 | `aclose` can always run to its end; it empties the pool and closes every idle context once |
| `BridgeShutdown.AcloseIsFinalExactly` | codex_reset_proxy/websocket_bridge.py:146-189 | the pool stays empty after `aclose`, over every continuation without a new request, if and only if the settings keep nothing or no task may still park a socket at the moment of the call |
| `BridgeShutdown.AcloseIsFinalOnceRequestsAreDone` | codex_reset_proxy/websocket_bridge.py:146-189 | once all requests are done this condition says that every background task is closing or has something queued on its socket |
| `BridgeShutdown.OtherwiseOneIsLeftOpen` | codex_reset_proxy/websocket_bridge.py:146-189 | otherwise a continuation without a new request leaves an open context in the pool that was shut down |
| `BridgeShutdown.AllClosedAfterAclose` | codex_reset_proxy/websocket_bridge.py:182-189 | `aclose` called under that condition, no request later, and all closing run: every context ever entered was closed exactly once, if and only if no unhandled exit happened, and the pool is empty |
| `BridgeShutdown.AllClosedAfterAQuietAclose` | codex_reset_proxy/websocket_bridge.py:182-189 | so it is when all requests are done and every background task only closes at the call |
| `BridgeShutdown.ReleaseRefillsAfterAclose` | codex_reset_proxy/websocket_bridge.py:146-189 | a release that was still draining puts its socket into the pool that `aclose` emptied |
| `BridgeShutdown.DiscardedIsClosed` | codex_reset_proxy/websocket_bridge.py:146-159 | a socket whose `response.processed` failed, that does not appear open when it is released, that the settings do not keep, or whose drain met a message or failed, is never pooled again: over every continuation it waits to be closed by its background task, or was closed exactly once |
| `BridgeLeaks.FirstEscapeLeaks` | codex_reset_proxy/websocket_bridge.py:402-405 | a run from the beginning in which the first `recv` raises something unexpected: all tasks are done and the context was never closed |
| `BridgeLeaks.UnstartedStreamLeaks` | codex_reset_proxy/websocket_bridge.py:478-499 | the same for a generator that was returned and never started |
| `BridgeLeaks.UndecodableDrainLeaks` | codex_reset_proxy/websocket_bridge.py:156-158 | the same for a binary message that does not decode, met while a release drains |
| `BridgeWire.WireDiscipline` | codex_reset_proxy/websocket_bridge.py:102-128 | on every socket, over its whole life, creates and processed messages alternate, each processed follows the receipt of the message whose fields say that the id it names is completed, and each later create follows the end of the exchange before |
| `BridgeWire.PooledSocketsEndedProperly` | codex_reset_proxy/websocket_bridge.py:494-525 | the last thing on a pooled socket is the receipt of a message whose fields complete a response, or `response.processed` where that is sent |
| `BridgeWire.IdentityIsolation` | codex_reset_proxy/websocket_bridge.py:87-100 | every create a socket ever carried, and the request it serves now, has the URL of the request that opened it and every identity name and value as often as that, and it waits in no bucket but that request's |
| `BridgeWire.AttemptsAreHonest` | codex_reset_proxy/websocket_bridge.py:385-471 | a reported attempt n follows exactly n - 1 failed ones; exhaustion reports the maximum and the last status; 400 is reported at attempt 1 alone, and if and only if the body is no JSON object |
| `BridgeWire.RefusalTouchesNothing` | codex_reset_proxy/websocket_bridge.py:86-88 | refusing a body changes no socket and not the pool |
| `BridgeReports.FailuresAreTold` | codex_reset_proxy/websocket_bridge.py:385-471 | over every run from the beginning, the failures a request has on record are the failing events of that run, in order, with their statuses, and when it gives up it reports the status of the last of them |
| `BridgeReports.BeginChecksOut` | codex_reset_proxy/websocket_bridge.py:191-216 | an attempt of a running request is given the newest socket of its bucket that is within its age and appears open; the newer ones are to be closed, newest first, the older ones and all other buckets stay |
| `BridgeReports.ParkReturns` | codex_reset_proxy/websocket_bridge.py:160-173 | a release puts its socket, used just now, at the end of its bucket; exactly as many of the oldest as are too many are taken out and are to be closed, all other buckets stay |
| `BridgeFlight.ShownIsReceived` | codex_reset_proxy/websocket_bridge.py:478-492 | in every phase, finished streams included, what a client was shown is exactly what its request received on one socket from its own create on, the first message once and first; while it is in flight that is all it received there |
| `BridgeFlight.StreamHandsOver` | codex_reset_proxy/websocket_bridge.py:494-513 | one step of a stream: it goes on, or returns normally after a completed message and one new background task has the socket, or goes on to close it; an abort at the yield of the completed frame closes it |
| `BridgeFlight.EndingCloses` | codex_reset_proxy/websocket_bridge.py:497-499 | a stream that did not return normally can only close its socket, for the first time |
| `BridgeFlight.StreamEndsOnce` | codex_reset_proxy/websocket_bridge.py:478-513 | over every continuation, a stream that was opened on a socket, started or not, still has it, or is about to close it, or has closed it exactly once, or returned normally by one step that handed it to one new background task, its last step; only one that was dropped before it started has lost it |
| `BridgeTransparency.PoolTransparency` | codex_reset_proxy/websocket_bridge.py:369-499 | for every interleaving, with an upstream that is quiet between exchanges, every client is shown a prefix of the answer to its own body, all of it if its stream ended normally |
| `BridgeTransparency.QuietStep` | codex_reset_proxy/websocket_bridge.py:146-171 | with such an upstream every socket between exchanges has nothing queued, after every step |
| `BridgeTransparency.OwnAnswerIffNoOtherWasQueued` | codex_reset_proxy/websocket_bridge.py:191-216 | with any upstream, a stream that ended normally showed exactly the client's own answer, if and only if nothing was queued when its create was sent or what was queued begins with that whole answer |
| `BridgeTransparency.OwnAnswerExactly` | codex_reset_proxy/websocket_bridge.py:191-216 | a stream that still runs shows its own answer if and only if nothing was queued, when what was queued begins with another message than the answer |
| `BridgeTransparency.BacklogIsShownFirst` | codex_reset_proxy/websocket_bridge.py:191-216 | with any upstream, what a client is shown is a prefix of what was queued when its create was sent, followed by its answer |
| `BridgeStray.AnyStrayIsShown` | codex_reset_proxy/websocket_bridge.py:191-216 | for every idle socket within its age, wherever it stands in its bucket, and every message that arrives on it, the next request can be shown that message as its first frame |
| `BridgeStray.OneIdleIsReachable` | codex_reset_proxy/websocket_bridge.py:160-173 | a run from the beginning ends with one idle socket of a request's key and nothing queued |
| `BridgeStray.StrayIsShownFromTheStart` | codex_reset_proxy/websocket_bridge.py:191-216 | a run from the beginning in which a second client of the same identity is shown a message that answers nothing, and not its own answer |
| `BridgeStray.AcloseIsRefilledFromTheStart` | codex_reset_proxy/websocket_bridge.py:146-189 | a run from the beginning in which `aclose` empties the pool while a release is draining, and the pool holds a socket afterwards |
| `BridgeRefinement.StepRefinesPrivateBridge` | codex_reset_proxy/websocket_bridge.py:321-366 | every step of the pooled system, seen by one request, is a step of the one-request machine, or none |
| `BridgeRefinement.PoolRefinesPrivateBridge` | codex_reset_proxy/websocket_bridge.py:369-499 | what a request looks like after each step of a run of the pooled system, from its start to where it stands, is a run of the one-request machine |
| `BridgeRefinement.EveryRequestIsPrivate` | codex_reset_proxy/websocket_bridge.py:369-499 | the same for every request of every run from the beginning, with an upstream that is quiet between exchanges |
| `BridgeUnpooled.PrivateRunsAreUnpooled` | codex_reset_proxy/websocket_bridge.py:321-499 | every run of the one-request machine is what a request looks like, in that order, in a run of the system with pooling off |
| `BridgeUnpooled.EveryRequestIsAsWithoutPool` | codex_reset_proxy/websocket_bridge.py:321-499 | with such an upstream every request goes through, in order, what the same request can go through in a run with pooling off, and is shown the same |
| `BridgeRetries.RetryLoopsAgree` | codex_reset_proxy/websocket_bridge.py:385-471 | for every reachable request, the retry loop as written returns the attempt, or the status and attempt of the error, that the request reports, on all outcomes that tell of the same failures |
| `Sse.ParseFrame` | codex_reset_proxy/websocket_bridge.py:684-689 | a client reads a frame as one event with its type and its line-normalised text, and is ready for the next one |
| `Sse.FrameIsSpelled` | codex_reset_proxy/websocket_bridge.py:684-689 | a frame, line by line: `event: ` and the type, a `data: ` line for each line of the text, whatever ends it, one for an empty text, and an empty line; a line end at the end of the text adds nothing |
| `Sse.StreamRoundTrip` | codex_reset_proxy/websocket_bridge.py:684-689 | a client reads back every frame, in order, if and only if no event type is empty or has a CR or LF in it |
| `Sse.NormalisedExactly` | codex_reset_proxy/websocket_bridge.py:686-687 | the text itself comes back if and only if its only line boundaries are line feeds and it does not end with one |
| `Sse.NormalisedIsSpelled` | codex_reset_proxy/websocket_bridge.py:686-687 | the line-normalised text: lines are joined with LF, whatever separated them, and a line end at the end is dropped |
| `Sse.DispatchedTypesAreOneLine` | codex_reset_proxy/websocket_bridge.py:684-685 | no event a client dispatches, from any stream, has an empty type or one with a line break |
| `Utf8.DecodeInverts` | codex_reset_proxy/websocket_bridge.py:689 | strict decoding gives back every encoded string |
| `Utf8.EncodesByTable` | codex_reset_proxy/websocket_bridge.py:689 | every character is encoded in its shortest form, byte by byte as the table of section 3 of RFC 3629 says |
| `Utf8.DecodesExactly` | codex_reset_proxy/websocket_bridge.py:689 | a client that decodes strictly gets a text from its own encoding and from no other bytes |
| `PyInt.ParseIntInverts` | codex_reset_proxy/socks_mitm.py:298-316 | `int(text, base)` inverts printing in every base from 2 to 16, for every number, with white space around it |
| `PyInt.CutPrintIsPositive` | codex_reset_proxy/socks_mitm.py:316 | the digits of a positive number, cut short anywhere, never parse as zero |
| `PyInt.PrintSpells` | codex_reset_proxy/socks_mitm.py:463 | what is printed is a numeral of that value in that base, without a zero in front and without capital letters |
| `PyInt.NumeralIsParsed` | codex_reset_proxy/socks_mitm.py:298-316 | every numeral of a value is parsed to it, in either case, with zeros in front and white space around |
| `PyInt.ParsesExactly` | codex_reset_proxy/socks_mitm.py:298-316 | `int(text, base)` succeeds if and only if the text is white space around an optional sign, an optional prefix and digits with single underscores between them, and then gives that value |
| `PyBytes.LowerIsCaseless` | codex_reset_proxy/socks_mitm.py:296-299 | two byte strings have the same lower case if and only if they are equal but for the case of ASCII letters |
| `Chunked.WriteBody` | codex_reset_proxy/socks_mitm.py:460-468 | the loop writes every chunk that is not empty, in order, as its size in plain hexadecimal, CR LF, the chunk and CR LF, and `0`, CR LF, CR LF at the end unless the iterator raised |
| `Chunked.WrittenExactly` | codex_reset_proxy/socks_mitm.py:460-467 | the same of the specification, for every list of chunks |
| `Chunked.ReadChunkedBody` | codex_reset_proxy/socks_mitm.py:312-325 | the loop returns the body that the recursive reader finds, leaves the stream where that leaves it, and fails as that fails |
| `Chunked.AnyCodingIsRead` | codex_reset_proxy/socks_mitm.py:312-325 | whatever form the coding has, with sizes in either case, zeros in front, white space, chunk extensions, any number of trailers and lines that end with LF alone, the body comes back whole and what follows is left unread, if and only if it fits the limit |
| `Chunked.ChunkedRoundTrip` | codex_reset_proxy/socks_mitm.py:312-325 | for all chunks, limits and suffixes: reading the written chunks returns their concatenation and leaves the suffix if it fits the limit, and is refused otherwise |
| `Chunked.TruncationSafety` | codex_reset_proxy/socks_mitm.py:312-325 | what was written, cut at any byte, is taken for a body if and only if the final `0` is there and the chunks fit |
| `Chunked.CutBodyIsRefused` | codex_reset_proxy/socks_mitm.py:460-468 | chunks cut at any byte, or left off when the iterator raised, are never taken for a body, with any limit |
| `Chunked.ReadLimitedBody` | codex_reset_proxy/proxy.py:69-77 | the loop returns the concatenation if no prefix of it exceeds the limit, and refuses otherwise |
| `Chunked.ReadLengthDelimited` | codex_reset_proxy/socks_mitm.py:304-307 | refuses a length over the limit, a negative one, and a stream that ends early, and otherwise returns exactly the declared bytes and leaves the rest |
| `Chunked.BodyReadersAgree` | codex_reset_proxy/socks_mitm.py:302-325 | the three body readers return the same bytes and leave the same rest, or all refuse, on the same chunks |
| `HttpMessages.ReadHttpRequest` | codex_reset_proxy/socks_mitm.py:267-309 | the head, the header loop and the body reader return the request that the parser specification gives, with its error cases; that specification is what the rows below are about |
| `HttpMessages.IsLengthExactly` | codex_reset_proxy/socks_mitm.py:296-298 | a header declares the length exactly when its name is `content-length` in any case |
| `HttpMessages.IsChunkedExactly` | codex_reset_proxy/socks_mitm.py:299-300 | a header declares the chunked coding exactly when its name is `transfer-encoding` and `chunked` stands somewhere in its value, both in any case |
| `HttpMessages.HeadRoundTrip` | codex_reset_proxy/socks_mitm.py:271-295 | reading a printed head finds its end, its first line and its headers, and leaves the rest |
| `HttpMessages.HeadIsSpelled` | codex_reset_proxy/socks_mitm.py:435-439 | a printed head is its first line, then each header as name, colon, space and value, each ended by CR LF, and an empty line |
| `HttpMessages.AnyHeaderLineIsRead` | codex_reset_proxy/socks_mitm.py:288-300 | however a header line is spaced, its name is what stands before the first colon and its value what stands behind the white space after it; a Content-Length in any case sets the length or is refused when it is no number, a chunked Transfer-Encoding sets the coding, and nothing else sets either |
| `HttpMessages.BadHeaderLineIsRefused` | codex_reset_proxy/socks_mitm.py:291-293 | a header line without a colon is refused |
| `HttpMessages.LongHeadIsRefused` | codex_reset_proxy/socks_mitm.py:271-276 | a head of more than 131072 bytes is refused, and bytes without an empty line are no request |
| `HttpMessages.BadRequestLineIsRefused` | codex_reset_proxy/socks_mitm.py:279-283 | a request line without exactly two spaces is refused, whatever follows it |
| `HttpRoundTrips.FramingOf` | codex_reset_proxy/socks_mitm.py:285-300 | the header loop keeps every header in order, takes the number of the last header named `content-length` in any case and any `transfer-encoding` that mentions `chunked` in any case, and fails exactly on a length that is no number |
| `HttpRoundTrips.ReadRequestIsWellFormed` | codex_reset_proxy/socks_mitm.py:278-295 | from any bytes, the reader returns only requests whose parts have no space or CRLF, whose header names have no colon and whose header values have no leading white space |
| `HttpRoundTrips.RequestRoundTrip` | codex_reset_proxy/socks_mitm.py:267-309 | a printed request comes back as itself, and what follows is left unread, if and only if it is well formed and its headers declare exactly its body |
| `HttpRoundTrips.PrintedLengthIsRead` | codex_reset_proxy/socks_mitm.py:297-309 | with its length as the last header, under the name `content-length` in any case and as any decimal numeral, every body within the limit is read back |
| `HttpRoundTrips.ChunkedRequestRoundTrip` | codex_reset_proxy/socks_mitm.py:299-303 | when any header named `transfer-encoding` mentions `chunked`, both in any case, a body in any chunks is read back whole, and the rest left unread, if it fits the limit, and refused otherwise, whatever lengths are declared beside it |
| `HttpRoundTrips.DechunkShrinks` | codex_reset_proxy/socks_mitm.py:312-325 | a chunked body and what follows it are always shorter than the bytes they came from |
| `HttpResponses.WriteFixedResponse` | codex_reset_proxy/socks_mitm.py:428-441 | writes `HTTP/1.1`, the given status in decimal and the phrase, the given headers, the length of the body in decimal, `connection: close` and the body |
| `HttpResponses.StatusLineSays` | codex_reset_proxy/socks_mitm.py:434-435 | for every status and phrase the first line is `HTTP/1.1`, a space, a word without spaces that is the decimal numeral of the status and parses to it, a space, and the phrase |
| `HttpResponses.WriteStreamingResponse` | codex_reset_proxy/socks_mitm.py:444-468 | writes the first line with the given status and phrase, exactly the given headers that are not named `content-length`, `transfer-encoding` or `connection` in any case, the chunked coding and `connection: close`, then the chunks plainly coded, then the last chunk unless the iterator raised |
| `HttpResponses.WithoutFramingKeeps` | codex_reset_proxy/socks_mitm.py:452-455 | of any headers, exactly those are passed on, in order and unchanged, that do not speak of framing |
| `HttpResponses.FixedResponseIsRead` | codex_reset_proxy/socks_mitm.py:428-441 | whatever is a fixed response with a status and a body is read back with exactly that status and phrase, the given headers, the length and the notice behind them, and exactly the body |
| `HttpResponses.StreamingResponseIsRead` | codex_reset_proxy/socks_mitm.py:444-468 | a streaming response is read back with exactly its status and phrase, the given headers without those on framing, and the concatenated chunks as its body if they fit the limit |
| `HttpResponses.CutStreamingResponseIsRefused` | codex_reset_proxy/socks_mitm.py:460-468 | a streaming response whose iterator raised is never taken for a complete one |
| `Pipeline.StreamWebsocketAsSse` | codex_reset_proxy/websocket_bridge.py:474-499 | the generator stops at the first message that cannot be decoded or whose fields complete a response; it yields, for each message before and for the completing one, the frame with the type that its fields give it and its text, and returns normally if and only if one completed a response |
| `Pipeline.ShownExactly` | codex_reset_proxy/websocket_bridge.py:478-499 | the same of what the other theorems say is shown: the messages up to the first that ends the stream, with it, or cannot be decoded, without it |
| `Pipeline.WriteBridgeResponse` | codex_reset_proxy/socks_mitm.py:409-419 | the response for the messages received: head, frames in chunks, and the last chunk only after a normal return |
| `Pipeline.EndToEnd` | codex_reset_proxy/socks_mitm.py:409-419 | a client reading the written response finds the given status and phrase and sees exactly the (event type, line-normalised text) of every message, in order, if and only if the types are non-empty single lines; a response that did not end properly is refused |
| `ClientView.ClientReadsItsAnswer` | codex_reset_proxy/socks_mitm.py:384-419 | in every run with a pool, with an upstream quiet between exchanges, the client of a request whose stream returned reads off the wire exactly the events of the answer to its own body, in order, if and only if their types are non-empty single lines |
| `Socks.Socket.RecvExact` | codex_reset_proxy/outbound.py:120-127 | however the network cuts the bytes up, exactly `size` of them are returned, or an error if the stream ends first |
| `SocksEndpoints.ClientHandshake` | codex_reset_proxy/outbound.py:56-101 | on any bytes of the peer, the client is through if and only if they are `05 00`, or `05 02 01 00` with name and password of at most 255 bytes, then `05 00`, a reserved byte, a bound address of one of the three types and a port, and the host can be asked for; what follows stays unread, and what it sends is the greeting, the credentials and the request that this calls for |
| `SocksEndpoints.Authenticate` | codex_reset_proxy/outbound.py:104-117 | over-long credentials are refused before anything is sent; otherwise they are sent, and only the reply `01 00` lets the handshake go on |
| `SocksEndpoints.ServerHandshake` | codex_reset_proxy/socks_mitm.py:152-182 | on any bytes of the peer, the server accepts if and only if they are a version 5 greeting that offers no authentication and a version 5 request to connect, and then the host and port that these bytes say; what follows stays unread, and what it replies, refusals included, is as the bytes determine |
| `SocksEndpoints.ReadSocksAddress` | codex_reset_proxy/socks_mitm.py:185-195 | the host is read by its address type; an unknown type, an early end and an undecodable name are errors |
| `SocksWire.ClientConnectsExactly` | codex_reset_proxy/outbound.py:56-101 | the same of the client's state machine: when it ends connected, what it leaves unread and what it has sent, read off the bytes of the peer |
| `SocksWire.RefusalsAreSeen` | codex_reset_proxy/outbound.py:66-89 | any other version or method, and any other version or reply code behind the agreement, is never taken for a connection |
| `SocksWire.ServerAcceptsExactly` | codex_reset_proxy/socks_mitm.py:152-200 | the same of the server's state machine: a dotted address of four decimal numbers, eight groups of four hexadecimal digits or a decoded name, the port high byte first, and the replies `05 ff`, 1 and 7 |
| `SocksComposition.StepKeeps` | codex_reset_proxy/socks_mitm.py:152-182 | every read, of any number of bytes, and every action of either side keeps what the two sides know of each other |
| `SocksComposition.HandshakeCompletes` | codex_reset_proxy/outbound.py:56-101 | every run is bounded, and when nothing is left to do both sides are through with the client's host and port and only application bytes in either queue, if and only if the host is deliverable |
| `SocksComposition.NothingGoesWrong` | codex_reset_proxy/socks_mitm.py:152-182 | with a deliverable host neither side ever fails, no other target is accepted, and the client is through only when it has read the whole reply and nothing behind it |
| `SocksComposition.QuiescentIsOver` | codex_reset_proxy/outbound.py:66-101 | nobody waits for bytes that will not come, unless the host cannot be delivered |
| `SocksComposition.StepUsesUp` | codex_reset_proxy/outbound.py:120-127 | every read and every action uses up some of what is left of the handshake |
| `SocksComposition.CanFinish` | codex_reset_proxy/outbound.py:56-101 | from wherever it stands the handshake can be brought to its end |
| `SocksComposition.EveryReplyIsRead` | codex_reset_proxy/outbound.py:85-101 | whatever form the bound address of a success reply has, the client reads exactly the reply and leaves what follows |
| `SocksComposition.EndpointsMeet` | codex_reset_proxy/socks_mitm.py:152-182 | each side, run alone on what the other one sends, sends exactly what the other one is run on, and leaves the application data behind it unread |
| `Retries.OpenUpstreamWithRetries` | codex_reset_proxy/proxy.py:135-230 | the loop with its `last_*` variables returns the result, and performs the opens, closes and pauses, that the outcomes of the attempts determine |
| `Retries.HttpReportsHonestly` | codex_reset_proxy/proxy.py:148-230 | success names the first attempt with headers, after failures only; exhaustion names the last attempt and reports it as 504 with `upstream_header_timeout` or `upstream_timeout`, or as 502 with `upstream_request_error`, as it failed |
| `Retries.OpenBridgeWithRetries` | codex_reset_proxy/websocket_bridge.py:369-471 | the same for the WebSocket loop, with its immediate refusal below status 500 and its break at the last attempt |
| `Retries.BridgeReportsHonestly` | codex_reset_proxy/websocket_bridge.py:385-471 | success follows failed attempts only, a refusal below 500 ends the loop where it happened and is passed on, exhaustion reports the maximum and the last failure: 504 for a timeout of the first message, 502 for its error, or the status and code of the failed opening |
| `Retries.ClosedExactlyTheFailed` | codex_reset_proxy/proxy.py:148-223 | every client of a failed attempt is closed exactly once, that of the attempt that ends the loop is not, and no attempt is made after it or beyond the maximum |
| `Retries.HttpClientsAreClosed` | codex_reset_proxy/proxy.py:148-223 | every attempt of the HTTP loop that is made has its own client, which is closed, once, exactly if it fails with a timeout or a request error |
| `Retries.BridgeContextsAreClosed` | codex_reset_proxy/websocket_bridge.py:385-463 | every attempt of the WebSocket loop whose opening succeeds has its own context, which is closed, once, exactly if no first message comes in time or waiting for it fails |
| `Retries.PausesExactly` | codex_reset_proxy/proxy.py:196-223 | there is a pause after every failed attempt but the last possible one, and none at all when the configured pause is zero |
| `Retries.ActionsInOrder` | codex_reset_proxy/proxy.py:148-223 | attempt by attempt a client is opened, closed if the attempt fails, and then the loop pauses, in this order and nothing else |
| `Retries.TotalWaitIsBounded` | codex_reset_proxy/proxy.py:148-223 | with waits of at most T and pauses of B, N attempts take at most N * T + (N - 1) * B |
| `Retries.HttpTimeExactly` | codex_reset_proxy/proxy.py:148-223 | the HTTP loop takes exactly as long as the attempts it makes and its pauses |
| `HeaderFilter.FilterRawHeaders` | codex_reset_proxy/proxy.py:116-128 | the loop collects the names of all Connection headers and the filter drops what they name |
| `HeaderFilter.HopByHopExactly` | codex_reset_proxy/proxy.py:16-29 | the headers skipped by name are the nine hop-by-hop ones and, in requests, `host`, each in any case |
| `HeaderFilter.TokensExactly` | codex_reset_proxy/proxy.py:131-132 | a name is nominated by a value if and only if it is, in any case and without the white space around it, one of its comma-separated parts |
| `HeaderFilter.FilterKeepsExactly` | codex_reset_proxy/proxy.py:116-132 | kept, in order and unchanged, are exactly the headers that are not hop-by-hop, not skipped by name and not listed, in any case, in any header named `connection` in any case, wherever that stands |
| `HeaderFilter.FilterIsIdempotent` | codex_reset_proxy/proxy.py:116-128 | filtering twice is filtering once |
| `HeaderFilter.FilteredRequestHeaders` | codex_reset_proxy/proxy.py:97-109 | what is sent is, in order and unchanged, exactly the client's headers that are not hop-by-hop, not `host`, not listed by any Connection header and not named like the key, all in any case, and after them the configured key header |
| `HeaderFilter.RequestKeepsExactly` | codex_reset_proxy/proxy.py:97-109 | the same of the specification function, for every header list and with or without a key |
| `HeaderFilter.OneKeyHeader` | codex_reset_proxy/proxy.py:102-109 | with a key configured exactly one header has its name, the last one, with the configured value, whatever the client sent or nominated |
| `HeaderFilter.RequestFilterIsIdempotent` | codex_reset_proxy/proxy.py:97-109 | the whole request filter is idempotent if and only if the key header is not named `connection` or lists none of the client's headers that pass on |
| `HeaderFilter.OrdinaryKeyIsIdempotent` | codex_reset_proxy/proxy.py:97-109 | under every other name than `connection` in any case, skipped ones included, and without a key, it is idempotent |
| `HeaderFilter.ConnectionKeyIsNotIdempotent` | codex_reset_proxy/proxy.py:97-109 | with the key header `connection: x` and one client header `x` it is not |

## Left out

- Certificates, TLS, the SOCKS5 listener's tunnel pipe, the ASGI application, logging, environment parsing, and URL and path helpers: wiring and library calls.
- The internals of `httpx`, `websockets` and `asyncio`: their results are chosen by the environment of the model. The line and header size limit of `asyncio` streams is not modelled.
- `stream_upstream_body` and `close_upstream`: a response whose headers were received is handed over and then closed by library calls.
- Cancellation of a task inside an `await` other than those named above, and the exceptions of JSON decoding other than a syntax error.
- Binary WebSocket messages are texts or undecodable; the text of a message is a sequence of Unicode scalar values, so a lone surrogate spelled by a JSON escape in an event type, which fails to encode, does not occur.
- What a closed WebSocket looks like: which sockets appear open is chosen anew at each checkout and release.
- Whether a socket that was closed under the pool's feet still delivers what was queued: queues are only emptied by receiving.
- PyInt.ParseInt: does not model the interpreter's configurable limit on the length of a decimal literal.
- Chunked.ReadChunkedBody: strict refusal of malformed chunks is not claimed, because the code checks neither the two bytes after a chunk nor that a size has only hexadecimal digits.
- SocksComposition.HandshakeCompletes: the success reply does not say that the destination was reached, because the server sends it before it connects.
- Retries.TotalWaitIsBounded: the time taken by closing clients is not counted.
- Retries.HttpTimeExactly: it is not counted here either; the time of the WebSocket loop is not modelled.
- BridgeStray.AnyStrayIsShown: is a statement about one continuation, not about every one: the upstream may also fail before the first frame.
- Python's byte and string methods are modelled for the arguments the code gives them; the `socket` and stream objects are modelled with all that the peer will ever send as one sequence.
