# Verified model of the cf_http server library

This project models the stateful parts of `cf_http`, an HTTP server component
for Go, in Dafny, and proves what they promise over every input, every call
sequence and every interleaving. Verify it with `dafny verify dfyconfig.toml`.

**Response writers** (`Writers`, `Compression`, `Flattening`, `Settling`,
`Transparency`, `Labelling`, `Chunking`, `Opacity`, `Silence`, `Recovery`, `WriterObjects`).
A handler's calls travel through any number of status recorders and a gzip
writer that decides late whether to compress. The wire is a sequence of events:
a header, plain bytes, bytes inside a gzip stream (RFC 1952), and the end of
that stream. Informational statuses go out ahead of it and leave the response
open; a hijacked connection takes nothing more. `Compression.Decide` reads off a
handler's trace where and how its response is settled, and `Strays` which of the
later bytes go around the gzip stream, without mentioning the writer's buffer or
flags; `Transparency` shows that the writer does exactly that, and says exactly
when the client can decode the handler's bytes. `Labelling` says it in closed
form: which call settles a response, the header that goes out, and the types for
which the writer steps aside. `Recovery` adds Recover in both
orders. The classes in `WriterObjects` have the program's own fields and
methods, each proved to follow the step functions.

**Lifecycle** (`Lifecycle`, `RunInvariant`, `LifecycleSafety`,
`LifecycleResults`, `LifecycleTraces`, `RunVerdicts`, `RunCauses`, `Reload`, `ReloadRefinement`). `Run`, reloads, cancellation, `Init`,
`Shutdown`, `SetHandler` and the serving goroutines form a transition system
whose actions are critical sections and single atomic operations. One inductive
invariant holds in every reachable state; the theorems follow from it, and
`LifecycleTraces` gives the interleavings that break a promise. `RunVerdicts` and
`RunCauses` are about every continuation of a state: what the end of a context,
or an answer of the environment, means for a Run from then on. `Reload` is the settings side: a class with the server's fields, and the history of
reloads between `Init` and `Shutdown`. `ReloadRefinement` runs both side by side
and shows that they agree.

**Bodies** (`Streams`, `Bodies`, `GraphQL`). Readers denote byte streams, and
every reader the middleware stacks is faithful to its stream for every chunking
and every schedule of reads. Peeking, full reads, counting and limiting follow.

**Meters** (`Meters`, `Recording`, `Rendering`). Nested counter maps, the keys
that separator-joined names make, and the rendering that takes them apart again.

**Addresses and requests** (`Strings`, `Addresses`, `Binds`, `ClientIP`,
`Relays`, `Csrf`, `Middlewares`). `SplitHostPort` and `JoinHostPort` are concrete; IP
tables, URL parsing and randomness are parameters.

## Where the promise does not hold

Several promises hold only under a condition. The members named here state it
exactly, for all inputs, or exhibit an input that breaks the promise.

- Compression loses transparency when bytes are written after the content type
  has become non-compressible (`Transparency.Transparent`,
  `Opacity.TypeChangeGarbles`), when the handler names its own coding
  (`Opacity.OwnCodingIsOverwritten`), and, as soon as it begins, when gzip
  refuses the level (`Transparency.RefusedLevel`, `Opacity.RefusedLevelLosesBody`).
- A hijack that is refused below a recorder, as the call that settles the
  response, makes the compressor keep what the handler then writes, up to the
  first byte under a type that is not compressible (`Opacity.RefusedHijack`,
  `Opacity.FailedHijackLosesBody`). Refused after the response has been settled
  uncompressed, it does no harm (`Transparency.RefusedLaterIsHarmless`).
- A recorder reports a status the client never saw exactly when, before the
  first final status, the handler flushes and then chooses another than 200,
  takes the connection, or chooses an informational status
  (`Writers.RecordersAgree`, `Writers.EarlyFlushMisleadsRecorder`,
  `Writers.HijackMisleadsRecorder`, `Writers.EarlyHintMisleadsRecorder`).
- A recorder keeps to itself the status that follows an informational one, so
  the client gets 200 (`Writers.RecordersAreInvisible`,
  `Recovery.SameAsUncompressed`).
- Recover outside Compression sends its error page, for a handler that answered
  nothing, only on requests that do not engage compression
  (`Recovery.PageOutsideIff`, `Recovery.OrderMatters`); likewise MaxBodyBytes
  outside Compression its 413, unless the client announced the excess
  (`Bodies.RefusalIff`). In neither does the page appear if the handler flushed
  or took the connection (`Bodies.FlushHidesTheRefusal`).
- Health succeeds while nothing listens, after a Serve call has failed and until
  Run has cleaned up (`LifecycleSafety.HealthMeansServing`,
  `LifecycleTraces.HealthyWithoutListener`).
- A run that a reload asked to restart, and that had not begun to drain, returns
  something else: nil, if it was waiting for health
  (`LifecycleResults.AskedWithoutDrain`, `LifecycleTraces.RestartLostWhileWaiting`).
- A bracketed host that begins with white space does not survive being parsed
  again (`Binds.ParseIsIdempotent`, `Binds.HiddenSpaceIsLost`,
  `Binds.HiddenSpaceExample`).
- A trusted service that is itself the client it relays names nobody, and the
  next service is taken for the client (`Relays.RelayKeepsClientIff`,
  `Relays.LostClientExample`).
- A separator inside a recorded name corrupts its labels
  (`Rendering.LabelsRecoverSeries`, `Rendering.SeparatorsCollide`).
- A body whose source fails inside the peek window, or at its edge together with
  the last byte, is lost (`Bodies.PeekFailing`); a full read that fails leaves an
  empty body that ends cleanly, so that the handler does not learn of the failure
  (`Bodies.Request.ReadFullRequestBody`).
- A CSRF token in a multipart form, or in a form sent with a method other than
  POST, PUT and PATCH, is not found, and the request is rejected
  (`Csrf.EchoIsAccepted`, `Csrf.MultipartEchoIsRejected`).
- When a browser sends an empty CSRF cookie, the inner request keeps it although
  a token was minted (`Csrf.InnerCookieIsToken`).

Code and documentation disagree four times; the model follows the code.
`docs/reload.md` says a new `restart_policy` applies on the next reload, but
`config.go:151-156` applies it in the same one.
`docs/long-lived-connections.md:191` says connections are forcibly closed after
the drain timeout, but nothing in the drain branch of `Run` closes them.
`docs/wiring-and-health.md:124-125` says Health succeeds only while Run has a
live listener, but on the branch of a failed Serve call `listening` is cleared
only in the deferred cleanup (`server.go:372-373`), after the server has been
closed and all results have come in (`server.go:440-448`). `security.go:201-205`
promises that the token of a multipart form is read, but `security.go:412-413`
asks for it after `ParseForm`, which leaves a multipart body unread.

## Model

| member | source | states |
|---|---|---|
| Writers.ChainIsTransparent | middleware.go:351-389 | A call through any stack of recorders acts on the response below as a direct call, iff it is not a status that a committed recorder keeps from a response still open |
| Writers.ChainRunHears | middleware.go:351-389 | For a whole trace the response changes as by the calls the recorders let through: all but repeated statuses and statuses after a write |
| Writers.RecordersAreInvisible | middleware.go:351-369 | What the client gets is the same with and without recorders iff the handler loses no status to them |
| Writers.RecordersAgree | middleware.go:331-389 | For every depth and trace, each layer's byte count is the body bytes accepted, the client sees at most one header, and all statuses equal the one sent iff, before the first final status, the handler did not flush and then choose another than 200, take the connection, or choose an informational one |
| Writers.EarlyFlushMisleadsRecorder | middleware.go:385-389 | Flush then 404: the client got 200, the recorder says 404 |
| Writers.HijackMisleadsRecorder | middleware.go:377-383 | Hijack then 404 and a byte: nothing was sent, the recorder says 404 |
| Writers.EarlyHintMisleadsRecorder | middleware.go:351-357 | 103 then 404: a plain server sends 404, behind a recorder the client gets 200, and the recorder says 103 |
| Transparency.OneHeaderAsDecided | security.go:641-789 | For every trace, level and response: exactly one header, before any body, with the decided status and header, labelled gzip iff compressed, and the decided content; none iff the connection is given away first |
| Labelling.HeaderSent | security.go:677-713 | For every trace, level and response: a compressed response declares no length, names gzip, and varies by Accept-Encoding after whatever it varied by; one not compressed goes out under the handler's header as it stands |
| Labelling.DecidedByFirst | security.go:641-789 | The decision in closed form: the first call that settles the response fixes header, status, bytes held and whether it is compressed, namely iff that call is a write of a compressible type that reaches MinSize |
| Labelling.CompressibleTypesAre | security.go:720-741 | Compressed are an unset type, text in any case save event streams, and six named types; nothing else, and no type that does not parse |
| Labelling.HandsOn | security.go:641-665 | Under types that are not compressible every call takes effect as it comes, after every trace, and nothing is held back |
| Labelling.StreamsUntouched | security.go:641-665 | So such a handler is served as without compression iff it loses no status that follows an informational one |
| Transparency.Transparent | security.go:641-789 | For every trace the client decodes exactly the concatenated writes in the coding the handler named iff compression is harmless: it does not begin and every byte goes through, or it begins with no coding named, no byte around the stream and none after a hijack |
| Transparency.DecidedPayload | security.go:654-713 | What is held when the response is settled, and what follows, is what the handler wrote; compressing starts at MinSize or more |
| Transparency.HarmlessWithoutHijack | security.go:654-713 | Without a hijack, harmless means: if compression begins, the handler named no coding and no byte strays |
| Transparency.RefusedLaterIsHarmless | security.go:773-789 | A hijack refused after the response was settled uncompressed loses nothing |
| Transparency.RefusedLevel | security.go:677-698 | With a level gzip refuses, for every trace up to a write that panics: once compression begins only the bytes bypassing the missing stream follow the header, so the client gets the handler's bytes iff it never begins (or these are all there is, called what the handler called them) |
| Settling.FinishZipping | security.go:654-667 | A compressed response is one complete gzip stream carrying all writes ahead of a hijack, and is undecodable exactly when bytes stray |
| Settling.FinishRaw | security.go:658-665 | Once its header is out, an uncompressed response carries exactly the strays |
| Settling.FinishHinted | security.go:700-713 | A response settled with an informational status and nothing to send gets its header, 200, with the first byte or flush or at the end |
| Transparency.HoldsBackUntilCommit | security.go:654-676 | Until it commits, nothing is on the wire and the buffer holds all bytes written, fewer than MinSize |
| Transparency.StaysCommitted | security.go:641-713 | A commit is never undone |
| Flattening.RespondIsFlat | security.go:582-622 | Recorders between the compressor and the response do not change the wire |
| Chunking.GzipBySize | security.go:654-713 | For a fixed compressible type and every trace of statuses and writes, gzip is used iff the total length reaches MinSize, and the body arrives whole |
| Chunking.ChunkedResponse | security.go:654-713 | For one status and any chunks, the whole header is fixed by the status and the total length |
| Chunking.ChunkingIsInvisible | security.go:654-713 | Two ways of cutting the same bytes give the same header and decoded body |
| Opacity.TypeChangeGarbles | security.go:658-662 | A type change after gzip began makes the body undecodable |
| Opacity.OwnCodingIsOverwritten | security.go:681-683 | A coding the handler named is replaced by gzip, so the body arrives unlabelled |
| Opacity.RefusedLevelLosesBody | security.go:677-698 | With a level gzip refuses, one write is lost whole |
| Opacity.RefusedHijack | security.go:773-789 | After a hijack that settles the response and is refused, exactly the bytes under a type that is not compressible, and all after them, are sent; the client gets the response iff these are all |
| Opacity.FailedHijackLosesBody | security.go:773-789 | A refused hijack, then 500 and a body: the client gets an empty 200 |
| Recovery.StatusBehindRecorder | middleware.go:351-357 | Behind a recorder the compressor settles on the handler's first status, 200 for an informational one |
| Recovery.SameAsUncompressed | security.go:582-752 | Behind any recorder the status is that of a server without compression iff the handler did not choose one other than 200 after an informational one, and the body is iff no byte strays |
| Recovery.PageCompressed | security.go:641-752 | A silent handler and then an error page through the compressor: the page and nothing else, compressed iff compressible and long enough, under the 200 of a flush if there was one |
| Recovery.PanicBeforeWriting | middleware.go:195-227 | Recover inside: a silent handler that panics gives the 500 page and nothing else, under 200 if it had flushed; a coding left in the header spoils it iff the page is itself compressed |
| Recovery.PanicAfterWriting | middleware.go:195-227 | Recover inside: after a write the client gets the prefix written under the recorded status, and no page |
| Recovery.PanicUnderCompression | security.go:616-619 | Recover outside, compression engaged: the deferred Close commits first, so the client gets the pending status and the buffered bytes, never the page |
| Recovery.PanicUncompressed | security.go:592-608 | Recover outside, compression not engaged: what the handler sent, or the page if that was nothing, unless it flushed or took the connection |
| Recovery.Recover | middleware.go:195-227 | The middleware on the response, with its recorder: a panic with nothing answered, flushed or taken gives one 500 page, and a handler that returns, or had answered, is left alone |
| Recovery.PageOutsideIff | security.go:592-619 | Recover outside sends its page, for a handler that answered nothing, iff the request does not engage compression and the handler neither flushed nor took the connection |
| Recovery.OrderMatters | middleware.go:190-230 | The two orders differ visibly |
| WriterObjects.StatusRecorder.WriteHeader | middleware.go:351-357 | Follows the chain's step at every depth |
| WriterObjects.StatusRecorder.Write | middleware.go:359-369 | Follows the chain's step at every depth, and reports all bytes written |
| WriterObjects.StatusRecorder.Flush | middleware.go:385-389 | Follows the chain's step: delegated, nothing recorded |
| WriterObjects.StatusRecorder.Hijack | middleware.go:377-382 | Delegated at every depth: the response below gives up the connection if it can, and no recorder field changes |
| WriterObjects.GzipResponseWriter.WriteHeader | security.go:641-652 | Takes the object through the writer's step |
| WriterObjects.GzipResponseWriter.Write | security.go:654-675 | Takes the object through the writer's step, and panics exactly when the gzip.Writer is missing |
| WriterObjects.GzipResponseWriter.StartGzipLocked | security.go:677-698 | Header, commit and buffered bytes as the specification starts gzip, whose header HeaderSent states |
| WriterObjects.GzipResponseWriter.CommitUncompressedLocked | security.go:700-713 | Commits once, with the buffered bytes |
| WriterObjects.GzipResponseWriter.Flush | security.go:754-768 | Takes the object through the writer's step |
| WriterObjects.GzipResponseWriter.Hijack | security.go:773-789 | Ends the stream or commits, and only then takes the connection; refused without effect when the response has no Hijack method |
| WriterObjects.GzipResponseWriter.Close | security.go:743-752 | Ends the stream once, or commits what is pending |
| WriterObjects.Compress | security.go:582-622 | A whole request: only one that accepts gzip, names no coding ahead and is no websocket upgrade is touched; the decided response is delivered, without a length when compressed; the client receives the handler's bytes iff compression is harmless; and writes of a fixed compressible type are compressed from the configured size on, 1024 by default |
| Middlewares.Chain | middleware.go:24-31 | The backward loop nests the first middleware outermost |
| Middlewares.ChainsCompose | middleware.go:23-31 | Grouping a chain into chains never changes the handler |
| LifecycleSafety.NextKeeps | server.go:340-467 | Every action of every participant keeps the inductive invariant |
| LifecycleSafety.AlwaysInv | server.go:340-467 | The invariant holds along every interleaving |
| RunCauses.GuardDecides | server.go:345-371 | Run begins iff the server is initialized, no other Run is active and there is a handler, and then owns the cancel function and a cleared flag; else it returns the first of these that is missing, and nothing else changes |
| RunCauses.ResultStands | server.go:340-467 | What a Run has returned stands in every continuation |
| LifecycleSafety.OneActiveRun | server.go:349-370 | At most one Run body is active, and the stored cancel function is its |
| LifecycleSafety.ServerConsistent | server.go:367-380 | Running iff a cancel function is stored iff a Run is active; listening implies running and an address |
| LifecycleSafety.HealthIff | server.go:571-589 | Health succeeds iff initialized, given a handler, and some Run is between publishing its listeners and clearing the flag |
| LifecycleSafety.HealthMeansServing | server.go:419-448 | A healthy server's Run has opened every bind and is not draining; it has closed its server iff it is on the branch of a failed Serve call; and all its listeners accept iff no Serve call has returned and the server is not closed |
| LifecycleTraces.HealthyWithoutListener | server.go:440-443 | A reachable state in which Health succeeds and the only listener is closed |
| LifecycleSafety.DrainIsUnhealthy | server.go:449-452 | Once a drain begins Shutdown, Health fails until some Run publishes listeners of its own |
| LifecycleResults.AskedMeansAccepted | config.go:155-170 | A Run counts as asked to restart iff an accepted, changing reload met the immediate policy during it |
| LifecycleResults.RestartIff | server.go:449-465 | Run returns the restart error iff it drained, Shutdown succeeded and the flag was set |
| LifecycleResults.NoSpuriousRestart | server.go:462-464 | A restart error implies such a reload during that same Run |
| LifecycleResults.NoLostRestart | config.go:155-174 | A drain that a reload's cancel started sees the flag and returns it when Shutdown succeeds |
| LifecycleResults.FlagIsCurrent | server.go:367-371 | While a Run is active the flag is about that Run alone |
| LifecycleResults.CapturedCancelIsItsOwn | config.go:164-171 | A cancel function captured from one Run never touches another, however late it is called |
| LifecycleResults.WhyCancelled | server.go:367-380 | A Run's context ends only with its caller's, by a reload that asked this Run, or in its own cleanup |
| LifecycleResults.WhyUnserved | server.go:345-408 | A Run that returns without having served says why: nil only from its wait for health, with nothing opened, cancelled by its caller or by a reload that asked it; the context's error only if cancelled; never the restart error |
| RunVerdicts.EndedContextIsReturned | server.go:382-408 | A context that has ended when Run looks, before anything or between listen and serve: in every continuation the Run never shows a listener or serves, and what it returns is that context's error, with every listener closed |
| RunVerdicts.NeverPublishedOnceEnded | server.go:382-408 | A context that ends at any time before the listeners are published: they never are, in any continuation, and every listener is closed; what the Run can return |
| RunVerdicts.AnswersAreFinal | server.go:390-402 | In every continuation: a failed wait, a cancelled wait and a refused address make Run return the failure, nil and the failure, without serving and with every listener closed |
| RunVerdicts.WaitComesFirst | server.go:390-398 | A Run that waits for health opens no listener, in any interleaving, unless its providers were found healthy |
| RunCauses.WhyDrained | server.go:372-380 | A Run drains only if its caller ended its context or a reload that asked it cancelled it; and once past its guard it never returns without cancelling its own context |
| RunCauses.ShutdownDecides | server.go:449-466 | In every continuation of a drain: the error of Shutdown is returned; without one the restart error, if the flag was set, or else the last failure of a Serve call |
| LifecycleResults.AskedWithoutDrain | server.go:390-448 | What a Run asked to restart returns when it never drained: nil from its wait, its context's error, a failed wait or listen, or the failure of a Serve call |
| LifecycleTraces.RestartLostWhileWaiting | server.go:390-396 | A reachable state in which a Run asked to restart has returned nil |
| LifecycleResults.NothingLeaks | server.go:398-448 | On every exit each opened listener was closed, or handed to one Serve whose result was received |
| LifecycleResults.ServeErrorReported | server.go:439-466 | The error branch returns the first real error or else the last; the drain returns the last |
| LifecycleResults.LastErrorIs | server.go:430-437 | What the receive loop keeps is the last real failure, none if all closed cleanly |
| LifecycleResults.DrainServe | server.go:430-438 | The loop computes that value over the results still to come |
| LifecycleResults.AfterServeReturned | server.go:441-448 | First normalised error, else the last non-nil one |
| RunCauses.ResultsInOrder | server.go:424-433 | Over any interleaving, the results received and still in the channel are exactly those the Serve calls returned, in that order |
| RunCauses.ServeFailureReturned | server.go:430-466 | Over whole histories: the failure of the Serve call that returned first, else the last failure of all, nil if all closed cleanly |
| RunCauses.OnlyWaitsForServe | server.go:340-467 | An active Run can go on, given an answer of its environment, unless it serves with its context alive and no result to receive, or collects results that have not come |
| LifecycleResults.NoSenderBlocks | server.go:424-429 | A serving goroutine can always send its result |
| LifecycleResults.DrainProgress | server.go:430-438 | A draining Run is never stuck: some step of its own, or the return of a Serve call, is possible and lowers a measure |
| LifecycleResults.EveryDrainStep | server.go:430-438 | Every step of a draining Run and every return of its Serve calls lowers the measure until the loop is left, and no other action raises it |
| LifecycleResults.RemainingIsBounded | server.go:430-438 | The measure is never negative |
| ReloadRefinement.AskIsCancel | config.go:155-170 | A reload asks a Run to restart iff OnConfigReload calls its cancel function: settings differ, under the immediate policy |
| ReloadRefinement.MovesAgree | config.go:128-189 | In every joint history the fields and the lifecycle agree, and a Run was asked iff a reload changed settings during it |
| ReloadRefinement.RestartMeansSettingsChanged | server.go:462-464 | A restart error implies a reload during that Run for which serverSettingsChanged was true |
| Reload.BindsEqual | bind.go:136-146 | Equal iff the same addresses in the same order |
| Reload.AppliedFieldByField | config.go:96-124 | Each field: taken if supplied, else standing; the whole changes iff some supplied field differs, and applying again changes nothing |
| Reload.Server.ApplyConfig | config.go:96-124 | Each supplied field replaces the setting, every other stands |
| Reload.Server.ServerSettingsChanged | config.go:191-214 | True iff applying the configuration would alter a setting |
| Reload.Server.OnConfigReload | config.go:128-189 | An accepted reload changes only metrics, policy, the restart flags and the counter, and cancels the active Run iff settings differ under the policy then in force; any other changes nothing |
| Reload.Server.Init | server.go:272-307 | Initialized iff it returns nil, which with a live context and its source found is iff the settings, the wait and the policy are valid; a failed validation leaves the configuration applied, other failures change nothing |
| Reload.Server.Health | server.go:571-589 | Nil iff initialized, given a handler and listening; otherwise the first thing missing |
| Reload.Server.Addr | server.go:327-337 | The bound address, or the first configured one |
| Reload.Server.Shutdown | server.go:592-599 | Only initialized changes |
| Reload.Server.SetHandler | server.go:312-316 | Only the handler changes |
| Reload.SettingsStand | config.go:128-189 | Between Init and Shutdown no listener setting moves |
| Reload.RestartIsSticky | config.go:155-183 | A restart is required iff it already was or some accepted reload asked for other settings |
| Reload.MetricsAreLive | config.go:145-147 | Metrics enablement is what was last supplied |
| Reload.PolicyIsLive | config.go:149-153 | The policy is what was last supplied |
| Reload.ReloadsCounted | config.go:172-188 | Every accepted reload is counted, modulo 2^64 |
| Reload.InitializedIsValid | server.go:647-668 | In every history, an initialized server has addresses, no negative timeout, and a positive header limit and shutdown timeout |
| Reload.RestartSettles | config.go:96-124 | A process restarted with the configuration that required it needs no further restart |
| Streams.ReadIsFaithful | middleware.go:286-297 | Every Read of every reader delivers the next bytes of its stream, reports only the stream's own end, and makes progress |
| Streams.ReadReports | graphql/metrics.go:356-361 | The end is reported with the last byte exactly by a prompt reader, however the readers are stacked |
| Streams.AnyScheduleReadsStream | graphql/metrics.go:352-367 | Any schedule of reads yields a prefix of the stream, all of it by the time of the error |
| Streams.CountsDelivered | middleware.go:338-349 | The body count is the number of bytes delivered |
| Streams.FlagMeansOverrun | middleware.go:291-297 | The flag is set iff the reader met the overrun error |
| Streams.LimitedReads | middleware.go:258-275 | At most n bytes are seen; a body that fits is whole and never flagged; an overlong one is flagged iff read to its error, after exactly n bytes |
| Bodies.Request.PeekRequestBody | graphql/metrics.go:352-367 | Without an error the body reads as before and at most the window was taken; with one, what was read is lost |
| Bodies.Request.ReadFullRequestBody | graphql/metrics.go:276-288 | The body is restored whole, or emptied on error |
| Bodies.Request.PassThrough | graphql/metrics.go:148-186 | Any stack of peeking and reading layers restores the stream |
| Bodies.HandleBehind | graphql/metrics.go:430-444 | Behind any layers a handler reading in any pieces gets the original bytes |
| Bodies.PeekFailing | graphql/metrics.go:352-361 | When the source fails, the peek preserves the body iff nothing was there, or the failure lay beyond the window, or at its edge and was not reported with the last byte |
| Bodies.AnsweredIsLeftAlone | middleware.go:267-272 | A handler that answered is never followed by a 413: the client gets what its recorder lets through, which is the handler's response iff no status is lost |
| Bodies.SilentHandler | middleware.go:258-275 | What a handler that answers nothing leaves on the wire: one 413 iff it read an overlong body to its error, the page under 200 if it had flushed, nothing more if it took the connection |
| Bodies.FlushHidesTheRefusal | middleware.go:267-272 | The client sees the 413 iff the body was overlong and read to its error, and the handler neither flushed nor took the connection |
| Bodies.CompressionHidesTheRefusal | middleware.go:267-272 | Around Compression, where it engages and no excess was announced, there is no 413: the client gets what the handler wrote, under 200 if it answered nothing |
| Bodies.RefusalIff | middleware.go:258-272 | MaxBodyBytes around Compression sends its 413, for a silent handler, iff the excess was announced, or compression is not engaged and the refusal would be seen without it |
| Bodies.RefusalCompressed | middleware.go:258-272 | Compression around MaxBodyBytes: the refusal always arrives, once, compressed iff the page is compressible and long enough |
| Bodies.HandlerSeesPrefix | middleware.go:258-275 | The handler sees a prefix of at most n bytes and does not run when the announced length is larger |
| Bodies.MaxBodyBytes | middleware.go:249-276 | The middleware, with its recorder and reader, follows the specification; with a limit that is not positive the handler runs on body and response as they are |
| Meters.RequestMeter.RecordMeter | server.go:727-749 | The nested maps follow the record step, which RecordCounts states |
| Meters.RecordCounts | server.go:727-749 | One call adds one to its key and to its class, the hundreds digit of the status and "xx", and its duration, if positive, to the sum; everything else stands |
| Meters.ClassIsHundreds | metrics.go:82-87 | The class of 100 to 599 is the hundreds digit and "xx", of any other status "unknown" |
| Meters.ReplayAccounts | server.go:727-749 | After any history the maps say exactly how often and how long each key and class was recorded, modulo 2^64 |
| Meters.ClassesDivide | server.go:738-746 | The classes of a key divide its calls |
| Meters.KeysDivide | server.go:738-746 | The keys divide all calls |
| Meters.MeterConserves | server.go:727-749 | The three maps have the same keys, class counts sum to the count, and counts sum to the number of calls |
| Recording.RecordHTTP | metrics.go:54-80 | Records the normalised route and instrumentation under their joined key |
| Recording.RecordGraphQLOp | server.go:701-709 | Records the normalised operation and instrumentation |
| Recording.RecordGraphQLResolverMetric | server.go:715-723 | Records the normalised operation and resolver as app |
| Rendering.SortedKeys | metrics.go:165-169 | Whatever order the map yields, the sorted listing is the same |
| Rendering.SortedIsUnique | metrics.go:165-178 | A set has one strictly sorted listing |
| Rendering.LessIsLexicographic | metrics.go:169-178 | The order is that of the dictionary |
| Rendering.RenderMeter | metrics.go:163-213 | The output is a function of the meter, independent of map order |
| Rendering.LabelsRecoverSeries | metrics.go:170-175 | Labels equal what was recorded iff the names are separator-free |
| Rendering.ShortKeys | metrics.go:170-175 | A key with no separator is rendered as a name, with "app" and "unknown" for the rest |
| Rendering.LegacyResolverKey | metrics.go:262-266 | A resolver key of two parts is rendered with "app" |
| Rendering.SeparatorsCollide | server.go:722 | Two recordings with a separator inside a name share one series |
| Rendering.KeysAreInjective | server.go:701-723 | Separator-free series of a kind never share a key |
| Rendering.RenderedOnce | metrics.go:170-213 | No two samples have the same name and labels |
| Rendering.RecordedIsRendered | metrics.go:234-321 | Each recorded series and class has one total, beside its count and summed duration, with the recorded names and numbers |
| Rendering.EntryIsRendered | metrics.go:54-80 | Every recording shows up under the labels of its own arguments: the names, "unknown" and "app" for empty ones, and the hundreds of its status, with the number of recordings that share them |
| Rendering.RenderedWasRecorded | metrics.go:234-321 | Every rendered sample is about a series, and a total about a class, that was recorded, with its names and numbers |
| Rendering.RenderedTotalsConserve | metrics.go:179-192 | The rendered totals sum to the number of record calls |
| GraphQL.ExtractOperationName | graphql/metrics.go:237-272 | The body is restored, at most the window is inspected, and requests that are not GraphQL are not touched |
| GraphQL.ServeHTTP | graphql/metrics.go:71-186 | Without tracking, or for what is no GraphQL POST with a body, the body is not touched; else at most the configured window, 8192 by default, has left the source when the handler runs, and is put back, and all of it only if 0 was configured; and a returning request is counted under one key or none |
| GraphQL.BoundedCardinality | graphql/metrics.go:163-178 | Without AllOperations the keys lie in the allowlist plus "other" |
| GraphQL.EveryReturnCounted | graphql/metrics.go:163-186 | With the other bucket on, every returning request is recorded exactly once |
| GraphQL.EachNameCounted | graphql/metrics.go:163-186 | Each name is counted as often as requests returned that asked for it, if it is listed or all are; "anonymous" for none, "other" for those not listed |
| GraphQL.OtherBucketConserves | graphql/metrics.go:163-186 | and the counts over all keys sum to the returning requests |
| GraphQL.AllOperationsIsUnbounded | graphql/metrics.go:103-107 | AllOperations gives every client-chosen name a key of its own |
| Addresses.SplitParts | bind.go:85 | What a successful split yields, and that the parts make up the input |
| Addresses.SplitReads | bind.go:85 | A split succeeds on exactly the strings that spell a pair, plain or bracketed, and yields that pair |
| Addresses.SplitRefuses | bind.go:85 | Which error a failing split gives: no colon, too many, or no closing bracket |
| Addresses.SplitJoin | bind.go:92 | Splitting undoes joining |
| Strings.TrimSpaceCuts | bind.go:80 | Trimming takes all white space off both ends, and nothing else |
| Strings.LowerIsFold | security.go:466-476 | Comparing in lower case is comparing without regard to case |
| Binds.ParseBindList | bind.go:74-100 | The loop computes the specified list or the first error |
| Binds.CanonAccepts | bind.go:80-92 | An entry is accepted iff, blanks aside, it spells a host, which may be empty, and a port, which may not; brackets stay iff the host has a colon |
| Binds.ParseRejects | bind.go:74-97 | A rejected list gets the error of its first entry that has no canonical form or repeats one, which is named |
| Binds.ParseAccepts | bind.go:74-100 | Accepted iff not empty, every entry canonicalises, and no two alike; the result is those forms in order, pairwise distinct |
| Binds.CanonIsCanonical | bind.go:80-92 | A canonical entry is a fixpoint of split-then-join, and of canonicalisation iff no leading space was hidden in brackets |
| Binds.ParseIsIdempotent | bind.go:74-100 | Parsing a parsed list changes nothing iff no entry hid a leading space |
| Binds.JsonRoundTrip | bind.go:18-47 | Unmarshal undoes Marshal under the same condition, in the single-string form too |
| Binds.JsonAccepts | bind.go:18-35 | Null is no list, a string is a list of one, an array is its list and not empty, nothing else is accepted |
| Binds.HiddenSpaceIsLost | bind.go:81-92 | Every entry of the failing family, and that it fails |
| Binds.HiddenSpaceExample | bind.go:81-92 | One such entry |
| Binds.ListenAll | bind.go:102-115 | All or nothing: one new listener on each address, iff each can be bound and conflicts neither with an open socket nor with an earlier address; else the sockets are as before and the first failing address is named |
| Binds.PickBoundAddr | bind.go:117-134 | The first loopback address, else the first non-empty one |
| ClientIP.ClientFromForwarded | clientip.go:86-106 | Both loops together compute the walk over all hops |
| ClientIP.WalkFindsRightmost | clientip.go:100-105 | The rightmost untrusted hop, else the leftmost |
| ClientIP.PrefixIsIrrelevant | clientip.go:100-105 | Anything prepended is irrelevant once an untrusted hop exists |
| ClientIP.FieldLinesDoNotMatter | clientip.go:87-96 | Splitting or comma-joining field lines (section 5.3 of RFC 9110) never changes the hops |
| ClientIP.HeadersOfStrangersAreIgnored | clientip.go:28-42 | An untrusted peer is its own client whatever it sends; a valid Envoy header overrides the forwarded chain |
| ClientIP.ClientIsResolved | clientip.go:28-42 | For every request: the peer unless it is a trusted proxy, then the first Envoy value if it parses, else the rightmost forwarded hop that is no trusted proxy, the leftmost if all are, and the peer if there is none |
| ClientIP.ForgedLinesAreIgnored | clientip.go:28-42 | Field lines put in front do not change the client once a hop behind them is not a trusted proxy |
| ClientIP.CuttingKeepsClient | clientip.go:86-96 | Nor does cutting or joining field lines (section 5.3 of RFC 9110) |
| ClientIP.OneHop | clientip.go:87-96 | A field line without a comma names its address if that parses, and nobody otherwise |
| ClientIP.HostIsRead | clientip.go:108-117 | What is read off "host:port" and "[host]:port", blanks around it or not |
| ClientIP.ForwardedParses | clientip.go:48-57 | What is copied onward is a parseable address and the resolved client |
| ClientIP.Outgoing.SetForwardedClientIP | clientip.go:63-73 | Replaces both headers by the one address, or changes neither when it does not parse |
| Relays.Hop | clientip.go:48-73 | One trusted service on, the client is the same, and can be named again unless the hop came from the client itself |
| Relays.RelayKeepsClient | clientip.go:28-73 | Any number of trusted services keep the client, whatever headers their requests carried, while none that relays it is itself the client |
| Relays.RelayKeepsClientIff | clientip.go:48-57 | For requests without such headers of their own, the client survives iff no relaying service is that client, or the last one is |
| Relays.ClientRelaysItself | clientip.go:48-57 | After a service that is itself the client, the next service is taken for it |
| Relays.LostClientExample | clientip.go:48-57 | One such request and two such services |
| Csrf.OriginHostAllowed | security.go:466-476 | Allowed iff the host is in the allowlist, but for case, or, when that is empty, the request's own host |
| Csrf.ValidateOrigin | security.go:448-508 | Passes iff the Origin, or in its absence the Referer, is a URL of an allowed host, over https under secure cookies |
| Csrf.Exchange.EnsureToken | security.go:373-390 | Keeps a non-empty cookie, else mints and sets exactly one |
| Csrf.Exchange.Serve | security.go:327-369 | The handler's branches, in order, with the cookie and header it sets and the cookie it adds to the inner request |
| Csrf.InnerCookieIsToken | security.go:322-342 | In every reached handler the request's cookie is the context token iff the browser did not send an empty cookie |
| Csrf.SubmittedCSRFToken | security.go:392-414 | The token in the header, or in a form that is read; nothing from a multipart form or a method without one |
| Csrf.UnsafeReaches | security.go:344-369 | An unsafe request reaches the handler iff its origin is allowed and, in token modes, it submits its own cookie's non-empty token |
| Csrf.RejectionTells | security.go:344-369 | Each rejection, in every mode, exactly when: the page, by Origin or in its absence by Referer, is not of an allowed host, but for case, or not https under secure cookies; no token, or another than the cookie; no token could be made |
| Csrf.WhatIsHandedOut | security.go:327-342 | A cookie is set iff a request that is not checked brings no token; the token is shown in a header iff configured, to GET and HEAD |
| Csrf.OriginOutranksReferer | security.go:448-463 | A request with an Origin is judged the same whatever its Referer |
| Csrf.SessionIsStable | security.go:322-390 | Over any sequence of requests at most one token is minted and it stays in the jar |
| Csrf.ContextTokenIsCookie | security.go:278-290 | In every reached handler the context token is the cookie the browser holds |
| Csrf.EchoIsAccepted | security.go:344-414 | A request carrying any token handed out earlier is accepted iff its origin is allowed and the token is where the server reads it |
| Csrf.MultipartEchoIsRejected | security.go:412-413 | The right token in a multipart form, or in a form sent with another method, is rejected |
| Csrf.AllowlistIgnoresHost | security.go:466-476 | With an allowlist the Host header is irrelevant |

## Left out

- Sockets, TLS, timers and the internals of net/http: Serve returns once the server closes or fails, Shutdown returns nil or an error. Content sniffing, HEAD, body-less statuses, enforcement of a declared Content-Length (beyond that a compressed response may declare none), the header sent with an informational status, and the panic on a status outside 100-999 are not modelled.
- DEFLATE: compressed bytes are symbolic, so a recorder's byte count covers plain bytes only, and when the gzip writer emits what it holds is not observable.
- Failing writes to the client, and two stacked Compression middlewares.
- What a panic of the gzip writer becomes further out: a write without a gzip.Writer ends the handler here, and the deferred calls follow.
- Run and the serving goroutines are a transition system on values, not a class with a mutex: aliasing and the Go memory model are outside it.
- Waiting for health providers: only its outcomes (ready, failed, cancelled) appear.
- Floating point: the conversion of seconds to a duration is a parameter, and metric values are integers.
- validateServerConfig and validateSeconds, which run in the configuration component before a reload; the conversion's behaviour on values they would refuse is not claimed.
- JSON syntax, the YAML form of binds, and the search for an operation name in a truncated window: a name found there is not claimed to equal a full parse.
- IP parsing and the trusted ranges are abstract; the relay results assume that what parses looks like an address literal.
- Strings are sequences of characters, and case folding is ASCII; Go compares bytes and folds Unicode.
- Random tokens, hex encoding and constant-time comparison: a token is whatever the generator yields; concurrent requests of one browser, and a live TrustedHostsSource that changes between requests, are not modelled.
- The GraphQL package's own statusRecorder, whose later WriteHeader overwrites the status; its status is a parameter of ServeHTTP.
- Bodies.Page: the fields an ErrorWriter sets are one header value, including Connection.
- Connection gauges, in-flight counts and the remaining server metrics, RequestID, RequestLog attributes, CORS, SecurityHeaders, error types, `problem/` and `examples/`: single-branch decisions that would add only easy members.
- Error texts: errors are constructors.
