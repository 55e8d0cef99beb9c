# Verification of xtemplate's core logic

xtemplate serves a directory of Go templates and static files. This project models the parts of
it whose behaviour is decided by its own code rather than by a library, and proves what they
guarantee over every input, every run and every interleaving. `dafny verify dfyconfig.toml`
checks all of it.

| files | what they model |
|---|---|
| `Wrappers`, `Text`, `Paths`, `Errors` | optional values, the string and path functions of Go that are used, error trees |
| `Negotiation`, `NegotiationLaws`, `NegotiationOrder` | choosing a content encoding from `Accept-Encoding` |
| `TemplateRoutes`, `StaticIndex`, `BuildRules`, `BuildLaws`, `InstanceBuild`, `DirectoryWalk`, `AssetServing` | walking the template directory, which directories can be built, the index of static files, serving from it |
| `LiveReload`, `LiveReloadLaws` | `Server.Reload` and `Server.Stop` against concurrent requests |
| `Transactions`, `RequestHandling`, `RequestLaws` | a buffered request: template run, database transactions, cleanup chain, response |
| `DotPool` | the pool of dot records shared by concurrent requests |
| `EventStream`, `EventStreamLaws` | `SendSSE` against a reader of the event stream format |
| `FrontMatter`, `FrontMatterLaws` | splitting a document into front matter and body |

Code that updates variables, fields or an output stream step by step is modelled by methods and
classes, each proved against a specification function; the laws are lemmas about those functions.
The two concurrent protocols are state machines: a run is a sequence of states in which each
follows from the one before by one atomic step of some goroutine. What a library decides
(decompression, hashing, sniffing, number parsing, database drivers, the router's conflict rule,
template parsing) is a parameter, so each statement holds for every behaviour of the library.

Conventions. Weights are integer thousandths, as in the qvalue grammar of section 12.4.2 of
RFC 9110, so 0.1 is 100. In float64 a difference of exactly 0.1 can round to either side; the
weights of `OrderMatters`, `DriftUnbounded` and `DriftLegal` never differ by exactly 0.1 where they
are compared. The results that a bound is reached (`TwoEncodingsBoundTight`,
`NoRepeatsBoundTight`, `NoRepeatsBoundTightNegative`) do sit on it: in float64 the differences of
the last two families stay within 0.1 for up to four encodings, the most that an index record can
hold, and no longer from five on. Strings are sequences of Unicode characters; Go's byte offsets become
character offsets.

Some expectations do not hold of the code as written. Each of these has a counterexample, and a
statement of when the expectation is met:

* The "within 0.1" preference is not transitive, so the order of `Accept-Encoding` can change the
  answer (`OrderMatters`) and a repeated header can lose all of the client's weight
  (`DriftUnbounded`, `DriftLegal`). Without repeated tokens the order is immaterial if and only if
  no weight below the top, yet within 0.1 of the best entry, stands on an encoding before it
  (`OrderImmaterialIff`); with repeats that is still enough (`OrderIndependent`). The loss is
  bounded for two encodings or without repeats.
* The comment on `Server` says requests outstanding on the old instance can complete. A request
  that has loaded the pointer but not yet passed the check in `ServeHTTP` can be refused with
  "server stopped" by a plain Reload (`RefusedWithoutStop`). `RefusedIff` says exactly when a
  request is refused, `CurrentIsServed` exactly when one on the current instance is, and
  `AnswerStands` that one past the check is served to its end.
* The comment on `DotDB` says transactions are rolled back if there were errors. A failing commit
  is an error, and the databases committed before it stay committed (`CommitsNotAtomic`);
  `CommitsUpToFirstFailure` gives the exact split, `FailedCommitAtomicIff` when it does not show.
* `SendSSE` with a carriage return in what it writes is read as other lines, data as another field
  (`CrInDataSetsId`); `StreamLines` is an equivalence.
* YAML front matter closed with `...` is not found when the body has a line starting with `---`
  (`DotsLoseToDashes`); `PrintRoundTrip` is an equivalence.
* Two static files `name` and `name.txt`, or `app.js` and `app.js.map`, abort the build: the second is taken for a variant of the
  first and the first's pattern is registered twice (`NameAndExtensionAbort`). `Buildable` is an
  exact condition on the files, their names and the router, and `Walk` succeeds if and only if it
  holds.

## Model

| member | source | states |
|---|---|---|
| Negotiation.Negotiate | handlers.go:147-224 | The selection loops and both shortcuts compute the fold of the preference rule over the supported entries of all header lines, from identity at weight zero; an empty list of encodings is an error without a choice, a missing identity an error with one |
| Negotiation.ConsiderLine | handlers.go:175-222 | The loop over one header line is the fold over that line's entries |
| Negotiation.ConsiderElement | handlers.go:181-220 | One element replaces the selection on a strong preference, or a weak one for an earlier encoding, and otherwise leaves it |
| Negotiation.WeightOf | handlers.go:201-212 | The parameter loop computes the weight of the element |
| NegotiationLaws.WeightIsFirstGiven | handlers.go:201-212 | The weight is that of the first parameter that parses as one, and 1 when none does |
| Negotiation.FindEncoding | handlers.go:190-196 | The first encoding with the requested name, or -1 when there is none |
| NegotiationLaws.LineConcat | handlers.go:175-187 | A comma separates a line into two, however the pieces are padded |
| NegotiationLaws.JoinedLinesSameWinner | handlers.go:175-187 | Negotiation over several header lines equals negotiation over their comma-joined line |
| NegotiationLaws.SameElementsSameWinner | handlers.go:175-187 | Empty elements, surrounding white space and the spread over lines do not change the selection |
| NegotiationLaws.HeaderRoundTrip | handlers.go:180-212 | Every list of entries is what some header line is read as |
| NegotiationLaws.AcceptedNames | handlers.go:175-199 | An available encoding has an entry exactly when some element of the header, split and trimmed, names it |
| NegotiationLaws.OneListed | handlers.go:158-220 | A client that lists one available encoding gets it exactly when its weight is above 0.1, or is within 0.1 of zero and it comes before the default, which is the original or, for want of one, the last |
| NegotiationOrder.ClusterWinner | handlers.go:161-223 | When "within 0.1" is transitive over the weights present, the winner is the lowest-index encoding of the highest cluster |
| NegotiationOrder.OrderIndependent | handlers.go:161-223 | For any header, repeated tokens included: where no entry below the top but within 0.1 of the best one has a lower index, nor, unless the default is best, the same, every permutation of the list selects the encoding of the best entry |
| NegotiationOrder.OrderImmaterialIff | handlers.go:161-223 | For headers without repeated tokens that condition is exact: all permutations select the same encoding if and only if it holds |
| NegotiationOrder.UndisturbedBest | handlers.go:214-220 | The same on entries: every order of an undisturbed list ends in a top entry of the lowest index |
| NegotiationOrder.Disturbed | handlers.go:214-220 | A disturbed list without repeats has two orders that end in different encodings |
| NegotiationOrder.OrderMatters | handlers.go:214-220 | For any three encodings, two orders of one list of weights select different ones |
| NegotiationLaws.FoldPotential | handlers.go:214-220 | With two encodings, weight minus 0.1 times index never decreases |
| NegotiationLaws.TwoEncodingsBound | handlers.go:175-223 | With two encodings and any header, no listed weight is more than 0.2 above the chosen one |
| NegotiationLaws.TwoEncodingsBoundTight | handlers.go:175-223 | 0.2 is reached |
| NegotiationLaws.NoRepeatsBound | handlers.go:175-223 | With n encodings and no repeated token, no listed weight is more than 0.1 times n above the chosen one, nor more than 0.1 times n - 1 when no weight is negative and n is at least 2 |
| NegotiationLaws.NoRepeatsBoundTight | handlers.go:175-223 | In exact thousandths the second bound is reached for every n, by positive weights |
| NegotiationLaws.NoRepeatsBoundTightNegative | handlers.go:175-223 | In exact thousandths the first bound is reached for every n with the default last |
| NegotiationLaws.DriftUnbounded | handlers.go:175-223 | With three or more encodings and repeats, no bound whatever holds for all headers |
| NegotiationLaws.DriftLegal | handlers.go:175-223 | Even with all weights between 0 and 1 an encoding of weight 0 can be chosen over one of weight 1 |
| NegotiationOrder.CloseWeights | handlers.go:214-220 | Weights above 0.1 and within 0.1 of each other select the lowest index listed |
| TemplateRoutes.NamedRoute | build.go:171-233 | A template name is a route exactly when it is a method, a space and one line; SSE is served to GET |
| TemplateRoutes.EventStreamRoute | build.go:225-233 | A template named SSE and a path is served to GET requests for that path |
| TemplateRoutes.MethodRoute | build.go:171-233 | A template named GET, POST, PUT, PATCH or DELETE and a path is served to that method at that path |
| TemplateRoutes.NotARoute | build.go:171-233 | A name that is none of the six methods, a space and one line is no route |
| TemplateRoutes.HiddenNotRouted | build.go:206-211 | A file is not routed exactly when its name starts with a dot |
| TemplateRoutes.FileRouteNames | build.go:206-224 | A visible template file is served at its path without extension, "index" at its directory |
| TemplateRoutes.RouteCollisions | build.go:206-224 | Two different visible files share a route exactly in three shapes |
| Paths.CleanPathOf | build.go:184-184 | Cleaning leaves the path of a visited file alone |
| Paths.CleanTakesOut | handlers.go:87-87 | Between any names, cleaning takes out double slashes, dots, and a name with the two dots after it |
| Paths.CleanAtRoot | handlers.go:87-87 | Two dots at the root are taken out |
| StaticIndex.SortBySize | build.go:154-154 | The variants come out sorted by size and are the same ones |
| StaticIndex.VariantOk | build.go:149-154 | Appending a checked variant and sorting keeps a file's record well formed: one original, distinct names, sorted, all decoding to the recorded hash |
| StaticIndex.OwnedAdded | build.go:119-157 | Every visited file stays a variant of exactly one key |
| StaticIndex.IdentityAdded | build.go:121-146 | Adding an original keeps the whole index invariant, given that a name is visited before its extensions |
| StaticIndex.VariantAdded | build.go:149-157 | Adding a variant keeps the whole index invariant |
| InstanceBuild.Builder.Register | build.go:140-146 | A pattern is registered, listed and counted exactly when it is new and the router takes it |
| InstanceBuild.Builder.AddIdentity | build.go:121-146 | A file that is its own original gets a key, a pattern and a count, and the invariant is kept |
| InstanceBuild.Builder.AddVariant | build.go:149-157 | A variant is accepted exactly when it decodes to the recorded hash, and the invariant is kept |
| InstanceBuild.Builder.AddStaticFile | build.go:65-159 | A static file is accepted exactly when it can be read and is a matching compressed variant of an indexed file, or has no indexed stem and a free pattern; a stem with any other extension aborts; the invariant is kept and the file gets its one owner |
| InstanceBuild.Builder.AddTemplateFile | build.go:173-246 | A template file is accepted exactly when it parses, all its templates can be added and the router takes their patterns one after the other; it then adds exactly those patterns, counts the templates, and keeps the invariant |
| InstanceBuild.Builder.VisitFile | instance.go:105-117 | One step of the walk succeeds exactly when the file can be added to the instance as it stands |
| InstanceBuild.Builder.Walk | instance.go:105-117 | The walk succeeds if and only if the directory is buildable, a condition on files, names and router alone; then each static file belongs to its own key or to that of the original it is named after, the patterns are exactly those of the files, and counters, routes and index agree |
| InstanceBuild.StemIndexed | build.go:84-108 | The stem of a file is in the index exactly when, by the names of the static files alone, the file is not its own original |
| InstanceBuild.AdmissibleIff | build.go:65-159 | Whether a static file can be added depends only on the names of the static files, its content, its original's content and the router |
| InstanceBuild.BuildableSoFar | instance.go:105-117 | Of a directory that can be built, the files up to any point of the walk can be built by themselves |
| BuildRules.BuildableServes | instance.go:105-117 | In a buildable directory every template file parses, no pattern comes twice, and the patterns of every file are registered |
| BuildLaws.SharedPatternAborts | build.go:140-146 | Two files with a pattern in common cannot be built together, whatever the router |
| BuildLaws.CollisionAborts | build.go:206-240 | Nor can two visible template files that share a route, as D.html and D/index.html do |
| BuildLaws.StaticCollisionAborts | build.go:138-146 | Nor a static original and a template file whose route is its name |
| BuildLaws.PlainExtensionAborts | build.go:89-143 | An original and a static file that adds to its name an extension that is not a compression cannot be built together |
| BuildLaws.BesideVariant | build.go:89-108 | Beside a variant such a file is its own original: a, a.gz and a.gz.txt do not clash |
| BuildLaws.GzipSibling | build.go:91-101 | A sibling .gz of an original can be built exactly when gzip decodes it to content with the original's hash |
| BuildLaws.ZstdSibling | build.go:91-101 | A sibling .zst exactly when zstd does |
| BuildLaws.BrotliSibling | build.go:91-101 | A sibling .br exactly when brotli does |
| BuildLaws.NoExtension | build.go:84-84 | A last element without a dot has no extension |
| BuildLaws.TypeByName | build.go:59-135 | .css, .js and .csv files have their type from their name, all others from their content |
| BuildLaws.NamedTemplateClaims | build.go:225-240 | A template named by a method and a path registers that pattern, an event stream a GET of its path |
| BuildLaws.FileErrorsAbort | instance.go:105-117 | A template file that does not parse or holds a template that cannot be added, a static file that cannot be opened and an original whose type cannot be told make the directory unbuildable |
| BuildLaws.RefusedPatternAborts | build.go:140-146 | So does a pattern that the router always refuses |
| BuildLaws.BuildableIff | instance.go:105-117 | With a router that refuses only what it has, a directory is buildable exactly when each file can be taken by itself and no pattern comes twice |
| InstanceBuild.CountedVariant | build.go:155-155 | The alternates stay the sum over all keys of variants beyond the first |
| DirectoryWalk.VisitOrdered | instance.go:105-117 | A depth-first walk in lexical order visits paths in strictly increasing order |
| DirectoryWalk.WalkFiles | instance.go:105-117 | The walk passes exactly the files of the tree: none is missed, and no directory is passed |
| DirectoryWalk.TreeWalkOrder | build.go:122-122 | Every directory tree is walked with each file once and a name before its extensions |
| AssetServing.BuildFromTree | instance.go:59-117 | Any directory tree is built if and only if it is buildable; the result is a valid index of exactly its static files, and the patterns are exactly those of its files |
| AssetServing.NameAndExtensionAbort | build.go:89-143 | No tree that holds, in one directory, a static original and a static file that adds to its name an extension other than a compression can be built |
| AssetServing.HandleStatic | handlers.go:83-145 | The handler answers not found, an error or the negotiated variant with its hash as Etag; it is immutable exactly when the request named the right hash |
| AssetServing.HashReported | dot_instance.go:36-43 | StaticFileHash reports the hash of the content for the URLs of originals, and an error for all others |
| AssetServing.BuildAndServe | handlers.go:83-145 | From directory tree to response: the URLs of the originals, and no others, are answered as static files; the answer is not found exactly for another hash, and otherwise the variant negotiated for the header among the original and its compressed siblings sorted by size, the original itself unless the header names the encoding, which decodes to the original's hash, sent as Etag |
| AssetServing.VariantName | build.go:91-101 | A variant goes by the name gzip, zstd or br exactly when its file adds .gz, .zst or .br to the name of the original, and by identity exactly when it is the original |
| AssetServing.NothingNamed | handlers.go:161-173 | A client whose header names no variant of the file gets the original |
| AssetServing.SmallestServed | build.go:149-157 | Weights above 0.1 and within 0.1 of each other: no variant that the header names is smaller than the one served |
| AssetServing.SmallestListed | build.go:149-157 | The same on the record of a file: the index chosen is listed and of the least size among those listed |
| AssetServing.ServedContentMatchesHash | handlers.go:103-143 | For every key of the index of a directory tree and every Accept-Encoding, negotiation succeeds, the variant is the original or client-listed, and it decodes to content with the hash sent and reported |
| LiveReload.InvStep | server.go:71-116 | Every step of every goroutine keeps the protocol invariant |
| LiveReload.SwapSucceeds | server.go:97-97 | In every interleaving the CompareAndSwap of Reload succeeds and publishes the instance built |
| LiveReload.FreeMutexSettled | server.go:71-116 | With the mutex free, pointer and cancel are both nil and every context is cancelled, or cancel belongs to the published instance and only its context is live |
| LiveReload.AtMostTwoLive | server.go:78-104 | In every reachable state at most two contexts made by the server are not cancelled |
| LiveReload.PublishedIdsIncrease | instance.go:62-67 | Published instance ids strictly increase |
| LiveReload.ReplacedNeverReturns | server.go:97-101 | Once the pointer leaves an instance it never points to it again |
| LiveReload.FailedReloadChangesNothing | server.go:86-95 | A failed Reload leaves pointer, cancel function and live contexts as it found them, with its own context cancelled |
| LiveReload.OlderInstancesDone | server.go:97-101 | After a successful Reload, for ever after, a request on an older instance has its server context done |
| LiveReload.SubsequentRequestsNewer | server.go:13-18 | After a successful Reload every later request loads the new instance or a newer one, or nil if a Stop has begun since |
| LiveReload.RefusalsExplained | instance.go:222-229 | A request is refused only if the root is cancelled, or after its instance was published a newer one was or a Stop began |
| LiveReload.CancelledIff | server.go:97-116 | A published instance's context is cancelled if and only if Stop called cancel after its publication, or Reload did after publishing a newer one |
| LiveReload.RefusedIff | instance.go:222-229 | A request that comes to the check is refused if and only if the root is cancelled or one of these calls has happened; otherwise it is served |
| LiveReload.CurrentIsServed | instance.go:222-229 | A request on the current instance is refused if and only if the root is cancelled or a Stop stands between calling cancel and clearing the pointer; a Reload, wherever it stands, refuses none |
| LiveReload.StaleIsRefused | instance.go:222-229 | After a successful Reload a request that still holds an older instance is refused |
| LiveReload.NilExplained | server.go:107-116 | The pointer is nil only before the first publication, or when a Stop has begun since the last |
| LiveReload.RefusedWithoutStop | server.go:63-67 | A run without Stop or root cancellation in which a request is refused |
| LiveReload.MutexCanBeReleased | server.go:74-75 | From every reachable state the holder of the mutex alone can run until it releases it |
| LiveReload.UndisturbedReload | server.go:71-105 | From every reachable state with the mutex free, a Reload that builds publishes a new instance and cancels the one before |
| LiveReloadLaws.UndisturbedStop | server.go:107-116 | From every reachable state with the mutex free, a Stop cancels the published instance's context, leaves pointer and cancel nil, and touches no request |
| LiveReloadLaws.UndisturbedFailure | server.go:86-95 | A Reload whose build fails takes an id, derives and cancels a context, and leaves all else as it was |
| LiveReloadLaws.AnswerStands | server.go:13-18 | A request that passed the check is served until its handler returns, through any Reloads and Stops; a refused one stays refused |
| LiveReloadLaws.OutstandingCompletes | server.go:13-18 | From every reachable state, a request being served outlives a Reload and a Stop and its handler returns |
| LiveReloadLaws.SharedApart | server.go:71-116 | Each shared variable is written only by the steps that write it in the source |
| LiveReloadLaws.ThreadsApart | server.go:71-116 | A goroutine is moved by its own steps only |
| LiveReloadLaws.RootIff | instance.go:222-229 | The root context is cancelled exactly from the first cancellation on |
| LiveReloadLaws.RootRefusesAll | instance.go:222-229 | After the root context is cancelled every request is refused |
| LiveReloadLaws.IdsCounted | instance.go:62-67 | Every instance made in the process takes one id |
| Transactions.DotDB.MakeTx | dot_db.go:25-30 | A transaction is begun only when none is open, and only when the driver grants it |
| Transactions.DotDB.Run | dot_db.go:35-88 | A statement runs inside the open or a new transaction, or reports why it could not begin |
| Transactions.DotDB.CommitTx | dot_db.go:126-134 | An open transaction is finished, its statements durable exactly when the driver commits; otherwise nothing happens |
| Transactions.DotDB.RollbackTx | dot_db.go:143-151 | An open transaction is finished without effect |
| Transactions.DotDB.Cleanup | dot_db_config.go:50-57 | With an error the transaction is rolled back, without one committed, and the errors are joined |
| Transactions.FinishedOnce | dot_db.go:25-151 | Over any calls, every transaction begun is finished exactly once, except one still open |
| Transactions.FinishedAsAsked | dot_db.go:119-151 | A transaction is finished the way some Commit or Rollback among the calls asked, with the driver's answer to it |
| Transactions.DurableLog | dot_db.go:25-151 | After any calls the durable log is the log before plus exactly the statements whose next Commit or Rollback is a Commit that succeeds, in order |
| RequestHandling.Execute | handlers.go:41-41 | A template run, any sequence of calls and output, acts on each database field by its own calls only |
| RequestHandling.Cleanup | dot.go:84-91 | The cleanup loop threads one error through the chain, provider by provider |
| RequestHandling.CleanupRunChain | instance.go:161-161 | Over X, the databases in order and the response, the loop has a closed form |
| RequestHandling.RespCleanup | dot_resp.go:28-39 | Without an error headers and status are sent; with an error status in the tree, that status |
| RequestHandling.HandleBuffered | handlers.go:26-51 | The handler's effect on databases and response is the reference function of the run, the driver's answers and the provider's error |
| RequestLaws.ErrorSticks | dot.go:84-91 | After the X cleanup a non-nil error never becomes nil |
| RequestLaws.CommitsUpToFirstFailure | dot_db_config.go:50-57 | After success or an early return, databases before the first failing commit are committed and all later ones rolled back |
| RequestLaws.OtherErrorRollsBack | dot_instance.go:20-25 | Any other error rolls back every transaction still open |
| RequestLaws.TransactionsSettled | dot.go:84-91 | After a request no transaction is open and each begun one was finished exactly once |
| RequestLaws.RequestDurableLog | dot_db_config.go:50-57 | A database ends with its log plus exactly the statements closed by a successful manual or automatic commit |
| RequestLaws.FailingTemplateChangesNothing | dot_db.go:11-16 | A failing template without a manual commit changes nothing |
| RequestLaws.ResponseAllOrNothing | handlers.go:41-49 | The client gets the whole page under its headers and status after every commit succeeded, or only error text |
| RequestLaws.ErrorStatusSent | dot_resp.go:28-39 | A template that fails with an error status sends that status and the error text, whatever the databases add to the error |
| RequestLaws.PlainErrorSent | dot_resp.go:28-39 | An error in which nothing carries a status sends 500 and the error text alone |
| RequestLaws.ProviderErrorSent | handlers.go:30-35 | When a provider fails nothing is run and 500 with the error text is sent |
| RequestLaws.EarlyReturnDelivers | dot_resp.go:98-103 | An early return, wherever in the error its sentinel is, delivers the page rendered so far under the status it set |
| RequestLaws.DefaultStatus | dot_resp.go:19-26 | A page that sets no status is sent with 200 |
| Errors.ReturnInTree | dot_instance.go:20-25 | The early-return sentinel is found however deep it is wrapped or joined |
| Errors.StatusInTree | dot_resp.go:28-39 | The status of an error is that of the first error in its tree that carries one |
| Errors.JoinKeepsBoth | dot_db_config.go:50-57 | Joining two errors loses neither |
| RequestLaws.LastStatusWins | dot_resp.go:93-103 | The status sent is the last one set |
| RequestLaws.LastHeaderWins | dot_resp.go:70-90 | A header set and not touched again is sent with that value alone, a deleted one is not sent |
| RequestLaws.AddedHeadersSent | dot_resp.go:70-76 | Values added under a name that is never set or deleted are all sent, in order |
| RequestLaws.AddedAfterSet | dot_resp.go:70-90 | Values added after a header was set follow the value set; after it was deleted they are all there is |
| RequestLaws.BodyInOrder | handlers.go:41-49 | The body is what the template wrote, in order |
| RequestLaws.FailedCommitAtomicIff | dot_db_config.go:50-57 | When a commit fails, every database is left as the template left it if and only if no earlier database had statements to commit |
| RequestLaws.CommitsNotAtomic | dot_db_config.go:50-57 | A run in which one database stays committed although the client gets an error |
| DotPool.InvStep | dot.go:66-91 | Every step of every request keeps the pool invariant |
| DotPool.PoolDiscipline | dot.go:66-91 | In every interleaving pooled records are zero and pooled once, and no record is held twice or held while pooled |
| DotPool.NoLeak | dot.go:66-82 | Each field of a held record is zero or the value its own provider made for that request, on the failure path too, and none is zero while the template runs |
| DotPool.NothingLost | dot.go:66-91 | Every record ever made is in the pool or held by a request exactly as long as the pool has not dropped it |
| DotPool.EveryCleanupRuns | dot.go:84-91 | A finished request ran every cleanup once if its template was executed, and none if a provider failed |
| DotPool.MutationSeen | dot.go:66-91 | What a template changes in a field is what the field then holds, and the other fields keep theirs |
| EventStream.Flusher.SendSSE | dot_flush.go:47-88 | The call appends its field lines and two empty lines, or nothing, flushes when it wrote, and fails exactly for a wrong number of arguments |
| EventStream.Flusher.WriteData | dot_flush.go:69-74 | The data loop writes one line per line of data |
| EventStream.ReadField | dot_flush.go:66-80 | A printed field line is read as that field with exactly the value printed |
| EventStreamLaws.ReadCall | dot_flush.go:47-88 | One call delivers one event or none and leaves the reader's buffers empty |
| EventStreamLaws.StreamRoundTrip | dot_flush.go:47-88 | The bytes of any calls without CR and NUL dispatch exactly the calls with data, in order, with the data unchanged, the type and the last id the first lines of the arguments |
| EventStreamLaws.StreamLines | dot_flush.go:64-84 | Each line written is read as one line exactly when no call writes a CR |
| EventStreamLaws.UnreadableNeverDispatched | dot_flush.go:69-78 | No stream makes a reader dispatch a CR, or an id with NUL, so such arguments cannot be read back |
| EventStreamLaws.CrInDataSetsId | dot_flush.go:69-78 | Data with a CR followed by an id field is read as if that id had been given as an argument |
| EventStreamLaws.FourArguments | dot_flush.go:48-88 | A call with event, data, id and reconnection time, in that order, is read as just that event |
| EventStreamLaws.ThreeArguments | dot_flush.go:48-88 | Without a reconnection time none is set, and without an id none is sent |
| EventStreamLaws.MissingArguments | dot_flush.go:48-88 | A call without data dispatches nothing; one without an event name dispatches a message |
| EventStreamLaws.CallBytes | dot_flush.go:64-84 | The bytes of a call with one line of data |
| FrontMatter.FirstLineBounds | frontmatter.go:14-31 | The loop finds the first line with something on it and the newline that ends it |
| FrontMatter.RecognizeKind | frontmatter.go:36-44 | The table loop recognizes exactly the listed opening fences |
| FrontMatter.FindFence | frontmatter.go:51-61 | The earliest occurrence of the first listed fence that occurs |
| FrontMatter.ExtractFrontMatter | frontmatter.go:13-78 | The method computes the specified split, and reports unterminated and unparsable front matter |
| FrontMatterLaws.SplitLossless | frontmatter.go:51-75 | The pieces put together are the input, the cut is at the earliest occurrence of the first listed fence that occurs, and only documents without any fence are unterminated |
| FrontMatterLaws.PrintRoundTrip | frontmatter.go:13-78 | Splitting undoes printing if and only if no closing marker precedes the printed one: not that fence in the front matter, no earlier-listed fence anywhere after the opening |
| FrontMatterLaws.ClosedByItsFence | frontmatter.go:111-127 | YAML and TOML front matter is closed by the fence that opened it, JSON by its brace |
| FrontMatterLaws.WholeIff | frontmatter.go:36-49 | A document is taken whole exactly when its first line with something on it is none of ---, +++ and { |
| FrontMatterLaws.YamlDocument | frontmatter.go:111-127 | YAML stands between two lines of dashes, blank lines before and blanks after the first allowed |
| FrontMatterLaws.YamlClosedByDots | frontmatter.go:111-127 | Three dots close it when no line that follows starts with dashes |
| FrontMatterLaws.TomlDocument | frontmatter.go:111-127 | TOML stands between two lines of pluses |
| FrontMatterLaws.JsonDocument | frontmatter.go:92-127 | JSON stands between its own braces and is parsed with them |
| FrontMatterLaws.ExtractPrinted | frontmatter.go:67-77 | Then the metadata and the body come back |
| FrontMatterLaws.DotsLoseToDashes | frontmatter.go:111-127 | Front matter closed with "..." is lost to a "---" at the start of a line of the body |

## Left out

- Negotiate: does not model float64 rounding, infinities or NaN of the parsed weights; the code treats neither `q=0` nor `*` specially, so nothing is claimed about them.
- NegotiationLaws.NoRepeatsBoundTight: reaches the bound in exact thousandths only; with five or more encodings float64 takes some differences of 0.1 for larger.
- NegotiationLaws.NoRepeatsBoundTightNegative: the same.
- NegotiationOrder.OrderIndependent: with repeated tokens the condition is proved sufficient, not necessary; a repeat can make every order end in the same encoding although it fails.
- InstanceBuild.Builder.AddStaticFile: the records of the index are values in a map, not shared pointers; the one place where sharing shows, overwriting the stem's record before a failing registration, is modelled by updating the map.
- StaticIndex.SortBySize: the in-place sort works on a sequence; only its sortedness and elements are used, as the original sort is not stable.
- Transactions.DotDB.CommitTx: a commit the driver reports as failed is taken to have made nothing durable; statements of other requests on the same database are not modelled.
- RequestHandling.RespCleanup: header names are taken to be canonical, and the panic of net/http on status codes outside 100 to 999 and the special treatment of 1xx codes are not modelled.
- LiveReload: options passed to Reload are assumed not to replace the context.
- Request matching of http.ServeMux, http.ServeContent and the rest of net/http.
- The flushing handler, which writes to the client while the template runs, and Repeat, Sleep, WaitForServerStop and Flush, each of which follows from the server context being done.
- Template text written between calls of SendSSE.
- ServeContent, Template and Func of the dot values; flags, directories, NATS and custom providers.
- Row building of QueryRows, and QueryRow and QueryVal, which only shape its result.
- Template parsing, minification and initialization templates.
- Configuration, command line, logging, request ids and metrics, which would only add one-branch facts.
- Invalid UTF-8 in headers, paths and documents.
