# kube-csr: a model of the certificate signing request life cycle

kube-csr drives a Kubernetes certificate signing request (CSR) through its life: it asks services for their addresses,
generates a key and a request, submits the request to the API server, approves it, waits for the certificate, annotates
and finally deletes the object. Around this pipeline stand a renewal daemon and a garbage collector. One call does
little; what matters is what holds when many actors share one API server. This project models the pipeline, both daemons
and the algorithms they rest on, and proves their properties for every interleaving, every run and every input.

## How it is built

| module | models |
|---|---|
| `Base` | options, results, 64-bit integers, durations and instants |
| `Decimal`, `Calendar`, `DurationText` | the texts that are written and read: integers, `lastFetchTime`, durations in log lines |
| `Objects` | PEM contents, conditions, annotations, the CSR object |
| `Cluster` | the API server as a log of accepted writes, and its requests |
| `Protocol` | what every reachable log keeps: soundness, exact fetch counts, optimistic concurrency, own certificates |
| `Disk` | files and the guarded write |
| `Hosts`, `Generate`, `Query`, `Submit`, `Fetch` | the steps of the pipeline (`Submit` holds approval, too) |
| `Operation` | `Operation.Run`: the order of the steps and what a run ends with |
| `Collectable` | the three collection predicates, alone and along the life of an object |
| `Pass`, `Purge` | a pass of the collector among other actors, the collector and its daemon |
| `Renew` | the renewal daemon over signals, tokens and ticks, with the operation it runs |

The state of the API server is the replay of a log of accepted writes. Every request of the process under study is
preceded by any number of writes of other actors, so a contract that mentions the log speaks about every interleaving.
`Clean(log)` says that every write of the log was accepted and kept the discipline below; every method is proved to keep it.
`Undisturbed(log, k, name, who)` says that from position k on none of the given actors created or deleted the name,
`Kept(a, b, names)` that no other actor did so to any of the names, and `Steady(log, k, name)` that nobody did so and nobody
fetched the object. Everything else, such as approving, denying, signing or annotating, may happen under all three.

## Assumptions

- The API server answers AlreadyExists, NotFound or Conflict, and nothing else; an update with an outdated
  resourceVersion is a Conflict; uids and versions are never reused; unset condition times are filled in on the status update.
- Other actors create objects without fetch annotations, only append conditions, and change the fetch annotations only as
  `updateAnnotations` does. A signer issues once, only when some condition is Approved and none is Denied,
  and its PEM data begins with a certificate for the stored request; a chain may follow.
- Nobody else writes the files. `net.ParseIP`, key generation, service answers and clock readings, with the time at which an
  operation writes its certificate, are parameters. A list comes in any order.
- The Go library is that of version 1.10, which `Dockerfile` and `.travis.yml` name: `strconv.Atoi` and `time.Parse` are modelled
  with all they accept there.
- A clock reading that is written as an annotation lies in the years 0000 to 9999.
- Instants are integers in nanoseconds. `Duration.Seconds()` and `Duration.Hours()` are only compared with 0 and with 24,
  where the conversion to floating point decides as the integers do.

## Where the code differs from what it seems to do

- The IP comparator of `categorizeHosts` compares an element with itself, so nothing orders the addresses:
  up to twelve stay in the order of first mention, which differs for equal sets of hosts (`Hosts.OrderMatters`), and more can
  come in any order; what is canonical is their multiset (`Hosts.CategoriesAreCanonical`). Two spellings of one address both stay (`Hosts.DuplicateAddresses`).
- The `ok` flags of a query outlive a call that fails. The addresses that call had found are lost to every later call
  (`Query.SuccessReturnsTheRest`; `Query.AddressIsLost` shows it).
- A certificate followed by further bytes, such as a chain, never counts as expired, although it can be issued and fetched
  (`Collectable.ExpiresUnlessChain`, `Collectable.ChainIsKept`).
- The smallest grace period negates to itself and so protects objects (`Collectable.LeastGraceProtects`).
- A pass of the collector fails on its own second delete of an object that is both fetched and expired
  (`Purge.ClashExactly`; `Purge.ClashHappens` reaches one for every grace period).
- The renewal daemon blocks for ever on its own channel when a certificate is due again before its token is drained
  (`Renew.BlocksExactly`; `Renew.DaemonBlocks` shows it for every threshold).
- A threshold that covers period and delay keeps the file valid, but so does one so extreme that the 64-bit arithmetic
  calls every certificate due; all others do not (`Renew.SafeExactly`).
- `time.Parse` reads an hour of one digit and a fraction of a second that the layout does not have
  (`Calendar.FormatParse`).
- A failing `Generate` can leave a request on disk whose key was never written (`Generate.Generator.Generate`).
- A run that generates a new key, rather than loading it, and then does not complete the fetch leaves that key beside the old
  certificate; nothing else breaks a pair (`Operation.Operation.SplitExactly`). With override set for keys but not for the
  certificate this is bound to happen (`Operation.Operation.KeyIsLeftBehind`).
- The fetch is counted before the file is written, so a refused write leaves a count behind (`Fetch.Fetcher.Fetch`).
- The comments above `IsAnnotationFetched` repeat those of `IsConditionDenied`; the model follows the code.

## Model

| member | source | states |
|---|---|---|
| `Protocol.ReachableIsSound` | pkg/operation/approve/approve.go:37-52 | In every reachable store, an object with a certificate has a first condition that is not a denial and carries a certificate for its own request; without a certificate it has no fetch annotation; every condition carries a time. |
| `Collectable.DeniedExcludesOthers` | pkg/operation/purge/purge.go:161-185 | In every reachable store, an object that counts as denied counts neither as expired nor as fetched, at no time. |
| `Protocol.VersionFixesObject` | pkg/operation/fetch/fetch.go:96-99 | Optimistic concurrency: if the version read is still current when the write is served, the stored object is the one that was read, whatever happened in between. |
| `Protocol.CountIsExact` | pkg/operation/fetch/fetch.go:72-101 | For every incarnation of an object in every reachable log, fetchCount is the decimal text of the number of successful annotation updates since its creation and lastFetchTime the text of the last one; both keys are missing if there was none; re-creation starts over. |
| `Objects.BumpFirst` | pkg/operation/fetch/fetch.go:78-83 | The first annotation counts 1 from nil annotations and from annotations without the keys. |
| `Objects.BumpNext` | pkg/operation/fetch/fetch.go:84-92 | A further annotation counts one more and replaces the date, below the bound of int. |
| `Protocol.OwnCertificate` | pkg/operation/submit/submit.go:70-94 | If nobody creates or deletes the name after our creation, a certificate found on it was issued after that creation and for exactly the submitted request. |
| `Collectable.FetchedExactly` | pkg/operation/purge/purge.go:188-223 | A reachable object counts as fetched iff it was fetched at all and the last fetch, truncated to the second, plus the grace period is not after now. |
| `Collectable.ExpiredExactly` | pkg/operation/purge/purge.go:131-158 | For every object: expired iff its certificate data is a lone certificate block and NotAfter + max(0, grace) <= now, with the grace that wrap-around leaves. |
| `Collectable.DeniedExactly` | pkg/operation/purge/purge.go:161-185 | For every object: denied iff the first condition is a denial and its time plus the grace is not after now. |
| `Collectable.FetchedByAnnotations` | pkg/operation/purge/purge.go:188-223 | For every object, also one annotated by hand: fetched iff the count is a number other than 0 and the date parses and lies the grace back. |
| `Collectable.RulesAreLasting` | pkg/operation/purge/purge.go:131-223 | Along every reachable log: what a predicate matches at some position and time it matches at every later position and time, as long as nobody replaced or fetched the object; approvals, denials, certificates and other annotations may come in between. |
| `Collectable.Outlasts` | pkg/operation/purge/purge.go:131-223 | The same for any predicate that single harmless writes preserve. |
| `Collectable.RulesAreMonotone` | pkg/operation/purge/purge.go:146-222 | For an object as it is, each predicate that holds holds at every later time and under every smaller grace period that does not wrap. |
| `Collectable.GraceIsEffective` | pkg/operation/purge/purge.go:153-153 | Subtracting the negated grace period grants the grace itself, except for the minimum, which grants 2^63 ns. |
| `Collectable.ExpiresUnlessChain` | pkg/operation/purge/purge.go:136-140 | A reachable issued object expires at some time iff no bytes follow the first block of its certificate data. |
| `Collectable.ChainIsKept` | pkg/operation/purge/purge.go:136-140 | For every request and every certificate for it, an object carrying a chain that begins with that certificate is reachable, issued and fetched once, and never expires. |
| `Purge.Collector.Delete` | pkg/operation/purge/purge.go:226-234 | Deletes exactly the named object; while others leave the name alone it succeeds iff the object was there; it fails only with NotFound. |
| `Purge.Collector.Examine` | pkg/operation/purge/purge.go:248-258 | Under any interleaving: without a failure as many deletes as matching rules, with one fewer, and then the object is gone. While others leave the name alone, one delete if any rule matches and a failure iff two do. |
| `Purge.Collector.Sweep` | pkg/operation/purge/purge.go:246-259 | Under any interleaving a failure means that two rules matched an object or that another actor deleted a listed one, and without a failure every matching object was deleted. While others leave the listed names alone, it fails iff some item matches two rules, and removes exactly the matching items up to and including the first of those. |
| `Purge.Collector.GarbageCollect` | pkg/operation/purge/purge.go:237-273 | The same for a pass over a true listing; each delete is counted; the gauge becomes the number of listed items less the deletes, or stays if the pass failed. |
| `Purge.Collector.Tick` | pkg/operation/purge/purge.go:293-297 | A tick is one pass, told in full (logs, listing, failure, deletes); its failure is counted and swallowed, it makes progress, and the gauge follows it. |
| `Purge.Collector.GarbageCollectLoop` | pkg/operation/purge/purge.go:276-300 | Under any interleaving: exactly one pass for each tick, one after another, whatever became of the one before; counters and gauge are theirs; of the objects at the beginning of each completed pass that nobody replaced or fetched since, none was collectable then; objects at the start + arrivals = objects left + own deletes + deletes by others; failed passes <= objects at the start + arrivals; and after more ticks than that, nothing is left as it was that was collectable at the start. |
| `Purge.Collector.RoundSettles` | pkg/operation/purge/purge.go:245-259 | A completed pass settles every log from before its listing, at every time its clock never undercuts. |
| `Purge.Collector.RoundsProgress` | pkg/operation/purge/purge.go:288-299 | Passes in a row add up: deletes, failures, and the deletes of others that explain these. |
| `Purge.Balance` | pkg/operation/purge/purge.go:276-300 | If other actors create and delete nothing: failed passes <= deletes = objects gone; with them, their arrivals and deletes enter the balance. |
| `Pass.Census` | pkg/operation/purge/purge.go:245-264 | Conservation of objects over any stretch of a reachable log in which the collector only deletes. |
| `Pass.PassStep` | pkg/operation/purge/purge.go:246-259 | One examined item keeps what a pass has established, under interference and without. |
| `Pass.PassLeaves` | pkg/operation/purge/purge.go:245-264 | While others create nothing and delete nothing listed, the names left are exactly those listed less those collected, and the gauge value is their number. |
| `Purge.PassProgress` | pkg/operation/purge/purge.go:252-255 | A failed pass saw a delete, by the collector or by another actor. |
| `Purge.PassSettles` | pkg/operation/purge/purge.go:245-259 | After a completed pass, no object that was collectable at an earlier point of the log is left as it was: somebody replaced, deleted or fetched it. |
| `Purge.ClashExactly` | cmd/cmd.go:529-538 | On reachable objects, two of the configured rules match iff fetched and expired are both configured and both match. |
| `Purge.NeverFailsItself` | pkg/operation/purge/purge.go:248-255 | With denied and at most one other rule a pass over any reachable store fails only if another actor deleted a listed object, under any interleaving; while others leave the listed names alone it completes and removes exactly the matching objects. |
| `Purge.ClashHappens` | pkg/operation/purge/purge.go:248-255 | For every grace period there is a reachable object, fetched and expired, that two rules match at one time. |
| `Renew.Renewer.ShouldRenew` | pkg/renew/renew.go:132-165 | Error iff no certificate can be read from the file, else due by time left minus threshold in 64-bit arithmetic. |
| `Renew.Renewer.ProcessRenew` | pkg/renew/renew.go:167-186 | Runs the modelled pipeline once iff a certificate can be read and is due, under the new name, and says how that run ended; otherwise nothing changes on the server, on disk or in the daemon; the error and the result are those of the check. |
| `Renew.Renewer.RenewNow` | pkg/renew/renew.go:175-186 | The due case field by field, with the attempt recorded. |
| `Renew.Renewer.Turn` | pkg/renew/renew.go:208-241 | One turn of the loop does exactly what the state machine does in the case that select took, over all fields; a due check runs the pipeline once, nothing else touches server or disk; and `Matched` is kept. |
| `Renew.Renewer.MatchedNext` | pkg/renew/renew.go:178-181 | One attempt keeps the characterization of the pair on disk, whichever of its steps were done. |
| `Renew.Renewer.Renew` | pkg/renew/renew.go:189-244 | If the first check cannot read a certificate the daemon ends `Failed` with everything as it was; if it has to renew and fails, it ends `Failed` with no token and nothing counted and takes no input; else it goes on, with a token queued iff it renewed. The loop refines the state machine `After` over every sequence of signals, tokens and ticks. It runs the pipeline exactly for the due checks of the running daemon, its own requests are those of these runs, and key and certificate on disk match as `Matched` says. |
| `Renew.Renewer.Loop` | pkg/renew/renew.go:211-243 | The same of the loop alone, from any state. |
| `Renew.StartExactly` | pkg/renew/renew.go:195-202 | The first check in terms of the certificate and of the outcome alone: fails, leaves a token, or changes nothing. |
| `Renew.AfterEarly` | pkg/renew/renew.go:212-230 | Once the loop has ended, failed or blocked, nothing changes any more. |
| `Renew.SafeExactly` | pkg/renew/renew.go:132-242 | Every run that keeps its promises (checks at most a period apart, due renewals within a delay, new certificates that outlive both, the delay left at the start) has a valid certificate on disk at every instant until a period and a delay after the last check, if and only if the threshold plus 2 ns covers period and delay, or no time passes between checks, or the 64-bit arithmetic calls everything due. |
| `Renew.NeverExpired` | pkg/renew/renew.go:132-242 | The sufficient half, by induction over the run: validity at every instant from the first check on. |
| `Renew.SlowRenewalExpires` | pkg/renew/renew.go:148-160 | With a renewal slower than the threshold, a certificate that is not yet due at a check expires before the next one. |
| `Renew.LateCheckExpires` | pkg/renew/renew.go:148-160 | With a threshold short of period and delay, a renewal that is due only at the next check comes too late. |
| `Renew.DueExactly` | pkg/renew/renew.go:148-160 | Due means time left at most the threshold iff the arithmetic stays in 64 bits. |
| `Renew.NeverEarly` | pkg/renew/renew.go:156-159 | While more time is left than the threshold, a check changes nothing at all. |
| `Renew.RenewalsAreConserved` | pkg/renew/renew.go:195-242 | At every loop head renewals = tokens drained + queued + the one that blocks = checks that found a due certificate and whose operation succeeded; the command ran once per drained token; the error counter is the number of ticks without a readable certificate or with a due one whose operation failed. |
| `Renew.EndsExactly` | pkg/renew/renew.go:208-242 | The loop ends iff a signal came, a token was drained whose command failed or after which the daemon exits, or a renewal overran its token; no failed check ends it. |
| `Renew.EndsAs` | pkg/renew/renew.go:212-242 | It ends stopped by a signal or on exit, failed by a failing command, blocked by an overrun. |
| `Renew.NamesDiffer` | pkg/renew/renew.go:175-177 | Two renewals have the same name iff their uuids agree in the first 13 characters. |
| `Renew.ExpiryOfFirstBlock` | pkg/renew/renew.go:134-147 | The first PEM block of the file decides, whatever follows; without a certificate there the check has an error. |
| `Renew.NamesDoNotGrow` | pkg/renew/renew.go:175-177 | However many renewals happen, the name is the base name or the base name, a dash and 13 characters. |
| `Renew.BlocksExactly` | pkg/renew/renew.go:232-242 | The daemon blocks on its own channel iff some renewal succeeds while the previous token is queued. |
| `Renew.DaemonBlocks` | pkg/renew/renew.go:232-242 | A run, for every threshold, that blocks. |
| `Renew.NeverBlocks` | pkg/renew/renew.go:232-242 | If no certificate is due again while its token is queued, no run blocks and every send finds the channel empty. |
| `Operation.Operation.Run` | pkg/operation/operation.go:63-105 | The completed steps are a prefix of the configured ones, all iff the run succeeds, and what stopped the next one is justified by what the services, the disk, the clock and the log showed (`QueriedBy`, `GeneratedBy`, `Enrolls`, `Concludes`); what the query returned has joined the hosts; exactly one approval iff the approval step is done, on either path; the requests are those of the steps and no others; the disk after any run is that of its completed steps (`DiskAfter`); whenever the fetch was completed the run ends with its own pair, also if the delete fails then. |
| `Operation.Operation.ConfiguredExactly` | pkg/operation/operation.go:66-101 | The configured steps are those whose component is set, each once, in the order query, generate, submit, approve, fetch, delete. |
| `Operation.Operation.Prepare` | pkg/operation/operation.go:66-78 | The answer of the query joins the hosts and its marks stay, also after a failure; then request and key are made from all hosts. |
| `Operation.Operation.DiscoveredIsRequested` | pkg/operation/operation.go:66-78 | Every name and address in the hosts or returned by the query is in the generated request. |
| `Operation.Operation.Enroll` | pkg/operation/operation.go:79-89 | Submission and approval end as the server allows; a run that submits approves what the submission returned, others what they read, and none approves twice. |
| `Operation.Operation.Conclude` | pkg/operation/operation.go:90-101 | Fetch and delete: the wait ends as its polls decide, and deleting is one own request iff it is done. |
| `Operation.Operation.FindSigner` | pkg/operation/operation.go:79-95 | A completed fetch has what the server showed; that was issued to us if no other actor created or deleted the name between our creation and the read. |
| `Operation.Operation.RunEnds` | pkg/operation/operation.go:63-105 | The stages compose to a run: order, requests, disk and own pair. |
| `Operation.Operation.PairAfter` | pkg/operation/operation.go:63-105 | An undisputed completed fetch brings a matching pair; without a completed fetch the certificate stays, and so does the key unless a new one was generated. |
| `Operation.Operation.SplitExactly` | pkg/operation/operation.go:63-105 | With a pair before, there is one after the run iff not: generation of a key other than that on disk completed, and fetch not. |
| `Operation.Operation.KeyIsLeftBehind` | pkg/operation/generate/generate.go:153-162 | With override for keys, none for certificates and a pair on disk, every run that reaches the generation of another key fails and leaves it beside the old certificate. |
| `Operation.Operation.SubmitAndApprove` | pkg/operation/operation.go:46-60 | `approved` is set iff the approval was accepted; how the two end is told by the log. |
| `Operation.Operation.OwnPair` | pkg/operation/operation.go:63-105 | A certificate fetched undisputed answers the generated request, and the key file holds that request's key. |
| `Operation.FoundIsOwn` | pkg/operation/fetch/fetch.go:124-139 | A certificate read after our submission was issued between the two, for the submitted request. |
| `Submit.Submitter.Submit` | pkg/operation/submit/submit.go:41-95 | While others leave the name alone: succeeds iff the name is free or may be overridden, by a create alone in the first case and a delete and a create in the second. Under any interleaving: creates the object with the request file's bytes; without override fails only because the object is there; with override only because another actor deleted it before us or created it again after our delete. |
| `Submit.Submitter.Recreate` | pkg/operation/submit/submit.go:80-92 | The delete and second create, begun while the object is there: fail only by interference, and tell which. |
| `Submit.Approval.ApproveCSR` | pkg/operation/approve/approve.go:37-52 | Appends exactly one Approved condition to the object as it was read; fails only if that object changed. |
| `Submit.Approval.GetAndApproveCSR` | pkg/operation/approve/approve.go:55-61 | The same for the object the server shows; fails with NotFound or Conflict, and only if it is gone or was changed since the call began. |
| `Fetch.Fetcher.Fetch` | pkg/operation/fetch/fetch.go:105-153 | Over truthful polls in the order of the log, on any schedule: all but the last saw neither certificate nor denial; a certificate is delivered even if the object is denied by now, and only a denial without one is refused; before that neither server nor disk change; a failed annotation update writes no file. |
| `Fetch.Fetcher.UpdateAnnotations` | pkg/operation/fetch/fetch.go:72-102 | Records one more fetch, at the time of the clock, on the object as it was read, or fails because that changed or is gone. |
| `Fetch.Fetcher.CountFetch` | pkg/operation/fetch/fetch.go:78-93 | The annotation map filled in key by key is the counted one, other keys untouched. |
| `Fetch.OutcomeIsFirst` | pkg/operation/fetch/fetch.go:118-152 | The outcome of a wait is the verdict on its first poll that is not pending. |
| `Generate.Generator.Generate` | pkg/operation/generate/generate.go:145-162 | Succeeds iff key, common name and free files are there; then request and key files match; a failure changes nothing, or leaves a request without its key in exactly the described case. |
| `Generate.Generator.GenerateCryptoData` | pkg/operation/generate/generate.go:84-142 | The request is made by the loaded or the new key for the categorized hosts; fails iff there is no key or no common name. |
| `Generate.KeyOfFirstBlock` | pkg/operation/generate/generate.go:90-105 | The first PEM block of the key file decides, whatever follows. |
| `Hosts.CategorizeHosts` | pkg/operation/generate/generate.go:52-82 | The names are the distinct hosts that are no addresses in strictly increasing order; each address occurs once for each distinct host naming it; lengths add up; up to twelve addresses keep the order of first mention. |
| `Hosts.OrderMatters` | pkg/operation/generate/generate.go:74-81 | Two hosts naming different addresses give different address sequences in their two orders. |
| `Hosts.RepeatsKeepOrder` | pkg/operation/operation.go:66-72 | Hosts mentioned again do not change the order of first mention. |
| `Hosts.CategoriesAreCanonical` | pkg/operation/generate/generate.go:74-81 | Equal sets of hosts give equal names and equal multisets of addresses. |
| `Hosts.RepeatsChangeNothing` | pkg/operation/operation.go:66-72 | Hosts that a run appends again never change the categories. |
| `Hosts.LessExactly` | pkg/operation/generate/generate.go:75-75 | The order of names: at the first difference the lower character is less, and a proper prefix is less. |
| `Hosts.IncreasingIsUnique` | pkg/operation/generate/generate.go:75-75 | A strictly increasing sequence is determined by its elements. |
| `Hosts.DuplicateAddresses` | pkg/operation/generate/generate.go:58-69 | An address occurs twice iff two distinct hosts name it. |
| `Query.NewQuery` | pkg/operation/query/query.go:64-85 | One unmarked entry object of its own for each configured name. |
| `Query.SplitEntry` | pkg/operation/query/query.go:65-79 | Split at the first slash: the parts join to the entry; without a slash the current namespace is used. |
| `Query.SplitJoined` | pkg/operation/query/query.go:66-72 | Joining any namespace without a slash to any service is undone by the split. |
| `Query.Querier.GetSubjectAlternativeNames` | pkg/operation/query/query.go:90-153 | Exactly when and how a call ends, what it returns, and which marks it leaves, also after a failure. |
| `Query.Querier.Sweep` | pkg/operation/query/query.go:101-133 | One tick asks for every unmarked entry, collects and marks what is found, and stops at the first failing request. |
| `Query.SansOfService` | pkg/operation/query/query.go:116-131 | A service gives its ClusterIP, ExternalIPs, LoadBalancerIP and ExternalName, those without text left out, in this order, and nothing else. |
| `Query.SansInOrder` | pkg/operation/query/query.go:101-133 | What is returned is the addresses of exactly the discovered entries, in strict order of discovery. |
| `Query.DiscoveredOnce` | pkg/operation/query/query.go:102-105 | An entry is discovered at most once, and never if it was marked at entry, so a success omits what an earlier call had marked. |
| `Query.MarkedWasDiscovered` | pkg/operation/query/query.go:134-146 | An entry marked since the call began was discovered by it, so a success returns every entry that was not marked at entry. |
| `Query.SuccessReturnsTheRest` | pkg/operation/query/query.go:90-153 | Over any sequence of calls: a successful one returns, in order of discovery, the addresses of exactly the entries that were not marked at the beginning nor by any call before it, failed or not, each entry once. |
| `Query.NothingAfterSuccess` | pkg/operation/query/query.go:101-146 | After a success every later call returns nothing or times out. |
| `Query.AddressIsLost` | pkg/operation/query/query.go:106-111 | A session whose failed call takes an address that no later call returns. |
| `Calendar.ParseFormat` | pkg/operation/fetch/fetch.go:28-28 | For every instant in the years 0000 to 9999, parsing its text yields it truncated to the second. |
| `Calendar.FormatParse` | pkg/operation/purge/purge.go:209-213 | Whatever text `time.Parse` accepts: the text of the instant it names is that text with the hour in two digits and no fraction, is the text itself iff that has the layout, and parses to the instant truncated to the second. |
| `Calendar.DateOfCountsDays` | pkg/operation/fetch/fetch.go:77-77 | Dates follow the civil calendar: the next day number is the next date. |
| `Calendar.EpochInstant` | pkg/operation/fetch/fetch.go:77-77 | Days begin every 86400 seconds, and instant 0 begins the first of January 1970. |
| `Calendar.FormatFields` | pkg/operation/fetch/fetch.go:28-28 | The fields of the text are the civil date and the time of day of the instant. |
| `Calendar.FormatExamples` | pkg/operation/fetch/fetch.go:28-28 | Two texts written out. |
| `Calendar.DayNumberInjective` | pkg/operation/fetch/fetch.go:77-77 | Different dates have different day numbers. |
| `Decimal.NextDigit` | pkg/operation/fetch/fetch.go:91-91 | A further digit is ten times the number and the digit. |
| `Decimal.TextsAreDecimal` | pkg/operation/fetch/fetch.go:91-91 | Some numbers written out. |
| `Decimal.AtoiItoa` | pkg/operation/fetch/fetch.go:86-91 | Printing and then parsing is the identity on every 64-bit integer. |
| `DurationText.DurationFormat` | pkg/operation/purge/purge.go:110-128 | The loop ends with days and remainder of the length by 24h; except for the minimum, reading the text gives the length rounded to the second. |
| `DurationText.ReadFormatted` | pkg/operation/purge/purge.go:110-128 | An inverse reader recovers the rounded number of seconds from the text. |
| `DurationText.FormattedInjective` | pkg/operation/purge/purge.go:110-128 | Equal texts mean equal rounded seconds, and equal durations if both are non-negative whole seconds. |
| `DurationText.ClockFormat` | pkg/operation/purge/purge.go:123-127 | The clock part gives hours, minutes below 60 and seconds below 60, from the first that is not 0 on. |
| `DurationText.FormattedExamples` | pkg/operation/purge/purge.go:110-128 | Two durations written out. |
| `DurationText.ClockRange` | pkg/operation/purge/purge.go:123-127 | The printed remainder lies in 0..24h, and reaches 24h because rounding follows the loop. |
| `Disk.Files.WriteFile` | pkg/utils/pemio/write.go:13-31 | Succeeds iff the file is new or override is set, and then replaces that file only. |
| `Cluster.ApiServer.UpdateApproval` | pkg/operation/approve/approve.go:44-48 | Accepted only in the version that was read; times that were unset are filled in and the rest is stored as sent. |

## Left out

- Renew.Renewer.constructor: starts where `NewRenewer` has found the files; a missing file ends it there.
- Renew.NeverExpired: the delay counts from the start of a check to the write of its certificate; what delays an operation is not modelled.
- DurationText.Clock: only whole seconds are printed, which is all that remains after rounding.
- Collectable.FetchedExactly: holds as long as the number of fetches fits an int; beyond it the count wraps around.
- DurationText.Formatted: the minimum duration prints as the fixed text that Go prints for it and is not read back.
- HTTP endpoints, Prometheus and pprof registration, latency metrics, logging, kubeconfig and client building.
- Command line flags, the construction of clients in `cmd/cmd.go`, `checkPaths`, path joining and host name detection.
- RSA, X.509 and PEM encodings: keys, requests and certificates are abstract values with a decode function.
- Certificates whose block is missing or empty, on which `IsCertificateExpired` would dereference nil.
- Operating system signals, shell execution and the wall clock: they are events and parameters.
- File modes and I/O errors of `pkg/utils/pemio/write.go` other than an existing file.
- API server watches, authentication, validation and any failure other than the three named above.
