# ExaProxy, modelled and verified in Dafny

ExaProxy is an event-driven proxy written in Python. One process polls sockets; it reads HTTP, ICAP and TLS
requests from clients, asks a pool of child processes (the redirectors) what to do with each request, resolves
names over DNS, and streams content between clients and servers. This project models the parts of it that keep
state across events, with the same branches, constants and error cases, and proves what those parts promise over
every run. The operating system, the children, the clock and the peers are arguments of the operations: whatever
they decide, the theorems hold.

`dafny verify dfyconfig.toml` checks everything.

## How the files fit together

The objects that the program updates in place are classes with the same fields. Each of their methods is proved
to compute a function on an immutable picture of the state; the lemmas then state what those functions keep, what
they undo, and what follows for every sequence of operations. So a method with a skipped or swapped step does not
verify against its function, and a function with one does not verify against the lemmas.

For the shared tables, those lemmas are refinements. One lookup, one download, one client and one request are each
described alone, without tables, poller or other participants, and the resolver, the managers and the pool are proved to
do exactly that for each of them (`ResolverLookups.NextIsAlone`, `DownloadLives.NextIsAlone`, `ClientLives.NextIsAlone`,
`RedirectorOutcomes.AskPlaces`). What is read from the wire is described by what a sender writes: numerals by their
digits, names and messages by their layout in the standards.

The content manager and the client manager share one poller. Every operation of either requires and ensures its
manager's `Valid()`, the invariant those lemmas speak of, which is about its own three events of the poller; and it
leaves all other events as they were. So the supervisor can call both in any order, and the lemmas of `Managers.dfy`
speak of all such runs.

| files | what they model |
|---|---|
| `ChunkedBody.dfy` | the chunked-body scanner and the two reading coroutines that call it on whatever arrived |
| `RedirectorPool.dfy`, `RedirectorInvariants.dfy`, `RedirectorOutcomes.dfy`, `RedirectorRuns.dfy`, `RedirectorManager.dfy` | the pool of redirector workers: its operations, what each keeps and comes to, runs, and the class |
| `DnsNames.dfy`, `DnsCodec.dfy` | domain names on the wire, with compression pointers, and DNS messages |
| `DnsSpelling.dfy`, `DnsWire.dfy` | what names and messages mean by their bytes alone, and that the program reads and writes that |
| `Pollers.dfy` | the epoll and the select poller, and when they agree |
| `Downloads.dfy`, `DownloadLives.dfy`, `ContentManager.dfy` | downloads, their clients and what the poller is told about them |
| `Clients.dfy`, `ClientLives.dfy`, `ClientManager.dfy` | clients before and after their first request, and what the poller is told |
| `Managers.dfy`, `Supervisor.dfy` | both managers on the one poller they share, their operations in any order |
| `ClientStreams.dfy` | the clients together with their writers: who has bytes to send and is polled for it |
| `Resolver.dfy`, `ResolverRuns.dfy`, `ResolverLookups.dfy`, `ResolverCache.dfy`, `ResolverManager.dfy` | pending DNS lookups, retries and chains, the cache, and the class |
| `Writers.dfy` | the byte streams to clients and servers |
| `Framing.dfy` | messages on the pipes between processes |
| `Tls.dfy` | the host name in a TLS ClientHello |
| `TimeCache.dfy` | the dictionary that hands out keys older than a timeout |
| `Basics.dfy`, `ByteStrings.dfy`, `Wrappers.dfy` | list removal, byte strings, 16-bit numbers, optional values |

## Where the code does not do what one expects

These are results, stated with the exact condition under which the expected property holds.

- **A chunked body can be refused because of how it was cut into reads.** An unfinished size line of more than six
  bytes is refused (`lib/exaproxy/reactor/client/http.py:75-78`). A body that one scan accepts is accepted for every
  cut exactly when all its size lines are short (`ChunkedBody.HttpAcceptsEveryCutIffShort`).
- **The HTTP client never passes on the end of a chunked body**, and its next read fails exactly when it had received
  the body to the byte and the read brings a lone carriage return (`ChunkedBody.HttpKeepsTail`,
  `ChunkedBody.EndFailsIff`, `ChunkedBody.LoneReturnFails`).
- **A well-formed body with a chunk over 0x100000 bytes is refused**; the ICAP client ignores refusals and never leaves
  chunked mode (`ChunkedBody.ScanFindsEndIff`, `ChunkedBody.LongBodyNeverEnds`).
- **Provisioning can exceed the ceiling by one**, in exactly one situation (`RedirectorRuns.ProvisionCeiling`),
  which an empty pool limited to one worker is in (`RedirectorRuns.CeilingIsExceeded`); and lowering the spawn limit
  at the very moment workers were created may stop too few (`RedirectorRuns.LowerSizeExactly`,
  `RedirectorRuns.LowerNeedsClock`); when the clock has moved since, the ceiling holds
  (`RedirectorRuns.EveryRunWithinCeiling`).
- **Reading a compressed name does not end if it reaches a circle of bare pointers**, and ends otherwise
  (`DnsNames.EndlessIff`, `DnsNames.LoopEndsIff`), so a response whose first question points to itself is never decoded
  (`DnsCodec.SelfPointerHangs`). Labels of 192 to 255 bytes and empty labels are written but not read back
  (`DnsNames.NameRoundTripIff`). All other names, and all responses made of them, are decoded as the standard says
  (`DnsSpelling.SpelledIsRead`, `DnsWire.WireResponseIsDecoded`).
- **A reply that names another host makes the resolver forget how long a chain of lookups already was**, so only
  the other replies are sure to bring a lookup closer to its end (`Resolver.ReplyProgressIff`). How long a client can
  wait is bounded in the number of such replies to its own queries (`ResolverRuns.EveryLookupIsBounded`), and in
  nothing else: it can wait through any number of them (`ResolverRuns.MismatchesNeverEnd`).
- **The pollers agree only on disciplined calls** (`Pollers.StepAgreesIff`); the content manager and the
  client manager, on the one poller they share and in any order, make no others (`Managers.EveryRunKeeps`).
- **What is left unsent of the first request is not polled for**, unless data had been buffered while the connection
  was opened; that and connection errors are the only ways to strand bytes (`Downloads.StartPollsIff`,
  `Downloads.NextCoversIff`, `Downloads.FirstWriteIsStranded`).
- **A client can be marked as having data to send twice**, and its socket then stays in the list after it is closed
  (`Clients.NextSingleIff`, `Clients.DoubleGoesStale`). This happens when two of its requests are answered with files and
  the first has not left when the second is answered: a file is reported as new data whatever is pending
  (`ClientStreams.FileReport`, `ClientStreams.MarkGoesStale`).
- **A complete answer can make the program forget a client.** An HTTP client whose whole answer left at once is neither
  closed nor polled, because `startData` drops what the request to close returned
  (`lib/exaproxy/reactor/client/http.py:409-410`); ICAP, TLS and passthrough clients return it, and are not polled for
  the bytes that did not leave at once. Nothing else leaves a client with unsent bytes, or one told to close, unpolled
  (`ClientStreams.NextTendsIff`, `ClientStreams.CloseIsForgotten`, `ClientStreams.CloseIsStranded`).
- **A local file that cannot be read ends an HTTP client's coroutine with an exception**, because the contents are used
  although they were never read (`lib/exaproxy/reactor/client/http.py:332-336`); no other answer does (`ClientStreams.BeginRaisesIff`).
- **A ClientHello without extensions can raise an exception**: five bytes too many are kept, and what follows the hello
  is read as its extensions (`Tls.HelloIsParsedIff`, `Tls.NextRecordRaises`). A packet of exactly one record is safe.
- **Data given to a client's writer after it was told to close is sent**, although the log message says it is
  dropped (`lib/exaproxy/reactor/client/http.py:361-362`; `Writers.ClientStreamIsExact`). A local file sent by the
  ICAP client has its header put before bytes that were already pending (`Writers.IcapFileInOrderIff`,
  `Writers.IcapHeaderInOrderIff`).
- **`TimeCache` hands out a key too early** when the key is set again while an older entry of it is held back
  (`TimeCaches.InsertAppendsIff`, `TimeCaches.HeldBackKeyReused`), and a limit of zero is no limit when the
  held-back entry is due (`TimeCaches.ZeroIsUnlimitedIff`).

## Model

| member | source | states |
|---|---|---|
| ChunkedBody.CheckChunkSize | lib/exaproxy/reactor/client/http.py:66-109 | on any buffer, the loop ends with the decision and the length of one scan (`ScanAll`), which `ScanFindsEndIff`, `ScanOfUnfinished` and `ReadLineIsWritten` fix in terms of what a sender writes |
| ChunkedBody.ScanStopsAtBoundary | lib/exaproxy/reactor/client/http.py:66-109 | what is recognised while more is expected ends exactly where a size line starts |
| ChunkedBody.ScanEndsInside | lib/exaproxy/reactor/client/http.py:66-109 | an end is always accompanied by a length that lies inside the bytes scanned, after at least a size line |
| ChunkedBody.ScanResumes | lib/exaproxy/reactor/client/http.py:66-109 | scanning on from any size line gives the decision of one scan from the start, and the same end, shifted |
| ChunkedBody.EndIsStable | lib/exaproxy/reactor/client/http.py:101-103 | once the end was seen, no further bytes move it |
| ChunkedBody.WhyRefused | lib/exaproxy/reactor/client/http.py:74-95 | a refusal always has one of two causes: a complete line that is no size line, or an incomplete one of more than six bytes |
| ChunkedBody.HttpReader.Read | lib/exaproxy/reactor/client/http.py:247-267 | one read in chunked mode changes buffer, count and mode as `_chunked` does, and passes on its data or refuses |
| ChunkedBody.ChunkedStepTracks | lib/exaproxy/reactor/client/http.py:247-267 | one read loses no byte, decides what one scan over everything received decides, and leaves the reader counting from a size line |
| ChunkedBody.HttpAgreesWithOneScan | lib/exaproxy/reactor/client/http.py:247-267 | for every cut into reads: bytes passed on and held are the bytes received in order, and after each read the client went on, refused or left chunked mode exactly as one scan says, with the end accounted for to the byte |
| ChunkedBody.IcapAgreesWithOneScan | lib/exaproxy/reactor/client/icap.py:259-313 | for every cut into reads: the ICAP client leaves chunked mode at the first read with which one scan sees the end and then holds exactly the bytes after it |
| ChunkedBody.LongLineRefused | lib/exaproxy/reactor/client/http.py:75-78 | a stream cut seven bytes into a longer size line is refused |
| ChunkedBody.HttpAcceptsEveryCutIffShort | lib/exaproxy/reactor/client/http.py:66-109 | an acceptable body is accepted for all cuts if and only if every size line has at most six bytes before its newline |
| ChunkedBody.NumeralIsRead | lib/exaproxy/reactor/client/http.py:95 | a number written with hexadecimal digits of either case, with any leading zeros, is read as itself |
| ChunkedBody.HexTextWrites | lib/exaproxy/reactor/client/http.py:95 | every number has such a numeral |
| ChunkedBody.ReadsWrittenLine | lib/exaproxy/reactor/client/http.py:80-99 | a size line as section 4.1 of RFC 7230 defines it, that announces n bytes in a numeral of n, with extensions, either kind of line end and anything after it, is read as n, or refused exactly if n is over 0x100000 |
| ChunkedBody.ReadLineIsWritten | lib/exaproxy/reactor/client/http.py:80-99 | nothing else is a size line: a complete line that is not refused is one that some sender wrote |
| ChunkedBody.ScanOfUnfinished | lib/exaproxy/reactor/client/http.py:73-109 | one scan of complete chunks accounts for all of them; of chunks and an unfinished size line, for nothing, and it refuses the line if it is over six bytes |
| ChunkedBody.ScanOfBegun | lib/exaproxy/reactor/client/http.py:104-107 | a chunk is accounted for to its end as soon as its size line is there |
| ChunkedBody.ScanFindsEndIff | lib/exaproxy/reactor/client/http.py:84-109 | one scan of any well-formed body, with chunks of any length and anything after it, ends exactly at its end if no chunk is longer than 0x100000 bytes, and refuses it otherwise |
| ChunkedBody.LongBodyNeverEnds | lib/exaproxy/reactor/client/http.py:97-99 | a well-formed body with a longer chunk, in any cut: the HTTP client refuses it and the ICAP client never leaves chunked mode |
| ChunkedBody.WellFormedBody | lib/exaproxy/reactor/client/icap.py:293-313 | any well-formed body without trailers whose chunks have at most 0x100000 bytes, in any cut: the ICAP client ends with exactly what followed the body, and the HTTP client has accounted for exactly the body and refuses nothing when lines are short |
| ChunkedBody.EndChunkFails | lib/exaproxy/reactor/client/http.py:269-286 | with the body received, the next read fails if and only if nothing beyond the body had arrived and the read brings a lone carriage return |
| ChunkedBody.EndFailsIff | lib/exaproxy/reactor/client/http.py:139-144 | the same for every stream, cut and leftover with which the client leaves chunked mode: it fails if and only if it had received the body to the byte and then reads a lone carriage return |
| ChunkedBody.LoneReturnFails | lib/exaproxy/reactor/client/http.py:269-286 | for every body with short lines, read at once, such a read fails |
| ChunkedBody.HttpKeepsTail | lib/exaproxy/reactor/client/http.py:247-286 | for any such body and cut, at least the last two bytes of the body are never passed on; after the next read, whatever it brings, nothing was passed on and, unless the client stopped, they are still at the head of its buffer |
| ChunkedBody.EndIsCounted | lib/exaproxy/reactor/client/http.py:269-286 | an empty line after the body is counted, with either line end; anything else is left to be read as headers |
| ChunkedBody.TransferIsExact | lib/exaproxy/reactor/client/http.py:235-245 | a body of known length, for every cut: exactly its bytes are passed on, as they come, and what follows is kept |
| RedirectorManagement.RedirectorManager.constructor | lib/exaproxy/reactor/redirector/manager.py:21-41 | the pool starts empty, with its limits |
| RedirectorManagement.RedirectorManager.Spawn | lib/exaproxy/reactor/redirector/manager.py:49-63 | a new worker is idle, and polled if it has a child |
| RedirectorManagement.RedirectorManager.SpawnAll | lib/exaproxy/reactor/redirector/manager.py:65-69 | one worker for each requested |
| RedirectorManagement.RedirectorManager.Reap | lib/exaproxy/reactor/redirector/manager.py:95-118 | the worker is forgotten in all five tables and its child no longer polled; an unknown worker changes nothing |
| RedirectorManagement.RedirectorManager.StopWorker | lib/exaproxy/reactor/redirector/manager.py:85-93 | an idle worker is reaped, a busy one marked |
| RedirectorManagement.RedirectorManager.Respawn | lib/exaproxy/reactor/redirector/manager.py:71-78 | all old workers are stopped, in whatever order, before the new ones are started |
| RedirectorManagement.RedirectorManager.KillWorkers | lib/exaproxy/reactor/redirector/manager.py:80-83 | all workers are reaped, in whatever order |
| RedirectorManagement.RedirectorManager.Oldest | lib/exaproxy/reactor/redirector/manager.py:152-162 | none, exactly if no worker in service is older than now; otherwise one than which none in service is older |
| RedirectorManagement.RedirectorManager.Deprovision | lib/exaproxy/reactor/redirector/manager.py:189-200 | without a backlog and above the lower limit, the oldest worker is stopped; otherwise nothing |
| RedirectorManagement.RedirectorManager.Decrease | lib/exaproxy/reactor/redirector/manager.py:120-132 | as often as asked, the worker that is the oldest at that moment is stopped while the pool is above its lower limit |
| RedirectorManagement.RedirectorManager.Increase | lib/exaproxy/reactor/redirector/manager.py:126-136 | as often as asked, a worker is started while the pool is below its upper limit |
| RedirectorManagement.RedirectorManager.Provision | lib/exaproxy/reactor/redirector/manager.py:167-187 | two separate rounds of starting workers add up to the number `ProvisionCount`, computed from one count of workers |
| RedirectorManagement.RedirectorManager.IncreaseSpawnLimit | lib/exaproxy/reactor/redirector/supervisor.py:61-64 | the lower limit rises by the count, the upper one to it if it was below, and the pool grows |
| RedirectorManagement.RedirectorManager.DecreaseSpawnLimit | lib/exaproxy/reactor/redirector/supervisor.py:66-69 | the upper limit falls by the count, to at least one, the lower one to it if it was above, and the oldest workers are stopped |
| RedirectorManagement.RedirectorManager.Acquire | lib/exaproxy/reactor/redirector/manager.py:202-217 | an idle worker that exists, if there is one, is taken; only names of workers that no longer exist are dropped besides |
| RedirectorManagement.RedirectorManager.Release | lib/exaproxy/reactor/redirector/manager.py:219-227 | a stopping worker is reaped, another is idle again, an unknown one stays unknown |
| RedirectorManagement.RedirectorManager.Request | lib/exaproxy/reactor/redirector/manager.py:243-271 | without an idle worker the request is queued, last; a worker that decides answers it and is idle again; one that defers is busy with it; one that fails is gone, and the request is put to the pool once more, or answered if a worker failed it before |
| RedirectorManagement.RedirectorManager.DoQueue | lib/exaproxy/reactor/redirector/manager.py:235-241 | the request queued first is put to the pool in that way, if a worker is idle |
| RedirectorManagement.RedirectorManager.GetDecision | lib/exaproxy/reactor/redirector/manager.py:273-301 | a good answer of a busy worker answers its request and makes it idle, or ends it if it was to stop; a bad one ends the worker and retries the request, or answers it the second time; output of an idle worker ends it |
| RedirectorInvariants.SpawnKeeps | lib/exaproxy/reactor/redirector/manager.py:49-63 | keeps the shape of the pool (idle and busy workers partition it, stopping ones are busy, polled handles match children one to one) and all requests |
| RedirectorInvariants.ReapKeeps | lib/exaproxy/reactor/redirector/manager.py:95-118 | keeps the shape; exactly this worker, and its job, is gone |
| RedirectorInvariants.StopKeeps | lib/exaproxy/reactor/redirector/manager.py:85-93 | keeps the shape and every request; exactly this worker leaves service |
| RedirectorInvariants.AskKeeps | lib/exaproxy/reactor/redirector/manager.py:243-271 | one request more is answered, or held exactly once; no other request is touched; at most two workers are reaped for it, at most one on a retry |
| RedirectorInvariants.DrainKeeps | lib/exaproxy/reactor/redirector/manager.py:235-241 | the same for a request taken from the queue; without a queue or an idle worker nothing happens |
| RedirectorInvariants.HearKeeps | lib/exaproxy/reactor/redirector/manager.py:273-301 | the same for the request a worker was busy with; output of an idle worker loses no request |
| RedirectorOutcomes.AskPlaces | lib/exaproxy/reactor/redirector/manager.py:243-271 | what a request comes to, on the tables of the pool and the workers' verdicts: which worker gets which job, who is gone, where in the queue it is, and whether it is answered |
| RedirectorOutcomes.DrainPlaces | lib/exaproxy/reactor/redirector/manager.py:235-241 | the same for the request queued first |
| RedirectorOutcomes.HearPlaces | lib/exaproxy/reactor/redirector/manager.py:273-301 | the same for the request of the worker that is heard |
| RedirectorOutcomes.DeprovisionStops | lib/exaproxy/reactor/redirector/manager.py:189-200 | an oldest worker in service is stopped if and only if nothing is queued, there are more workers than the lower limit, and one in service is older than now |
| RedirectorOutcomes.DecreaseStops | lib/exaproxy/reactor/redirector/manager.py:120-124 | the same whatever is queued |
| RedirectorOutcomes.ProvisionCountIs | lib/exaproxy/reactor/redirector/manager.py:167-187 | the missing workers, and, if as many requests are queued as there are workers and these are below the upper limit, the largest number that is one or at most the lower limit and a quarter of the difference of the limits, and fits |
| RedirectorOutcomes.IncreaseStarts | lib/exaproxy/reactor/redirector/manager.py:126-136 | as many workers are started as asked for and as fit below the upper limit |
| RedirectorRuns.ProvisionCeiling | lib/exaproxy/reactor/redirector/manager.py:167-187 | at least the missing workers are started, the ceiling is exceeded by at most one, and exactly when the limits are equal, workers are missing and the queue is as long as the pool was |
| RedirectorRuns.CeilingIsExceeded | lib/exaproxy/reactor/redirector/manager.py:167-187 | a run of one operation from an empty pool limited to exactly one worker, after which two are in service |
| RedirectorRuns.RespawnSize | lib/exaproxy/reactor/redirector/manager.py:71-78 | none of the old workers stays in service, as many new ones are as there were, or as the nearer limit allows, and no request is lost |
| RedirectorRuns.LowerSize | lib/exaproxy/reactor/redirector/supervisor.py:66-69 | keeps the size limits when the clock has moved since workers were created |
| RedirectorRuns.LowerSizeExactly | lib/exaproxy/reactor/redirector/supervisor.py:66-69 | at one moment of the clock: keeps the ceiling if and only if enough workers in service are older than that moment |
| RedirectorRuns.LowerNeedsClock | lib/exaproxy/reactor/redirector/manager.py:152-162 | a run of two operations from an empty pool that ends above the ceiling: three workers start, and the limit is lowered to one at the moment of their creation |
| RedirectorRuns.RaiseSize | lib/exaproxy/reactor/redirector/supervisor.py:61-64 | keeps the size limits |
| RedirectorRuns.NextKeeps | lib/exaproxy/reactor/redirector/manager.py:49-301 | every operation keeps the shape, the order of the limits and the account of every request |
| RedirectorRuns.EveryRunKeeps | lib/exaproxy/reactor/redirector/manager.py:49-301 | from an empty pool with 1 <= low <= high, in every reachable state: idle and busy workers partition the pool, stopping ones are busy, polled handles match children, low <= high, and every request is accounted for |
| RedirectorRuns.NextWithinCeiling | lib/exaproxy/reactor/redirector/manager.py:71-200 | every operation keeps at most high workers in service, or high + 1 while the limits are equal; lowering the limit does so when the clock has moved since every worker was created |
| RedirectorRuns.EveryRunWithinCeiling | lib/exaproxy/reactor/redirector/manager.py:71-200 | the ceiling in every state reached by a run in which the limit is only lowered when the clock has moved |
| RedirectorRuns.NoRequestIsLost | lib/exaproxy/reactor/redirector/manager.py:219-301 | in every run without the final kill, each request is held or was answered as often as it was given to the pool, in exactly one place if given once, and at most two workers were reaped for each time |
| RedirectorRuns.OnlyKillDrops | lib/exaproxy/reactor/redirector/manager.py:80-83 | no operation but the final kill drops a request |
| RedirectorRuns.AskSparesBusy | lib/exaproxy/reactor/redirector/manager.py:202-233 | busy workers, stopping ones among them, keep their job: none is given another request |
| RedirectorRuns.StoppingIsReaped | lib/exaproxy/reactor/redirector/manager.py:219-225 | a stopping worker is gone as soon as its child answers, whatever the answer and the retry |
| DnsNames.DnsString | lib/exaproxy/dns/convert.py:22-54 | on any bytes, the loop ends with the bytes read, the labels and the pointer of `ReadLabels` |
| DnsNames.FollowIsReached | lib/exaproxy/dns/convert.py:72-84 | a trail that is not endless is what the program's loop finds after finitely many rounds |
| DnsNames.EndlessIsEndless | lib/exaproxy/dns/convert.py:72-84 | an endless trail is not found after any number of rounds |
| DnsNames.LoopEndsIff | lib/exaproxy/dns/convert.py:72-84 | the loop ends, with the labels found by following pointers, if and only if it meets no circle of bare pointers |
| DnsNames.EndlessIff | lib/exaproxy/dns/convert.py:72-84 | following pointers does not end if and only if the loop reaches, after some number of rounds, a bare pointer from which a path of bare pointers leads back to itself |
| DnsNames.FindCircle | lib/exaproxy/dns/convert.py:72-84 | from an endless trail, such a circle and the number of rounds after which the loop is on it |
| DnsNames.CircleIsFinal | lib/exaproxy/dns/convert.py:72-84 | a loop that reaches such a circle is not finished after any number of rounds |
| DnsNames.BackwardIsFinite | lib/exaproxy/dns/convert.py:72-84 | when bare pointers point before themselves (section 4.1.4 of RFC 1035), reading ends |
| DnsNames.SelfPointerIsEndless | lib/exaproxy/dns/convert.py:72-84 | in any packet, a pointer to itself is such a circle |
| DnsNames.DnsToStringInfo | lib/exaproxy/dns/convert.py:68-86 | whenever it ends: an exception exactly on a broken pointer, no name over the limit, otherwise the joined labels of the whole trail and the bytes read of the first stretch |
| DnsNames.ReadWritten | lib/exaproxy/dns/convert.py:22-54 | written labels, with anything after them, are read to their end if and only if each has 1 to 191 bytes, and then they are the labels written |
| DnsNames.NameRoundTripIff | lib/exaproxy/dns/convert.py:92-97 | a name is read back to the last byte as the same name if and only if its labels have 1 to 191 bytes |
| DnsNames.GoodNameRead | lib/exaproxy/dns/convert.py:68-97 | such a name is read exactly inside any message |
| DnsNames.JoinSplit | lib/exaproxy/dns/convert.py:93-95 | splitting at dots and joining is the identity |
| DnsNames.PartsAreDotless | lib/exaproxy/dns/convert.py:94 | no part holds a dot |
| DnsSpelling.SpelledIsRead | lib/exaproxy/dns/convert.py:22-86 | any name spelled as section 4.1.4 of RFC 1035 says, through any number of pointers, is read as its labels if it has at most 500 bytes, and accounted for up to its first pointer; a name with pointers that is longer by more than their number is refused |
| DnsSpelling.PointerSpells | lib/exaproxy/dns/convert.py:30-33 | labels before a pointer to any offset below 0x4000 spell themselves and then what is spelled there |
| DnsSpelling.WrittenSpells | lib/exaproxy/dns/convert.py:92-97 | what is written for good labels spells them without pointers |
| DnsSpelling.CutNameIsNotRead | lib/exaproxy/dns/convert.py:39-42 | of a written name that is cut short, anywhere, nothing is read |
| DnsSpelling.HalfPointerRaises | lib/exaproxy/dns/convert.py:30-31 | labels before half a pointer raise an exception |
| DnsSpelling.WritableIff | lib/exaproxy/dns/convert.py:92-97 | a name can be written if and only if no part of it has more than 255 bytes |
| DnsSpelling.FinalDotsDoNotCount | lib/exaproxy/dns/convert.py:94 | dots at the end make no difference |
| DnsCodec.ParseConfiguration | lib/exaproxy/dns/dnstype.py:71-101 | succeeds if and only if no two lines share a name or value and all conversions are known; then the table holds exactly the lines and its two directions are inverse |
| DnsCodec.WriteAll | lib/exaproxy/dns/codec.py:195-206 | the accumulating loop appends the encoded records, all and in order, to what was written, or raises |
| DnsCodec.WriteRequest | lib/exaproxy/dns/codec.py:161-170 | writes the message `EncodeRequest` describes, or raises exactly when it gives none |
| DnsCodec.WriteResponse | lib/exaproxy/dns/codec.py:192-208 | the same for a response, queries before resources |
| DnsCodec.ReadRecords | lib/exaproxy/dns/codec.py:107-126 | the loop reads that many records, or none and drops all data when one is refused |
| DnsCodec.ValueRoundTrip | lib/exaproxy/dns/dnstype.py:111-127 | a value its conversion can write is read back |
| DnsCodec.QueriesRoundTrip | lib/exaproxy/dns/codec.py:128-132 | any list of queries over known types and good names, with anything after it, is read back in order |
| DnsCodec.ResourcesRoundTrip | lib/exaproxy/dns/codec.py:134-138 | the same for resource records, with type, time to live and value |
| DnsCodec.RequestRoundTrip | lib/exaproxy/dns/codec.py:144-170 | a request is read back with its identifier and queries; without queries it reads back as no request |
| DnsCodec.ResponseRoundTrip | lib/exaproxy/dns/codec.py:172-208 | a response is read back with its identifier and all four lists in order (section 4.1 of RFC 1035) |
| DnsWire.WireResponseIsDecoded | lib/exaproxy/dns/codec.py:101-190 | every response laid out as section 4.1 of RFC 1035 says, with compressed names anywhere and data that fits its types, is decoded to its identifier and its four lists in order, or to the identifier alone if it was cut short |
| DnsWire.WireRequestIsDecoded | lib/exaproxy/dns/codec.py:144-159 | every request laid out so is decoded to its identifier and queries; a response, or no queries, to none |
| DnsWire.RequestIsLaidOut | lib/exaproxy/dns/codec.py:161-170 | a written request is laid out so: identifier, the flag that asks for recursion and no other, one list, class 1, big-endian numbers, uncompressed names |
| DnsWire.ResponseIsLaidOut | lib/exaproxy/dns/codec.py:192-208 | a written response is laid out so: identifier, the flag of a response and no other, the four lists in order, class 1 |
| DnsWire.BadAddressRaises | lib/exaproxy/dns/convert.py:56-63 | an address of the wrong length raises an exception |
| DnsWire.CutRecordsAreDropped | lib/exaproxy/dns/codec.py:107-126 | a list that ends inside a name is dropped whole, with all data |
| DnsCodec.SelfPointerHangs | lib/exaproxy/dns/codec.py:177-184 | decoding never ends on any response whose first question is a pointer to itself, whatever its header counts and the rest of it |
| DnsCodec.DecodingEnds | lib/exaproxy/dns/codec.py:144-190 | decoding ends on every packet, well-formed or not, whose bare pointers point backwards |
| Pollers.StepAgreesIff | lib/exaproxy/network/async/selectpoll.py:73-123 | from agreement, a call keeps the select list equal to the registered and uncorked sockets if and only if it adds no corked and uncorks no unregistered socket |
| Pollers.CallKeeps | lib/exaproxy/network/async/epoll.py:32-109 | a disciplined call on one of the given events keeps all of them in step |
| Pollers.CallTells | lib/exaproxy/network/async/epoll.py:32-109 | after a disciplined call its socket is watched if it was added or uncorked and not if it was removed or corked, and nothing else changes |
| Pollers.CallOnly | lib/exaproxy/network/async/epoll.py:32-109 | a call for one event leaves all other events as they were |
| Pollers.OthersKeep | lib/exaproxy/network/async/epoll.py:32-109 | calls for other events keep a set of events in step |
| Pollers.EPoller.AddSocket | lib/exaproxy/network/async/epoll.py:32-55 | registers the socket once and watches it |
| Pollers.EPoller.RemoveSocket | lib/exaproxy/network/async/epoll.py:57-72 | forgets the socket, corked or not |
| Pollers.EPoller.CorkSocket | lib/exaproxy/network/async/epoll.py:77-86 | stops watching a registered socket, once; the result says whether anything changed |
| Pollers.EPoller.UncorkSocket | lib/exaproxy/network/async/epoll.py:88-109 | watches a corked socket again; the result says whether anything changed |
| Pollers.SelectPoller.AddSocket | lib/exaproxy/network/async/selectpoll.py:73-77 | appends an absent socket, for adding and for uncorking |
| Pollers.SelectPoller.RemoveSocket | lib/exaproxy/network/async/selectpoll.py:79-83 | removes a listed socket, for removing and for corking |
| ContentManagement.ContentManager.constructor | lib/exaproxy/reactor/content/manager.py:24-33 | no downloads, nothing watched for them; the poller may watch what it likes for others |
| ContentManagement.ContentManager.Connect | lib/exaproxy/reactor/content/manager.py:98-322 | reuses the client's download to the same place, ends one to another place, and opens, refuses or writes as the environment decides |
| ContentManagement.ContentManager.StartDownload | lib/exaproxy/reactor/content/manager.py:325-357 | moves an opening download to the established ones, writes what it has to send, and changes what is polled for it |
| ContentManagement.ContentManager.ReadData | lib/exaproxy/reactor/content/manager.py:362-373 | if the server closed an established download, its socket is in neither table and registered for no event, and its client is forgotten; otherwise nothing changes |
| ContentManagement.ContentManager.SendSocketData | lib/exaproxy/reactor/content/manager.py:375-407 | marks and polls a socket when bytes are left and unmarks it when none are |
| ContentManagement.ContentManager.SendClientData | lib/exaproxy/reactor/content/manager.py:409-456 | the same by client, buffering only while the connection opens |
| ContentManagement.ContentManager.EndClientDownload | lib/exaproxy/reactor/content/manager.py:459-466 | ends the client's download, if any |
| ContentManagement.ContentManager.CorkClientDownload | lib/exaproxy/reactor/content/manager.py:468-471 | corks the client's download, opening or established |
| ContentManagement.ContentManager.UncorkClientDownload | lib/exaproxy/reactor/content/manager.py:473-477 | uncorks it only when established |
| ContentManagement.ContentManager.Terminate | lib/exaproxy/reactor/content/manager.py:479-508 | forgets the download in all tables and polls nothing for it; an unknown socket changes nothing |
| ContentManagement.ContentManager.On | lib/exaproxy/reactor/content/manager.py:98-508 | any operation, by its event, is the step `Downloads.Next` and changes no event of the poller but the three of downloads |
| Downloads.TerminateKeeps | lib/exaproxy/reactor/content/manager.py:479-508 | keeps the invariant; the socket and its client are in no table |
| Downloads.NoteKeeps | lib/exaproxy/reactor/content/manager.py:290-309 | keeps the invariant whatever the outcome of the write |
| Downloads.OpenKeeps | lib/exaproxy/reactor/content/manager.py:280-288 | a new socket for a client without one keeps the invariant |
| Downloads.StartKeeps | lib/exaproxy/reactor/content/manager.py:325-357 | keeps the invariant, so both pollers stay in step through the four calls |
| Downloads.ConnectKeeps | lib/exaproxy/reactor/content/manager.py:98-322 | keeps the invariant on every path, an ended old download included |
| Downloads.SendClientKeeps | lib/exaproxy/reactor/content/manager.py:409-456 | keeps the invariant; the branch for a client whose socket is in neither table is never taken, and no client loses its download |
| Downloads.CorkKeeps | lib/exaproxy/reactor/content/manager.py:468-477 | keeps the invariant: uncorking reaches only registered sockets |
| Downloads.NextKeeps | lib/exaproxy/reactor/content/manager.py:98-508 | every operation keeps the invariant |
| Downloads.EveryRunKeeps | lib/exaproxy/reactor/content/manager.py:98-508 | for the events of this manager alone: in every reachable state opening and established downloads are disjoint and match the clients one to one, registrations match them exactly, and the select poller's lists equal the epoll poller's watched sets |
| Downloads.NextOnly | lib/exaproxy/reactor/content/manager.py:98-508 | every operation leaves the poller's other events as they were |
| Downloads.ClosedIsUnwatched | lib/exaproxy/reactor/content/manager.py:484-502 | the socket of an ended download is registered for no event |
| Downloads.StartPollsIff | lib/exaproxy/reactor/content/manager.py:332-352 | what the first write on a new connection leaves unsent is polled for if and only if data had been buffered for the socket before, or nothing is left |
| Downloads.NextCoversIff | lib/exaproxy/reactor/content/manager.py:290-454 | from a state in which all unsent bytes of established connections are polled for, an operation keeps it so if and only if it is neither such a first write nor a write that fails with bytes left |
| Downloads.EveryRunCovers | lib/exaproxy/reactor/content/manager.py:98-508 | in every state reached without such operations, all unsent bytes of established connections are polled for |
| Downloads.FirstWriteIsStranded | lib/exaproxy/reactor/content/manager.py:332-352 | a run of two operations from the start after which an established connection has unsent bytes and is not polled for writing |
| DownloadLives.NextIsAlone | lib/exaproxy/reactor/content/manager.py:98-508 | every operation does to each client's download what a description of one download alone says: where it leads, whether it is open, for what its socket is watched, whether it is marked and has bytes left |
| DownloadLives.EveryRunIsAlone | lib/exaproxy/reactor/content/manager.py:98-508 | after any operations from the start, every client's download is what they make of it alone |
| ClientManagement.ClientManager.constructor | lib/exaproxy/reactor/client/manager.py:18-38 | no clients, nothing watched for them; the poller may watch what it likes for others |
| ClientManagement.ClientManager.Connection | lib/exaproxy/reactor/client/manager.py:59-96 | the client is named, waits for its first request and is polled for it |
| ClientManagement.ClientManager.PassthroughConnection | lib/exaproxy/reactor/client/manager.py:98-111 | the client is named and read at once |
| ClientManagement.ClientManager.ReadRequest | lib/exaproxy/reactor/client/manager.py:113-142 | a first request moves the client and corks its socket; a closed connection is cleaned up |
| ClientManagement.ClientManager.ReadData | lib/exaproxy/reactor/client/manager.py:145-165 | more data corks the socket; a closed connection is cleaned up |
| ClientManagement.ClientManager.SendData | lib/exaproxy/reactor/client/manager.py:167-211 | marks and polls a client that reports data to send, unmarks it when flushed, and cleans up a finished one |
| ClientManagement.ClientManager.StartData | lib/exaproxy/reactor/client/manager.py:232-285 | without content does nothing; otherwise reads the client again and sends its answer, or cleans it up; raises exactly when it removes a mark that is not there |
| ClientManagement.ClientManager.CorkUpload | lib/exaproxy/reactor/client/manager.py:288-294 | corks the socket of a client that sent a request |
| ClientManagement.ClientManager.UncorkUpload | lib/exaproxy/reactor/client/manager.py:292-294 | uncorks it, if it still is a client that sent a request |
| ClientManagement.ClientManager.Cleanup | lib/exaproxy/reactor/client/manager.py:296-315 | forgets the client in all tables and polls nothing for its socket |
| ClientManagement.ClientManager.Expire | lib/exaproxy/reactor/client/manager.py:49-57 | a client that has not sent a request is cleaned up; another socket is left alone |
| ClientManagement.ClientManager.On | lib/exaproxy/reactor/client/manager.py:49-315 | any operation, by its event, is the step `Clients.Next` and changes no event of the poller but the three of clients |
| Clients.AcceptKeeps | lib/exaproxy/reactor/client/manager.py:59-96 | a new client keeps the invariant |
| Clients.ReadRequestKeeps | lib/exaproxy/reactor/client/manager.py:113-142 | keeps the invariant: no socket is added while corked |
| Clients.SendDataKeeps | lib/exaproxy/reactor/client/manager.py:167-211 | keeps the invariant |
| Clients.StartDataKeeps | lib/exaproxy/reactor/client/manager.py:232-285 | keeps the invariant on every path |
| Clients.CleanupKeeps | lib/exaproxy/reactor/client/manager.py:296-315 | keeps the invariant; the name is gone and the socket registered for no event |
| Clients.NextKeeps | lib/exaproxy/reactor/client/manager.py:49-315 | every operation keeps the invariant |
| Clients.EveryRunKeeps | lib/exaproxy/reactor/client/manager.py:49-315 | for the events of this manager alone: in every reachable state clients with and without a request are disjoint, names match sockets one to one, registrations match the two tables exactly, and both pollers watch the same sockets |
| Clients.NextOnly | lib/exaproxy/reactor/client/manager.py:49-315 | every operation leaves the poller's other events as they were |
| Clients.NextSingleIff | lib/exaproxy/reactor/client/manager.py:187-315 | from a list of marked sockets that names those polled for writing once each, every operation keeps it so if and only if it is no `startData` that marks a socket already marked |
| Clients.DoubleGoesStale | lib/exaproxy/reactor/client/manager.py:275-315 | after any such double mark, cleaning the client up leaves its closed socket in the list; `ClientStreams.MarkGoesStale` reaches this from the start |
| ClientLives.NextIsAlone | lib/exaproxy/reactor/client/manager.py:49-315 | every operation does to each client what a description of one client alone says: its name, whether it sent a request, for what its socket is watched, how often it is marked |
| ClientLives.EveryRunIsAlone | lib/exaproxy/reactor/client/manager.py:49-315 | after any operations from the start, every client is what they make of it alone |
| Managers.NextKeeps | lib/exaproxy/supervisor.py:78-103 | with both managers on one poller, every operation of either keeps what both rely on |
| Managers.EveryRunKeeps | lib/exaproxy/supervisor.py:78-103 | for every sequence of operations of the two managers, in any order: in every reachable state the tables and registrations of both match, no socket belongs to both, and epoll and select would watch the same sockets for all six events |
| Managers.WatchedIsKept | lib/exaproxy/supervisor.py:88-96 | every socket watched for one of the six events is in a table of one of the managers |
| Supervision.SharedPoller | lib/exaproxy/supervisor.py:78-96 | one poller with the events of both managers, nothing watched |
| Supervision.Supervisor.constructor | lib/exaproxy/supervisor.py:78-103 | both managers are valid on the one poller |
| Supervision.Supervisor.OnContent | lib/exaproxy/supervisor.py:102-103 | any operation of the content manager leaves both managers valid and is the joint step |
| Supervision.Supervisor.OnClient | lib/exaproxy/supervisor.py:102-103 | any operation of the client manager leaves both managers valid and is the joint step |
| ClientStreams.BeginIsBusy | lib/exaproxy/reactor/client/http.py:398-423 | for the three kinds of clients and all commands: what is left in the writer, and exactly when the report of `startData` says so |
| ClientStreams.BeginHolds | lib/exaproxy/reactor/client/http.py:398-423 | what an answer leaves in the writer: pending and new bytes in order, less what the socket took at once, which is tried only if nothing was pending or nothing is new; a file whole |
| ClientStreams.BeginRaisesIff | lib/exaproxy/reactor/client/http.py:325-336 | an exception if and only if an HTTP client cannot read the file; every later send then raises too |
| ClientStreams.FileReport | lib/exaproxy/reactor/client/icap.py:342-348 | a local file is reported as new data to send, whatever was pending |
| ClientStreams.NextKeeps | lib/exaproxy/reactor/client/manager.py:49-315 | with every client's writer: the clients' invariant is kept, and only clients that were answered are polled for writing |
| ClientStreams.NextTendsIff | lib/exaproxy/reactor/client/icap.py:414-438 | from a state in which every client with unsent bytes, or told to close, is polled for writing, an operation keeps it so if and only if it is not a complete answer that the HTTP client sent at once or of which another client has bytes left |
| ClientStreams.NextSingleIff | lib/exaproxy/reactor/client/manager.py:275-283 | marks stay single if and only if no answer reported as new data goes to a marked client, with the report computed from the writer |
| ClientStreams.StartDoesNotRaise | lib/exaproxy/reactor/client/manager.py:280-283 | in such a state the removal of an absent mark cannot happen |
| ClientStreams.EveryRunTends | lib/exaproxy/reactor/client/manager.py:167-285 | in every state reached without such answers, clients with unsent bytes or told to close are polled for writing and marked once |
| ClientStreams.CloseIsForgotten | lib/exaproxy/reactor/client/http.py:407-410 | a run from the start after which an HTTP client was told to close, has nothing left to send, and is neither closed nor polled for writing |
| ClientStreams.CloseIsStranded | lib/exaproxy/reactor/client/tls.py:255-257 | a run from the start after which another client has unsent bytes and is not polled for writing |
| ClientStreams.MarkGoesStale | lib/exaproxy/reactor/client/manager.py:275-315 | a run of six operations from the start, with two requests each answered by a file, after which a closed socket is in the list of marked sockets |
| ResolverManagement.ResolverManager.StartResolving | lib/exaproxy/reactor/resolver/manager.py:153-191 | answers from the cache, refuses, or records the query in all three tables |
| ResolverManagement.ResolverManager.GetResponse | lib/exaproxy/reactor/resolver/manager.py:241-334 | answers and forgets the client, follows a chain, or does nothing for a reply nobody waits for; only an address found is cached |
| ResolverManagement.ResolverManager.Expire | lib/exaproxy/reactor/resolver/manager.py:93-118 | one entry that is due: sent again under its identifier for the original name, or given up |
| ResolverManagement.ResolverManager.Cleanup | lib/exaproxy/reactor/resolver/manager.py:83-121 | walking along the list it appends to, it deals with exactly the entries due, oldest first, and ends with the others and the ones sent again |
| ResolverManagement.ResolverManager.CacheDestination | lib/exaproxy/reactor/resolver/manager.py:55-68 | an absent host joins the last bucket or opens a later one; raises exactly when the first bucket would have a negative time |
| ResolverManagement.ResolverManager.ExpireCache | lib/exaproxy/reactor/resolver/manager.py:70-80 | at most the oldest bucket leaves, with all its hosts |
| Resolver.StartKeeps | lib/exaproxy/reactor/resolver/manager.py:153-191 | keeps clients, queries and the time-ordered list in one-to-one correspondence |
| Resolver.ReceiveKeeps | lib/exaproxy/reactor/resolver/manager.py:241-334 | the same, for every reply, follow-ups included |
| Resolver.ExpireAllKeeps | lib/exaproxy/reactor/resolver/manager.py:88-121 | the same for any number of entries due; every client was told something or still waits, and not both |
| Resolver.CleanupKeeps | lib/exaproxy/reactor/resolver/manager.py:83-121 | afterwards nothing older than the timeout is waiting, and each client was told or still waits |
| Resolver.StrayReplyIgnored | lib/exaproxy/reactor/resolver/manager.py:241-334 | a late, repeated or made-up reply answers nobody and changes none of the tables |
| Resolver.AnsweredOnce | lib/exaproxy/reactor/resolver/manager.py:241-334 | after an answer the client waits no more and later replies with the identifier answer nobody |
| Resolver.PotentialBounds | lib/exaproxy/reactor/resolver/worker.py:102-135 | what a lookup may still cost is between zero and eleven times the attempts, less one |
| Resolver.ReplyProgressIff | lib/exaproxy/reactor/resolver/manager.py:251-287 | a reply that leaves its client waiting lowers that cost if and only if it does not name another host |
| Resolver.ExpireAllOnce | lib/exaproxy/reactor/resolver/manager.py:97-113 | one cleanup leaves a client alone, answers it, or makes exactly one more attempt for it |
| ResolverRuns.EveryRunKeeps | lib/exaproxy/reactor/resolver/manager.py:83-334 | in every reachable state the three tables are in step, and the lookups started are exactly those answered, once each, and those waiting |
| ResolverRuns.NextProgress | lib/exaproxy/reactor/resolver/manager.py:97-287 | every retry or follow-up of a waiting client lowers its cost and nothing raises it, but for mismatched replies to its own query |
| ResolverRuns.PotentialPays | lib/exaproxy/reactor/resolver/manager.py:97-287 | over any run through which a client waits, its cost and an allowance for each mismatch of its own pay for all that concerns it |
| ResolverRuns.EveryLookupIsBounded | lib/exaproxy/reactor/resolver/worker.py:102-135 | in any run through which a client waits, whatever the replies, fewer timeouts, follow-ups and mismatches concern it than eleven times the attempts, once and once more for each mismatched reply to its own queries |
| ResolverRuns.MismatchesNeverEnd | lib/exaproxy/reactor/resolver/manager.py:187-287 | for every n, a run from the start in which a client waits through n mismatched replies, each of which concerns it |
| ResolverLookups.NextIsAlone | lib/exaproxy/reactor/resolver/manager.py:83-334 | every operation tells each client, and lets it wait for, what a description of one lookup alone says: cache, refusals, follow-ups, mismatches, addresses, retries and giving up |
| ResolverLookups.ChainIsAnswered | lib/exaproxy/reactor/resolver/manager.py:241-334 | a client whose queries lead over at most ten names is answered by the reply to the last query for the last name: with its address, or that there is none; whatever others do meanwhile |
| ResolverLookups.SplitParts | lib/exaproxy/reactor/resolver/manager.py:173-176 | a name is refused as too long if and only if 256 bytes in a row hold no dot |
| ResolverCache.InsertKeeps | lib/exaproxy/reactor/resolver/manager.py:55-68 | each host stays in exactly one place of one bucket, bucket times strictly increase, and the new host keeps its lifetime to within five seconds |
| ResolverCache.InsertedIn | lib/exaproxy/reactor/resolver/manager.py:55-68 | a new host is found with its address, in the last bucket, due at most five seconds before the end of its lifetime and not after it, unless a later bucket was last |
| ResolverCache.ExpireKeeps | lib/exaproxy/reactor/resolver/manager.py:70-80 | the same for the rest of the cache |
| ResolverCache.WhyExpired | lib/exaproxy/reactor/resolver/manager.py:70-80 | a host leaves only with its whole bucket: for size, or less than five seconds before its lifetime is over |
| ResolverCache.ExpiredIff | lib/exaproxy/reactor/resolver/manager.py:70-80 | a host leaves if and only if it is in the oldest bucket and this is due or more than 20480 hosts are cached; all others keep their addresses |
| ResolverCache.EveryRunKeeps | lib/exaproxy/reactor/resolver/manager.py:55-80 | all of this in every reachable state |
| Writers.ClientWriter.WriteData | lib/exaproxy/reactor/client/http.py:346-393 | one turn of the coroutine: what it sends, keeps and reports, for data, closing and every outcome of the socket, up to the exception after it ran out |
| Writers.ServerWriter.WriteData | lib/exaproxy/reactor/content/worker.py:71-96 | sends as much as the socket takes, keeps the rest in front of later data, and reports what is left; an error keeps every byte |
| Writers.ServerWriter.BufferData | lib/exaproxy/reactor/content/worker.py:98-101 | appends without sending |
| Writers.WriteIsExact | lib/exaproxy/reactor/client/http.py:346-393 | one turn loses, repeats and reorders nothing, and ends the stream cleanly exactly when told to close and nothing is left |
| Writers.WriteSends | lib/exaproxy/reactor/client/http.py:346-393 | when the socket is tried, how much is sent, when the connection is to be closed, and what is reported otherwise |
| Writers.OverRunsOut | lib/exaproxy/reactor/client/http.py:380-396 | a writer that is over asks once more to be closed and then raises |
| Writers.FlushesAll | lib/exaproxy/reactor/client/manager.py:167-211 | given nothing more whenever the socket is ready, everything pending is sent once the socket took as much; a writer told to close then asks for it |
| Writers.PushSends | lib/exaproxy/reactor/content/worker.py:71-96 | the server's socket is always tried and takes what it can |
| Writers.ClientStreamIsExact | lib/exaproxy/reactor/client/http.py:320-396 | under any mix of partial sends, blocking and requests to close: accepted bytes are the sent bytes followed by the buffer, and a writer that ends without a socket error was told to close and sent everything |
| Writers.ServerStreamIsExact | lib/exaproxy/reactor/content/worker.py:71-101 | the same order for the stream to a server |
| Writers.IcapFileInOrderIff | lib/exaproxy/reactor/client/icap.py:342-357 | a local file is sent after the pending bytes, for every header and file, if and only if nothing was pending |
| Writers.IcapHeaderInOrderIff | lib/exaproxy/reactor/client/icap.py:342-357 | of given pending bytes, header and file the order is kept if and only if pending bytes and header are repetitions of one string |
| Writers.IcapFileOutOfOrder | lib/exaproxy/reactor/client/icap.py:353-353 | a response of which the new header is sent before the rest of the old one |
| Framing.WrittenIsParsed | lib/exaproxy/util/messagebox.py:34 | digits are read as n if and only if they are a decimal numeral of n |
| Framing.DecimalWrites | lib/exaproxy/util/messagebox.py:94-96 | the written length is the shortest numeral |
| Framing.DecimalRoundTrip | lib/exaproxy/util/messagebox.py:34 | the written length is read back |
| Framing.ColonEndsLength | lib/exaproxy/util/messagebox.py:27-28 | the first colon of a stream ends the length, whatever the payload holds |
| Framing.FrameIsUnambiguous | lib/exaproxy/util/messagebox.py:94-96 | two streams that start with frames are equal only if the payloads and the rests are |
| Framing.DigitsAreShort | lib/exaproxy/util/messagebox.py:13-24 | while only digits were read, unless the stream ends there, the next byte is there |
| Framing.LengthIsComplete | lib/exaproxy/util/messagebox.py:26-40 | otherwise the digits end inside what was read, at most one byte beyond the colon was read, and the length is taken exactly when a colon ends the digits |
| Framing.FrameIsRead | lib/exaproxy/util/messagebox.py:94-96 | a frame, with anything after it, is read as its payload |
| Framing.ReadIsFrame | lib/exaproxy/util/messagebox.py:26-59 | what is read as a message is a frame, but for leading zeros in its length |
| Framing.EndlessIff | lib/exaproxy/util/messagebox.py:19-48 | the program waits for ever exactly on a stream that more bytes could complete to a message |
| Framing.ReadMessage | lib/exaproxy/util/messagebox.py:10-59 | on any stream on which it does not read for ever, whatever the sizes of the pieces read: a frame gives its payload and leaves the pipe exactly at its end, anything else gives no message |
| Framing.ReadMessages | lib/exaproxy/util/messagebox.py:10-59 | any sequence of messages is read back exactly, in order |
| Framing.Pipe.Put | lib/exaproxy/util/messagebox.py:94-100 | a frame is appended to the pipe |
| Tls.ParseHello | lib/exaproxy/tls/decode.py:25-120 | on any bytes, ends with the name, no name, or an exception, as `Parse` says |
| Tls.ScanExtensions | lib/exaproxy/tls/decode.py:97-116 | both scanning loops end, and find the first server_name extension and in it the first host name |
| Tls.ExtensionsAreRead | lib/exaproxy/tls/decode.py:97-116 | in any list of extensions, the first host_name entry of the first server_name extension is found |
| Tls.FixedPartIsSkipped | lib/exaproxy/tls/decode.py:59-83 | session, ciphers and compressions of any length are skipped exactly, with or without an extensions block after them |
| Tls.RecordIsCutLate | lib/exaproxy/tls/decode.py:55-57 | five bytes after the hello are taken for a part of it |
| Tls.HelloIsParsedIff | lib/exaproxy/tls/decode.py:25-120 | for every well-formed ClientHello, with or without extensions (section 7.4.1.2 of RFC 5246, section 3 of RFC 6066), and any bytes after it, the result is the name a server would see if and only if there is an extensions block or the bytes after it do no harm; otherwise an exception |
| Tls.HelloAloneIsParsed | lib/exaproxy/tls/decode.py:85-90 | a packet that holds exactly one record, as the TLS client passes it on, gives exactly the name a server would see |
| Tls.NextRecordRaises | lib/exaproxy/tls/decode.py:55-57 | any hello without extensions followed by the header of another record raises an exception |
| Tls.OthersHaveNoName | lib/exaproxy/tls/decode.py:25-62 | a packet that does not begin as a handshake record of version 3 with a ClientHello holds no name |
| TimeCaches.TimeCache.SetItem | lib/exaproxy/util/cache.py:20-23 | the key is set, and timed at the end of the order unless it was timed before |
| TimeCaches.TimeCache.Pop | lib/exaproxy/util/cache.py:25-36 | key and time are removed; a held-back entry stays |
| TimeCaches.TimeCache.ExpiredKeys | lib/exaproxy/util/cache.py:38-57 | consumed to its end: the keys yielded and what is kept, the held-back entry first |
| TimeCaches.TimeCache.SweepKeys | lib/exaproxy/util/cache.py:50-57 | the loop over the ordered times |
| TimeCaches.ExpiredRefines | lib/exaproxy/util/cache.py:38-57 | exactly the due keys of the plain list of live, unexpired keys are yielded, oldest first and within the limit, and leave the list, despite the held-back entry |
| TimeCaches.ZeroIsUnlimitedIff | lib/exaproxy/util/cache.py:41-50 | with a limit of zero something is yielded if and only if the held-back entry is due, and then all due keys are |
| TimeCaches.InsertAppendsIff | lib/exaproxy/util/cache.py:20-23 | a key that is not set joins the end of the list if and only if no older entry of it is held back |
| TimeCaches.TouchKeepsPlace | lib/exaproxy/util/cache.py:20-23 | a key set again gets a new time in its old place; a new one goes last |
| TimeCaches.NothingIsTimed | lib/exaproxy/util/cache.py:20-57 | without a timeout nothing is timed or handed out |
| TimeCaches.HeldBackKeyReused | lib/exaproxy/util/cache.py:41-47 | a run in which such a key is yielded two units after it was set, with a timeout of ten |
| TimeCaches.RemoveRefines | lib/exaproxy/util/cache.py:25-36 | removing a key removes it from the list and nothing else |
| TimeCaches.EveryRunKeeps | lib/exaproxy/util/cache.py:14-57 | from an empty cache, for fresh keys and a clock that does not go back: keys are yielded in the order they were set, at most once, not before the timeout, and no key still set is forgotten |
| TimeCaches.NothingDueIsLeft | lib/exaproxy/util/cache.py:38-57 | in every state reached from an empty cache, when fewer keys than the limit are yielded, no live key that is due is left |

## Left out

- Sockets, `poll()`, child processes, pipes, threads, signals and the clock are arguments of the operations; each
  operation is given one reading of the clock.
- Framing.ReadMessage: a stream that ends inside a message, on which the program reads nothing for ever (exactly as
  `Framing.EndlessIff` says), is excluded; where the pipe is left after something else than a message is not stated.
- DnsCodec.ParseConfiguration: starts from the three words of each line; comments, blanks and numbers are not parsed.
- DnsCodec.DecodeResponse: the `names` dictionary that the calls share is written but never read by the program, and
  is not part of the model; textual IP addresses are represented by the bytes they stand for.
- ResolverManagement.ResolverManager.GetResponse: only UDP and complete replies; what the worker finds in a reply (an
  address, or the name to look up next among CNAME and AAAA records) is an argument, the limit on chains is modelled;
  a clock reading before the epoch is excluded.
- ResolverManagement.ResolverManager.Cleanup: a timeout that is not positive is excluded; the program would then go on
  along the entries it appends until every query is given up.
- Resolver.ReceiveKeeps: identifiers are never reused; the wraparound of `next_identifier`, like that of `_getid`, is
  not modelled.
- ClientManagement.ClientManager.StartData: what the client's writer reports is an argument here; `ClientStreams.Begin`
  computes it. A malformed command is missing content.
- ClientStreams.EveryRunTends: a client's coroutine begins with its first answer; before that nothing is sent to it.
  When requests arrive and which answers are given is not restricted.
- Managers.EveryRunKeeps: the poller's other users, the redirector, the resolver and the listening servers, have events
  of their own, which are not modelled; nor is a descriptor that the system reuses while it is in a table.
- ContentManagement.ContentManager.StartDownload: whether bytes are left is a ghost field of the manager; the buffers
  themselves are in `Writers.dfy`.
- ContentManagement.ContentManager.Connect: the deny list, local addresses and connecting are one argument with four
  outcomes; the bytes written to the server are in `Writers.dfy`.
- DnsWire.WireResponseIsDecoded: for data that does not fit its type, an empty name where none is allowed, and lists that
  end early, see the members beside it; trailing bytes after the last list are ignored by the program and here.
- RedirectorManagement.RedirectorManager.Request: what the child does with a request is one of three verdicts; the
  text of requests and answers is not modelled, and a busy worker keeps the request only.
- `RedirectorManager.stop`, which changes the table of workers while it iterates over it.
- ChunkedBody.WellFormedBody: trailer headers after the last chunk are not part of a body here.
- The HTTP mode for extra headers, ICAP header detection, request parsing, and `checkRequest`.
- DNS over TCP, with its table of requests being sent.
- Pollers.EPoller.AddSocket: a registration that fails, with the `errors` table, is not modelled; nor is `fdtosock`,
  which finds the socket of a descriptor: a socket is represented by its descriptor.
- Pollers.EPoller.RemoveSocket: leaves out the `errors` and `fdtosock` tables.
- Pollers.EPoller.UncorkSocket: leaves out a registration that fails.
- The kqueue poller, and the clear and poll methods of the pollers.
- Writers.ClientWriter.WriteData: the main loop of the coroutine; the exchanges before it, which choose between file and
  stream, are part of `ClientStreams.Begin`, and reading a local file is its contents or its failure.
- Tls.HelloIsParsedIff: says nothing about hellos that are cut short; `Parse` says for which of them the program raises.
- TimeCaches.TimeCache.ExpiredKeys: the generator runs to its end with no other call between two keys; its one user,
  `ClientManager.expire`, meanwhile removes only the key it was just given.
- Bit meanings of the DNS header other than response, truncation and the counts.
- Web pages, monitoring, logging, configuration, daemon handling and profiling.
