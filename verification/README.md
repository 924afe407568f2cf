# hwpc-sensor: a verified model

This project models the parts of the sensor in which something can silently go wrong: the reader
of the perf ring buffer and the string buffer it fills, the retry logic of the socket store, the
CSV store, the monitoring tick with its counters and containers, the reconciliation of
containers and actors, the detection of CPU packages, the cgroup path grammars and the two
configuration front ends. `dafny verify dfyconfig.toml` checks everything.

Code that changes state is modelled by classes, arrays and loops, each method proved against a
function of the old state; what the source promises is proved about those functions. Protocols
between concurrent parties are state machines whose theorems quantify over every run.

How the outside world appears:

- System calls, allocations and library calls that can fail have an arbitrary outcome: a
  nondeterministic choice, a parameter, or an oracle that numbers the calls.
- A hash table is a map. Where the code only iterates over it, it is the list of its entries, in
  any order. An insertion under a key that is already there changes nothing.
- Symbol lookup is an arbitrary partial function from addresses to names.
- The head and the tail of the ring are read and written atomically; integers that only grow
  (head, tail, capacities, the clock) are unbounded.
- A write of a line to a CSV file either leaves the whole line or nothing, and flushing the file,
  whose result the code ignores, is absent.

| file | models |
|---|---|
| Text | separated fields, numbers in decimal and hexadecimal, C strings |
| StrBuffer | the doubling string buffer (src/util.c) |
| Callchain, Records | the text of a report and the layout of sample records |
| PerfRing | the ring reader, the plain reader, and in-place reassembly |
| RingProtocol, RingCalls | producer and reader interleaved byte by byte, and what a whole call achieves |
| SocketStore | reconnection with backoff, the send loop, descriptors |
| Payloads, CsvLine, CsvStore | payloads, CSV lines, the store |
| CsvFiles, CsvHeaders, CsvRows, CsvColumns | what its files hold: their shape, when headers are written, which rows are added, what every column shows |
| Sampling, Populate, Counters | one tick: set-up, reading, containers, where counts go |
| Handoff, ReportOrder | tick to payload to report, and the order of the reports of a target |
| Reconcile, Targets | actors and containers, cgroup paths |
| Topology | CPU packages |
| Config, ConfigDocument | events groups from options and from JSON |

Findings worth knowing:

- `MAX_DURATION_CONNECTION_RETRY` is documented as the longest delay (src/storage_socket.h:52-55)
  but is a threshold tested before doubling. The delay stays within it, whatever jitter is drawn,
  exactly as long as at most seven attempts in a row have failed
  (`SocketStore.DocumentedMaximum`); the longest delay is 3607 seconds, and it is reached
  (`SocketStore.MaximumIsReached`).
- The comment of `strapp` suggests checking that the size changed to detect a failed resize
  (src/util.c:73). That is right exactly for non-empty arguments (`StrBuffers.SizeCheck`).
- `write_header` outlives a group without CPUs (src/storage_csv.c:242-276). In the function taken
  alone, such a new group gives the next group that has CPUs a second header in the middle of its
  file (`CsvHeaders.EmptyGroupBreaksFile`); `CsvHeaders.ValidExactly` and
  `CsvFiles.ReportKeepsFiles` say exactly when a report does that. The sensor never sends such a
  report: all groups of a payload share the packages of the machine (`Sampling.PayloadsDoNotLeak`),
  and package detection never produces a package without CPUs (`Topology.DetectionPartitions`).
- A group whose header could not be written stays without rows exactly until a report carries
  `write_header` into it and writes the header; until then every report with a CPU of the group
  fails (`CsvHeaders.HeaderlessGroupIsStuck`). With reports as the sensor sends them that never
  happens (`CsvHeaders.StuckForGood`), and one failed write is enough to get there
  (`CsvHeaders.HeaderCanFail`).
- An actor that stops by itself stays in the table, so its container is not monitored although it
  is listed; that is so exactly until a discovery misses the container (`Reconcile.DeadExactly`,
  with a run in `Reconcile.StoppedActorStays`).
- When a container goes away and comes back, the reports of its two actors can overtake each other
  (`ReportOrder.SuccessorOvertakes`); `ReportOrder.OrderIsSafety` says exactly when they cannot.
- What counts between the read of a CPU and the reset after it is in no payload
  (`Counters.GapsLose`), and a read that fails loses what the CPUs read before it in that tick had
  counted (`Counters.FailuresLose`); nothing else is lost (`Counters.CountsAreConserved`).
- The bit test on the type of a directory entry (src/hwinfo.c:174) lets more than symbolic links
  pass, and never an entry of unknown type (`Topology.TypesListed`).
- The value filed under an event is that of the first event with its name
  (`Sampling.ValueUnderItsEvent`).
- A report splits back into its frames exactly when none of the names in it contains ';' or '|'
  (`Callchains.ReportIsReadable`); otherwise different samples can print alike
  (`Callchains.SeparatorsConfuse`).

## Model

| member | source | states |
|---|---|---|
| Text.SplitJoin | src/storage_csv.c:215-227 | Joined fields split back when no field holds the separator. |
| Text.UncloseClosed | src/perf.c:532-553 | Fields that are each closed by a separator read back when none of them holds it. |
| Text.UncloseIsClosed | src/perf.c:532-553 | What reads back as fields is those fields closed by the separator, and none of them holds it. |
| Text.ReadPrint | src/perf.c:543 | A number printed in decimal or hexadecimal reads back. |
| Text.PrintDigits | src/perf.c:543 | It has the digits of its base only, in lower case, and no leading zero. |
| StrBuffers.CapacityLaw | src/util.c:60-81 | After any calls, refused resizes included: the text and its NUL fit, the capacity is the initial one doubled some number of times and at most twice the text plus one, and all resizes together copy no more than the capacity gained. |
| StrBuffers.TextLaw | src/util.c:60-81 | After any calls the text is exactly the arguments whose resize was not refused, in order. |
| StrBuffers.GrantedLaw | src/util.c:60-81 | When no resize is refused, every argument is there. |
| StrBuffers.SizeCheck | src/util.c:73 | An unchanged size means a refused append exactly when the argument is not empty. |
| StrBuffers.StrBuffer.New | src/util.c:38-58 | No buffer exactly for size zero or a failed allocation; otherwise an empty, NUL-terminated one. |
| StrBuffers.StrBuffer.NewSize | src/util.c:65-67 | The doubling loop finds the first doubled capacity that exceeds what is needed. |
| StrBuffers.StrBuffer.Append | src/util.c:60-81 | The buffer in place stays what its history of calls makes of it; a refused resize leaves it alone. |
| StrBuffers.StrBuffer.FreeWrap | src/util.c:83-90 | The storage handed out is, as a C string, the text. |
| Callchains.AddressFits | src/perf.c:529-530 | A printed address with its separator always fits the 20-byte buffer. |
| Callchains.SamplesText | src/perf.c:522-554 | The pieces appended for any samples spell their report; nothing is truncated. |
| Callchains.ReportConcat | src/perf.c:575-602 | The report of two lists of samples in a row is their two reports in a row. |
| Callchains.ReportIsReadable | src/perf.c:522-554 | A report splits back into the frames of each reported sample if and only if no name printed in it contains a separator. |
| Callchains.ReportShowsFrames | src/perf.c:532-551 | Frame j of reported sample i reads back as the name that the lookup itself gives to address j of that sample, or as that address in hexadecimal when it has no name, if no name holds a separator. |
| Callchains.SampleShowsFrames | src/perf.c:522-554 | The same for what is appended for one sample; nothing is appended for more than 50 addresses. |
| Callchains.ReportedAreShort | src/perf.c:524-527 | The samples reported are exactly those with at most 50 addresses, in order. |
| Callchains.ReportRoundTrip | src/perf.c:547-553 | Without symbols a report reads back to the exact addresses of every sample with at most 50 frames. |
| Callchains.SeparatorsConfuse | src/perf.c:535-541 | A concrete symbol with a separator with which one frame and two frames print alike. |
| Records.Fields | src/perf.c:516-520 | The type, misc bits, size, count and addresses of an encoded sample record read back from its bytes. |
| Records.StreamAt | src/perf.c:575-601 | Each record occupies the bytes of the stream right after those of the records before it. |
| PerfRing.SlotIsMod | src/perf.c:577 | Counting whole laps gives the remainder that the code computes. |
| PerfRing.Reassembly | src/perf.c:577-593 | The two-part copy from any tail reads the linear stream, wherever the wrap falls. |
| PerfRing.Ring.ReadHeader | src/perf.c:577-583 | Both header copies are in bounds and give the 8 bytes of the stream at the tail, even when the header straddles the end. |
| PerfRing.Ring.FindSample | src/perf.c:585-593 | The sample found, in place or copied, is the bytes of the stream at the tail. |
| PerfRing.AppendSymbolsFromSample | src/perf.c:522-554 | Exactly the pieces of the sample are appended; a chain of more than 50 frames appends nothing and none of its addresses is read. |
| PerfRing.Ring.RenderRecord | src/perf.c:576-599 | The record at the tail is rebuilt and rendered; the ring does not change. |
| PerfRing.Ring.GetCallchains | src/perf.c:556-606 | NULL leaves the ring alone; otherwise the tail reaches the head, and the string is what the buffer kept of the pieces of all unread records, in order, which is their whole report when every resize is granted; that report then shows, frame by frame, the name that the lookup gives to each address of each record, or the address. |
| PerfRing.Ring.PlainRead | testing/sample_callchain.c:124-136 | When no unread record straddles the end, the plain reader visits the same records and leaves the same tail. |
| PerfRing.Ring.Produce | src/perf.c:558-559 | The kernel's side that the reader relies on: a record written past the head, within the free space, becomes the last unread one. |
| RingProtocol.ReachableInv | src/perf.c:556-606 | The invariant of ring, producer, reader and appended text holds after every run, whatever allocations and resizes are refused. |
| RingProtocol.DeliveredIsReport | src/perf.c:556-606 | In every interleaving, what the calls appended to their string buffers is, end to end, exactly the pieces of the records before the tail; and when no resize was refused the strings returned are their report. |
| RingProtocol.UnreadBytesStay | src/perf.c:601 | No step changes a published byte before the tail passes it. |
| RingProtocol.RefinesFifo | src/perf.c:575-602 | Each step publishes at the back of an unbounded queue, takes the record at its front, or leaves it alone. |
| RingProtocol.CallsEnd | src/perf.c:575-605 | A call always has a next step and ends after finitely many of them, whatever the producer does in between. |
| RingCalls.CallsReachTheirHead | src/perf.c:558-605 | In every run, a call that starts with unread records and returns has appended exactly the pieces of the records that were unread when it started, in order, and leaves the tail at the head it saw, whatever the producer published meanwhile. |
| RingCalls.UnreadCanBeRead | src/perf.c:556-606 | From every reachable state with unread records the reader alone can make such a call, and the string it then returns is their report. |
| RingCalls.OtherCallsReturnNull | src/perf.c:561-573 | A call that finds nothing unread, or gets no string buffer, changes nothing. |
| RingCalls.RecordsCanBePublished | src/perf.c:558-559 | From every reachable state in which the producer is ready, a record that fits the free space can be published, and the reader's side does not change. |
| RingProtocol.HeadersNeverStraddle | src/perf.c:577-583 | On every run over a buffer of a multiple of 8 bytes, head and tail are aligned and the header never straddles the end. |
| SocketStore.BackoffBounds | src/storage_socket.c:157-171 | On every run the backoff is between 1 and 3607 seconds. |
| SocketStore.MaximumIsReached | src/storage_socket.c:161-164 | Nine failures can leave a backoff of 3607 seconds. |
| SocketStore.DocumentedMaximum | src/storage_socket.h:52-55 | Every history that ends in k failures has a backoff of at most MAX_DURATION_CONNECTION_RETRY if and only if k is at most 7. |
| SocketStore.BackoffDoubles | src/storage_socket.c:161-164 | After k failures in a row, the last from below the threshold, the backoff is between 2^k and 10 * 2^k - 9. |
| SocketStore.BackoffSettles | src/storage_socket.c:161-164 | From the 11th failure in a row on the backoff no longer changes. |
| SocketStore.StreakLasts | src/storage_socket.c:158-160 | A streak of failures lasts at least the sum of the backoffs between them. |
| SocketStore.StreakLastsLong | src/storage_socket.c:158-164 | k failures in a row, the last from below the threshold, are at least 2^k - 2 seconds apart in all. |
| SocketStore.SocketStore.ResolveAndConnect | src/storage_socket.c:72-120 | Either a connected socket is the only open descriptor, or all addresses of the endpoint were tried and every socket was closed. |
| SocketStore.SocketStore.TryReconnect | src/storage_socket.c:144-178 | The old socket is closed once; a connection is attempted, over all addresses, exactly when the backoff has passed; success resets the backoff, and a failure at least doubles it below 1800 seconds; descriptors and the retry fields stay consistent with the history. |
| SocketStore.SocketStore.StoreReport | src/storage_socket.c:180-300 | Without a connection exactly one reconnection comes first; nothing is sent exactly if it fails or the document cannot be serialized; otherwise the outcome is that of the send loop. |
| SocketStore.StoredMeans | src/storage_socket.c:180-300 | So the result is 0 exactly when the last send succeeded; a failed first send is followed by exactly one reconnection, and a successful one by exactly one more send; -1 means that the serialization, a reconnection or both sends failed. |
| SocketStore.SocketStore.SendLoop | src/storage_socket.c:272-293 | `continue` in the do-while loop takes the one retry: the first send succeeds, or one reconnection follows it, which fails or is followed by exactly one more send, whose outcome is the result. |
| SocketStore.SocketStore.Deinitialize | src/storage_socket.c:302-314 | Afterwards every descriptor ever opened has been closed, once. |
| CsvLine.OrderUnique | src/storage_csv.c:135-141 | There is one sorted list of the event names, however the hash table enumerates them. |
| CsvLine.LessAtDifference | src/storage_csv.c:139-141 | The order of the names is that of their first difference, a prefix coming first. |
| CsvLine.SortedKeys | src/storage_csv.c:135-141 | The list is strictly sorted and holds exactly the keys. |
| CsvLine.LineBuffer.Printf | src/storage_csv.c:144-151 | A formatted write truncates to the buffer, keeps the NUL, and advances by the full length. |
| CsvLine.BuildHeader | src/storage_csv.c:143-154 | The header is the untruncated join of its fields, or nothing when that does not fit 1024 characters. |
| CsvLine.BuildRow | src/storage_csv.c:215-230 | A row is the untruncated join of its fields, or nothing when a value is missing or it does not fit. |
| CsvLine.RowReads | src/storage_csv.c:215-227 | Splitting a row gives its five leading fields and, under header column i, the value of event i. |
| CsvStore.Csv.WriteGroupHeader | src/storage_csv.c:127-168 | The header is written whole or not at all, and the column order is stored only with it. |
| CsvStore.Csv.WriteEventsValue | src/storage_csv.c:201-233 | A row is written whole, in the stored order, or not at all. |
| CsvStore.Csv.CsvStoreReport | src/storage_csv.c:235-286 | The nested loops do exactly the operations of the report in order, up to the first failure. |
| CsvFiles.ReportKeepsFiles | src/storage_csv.c:235-286 | A report, failing or not, keeps every file well formed unless the header flag leaks; a successful one does so exactly when it does not leak. |
| CsvHeaders.EmptyGroupBreaksFile | src/storage_csv.c:256-276 | Two concrete reports, the second with a new group without CPUs, after which a file has a second header although everything succeeded. |
| CsvHeaders.ValidExactly | src/storage_csv.c:253-283 | After any report, failing or not, the files are well formed if and only if no group that had its header was given it again. |
| Sampling.PayloadsDoNotLeak | src/perf.c:394-427 | On a machine whose packages all have CPUs, no payload carries the flag into a file that has its header. |
| CsvFiles.CpusDoNotLeak | src/storage_csv.c:264-276 | The flag never leaks from a report whose groups all have a CPU. |
| CsvFiles.FilesStayWellFormed | src/storage_csv.c:235-286 | After any sequence of such reports, whatever fails, every file is empty or one sorted header followed by rows in its order, and the groups with an order are the files that are not empty. |
| CsvHeaders.HeaderlessGroupIsStuck | src/storage_csv.c:210-213 | Over every later sequence of reports, a group left without its header stays so if and only if no report carries the flag into it and writes the header; its file does not change meanwhile, and every report with a CPU of the group fails. |
| CsvHeaders.ReportAndHeaderless | src/storage_csv.c:264-276 | The same for one report, for every outcome of its writes. |
| CsvHeaders.CpusCarryNoFlag | src/storage_csv.c:264-276 | The flag never comes to an open file from a report whose groups all have CPUs. |
| CsvHeaders.StuckForGood | src/storage_csv.c:210-213 | Over reports whose groups all have CPUs, a group left without its header never gets a line. |
| CsvHeaders.HeaderCanFail | src/storage_csv.c:157-162 | A concrete report whose failing header write leaves its group without one. |
| CsvRows.WritesAppend | src/storage_csv.c:267-281 | The rows of a group are appended in order, all of them or the first n of a failing call. |
| CsvRows.ReportAddsRows | src/storage_csv.c:253-283 | A successful report adds, after the header of a new file, exactly one row per CPU in order, and touches no other file. |
| CsvRows.RowsHoldValues | src/storage_csv.c:215-230 | In the file, column j of each row added is under header column j and is that CPU's value of the event named there. |
| CsvColumns.StoredRows | src/storage_csv.c:202-230 | After a successful report the row of each CPU shows, under "timestamp", "sensor", "target", "socket" and "cpu", the payload's time, the store's sensor, the payload's target, the package and the CPU, and under every other name the CPU's value of that event. |
| Topology.OfflineExactly | src/hwinfo.c:92-117 | A CPU is ignored exactly when its online file starts with '0'. |
| Topology.TypesListed | src/hwinfo.c:174 | Which types of directory entries the bit test lets pass. |
| Topology.CpuIdExactly | src/hwinfo.c:139-153 | A name has a CPU id exactly when it is "cpu" followed by that decimal id. |
| Topology.PackageIdReads | src/hwinfo.c:119-137 | The package id is its line without the newline, cut at 22 characters; a line without newline loses its last character. |
| Topology.SucceedsWhenReadable | src/hwinfo.c:172-216 | Detection succeeds exactly when the id and package of every online CPU can be read. |
| Topology.DetectionPartitions | src/hwinfo.c:155-223 | A successful detection partitions the online CPUs: each is in the list of its own package, once, and no package is empty. |
| Topology.MembersAre | src/hwinfo.c:172-214 | The CPUs of a package are exactly the online entries with its id, in scan order. |
| Topology.ScanListsMembers | src/hwinfo.c:193-207 | The list of a package is that of its members, position by position. |
| Topology.OfflineIsNowhere | src/hwinfo.c:175-179 | An offline CPU is in no list. |
| Topology.Hwinfo.DoPackagesDetection | src/hwinfo.c:155-223 | The scan in place, with its early exits, builds those packages. |
| Targets.DockerValidates | src/target_docker.c:56-96 | A Docker path is valid exactly when an id of 64 hexadecimal digits is extracted from it. |
| Targets.DockerRoundTrip | src/target_docker.c:75-96 | A one-line path that ends in an id gives that id back, whatever comes before it. |
| Targets.DockerFirstLine | src/target_docker.c:56-96 | In a path of several lines the first line that ends in a match decides. |
| Targets.KubernetesUnambiguous | src/target_kubernetes.c:42-48 | Class, pod and container id are determined by the start of the match. |
| Targets.ParseIsSound | src/target_kubernetes.c:42-48 | The captures read from a start spell the text there according to the grammar. |
| Targets.ParseIsComplete | src/target_kubernetes.c:42-48 | Every match of the grammar from a start is what is read from there. |
| Targets.KubernetesValidates | src/target_kubernetes.c:58-98 | A Kubernetes path is valid exactly when an id is extracted from it. |
| Targets.KubernetesRoundTrip | src/target_kubernetes.c:77-98 | A path that spells a container gives that container back, whatever comes before and after it, unless what comes before spells one by itself, which is then the one given. |
| Targets.MatchesAreApart | src/target_kubernetes.c:42-48 | A match never overlaps another one further to the right. |
| Targets.ConfigPathHoldsId | src/target_docker.c:87-90 | The configuration path is never truncated and holds the id. |
| Targets.TypeExactly | src/target.c:55-87 | Which type a path has: the first one, in the order of the tests, whose directory it mentions. |
| Targets.KubernetesPathRead | src/target_kubernetes.c:77-98 | A path with the literal prefix, class, pod and 64 hexadecimal digits gives them back, whatever follows. |
| Targets.PodExactly | src/target_kubernetes.c:42-48 | Which pods the expression accepts, character by character. |
| Targets.IdExactly | src/target_docker.c:42-48 | Which container ids the expressions accept. |
| Targets.DiscoverRunning | src/target.c:163-193 | The table has exactly the valid leaf directories of the types asked for whose target could be allocated, each with its detected type. |
| Targets.DiscoveredContainersHaveIds | src/target.c:181-187 | Every container that discovery keeps yields an id. |
| Targets.NamesGiven | src/target.c:120-145 | The fixed names of targets that are no cgroup, the system's or the kernel's, and the name of a container from the file of its id. |
| Targets.NamesResolve | src/target.c:120-151 | Every target below the base directory has a name, by default its path below it. |
| Reconcile.KeysAreLastFound | src/sensor.c:78-120 | Over any syncs and actor exits the monitored paths are those of the last successful discovery. |
| Reconcile.SameActorStays | src/sensor.c:96-116 | A path found by every discovery keeps its actor, running or not. |
| Reconcile.DeadExactly | src/sensor.c:78-120 | A path in the table has no running actor if and only if its actor ended by itself and no successful discovery since has missed the path. |
| Reconcile.StoppedActorStays | src/sensor.c:106-116 | A concrete run in which a container that is found is not monitored, and one in which a missed discovery brings it back. |
| Reconcile.Sensor.Sync | src/sensor.c:78-120 | A failed discovery changes nothing; otherwise the table is the reconciled one, and every target found or owned before is owned by exactly one actor or destroyed once. |
| Reconcile.Sensor.StopDead | src/sensor.c:96-104 | Exactly the actors of paths no longer found are destroyed, with their targets. |
| Reconcile.Sensor.StartNew | src/sensor.c:106-116 | Exactly the new paths get new actors; the other targets found are destroyed. |
| Reconcile.Sensor.ActorExits | src/perf.c:782-785 | An actor that ends by itself releases its target once and stays in the table. |
| Sampling.Initialize | src/perf.c:380-427 | It succeeds if and only if the events of every CPU to be monitored can be opened; then every group is monitored with its events on every package: on all its CPUs in order, or on exactly its first. |
| Sampling.ValueUnderItsEvent | src/perf.c:670-675 | Value i is filed under event i, for all values, exactly when no earlier event and no time has that name. |
| Sampling.FiledExactly | src/perf.c:670-675 | The table of a CPU is the only one that shows the read: both times under their names, each event's value under its name unless it is taken, and nothing else. |
| Sampling.PayloadHasShape | src/perf.c:608-698 | A payload is built if and only if every read it needs succeeds, and it then has exactly the nested shape of the monitored groups, packages and CPUs, each CPU showing its own read. |
| Sampling.CpusExactly | src/perf.c:642-689 | The same for the CPUs of one package. |
| Sampling.TickAddsRows | src/perf.c:608-698 | One tick, set up, read and stored: a group's file grows by one row per online CPU, or per package for one CPU per socket, and by a header if it is new. |
| Populate.Monitor.PopulatePkg | src/perf.c:642-689 | A failing read destroys the CPU's container and the package with what was inserted into it, once. |
| Populate.Monitor.PopulateGroup | src/perf.c:626-694 | A failing read also destroys the group and the shared buffer; a success frees the buffer. |
| Populate.Monitor.HandleTicker | src/perf.c:707-737 | A payload is sent if and only if every read and reset it needs succeeds, with the time and target of the tick and each CPU showing the read made for it; otherwise everything created for it is destroyed once. |
| Counters.CountsAreConserved | src/perf.c:476-493 | On every run: total = sent + destroyed with a payload + being built + counted between a read and its reset + still in the counter. |
| Counters.SentAreWhole | src/perf.c:608-737 | On every run the payloads sent have the values of all CPUs, those destroyed lack at least one, and each tick leads to exactly one of them. |
| Counters.TickSendsAll | src/perf.c:476-493 | After every run, a tick in which nothing fails sends exactly what all counters show and leaves them at zero. |
| Counters.GapsLose | src/perf.c:484-490 | A concrete run in which what counts between a read and its reset is in no payload. |
| Counters.FailuresLose | src/perf.c:657-660 | A concrete run in which a failing read loses what another CPU had counted. |
| Counters.SentIsCounted | src/perf.c:476-493 | Payloads sent never show more than was counted. |
| Handoff.ReportsFollowTicks | src/report.c:109-124 | The reports of one actor offered to the storage are of published ticks, in order, none twice. |
| ReportOrder.OrderIsSafety | src/report.c:109-124 | The reports under one target name stay in order, whatever happens before the next tick, if and only if they are so far, one actor of the name at most has anything left to report, and that is later than what was reported. |
| ReportOrder.TargetsFollowTicks | src/report.c:109-124 | On every run in which an actor hears no tick while another of its target hears it or has something left, the reports of the target follow the ticks. |
| ReportOrder.SuccessorOvertakes | src/sensor.c:106-116 | A concrete run in which a second actor of a target reports a later tick first. |
| Handoff.TicksAreConserved | src/perf.c:707-737 | On every run every tick an actor heard was offered to the storage, is waiting or on its way, or was lost in one of that actor's failures. |
| Handoff.TicksCanBeLost | src/perf.c:716-734 | Concrete runs that lose a tick in each of the two ways. |
| Handoff.PayloadsHaveOnePlace | src/perf.c:707-737 | On every run each payload is being built, on the way, being stored or destroyed, in exactly one place. |
| Handoff.FreedOnce | src/report.c:109-124 | No payload is destroyed twice. |
| Config.FrontEndsAgree | src/config.c:139-201 | For every list of keys with any number of groups under each, repeated names and settings in any order included, the options and the document build the same tables and fail alike. |
| Config.OptionsAreSpecs | src/config.c:375-434 | Every list of options that starts with a group is the options of such a list of groups; any other non-empty one fails. |
| Config.TablesHold | src/config.c:375-434 | A configuration is accepted exactly when every event is supported; each group then has all events given under its name, in order, and one CPU per socket if that was asked for under its name. |
| ConfigDocument.DocumentsHold | src/config.c:139-201 | Every document: it is accepted exactly when its groups are documents of known fields with supported events; each group then has all events given under its name, in order, and one CPU per socket exactly when the last monitoring type given under its name says so. |
| Config.Configuration.SetupFromCli | src/config.c:375-458 | The option loop builds those tables, up to the first error. |
| Config.Configuration.IterOnEventGroupConfig | src/config.c:139-201 | The document walk builds those tables, up to the first error. |
| Config.Configuration.ParseEventArray | src/config.c:116-137 | The events of an array are appended to the current group, up to the first that is no string or not supported. |

## Left out

- PerfRing.Ring.GetCallchains: the allocation of a copied sample (src/perf.c:589) always succeeds, as the code does not check it; the stream holds sample records only, because the code never looks at the record type.
- CsvStore.Csv.CsvStoreReport: requires the fields before the events to fit the line buffer, because the code writes past it otherwise (src/storage_csv.c:215-227); the path of an output file that is too long counts as a failed open.
- CsvLine.BuildRow: requires the same of the leading fields.
- CsvStore.Csv.WriteEventsValue: requires the same of the leading fields.
- CsvStore.Csv.WriteGroupHeader: a write that fails leaves no part of its line, and flushing is absent.
- CsvFiles.FilesStayWellFormed: assumes the same of failing writes.
- SocketStore.SocketStore.StoreReport: the content of the JSON document, and whether a short send delivered everything; only the number and the success of sends.
- SocketStore.SocketStore.Deinitialize: the check that the module was initialized, and a second call, which would close the same descriptor again, since the field keeps its value.
- Populate.Monitor.HandleTicker: failing allocations of containers, after which stale inner pointers reach the error path (src/perf.c:626-656).
- Sampling.Initialize: the descriptors and mappings opened before a failure.
- Sampling.PayloadHasShape: the call chain entry of a CPU (src/perf.c:677-684), which is text and not an integer; the stores read integers.
- Counters.CountsAreConserved: the times enabled and running; only counter values.
- Handoff.PayloadsHaveOnePlace: shutdown, where the storage is deinitialized before the actors are destroyed (src/sensor.c:295-306).
- Reconcile.Sensor.StopDead: deletion while iterating is taken as iterating over the keys there were at the start.
- Config.FrontEndsAgree: an explicit MONITOR_ALL_CPU_PER_SOCKET, which options cannot express (ConfigDocument.DocumentsHold covers it), and the settings that are not about events groups.
- Targets.NamesResolve: reading container names out of the Docker configuration files.
- Weak memory order and the wrap-around of 64-bit head and tail.
- Symbol tables, process ids of cgroups, and PMU detection.
- The null and MongoDB stores, the storage dispatch, and the remaining prototypes under testing/.
