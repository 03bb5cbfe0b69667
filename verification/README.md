# Verification models

This project models, in Dafny, the parts of the repository that move data between processes, and proves what they
promise. `dafny verify dfyconfig.toml` checks everything.

| files | what they model |
|---|---|
| `ExchangeDoc`, `ExchangeFile`, `Datasets` | the exchange file with its lock, its queue and its client lists, the four endpoints built on it, and datasets in memory or on disk |
| `RingLoops` | the loops of the supplier, of a worker and of the aggregator on these files, run one after the other |
| `FileRing`, `FileRingSafety`, `FileRingLiveness` | the dataset ring over exchange files as a state machine with one step for each locked region: one supplier, any number of workers, one aggregator; what every run keeps, the exit theorem, and progress |
| `SocketSupplier`, `SocketSupplierLiveness`, `SocketFrames`, `SocketAggregator`, `SocketAggregatorLiveness`, `SocketRing` | the same ring over TCP sockets: the end race of the supplier, frames received from fragments, the merged queue of the aggregator, and the three composed |
| `Handshake`, `HandshakeRuns`, `Counting` | the push and pull threads of the ZeroMQ server with their condition variable |
| `Strings`, `Multipart`, `MultipartParser`, `MultipartNames`, `MultipartRoundTrip`, `MultipartSplits`, `MultipartTexts` | the multipart form data parser as a buffer with two cursors, the printer, their round trip, and bodies that arrive in pieces (section 4 of RFC 7578, section 5.1.1 of RFC 2046) |
| `Chunked`, `ChunkedCuts`, `ChunkedTexts`, `ChunkedStreams` | the chunked transfer coding (section 4.1 of RFC 7230), codings that break off, the buffered socket stream and the growable line reader |
| `Queries`, `QueryKeys`, `QueryText`, `QueryTexts`, `Base64` | query strings, percent coding, and base 64 (section 4 of RFC 4648) |
| `StoredFiles`, `Upload`, `UploadRuns` | the upload pipeline of the Python API: two chained priority queues, one writer, and the flags and accounts of the files |
| `Bodies`, `GroupLists` | request bodies stored as three-dimensional arrays, and the lists of group ids |
| `RollingLog`, `RollingAppender` | the rolling log file appender |
| `ThreadPool` | the thread pool of the HTTP server |
| `Wrappers` | optional values |

Sequential code is written as methods and classes with the loops of the source, and each method is proved against a
function. Concurrent code is a state machine: a state, an enabling condition and an effect for each step, and
theorems about every run, that is about every sequence of steps. A run stands for any interleaving, and every
theorem about runs is stated without a bound on their length or on the number of participants.

Round trips do not tell whether both sides agree with the rest of the world. The lemmas whose names end in `InFull`, and
the modules `MultipartTexts`, `ChunkedTexts` and `QueryTexts`, spell out names, constants and texts as they go over the
wire or into a directory.

Where the source does not keep what one would expect, the project says exactly when it does:

* a multipart body is read back if and only if, in every item, the content is free of the delimiter, the name and the
  file name are single lines, the content type is trimmed and has no line break, and no quote inside the name is
  followed in the printed line by `;`, white space, `filename="` (in any letter case) and at least one more character;
  the body of an empty list never is;
* a multipart body that arrives in pieces is read as in one call if and only if no delimiter begins in content that an
  earlier call has handed over; behind content with nothing like a delimiter inside, these are the pieces that end after
  one to three characters of the delimiter;
* a chunked body is read back if and only if `done` is called and nothing follows; an empty write ends the coding;
* a chunked body that breaks off is reported as complete if and only if it breaks off right behind the carriage return
  that follows the data of a chunk; the chunks behind it are lost;
* a query string is read back if and only if no entry occurs twice and every key is non-empty, without `&`, `=` and
  `+`, without blanks at its ends, and without a percent sign that decoding takes for a code;
* the socket aggregator is complete at its exit if and only if every client with datasets joined in time, and the
  whole ring over sockets if and only if every worker that was sent a dataset did;
* a log file is within its limit, its last record apart, if and only if the header is and every appender finds the
  current file within the limit at its first write, which is not checked;
* a thread pool runs all its jobs if and only if it has a thread.

## Model

| member | source | states |
|---|---|---|
| `ExchangeDoc.ClientListsDecideTermination` | src/data/dataset_exchange_file.cpp:200-205 | After any registrations and unregistrations of registered clients the exit test holds if and only if every client that ever registered has unregistered, although it only compares two JSON arrays |
| `ExchangeDoc.AllUnregisteredMeans` | src/data/dataset_exchange_file.cpp:200-205 | Array equality of the two lists, null included, decides equality of the two sets of clients |
| `ExchangeDoc.RegisterConsistent` | src/data/dataset_exchange_file.cpp:131-141 | A registration gives a new id and keeps the registered ids equal to 1..n |
| `ExchangeDoc.UnregisterConsistent` | src/data/dataset_exchange_file.cpp:185-198 | An unregistration keeps the unregistered ids ascending, without duplicates and registered |
| `ExchangeDoc.OpsConsistent` | src/data/dataset_exchange_file.cpp:131-198 | After any such operations the lists are consistent, and the unregistered ids are those that some operation unregistered |
| `ExchangeDoc.AscendingUnique` | src/data/dataset_exchange_file.cpp:185-198 | Two ascending arrays with the same elements are equal |
| `ExchangeDoc.Insert` | src/data/dataset_exchange_file.cpp:185-198 | Insertion in a `std::set`, as written back: ascending, with exactly one element more |
| `ExchangeDoc.SetOf` | src/data/dataset_exchange_file.cpp:185-198 | An array read into a `std::set`: ascending, with the same elements |
| `ExchangeDoc.StoredRecord` | src/data/dataset_exchange_file.cpp:143-176 | A record is read back as it was, and has no client id exactly when the dataset has none |
| `ExchangeFiles.PushThenFirst` | src/data/dataset_exchange_file.cpp:143-183 | A dataset pushed into an empty queue is read back as it was, with or without client id, and popping leaves an empty array |
| `ExchangeFiles.ExchangeFile.TryLock` | src/data/dataset_exchange_file.cpp:82-106 | One attempt to create the lock file succeeds exactly when nobody has it |
| `ExchangeFiles.ExchangeFile.UnlockFile` | src/data/dataset_exchange_file.cpp:108-112 | The lock file is gone |
| `ExchangeFiles.ExchangeFile.RegisterClient` | src/data/dataset_exchange_file.cpp:131-141 | Appends the next 32-bit client id, which no client has, to the client list and nothing else, and keeps the lists consistent |
| `ExchangeFiles.ExchangeFile.PushDataset` | src/data/dataset_exchange_file.cpp:143-156 | What readers see is the queue with the dataset behind it; a missing client id is left out of the record |
| `ExchangeFiles.ExchangeFile.GetFirstDataset` | src/data/dataset_exchange_file.cpp:164-176 | The head of the queue as it was pushed, with -1 for a client id that was left out |
| `ExchangeFiles.ExchangeFile.PopFirstDataset` | src/data/dataset_exchange_file.cpp:178-183 | Removes exactly the head of the queue |
| `ExchangeFiles.ExchangeFile.UnregisterClient` | src/data/dataset_exchange_file.cpp:185-198 | Adds one id to the set of unregistered clients |
| `ExchangeFiles.ExchangeFile.AreAllClientsUnregistered` | src/data/dataset_exchange_file.cpp:200-205 | On consistent lists, whether every registered client has unregistered |
| `ExchangeFiles.PullRound` | src/data/dataset_aggregator_client_file.cpp:60-100 | A polling round: busy, empty, a dataset popped and the file unlocked, or an end marker seen with the lock kept and the marker left in place |
| `ExchangeFiles.PushLocked` | src/data/dataset_supplier_client_file.cpp:60-84 | Under the lock a dataset is appended, and the lock is free again |
| `ExchangeFiles.SupplierServerFile.ThreadPushes` | src/data/dataset_supplier_server_file.cpp:93-133 | A read thread pushes its own dataset once and disappears; without the lock nothing changes |
| `ExchangeFiles.SupplierServerFile.PushEndSignal` | src/data/dataset_supplier_server_file.cpp:136-159 | Once no read thread is left the end marker is appended |
| `ExchangeFiles.SupplierClientFile.Connect` | src/data/dataset_supplier_client_file.cpp:40-54 | Registers a client and remembers its id |
| `ExchangeFiles.SupplierServerFile.PushDataset` | src/data/dataset_supplier_server_file.cpp:78-92 | A dataset other than the marker starts one read thread |
| `ExchangeFiles.SupplierClientFile.PushDataset` | src/data/dataset_supplier_client_file.cpp:60-84 | Appends a dataset without client id; for the id -1 nothing happens, not even a lock |
| `ExchangeFiles.SupplierClientFile.PushEndSignal` | src/data/dataset_supplier_client_file.cpp:86-108 | Appends an end marker that carries the client id |
| `ExchangeFiles.ClientHandleEndSignal` | src/data/dataset_aggregator_client_file.cpp:124-127 | A worker unlocks and leaves the end marker |
| `ExchangeFiles.ServerHandleEndSignal` | src/data/dataset_aggregator_server_file.cpp:130-157 | The aggregator unregisters the sender of the marker, removes the marker, unlocks, and only then tests |
| `ExchangeFiles.WorkerHandles` | src/process/benchmark/benchmark_worker.cpp:124-179 | A result file is written before its name is published, the published file holds the computed bytes, and its name is "output/dataset_", the numeral of the id and ".raw" |
| `Datasets.DecimalInjective` | src/data/dataset_aggregator_client_file.cpp:111 | Decimal numerals of different ids differ |
| `Datasets.NamesInFull` | src/data/dataset.cpp:64-68 | For every id, the dataset is named "dataset_" and its result file "output/dataset_", each with the decimal numeral of the id, without leading zeros, and the file with ".raw" behind it |
| `Datasets.DecimalIsNumeral` | src/data/dataset_aggregator_client_file.cpp:111 | The printed digits are decimal digits with the value of the number, and no zero comes before others |
| `Datasets.OutNameInjective` | src/data/dataset.cpp:64-68 | Result files of different datasets have different names |
| `Datasets.Dataset.PersistAndRelease` | src/data/dataset.cpp:109-131 | Persisting and then releasing a buffer changes nothing for a reader of the dataset |
| `Datasets.Dataset.RetrieveBuffer` | src/data/dataset.cpp:83-107 | A reader gets the buffer, or else the file |
| `Datasets.Dataset.RetrieveBufferFromFile` | src/data/dataset.cpp:70-81 | Fails, and changes nothing, exactly when the file is missing |
| `Datasets.DataSupplyState.GrabDataset` | src/data/data_supply_state.cpp:26-39 | Each index is handed out once, in order |
| `Datasets.DataSupplyState.constructor` | src/data/data_supply_state.cpp:18-24 | All indices are there to be handed out |
| `RingLoops.RingAlone` | src/data/data_aggregator.cpp:33-79 | Run one after the other on two exchange files, the supplier, one worker and the aggregator compute every dataset, in order, each under its name and in its output file |
| `RingLoops.SupplierRun` | src/data/data_supplier.cpp:30-54 | The supplier's loop leaves every dataset once, in order, and then the marker |
| `RingLoops.WorkerRun` | src/process/benchmark/benchmark_worker.cpp:116-181 | The worker's loop takes every dataset, leaves the marker, writes every result file without harming an input, and publishes the results and its end signal |
| `RingLoops.AggregatorRun` | src/data/data_aggregator.cpp:33-79 | The aggregator's loop fetches every published result and leaves by itself |
| `RingLoops.PushedIsSupply` | src/data/dataset_supplier_server_file.cpp:78-159 | What was pushed and what is still to come make up the whole supply |
| `FileRingSafety.AggregatorExitsWithEverything` | src/data/data_aggregator.cpp:33-79 | For every number of workers and datasets, every interleaving and every late registration: when the aggregator has left its loop it holds each dataset exactly once, named "dataset_" and the numeral of its id, with what a worker computes from the bytes of its input file, and the output file of that id holds the same |
| `FileRingSafety.EachDatasetInOnePlace` | src/data/dataset_supplier_server_file.cpp:78-159 | In every reachable state each dataset is in exactly one place: not grabbed, in a read thread, in a queue, held by a worker, being fetched, or aggregated |
| `FileRingSafety.GrabbedInOrder` | src/data/data_supply_state.cpp:26-39 | In every run datasets are grabbed in the order of their numbers |
| `FileRingSafety.MarkerStays` | src/data/dataset_aggregator_client_file.cpp:69-88 | Once pushed, the supplier's end marker is the last entry of a queue that no longer grows, and no step removes it |
| `FileRingSafety.SeenMarkerMeansDrained` | src/data/dataset_aggregator_client_file.cpp:69-88 | A worker that has seen the marker knows that no dataset is left to pull |
| `FileRingSafety.RunInv` | src/data/dataset_aggregator_server_file.cpp:130-157 | The whole invariant holds in every reachable state |
| `FileRingSafety.StepInv` | src/data/dataset_aggregator_server_file.cpp:68-157 | Every step of the supplier, of a worker and of the aggregator keeps the invariant |
| `FileRingSafety.ExitIsComplete` | src/data/dataset_aggregator_server_file.cpp:130-157 | When the exit test succeeds, every dataset has been aggregated |
| `FileRingSafety.StepTests` | src/data/dataset_aggregator_server_file.cpp:130-157 | A client that registers between unlock and test makes the test fail |
| `FileRingSafety.StepEndFollows` | src/process/benchmark/benchmark_worker.cpp:124-181 | A worker's end marker comes behind all its results in the aggregator's queue |
| `FileRingSafety.StepClients` | src/data/dataset_supplier_client_file.cpp:40-54 | Client lists and worker states agree after every step |
| `FileRingSafety.StepMarker` | src/data/dataset_aggregator_client_file.cpp:69-88 | Every step keeps the marker last and what it says |
| `FileRingSafety.StepContents` | src/process/benchmark/benchmark_worker.cpp:124-179 | Every step keeps every buffer, file and result equal to what its dataset should hold |
| `FileRingSafety.StepEnds` | src/data/dataset_aggregator_server_file.cpp:130-157 | Every end marker in the queue belongs to a worker that is done, once |
| `FileRingSafety.PersistKeepsComputed` | src/data/dataset.cpp:121-131 | Writing one result file changes no other result and no input |
| `FileRing.StepConserves` | src/data/dataset_supplier_server_file.cpp:78-159 | No step of the ring loses or duplicates a dataset |
| `FileRing.InitConserved` | src/data/data_supply_state.cpp:18-24 | At the start each dataset is in one place |
| `FileRingLiveness.StepsUseUpWork` | src/data/dataset_aggregator_client_file.cpp:69-88 | Every step that is not an empty poll decreases a measure over datasets, workers and markers; an empty poll changes nothing |
| `FileRingLiveness.UsefulStepsBounded` | src/data/data_aggregator.cpp:33-79 | Polls apart, every run is bounded |
| `FileRingLiveness.NeverStuck` | src/data/dataset_aggregator_server_file.cpp:79-95 | Until the aggregator has left, some step other than an empty poll can be taken, even while a marker is seen with the lock held |
| `FileRingLiveness.ExitAlwaysReachable` | src/data/data_aggregator.cpp:33-79 | From every reachable state the run can be continued until the aggregator leaves |
| `FileRingLiveness.AllDoneAgree` | src/data/dataset_aggregator_server_file.cpp:130-157 | When all workers have finished and their markers are consumed, the exit test succeeds |
| `SocketSupplier.EveryClientIsSignalled` | src/data/dataset_supplier_server_socket.cpp:117-144 | For every interleaving of the accept handler with the end of the supply, each client whose handler completes is sent an end signal |
| `SocketSupplier.NoDatasetAfterEnd` | src/data/dataset_socket_server.cpp:83-124 | On every connection nothing but end signals follows an end signal |
| `SocketSupplier.EachDatasetSentOnce` | src/data/dataset_supplier_server_socket.cpp:82-115 | In the end every dataset was sent whole, to one client, once |
| `SocketSupplier.SentWhereChosen` | src/data/dataset_supplier_server_socket.cpp:100-113 | Dataset id goes to the client at place id modulo the size of the socket map, as the map is when the client is chosen |
| `SocketSupplier.RunInv` | src/data/dataset_socket_server.cpp:83-142 | The invariants of the race and of the wires hold in every reachable state |
| `SocketSupplier.HandlerKeepsRace` | src/data/dataset_socket_server.cpp:83-124 | The handler's steps keep the invariant of the end race |
| `SocketSupplier.MainKeepsRace` | src/data/dataset_supplier_server_socket.cpp:117-144 | The main thread's steps keep it |
| `SocketSupplier.AfterIsFirst` | src/data/dataset_supplier_server_socket.cpp:117-144 | A traversal of the socket map meets the entries in the order of their keys and skips none that was there |
| `SocketSupplierLiveness.FinishAlwaysReachable` | src/data/dataset_supplier_server_socket.cpp:117-144 | From every reachable state the run can be continued until the traversal of the socket map has ended and every handler has completed: `PushEndSignal` always returns |
| `SocketSupplierLiveness.StepUsesWork` | src/data/dataset_supplier_server_socket.cpp:82-144 | Every step but a new connection decreases a measure over datasets, map entries and handlers |
| `SocketSupplierLiveness.NeverStuck` | src/data/dataset_supplier_server_socket.cpp:82-144 | Until it is over some step can be taken, and a new client is needed only when there is none to send a dataset to |
| `SocketSupplierLiveness.RunsAreBounded` | src/data/dataset_supplier_server_socket.cpp:82-144 | A run has at most four steps for each dataset, eight for each client, and four |
| `SocketSupplierLiveness.LateClientIsSentAway` | src/data/dataset_socket_server.cpp:111-116 | A client that connects after registration was stopped is not inserted, and all it ever gets is one end signal |
| `SocketFrames.ReadWordOfWord` | src/data/dataset_supplier_client_socket.cpp:58-76 | Reading a 32-bit header gives the number that was written |
| `SocketFrames.EncodeInFull` | src/data/dataset_supplier_client_socket.cpp:58-76 | The bytes of a frame are its id and its length, each in four bytes with the lowest first, and its payload |
| `SocketFrames.EndInFull` | src/data/dataset_supplier_server_socket.cpp:117-144 | The end signal is four bytes of ones |
| `SocketFrames.StreamHead` | src/data/dataset_supplier_client_socket.cpp:58-92 | What a stream of frames begins with and how it goes on |
| `SocketFrames.ReceivePayload` | src/data/dataset_aggregator_client_socket.cpp:56-100 | However the payload is fragmented, the buffer is filled with exactly the bytes sent, and the rest stays in the socket |
| `SocketFrames.ReceiveFrame` | src/data/dataset_aggregator_client_socket.cpp:56-100 | One frame or the end signal is received as sent |
| `SocketFrames.ReceiveAll` | src/data/dataset_aggregator_client_socket.cpp:56-100 | Receiving until the end signal gives the frames that were sent, in order |
| `SocketAggregator.MergedQueueKeepsEachClient` | src/data/dataset_aggregator_server_socket.cpp:57-99 | For every fragmentation and interleaving the merged queue, restricted to one client, is a prefix of that client's frames, with its end marker last |
| `SocketAggregator.PulledAfterExit` | src/data/dataset_aggregator_server_socket.cpp:132-188 | After the exit the aggregator holds all frames of the clients that had joined and none of the others |
| `SocketAggregator.CompleteIffAllJoined` | src/data/dataset_aggregator_server_socket.cpp:178-188 | Exit means that everything is aggregated if and only if every client with datasets joined before the map got empty |
| `SocketAggregator.LateClientIsLost` | src/data/dataset_aggregator_server_socket.cpp:178-188 | A run in which a client that connects late loses its dataset |
| `SocketAggregator.RunInv` | src/data/dataset_aggregator_server_socket.cpp:57-188 | The invariants hold in every reachable state |
| `SocketAggregator.StepMerged` | src/data/dataset_aggregator_server_socket.cpp:57-99 | Every step of a reader thread, of the handler and of the aggregator keeps the order of each client |
| `SocketAggregator.EntriesHaveClients` | src/data/dataset_aggregator_server_socket.cpp:57-99 | Everything pulled comes from a client |
| `SocketAggregatorLiveness.ExitAlwaysReachable` | src/data/dataset_aggregator_server_socket.cpp:132-188 | With any client at all, from every reachable state the run can be continued until the aggregator leaves |
| `SocketAggregatorLiveness.ExitIffClients` | src/data/dataset_aggregator_server_socket.cpp:178-188 | The aggregator can leave if and only if there is a client |
| `SocketAggregatorLiveness.EverythingCanArrive` | src/data/dataset_aggregator_server_socket.cpp:132-188 | There is a run in which all clients join in time and the aggregator leaves with everything |
| `SocketAggregatorLiveness.StepUsesWork` | src/data/dataset_aggregator_server_socket.cpp:57-188 | Every step but an empty send decreases a measure over bytes, readers, queue and aggregator |
| `SocketAggregatorLiveness.NeverStuck` | src/data/dataset_aggregator_server_socket.cpp:57-188 | Until the aggregator has left some step can be taken |
| `SocketAggregatorLiveness.LateClientStaysOut` | src/data/dataset_socket_server.cpp:111-116 | After the aggregator has left nobody is inserted any more |
| `SocketRing.RingCompleteIffWorkersJoined` | src/data/dataset_aggregator_server_socket.cpp:178-188 | Supplier, workers and aggregator together: when the supplier has finished and the aggregator has left, every dataset was pulled exactly once, with what a worker computes from it, if and only if every worker that was sent a dataset joined the aggregator in time |
| `SocketRing.RingCanComplete` | src/data/dataset_aggregator_server_socket.cpp:178-188 | For any datasets there are a supply that finishes, workers, and a run of the aggregator that leaves with every result pulled once |
| `SocketRing.PulledIffOwnerJoined` | src/data/dataset_aggregator_server_socket.cpp:132-188 | One dataset is pulled, once and with its result, exactly when the worker it was sent to had joined |
| `SocketRing.OwnerOf` | src/data/dataset_supplier_server_socket.cpp:82-115 | Each dataset of a finished supply has exactly one worker that got it, once |
| `SocketRing.WireIsStream` | src/data/dataset_supplier_client_socket.cpp:58-92 | The bytes that the supplier puts on a connection are the stream that a worker reads, and perhaps more end signals |
| `SocketRing.WorkerReceives` | src/data/dataset_aggregator_client_socket.cpp:56-100 | A worker receives exactly the datasets that were sent on its connection, in order, however the bytes are cut |
| `SocketRing.ReceivedIsData` | src/data/dataset_supplier_server_socket.cpp:82-115 | What is received under an id is the dataset with that id |
| `HandshakeRuns.HandshakeHolds` | benchmarks/poco_cppzmq_2/server/server.cpp:318-419 | In every reachable state each worker has at most one dataset between send and receipt, `is_processing` says exactly whether it has one, the pull thread never waits, and while the push thread waits that one dataset is on a wire, with the client or with the pull thread, whose next notification ends the wait |
| `HandshakeRuns.CompletionIsPermutation` | benchmarks/poco_cppzmq_2/server/server.cpp:194-198 | No more datasets are processed than there are; the main loop's exit test holds exactly when each was processed once; and each output block is the result for the dataset processed at that place |
| `HandshakeRuns.StuckMeansComplete` | benchmarks/poco_cppzmq_2/server/server.cpp:318-419 | Nothing is left to do exactly when all threads and clients have ended, and then every dataset is processed |
| `HandshakeRuns.RunsAreBounded` | benchmarks/poco_cppzmq_2/server/server.cpp:318-419 | With n datasets no run is longer than 13 n steps and 4 for each worker |
| `HandshakeRuns.CompletionAlwaysReachable` | benchmarks/poco_cppzmq_2/server/server.cpp:194-198 | From every reachable state with a worker the server can go on until every dataset is processed |
| `HandshakeRuns.WorkersAreLive` | benchmarks/poco_cppzmq_2/server/server.cpp:318-419 | No wakeup is lost: a worker that has not ended can always act, and one that has ended holds nothing |
| `HandshakeRuns.StepKeepsSound` | benchmarks/poco_cppzmq_2/server/server.cpp:318-419 | Every step keeps the handshake of every worker |
| `HandshakeRuns.RunsConserve` | benchmarks/poco_cppzmq_2/server/server.cpp:318-419 | Each dataset is in exactly one of the queue, a worker, and the processed list |
| `HandshakeRuns.RunsKeepContents` | benchmarks/poco_cppzmq_2/server/server.cpp:318-419 | Datasets carry their input block on the way down and the result on the way up |
| `HandshakeRuns.RunsEndWhenDrained` | benchmarks/poco_cppzmq_2/server/server.cpp:325-331 | A push thread has ended only if the queue is empty |
| `HandshakeRuns.StepUsesWork` | benchmarks/poco_cppzmq_2/server/server.cpp:318-419 | Every step but a registration decreases the work left |
| `HandshakeRuns.FetchedInOrder` | benchmarks/poco_cppzmq_2/server/server.cpp:325-331 | Datasets are fetched in the order of their numbers |
| `Handshake.MoveKeepsPaired` | benchmarks/poco_cppzmq_2/server/server.cpp:350-405 | Lock, wait, wake, send and receive keep one dataset at a time and no wait without a notification to come |
| `Handshake.MoveKeepsMarker` | benchmarks/poco_cppzmq_2/client/client.cpp:79-122 | The marker -1 follows the datasets in both directions, and each party ends when it has passed it on |
| `Handshake.MoveKeepsHeld` | benchmarks/poco_cppzmq_2/client/client.cpp:79-122 | A worker is a pipeline: what it holds stays in order, and only the output step takes something out, the oldest |
| `MultipartRoundTrip.RoundTripIffPrintable` | benchmarks/cpp-httplib/httplib.cc:1852-1975 | For any names, file names, content types and contents: one parse of the body printed for a non-empty list of items hands back exactly these items and ends valid if and only if no content contains the delimiter, names and file names are single lines, content types are trimmed and have no line break, and no quote inside a name is followed by what looks like a file name |
| `MultipartRoundTrip.ParseUndoesPrint` | benchmarks/cpp-httplib/httplib.cc:4710-4740 | Then the whole body is consumed and the parser is in its final state |
| `MultipartRoundTrip.NoItemsIsRejected` | benchmarks/cpp-httplib/httplib.cc:4710-4740 | The body printed for an empty list is rejected |
| `MultipartRoundTrip.ReadContent` | benchmarks/cpp-httplib/httplib.cc:1911-1948 | A content without the delimiter is handed over whole and in order, in one turn or several |
| `MultipartRoundTrip.ReadOtherItem` | benchmarks/cpp-httplib/httplib.cc:1855-1948 | An item whose content contains the delimiter, or whose name misleads the parser, is handed over as another item |
| `MultipartRoundTrip.NeverUnreadable` | benchmarks/cpp-httplib/httplib.cc:1852-1975 | No bytes make the parser hand over an item that header lines cannot hold |
| `MultipartRoundTrip.ItemsStay` | benchmarks/cpp-httplib/httplib.cc:1852-1975 | Later turns never take back or change an item that is complete |
| `MultipartNames.SeenIffGood` | benchmarks/cpp-httplib/httplib.cc:1879-1910 | Of single-line names, exactly those are read back in which no quote is followed by `;`, white space, `filename="` and at least one more character |
| `MultipartNames.MisleadingName` | benchmarks/cpp-httplib/httplib.cc:1879-1910 | A name that holds such a quote is read as a shorter name with a file name |
| `MultipartNames.ReadDisposition` | benchmarks/cpp-httplib/httplib.cc:1879-1910 | What any single-line name and file name are read as from their disposition line |
| `MultipartNames.ReadType` | benchmarks/cpp-httplib/httplib.cc:1893-1897 | A trimmed content type is read back |
| `MultipartNames.RunReadable` | benchmarks/cpp-httplib/httplib.cc:1852-1975 | Whatever bytes come, names handed over are single lines and content types are trimmed and have no line break |
| `MultipartTexts.ItemInFull` | benchmarks/cpp-httplib/httplib.cc:4722-4735 | The text of a printed item, with every fixed part spelled out: boundary, disposition line with name and file name, content type line, empty line, content |
| `MultipartTexts.BodyInFull` | benchmarks/cpp-httplib/httplib.cc:4722-4740 | A printed body is its items and the last boundary, spelled out |
| `MultipartTexts.BoundaryCharsInFull` | benchmarks/cpp-httplib/httplib.cc:4712-4719 | A boundary is made of letters, digits, hyphens and underscores |
| `MultipartTexts.FieldIsRead` | benchmarks/cpp-httplib/httplib.cc:1855-1902 | The line `Content-Disposition: form-data; name="..."`, with or without `; filename="..."`, as any client writes it, gives the name and the file name |
| `MultipartTexts.AnySpellingIsRead` | benchmarks/cpp-httplib/httplib.cc:1855-1902 | So it does in any letter case and with any white space, or none, between its parts |
| `MultipartTexts.SpaceAtEndIsSkipped` | benchmarks/cpp-httplib/httplib.cc:1855-1902 | And with white space at its end |
| `MultipartTexts.TypeIsRead` | benchmarks/cpp-httplib/httplib.cc:1893-1897 | A content type line in any letter case, with blanks around the type, gives the type |
| `MultipartTexts.OtherLinesAreIgnored` | benchmarks/cpp-httplib/httplib.cc:1893-1902 | Other header lines change nothing |
| `MultipartTexts.SpacesInFull` | benchmarks/cpp-httplib/httplib.cc:266 | Which characters are white space, blanks and line ends |
| `Strings.HexDigits` | benchmarks/cpp-httplib/httplib.cc:10-22 | The hexadecimal digits, small and capital, and their values |
| `Strings.LowerInFull` | benchmarks/cpp-httplib/httplib.cc:1983-1990 | Letters differ by their case only |
| `MultipartTexts.FirstLineDecides` | benchmarks/cpp-httplib/httplib.cc:1865-1871 | A text that does not begin with the boundary line is refused, a shorter one is kept |
| `MultipartTexts.StuckBehindBoundary` | benchmarks/cpp-httplib/httplib.cc:1949-1966 | What is neither a line break nor the end behind a boundary is never read |
| `MultipartTexts.NothingMayFollow` | benchmarks/cpp-httplib/httplib.cc:1967-1970 | A printed body with anything behind it is refused |
| `MultipartSplits.FeedIffNoLoss` | benchmarks/cpp-httplib/httplib.cc:1852-1975 | A body that arrives in any number of pieces, from any state of the parser, is read as it is in one call if and only if no piece ends where content is handed over in which a delimiter has begun; otherwise other items come out |
| `MultipartSplits.PiecesReadBackIffNoLoss` | benchmarks/cpp-httplib/httplib.cc:3252-3268 | Printable items come back from their body in pieces if and only if no delimiter is lost |
| `MultipartSplits.TwoPiecesReadBackIffNotEarly` | benchmarks/cpp-httplib/httplib.cc:1911-1948 | A printed body cut in or behind the content of its first item, where that has nothing like a delimiter inside, is read back if and only if the cut is not behind one to three characters of the delimiter (with at least four bytes since the headers) |
| `MultipartSplits.CutLosesIffEarly` | benchmarks/cpp-httplib/httplib.cc:1911-1948 | The same for the content of any item |
| `MultipartSplits.TwoCalls` | benchmarks/cpp-httplib/httplib.cc:1852-1975 | Two calls do what one does when no delimiter is lost between them |
| `MultipartSplits.LostContent` | benchmarks/cpp-httplib/httplib.cc:1911-1948 | A lost delimiter leaves an item with more content than it has in one call |
| `MultipartSplits.BodyWithout` | benchmarks/cpp-httplib/httplib.cc:1911-1948 | How much of content without a delimiter a call hands over, and that the rest stays in the buffer |
| `MultipartSplits.ReceiveBody` | benchmarks/cpp-httplib/httplib.cc:3252-3268 | The loop over the pieces computes `Feed`, which these results are about |
| `MultipartParsers.MultipartFormDataParser.BufAppend` | benchmarks/cpp-httplib/httplib.cc:2042-2060 | What was not read stays, and the new data is behind it |
| `MultipartParsers.MultipartFormDataParser.BufFind` | benchmarks/cpp-httplib/httplib.cc:2019-2040 | The position of the first occurrence, or the size of the buffer when there is none |
| `MultipartParsers.MultipartFormDataParser.StartWith` | benchmarks/cpp-httplib/httplib.cc:2000-2007 | Whether the pattern occurs at this position |
| `MultipartParsers.MultipartFormDataParser.BufErase` | benchmarks/cpp-httplib/httplib.cc:2062 | Drops bytes at the front |
| `MultipartParsers.MultipartFormDataParser.ParseHeaders` | benchmarks/cpp-httplib/httplib.cc:1879-1910 | The loop over header lines computes the specification `Headers` |
| `MultipartParsers.MultipartFormDataParser.ParseBody` | benchmarks/cpp-httplib/httplib.cc:1911-1948 | A turn in the body computes the specification `BodyTurn` |
| `MultipartParsers.MultipartFormDataParser.ParseTurn` | benchmarks/cpp-httplib/httplib.cc:1864-1972 | Each turn of the state machine computes the specification `Turn` |
| `MultipartParsers.MultipartFormDataParser.Parse` | benchmarks/cpp-httplib/httplib.cc:1852-1975 | A call computes `Run`, the specification that the round trip is proved about, from any state |
| `MultipartParsers.Post` | benchmarks/cpp-httplib/httplib.cc:4710-4740 | The request is refused exactly for an unsupported boundary character, and its body is the `Print` of the round trip |
| `MultipartParsers.PrintBody` | benchmarks/cpp-httplib/httplib.cc:4722-4737 | The loop over the items prints `Print` |
| `Strings.Find` | benchmarks/cpp-httplib/httplib.cc:2019-2040 | The first occurrence: it is one, and there is none before |
| `Strings.FindDelimiter` | benchmarks/cpp-httplib/httplib.cc:1929-1937 | Behind a text without the delimiter the search finds it at the end of that text |
| `ChunkedStreams.Transfer` | benchmarks/cpp-httplib/httplib.cc:1641-1719 | Pieces written one a call over a connection come back as their concatenation, with what follows untouched, however sends and receives are cut |
| `Chunked.ReadsBackIffDone` | benchmarks/cpp-httplib/httplib.cc:1641-1719 | When the writer has finished, the reader gets exactly what was written, and consumes all that was emitted, if and only if `done` was called and nothing was written after it |
| `Chunked.PiecesReadBackIffNonEmpty` | benchmarks/cpp-httplib/httplib.cc:1641-1719 | Pieces written one a call are read back, whatever follows them, if and only if none is empty |
| `Chunked.EmptyPieceIsNotReadBack` | benchmarks/cpp-httplib/httplib.cc:1650-1652 | An empty write ends the loop without the last chunk, so that the reader fails |
| `ChunkedCuts.LineBehindDataDecides` | benchmarks/cpp-httplib/httplib.cc:1440-1458 | Behind the data of a chunk the reader goes on exactly at an empty line, fails exactly at the end of the stream, and otherwise drops a line and ends the body as if it were complete |
| `ChunkedCuts.CutAcceptedIffBehindCr` | benchmarks/cpp-httplib/httplib.cc:1420-1458 | A finished coding of any operations that breaks off anywhere is reported as complete if and only if it breaks off right behind the carriage return that follows the data of a chunk; what is handed over is always a beginning of the content |
| `ChunkedCuts.CutLosesTheRest` | benchmarks/cpp-httplib/httplib.cc:1420-1458 | There the content up to that chunk is handed over, and the rest is lost |
| `ChunkedCuts.CutIsTakenForComplete` | benchmarks/cpp-httplib/httplib.cc:1440-1458 | Two chunks cut at that point are taken for a complete body of one |
| `ChunkedCuts.CutChunk` | benchmarks/cpp-httplib/httplib.cc:1428-1450 | The same for a single chunk, cut in its size line, in its data or behind it |
| `ChunkedTexts.EmittedInFull` | benchmarks/cpp-httplib/httplib.cc:1650-1704 | What a write and `done` put on the wire, spelled out |
| `ChunkedTexts.HexInFull` | benchmarks/cpp-httplib/httplib.cc:41-49 | The size is written in small hexadecimal digits |
| `ChunkedTexts.SizeLineInFull` | benchmarks/cpp-httplib/httplib.cc:1428-1437 | A size line of white space, a sign, a prefix and digits is read as that number, saturated at 2^64 - 1 and wrapped by a minus, whatever follows the digits |
| `ChunkedTexts.ExtensionIgnored` | benchmarks/cpp-httplib/httplib.cc:1428-1437 | A chunk extension is ignored |
| `ChunkedTexts.NoDigitNoNumber` | benchmarks/cpp-httplib/httplib.cc:1431-1435 | A line without a digit where the number should be is no number |
| `ChunkedTexts.SizeDecides` | benchmarks/cpp-httplib/httplib.cc:1431-1455 | What the reader does with the number: fail without one or with 2^64 - 1, end at zero, fail on too few bytes, and otherwise hand over that many |
| `ChunkedTexts.EmptyLineInFull` | benchmarks/cpp-httplib/httplib.cc:1446-1455 | The test for an empty line is whether the next two bytes are carriage return and line feed |
| `Chunked.ChunkRead` | benchmarks/cpp-httplib/httplib.cc:1428-1450 | A chunk is read as its data, whatever follows |
| `Chunked.LastChunkRead` | benchmarks/cpp-httplib/httplib.cc:1438-1455 | The last chunk ends the body and leaves what follows |
| `Chunked.SizeLineRead` | benchmarks/cpp-httplib/httplib.cc:1428-1437 | The printed size of a chunk is read as its size |
| `Chunked.NumberOfHex` | benchmarks/cpp-httplib/httplib.cc:41-49 | The printed digits are hexadecimal digits with that value |
| `Chunked.ReadBack` | benchmarks/cpp-httplib/httplib.cc:1420-1458 | The inductive form of the two results above, with anything behind the coding |
| `ChunkedStreams.SocketStream.Read` | benchmarks/cpp-httplib/httplib.cc:2675-2719 | No byte is lost, repeated or moved, whether a read is served from the buffer or from the socket; zero means end of stream |
| `ChunkedStreams.SocketStream.ReadBuffered` | benchmarks/cpp-httplib/httplib.cc:2684-2695 | Serves a read from the buffer |
| `ChunkedStreams.SocketStream.ReadSocket` | benchmarks/cpp-httplib/httplib.cc:2697-2718 | Serves a read from the socket, keeping the surplus |
| `ChunkedStreams.SocketStream.ReadThroughBuffer` | benchmarks/cpp-httplib/httplib.cc:2701-2714 | A small read fills the buffer first and is served from it |
| `ChunkedStreams.WriteData` | benchmarks/cpp-httplib/httplib.cc:1557-1565 | All bytes are sent, in as many pieces as it takes |
| `ChunkedStreams.StreamLineReader.Append` | benchmarks/cpp-httplib/httplib.cc:356-366 | The text grows by one character, across the move from the fixed buffer to the string, where the NUL that the source asserts is there |
| `ChunkedStreams.StreamLineReader.Ptr` | benchmarks/cpp-httplib/httplib.cc:309-315 | The memory at `ptr()`, in the fixed buffer or in the string, is as a C string the line |
| `ChunkedStreams.StreamLineReader.GetLine` | benchmarks/cpp-httplib/httplib.cc:330-353 | Reads exactly the next line, and fails exactly at the end of the stream |
| `ChunkedStreams.FromIToHex` | benchmarks/cpp-httplib/httplib.cc:41-49 | The digit loop prints the size in hexadecimal |
| `ChunkedStreams.DataSink.Write` | benchmarks/cpp-httplib/httplib.cc:1650-1672 | What one write emits, and whether more data is expected |
| `ChunkedStreams.DataSink.Done` | benchmarks/cpp-httplib/httplib.cc:1674-1704 | What `done` emits |
| `ChunkedStreams.WriteContentChunked` | benchmarks/cpp-httplib/httplib.cc:1641-1719 | The loop emits exactly what the performed operations stand for, and tells whether it finished |
| `ChunkedStreams.ReadContentWithLength` | benchmarks/cpp-httplib/httplib.cc:1368-1388 | Hands over exactly the next bytes, or all there are and fails |
| `ChunkedStreams.ReadChunk` | benchmarks/cpp-httplib/httplib.cc:1437-1450 | The data of a chunk, the line behind it, and the next size line |
| `ChunkedStreams.ReadContentChunked` | benchmarks/cpp-httplib/httplib.cc:1420-1458 | The reader computes `ReadChunks`, which the round trips are proved about, on any bytes |
| `Queries.DecodeUndoesEncode` | benchmarks/cpp-httplib/httplib.cc:160-179 | Decoding gives back every byte string that was encoded |
| `QueryTexts.PlainTextDecoded` | benchmarks/cpp-httplib/httplib.cc:238-245 | A text without percent signs keeps its length and its characters, with a blank for each plus sign |
| `QueryTexts.CodeIsByte` | benchmarks/cpp-httplib/httplib.cc:228-237 | A percent sign and two hexadecimal digits, small or capital, are the byte with that value |
| `QueryTexts.UnicodeIsUtf8` | benchmarks/cpp-httplib/httplib.cc:217-227 | A percent sign, a small u and four digits are the code with that value in UTF-8, and nothing for a surrogate |
| `QueryTexts.StrayPercent` | benchmarks/cpp-httplib/httplib.cc:213-248 | Any other percent sign stays |
| `QueryTexts.EncodedInFull` | benchmarks/cpp-httplib/httplib.cc:160-179 | A character is encoded as itself, or as a percent sign and two capital digits with its value |
| `QueryTexts.PlainCharsInFull` | benchmarks/cpp-httplib/httplib.cc:166-169 | Which characters are encoded as themselves |
| `QueryTexts.PrintedInFull` | benchmarks/cpp-httplib/httplib.cc:1755-1766 | The text of a printed list, with `=` and `&` |
| `QueryTexts.KeyAndValue` | benchmarks/cpp-httplib/httplib.cc:1772-1786 | A key, an equals sign and a value are read as both decoded |
| `QueryTexts.LastValueCounts` | benchmarks/cpp-httplib/httplib.cc:1774-1782 | Of several values the last one counts |
| `QueryTexts.KeyAlone` | benchmarks/cpp-httplib/httplib.cc:1774-1786 | A key alone has an empty value, and a piece without key is skipped |
| `QueryTexts.ParamsArePieces` | benchmarks/cpp-httplib/httplib.cc:1767-1788 | The parameters of any text are those of its pieces between ampersands, and no others |
| `QueryTexts.PiecesBetweenAmpersands` | benchmarks/cpp-httplib/httplib.cc:282-302 | Two texts with an ampersand between them are two pieces, empty ones left out |
| `QueryTexts.OrderInFull` | benchmarks/cpp-httplib/httplib.cc:1785 | Keys are ordered by their first difference |
| `Queries.ParsePrinted` | benchmarks/cpp-httplib/httplib.cc:1755-1788 | Parsing a printed list gives its entries in order, each the first time that it occurs |
| `QueryKeys.RoundTripIffGoodAndDistinct` | benchmarks/cpp-httplib/httplib.cc:1755-1788 | A parameter list with any keys and values survives printing and parsing if and only if no entry occurs twice and every key is not empty, has none of `&`, `=` and `+`, no blank at its ends, and no percent sign that is decoded |
| `QueryKeys.PrintedSize` | benchmarks/cpp-httplib/httplib.cc:1755-1788 | What is parsed from a printed list is never larger than the list, and as large only if every key is empty or kept as it is |
| `QueryKeys.DecodeShortens` | benchmarks/cpp-httplib/httplib.cc:213-248 | Decoding never lengthens a text, and keeps its length only if it decodes no percent sign; then the result has no plus sign |
| `Queries.GoodRoundTrip` | benchmarks/cpp-httplib/httplib.cc:1755-1788 | A sorted list of such keys survives if and only if no entry occurs twice |
| `Queries.ReadPrintedParam` | benchmarks/cpp-httplib/httplib.cc:1772-1786 | A printed entry is read back |
| `Queries.EmplaceKeepsSorted` | benchmarks/cpp-httplib/httplib.cc:1785 | The multimap stays sorted and gains exactly the entry |
| `Queries.ReadParamsSorted` | benchmarks/cpp-httplib/httplib.cc:1767-1788 | Whatever is parsed, the result is sorted by key |
| `Queries.HeadOfEncoded` | benchmarks/cpp-httplib/httplib.cc:213-248 | The code of one byte is decoded as that byte, whatever follows |
| `Queries.CutFirst` | benchmarks/cpp-httplib/httplib.cc:282-302 | Cutting at a delimiter |
| `QueryText.EncodeQueryParam` | benchmarks/cpp-httplib/httplib.cc:160-179 | The loop computes `Encode` |
| `QueryText.FromHexToI` | benchmarks/cpp-httplib/httplib.cc:24-39 | The digit loop computes the value of the digits, and fails when one is missing |
| `QueryText.DecodeUrl` | benchmarks/cpp-httplib/httplib.cc:213-248 | The index loop computes `Decode` |
| `QueryText.TrimRange` | benchmarks/cpp-httplib/httplib.cc:268-277 | Both limits are moved over blanks and no further |
| `QueryText.RangeIsTrim` | benchmarks/cpp-httplib/httplib.cc:268-277 | The moved limits enclose the trimmed piece, or are empty when the piece is blank, although the left one may run beyond the piece |
| `QueryText.SplitText` | benchmarks/cpp-httplib/httplib.cc:284-302 | The callback gets the trimmed pieces that are not empty, in order |
| `QueryText.ParamsToQueryStr` | benchmarks/cpp-httplib/httplib.cc:1755-1766 | The loop prints the list |
| `QueryText.SplitKeyValue` | benchmarks/cpp-httplib/httplib.cc:1774-1782 | The key is the first piece and the value the last of the others |
| `QueryText.EmplaceParam` | benchmarks/cpp-httplib/httplib.cc:1785 | The new entry goes behind all entries with keys up to its own |
| `QueryText.ParseQueryText` | benchmarks/cpp-httplib/httplib.cc:1767-1788 | The loop with its cache of pieces computes `Parse`, and its result is sorted |
| `Base64.Base64Encode` | benchmarks/cpp-httplib/httplib.cc:85-111 | The 32-bit accumulator with its tail and padding computes the encoding by groups, also when it overflows |
| `Base64.DecodeUndoesEncode` | benchmarks/cpp-httplib/httplib.cc:85-111 | A decoder after section 4 of RFC 4648 gives back every byte string |
| `Base64.LettersInFull` | benchmarks/cpp-httplib/httplib.cc:86-87 | The 64 letters in their order |
| `Base64.GroupInFull` | benchmarks/cpp-httplib/httplib.cc:91-106 | Four letters are the 24 bits of three bytes, the highest first |
| `Base64.Vectors` | benchmarks/cpp-httplib/httplib.cc:85-111 | Test vectors of section 10 of RFC 4648 |
| `Base64.EncodedLength` | benchmarks/cpp-httplib/httplib.cc:107-109 | The output has 4 characters for each group of up to 3 bytes |
| `Base64.LowAdd` | benchmarks/cpp-httplib/httplib.cc:95-96 | What overflow cuts off never reaches the last three bytes |
| `Base64.LowBits` | benchmarks/cpp-httplib/httplib.cc:98-105 | The six bits shifted out are those of the letter |
| `Base64.Padded` | benchmarks/cpp-httplib/httplib.cc:107-109 | The encoding is the letters filled up with `=` to whole groups |
| `Base64.LastLetters` | benchmarks/cpp-httplib/httplib.cc:105 | The letter of the remaining bits |
| `UploadRuns.StoredImpliesUploaded` | python/api/write_process.py:263-344 | In every reachable state, for every file: stored groups are marked as uploaded, a stored file is marked as uploaded, the flags and byte counts follow from the groups, and progress 100 means that all groups are there |
| `UploadRuns.SizesAreOfPosts` | python/api/write_process.py:263-344 | In every reachable state a stored group has the size of a post for it whose body was written, an uploaded one that of a post whose attributes were written, and the others have none |
| `UploadRuns.AttributesWrittenFirst` | python/api/data.py:329-335 | The writer takes a body item only after the attributes item of the same post has been written, through both priority queues |
| `UploadRuns.QuietMeansWritten` | python/api/write_process.py:152-257 | When the pipeline comes to rest, all groups of every post that was begun are uploaded and stored |
| `UploadRuns.RunsAreBounded` | python/api/write_process.py:88-150 | No run is longer than 12 steps for each post |
| `UploadRuns.StepUsesWork` | python/api/write_process.py:88-150 | Every step decreases the work left |
| `UploadRuns.StepKeepsFiles` | python/api/write_process.py:263-344 | Writing an item keeps the accounts of the files |
| `Upload.StepKeepsAhead` | python/api/write_process.py:88-110 | Every step keeps each attributes item ahead of its body item |
| `Upload.StepLosesNothing` | python/api/write_process.py:117-150 | No item that was put is lost |
| `Upload.LeastIsAttributes` | python/api/data.py:329-335 | A queue that gives a body item does not hold the attributes item of the same post |
| `Upload.LeastHasLowestGroup` | python/api/data.py:329-335 | Among body items the one whose post begins with the lowest group is taken first |
| `Upload.AttributesBeforeBodies` | python/api/data.py:304-335 | Attributes items of all posts are taken before any body item |
| `StoredFiles.StoredFile.WriteAttributesItem` | python/api/write_process.py:307-344 | The two loops set the attributes and compute flag, byte count and progress |
| `StoredFiles.StoredFile.WriteBodyItem` | python/api/write_process.py:280-305 | The groups are stored, and flag, byte count and progress follow |
| `StoredFiles.PostAttributesMark` | python/api/data.py:304-321 | A post's attributes mark exactly its groups and leave all else alone |
| `StoredFiles.SumsFollow` | python/api/write_process.py:282-298 | Byte counts and numbers of groups are sums: a group that changes changes them by its own part |
| `StoredFiles.CountsBounded` | python/api/write_process.py:282-298 | A count reaches the number of groups exactly when all groups are counted |
| `StoredFiles.PercentIsFull` | python/api/write_process.py:298 | Progress is the percentage rounded down, at most 100, and 100 exactly when nothing is missing |
| `StoredFiles.BuildAttributes` | python/api/data.py:304-321 | The loop builds two attributes for each group |
| `Bodies.WriteBodyItem` | python/api/write_process.py:263-280 | Of a body for several groups, magnitude image e of the i-th group is image i * 2E + e, its phase image i * 2E + E + e; a group that is listed again gets its last part; other groups are unchanged; it fails exactly when a group is missing or does not take its share |
| `Bodies.StoredInFull` | python/api/file_utils.py:335-397 | Byte for byte: the magnitude at row r, column c of echo e is at (e h w + r w + c) item sizes in the body, its phase as far behind the magnitudes, and the body has exactly the size of both |
| `Bodies.PackingUndoesStoring` | python/api/file_utils.py:373-389 | Packing the stored images in the order of a body gives the body back |
| `Bodies.PositionsCover` | python/api/file_utils.py:373-389 | Every position of a body belongs to an image, row and column |
| `Bodies.PositionsDiffer` | python/api/file_utils.py:373-389 | Different images, rows or columns have different positions |
| `Bodies.WriteBodyToGroup` | python/api/file_utils.py:335-397 | A body of the exact size is stored as magnitudes and phases; otherwise nothing changes |
| `Bodies.FillSlice` | python/api/file_utils.py:374-378 | The loop over the echos fills the slice array |
| `Bodies.FillImage` | python/api/file_utils.py:375-378 | One image is filled and the others are left alone |
| `Bodies.FromBuffer` | python/api/file_utils.py:376 | The samples of a part |
| `Bodies.SplitBody` | python/api/write_process.py:274-278 | The parts of a body |
| `Bodies.WriteBodiesToFile` | python/api/file_utils.py:400-403 | The bodies are written in order up to the first group that is missing or whose body has the wrong size; each group holds the last body written for it, and groups not reached are unchanged |
| `Bodies.WriteNext` | python/api/file_utils.py:400-403 | One turn of the loop stores one body, in the place of an earlier one for the same group, or changes nothing |
| `Bodies.WriteOne` | python/api/file_utils.py:335-397 | One group of the list is stored exactly when it exists and its body has the right size; all others are unchanged |
| `Bodies.PartSample` | python/api/write_process.py:274-278 | A sample of a part is the sample of the whole body at the shifted position |
| `GroupLists.ExtractUndoesPrint` | python/api/data.py:243-270 | A written list of numbers and intervals is extracted as its numbers, in order |
| `GroupLists.IntervalInFull` | python/api/data.py:243-270 | An interval is all numbers from the one to the other, both included, in order |
| `GroupLists.ListRefusedIff` | python/api/data.py:243-270 | A list is refused if and only if one of its pieces is neither a number nor two numbers with a hyphen |
| `GroupLists.ExtractIntegerListFromString` | python/api/data.py:243-270 | The loops compute `Extract`, or fail at the first malformed piece |
| `RollingLog.FilesHoldSuffix` | src/log/plog/Appenders/RollingFileAppender.h:85-102 | After any writes, rolls and restarts on any files that are there at first, the records in the files, read from the oldest to the newest, are the last ones of those there at first and those written since, in order |
| `RollingLog.FilesAreFew` | src/log/plog/Appenders/RollingFileAppender.h:85-102 | There are never more files than the maximum (one when it is not positive) |
| `RollingLog.NothingLostBelowVolume` | src/log/plog/Appenders/RollingFileAppender.h:45-48 | From no files and without a roll by hand, either all that was ever written is there, or the older files, one less than the maximum, hold at least the size limit each |
| `RollingLog.RolledFilesExceedLimit` | src/log/plog/Appenders/RollingFileAppender.h:45-48 | The appender itself rolls only a file that has passed the size limit |
| `RollingLog.AllThereOrFull` | src/log/plog/Appenders/RollingFileAppender.h:85-102 | A roll drops a record only when there are as many files as can be |
| `RollingLog.RollDropsLastIffFull` | src/log/plog/Appenders/RollingFileAppender.h:85-102 | A roll adds a file, and drops the last one exactly when there are as many as can be |
| `RollingLog.NoRollWithinLimit` | src/log/plog/Appenders/RollingFileAppender.h:45-48 | A log whose current file never passes the limit stays in one file and loses nothing |
| `RollingLog.LimitKeptIffFirstWritesFit` | src/log/plog/Appenders/RollingFileAppender.h:36-56 | Throughout a run, restarts included, no file exceeds a limit by more than its last record if and only if that holds of the files there at first and every first write of an appender finds a current file within the limit |
| `RollingLog.RestartPassesLimit` | src/log/plog/Appenders/RollingFileAppender.h:40-48 | With a restart between two large records a file exceeds the limit by both, because the first write is not checked |
| `RollingLog.SizesBounded` | src/log/plog/Appenders/RollingFileAppender.h:36-56 | From no files and without restarts, a file without its last record is within the size limit, or within the size of its header |
| `RollingLog.LimitKeptIffHeaderFits` | src/log/plog/Appenders/RollingFileAppender.h:105-119 | In these runs the size limit is kept if and only if the header fits in it |
| `RollingLog.HeadersStay` | src/log/plog/Appenders/RollingFileAppender.h:105-119 | Every file begins with the header |
| `RollingLog.NoRollNoLoss` | src/log/plog/Appenders/RollingFileAppender.h:45-48 | A log that never rolls loses nothing, also over restarts |
| `RollingAppenders.NameInFull` | src/log/plog/Appenders/RollingFileAppender.h:121-137 | The names in full: base, a dot and the numeral for older files, a dot and the extension |
| `RollingAppenders.NamesDiffer` | src/log/plog/Appenders/RollingFileAppender.h:121-137 | Different file numbers have different names |
| `RollingAppenders.RollingFileAppender.constructor` | src/log/plog/Appenders/RollingFileAppender.h:14-22 | An appender takes up the log files that are there; the size limit is at least 1000 |
| `RollingAppenders.RollingFileAppender.OpenLogFile` | src/log/plog/Appenders/RollingFileAppender.h:105-119 | The current file exists with its header, and no other file changes |
| `RollingAppenders.RollingFileAppender.UnlinkLast` | src/log/plog/Appenders/RollingFileAppender.h:89-90 | The last file makes room |
| `RollingAppenders.RollingFileAppender.MoveUp` | src/log/plog/Appenders/RollingFileAppender.h:92-98 | One turn of the rename loop moves the gap down by one, also when the file to rename is missing |
| `RollingAppenders.RollingFileAppender.RollLogFiles` | src/log/plog/Appenders/RollingFileAppender.h:85-102 | Unlinking and renaming by name does to the directory what `Roll` does to the list of files |
| `RollingAppenders.RollingFileAppender.Write` | src/log/plog/Appenders/RollingFileAppender.h:36-56 | A write does what `Write` does to the list of files, and the cached size stays right |
| `ThreadPool.ShutdownRunsEverything` | benchmarks/cpp-httplib/httplib.h:533-570 | When `shutdown` returns, the queue is empty and every job enqueued has been run exactly once |
| `ThreadPool.NothingLostIffThreads` | benchmarks/cpp-httplib/httplib.h:515-546 | That holds in every run if and only if the pool has a thread |
| `ThreadPool.ShutdownReturns` | benchmarks/cpp-httplib/httplib.h:533-546 | From every reachable state `shutdown` can be called, and goes on until it returns, with all jobs enqueued so far run exactly once |
| `ThreadPool.NoWakeupIsLost` | benchmarks/cpp-httplib/httplib.h:527-570 | In every reachable state each job is queued, in hand or run, the queue is in order of arrival, and while a worker waits at least as many others as there are queued jobs are about to look at the queue |
| `ThreadPool.StepUsesWork` | benchmarks/cpp-httplib/httplib.h:533-570 | Setting the flag, and after it every step, even a spurious wakeup, decreases the work left |
| `ThreadPool.NeverStuck` | benchmarks/cpp-httplib/httplib.h:533-570 | Until `shutdown` returns some step can be taken that needs no spurious wakeup |
| `ThreadPool.StepKeepsPlaces` | benchmarks/cpp-httplib/httplib.h:527-570 | No step loses or duplicates a job |
| `ThreadPool.StepKeepsAlert` | benchmarks/cpp-httplib/httplib.h:556-565 | Every step keeps enough workers awake |
| `ThreadPool.StepKeepsLeaving` | benchmarks/cpp-httplib/httplib.h:556-561 | Workers leave only after the shutdown, when nothing is left |

## Left out

Assumptions of the ring over exchange files:

- The lock file never runs into its five-second timeout, after which the source goes on without the lock; the unlocked read of the client lists sees a whole file; and the run starts when both servers are bound.
- There is one `DataSupplier` for each server, at most 2^32 - 1 datasets and fewer than 2^32 - 2 workers, so that ids and client ids do not wrap; input files exist and are not result files.
- `f`, what a worker computes, is the same function for all workers; the matrix arithmetic behind it is not modelled.
- Polling loops are modelled one round at a time; a round that finds nothing is a step that changes nothing.
- The field `data` of a dataset is not initialised by the source until it is set; the model takes it as absent.

Assumptions of the sockets:

- Headers of four bytes arrive whole, as the source assumes; payloads do not. Payloads are shorter than 2^32 bytes.
- Each access to the socket map, the stop flag, the callback slot and the merged queue is one step; data races on them are not modelled. Reconnection and closing are left out.
- The supplier's `send` is whole: each call puts its id, its length, its payload or its end signal on the connection in one step, and does not fail. What the receiver gets may still be cut anywhere.
- In `SocketRing` a worker's connection to the supplier carries an end signal before the worker sends its own, and its results are those of the datasets it received, in order.

Assumptions of the ZeroMQ server:

- A wait ends only when it is notified, because the source guards it with `if`. Multi-part messages are one step, as ZeroMQ delivers them.
- The output file is opened for appending, so that its offsets have no effect; blocks are in order of completion. The 32-bit product of length and dataset number, which wraps for inputs beyond 4 GiB, is not modelled; there are fewer than 2^32 - 1 datasets.

Assumptions of the HTTP code:

- Callbacks accept everything; reads and writes of sockets do not fail or time out; nothing is being shut down while a body is written; the compressor changes nothing.
- The two regular expressions for header lines are written out as matchers.
- `strtoul` is a function, for a 64-bit `unsigned long`.
- TLS, routing, ranges, compression, MIME tables and the client verbs.

Assumptions of the upload pipeline:

- Posts are well-formed: their groups exist and their bodies have the right size. A failed item ends the source's iteration without `task_done`; that is not modelled. File creation comes before the posts.
- Progress is computed with exact numbers where the source rounds floating-point quotients. Samples are opaque byte groups. `isdigit` is that of ASCII text.
- Groups of the file and requests to write them are addressed by number; the names built from the numbers are not modelled. HDF5, flushing and the JSON side file.

Assumptions of the log and the thread pool:

- Files are only touched by appenders, one after the other; input and output succeed; the settings stay as constructed. Sizes do not overflow.
- The log files found by an appender are numbered without gaps and are not more than its own maximum, as an appender with the same settings leaves them; files left by other settings are not modelled.
- Jobs end, throw nothing, and nothing is enqueued after the shutdown.

Form:

- Protocols whose threads interleave (`FileRing`, `SocketSupplier`, `SocketAggregator`, `Handshake`, `Upload`, `ThreadPool`) are modelled on values, one step for each atomic region, because a method of a class cannot be interleaved; aliasing between the objects of one process is not captured there. The sequential pieces that they are made of are classes.
- `std::map`, `std::multimap`, `std::set` and JSON objects are sequences in key order or maps.
- Strings of the HTTP code are sequences of characters below 256; nothing is said about other characters.

Contracts that say less than one might expect:

- RoundTripIffPrintable: about one call of `parse` with callbacks that accept everything; `PiecesReadBackIffNoLoss` is about several calls.
- ParseUndoesPrint: about one call of `parse` with callbacks that accept everything; `PiecesReadBackIffNoLoss` is about several calls.
- PiecesReadBackIffNoLoss: about printable items; an item that is not printable may come back when its body is cut in the right place.
- ParseHeaders: the branch for a callback that refuses is left out.
- ParseBody: the branch for a callback that refuses is left out.
- ParseTurn: the branch for a callback that refuses is left out.
- Parse: the branches for callbacks that refuse are left out.
- RoundTripIffGoodAndDistinct: about keys and values of characters below 256, as bytes are, in lists sorted by key, as a multimap holds them.
- ParsePrinted: about keys that are kept as they are; `RoundTripIffGoodAndDistinct` is about all keys.
- ReadPrintedParam: about keys that are kept as they are; `RoundTripIffGoodAndDistinct` is about all keys.
- ReadsBackIffDone: about writes that succeed.
- CutAcceptedIffBehindCr: about codings that break off; bytes changed on the way are not modelled.
- Read: timeouts, read errors and reads of no bytes are left out.
- ReadSocket: read errors are left out.
- GetLine: read errors are left out.
- WriteData: failing writes are left out.
- Write: of `DataSink`, without the compressor and failing writes.
- Done: of `DataSink`, without the compressor and failing writes.
- WriteContentChunked: failing writes and the test for a shutdown are left out.
- TryLock: one attempt; the retries and the timeout around it are left out.
- RingAlone: one worker, and the three loops one after the other; `AggregatorExitsWithEverything` has the interleavings.
- SupplierRun: the read threads end at once and in order; `StepConserves` has the interleavings.
- WorkerRun: no other worker pulls meanwhile; `AggregatorExitsWithEverything` has the interleavings.
- AggregatorRun: one client, and nothing is pushed meanwhile; `AggregatorExitsWithEverything` has the interleavings.
- PercentIsFull: progress in exact arithmetic.
- CompletionIsPermutation: the order of the output blocks is that of completion, not of the datasets.
- StoredImpliesUploaded: progress in exact arithmetic.
- NoWakeupIsLost: jobs are started in order of arrival; in which order they end is not stated.

Other parts of the repository: `Variant`, `Definition`, `Parameter`, log formatters, process launch, the status files of `process.py`, the Flask handlers, the frontend, image rendering and the build.
