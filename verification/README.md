# A verified model of a small Redis clone

The repository is a multi-threaded key-value server that speaks RESP2 (the Redis
serialization protocol). This project models its four cores in Dafny and proves what
they are for:

- the codec: a recursive parser with a cursor over a mutable buffer, and the printer
  that undoes it;
- the command executor: GET, SET and DEL over ten partitioned tables of printed
  values, which behave as one map from keys to RESP values;
- the thread pool: queue, mutex, workers and shutdown, over every interleaving;
- the connection pipeline: accepting thread, epoll thread and the three kinds of jobs,
  with the mutex of each connection's state as a token that threads hand on.

WholeServer puts the store and the pipeline together, PooledServer the pipeline and its three
pools.

## How the files follow the source

| file | follows | form |
|---|---|---|
| ByteStrings | C strings, `std::string` | values |
| RespObject | src/resp_parser.h | values; the two printing loops as methods |
| RespSyntax, RespParser, RespLaws | src/resp_parser.cpp | what the parser does, as functions of the unread bytes; the class with buffer and cursor that does it; the laws |
| RespGrammar, ReplyReader, Texts | src/resp_parser.cpp, src/resp_parser.h | references written byte by byte, apart from the model's own functions and constants: the grammar of what is accepted, a client's reader of what is printed, the text form |
| DataStores | src/data_store.cpp, src/data_store.h | class |
| Commands, Executor, Refinement, Sessions, Wire | src/orchestrator.cpp:559-843 | what commands do, as functions; the class with ten stores that does it; the one map they refine; what clients may rely on; and the same in bytes |
| Clients | src/data_store.cpp, src/orchestrator.cpp:682-843 | interleaved critical sections |
| ThreadPools, PoolCode | src/thread_pool.cpp, src/thread_pool.h | interleaved steps; the class whose methods are sequences of such steps |
| Connections | src/state.h | value and class |
| Pipeline, PipelineInvariant, PipelineLaws, Dialogues, PipelineCode | src/orchestrator.cpp | interleaved steps; what every step keeps; the laws over whole runs; what goes over each connection; the class whose methods are sequences of such steps |
| WholeServer | src/orchestrator.cpp | Pipeline and Clients running together |
| PooledServer | src/orchestrator.cpp:509-547, src/thread_pool.cpp | Pipeline and three ThreadPools running together |

Functions whose meaning is stated by the methods and lemmas about them have no row below.
What they fix by convention (tags, words, texts, separators, the number ten) is stated with
numbers instead of names in RespGrammar, ReplyReader, Texts and Wire.
They are: `RespObject.Serialize` and `RespObject.ToText` (src/resp_parser.h:134-407); `RespSyntax.GetType`
to `GetObject` (src/resp_parser.cpp:4-284); `Commands.Execute` and its parts
(src/orchestrator.cpp:568-843); the `Enabled` and `Step` functions of the machines
`Clients`, `ThreadPools`, `Pipeline`, `WholeServer` and `PooledServer`.

The domain of faithful values, `RespObject.Canonical`, holds null bulk strings, bulk
strings without CR, LF or NUL, and arrays of such values nested to any depth, each size
within a C int. `RespLaws.RoundTripExactly` shows that nothing else makes the round trip.

## Where the code and what is said of it differ

The model follows the code.

- A successful GET returns `true` in the slot documented as "whether it failed"
  (src/orchestrator.cpp:640-646 and 789). The job that records the answer then marks the
  connection, and it is closed after the write. `Reply.fatal` keeps that flag;
  `Sessions.ReplyClosesExactly` says for which requests it is set.
- The index of the table is the remainder of a plain `char` (src/orchestrator.cpp:633-634).
  Keys that start with a byte of 128 or more index outside the array, except those whose
  remainder is zero. `Commands.PartitionInRange` gives the exact condition, `Indexable`;
  a request all of whose keys meet it is `Servable`. Nothing rejects the others:
  `Sessions.SetIsServableExactly` says so for every SET, `Sessions.KeyOutsideTheTables` is one.
- A read may fill its buffer of 513 bytes and leave no NUL in it
  (src/orchestrator.cpp:872-900). `Connections.ReadIsTerminated` says exactly when the buffer
  holds a C string; the read loop is modelled on such reads.
- A bulk string with CR or LF in it is rejected (src/resp_parser.cpp:113), which RESP2 allows.
  One with NUL in it is accepted and cut there (src/resp_parser.cpp:127-130).
- A negative size of an array, such as the null array of RESP2, reads as an array without
  elements (src/resp_parser.cpp:178-183); `RespGrammar.NegativeSizes` says so for every size
  that casts to a negative int.
- The error for a request that does not parse quotes the request (src/orchestrator.cpp:946-950),
  line ends included. `Wire.ClientReadsTheReply` says exactly when a client can read it.
- Keys are texts of values, and an array may read as a bulk string does
  (src/resp_parser.h:299-315): `Texts.TextsMayCollide`.
- `destroy` waits until the count of threads is zero, but a thread is counted only after it
  was created (src/thread_pool.cpp:7-29). `ThreadPools.ZeroThreadsMeansAllExited` says exactly
  when zero means that all have exited, `ThreadPools.DestroyCanReturnTooEarly` is a run in
  which it does not.
- `lock_held` stays true while a worker sleeps in the timed wait (src/thread_pool.cpp:71-148).
- Read jobs go to the processing pool (src/orchestrator.cpp:429); `ReadPool` stands for it.
- src/orchestrator.cpp:413 declares a mutex of its own instead of locking the shared one.
  The lookup of the state is one atomic step here.
- Sockets stay in `m_processing_sockets` until they are closed, so nothing is claimed about
  that set being disjoint from the waiting ones.
- The documented order of locks (src/orchestrator.h:199-225) leaves some locks out.
  `PipelineLaws.LocksAreTakenInOrder` extends it to all that the code takes.
- `epoll_rearm_unsafe` leaves the mask of events unset (src/orchestrator.cpp:282-298). Which
  watched sockets are reported is a free choice here.

## Model

| member | source | states |
|---|---|---|
| `ByteStrings.CString` | src/data_store.h:71-100 | a C string is what precedes the first NUL, and everything when there is none |
| `RespObject.SerializeToStream` | src/resp_parser.h:344-353 | the loop over the elements prints the header and then every element in order: the printed form, which is the one that a client reads back (`ReplyReader.ReadsBackExactly`) |
| `RespObject.ToTextByLoop` | src/resp_parser.h:299-315 | the loop with its separator test yields the text form, which `Texts.ArrayText` gives byte by byte |
| `RespObject.SerializeAllAppend` | src/resp_parser.h:324-337 | appending an element to an array appends its printed form to what is printed |
| `RespObject.SerializeIsNulFree` | src/orchestrator.cpp:702-704 | the printed form of a faithful value survives the store's C strings whole |
| `RespObject.ToTextIsNulFree` | src/orchestrator.cpp:695-704 | so does a key made from one, arrays included |
| `RespSyntax.ToInt32` | src/resp_parser.cpp:49-56 | the cast of a long to int: in range, congruent modulo 2^32, and the identity on what fits |
| `RespSyntax.SkipCrLf` | src/resp_parser.cpp:59-78 | succeeds exactly on bytes that start with CR LF, and consumes them or nothing |
| `RespSyntax.GetObject` | src/resp_parser.cpp:254-284 | terminates on the bytes left, whatever sizes are announced; consumes no more than there are, and at least four on success |
| `RespParser.Parser.constructor` | src/resp_parser.h:430-437 | the buffer holds the text and its final NUL, and all of it is unread |
| `RespParser.Parser.GetType` | src/resp_parser.cpp:4-38 | same tag, error and advance as the specification, buffer untouched |
| `RespParser.Parser.GetLength` | src/resp_parser.cpp:40-57 | same length (strtol, then the cast), error and advance as the specification |
| `RespParser.Parser.SkipCrLf` | src/resp_parser.cpp:59-78 | same error and advance as the specification |
| `RespParser.Parser.GetBody` | src/resp_parser.cpp:104-133 | scans for CR and LF, writes the temporary NUL, copies the C string and restores the byte: the buffer ends as it began on every path, the text is cut at the first NUL |
| `RespParser.Parser.GetBulkInternal` | src/resp_parser.cpp:80-133 | null, empty and ordinary bulk strings: text, length, error and cursor as specified, buffer as before, cursor inside it and never to the left of where it was |
| `RespParser.Parser.GetBulkString` | src/resp_parser.cpp:135-161 | the bulk object or the error, as specified; buffer as before |
| `RespParser.Parser.GetArray` | src/resp_parser.cpp:163-252 | empty, negative and ordinary sizes, as `RespGrammar.AcceptsExactlyTheGrammar` and `RespGrammar.ArrayErrorsInOrder` fix them; buffer as before |
| `RespParser.Parser.GetElements` | src/resp_parser.cpp:195-252 | the loop appends exactly the elements that the specification yields and stops at the first error |
| `RespParser.Parser.GetObject` | src/resp_parser.cpp:254-284 | the whole parser equals its specification on every text: value, error and cursor; buffer as before |
| `RespLaws.DigitsOfDecimal` | src/resp_parser.h:261-270 | reading the printed digits gives the number back |
| `RespLaws.StrToLByShape` | src/resp_parser.cpp:49-56 | white space, sign and digits determine strtol's value, saturated, and where it stops |
| `RespLaws.GetLengthOfDecimal` | src/resp_parser.cpp:40-57 | for every number printed as a size, what is read back: saturated to long, then cast to int |
| `RespLaws.SizeSurvives` | src/resp_parser.cpp:49-56 | a size comes back as itself if and only if it fits an int |
| `RespLaws.BulkBodyOfText` | src/resp_parser.cpp:104-133 | text without CR, LF and NUL, and CR LF after it, is read back whole, whatever follows |
| `RespLaws.RoundTrip` | src/resp_parser.cpp:40-284 | for every faithful value and every continuation, parsing the printed form yields the value and stops exactly at the end of the printed form |
| `RespLaws.RoundTripItems` | src/resp_parser.cpp:163-252 | the same for the elements of an array, behind those already read |
| `RespLaws.ParsedIsCanonical` | src/resp_parser.cpp:80-252 | every parse that succeeds, odd signs, zeros, white space, wrapped sizes and NULs included, yields a faithful value |
| `RespLaws.RoundTripExactly` | src/resp_parser.h:251-353 | a value makes the round trip if and only if it is faithful |
| `RespLaws.ReparseGivesSameValue` | src/resp_parser.cpp:40-284 | printing what was parsed and parsing it again changes nothing |
| `RespLaws.GetLengthIsLocal` | src/resp_parser.cpp:40-57 | a size depends on its own bytes and the next only |
| `RespLaws.ParseIsLocal` | src/resp_parser.cpp:40-252 | a parse that succeeds depends on the bytes it consumed only |
| `RespLaws.SerializeIsPrefixFree` | src/resp_parser.h:261-353 | no printed faithful value is a prefix of another, so printing is injective on them |
| `RespLaws.StrictPrefixIsRejected` | src/resp_parser.cpp:40-252 | every strict prefix of a printed value, as a partial read leaves it, is rejected |
| `RespLaws.ParsedSizeIsBounded` | src/resp_parser.cpp:163-252 | four times the number of values, and so of nesting levels, is at most the bytes consumed |
| `RespGrammar.DigitsArePositional` | src/resp_parser.cpp:49-56 | the digits of a size are read in base ten, the first counting most |
| `RespGrammar.DecimalIsPlain` | src/resp_parser.h:261-270 | a size is printed in base ten without a leading zero |
| `RespGrammar.SizesAreRead` | src/resp_parser.cpp:40-57 | blanks, a plus or minus sign and digits are read as their number, clipped to a long and wrapped to an int; a zero at the very end of the text is no number |
| `RespGrammar.AcceptsExactlyTheGrammar` | src/resp_parser.cpp:4-284 | for all bytes, values and numbers: the parser accepts these bytes as this value, consuming so many, if and only if the grammar says that they encode it; so it rejects exactly what encodes nothing |
| `RespGrammar.NegativeSizes` | src/resp_parser.cpp:178-183 | every size text that casts to a negative int makes an array without elements and a null bulk string, and nothing behind the header is read |
| `RespGrammar.NullArray` | src/resp_parser.cpp:178-183 | the null array of RESP2 is one of them |
| `RespGrammar.TagErrors` | src/resp_parser.cpp:4-38 | which first bytes are tags, which tags are not implemented, and what is reported for the rest |
| `RespGrammar.LineEndErrors` | src/resp_parser.cpp:59-78 | a line end that is cut off is told from one that is missing |
| `RespGrammar.TextErrors` | src/resp_parser.cpp:104-124 | a line end inside a text is told from a text that is too short |
| `RespGrammar.BulkErrorsInOrder` | src/resp_parser.cpp:80-161 | the first thing that goes wrong with a bulk string is what is reported |
| `RespGrammar.ArrayErrorsInOrder` | src/resp_parser.cpp:163-284 | likewise for an array, whose elements fail in turn |
| `ReplyReader.ReadsBackExactly` | src/resp_parser.h:134-407 | for every value of the five kinds and every continuation: a client that dispatches on the first byte reads back the value and exactly its printed form, if and only if no simple string or error in it has a line end inside |
| `Texts.SimpleTexts` | src/resp_parser.h:134-139 | a bulk string reads as its value, a null as "nil", a number as its sign and digits |
| `Texts.ArrayText` | src/resp_parser.h:299-315 | an array reads as a bracket, the texts of its elements at their offsets with comma and blank between neighbours only, and a bracket: every byte of the text is fixed |
| `Texts.TextsMayCollide` | src/resp_parser.h:299-315 | three different values that read the same, and so are one key |
| `DataStores.DataStore.constructor` | src/data_store.h:15-29 | a store starts empty |
| `DataStores.DataStore.Set` | src/data_store.cpp:3-16 | the key has the value now, other keys have theirs |
| `DataStores.DataStore.Del` | src/data_store.cpp:18-33 | the key is gone, others stay; true if and only if it was there |
| `DataStores.DataStore.Get` | src/data_store.cpp:35-49 | the value of the key, or nothing; the store unchanged |
| `DataStores.DataStore.SetCString` | src/data_store.h:71-82 | key and value are cut at their first NUL |
| `DataStores.DataStore.DelCString` | src/data_store.h:84-90 | the key is cut at its first NUL |
| `DataStores.DataStore.GetCString` | src/data_store.h:92-100 | the key is cut at its first NUL |
| `Commands.PartitionInRange` | src/orchestrator.cpp:629-635 | the index lies within the ten tables if and only if the name is empty, starts with a byte below 128, or with one whose signed value is a multiple of ten |
| `Commands.PartitionByFirstByte` | src/orchestrator.cpp:629-635 | the index is the first byte modulo ten for ASCII, minus a remainder for others, and zero for the empty name |
| `Wire.CommandsByTheirWords` | src/orchestrator.cpp:568-609 | exactly which values are commands: at least two elements, the first reading as lower-case "get", "del" or, with a third element, "set", the second a text; everything else is refused |
| `Executor.Orchestrator.constructor` | src/orchestrator.h:242-317 | ten separate empty stores |
| `Executor.Orchestrator.DoSet` | src/orchestrator.cpp:695-729 | stores the printed value in the table of the key, and touches nothing else |
| `Executor.Orchestrator.DoGet` | src/orchestrator.cpp:742-790 | null when absent, otherwise the stored string parsed again, with the closing flag; no table changes |
| `Executor.Orchestrator.DoDelInternal` | src/orchestrator.cpp:800-805 | one key removed from its own table, and whether it was there |
| `Executor.Orchestrator.DoDel` | src/orchestrator.cpp:818-843 | the loop removes every argument in turn and counts the successes |
| `Executor.Orchestrator.DoOperation` | src/orchestrator.cpp:648-682 | every command, valid or not: tables and reply as specified |
| `Executor.Orchestrator.ParseAndRun` | src/orchestrator.cpp:931-990 | every request text, parse errors included: tables and reply as specified, and as the Wire rows below give them in bytes |
| `Refinement.StoredPrintedValue` | src/orchestrator.cpp:702-704 | what SET stores parses in full back to the value and is not cut by the C string |
| `Refinement.StoreSetRefines` | src/orchestrator.cpp:695-729 | a set in its partition is the update of one map, and keeps every key in the table it selects |
| `Refinement.StoreGetRefines` | src/orchestrator.cpp:742-790 | a key is found in its partition if and only if the one map has it, with that value |
| `Refinement.StoreDelRefines` | src/orchestrator.cpp:800-805 | a removal is a removal from one map, which shrinks by one exactly when it reports so |
| `Refinement.KeysAreWhereTheirFirstByteSays` | src/orchestrator.cpp:629-635 | a stored key is in the table of ten that its first byte picks and in no other, and each of the ten can be picked |
| `Refinement.StoreDelAllRefines` | src/orchestrator.cpp:818-843 | DEL with any arguments, repeated or of mixed partitions: counts the distinct keys that were present, leaves the map without exactly those, and old size = new size + count |
| `Refinement.KeysAreNulFree` | src/orchestrator.cpp:695-843 | no key of a parsed command holds a NUL |
| `Refinement.ExecuteRefines` | src/orchestrator.cpp:648-843 | every command gives on ten string tables the reply and the contents that it gives on one map of values |
| `Refinement.HandleRefines` | src/orchestrator.cpp:931-990 | so does every request text, well-formed or not |
| `Refinement.RunRefines` | src/orchestrator.cpp:629-843 | so does every sequence of requests: same replies, same contents after each |
| `Refinement.StoredTextsAlwaysParse` | src/orchestrator.cpp:768-789 | after any requests to a fresh server the branch of GET for values that do not parse is unreachable, and its reply prints as the bytes stored |
| `Sessions.SetIsAnswered` | src/orchestrator.cpp:568-609 | the bytes of a SET of a usable key and any faithful value are accepted as such, update the one map and are answered with OK |
| `Sessions.GetIsAnswered` | src/orchestrator.cpp:568-609 | the bytes of a GET are accepted as such and answered with the value, or null, and change nothing |
| `Sessions.DelIsAnswered` | src/orchestrator.cpp:568-609 | the bytes of a DEL of any usable keys are accepted as such and answered with the number of distinct keys present |
| `Sessions.GetFindsWhatSetPut` | src/orchestrator.cpp:695-790 | from any store, after the bytes of a SET and any requests that neither set nor delete the key, malformed ones included, the bytes of a GET are answered with the value |
| `Sessions.GetFindsNothingAfterDel` | src/orchestrator.cpp:742-843 | likewise after a DEL of several keys a GET of any of them is answered with null |
| `Sessions.SetIsServableExactly` | src/orchestrator.cpp:629-635 | a SET with any key that can be sent passes the check of commands, and its key indexes the tables if and only if its first byte allows |
| `Sessions.KeyOutsideTheTables` | src/orchestrator.cpp:629-635 | the key of the one byte 255 arrives in a valid SET and gives the index -1 |
| `Sessions.ReplyClosesExactly` | src/orchestrator.cpp:648-790 | the flag that closes the connection is set if and only if the request did not parse or is a GET whose key is present |
| `Wire.GetOnTheWire` | src/orchestrator.cpp:742-790 | any bytes that encode a GET change nothing; the client is sent the printed value, and the connection closes, if the key is present, and "$-1" otherwise |
| `Wire.GetFromAnyTables` | src/orchestrator.cpp:742-790 | on tables of any contents a GET answers with the value that the stored text encodes, or with null, and only a value closes the connection |
| `Wire.SetOnTheWire` | src/orchestrator.cpp:695-729 | any bytes that encode a SET store the value under the key, and the client is sent "+OK" |
| `Wire.DelOnTheWire` | src/orchestrator.cpp:818-843 | any bytes that encode a DEL remove its keys, and the client is sent a colon and, in plain digits, how many were present |
| `Wire.RefusedOnTheWire` | src/orchestrator.cpp:648-682 | any other value changes nothing, and the client is sent "-Invalid command" |
| `Wire.UnparsedOnTheWire` | src/orchestrator.cpp:938-960 | bytes that encode nothing change nothing, and the client is sent the error that quotes them, and is then disconnected |
| `Wire.ParseErrorsStandOut` | src/orchestrator.cpp:938-960 | no command is ever answered with such an error |
| `Wire.ServableByTheKeys` | src/orchestrator.cpp:629-635 | a GET or SET stays within the ten tables if and only if its key does, a DEL if and only if all its keys do |
| `Wire.ClientReadsTheReply` | src/orchestrator.cpp:931-990 | a client reads back the reply, whatever follows it, for every request that encodes a value, and for one that does not if and only if it has no line end in it |
| `Wire.GetInBytes` | src/orchestrator.cpp:583-600 | "*2", "$3", "get" and the key, in these bytes, is the GET of that key, whatever follows |
| `Wire.SetInBytes` | src/orchestrator.cpp:600-608 | "*3", "$3", "set", the key and the printed value is the SET of that key |
| `Wire.DelInBytes` | src/orchestrator.cpp:583-600 | the count, "$3", "del" and the keys is the DEL of exactly these keys |
| `Clients.StepKeepsInv` | src/data_store.cpp:3-49 | each critical section keeps the partition, the agreement with the replayed log, each client's account since the start of its command, and the balance of creations and deletions |
| `Clients.EveryInterleavingIsSequential` | src/orchestrator.cpp:648-843 | at every point of every interleaving the tables equal one map that goes through the critical sections in lock order, every result is the one that map gives, every reply and running DEL count is what the client's own sections since the start of its command, all of them, add up to, and live keys = creating SETs less DEL counts, finished and running |
| `Clients.UninterruptedIsExecute` | src/orchestrator.cpp:648-682 | without interruption, the steps of a command are the command as the executor runs it |
| `ThreadPools.StepKeepsInv` | src/thread_pool.cpp:37-188 | every step of every thread keeps the lock discipline, the conservation of jobs and the count of threads |
| `ThreadPools.JobsAreConservedInOrder` | src/thread_pool.cpp:37-69 | started jobs followed by the queue are the submitted jobs in order; each job is queued, in one worker's hands or finished, none lost or doubled |
| `ThreadPools.WorkersObeyTheLock` | src/thread_pool.cpp:71-148 | one owner at most; `lock_held` is true ownership outside the wait; no job runs and the flag is not read by an owner |
| `ThreadPools.ShutdownStep` | src/thread_pool.cpp:71-148 | once the flag is set, every worker step uses up rank and no other step adds any |
| `ThreadPools.ShutdownIsBounded` | src/thread_pool.cpp:190-213 | so workers take only as many more steps as their ranks allow, whatever submitters do |
| `ThreadPools.SomebodyCanMove` | src/thread_pool.cpp:71-148 | until all workers have exited, a worker can step, or the submitter that owns the mutex can |
| `ThreadPools.AtMostOneMoreJob` | src/thread_pool.cpp:71-148 | once the flag is set no worker begins more than one job |
| `ThreadPools.ZeroThreadsMeansAllExited` | src/thread_pool.cpp:190-213 | a count of zero means that all workers have exited if and only if no created thread is still uncounted; then none owns the mutex or has a job |
| `ThreadPools.DestroyCanReturnTooEarly` | src/thread_pool.cpp:7-29 | a run in which `destroy` returns while a thread lives, because the thread was not yet counted |
| `ThreadPools.ExitedForGood` | src/thread_pool.cpp:71-148 | once all have exited no worker steps and no job is taken, whatever is submitted |
| `ThreadPools.DestroyReturnsForGood` | src/thread_pool.cpp:190-213 | when all threads were counted, `destroy` returns to a pool at rest that stays at rest |
| `PoolCode.ThreadPool.constructor` | src/thread_pool.h:143-153 | the fields of a new pool are the machine's start |
| `PoolCode.ThreadPool.AddThread` | src/thread_pool.cpp:7-29 | creation, then counting: two steps of the machine |
| `PoolCode.ThreadPool.AddJob` | src/thread_pool.cpp:150-188 | four steps of the machine; the job is last in the queue, the mutex free, nothing else changed |
| `PoolCode.ThreadPool.ProcessJobUnsafe` | src/thread_pool.cpp:37-69 | with a job: the first is taken, run after the unlock, and finished; without: only the unlock; always a run of the machine |
| `PoolCode.ThreadPool.TimedWait` | src/thread_pool.cpp:106-132 | gives up the mutex, any run of the other threads takes place, and it has the mutex again, with or without a job |
| `PoolCode.ThreadPool.LoopOnce` | src/thread_pool.cpp:71-148 | one turn of the loop exits exactly if the flag is set, else takes the first job queued, or the first that any run of the other threads leaves during the wait, and ends without the mutex; always a run of the machine |
| `PoolCode.ThreadPool.Destroy` | src/thread_pool.cpp:190-213 | sets the flag and polls while the other threads do anything; when it returns the count is zero, and all threads have exited if and only if none was still to be counted |
| `Connections.PaddedText` | src/state.h:123-138 | a special error shorter than its buffer is read back whole |
| `Connections.ReadIsTerminated` | src/orchestrator.cpp:872-900 | the C string in the buffer of a read is that of the bytes read, whatever lies behind the buffer, if and only if the read did not fill it or brought a NUL |
| `Connections.FallbackTexts` | src/orchestrator.cpp:1007-1026 | a special error goes before the reply, the reply before the fixed text; and the texts of both errors |
| `Connections.NewStateIsEmpty` | src/state.h:75-101 | a new or reset state has nothing read, parsed or answered, no error, and a free mutex |
| `Connections.State.constructor` | src/state.h:75-83 | a new state is clean and unlocked |
| `Connections.State.Reset` | src/state.h:92-101 | nothing of the last request stays, and the mutex is free |
| `Connections.State.SetSpecialError` | src/state.h:123-138 | marks the error and leaves the C string of the text in the bounded buffer |
| `Connections.State.RecordAnswer` | src/orchestrator.cpp:931-990 | command, response, error mark and default error exactly as the branches of the parse job set them |
| `PipelineLaws.StepKeepsInv` | src/orchestrator.cpp:140-547 | every step of every thread keeps every connection in one place, its mutex and contents right for that place, and the kernel's set inside the waiting one |
| `PipelineLaws.ExactlyOnePlace` | src/orchestrator.cpp:317-436 | over every interleaving an open connection is in exactly one of: accepting thread, waiting set, ready set, dispatch, one place of one queue, one worker; a closed one in none; so never two jobs for one connection |
| `PipelineLaws.MutexIsAHandOffToken` | src/orchestrator.cpp:408-420 | the mutex is locked from dispatch to release and free elsewhere; the locks of dispatch and of `remove_socket` never block; lookups never miss, so the asserts never fail |
| `PipelineLaws.OneLockOneUnlock` | src/orchestrator.cpp:10-18 | only dispatch locks a state's mutex; only `reset` after a write and `close_and_cleanup` release it, and each finds it locked |
| `PipelineLaws.NobodyIsStuck` | src/orchestrator.cpp:317-547 | every thread with something in hand can take its next step, and a free worker as soon as its queue has a job; for the inside of a parse job see `WholeServer.NobodyIsStuck` |
| `PipelineLaws.KernelWatchesOnlyWaitingSockets` | src/orchestrator.cpp:246-393 | the kernel's set stays inside the waiting set, and is empty while it is armed anew and while jobs are dispatched, across emptying, arming, polling and harvesting with insertions at any time; reported sockets are found there and in the map, at most ten at a time, and are out of the waiting set before dispatch |
| `PipelineLaws.JobsFindWhatTheyNeed` | src/orchestrator.cpp:883-1044 | read jobs start clean, parse jobs have the bytes of one read only, write jobs the value that these bytes parse to, an answer to it, and no special error; a connection is kept after a write only if the answer does not close it |
| `PipelineLaws.LocksAreTakenInOrder` | src/orchestrator.h:199-225 | every lock is taken above all that the thread holds, in one order of all locks |
| `PipelineLaws.ChangesAreLocked` | src/orchestrator.cpp:10-547 | the table of locks leaves none out: a step changes each shared set, map, queue and state only under the lock for it |
| `PipelineLaws.NoRingOfWaiters` | src/orchestrator.h:199-225 | there is no ring of threads, each in the middle of a step, in which each wants a lock that the next one has |
| `Dialogues.StepKeepsDialogues` | src/orchestrator.cpp:883-1044 | every step of every thread keeps, for each connection, its notes in turn and its state and job in step with them |
| `Dialogues.RequestsDoNotMix` | src/orchestrator.cpp:883-1044 | over every interleaving, on each connection: a batch is read, one reply to this batch is recorded, the bytes of this reply are sent once, and only then the next batch is read; at most the last turn is unfinished, and none follows a reply that closes; and the state holds what its own dialogue says |
| `Dialogues.TurnByTurn` | src/orchestrator.cpp:883-1044 | so the n-th message is the n-th recorded reply, which is to the n-th batch |
| `Dialogues.AnswerIsUndisturbed` | src/orchestrator.cpp:931-1044 | from the recording of an answer, through the queue, to the write, no step of any thread changes it; the first that does is the reset by the job that wrote it |
| `PipelineCode.Orchestrator.constructor` | src/orchestrator.h:242-317 | the fields of a new server are the machine's start |
| `PipelineCode.Orchestrator.AcceptOne` | src/orchestrator.cpp:140-203 | a run of the machine; the new socket waits, with a clean state |
| `PipelineCode.Orchestrator.AcceptAll` | src/orchestrator.cpp:140-203 | any number of turns of the accepting thread: all new sockets wait, nothing old changes |
| `PipelineCode.Orchestrator.EpollTurn` | src/orchestrator.cpp:317-396 | with any sockets accepted while the thread waits, and the wait ended by events, an interrupt or the time: the ready sockets leave the waiting set and each has one job at the end of the read queue; no state changes but for its mutex |
| `PipelineCode.Orchestrator.CreateProcessingJob` | src/orchestrator.cpp:408-436 | the state is found, its mutex was free and is locked now, the job is last in the queue |
| `PipelineCode.Orchestrator.EpollEmpty` | src/orchestrator.cpp:246-273 | the machine's step that takes all waiting sockets from the kernel |
| `PipelineCode.Orchestrator.EpollRearm` | src/orchestrator.cpp:282-308 | the machine's step that gives all waiting sockets to the kernel |
| `PipelineCode.Orchestrator.Harvest` | src/orchestrator.cpp:346-392 | ready sockets move from waiting to processing in one critical section |
| `PipelineCode.Orchestrator.RemoveSocket` | src/orchestrator.cpp:462-497 | out of the map, the waiting and the processing set, in steps of the machine |
| `PipelineCode.Orchestrator.CloseAndCleanup` | src/orchestrator.cpp:10-18 | mutex released, socket removed everywhere and closed, worker free |
| `PipelineCode.Orchestrator.Gather` | src/orchestrator.cpp:883-900 | the read loop appends every chunk up to its first NUL, when each leaves a C string in the buffer |
| `PipelineCode.ReadableExactly` | src/orchestrator.cpp:872-900 | those are exactly the reads of at most 513 bytes whose buffer holds their C string whatever lies behind it |
| `PipelineCode.AllReadIsInTurn` | src/orchestrator.cpp:893-900 | what is read is what each read brought, up to its first NUL, in order and nothing else |
| `PipelineCode.Orchestrator.ReadJobRun` | src/orchestrator.cpp:883-922 | hands the connection, with exactly the bytes of its reads, to the parse queue if and only if the read was healthy and brought bytes, else closes it |
| `PipelineCode.Orchestrator.ParseJobRun` | src/orchestrator.cpp:931-990 | calls the executor on the bytes read, records its reply, which is the one map's, and hands the connection to the write queue |
| `PipelineCode.Orchestrator.WriteJobRun` | src/orchestrator.cpp:998-1044 | sends the printed reply; then the connection is clean and waits again if and only if the write was healthy and the reply does not close, else it is nowhere |
| `PipelineCode.Orchestrator.AddToEpollQueue` | src/orchestrator.cpp:213-229 | the socket waits again; the machine's step |
| `PipelineCode.Orchestrator.HandOn` | src/orchestrator.cpp:509-547 | the connection is last in the next queue and the worker free |
| `PipelineCode.FirstRequest` | src/orchestrator.cpp:851-1044 | from start-up through all threads in turn: the one message sent is the printed answer of one empty map to the bytes read, and the connection waits again unless that answer closes it |
| `WholeServer.ParseJobIsUndisturbed` | src/orchestrator.cpp:931-990 | while a parse job works, no step of another thread touches its place or its bytes |
| `WholeServer.TheServerIsOneMap` | src/orchestrator.cpp:317-1044 | over every interleaving of all threads from start-up: the pipeline obeys its laws, the tables equal one map that goes through the critical sections in lock order, every reply found by a parse job answers the bytes that its own read brought and is what its own sections since its start add up to, and live keys balance |
| `WholeServer.EveryMessageIsTheReply` | src/orchestrator.cpp:317-1044 | over every such interleaving, on each connection batches, replies and messages take turns; the replies recorded are one for one those of the receipts; each receipt's reply is the parse error or exactly what the critical sections of that command in the store's log add up to; and every message sent is, byte for byte, the reply of such a receipt for its connection |
| `WholeServer.CommandReceiptInBytes` | src/orchestrator.cpp:568-1044 | the bytes of such a message: "+OK" for a SET, a colon and the count that the worker's own critical sections add up to for a DEL, the value its own section saw for a GET, "-Invalid command" for any other value |
| `WholeServer.UnparsedReceiptInBytes` | src/orchestrator.cpp:938-960 | and for a batch that encodes nothing the error that quotes it |
| `WholeServer.NobodyIsStuck` | src/orchestrator.cpp:317-1044 | at every point of every interleaving each thread can go on, and a parse job whose keys index the tables can take the next step of its own command |
| `PooledServer.StepKeepsGlue` | src/thread_pool.cpp:37-188 | every lock step of a pool and every step of the pipeline keeps the queues equal, each worker on the job its pool thread popped, and each thread inside `add_job` on the job it has to push |
| `PooledServer.PipelineFollows` | src/thread_pool.cpp:37-69 | whenever a pool pops or pushes, the pipeline can take the step that stands for it |
| `PooledServer.PoolsServeThePipeline` | src/orchestrator.cpp:509-547 | over every interleaving of the pipeline and the lock steps of its three pools, each pool goes through a run of its own machine and the pipeline through one of its own, on the same queues: so all laws of both hold together |

## Left out

- Sockets, accept, fcntl, read and write calls, epoll system calls, signals, pthread creation: reads are arbitrary sequences of byte strings, readiness an arbitrary subset, of at most ten, of the watched sockets, health of a connection a free choice.
- Failure of allocation, of locking or of `add_job`, exceptions and `exit` paths: taken not to occur.
- Pipeline.Accept: an accepted socket is any that is not open, so numbers of closed sockets come back; the limit on open files is not modelled.
- Weak memory of the plain flag `m_is_destroying`, and the time of the timed wait: interleaved steps; the wait may end at any moment.
- Starvation: results say that somebody can move and that shutdown takes boundedly many steps, not that a fair scheduler serves everybody.
- Keys whose index lies outside the ten tables: the code reads outside an array there; `Commands.PartitionInRange` says exactly which they are, and `Servable` excludes requests that use one.
- A read that fills its 513 bytes and brings no NUL: the code then reads behind its buffer; `Connections.ReadIsTerminated` gives the exact condition.
- A write that sends only part of the message: the code takes it for a success, and the model takes what was handed to the socket for sent.
- Simple strings, integers and errors as input: src/resp_parser.cpp:274-282 rejects them, and so does the model; their printing is modelled, as replies use it.
- `m_write_sockets`, `m_read_threadpool` and the stage labels of a state: unused, or labels only.
- Debug logging, the Makefile, editor settings and server.cpp.
- Freeing of states: the pipeline keeps every state it made in a map from references to values, so use after free is not expressible.
- PooledServer.PoolsServeThePipeline: the store with its critical sections is composed with the pipeline in WholeServer, not a second time here.
- PipelineCode.Orchestrator.EpollTurn: the methods of this class and of PoolCode.ThreadPool show the code of one thread as a run of the machine; other threads come in where it waits (new sockets in the wait for events, anything in the timed wait and between the polls of `destroy`), and interleaving at every step is the subject of the machines.
- RespParser.Parser.GetElements: dispatches on an element's tag by a call of the generic object parser; the source repeats the same branches in place.
