# netty-tcnative: the stateful core

A Dafny model of the parts of netty-tcnative that keep state between calls, for the
BoringSSL / AWS-LC build, with the TLS library as an environment that calls the callbacks.
`dafny verify dfyconfig.toml` checks everything.

| component | files |
|---|---|
| ByteBuffer BIO: a ring of queued bytes in front of a Java buffer that is swapped per operation | `BioFifo`, `BioRuns`, `ByteBufferBio`, `BioReplay` |
| session-ticket keys: serialization, lookup under a read-write lock, rotation | `TicketKeys`, `TicketLock`, `TicketRotation`, `TicketReference` |
| handshake callbacks suspended as tasks that another thread runs | `HandshakeTasks`, `HandshakeRuns`, `HandshakeAnswers`, `HandshakeCode`, `HandshakeReplay` |
| verify configuration and JNI global references of a context and its SSLs | `SslContext`, `ContextScripts`, `ContextRuns` |
| ALPN / NPN protocol lists: encoder and selector | `Alpn` |

## How it is built

- **BIO.** `Bio` is the C struct with its array and its copies. Its methods refine a FIFO
  machine (`BioFifo`) in which the ring is just the sequence of pending bytes. Theorems over
  all call sequences are about that machine (`BioRuns`); `Replay` makes any call sequence on
  the real ring, observes sink memory and return values from outside, and obtains the same
  history, so they hold of the ring. A sink-mode write returns flushed bytes plus bytes taken
  from its input, so the two counts are carried separately.
- **Ticket keys.** Lock, each test of the length, each comparison of a name, each byte of the
  key that is copied, unlock, counter, and each store of an install are separate steps of
  `TicketLock.Step`. Every one of them goes through the shared length and pointer again, and
  the heap of key blocks makes use after free, double free and reads past a block visible as
  `fault`. `log` is the history of installed lists. `TicketReference` reads the same run off
  its events alone: which lists were given to which install, what each callback asked and
  when. Lists, answers, return codes and counters of the machine are those of that reading.
- **Tasks.** `HandshakeTasks.Step` interleaves engine, application and task threads; a
  running task stores its bytes, its return value and its completion flag in separate steps.
  `World` holds how the application's callbacks behave, as arbitrary functions, and
  `HandshakeAnswers` states every answer of the engine calls in terms of them. The C and
  Java code itself is in `HandshakeCode`, proved against the machine; `HandshakeReplay.Replay`
  makes any possible event sequence happen on those objects, so the theorems over runs hold
  of the answers they return and of the references they hold.
- **Context.** Setters may succeed, fail at the method lookup, run out of memory or clear
  the slot, in any order, with SSLs created in between; closed forms over the call history
  are kept as invariants, and tables over the positions in the script say what they are.
- **ALPN.** The nested pointer walks, for all bytes on both sides; the answer is determined
  by the two buffers and the failure behaviour (`AnswerIsDetermined`).

Environment assumptions. While a task is parked the engine re-enters only the operation that
parked it (`complete` for sign and decrypt), and it calls nothing on a freed SSL. `use_tasks` does not
change during a handshake. A task is run by whoever `getTask` gave it to, one call of `run`
at a time, and reports at most once. `SSL_new` hands the context's installed verify mode to the SSL. A read-write lock
admits many readers or one writer.

## Where a promise holds only in part

- A queueing write appends to the ring exactly when `offset + length <= size`
  (`QueueDomainIsExact`): the start index is not reduced modulo the size. In-domain calls can
  lead to a ring where this fails (`WrappedRingIsReachable`); runs whose flushes drain
  everything never do (`FullDrainsStayInDomain`). `Bio.Write` asks for the condition, and
  only when there is input, room, and no sink attached.
- A protocol list comes back from the wire exactly when every name has at most 255 bytes
  (`RoundTrip`): the encoder lets names of up to 65535 bytes pass but writes one length byte.
- For a configured list of names of at most 255 bytes the selector answers from its two
  buffers exactly when a name is shared or the list is empty (`EncodedListAnswer`, with one
  name not offered as the instance in `OneNameNotOffered`): its index counts name bytes
  without length bytes, so it is still below the bound at the end of the list.
  `SelectNextProto` reports the other case as `LeavesList`. A list that is cut off, which the
  encoder can make from longer names, is left exactly when the peer has a name of the length
  the cut entry claims or that length does not bring the index past the end (`CutListAnswer`);
  otherwise the fallback after the loop is reached.
- Task-based operations end with the direct answer whenever they end, and can be brought to
  an end exactly when the callback reports (`CompletionNeedsReport`, `ParkedTaskEnds`). A verifier that throws
  makes the direct call fail, but leaves the task-based one retrying for good
  (`ThrowingVerifierNeverEnds`).
- `onError` does not make a private-key operation fail: it succeeds with no bytes
  (`OnErrorSucceeds`). It fails exactly when a method, the JNI environment, memory or the
  bytes are missing, or the bytes do not fit, and never ends if the method never calls back
  (`KeyOperationEnds`).

Code and comments disagree in these places, and the model follows the code:
`SSLPrivateKeyMethodTask.java:47` says that `onError` makes the operation fail, but the C
side reads only the result bytes, which are then an empty, non-null array. `SSLContext.java:488` speaks of a default depth of 1; the code sets
100. `SSL.java:259` equates `bioFlushByteBuffer` with `BIO_flush`, but the control call moves
no bytes (`ssl.c:351`).

## Model

| member | source | states |
|---|---|---|
| ByteBufferBio.Bio.FlushRing | openssl-dynamic/src/main/c/ssl.c:138-169 | the drain moves the first min(room, length) pending bytes, read modulo the size, to the sink and nowhere else, in wrapped states too |
| ByteBufferBio.PendingPrefix | openssl-dynamic/src/main/c/ssl.c:147-156 | the one or two pieces copied out are a prefix of the pending bytes read modulo the size |
| ByteBufferBio.PendingSuffix | openssl-dynamic/src/main/c/ssl.c:147-162 | the offset the drain moves to makes the rest of the pending bytes the new queue, wrapped or not |
| ByteBufferBio.PendingAppend | openssl-dynamic/src/main/c/ssl.c:198-213 | cells written at the start index and around the end extend the queue read modulo the size and leave pending cells alone |
| ByteBufferBio.Bio.Enqueue | openssl-dynamic/src/main/c/ssl.c:187-217 | an unwrapped ring ends up with its old pending bytes followed by as much input as was free |
| ByteBufferBio.Bio.Write | openssl-dynamic/src/main/c/ssl.c:171-241 | all branches against the machine; on the fields: -1 with retry exactly for input without room, otherwise what is queued, flushed and written straight to the sink memory, in that order |
| ByteBufferBio.Bio.Read | openssl-dynamic/src/main/c/ssl.c:243-273 | on the fields: -1 with retry exactly when bytes are wanted and a sink, no buffer or an empty one is attached; otherwise the first min(bufferLength, max) bytes of the attached memory; the queue is untouched |
| ByteBufferBio.Bio.SetByteBuffer | openssl-dynamic/src/main/c/ssl.c:990-1007 | swapping the buffer keeps queue and offset; a null address or negative size changes nothing |
| ByteBufferBio.Bio.ClearByteBuffer | openssl-dynamic/src/main/c/ssl.c:1009-1020 | clearing keeps queue and offset |
| ByteBufferBio.Bio.FlushByteBuffer | openssl-dynamic/src/main/c/ssl.c:1022-1031 | returns min(room, length) with a sink and 0 otherwise, and moves exactly those first pending bytes to the sink memory |
| ByteBufferBio.Bio.LengthNonApplication | openssl-dynamic/src/main/c/ssl.c:420-428 | the pending length, never above the configured size |
| ByteBufferBio.NewByteBuffer | openssl-dynamic/src/main/c/ssl.c:1121-1156 | an empty ring for a positive size if its parts can be allocated, an exception otherwise |
| BioFifo.ApplyKeepsInv | openssl-dynamic/src/main/c/ssl.c:138-241 | every call keeps 0 <= offset <= size, length <= size, and offset 0 for an empty queue |
| BioRuns.RunConserves | openssl-dynamic/src/main/c/ssl.c:138-273 | over every run, accepted bytes are delivered bytes followed by pending ones, and each read buffer was read as a prefix, in order |
| BioRuns.SinkWriteAccounts | openssl-dynamic/src/main/c/ssl.c:219-240 | a sink write shrinks the sink by its return value, flushed plus taken, and takes input only behind an empty queue |
| BioRuns.WriteAnswers | openssl-dynamic/src/main/c/ssl.c:171-241 | a write asks for a retry iff it has input and neither ring nor sink has room; otherwise how many bytes it returns and what is left |
| BioRuns.ReadAnswers | openssl-dynamic/src/main/c/ssl.c:243-273 | a read asks for a retry iff it wants bytes and no attached buffer has any; otherwise which bytes it returns |
| BioRuns.ReturnsAccount | openssl-dynamic/src/main/c/ssl.c:171-273 | over every run the non-negative read returns add up to the bytes read, and the returns of calls with a sink to the bytes delivered |
| BioRuns.SourcesAreAttached | openssl-dynamic/src/main/c/ssl.c:990-1007 | the buffers read from are those attached for reading, in order |
| BioRuns.ReadsAreInvisible | openssl-dynamic/src/main/c/ssl.c:171-273 | dropping all reads from a run changes nothing that is queued, accepted or delivered |
| BioRuns.WritesAreInvisible | openssl-dynamic/src/main/c/ssl.c:171-273 | dropping all writes and flushes from a run changes nothing that is read |
| BioRuns.DrainIgnoresChunking | openssl-dynamic/src/main/c/ssl.c:138-169 | what a series of sinks receives depends on their total size only |
| BioRuns.DrainEmpties | openssl-dynamic/src/main/c/ssl.c:1022-1031 | each flush with room shrinks the queue, and `length` of them empty it |
| BioRuns.FullDrainsStayInDomain | openssl-dynamic/src/main/c/ssl.c:160-213 | runs whose flushes drain fully keep offset 0 and never leave the domain of the queueing write |
| BioRuns.QueueDomainIsExact | openssl-dynamic/src/main/c/ssl.c:198-212 | the copies stay in the ring and off pending bytes if and only if offset + length <= size |
| BioRuns.WrappedRingIsReachable | openssl-dynamic/src/main/c/ssl.c:138-217 | five in-domain calls leave a ring where the condition fails |
| BioReplay.Replay | openssl-dynamic/src/main/c/ssl.c:138-273 | any in-domain call sequence on the real ring shows the history of the FIFO machine and conserves bytes; the values it returned add up to the bytes read and the bytes the sinks received |
| TicketKeys.Serialize | openssl-classes/src/main/java/io/netty/internal/tcnative/SSLContext.java:428-443 | record i holds name, HMAC key and AES key of key i at offsets 0, 16 and 32; an exception for an empty list |
| TicketKeys.Parse | openssl-dynamic/src/main/c/sslcontext.c:1408-1430 | one key per whole 48-byte record: name, HMAC key and AES key from offsets 0, 16 and 32 |
| TicketKeys.KeysRoundTrip | openssl-classes/src/main/java/io/netty/internal/tcnative/SSLContext.java:428-443 | a list is parsed from the serialized bytes if and only if it is the list serialized |
| TicketKeys.FindSessionKey | openssl-dynamic/src/main/c/sslcontext.c:1306-1333 | the earliest matching key, current iff first, none iff nothing matches |
| TicketKeys.AnswerIsUnique | openssl-dynamic/src/main/c/sslcontext.c:1317-1333 | a list and a name admit one answer only |
| TicketLock.ScanKeepsPc | openssl-dynamic/src/main/c/sslcontext.c:1321-1323 | a length test or a name comparison under the read lock advances the scan over the last installed list |
| TicketLock.CopyKeepsPc | openssl-dynamic/src/main/c/sslcontext.c:1324-1328 | every byte of the copy comes from live memory of that list and from the one matching key, so the key handed on is whole |
| TicketLock.StepKeepsInv | openssl-dynamic/src/main/c/sslcontext.c:1306-1446 | every step of every thread keeps lock, memory, field and answer invariants |
| TicketLock.LookupsAreLinearizable | openssl-dynamic/src/main/c/sslcontext.c:1306-1439 | in every interleaving each lookup answers from one whole list installed from its lock to its unlock, no memory fault occurs, and each counter is the number of answers of its kind modulo 2^32 |
| TicketLock.NoBlockIsLost | openssl-dynamic/src/main/c/sslcontext.c:1433-1439 | once no thread is inside a call, the only key memory left is the installed list |
| TicketLock.TallyCounts | openssl-dynamic/src/main/c/sslcontext.c:1374-1391 | each counter is the number of answers of its kind modulo 2^32 |
| TicketReference.InstalledAsGiven | openssl-dynamic/src/main/c/sslcontext.c:1408-1446 | in every interleaving the installed lists are those given to the installs, in the order of their pointer stores, and each callback answers its own question from the newest list at its lock |
| TicketReference.CodesOfAnswers | openssl-dynamic/src/main/c/sslcontext.c:1335-1393 | over every run the return code from that list and the random generator: 0, 1 or -1 for an issue, 0, 1 or 2 for a resume iff the name is missing, first, or listed later |
| TicketReference.CountersOfRuns | openssl-dynamic/src/main/c/sslcontext.c:1374-1391 | over every run each counter is, modulo 2^32, the number of callbacks whose list and question call for it |
| TicketReference.AnswerByList | openssl-dynamic/src/main/c/sslcontext.c:1306-1333 | the answer a list determines, without the scan: first key for an issue, a key with the name iff there is one |
| TicketReference.LookupCompletes | openssl-dynamic/src/main/c/sslcontext.c:1306-1393 | a callback of an idle thread runs to its end whenever no install holds the lock |
| TicketReference.InstallCompletes | openssl-dynamic/src/main/c/sslcontext.c:1432-1439 | an install of an idle thread runs to its end when the lock is free and makes its list the newest |
| TicketReference.InstallThenLookup | openssl-dynamic/src/main/c/sslcontext.c:1396-1446 | from every reachable state with the lock free: the list a Java caller passes, serialized and parsed, can be installed, and a lookup then answers from it |
| TicketRotation.IssuedWithCurrentKey | openssl-dynamic/src/main/c/sslcontext.c:1355-1380 | an issued ticket is sealed with the first key of the list installed then |
| TicketRotation.PresentedTicket | openssl-dynamic/src/main/c/sslcontext.c:1369-1393 | accepted iff listed, opened with the sealing key, renewed iff listed but not first, resumed iff first |
| TicketRotation.RotationOverRuns | openssl-dynamic/src/main/c/sslcontext.c:1335-1446 | the same for any ticket issued and presented in any interleaving, if names identify keys |
| TicketRotation.SurvivesExactly | openssl-classes/src/main/java/io/netty/internal/tcnative/SSLContext.java:417-427 | prepending keys and keeping K, a key stays listed for exactly K - 1 rotations |
| TicketRotation.TicketLifetime | openssl-dynamic/src/main/c/sslcontext.c:1335-1446 | over runs, a ticket is resumed after no rotation, renewed after fewer than K, refused after more |
| HandshakeRuns.VerifyPollIsDirect | openssl-dynamic/src/main/c/sslcontext.c:1698-1719 | a completed verification task gives the direct answer, with the cut-chain rewrite from the saved lengths |
| HandshakeRuns.DepthCut | openssl-dynamic/src/main/c/sslcontext.c:1532-1575 | the verifier gets the first min(depth, n) certificates; "unspecified" is rewritten iff n exceeds the depth |
| HandshakeRuns.StepKeepsInv | openssl-dynamic/src/main/c/sslcontext.c:1678-1798 | every step of engine, application and task threads keeps references, histories and answers right |
| HandshakeRuns.SuspensionIsTransparent | openssl-dynamic/src/main/c/sslcontext.c:1698-1777 | in every interleaving an operation that ends answers as without tasks, and with tasks only if its callback reported; retry is answered only by operations that can be tasks |
| HandshakeRuns.TasksAreConserved | openssl-dynamic/src/main/c/sslcontext.c:1472-1504 | one reference while parked, handed out, run and freed at most once each, consumed by its own operation, all freed when the SSL is |
| HandshakeRuns.PollAnswersRetry | openssl-dynamic/src/main/c/sslcontext.c:2354-2371 | a poll is logged for the suspended operation; it retries iff a JNI environment is there and the task is not complete, and then changes nothing; without an environment it fails and the task stays parked; otherwise the task is freed, consumed by that operation, and the slot empty |
| HandshakeRuns.KeyOperationEnds | openssl-dynamic/src/main/c/sslcontext.c:2366-2389 | an operation that ends fails iff method, environment or memory are missing, the method succeeded without bytes or with too many; otherwise the engine gets the bytes passed to onSuccess, none for onError; without a callback it never ends |
| HandshakeRuns.OnErrorSucceeds | openssl-classes/src/main/java/io/netty/internal/tcnative/SSLPrivateKeyMethodTask.java:45-50 | a reported error ends the operation with success and no bytes |
| HandshakeRuns.CompletionNeedsReport | openssl-classes/src/main/java/io/netty/internal/tcnative/SSLTask.java:45-59 | only a reporting job completes, and from any reachable state a handed-out one can be completed |
| HandshakeRuns.ThrowingVerifierNeverEnds | openssl-classes/src/main/java/io/netty/internal/tcnative/CertificateVerifierTask.java:34-38 | where the direct call fails, the task-based one stays suspended through any continuation and every poll retries |
| HandshakeAnswers.FirstCall | openssl-dynamic/src/main/c/sslcontext.c:1721-1766 | a call that starts an operation answers retry iff it parks a task, iff environment, memory, tasks, callback and non-empty certificates are there; the task has that job and is referenced once |
| HandshakeAnswers.VerifyOperationEnds | openssl-dynamic/src/main/c/sslcontext.c:1678-1798 | over every run the verdict in terms of the verifier itself: which inputs are invalid with 1 or 20, which code is passed on, and that a throwing verifier ends only without tasks |
| HandshakeAnswers.CertificateOperationEnds | openssl-dynamic/src/main/c/sslcontext.c:2057-2136 | over every run 1 if the handler returns, 0 after an exception, and no end after an error with tasks |
| HandshakeAnswers.DepthOfRun | openssl-dynamic/src/main/c/ssl.c:1513-1531 | the depth operations start with is the last one set that is not negative |
| HandshakeAnswers.GetTaskHandsOut | openssl-dynamic/src/main/c/ssl.c:1089-1106 | in every reachable open state getTask hands out the parked task iff it was not handed out before |
| HandshakeAnswers.ParkedTaskEnds | openssl-dynamic/src/main/c/sslcontext.c:1698-1719 | from every reachable open state with a parked task whose callback reports, getTask, the rest of the task and one poll end the operation |
| HandshakeAnswers.KeyTaskDelivers | openssl-dynamic/src/main/c/sslcontext.c:2366-2389 | the same run of a private-key task hands the bytes passed to onSuccess to the engine |
| HandshakeCode.SslTask.Report | openssl-classes/src/main/java/io/netty/internal/tcnative/SSLPrivateKeyMethodTask.java:37-52 | per job, in terms of the application's callback: the value to be stored and the result bytes, or a thread that died |
| HandshakeCode.SslTask.Run | openssl-classes/src/main/java/io/netty/internal/tcnative/SSLTask.java:45-59 | a first run leaves the callback's value and bytes in a complete task, or an incomplete one if it did not report; a later run changes nothing |
| HandshakeCode.CollectCerts | openssl-dynamic/src/main/c/sslcontext.c:1532-1575 | the loop yields the first min(depth, n) certificates, or nothing if one of them is empty |
| HandshakeCode.CustomVerify | openssl-dynamic/src/main/c/sslcontext.c:1678-1798 | the verification callback refines the machine on all paths; a poll retries, fails or answers from return value and saved lengths |
| HandshakeCode.CertificateCb | openssl-dynamic/src/main/c/sslcontext.c:2057-2136 | the certificate callback refines the machine on all paths; a poll retries, fails or passes on the return value |
| HandshakeCode.StartKey | openssl-dynamic/src/main/c/sslcontext.c:2203-2238 | sign and decrypt park their job and retry, or fail without state, method, environment or memory |
| HandshakeCode.CompleteKey | openssl-dynamic/src/main/c/sslcontext.c:2340-2391 | the engine's buffer gets exactly the result bytes and their count on success and is untouched otherwise |
| HandshakeCode.SslState.GetTask | openssl-dynamic/src/main/c/ssl.c:1089-1106 | a task iff the slot is occupied and not yet consumed, and then the object in it, which is now consumed; null changes nothing |
| HandshakeCode.SslState.Release | openssl-dynamic/src/main/c/sslcontext.c:1491-1504 | the parked reference is deleted once and the slot emptied |
| HandshakeCode.SslState.Free | openssl-dynamic/src/main/c/ssl.c:919-931 | freeing the SSL deletes the reference of a parked task and empties the slot |
| HandshakeReplay.OneStore | openssl-classes/src/main/java/io/netty/internal/tcnative/SSLTask.java:45-59 | each store of a running task is one step of the machine |
| HandshakeReplay.Replay | openssl-dynamic/src/main/c/sslcontext.c:1678-1798 | any possible event sequence on the objects is a run of the machine; every answer returned is retry or the one without tasks, and references are held and deleted as conserved |
| SslContext.VerifyConfig.Set | openssl-dynamic/src/main/c/sslutils.c:653-678 | 0, 1 and every other level but -1 set NONE, PEER and PEER with FAIL_IF_NO_PEER_CERT, -1 repeats the mode, a negative depth keeps the depth; both follow the call history |
| SslContext.LastDepth | openssl-dynamic/src/main/c/sslutils.c:653-656 | the depth a history leaves is never negative |
| SslContext.Context.SetVerify | openssl-dynamic/src/main/c/sslcontext.c:1802-1818 | with a verifier installs the mode of the configured level, without one keeps what was installed |
| SslContext.Context.SetCertVerifyCallback | openssl-dynamic/src/main/c/sslcontext.c:1820-1864 | a success stores a new reference and installs the configured mode, null drops it and installs NONE, a failure changes nothing |
| SslContext.Context.SetCallback | openssl-dynamic/src/main/c/sslcontext.c:2139-2198 | a success puts a new reference in that slot alone and deletes the one it replaces, null empties it, a failure changes nothing |
| SslContext.Context.AddCompression | openssl-dynamic/src/main/c/sslcontext.c:2904-2997 | succeeds exactly for a direction, algorithm 1, 2 or 3 and a library that accepts; then that algorithm has the new reference and nothing else changes; otherwise references and slots are as before |
| SslContext.Context.Cleanup | openssl-dynamic/src/main/c/sslcontext.c:67-183 | all slots empty, and no live reference if a JNI environment is there |
| SslContext.Context.constructor | openssl-dynamic/src/main/c/sslcontext.c:453-455 | a new context has depth 100, level NONE, no callbacks and no references |
| SslContext.SslVerify.constructor | openssl-dynamic/src/main/c/ssl.c:902-917 | a new SSL gets its own copy of the context's configuration and its installed mode |
| SslContext.SslVerify.SetVerify | openssl-dynamic/src/main/c/ssl.c:1513-1531 | an SSL follows the context's history up to its creation and then its own calls only |
| ContextScripts.CopyIsIndependent | openssl-dynamic/src/main/c/ssl.c:902-917 | an SSL's settings come from the context calls before its creation and its own calls, whatever context calls, registrations and other SSLs follow |
| ContextScripts.OrderDoesNotMatter | openssl-dynamic/src/main/c/sslcontext.c:1802-1864 | exchanging a setVerify call with a neighbouring registration changes neither mode nor depth |
| ContextScripts.ContextTable | openssl-dynamic/src/main/c/sslcontext.c:1802-1864 | with a verifier left, each of the three modes iff the last setVerify level other than -1 is of its kind, NONE otherwise; the depth is the last non-negative one, or 100 |
| ContextScripts.SslTable | openssl-dynamic/src/main/c/ssl.c:902-917 | the same for each SSL, over the context calls before its creation and its own calls after it |
| ContextRuns.RunContext | openssl-dynamic/src/main/c/sslcontext.c:67-183 | after any script the mode and depth of the context and of every SSL are those tables, live references equal occupied slots, and cleanup leaves each reference deleted exactly once |
| Alpn.ProtocolsToWireFormat | openssl-classes/src/main/java/io/netty/internal/tcnative/SSLContext.java:551-571 | the encoding of the list, well formed and walked back to the same list for names of at most 255 bytes |
| Alpn.WireGrows | openssl-classes/src/main/java/io/netty/internal/tcnative/SSLContext.java:551-571 | each name adds the low eight bits of its length and its bytes, or nothing if it has more than 65535 |
| Alpn.RoundTrip | openssl-classes/src/main/java/io/netty/internal/tcnative/SSLContext.java:551-571 | the list comes back if and only if every name has at most 255 bytes |
| Alpn.FindInPeer | openssl-dynamic/src/main/c/sslutils.c:715-733 | the inner walk finds a name iff a complete entry of the peer has it, at its first such entry |
| Alpn.FirstEntryIsInside | openssl-dynamic/src/main/c/sslutils.c:719-728 | what is found lies wholly in the peer's bytes, behind its own length byte |
| Alpn.SelectNextProto | openssl-dynamic/src/main/c/sslutils.c:694-750 | selects iff a name is shared, and then the first configured one the peer lists, inside the peer's bytes; otherwise states exactly when the list is left, the last own protocol chosen or nothing selected |
| Alpn.AnswerIsDetermined | openssl-dynamic/src/main/c/sslutils.c:694-750 | two buffers and a failure behaviour admit one answer only |
| Alpn.EncodedListAnswer | openssl-dynamic/src/main/c/sslutils.c:711-750 | for names of at most 255 bytes: selected iff shared, list left iff non-empty and nothing shared, nothing selected iff empty |
| Alpn.OneNameNotOffered | openssl-dynamic/src/main/c/sslutils.c:735-737 | one configured name and another one offered leave the list |
| Alpn.CutListAnswer | openssl-dynamic/src/main/c/sslutils.c:711-750 | for complete entries followed by a cut-off one: selected iff shared; otherwise exactly when the list is left, and then the cut entry for failure behaviour 1 and nothing for any other |

## Left out

- JNI registration, class loading, native constants, error throwing: finite glue.
- The TLS library itself, PEM, X509, PKCS12, engines, OCSP, sessions, credentials: thin wrappers.
- Cryptography: a ticket is a key name bound to a key; AES, HMAC and initialisation vectors are opaque.
- The OSSL_PARAM variant of ticket keys, which points into key memory (sslcontext.c:1365 and 1377).
- The size checks of SessionTicketKey.java:49-61 are the subset type `TicketKey`, not a member of their own.
- The synchronous private-key path (`use_tasks == 0`), which asks a void method for an object.
- ByteBufferBio.Bio.Write: asks that the ring has not wrapped when it queues; outside that the copy lengths have no meaning.
- Alpn.ProtocolsToWireFormat: takes names as bytes; the US-ASCII conversion of Java strings is not modelled.
- Java memory-model effects and two threads inside `run` of one task at once: steps are atomic.
- `completeCallback` of `runAsync`, and a method that reports twice.
- The debug-only assertion that a task's return value is not negative.
- 32-bit overflow of ring indices: within the domain no sum exceeds the size.
- `selectorFailureBehavior`: a parameter of the selector; the setters do not store it.
- Protocol option masks, cipher authentication names, curve lists, the password transaction: finite or easy.
