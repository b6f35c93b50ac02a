# The ZooKeeper C client, as a verified model

This project models the C client that the Ruby binding carries (`zk/src/c`, version 3.2.2) and
proves what its parts promise to each other. It is built from the bottom up.

* **Paths** (`Paths.dfy`): the scanner `isValidPath` against a grammar of components, and the
  chroot translation.
* **Wire format** (`Bytes.dfy`, `Jute.dfy`, `RecordIO.dfy`, `Records.dfy`, `Handshake.dfy`): the
  growable and the bounded archive, the generated record code, and the hand-written handshake.
  `Jute.dfy` gives the format once, for every record type; the archive classes and the record
  serializers are proved to write and read exactly that.
* **Hash table** (`Hashtables.dfy`, `HashtableItr.dfy`): heap-linked chains, expansion, and the
  iterator that survives removing the entry it stands on, against a finite map. The hash function
  is arbitrary.
* **Watches** (`WatchRegistry.dfy`, `Watchers.dfy`, `Rearm.dfy`): the three tables of active
  watchers on top of the hash table, delivery lists, the history of a registry, and the packet that
  registers every watch again.
* **Framing** (`Queues.dfy`, `Framing.dfy`, `Writer.dfy`, `Reader.dfy`, `Input.dfy`): the linked
  queues, the resumable writer and reader under any sequence of short counts, `EAGAIN`, errors and
  poll results, and the reading half of `check_events`.
* **Session engine** (`Session.dfy`, `Results.dfy`, `Ledger.dfy`, `Client.dfy`): what each operation
  does to the handle, as functions on values (`Session`), with which result every request ends
  (`Results`), that none is lost (`Ledger`), and a class whose loops and updates are proved to do
  that, field by field (`Client.ZHandle`), with or without a completion thread.
* **Runs** (`World.dfy`, `Line.dfy`, `Books.dfy`, `Order.dfy`, `Rearming.dfy`, `Connection.dfy`,
  `WatchRuns.dfy`, `Upcalls.dfy`, `ResultRuns.dfy`, `SessionRuns.dfy`): client threads, the I/O thread, one connection at a time and a
  server, as a state machine whose steps are as fine as the locks: recording a request and queueing
  it are two steps inside one critical section, taking a reply and processing it are two, giving up
  a connection is three. Every theorem there is about every step of every run, over any number of
  disconnects and reconnects. `Refinement.dfy` shows that the operations of `Client.ZHandle` are
  runs of that state machine, also while another thread is inside the critical section, and that
  whatever is called on the object, a run that has come to where it stands goes on to where it
  stands after the call, so that the theorems hold of the object as well.
* **Timing and closing** (`Timers.dfy`, `Closing.dfy`).

Sockets, `poll`, `connect`, the clock and the server are nondeterministic inputs: scripts of
outcomes, arguments, or actions of the state machine.

Where the code does not do what one would expect, the model follows the code, a lemma gives the
exact condition, and another a failing input:

* a relative client path is accepted when there is a chroot (`Paths.ChrootAcceptance`,
  `Paths.RelativePathAccepted`);
* `sub_string` compares one byte and strips foreign paths (`Paths.SubStringExact`,
  `Paths.SubStringForeign`);
* the handshake decoder never looks at the password length (`Handshake.PrimeResponseAgrees`,
  `Handshake.PasswordLengthIgnored`);
* the return taken on an unexpected reply (`Client.DisorderedReturn` says when) skips `api_epilog`,
  and no close after it takes effect (`Closing.MissedForGood`, `Closing.NeverClosed`);
* a deadline whose microseconds add up to exactly a second is not normalised
  (`Timers.DeadlineExact`, `Timers.DeadlineNotNormal`).

## Model

| member | source | states |
|---|---|---|
| `Paths.IsValidPath` | zk/src/c/src/zookeeper.c:2475-2514 | the look-behind scanner accepts exactly the grammar: the root, or a slash and components that are not empty, "." or "..", without control bytes, the last one free under the sequence flag |
| `Paths.GrammarOfPieces` | zk/src/c/src/zookeeper.c:2475-2514 | for any slash-free pieces: the path they make is accepted iff it is the root, or has no byte from 0x01 to 0x1e and no piece that is empty, "." or "..", the last one being free under the sequence flag |
| `Paths.JoinPieces` | zk/src/c/src/zookeeper.c:2475-2514 | the components of that grammar hold no slash and, joined with slashes, are the path again |
| `Paths.PiecesJoin` | zk/src/c/src/zookeeper.c:2475-2514 | and they are the only ones: any slash-free pieces, joined with slashes, are cut into just these pieces |
| `Paths.SequenceRelaxation` | zk/src/c/src/zookeeper.c:2485-2509 | for every path and every non-empty run of digits, the relaxed check accepts the path iff the strict one accepts it with the digits appended |
| `Paths.ChrootEmbedding` | zk/src/c/src/zookeeper.c:707-740 | for every valid chroot and valid client path, the server path is valid under the same flags and `sub_string` gives the client path back, "/" included |
| `Paths.ChrootInjective` | zk/src/c/src/zookeeper.c:707-718 | two valid client paths never meet in one server path |
| `Paths.ChrootAcceptance` | zk/src/c/src/zookeeper.c:637-657 | exactly which client strings pass the check that runs after the chroot is prepended |
| `Paths.RelativePathAccepted` | zk/src/c/src/zookeeper.c:707-718 | a relative path, rejected without a chroot, is accepted with one |
| `Paths.SubStringExact` | zk/src/c/src/zookeeper.c:724-740 | on every server path that is not read past its end: nothing is given iff it does not start with a slash, and what is given undoes prepending iff the chroot is a prefix and the path is not one byte longer |
| `Paths.SubStringForeign` | zk/src/c/src/zookeeper.c:728-732 | a path outside the chroot is stripped all the same |
| `Bytes.Htonll` | zk/src/c/src/recordio.c:81-95 | in place, the bytes are swapped end for end |
| `Bytes.SwapHostLong` | zk/src/c/src/recordio.c:81-107 | swapping a 64-bit value as a little-endian host holds it, two's complement and least significant byte first, end for end gives its big-endian form |
| `Bytes.UnswapHostLong` | zk/src/c/src/recordio.c:199-210 | and swapping the big-endian form end for end gives what such a host reads as the value |
| `Bytes.NetworkOrder` | zk/src/c/src/recordio.c:69-79 | the four bytes of an int, most significant first, in two's complement |
| `Bytes.NetworkOrderLong` | zk/src/c/src/recordio.c:97-107 | the eight bytes of a long, most significant first, in two's complement |
| `Bytes.LongRoundTrip` | zk/src/c/src/recordio.c:97-107 | every 64-bit value comes back from its eight bytes |
| `Jute.RoundTrip` | zk/src/c/generated/zookeeper.jute.c:231-274 | for every record type and value, nested vectors included, decoding the encoding followed by anything yields the value, booleans as 0 or 1, and leaves exactly what followed |
| `Jute.DecodeExact` | zk/src/c/src/recordio.c:187-274 | whatever decodes is well typed and, without booleans, re-encodes to exactly the bytes consumed |
| `RecordIO.OutArchive.Resize` | zk/src/c/src/recordio.c:46-60 | doubling makes the room asked for and keeps the contents |
| `RecordIO.OutArchive.SerializeLong` | zk/src/c/src/recordio.c:97-107 | appends the format's bytes whatever the spare capacity |
| `RecordIO.OutArchive.SerializeBool` | zk/src/c/src/recordio.c:117-129 | appends one byte, 0 for 0 and 1 for anything else |
| `RecordIO.OutArchive.SerializeBuffer` | zk/src/c/src/recordio.c:131-155 | appends length and bytes, or -1 for none |
| `RecordIO.OutArchive.SerializeString` | zk/src/c/src/recordio.c:157-177 | appends length and bytes, or -1 for a null string |
| `RecordIO.InArchive.DeserializeInt` | zk/src/c/src/recordio.c:187-197 | reads what the format says and advances past it, or fails with -E2BIG and moves nothing |
| `RecordIO.InArchive.DeserializeLong` | zk/src/c/src/recordio.c:199-210 | the same for 64 bits, through the in-place swap |
| `RecordIO.InArchive.DeserializeBool` | zk/src/c/src/recordio.c:220-232 | reads one byte, as the signed number it is, or fails with -E2BIG and moves nothing |
| `RecordIO.InArchive.DeserializeBuffer` | zk/src/c/src/recordio.c:233-254 | succeeds exactly when the format parses, with that value and remainder |
| `RecordIO.InArchive.DeserializeString` | zk/src/c/src/recordio.c:256-274 | succeeds exactly when the format parses, with that value and remainder |
| `Records.SerializeSetWatches` | zk/src/c/generated/zookeeper.jute.c:255-264 | appends exactly the encoding of the record |
| `Records.SerializeCreateRequest` | zk/src/c/generated/zookeeper.jute.c:443-452 | appends exactly the encoding of the record, with its nested access lists |
| `Records.SerializeConnectRequest` | zk/src/c/generated/zookeeper.jute.c:162-172 | appends exactly the encoding of the record |
| `Records.DeserializeSetWatches` | zk/src/c/generated/zookeeper.jute.c:265-274 | reads every well-formed record and leaves the remainder; reports an error exactly when the leading field is missing |
| `Records.DeserializeCreateRequest` | zk/src/c/generated/zookeeper.jute.c:453-462 | reads every well-formed record and leaves the remainder; reports exactly a path or data that do not parse and a missing trailing field |
| `Records.DeserializeStrings` | zk/src/c/generated/zookeeper.jute.c:243-254 | reads every well-formed vector of strings and leaves the remainder |
| `Records.SetWatchesLayout` | zk/src/c/generated/zookeeper.jute.c:231-264 | byte for byte: the zxid, then the data, the exist and the child watches, each a count and the strings |
| `Records.CreateRequestLayout` | zk/src/c/generated/zookeeper.jute.c:443-452 | byte for byte: path, data, the access list with permissions, scheme and id of each entry, flags |
| `Records.ConnectRequestLayout` | zk/src/c/generated/zookeeper.jute.c:162-172 | byte for byte: protocol version, last zxid, timeout, session id, password |
| `Records.SetWatchesRoundTrip` | zk/src/c/generated/zookeeper.jute.c:255-274 | what is written as a SetWatches is read back as the same lists |
| `Handshake.SerializePrimeConnect` | zk/src/c/src/zookeeper.c:1190-1216 | fills the 44 bytes with the six fields in network order |
| `Handshake.PrimeConnectAgrees` | zk/src/c/src/zookeeper.c:1190-1216 | those are the bytes of the generated ConnectRequest iff the announced password length is 16 |
| `Handshake.DeserializePrimeResponse` | zk/src/c/src/zookeeper.c:1218-1243 | reads the six fields at offsets 0, 4, 8, 12, 20 and 24 |
| `Handshake.PrimeResponseAgrees` | zk/src/c/src/zookeeper.c:1218-1243 | for every 40-byte reply, the generated decoder of a length and a ConnectResponse yields the same iff the password length is 16 |
| `Handshake.PasswordLengthIgnored` | zk/src/c/src/zookeeper.c:1218-1243 | a reply of zeros announces no password, and is given one |
| `Hashtables.CreateHashtable` | zk/src/c/src/hashtable/hashtable.c:29-53 | no table above the largest size; otherwise an empty one |
| `Hashtables.ChooseSize` | zk/src/c/src/hashtable/hashtable.c:37-40 | the size is the first prime above the size asked for |
| `Hashtables.LimitIsLoad` | zk/src/c/src/hashtable/hashtable.c:17-26 | the load limit is 65 percent of the size, rounded up, but for a millionth lost in single precision |
| `Hashtables.LimitsGrow` | zk/src/c/src/hashtable/hashtable.c:17-26 | with the load limit computed in single precision as the source does, half as many buckets again give a higher limit |
| `Hashtables.Hashtable.Expand` | zk/src/c/src/hashtable/hashtable.c:70-126 | every entry moves to the bucket of its hash in the next prime size; the map is the same; at the last prime nothing happens |
| `Hashtables.Hashtable.MoveHead` | zk/src/c/src/hashtable/hashtable.c:89-94 | one turn of the inner loop keeps both the old and the new chains true |
| `Hashtables.HeadMoves` | zk/src/c/src/hashtable/hashtable.c:89-94 | the head of an old bucket belongs where its hash puts it in the new table, and is nowhere else |
| `Hashtables.Hashtable.Insert` | zk/src/c/src/hashtable/hashtable.c:137-160 | for an absent key: the map gains exactly that pair, the counter one, and it stays within the load limit until the last prime |
| `Hashtables.Hashtable.Search` | zk/src/c/src/hashtable/hashtable.c:163-178 | the answer of the map |
| `Hashtables.Hashtable.Remove` | zk/src/c/src/hashtable/hashtable.c:181-211 | the value of the map is returned and exactly that key leaves it |
| `HashtableItr.CountIsTotalLength` | zk/src/c/src/hashtable/hashtable.c:130-133 | the counter is the total length of the chains and the size of the map |
| `HashtableItr.FlatExact` | zk/src/c/src/hashtable/hashtable_itr.c:54-88 | the buckets laid end to end list every entry once |
| `HashtableItr.KeysExact` | zk/src/c/src/hashtable/hashtable_itr.c:42-50 | the keys in table order are those of the map, each once |
| `HashtableItr.Iterator.constructor` | zk/src/c/src/hashtable/hashtable_itr.c:11-35 | nothing visited, everything to come |
| `HashtableItr.Iterator.Next` | zk/src/c/src/hashtable/hashtable_itr.c:54-88 | one more visited, one fewer to come, `parent` the true predecessor in the chain |
| `HashtableItr.Iterator.Remove` | zk/src/c/src/hashtable/hashtable_itr.c:99-124 | exactly the current entry leaves table and map; what was visited and what is to come stay as they were; `parent` is right again |
| `HashtableItr.Sweep` | zk/src/c/src/hashtable/hashtable_itr.c:53-124 | for any choice of steps at which to remove, the entries the iterator stood on are all the entries, each once, and the map left is the one of the choices |
| `HashtableItr.SweptExact` | zk/src/c/src/hashtable/hashtable_itr.c:99-124 | that map holds exactly the pairs not chosen, unchanged |
| `WatchRegistry.MergedIsUnion` | zk/src/c/src/zk_hashtable.c:222-230 | copying a list into another gives the union, without repeats |
| `WatchRegistry.MergedReverses` | zk/src/c/src/zk_hashtable.c:148-176 | copied to a list, new watchers come out in front of it and in reverse |
| `WatchRegistry.DeliveredExact` | zk/src/c/src/zk_hashtable.c:337-355 | the delivery list of a node event is the union of what its tables hold for the path, each watcher once |
| `WatchRegistry.OneStep` | zk/src/c/src/zk_hashtable.c:326-378 | what one reply or event does to one stored watch |
| `WatchRegistry.RegistryIsHistory` | zk/src/c/src/zk_hashtable.c:326-378 | after any history, a watcher is stored at a path of a table iff a qualifying reply armed it there and no later event clearing that table came for the path |
| `WatchRegistry.OneShot` | zk/src/c/src/zk_hashtable.c:254-264 | after an event that clears it, a watch is stored again only if it was armed again |
| `WatchRegistry.WhereArmed` | zk/src/c/src/zookeeper.c:332-350 | in any registry: "ok" puts a data or exists watch with the node watches and a child watch with the child watches, "no node" an exists watch with the exist watches, and no other code changes anything |
| `WatchRegistry.WhatFires` | zk/src/c/src/zk_hashtable.c:337-355 | from any registry: creation and change deliver and clear node and exist watches of the path, a change of children the child watches, deletion all three, and any other event nothing |
| `WatchRegistry.DataWatch` | zk/src/c/src/zookeeper.c:342-345 | a watch set by a get is delivered by exactly creation, change and deletion of its node, once, if the code was "ok", and otherwise by nothing |
| `WatchRegistry.ExistsWatch` | zk/src/c/src/zookeeper.c:332-340 | the same for a watch set by an exists, for "ok" and "no node", with the table it is kept in |
| `WatchRegistry.ChildrenWatch` | zk/src/c/src/zookeeper.c:347-350 | a watch set by a get_children is delivered by exactly a change of the children and the deletion of the node |
| `WatchRegistry.FailureArmsNothing` | zk/src/c/src/zookeeper.c:332-350 | a reply changes the registry iff its code is "ok", or "no node" for an exists, and the watch is not in its table yet |
| `Watchers.WatcherList.Add` | zk/src/c/src/zk_hashtable.c:148-176 | pushes in front unless function and context are already there |
| `Watchers.WatcherList.Copy` | zk/src/c/src/zk_hashtable.c:222-230 | the watchers of the other list are added one by one |
| `Watchers.ZkHashtable.Insert` | zk/src/c/src/zk_hashtable.c:178-194 | the watcher joins the list at the path, and no other path changes |
| `Watchers.ZkHashtable.CollectKeys` | zk/src/c/src/zk_hashtable.c:197-212 | every path of the table, each once |
| `Watchers.ZkHashtable.AddForEvent` | zk/src/c/src/zk_hashtable.c:254-264 | the list at the path leaves the table for the delivery list; no other path changes |
| `Watchers.ZkHashtable.CopyTable` | zk/src/c/src/zk_hashtable.c:232-244 | every watcher of the table joins the list, each once; the table is as before |
| `Watchers.ZkHashtable.Clean` | zk/src/c/src/zk_hashtable.c:121-134 | removing while iterating empties the table |
| `Watchers.ActiveWatchers.Activate` | zk/src/c/src/zk_hashtable.c:367-378 | the reply code decides the table, which gains the watch; the others are untouched |
| `Watchers.ActiveWatchers.CollectWatchers` | zk/src/c/src/zk_hashtable.c:326-357 | a node event takes out and delivers exactly what was due for the path; a session event delivers the default watcher and every stored one and takes nothing out; nobody twice |
| `Rearm.SetWatchesFrame` | zk/src/c/src/zookeeper.c:1164-1188 | byte for byte, and as it is read back: the frame holds xid -8, type 101, the last zxid and three lists that enumerate the paths of the three tables without repeats |
| `Queues.Queue.Put` | zk/src/c/src/zookeeper.c:792-813 | the element joins at the end or the front of the linked list; both assertions on head and last hold |
| `Queues.Queue.Take` | zk/src/c/src/zookeeper.c:766-780 | the first element leaves; `last` is reset when the list empties |
| `Framing.CutIsUnique` | zk/src/c/src/zookeeper.c:891-937 | any frames and partial frame that make up a prefix of a framed stream are its first frames; all of them if it is the whole stream |
| `Framing.SentIsPrefix` | zk/src/c/src/zookeeper.c:849-884 | whole frames and part of the next are a prefix of the framing of the queue |
| `Writer.OutBuffer.Send` | zk/src/c/src/zookeeper.c:849-884 | writes exactly the next bytes of the length, in network order, and the body that the socket takes; 1 iff the frame is out, -1 iff the socket failed |
| `Writer.Writer.Enqueue` | zk/src/c/src/zookeeper.c:815-831 | the frame joins the order of the wire at the end, or at the front if nothing of the first frame is out |
| `Writer.Writer.Flush` | zk/src/c/src/zookeeper.c:2896-2946 | no frame is lost, split or reordered; nothing is written before the session is connected; it stops only when the queue is empty, the socket would block, has failed, or the time is up: a timeout only if the poll of that round came too late or returned 0, a system error only if it came in time and failed; in every round before, there was time, the socket was ready and was offered something |
| `Writer.Writer.WireIsPrefix` | zk/src/c/src/zookeeper.c:2896-2946 | the wire is a prefix of the framing of everything queued, all of it when nothing is left |
| `Reader.InBuffer.Recv` | zk/src/c/src/zookeeper.c:891-937 | takes exactly what the socket gives into length and body; 1 only when the body is whole, -1 iff the socket failed |
| `Input.Input.OnReadable` | zk/src/c/src/zookeeper.c:1449-1501 | the handshake reply takes 40 bytes; then each whole frame is pushed once, and what is left over is the beginning of the next |
| `Input.Input.FramesAreThePeers` | zk/src/c/src/zookeeper.c:891-937 | however the stream is cut up, the frames pushed are the peer's first ones; all of them when all has been taken |
| `Input.EndToEnd` | zk/src/c/src/zookeeper.c:849-937 | from the send queue of one side to the process queue of the other, frames arrive whole and in order |
| `Results.CleanupTells` | zk/src/c/src/zookeeper.c:945-1019 | a clean-up ends every outstanding request with its reason, in order: synchronous callers are woken, asynchronous requests other than pings queued; nothing else changes |
| `Results.ReplyTells` | zk/src/c/src/zookeeper.c:2142-2260 | a reply that meets its request ends that one with the code of the reply: a synchronous caller is woken, a callback queued, a ping dropped |
| `Results.EventTells` | zk/src/c/src/zookeeper.c:2107-2126 | an event is queued with its type, state and path for the watchers it goes to, and ends no request |
| `Results.OtherReplies` | zk/src/c/src/zookeeper.c:2127-2160 | a refused authentication loses the session; a reply to another request gives up the connection; the answers to rearming and authentication change nothing; the last zxid is a positive one of the reply |
| `Ledger.CleanupBalanced` | zk/src/c/src/zookeeper.c:945-1019 | a disconnect finishes every outstanding request, in order, loses and repeats none, and leaves the counter of synchronous ones exact |
| `Ledger.ReplyBalanced` | zk/src/c/src/zookeeper.c:2092-2268 | no reply, expected or not, loses or repeats a request |
| `Ledger.AddRecorded` | zk/src/c/src/zookeeper.c:2381-2394 | a request joins at the end of its order and is counted if synchronous |
| `Client.ZHandle.FreeCompletions` | zk/src/c/src/zookeeper.c:945-990 | the loop ends every outstanding request with the reason, in order: synchronous callers are woken and uncounted, pings dropped, the rest queued |
| `Client.ZHandle.HandleError` | zk/src/c/src/zookeeper.c:1021-1041 | field by field: socket closed, queues emptied, next address due, a lost session stays lost; the news is queued for everyone, then every outstanding request ends with the reason; what is run at once, and what stays |
| `Client.ZHandle.ProcessCompletions` | zk/src/c/src/zookeeper.c:1883-2048 | every ready completion is delivered, in order |
| `Client.ZHandle.Settle` | zk/src/c/src/st_adaptor.c:63-66 | everything ready is delivered, in order, if there is no completion thread and no synchronous call outstanding; otherwise nothing |
| `Client.ZHandle.QueueSessionEvent` | zk/src/c/src/zookeeper.c:1539-1576 | the event is queued behind what is ready, for the default watcher and everyone stored, and delivered at once only without threads and with no synchronous call outstanding |
| `Client.ZHandle.Reconnect` | zk/src/c/src/zookeeper.c:1342-1374 | past the last address it starts over; otherwise the attempt decides: connected at once it is associating, in progress connecting, refused it is closed and the next address due |
| `Client.ZHandle.FinishHandshake` | zk/src/c/src/zookeeper.c:1460-1494 | from the 40 bytes of the reply: the session expires iff the client has one and it is another, and then keeps id, timeout and password and ends every request; otherwise the three are the reply's, and authentication and rearming packets go in front of the queue, in that order; no request is lost |
| `Client.ZHandle.ProcessOne` | zk/src/c/src/zookeeper.c:2092-2268 | by the xid of the header: an event is queued; a refused authentication loses the session; an ordinary reply ends the first outstanding request with its code, or is a fault if it is to another, or the failed assertion if there is none; a positive zxid is kept |
| `Client.ZHandle.Process` | zk/src/c/src/zookeeper.c:2079-2271 | every received reply is taken; synchronous callers and callbacks get the code of the reply to their request, or, once there was an error, its reason; the three return codes and what they leave; no request is lost |
| `Client.ZHandle.Issue` | zk/src/c/src/zookeeper.c:2543-2548 | the request is recorded and queued, at the end of its order |
| `Client.ErrorTells` | zk/src/c/src/zookeeper.c:1021-1041 | the whole handle after an error |
| `Client.LoopTells` | zk/src/c/src/zookeeper.c:2079-2271 | the results of the whole loop over all received replies |
| `Client.RunAllIsCallbacks` | zk/src/c/src/st_adaptor.c:63-66 | running the completions at once is so many single callbacks |
| `Client.ErrorSettledBalanced` | zk/src/c/src/zookeeper.c:1021-1041 | an error loses no request and leaves none outstanding, with or without threads |
| `Client.DisorderedReturn` | zk/src/c/src/zookeeper.c:2145-2160 | the loop returns the inconsistency exactly when, the replies taken in turn, an ordinary one meets a request with another xid |
| `Line.RepliesMeetTheirRequests` | zk/src/c/src/zookeeper.c:2142-2160 | in every run against an in-order server, an ordinary reply about to be processed answers the head of `sent_requests`: the assertion never fails, the branch for replies out of order is never taken |
| `Line.RunInLine` | zk/src/c/src/zookeeper.c:1008-1019 | in every such run, the outstanding requests are, in order, those of the replies in hand, to be processed and in flight, of the requests at the server and in flight, of the packets to send, and of the thread in the critical section |
| `Line.StepInLine` | zk/src/c/src/mt_adaptor.c:370-382 | every step of every thread, inside and outside the critical section, keeps that order |
| `Books.CallbacksFollowCalls` | zk/src/c/src/zookeeper.c:2162-2178 | in every run, whatever arrives, callbacks made, ready and outstanding requests are together the requests issued, in their order and each once; the same for synchronous ones; `outstanding_sync` is exact |
| `Books.DisconnectFinishesAll` | zk/src/c/src/zookeeper.c:945-990 | after a clean-up every request issued so far is finished and the counter is 0 |
| `Order.UpcallHasItsPlace` | zk/src/c/src/zookeeper.c:1883-2048 | in every run, the upcall of a processed reply gets its place among all upcalls and keeps it |
| `Order.UpcallsFollowReplies` | zk/src/c/src/zookeeper.c:2107-2178 | in every run, of two replies that give rise to upcalls, callbacks or events, the one processed first has the first upcall |
| `Rearming.RearmedBeforeRequests` | zk/src/c/src/zookeeper.c:1482-1492 | in every run, when a request goes out on a connection, what its handshake put in front is out: all its authentication packets, and behind them the one rearming packet, with nothing but authentication before it |
| `Rearming.NothingBeforeHandshake` | zk/src/c/src/zookeeper.c:2906 | in every run, nothing, not even part of a packet, is on the wire when a handshake completes, so what is put in front of the queue splits no packet |
| `Connection.OpenExactlyWhenActive` | zk/src/c/src/zookeeper.c:1021-1041 | in every run, outside `handle_error` the socket is open iff the state is connecting, associating or connected |
| `Connection.SessionIsForever` | zk/src/c/src/zookeeper.c:1470-1482 | in every run, an expired session or failed authentication is final, and a session id never changes |
| `Connection.EveryAddressIsTried` | zk/src/c/src/zookeeper.c:1342-1374 | in every run, any as many consecutive attempts as there are addresses try each of them, and `connect_index` stays in range |
| `Connection.NeverTwoPings` | zk/src/c/src/zookeeper.c:1306-1321 | in every run, `sent_requests` never holds two pings |
| `WatchRuns.WatchedExactlyWhenArmed` | zk/src/c/src/zookeeper.c:2162 | at every moment of every run, a watcher is stored for a path in a table iff a step before processed the reply to a request that carried it, with a qualifying code, and no step after that processed an event clearing the path there |
| `WatchRuns.WatchesBetween` | zk/src/c/src/zk_hashtable.c:326-378 | the same from any moment of a run to any later one |
| `WatchRuns.OnlyRepliesCount` | zk/src/c/src/zookeeper.c:945-990 | no step but the processing of a reply touches the tables: a request failed by connection loss arms nothing |
| `WatchRuns.EventGoesToWatchers` | zk/src/c/src/zookeeper.c:2107-2126 | an event goes to exactly the watchers due, a session event to the default watcher and everyone stored |
| `WatchRuns.EventsFindTheArmed` | zk/src/c/src/zookeeper.c:2107-2126 | in every run, an event of the server goes to exactly the watchers that replies have armed for its path in a table it clears, and no event has cleared since |
| `WatchRuns.GreetedAtWelcome` | zk/src/c/src/zookeeper.c:1482-1488 | in every run, what is in front of a connection is of the last handshake that connected: its authentication packets, and a rearming packet with the last zxid and the tables of that moment |
| `WatchRuns.EveryWatchIsKnown` | zk/src/c/src/zookeeper.c:1164-1188 | in every run, what is stored on a connection is exactly what was in the tables its rearming packet was made from and has not been cleared since, and what replies have armed since and no event has cleared after |
| `SessionRuns.ShakeGrants` | zk/src/c/src/zookeeper.c:1470-1482 | a handshake is refused iff the client has a session and it is another; id, timeout and password change only when it is not |
| `SessionRuns.GrantedAtWelcome` | zk/src/c/src/zookeeper.c:1478-1482 | at every moment of every run, session id, timeout and password are those granted by the last handshake that connected, or the initial ones |
| `SessionRuns.ZxidIsTheLastHeard` | zk/src/c/src/zookeeper.c:2100-2104 | at every moment of every run, the last zxid is that of the last reply processed that carried a positive one |
| `ResultRuns.StepEnds` | zk/src/c/src/zookeeper.c:945-990 | a step ends the request its reply meets, with the code of the reply, or, as a clean-up, all outstanding ones with the reason, and no other step ends any |
| `ResultRuns.EveryResultHasItsCause` | zk/src/c/src/zookeeper.c:2142-2183 | in every run, whatever arrives, every code a caller or callback has got is that of the reply processed at its step, or the reason of the clean-up that ended it |
| `ResultRuns.EveryReplyIsAnAnswer` | zk/src/c/src/zookeeper.c:2142-2160 | in every run against an in-order server, a reply to a request is an answer the server has given to that call |
| `ResultRuns.AnswersReachTheirCallers` | zk/src/c/src/zookeeper.c:2142-2183 | in every such run, over any disconnects and interleavings, every caller and callback is told what the server has answered to that very call, or the reason its connection was given up for |
| `Upcalls.WatchersHearTheTruth` | zk/src/c/src/zookeeper.c:1021-1030 | in every run against an in-order server, session events tell a coherent story, end for good when the session is lost, and the last one is true |
| `Refinement.ProcessIsRun` | zk/src/c/src/zookeeper.c:2079-2271 | the loop of `zookeeper_process`, with its error returns, is a run of the state machine |
| `Refinement.HandleErrorIsRun` | zk/src/c/src/zookeeper.c:1021-1041 | so is `handle_error`, with the completions it runs |
| `Refinement.HandshakeIsRun` | zk/src/c/src/zookeeper.c:1460-1494 | so is the end of a handshake, whether it connects or expires the session |
| `Refinement.ReconnectIsRun` | zk/src/c/src/zookeeper.c:1342-1374 | so is an attempt to connect, refused or not |
| `Refinement.IssueIsRun` | zk/src/c/src/zookeeper.c:2543-2548 | so is issuing a request |
| `Refinement.Prolongs` | zk/src/c/src/mt_adaptor.c:370-382 | such runs prolong any run, so what holds of every run holds after these operations |
| `Refinement.RunsNeverFailToProcess` | zk/src/c/src/zookeeper.c:2142-2160 | at any point of any run against an in-order server, the loop ends without a failed assertion or a reply out of order; the only error left is a refused authentication |
| `Refinement.CallInRun` | zk/src/c/src/zookeeper.c:2079-2271 | for the handle object, standing where a run against an in-order server has come to: any of these calls on it prolongs the run to where it stands then; `zookeeper_process` returns ZOK or, for a refused authentication, ZAUTHFAILED |
| `Timers.IntervalAccurate` | zk/src/c/src/zookeeper.c:1279-1288 | the interval is less than a millisecond off, whatever the signs |
| `Timers.LimitsAreThirds` | zk/src/c/src/zookeeper.c:1378-1379 | silence is given up at two thirds of the timeout and a ping due at one third, to the millisecond below |
| `Timers.Timer.Interest` | zk/src/c/src/zookeeper.c:1375-1418 | when silence is given up, when a ping is due, and how long the wait may be |
| `Timers.DeadlineExact` | zk/src/c/src/zookeeper.c:1408-1413 | the next deadline is right, and normalised iff the microseconds do not add up to exactly a second |
| `Timers.DeadlineNotNormal` | zk/src/c/src/zookeeper.c:1410 | half a second from half past a second is such a deadline |
| `Timers.LongestWait` | zk/src/c/src/zookeeper.c:1378-1407 | the wait is the longest that oversteps neither limit |
| `Timers.WaitInSilence` | zk/src/c/src/zookeeper.c:1375-1390 | over any run of calls without a receipt, whatever is sent in it, by a caller that never sleeps longer than told, silence is given up at two thirds of the timeout to within a millisecond, and is never longer at any call |
| `Timers.SilenceIsCaught` | zk/src/c/src/zookeeper.c:1375-1408 | coming back in time is never a millisecond late for the silence limit |
| `Timers.PingIsDue` | zk/src/c/src/zookeeper.c:1391-1405 | a ping is due at a third of the timeout to within a millisecond |
| `Timers.PingIsNotLate` | zk/src/c/src/zookeeper.c:1391-1408 | coming back in time is never a millisecond late for the ping |
| `Timers.WaitToPing` | zk/src/c/src/zookeeper.c:1391-1408 | over any run of calls without a send, with nothing outstanding and whatever is received in it, by a caller that never sleeps longer than told, a ping is queued at a third of the timeout since the last send to within a millisecond |
| `Closing.Counter.Perform` | zk/src/c/src/zookeeper.c:1505-1515 | for any tree of nested calls, the handle is destroyed exactly once, at the very end, if a close was asked for and no call missed its epilog, and never inside a call |
| `Closing.Use` | zk/src/c/src/zookeeper.c:2432-2442 | over the whole use of a handle it is destroyed iff at some point a close had been asked for and no call had missed its epilog, by the call that asked |
| `Closing.MissedForGood` | zk/src/c/src/zookeeper.c:2156-2159 | once a call has missed its epilog on a handle that still stands, no later close destroys it |
| `Closing.NeverClosed` | zk/src/c/src/zookeeper.c:2156-2159 | a failing input: a call that meets an unexpected reply, and then a close; the handle is not destroyed |

## Left out

- The Ruby layer, logging, DNS, environment, command line and load generator: plumbing.
- Running out of memory, and 32-bit overflow of lengths, counters and xids; xids of requests are taken to be positive, as `get_xid` gives them.
- Hashtables.Hashtable.Expand: only the branch that allocates a new bucket array.
- Hashtables.Hashtable.Insert: for keys that are absent, as the client's are; the source would put a second entry of a key in front of the first.
- Watchers.WatcherList.Copy: a list is a sequence, so that moving the nodes of a list and cloning them look alike; which nodes are freed is not modelled.
- RecordIO.InArchive.DeserializeString: a length of -1, for which the source copies out of bounds, is given as a failure.
- Records.DeserializeStrings: the vector decoders overwrite the error of their elements and return 0; for malformed input only that they return is stated.
- Records.DeserializeAcls: the same.
- Records.DeserializeCreateRequest: what is read of a malformed access list is not stated, as for the vectors above.
- Paths.SubStringExact: server paths shorter than the chroot that start with a slash, which `sub_string` reads past the end of.
- Writer.Writer.Enqueue: `zoo_add_auth` may push a packet to the front while the first one is partly out, which would split a frame; that push is excluded, and the pushes of a handshake are proved to need no exclusion (`Rearming.NothingBeforeHandshake`).
- Packets and replies of the runs are values, one a frame; that frames survive the byte stream is proved separately (`Input.EndToEnd`), and that the rearming packet decodes to the tables in `Rearm.SetWatchesFrame`.
- The contents of the authentication list, of which the source sends all but the last: authentication packets are opaque, and any number of them are put in front at a handshake.
- Client.ZHandle.Process: API calls made by callbacks in the middle of the loop are not part of the method; in the runs they are steps of their own, interleaved anywhere between the steps of the I/O thread.
- Calls of `zookeeper_process` or `zookeeper_interest` that callbacks make, without threads, from inside `handle_error` or the loop: the source allows for them (zookeeper.c:1491), but they are not runs here, where the I/O thread is in one of these functions at a time.
- Client.ZHandle.FreeCompletions: the callbacks of pending authentications, made at its end.
- Client.ZHandle.ProcessOne: the marking of authentications as done, and their callbacks.
- Input.EndToEnd: the reader is the client's own, standing for any peer with the same framing.
- `outstanding_sync` is updated without a lock by two threads in the source; the runs update it together with the queue.
- The contents of synchronous results, the copying into the caller's buffers, and the deserialization of each result type in callbacks.
- The start barrier of the threads, and waiting for a synchronous result.
- The delivery of callbacks at close, closing with threads, the packet that `zookeeper_close` sends, and API calls from callbacks run while the handle is being destroyed.
- Monotonicity of the last zxid, which is the server's.
