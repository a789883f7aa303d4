# Sensor gateway: a verified model

The gateway receives temperature readings from sensor nodes over TCP, puts them into one shared buffer, and lets
two threads consume the buffer independently: the data manager keeps a running average per sensor, the SQL manager
appends rows to a database. This project models that pipeline in Dafny and proves what holds of it over all
interleavings, all poll rounds and all list operations.

| file | content |
|---|---|
| `Config.dfy` | readings, readers, result codes, the window length |
| `BufferSpec.dfy`, `BufferProtocol.dfy` | the two-reader buffer on values; its runs, and the private queues it refines |
| `SBuffer.dfy`, `SBufferRuns.dfy` | the buffer as a linked queue on the heap, with `malloc`/`free` bookkeeping |
| `ListSpec.dfy`, `DPList.dfy` | the doubly linked list: sequence meaning and heap implementation |
| `SensorSpec.dfy`, `SensorStream.dfy`, `DataMgr.dfy` | running average, fold of a stream of readings, sensors on the heap |
| `ConnSpec.dfy`, `ConnProtocol.dfy`, `ConnActivity.dfy` | poll round on values, its guarantees over runs, what the recorded activity times mean |
| `ConnMgr.dfy`, `ConnRuns.dfy` | connection manager on the heap, from start to end |
| `Pipeline.dfy`, `Shutdown.dfy` | the three threads as one transition system; what can happen once the termination flag is up |
| `PipelineRuns.dfy` | executions of the threads as buffer schedules, and the heap buffer driven by them |
| `Gateway.dfy` | from socket to sensor list |

How the model is laid out. Every operation of the buffer holds the read-write lock for its whole body, so one
operation is one atomic step. Code that updates memory in place is a class here: queue nodes, list nodes, sensors and
connection records are heap objects, the averaging window and `poll_list` are arrays, and each method is proved to compute a
value-level function about which the properties are then proved. The consumers' loops, whose
accesses interleave with those of other threads, are steps of a transition system with an explicit program counter
(`Pipeline`): every access to the buffer or to the termination flag is a step of its own. Poll events, accept results,
received readings, the clock, the outcome of a database insertion and what `malloc` leaves in unset fields are inputs.
The mutex the consumers
hold while they look for data and wait only removes interleavings, so it plays no part in what holds of all of them; where
an interleaving is said to exist (`Shutdown`), it is shown to respect the mutex (`Exclusive`).

Where the code does not do what one would expect, the code is modelled as it is, a lemma shows a concrete case, and the
exact condition is proved:

* A read that passes the termination flag releases a node that is still linked when the head has been seen by
  both readers and is not alone (`sbuffer.c:128-140`). This is an if-and-only-if at the heap (`SBuffer.Read`) and over
  schedules (`LiveIffSafe`). For the threads, `ReleaseIsReachableIff` says from exactly which states, once the flag is up,
  some continuation gets there: it depends on the length of the queue, on how much of it each consumer has taken, and on
  the reads each consumer still has to make. If the flag goes up while both consumers are at the head of their loops, the
  shutdown is safe if and only if at most one reading is in the buffer or neither has taken the first
  (`ShutdownIsSafeIff`). A concrete case: `TerminatedReadReleasesLinkedNode` for the operations,
  `ShutdownCanReleaseLinkedNode` for the threads. It never happens before the flag is raised (`EveryExecution`). Nothing
  is claimed about a run after such a release.
* `sbuffer.h:20-21` promises that all resources are freed at the end. A lone head unlinked without the flag is never
  freed (`sbuffer.c:128-129`). `ExecuteAndDestroy` counts: as many nodes stay unreleased as the schedule has reads
  without the flag that find the head seen by both and alone, so everything is freed if and only if there is no such read.
  A concrete case: `ThirdReadStrandsNode`, in which both readers take the only reading and one of them reads again. The
  gateway's own threads never do that: they read without the flag only after a positive getinfo, so in every execution
  that ends live everything is freed (`ExecuteThreads`).
* `sbuffer.h:33` promises SBUFFER_NO_DATA from `sbuffer_remove` on an empty buffer; the code answers
  SBUFFER_EMPTY_BUFF, and so does the model.
* A reading of exactly 0 is taken for an empty slot once it has moved from the newest place (`datamgr.c:67-69`):
  the running average is the mean of the latest readings if and only if none of the older ones is zero or they sum to zero.
  A concrete case: `ZeroReadingIsDropped`.
* An insertion at the front of a non-empty list breaks the backward chain (`lib/dplist.c:167-171`): the new node becomes its
  own predecessor, the old head keeps none (`FrontInsertionBreaksPrev`). The list operations are therefore specified for
  lists with arbitrary prev pointers: each says which prev pointers it leaves behind, and requires just the one it
  follows to be right. A removal of the front repairs what the insertion broke (`RemoveUndoesInsert`). Both managers only
  ever append, so their lists stay doubly linked.
* The sorted insertion runs off the end if the element exceeds all others (`lib/dplist.c:634-637`), and
  `dpl_remove_element` dereferences a null head on an empty list (`lib/dplist.c:677-680`). `InsertSorted` and
  `RemoveElement` report exactly when, and `SortedInsertionRunsOff` shows both on concrete lists.

## Model

| member | source | states |
|---|---|---|
| SBuffer.SBuffer.constructor | sbuffer.c:7-17 | A new buffer is a valid, empty queue. |
| SBuffer.SBuffer.Insert | sbuffer.c:70-103 | The linked queue keeps its shape (acyclic, tail last, tail null iff head null) and gains exactly one unseen node at the end, which is also all the memory obtained; nothing is released. |
| SBuffer.SBuffer.UnlinkHead | sbuffer.c:122-141 | The clean-up at the scan's cursor, which has to be the head: the head is unlinked, the cursor is released unless it was alone, and with the flag also the node the scan would go on with, which leaves the queue live iff the head was alone. |
| SBuffer.SBuffer.Deliver | sbuffer.c:144-166 | The first node unseen by the reader is marked for that reader only and its reading copied out; this is the answer of the value-level read. |
| SBuffer.SBuffer.Look | sbuffer.c:120-169 | One pass of the scan either ends it with the complete answer or moves on by one node with the scan's invariant kept; a node found seen by both is always the head, so what is unlinked and what is released are the same node. |
| SBuffer.SBuffer.Read | sbuffer.c:105-174 | The scan terminates, answers and changes the queue as the value-level read, keeps shape and flag protocol, releases precisely the listed nodes and never one twice, and leaves every linked node unreleased iff the flagged multi-node clean-up was not taken (predicate `Answered`). It answers the empty code iff no node is linked, and SUCCESS iff a reading is pending for this reader and the flagged clean-up is not taken. |
| SBuffer.SBuffer.GetInfo | sbuffer.c:176-211 | The side-effect-free scan answers the empty code iff no node is linked and SUCCESS iff a reading is pending for this reader. |
| SBuffer.SBuffer.Remove | sbuffer.c:38-68 | A plain dequeue: empty code on the empty buffer, otherwise the head's reading, the head unlinked and released once. |
| SBuffer.SBuffer.Destroy | sbuffer.c:19-36 | Every linked node is released once; the memory that stays unreleased is exactly what had been lost before. |
| SBuffer.OnlyLoneHeadIsLost | sbuffer.c:128-139 | A clean-up adds to the lost nodes exactly when it unlinks a lone head without the flag. |
| BufferSpec.InsertAppends | sbuffer.c:85-98 | An insertion keeps the flag protocol and appends to what each reader has still to receive. |
| BufferSpec.ReadIsPrivateDequeue | sbuffer.c:113-173 | A read keeps the protocol, dequeues the front of its own reader's pending readings, leaves the other reader's pending readings unchanged, and fails iff nothing is pending or the flagged clean-up returns early; it answers the empty code iff the buffer is empty. |
| BufferSpec.MarkTakesFront | sbuffer.c:144-166 | Marking the first unseen cell takes it off this reader's pending readings, leaves the other's alone and keeps at most the head marked by both. |
| BufferSpec.CleanupKeepsPending | sbuffer.c:122-134 | Unlinking a head seen by both loses nothing for either reader and leaves no second node to unlink. |
| BufferSpec.LengthBound | sbuffer.c:119-135 | The buffer is never longer than what one of the readers has still to receive, plus one. |
| BufferSpec.GetInfoForetellsRead | sbuffer.c:176-211 | getinfo gives the code of the read that follows iff that read is not the early return of the flagged clean-up with readings pending. |
| BufferSpec.DequeueSkipsUnseen | sbuffer.c:48-62 | A plain dequeue keeps the protocol and drops the head from the pending readings of exactly those readers that had not seen it. |
| BufferProtocol.EveryRunDeliversPrefixes | sbuffer.c:70-174 | In every interleaving each reader has received a prefix of the insertions in order, the buffer holds the latest part of them, the flags obey the protocol and the length bound holds. |
| BufferProtocol.LiveIffSafe | sbuffer.c:122-140 | A schedule leaves the queue live iff no read passes the flag with a both-seen head that is not alone; then everything put is in the history. |
| BufferProtocol.TerminatedReadReleasesLinkedNode | sbuffer.c:130-139 | Concrete schedule in which a flagged read releases the node it should have delivered. |
| BufferProtocol.ThirdReadStrandsNode | sbuffer.c:128-129 | Concrete safe schedule with a read that strands the head: a reader reads although nothing is left for it. |
| BufferProtocol.RefinesPrivateFifo | sbuffer.c:118-169 | In every safe schedule each read answers what a private queue seeing only the insertions and this reader's reads would answer. |
| BufferProtocol.OtherReaderIsInvisible | sbuffer.c:118-169 | Schedules that agree on insertions and on one reader's reads give that reader the same answers, whatever the other does. |
| BufferProtocol.DrainedSchedulesAgree | sbuffer.c:70-174 | Any two safe schedules with the same insertions that drain the buffer have delivered the same sequence: all insertions. |
| BufferProtocol.GetInfoSuccessIsStable | sbuffer.c:176-211 | SUCCESS stays true under any insertions, queries and reads of the other, and the same reading is delivered. |
| SBufferRuns.Execute | sbuffer.c:70-211 | The heap buffer driven through any safe schedule reaches the value-level state, hands out the same readings, and has lost one node for each read that strands the head. |
| SBufferRuns.ExecuteAndDestroy | sbuffer.c:19-36 | After any safe schedule and the end of the buffer, everything obtained has been released iff no unflagged read met a lone head seen by both; otherwise one node is missing for each such read. |
| DPList.List.Size | lib/dplist.c:115-135 | The number of linked nodes. |
| DPList.List.GetReferenceAtIndex | lib/dplist.c:283-305 | The node at the clamped index, null iff the list is empty. |
| DPList.List.GetElementAtIndex | lib/dplist.c:317-338 | The element at the clamped index, none iff the list is empty. |
| DPList.List.InsertAtIndex | lib/dplist.c:148-192 | For any prev pointers, provided the one followed (that of the node inserted before, unless it is the first) is right: the element lands at the clamped place in the forward sequence, all prev pointers afterwards are stated, the two directions are inverse iff the list was empty or they were and the index is positive, and every node obtained stays accounted for. |
| DPList.InsertionKeepsInverse | lib/dplist.c:162-190 | An insertion keeps next and prev inverse to each other iff it is not at the front of a non-empty list. |
| DPList.List.RemoveAtIndex | lib/dplist.c:206-272 | For any prev pointers, provided that of the removed node is right unless it is the first: the node at the clamped index leaves the list and is released once, its element is disposed of iff asked, and all prev pointers afterwards are stated; the empty list is unchanged. |
| DPList.RemovalKeepsInverse | lib/dplist.c:225-268 | After a removal next and prev are inverse iff they were so everywhere but at the removed node and its successor: a removal repairs the successor. |
| DPList.RemoveUndoesInsert | lib/dplist.c:148-272 | At every index, the removal undoes the insertion: same nodes, doubly linked again, and no node left unreleased. |
| DPList.FrontInsertionBreaksPrev | lib/dplist.c:167-171 | Two insertions at the front leave a first node that precedes itself and a second without predecessor. |
| DPList.List.GetIndexOfElement | lib/dplist.c:349-378 | Index of the first element that compares equal, -1 iff there is none. |
| DPList.List.GetElementAtReference | lib/dplist.c:389-412 | The element of a node of the list, none for null and foreign references. |
| DPList.List.GetNextReference | lib/dplist.c:455-483 | The successor of a node of the list, null for null, foreign and last references. |
| DPList.List.GetPreviousReference | lib/dplist.c:494-517 | The prev pointer, whatever it is, of a node of the list other than the first; null for null, foreign and first references. |
| DPList.List.GetIndexOfReference | lib/dplist.c:563-588 | The index of a node of the list, -1 exactly for null and foreign references. |
| DPList.List.InsertSorted | lib/dplist.c:622-640 | Runs off the end iff the list is not empty and the element exceeds every stored one; otherwise inserts before the first element it does not exceed, with all prev pointers stated. |
| DPList.InsertSortedKeepsOrder | lib/dplist.c:622-640 | On a sorted list, for a comparison that orders its elements and the new one: the insertion succeeds iff the list is empty or the element does not exceed the last, and then the list is sorted and has gained exactly this element. |
| DPList.SortedInsertionRunsOff | lib/dplist.c:634-680 | Inserting 2 into the list of 1 runs off the end, and removing from the empty list dereferences null. |
| DPList.List.RemoveElement | lib/dplist.c:672-694 | Removal at the first element that compares equal, identity if there is none, null dereference iff the list is empty; all prev pointers stated. |
| DPList.List.Destroy | lib/dplist.c:83-108 | Each remaining node is released once, each element disposed of once and in order if asked, and everything obtained has been released. |
| DPList.ReferencesInvertIndices | lib/dplist.c:283-588 | Index of the reference at i is the clamped i, and element by reference equals element by index. |
| DPList.PreviousUndoesNext | lib/dplist.c:455-517 | On a doubly linked list previous undoes next at every node but the last. |
| DPList.NextUndoesPrevious | lib/dplist.c:455-517 | And next undoes previous at every node but the first. |
| ListSpec.NearestPlaces | lib/dplist.c:148-305 | A lookup or removal goes to the existing place nearest to its index, an insertion to the nearest of the places before, between and after the elements. |
| ListSpec.SortedPointInside | lib/dplist.c:634-637 | In a sorted list the scan stops inside iff the element does not exceed the last one. |
| ListSpec.SortedInsertion | lib/dplist.c:622-640 | Insertion where the scan stops keeps the list sorted and adds exactly the element, for any comparison that orders the elements involved. |
| SensorSpec.AverageIsMean | datamgr.c:60-74 | The running average is the mean of the non-zero older values of the window and the new one. |
| SensorSpec.AverageBetween | datamgr.c:60-74 | Whatever bounds the averaged values bounds the average. |
| SensorSpec.ReportHasWitness | datamgr.c:77-91 | A too-hot or too-cold average implies an averaged value beyond that limit. |
| SensorSpec.AverageIsMeanOfLatest | datamgr.c:60-74 | The average equals the mean of the last min(k, n) readings iff no older one of them is zero or they sum to zero. |
| SensorSpec.ZeroReadingIsDropped | datamgr.c:67-69 | Readings 0 and 10 give the average 10, their mean being 5. |
| SensorStream.FoldTakes | datamgr.c:172-189 | After any stream the sensor found under an id has taken exactly the readings with this id, in order; shadowed and other sensors are untouched. |
| SensorStream.WindowIsLatestReadings | datamgr.c:58-74 | From a parsed list, the window holds the last n readings with the id, zero-padded; timestamp and average belong to the latest. |
| DataMgr.SensorNode.constructor | datamgr.c:110-118 | A parsed sensor has a zeroed window and whatever malloc left in average and timestamp. |
| DataMgr.SensorNode.ShiftWindow | datamgr.c:60-73 | The in-place shift leaves the shifted window, its sum and the divisor that goes with it. |
| DataMgr.SensorNode.AddNewTemp | datamgr.c:58-92 | The window, average and other fields afterwards are as specified; the reports are exact and have a witness. |
| DataMgr.SensorNode.Copy | datamgr.c:8-23 | A deep copy: new object and window, same contents. |
| DataMgr.CompareSensorsOrders | datamgr.c:31-43 | The comparison callback orders any sensors totally and transitively, and finds two equal iff their ids are. |
| DataMgr.InsertSensorSorted | datamgr.c:31-43 | With this callback, sorted insertion keeps a list of sensors sorted by id and fails exactly if the list is not empty and the new id exceeds the last one. |
| DataMgr.Manager.constructor | datamgr.c:102-119 | The list holds one sensor per line of the room map, in order, with the id and the room of its line and a zeroed window; all memory is new. |
| DataMgr.Manager.GetIndexOfSensorId | datamgr.c:45-56 | The first sensor with the id, -1 iff there is none. |
| DataMgr.Manager.HandleReading | datamgr.c:172-189 | One delivered reading changes the sensor list as the value-level step; unknown ids change nothing; reports follow the new average. |
| DataMgr.Manager.HandleAll | datamgr.c:145-190 | The sensor list after a stream of deliveries is the fold of the stream. |
| DataMgr.ParseAndHandle | datamgr.c:102-189 | From the room map through any stream: the sensor of the first line with an id is in the room of this line and has the window, timestamp and average of the latest readings with the id. |
| ConnProtocol.RoundAligned | connmgr.c:94-108 | The k-th visit inspects the slot filled for the connection now at index k, with the events reported for it; a connection accepted in the round meets only the extra empty slot. |
| ConnProtocol.RoundServes | connmgr.c:108-197 | A round inserts one reading per readable sensor visited, in list order, and closes at most one connection, the last visited, unserved; the server's activity time is renewed once per accept attempt and closing. |
| ConnActivity.RoundServesEvents | connmgr.c:106-197 | The same over the events reported by poll alone. |
| ConnActivity.RoundVisits | connmgr.c:107-197 | A round that closes nothing visits every connection, also one it accepts; each visit goes by the events reported for that connection. |
| ConnActivity.RoundAccepts | connmgr.c:156-170 | A round accepts exactly the socket that accept returns, if the listening socket is reported readable. |
| ConnActivity.RunAccepts | connmgr.c:92-221 | Over all runs, the sockets that accept has returned are exactly, and in order, those in the list or closed. |
| ConnActivity.RoundRenews | connmgr.c:159-190 | A sensor that stays gets an activity time within the round if it is accepted, or served because data is reported for it; the record of any other is not touched. |
| ConnActivity.RunTracks | connmgr.c:92-190 | Over all runs, the activity time of a sensor lies in the latest round in which it was accepted or served. |
| ConnActivity.ClosedHasBeenSilent | connmgr.c:111-154 | Over all runs, a sensor closed without a hang-up has neither been accepted nor served within the time-out before its closing. |
| ConnActivity.SilentIsClosed | connmgr.c:111-136 | And one that has been silent for longer than the time-out is closed in the next round, or another one before it in the list. |
| ConnActivity.RoundMarksActivity | connmgr.c:134-169 | The server's last_mod is renewed in exactly those rounds in which an accept is attempted or a sensor is closed, with times within the round. |
| ConnProtocol.RoundIsPrompt | connmgr.c:111-154 | A sensor that hung up or was expired at the start is not passed over: it or an earlier one is closed. |
| ConnProtocol.RoundHasCause | connmgr.c:111-154 | The connection closed has hung up, or more than the time-out has passed since its recorded activity, or since its accept if that was in the same round. |
| ConnProtocol.MomentLog | connmgr.c:92-197 | What has been inserted at any moment of a run, after any number of visits of any round, is a prefix of what the run ends with. |
| ConnProtocol.BalancedConserves | connmgr.c:111-170 | Accepted sockets are, with multiplicity, those in the list and those closed. |
| ConnProtocol.EveryRunIsGood | connmgr.c:92-221 | Over all runs: list = server followed by open sensors in accept order, conservation of sockets, records show the latest reading and each socket's read position counts what was inserted from it, hence per-connection order in the merged stream; at quit every accepted socket is closed and the time-out has passed since start, last accept attempt and last removal. |
| ConnProtocol.SilentRoundDropsOldest | connmgr.c:108-136 | With all sensors expired and no events, a round closes exactly the oldest. |
| ConnProtocol.SilenceDrains | connmgr.c:92-136 | Then n rounds close all n sensors, oldest first, and leave the server. |
| ConnProtocol.SilentServerQuits | connmgr.c:199-216 | Alone and without events, the server quits iff it has been idle longer than the time-out. |
| ConnActivity.QuitAfterSilence | connmgr.c:199-208 | Over all runs, when the loop quits, more than the time-out has passed since the start and since a moment within each round in which an accept was attempted or a sensor was closed. |
| ConnActivity.IdleServerQuits | connmgr.c:199-208 | Over all runs, with the server alone and nothing happening, the loop quits once more than the time-out has passed since the start and since all those rounds. |
| ConnActivity.CountdownFromStart | connmgr.c:199-216 | The countdown reported begins at the time-out and loses one per silent round of the lone server. |
| ConnMgr.Manager.constructor | connmgr.c:36-56 | The list holds exactly the server record. |
| ConnMgr.Manager.TcpClose | lib/tcpsock.c:116-145 | Closing is effective once and answers TCP_NO_ERROR; a null socket is left alone and answers TCP_SOCKET_ERROR. |
| ConnMgr.Manager.CloseRecord | connmgr.c:115 | The loop's close succeeds and closes the socket of the record at that index. |
| ConnMgr.Manager.RemoveRecord | connmgr.c:116 | The list node is unlinked, the callback closes the socket once more without effect, the record is disposed of and the node released. |
| ConnMgr.Manager.DropConnection | connmgr.c:111-154 | The record leaves the list, its list node is released, the server's activity time is renewed. |
| ConnMgr.Manager.AcceptConnection | connmgr.c:156-170 | A new record is appended at the end; the server's activity time is renewed also if accept fails. |
| ConnMgr.Record.TcpReceive | connmgr.c:175-187 | A receive delivers the next reading of the socket's stream and moves its read position on. |
| ConnMgr.Record.Receive | connmgr.c:172-190 | The activity time becomes the present time, and the reading received overwrites all fields but the socket. |
| ConnMgr.Manager.ReceiveReading | connmgr.c:172-197 | The reading received overwrites the record at this index and is passed on under its socket. |
| ConnMgr.Manager.CheckInactivity | connmgr.c:199-216 | Quit and close the listening socket, or count down. |
| ConnMgr.Manager.VisitConnection | connmgr.c:108-217 | One iteration of the inner loop computes the value-level body. |
| ConnMgr.Manager.Poll | connmgr.c:94-107 | The array has one slot per connection, in order, and one that stays empty. |
| ConnMgr.Manager.Walk | connmgr.c:108-217 | The inner loop computes the value-level loop; every access to the array is in bounds. |
| ConnMgr.Manager.PollRound | connmgr.c:92-221 | One round on the heap computes the value-level round. |
| ConnMgr.Manager.EventLoop | connmgr.c:92-221 | The outer loop on the heap computes the value-level run. |
| ConnMgr.Manager.FreeList | connmgr.c:242-244 | Every list node is released, no record is disposed of. |
| ConnRuns.StartToEnd | connmgr.c:36-244 | From start to end on the heap: per-connection order of what was inserted, all list nodes released, and at quit every accepted socket and the listening socket closed exactly once. |
| Pipeline.NextInv | datamgr.c:145-190 | The inductive invariant of the three threads: every step of any of them keeps the buffer consistent, both consumers in order and the outputs equal to the fold of what was processed. |
| Pipeline.EveryExecution | sensor_db.c:35-78 | In every interleaving of the threads each consumer has processed a prefix of the insertions, the rows are the processed readings whose insertion succeeded according to the outcomes of the insertions made, nothing linked is released before the flag is raised, and each consumer reads at most once more after it has set quit. |
| Pipeline.KeptAre | sensor_db.c:62-64 | The rows are as many as there were successes, and each reading inserted successfully comes after as many rows as succeeded before it. |
| Pipeline.SensorsFollowTheStream | datamgr.c:145-190 | In every interleaving a known sensor's window, timestamp and average are those of the last readings with its id among the prefix processed. |
| Pipeline.ReplayReproducesSensors | sensor_db.c:62-64 | With equal progress and no failed insertion, replaying the rows reproduces the sensors. |
| Pipeline.ReadAfterGapSucceeds | datamgr.c:157-172 | A consumer entering the read without the flag always receives the next reading of the history, in spite of the unlocked gap. |
| Pipeline.HistoryIsProduced | connmgr.c:195 | The history is what was produced before the flag or the end of the run; all of it as long as neither has happened. |
| Pipeline.ScheduledConsumerDrains | datamgr.c:145-190 | Along every interleaving that ends with the flag down, from any place in its loop, a consumer scheduled six times per reading, and at most once more, gets through with that many of the readings waiting for it. |
| Pipeline.InsertedIsProcessed | datamgr.c:145-190 | In every execution, whatever has been inserted at a moment has been processed by a consumer once it has been scheduled more than six times as often as it then had readings to process. |
| Pipeline.FlagStopsConsumers | datamgr.c:147-170 | Once the flag is up a consumer leaves its loop after at most twelve steps of its own, or the run has ended with an unsafe release. |
| Shutdown.ReleaseIsReachableIff | sbuffer.c:122-140 | Once the flag is up, some continuation releases a linked node iff the state is in danger: a condition on the length of the queue, the readers' marks and the reads each consumer still has to make. The same for continuations that respect the mutex. |
| Shutdown.InvIsClosing | datamgr.c:147-170 | Every state the threads reach with the flag up meets the premise of that result: at most two reads to come per consumer, the last of them with the flag. |
| Shutdown.ReadCounts | sbuffer.c:118-173 | A read shortens the queue by one iff both readers have seen the head, and moves its reader's mark on by one iff there is something unseen and it does not return early. |
| Shutdown.ShutdownIsSafeIff | datamgr.c:147-172 | If the flag goes up with both consumers at the head of their loops, no continuation is unsafe (with or without the mutex) iff at most one reading is in the buffer or neither has taken the first. |
| Shutdown.ShutdownCanReleaseLinkedNode | datamgr.c:147-172 | The threads can reach the unsafe release, with respect for the mutex. |
| PipelineRuns.ExecutionIsSchedule | sensor_db.c:35-78 | Every execution of the threads is a schedule of buffer operations in which no read strands the head; it is safe iff the execution ends live. |
| PipelineRuns.ExecuteThreads | sbuffer.c:19-36 | In every execution that ends live the heap buffer hands out what the consumers receive, and its end releases everything ever obtained. |
| Gateway.WindowFollowsSockets | datamgr.c:172-180 | At any moment of a run, also in the middle of a round, a known sensor's window holds the last readings with its id among a prefix of what the connection manager has taken from its sockets by then. |
| Gateway.ConsumersKeepConnectionOrder | connmgr.c:172-197 | Each consumer has processed a prefix of the merged stream of a run, and of any one connection exactly what it sent first, in order. |
| Gateway.ConsumersKeepOrderAtAnyMoment | connmgr.c:108-197 | The same at any moment of the run, after any number of visits of any round, for what has been inserted by then. |

## Left out

- SBuffer.SBuffer.Read: `last_update` is not modelled; the source writes it and never reads it.
- SensorSpec.AverageIsMean: temperatures are `real`, so the rounding of `double` is not modelled.
- ConnProtocol.EveryRunIsGood: assumes that no hang-up event is reported for the listening socket, that `accept` never returns the same socket object twice, and a non-decreasing clock.
- ConnMgr.Record.TcpReceive: the three receives, one per field, are one full-length receive of a whole reading.
- ConnMgr.Manager.ReceiveReading: assumes full-length receives; what is still unread when a hang-up or time-out is seen is not delivered, as in the source.
- DPList.List.InsertAtIndex: requires the one prev pointer it follows to be right. After front insertions it can be null or point to its own node; the source then dereferences null or closes a cycle, which is not modelled.
- DPList.List.RemoveAtIndex: the same, for the prev pointer of a removed node other than the first.
- ConnMgr.Manager.TcpClose: a failing `shutdown` (`lib/tcpsock.c:126-133`), which leaves the descriptor open, is not modelled, nor are the descriptor and the address string of a socket.
- Pipeline.EveryExecution: covers the consumers' loops, not their start-up (waiting for the database connection) nor whether a wake-up arrives; a consumer that is never scheduled makes no progress.
- NULL lists, NULL buffers and failing allocations: every object of the model exists.
- 32-bit wrap-around of list indices and of the shutdown counter.
- `dpl_get_first_reference`, `dpl_get_last_reference`, `dpl_get_reference_of_element`, `dpl_insert_at_reference`, `dpl_remove_at_reference`: compositions of modelled operations.
- `conn_compare` and the copying insertions: not used by either manager.
- A failed `tcp_passive_open` and a database that cannot be opened: the loops are not entered then.
- SQL text, the six decimals of `%lf` in a row, and the database itself: a row is the reading, and an insertion succeeds or fails.
- Sockets, poll and accept themselves, logging, the FIFO, the log process, thread creation and joining.
- `sensor_node.c`, `test_server.c`, `datamgr_test.c`, `db_test.c`: clients and tests.
