# A verified model of librmilter

librmilter is a C library for the client side of the milter protocol. This project models its three
parts that carry state and proves what they promise:

* **The intrusive lists of `src/utlist.h`.** The bottom-up merge sorts `LL_SORT2`, `DL_SORT2` and
  `CDL_SORT2` are methods that rewrite `next` and `prev` of nodes on the heap, with the loops,
  branches and assignments of the macros. Each is proved to leave the nodes in the order of one
  function, `MergeSpec.MergeSort`, in the full shape of its kind of list, for *every* comparator.
  About that function it is proved that it permutes its input, that for a total preorder it is the
  stable sorted order and equal to recursive insertion sort, how many passes and comparisons it
  takes, that no two elements are compared twice, and up to which length the signed run size does not
  overflow. Comparisons are recorded where the comparator is called. The edit macros, the deletion-safe traversals and the VS2008 replacements
  are proved against edits of a sequence, and so is any program composed of them.
* **The command decoder of `src/session.c`.** `Decoder.Step` takes in one byte; it is proved to be
  insensitive to chunking, to conserve every byte of any stream, and to invert the encoder. The loop
  of `rmilter_session_state_machine` is modelled on mutable fields, with its bulk copy and its
  shifts and ors on 32-bit words, and proved against that meaning.
* **The lifetime of milters and sessions** (`src/librmilter.c`, `src/session.c`, `src/ref.h`).
  `LifetimeSpec` is a transition system over arbitrary interleavings of sockets taken over, read
  events, timer events and destruction; `Lifetime.Runtime` is the code on mutable state, in which
  the heap is a map, so that each access to a session or link and each deletion of an event has to
  be shown to find it there. The method `Drive` ties whole runs of the one to the other. `Service`
  tells from the events alone which clients are served, in which order, with which descriptor and what
  was read from each, and the transition system is proved to serve exactly these; `EventEffects` says
  field by field what each event changes and what it leaves.

## Where the code departs from what it is for

The code is kept as it is, and it is proved exactly when it meets its purpose.

* *Payload copy* (`src/session.c:77`). The bound `MIN(cmdlen, end - p)` ignores payload that earlier
  chunks brought in. `SessionMachine.AsWritten` is what the loop computes. One call is right if and
  only if its chunk does not reach beyond a payload of which an earlier chunk brought a part
  (`AsWrittenCorrect`), and a run is right if and only if no chunk does so at its turn
  (`AsWrittenAllCorrect`). Told from the commands sent and the cuts alone: if and only if no payload
  is cut with the next cut behind its end (`StreamCuts.StreamDecodes`). After an overshoot no command
  is ever completed again (`StuckForever`), though no byte is lost (`AsWrittenConserves`);
  `SplitPayloadExample` is a concrete input. `StateMachineBounded` is the loop with the bound
  `MIN(cmdlen - data->len, end - p)`, and decodes every stream.
* *Destroying* (`src/librmilter.c:182-190` against `include/librmilter.h:200-203`). The loop starts
  at the tail of the queue and steps with `g_list_next`, after the session's destructor has freed
  the link it steps from. `DestroyedAsWritten` is its effect, with the freed link's successor taken
  to be what it was, none. It destroys the milter and all its sessions if and only if there is at
  most one session (`DestroyedAsWrittenExactly`), and reads a freed link if and only if there is at
  least one (`Runtime.DestroyAsWritten`). The session closed is the one that came first
  of those alive (`Service.OldestGoes`). `DestroyAsWrittenExample` is a run of two sessions after
  which the milter and one session are left, the second (`Service.DestroyAsWrittenLeavesLast`). `Destroy` steps towards the head, reading that step before
  the link is freed. Runs may contain both.
* *Closing a session* (`src/session.c:140-141` against `include/librmilter.h:138,143`, and
  `src/librmilter.c:45-55`). The two arguments of `del_read` and `del_timer` are swapped, and the
  event fields are not cleared, so that the destructor deletes the events again.
  As written, closing deletes the right events if and only if the event loop's data is null
  (`CloseAsWrittenExactly`): the misdirected calls are then calls on a null event, which the shipped
  callbacks let pass (`include/libmilter_ev.h:136`, `include/librmilter_event.h:139`), and the
  destructor's calls delete the events. `Runtime.SessionCloseAsWritten` is that case, and takes the
  same step as the repaired close. `CloseAsWrittenExample` is a run to a session whose closing fails
  with a loop that has data. `CloseDeletesExactly` covers each repair alone and both together: with
  both, and only with both, closing is right for every loop. The transition system has both.
* *The read call* (`src/session.c:102`) is given the byte array structure instead of its storage,
  and the length of an empty array. It is modelled as bringing an arbitrary chunk, an end of stream
  or a failure.

## Files

| file | content |
|---|---|
| `MergeSpec.dfy` | the merge sort as a function, and its invariants pass by pass |
| `MergeTheorems.dfy` | order, stability, insertion sort, cost, width |
| `CompareOnce.dfy` | no two elements are compared twice, and the comparisons made decide the order |
| `Sequences.dfy` | facts about sequences |
| `Lists.dfy`, `SortHeap.dfy` | nodes, comparators, the shapes of lists, the heap inside a pass, how a pass reads and links |
| `SingleSort.dfy`, `DoubleSort.dfy`, `RingSort.dfy` | the three sorts in place |
| `SeqEdits.dfy` | edits of sequences |
| `SingleEdit.dfy`, `DoubleEdit.dfy`, `RingEdit.dfy` | the edit macros and traversals in place |
| `EditRuns.dfy` | programs of edits |
| `Decoder.dfy` | the decoder byte by byte, the encoder, conservation, round trip |
| `SessionMachine.dfy` | the state machine loop, as written and bounded |
| `StreamCuts.dfy` | which cuts of a stream into chunks the loop as written survives |
| `LifetimeSpec.dfy` | the transition system and its invariants |
| `EventEffects.dfy` | what each event does to the fields, and what it leaves alone |
| `Service.dfy` | the clients served, told from the events alone |
| `Lifetime.dfy` | the functions on mutable state |

Run sizes and lengths are unbounded integers; what the C `int` does to them is
`MergeTheorems.RunSizeFitsInt32`. A comparator is a function of two nodes: it may look at anything in
the caller's structure but the link fields, and may be inconsistent unless a lemma asks for a total
preorder. The sorts call it as `Comparator.Compare`, which records its calls; passes and the final run
size are counted where the loops change them.

## Model

| member | source | states |
|---|---|---|
| DoubleSort.Sort | src/utlist.h:171-228 | from any null-terminated list, whatever its `prev` fields, ends with a list of the same nodes in merge sort order, tail in `head->prev`, null in the tail's `next`, `prev` inverse to `next`; the exact number of passes, the exact calls of the comparator one by one, at most n * ceil(log2 n) - (n - 1) of them and no two on the same two nodes |
| RingSort.Sort | src/utlist.h:233-304 | from any forward ring ends with one well-formed ring of the same nodes in merge sort order; the exact number of passes, the exact calls of the comparator one by one, at most n * ceil(log2 n) - (n - 1) of them and no two on the same two nodes |
| SingleSort.Sort | src/utlist.h:108-165 | the same order, passes and comparator calls for singly linked lists, touching no `prev` field |
| Lists.Comparator.Compare | src/utlist.h:140 | a call of the comparator yields its verdict on the two nodes and is recorded |
| DoubleSort.Pass | src/utlist.h:182-221 | one pass relinks the list in place into the order of the pass function and restores the whole shape, from a shape broken inside the pass; the merge count is that of the function |
| RingSort.Pass | src/utlist.h:246-297 | one pass over the ring reads every node once up to the old head and closes the new ring |
| SingleSort.Pass | src/utlist.h:119-158 | one pass over a singly linked list |
| DoubleSort.MergeRuns | src/utlist.h:195-217 | the inner loop puts the merge of the two runs behind the output while the unread part stays threaded, with exactly the merge's comparator calls |
| RingSort.MergeRuns | src/utlist.h:266-292 | the same in a ring: the old head stops both cursors |
| SingleSort.MergeRuns | src/utlist.h:132-153 | the same for singly linked lists |
| SortHeap.Choose | src/utlist.h:197-209 | the left run is taken from exactly when it is not used up and the right one is, or the comparator does not put the left node after the right; the comparator is called once when both runs have nodes left, and otherwise not |
| RingSort.Choose | src/utlist.h:268-284 | the same choice and comparator calls, with the cursor becoming null when it comes round to the old head |
| SortHeap.Link | src/utlist.h:147-152 | the node read goes to the end of the output, and what is unread stays threaded |
| SortHeap.LinkBoth | src/utlist.h:210-216 | the same, with the node's `prev` set to the output's former last node |
| SortHeap.SkipRun | src/utlist.h:188-194 | finds the end of the run and its length, cut short by the end of the list |
| RingSort.SkipRun | src/utlist.h:253-265 | finds the end of the run and its length, cut short by the old head |
| MergeSpec.SortPermutes | src/utlist.h:118-163 | for every comparator, even an inconsistent one, the result is a permutation |
| MergeTheorems.MergeSortCorrect | src/utlist.h:101-104 | for a total preorder the result is sorted and stable |
| MergeTheorems.MergeSortIsInsertionSort | src/utlist.h:101-104 | for a total preorder all three sorts leave the order of recursive insertion sort |
| MergeTheorems.StableOrderUnique | src/utlist.h:101-104 | a sequence has one stable sorted order |
| MergeTheorems.InsertionSortCorrect | src/utlist.h:101-104 | the reference sort is a sorted, stable permutation |
| MergeSpec.MergeStable | src/utlist.h:140-145 | taking the left run on a tie keeps tied nodes in order |
| MergeSpec.PassDoublesRuns | src/utlist.h:123-162 | a pass over sorted blocks of k leaves sorted blocks of 2k |
| MergeSpec.PassStable | src/utlist.h:123-155 | a pass over sorted blocks moves no node past one it ties with |
| MergeTheorems.PassBlock | src/utlist.h:123-155 | each aligned block of 2k a pass puts out is the merge of the two k-blocks read there, at the same place |
| MergeSpec.MergesIsCeiling | src/utlist.h:122-124 | a pass makes ceil(n / 2k) merges |
| MergeSpec.MergesAtMostOne | src/utlist.h:159-161 | a pass makes at most one merge exactly when n <= 2k |
| MergeTheorems.PassCount | src/utlist.h:118-163 | max(1, ceil(log2 n)) passes |
| MergeTheorems.MergeSortCost | src/utlist.h:102 | the number of comparator calls the sorts are proved to make is at most n * ceil(log2 n) - (n - 1), for every comparator |
| CompareOnce.SortComparesOnce | src/utlist.h:140 | for every comparator, even an inconsistent one, no two elements are compared twice in one sort, in either order |
| CompareOnce.ComparedWereApart | src/utlist.h:133-146 | what a pass compares was not in the same run before it |
| CompareOnce.PassBringsTogether | src/utlist.h:123-162 | what a pass compares is in the same run after it, and what was so before remains so |
| CompareOnce.CallsDecideOrder | src/utlist.h:140 | two comparators that agree on the pairs on which one of them is called lead to the same order and the same calls |
| CompareOnce.AnsweredByFunction | src/utlist.h:140 | the answers to calls none of which repeats a pair are those of some function of two nodes |
| MergeTheorems.FinalRunSize | src/utlist.h:162 | the run size ends at no more than 2n |
| MergeTheorems.RunSizeFitsInt32 | src/utlist.h:114-162 | doubling the run size stays within 32 signed bits exactly for n <= 2^30 |
| DoubleEdit.Prepend | src/utlist.h:507-517 | puts the node in front and keeps the shape |
| DoubleEdit.Append | src/utlist.h:522-534 | puts the node behind and keeps the shape |
| DoubleEdit.Concat | src/utlist.h:539-552 | concatenates two disjoint lists, either of them possibly empty |
| DoubleEdit.Delete | src/utlist.h:557-573 | takes out exactly the node, at the head, at the tail, in the middle or alone |
| DoubleEdit.Replace | src/utlist.h:603-627 | puts the node in the place of another |
| DoubleEdit.PrependElem | src/utlist.h:629-642 | puts the node in front of another |
| DoubleEdit.ForeachSafe | src/utlist.h:594-595 | visits each node once, in order, while the body deletes any of them; exactly the others are left |
| DoubleEdit.FreeAll | src/librmilter.c:80-86 | each queued reply is freed once and none is read after it was freed |
| RingEdit.Prepend | src/utlist.h:651-663 | puts the node in front and keeps the ring |
| RingEdit.Delete | src/utlist.h:668-677 | takes out exactly the node and keeps the ring, or leaves none |
| RingEdit.Replace | src/utlist.h:722-740 | puts the node in the place of another |
| RingEdit.PrependElem | src/utlist.h:742-754 | puts the node in front of another |
| RingEdit.ForeachSafe | src/utlist.h:697-700 | visits each node once, in order, up to the node that was last at the start, while the body deletes any of them |
| SingleEdit.Prepend | src/utlist.h:312-316 | puts the node in front |
| SingleEdit.Concat | src/utlist.h:321-331 | concatenates two disjoint lists |
| SingleEdit.Append | src/utlist.h:336-347 | puts the node behind; only `next` fields change |
| SingleEdit.AppendVS2008 | src/utlist.h:372-382 | the same contract as the plain form: every `next`, and the head, are the same |
| SingleEdit.Delete | src/utlist.h:352-366 | takes out the node, or changes nothing if it is not in the list; the node keeps its own `next` |
| SingleEdit.DeleteVS2008 | src/utlist.h:387-404 | the same contract as the plain form, with the head restored |
| SingleEdit.Replace | src/utlist.h:460-478 | puts the node in the place of another, or leaves the list alone if that is not there |
| SingleEdit.PrependElem | src/utlist.h:480-498 | puts the node in front of another, or leaves the list alone if that is not there |
| EditRuns.ExecuteDouble | src/utlist.h:507-642 | any program of edits, sorts, deletions while traversing and concatenations on two list variables keeps both shapes and equals the program of sequence edits |
| EditRuns.ExecuteRing | src/utlist.h:651-754 | the same for rings |
| EditRuns.ApplyMeans | src/utlist.h:507-642 | what each edit makes of the list, cut at the node it names: the node gone, another in its place, or another in front of it, and both parts around it as they were |
| EditRuns.ApplyMeansWhole | src/utlist.h:507-642 | the same for the edits of whole lists: concatenation in order, exchange, deletion while traversing, sorting |
| EditRuns.OutcomeConcat | src/utlist.h:507-754 | a program's outcome is made of those of its parts, down to single edits |
| EditRuns.ApplyApart | src/utlist.h:507-642 | no edit makes the two lists share a node or takes in one from outside |
| SeqEdits.WithoutMiddle | src/utlist.h:557-573 | deleting leaves what stood in front of the node and what stood behind it |
| SeqEdits.ReplacedMiddle | src/utlist.h:603-627 | replacing puts the one node exactly where the other stood, and that is gone |
| SeqEdits.InsertedMiddle | src/utlist.h:629-642 | inserting puts the one node right in front of the other |
| SeqEdits.KeptConcat | src/utlist.h:594-595 | the nodes left after deleting while traversing keep their order |
| SeqEdits.KeptExactly | src/utlist.h:594-595 | what is left after deleting while traversing are the nodes the body did not delete |
| Decoder.FeedConcat | src/session.c:43-94 | feeding two chunks is feeding them in one piece, wherever the cut falls |
| Decoder.FeedAllConcat | src/session.c:43-94 | the same for any chunking |
| Decoder.FeedValid | src/session.c:45-90 | between any two bytes of any stream the fields fit the state; `st_send_reply` is never reached |
| Decoder.FeedConserves | src/session.c:45-90 | after any stream the encoding of the completed commands and the partial command are exactly the bytes consumed |
| Decoder.RoundTrip | src/session.c:45-90 | feeding the encoding of any commands yields those commands, and only a last empty one is pending |
| Decoder.RoundTripChunked | src/session.c:45-90 | the same from a fresh session, however the encoding is cut |
| Decoder.EncodeInjective | src/session.c:45-90 | no two lists of commands have the same encoding |
| Decoder.FieldOfBytes | src/session.c:52-73 | reading a length field undoes writing it |
| Decoder.BytesOfField | src/session.c:52-73 | writing a length field undoes reading it |
| SessionMachine.Session.StateMachine | src/session.c:36-95 | the loop as written computes `AsWritten`, and ends within as many turns as there are bytes consumed and empty commands completed, exactly as many when there is one byte |
| SessionMachine.Session.StateMachineBounded | src/session.c:36-95 | with the copy bounded by what is left of the payload, the loop computes the decoder's meaning on every chunk, within the same number of turns |
| SessionMachine.Session.HeaderByte | src/session.c:45-75 | the command byte, and the four shifts and ors on a 32-bit word, are the decoder's step |
| SessionMachine.Session.Payload | src/session.c:79-90 | appends, and completes the command exactly when the payload has its length |
| SessionMachine.OrByte1 | src/session.c:54 | or-ing the byte shifted by 24 adds its value at that place |
| SessionMachine.OrByte2 | src/session.c:60 | or-ing the byte shifted by 16 adds its value at that place |
| SessionMachine.OrByte3 | src/session.c:66 | or-ing the byte shifted by 8 adds its value at that place |
| SessionMachine.OrByte4 | src/session.c:72 | or-ing the byte adds its value |
| SessionMachine.CopyRefines | src/session.c:76-90 | a bulk copy within the payload is so many steps of one byte, an empty command included |
| SessionMachine.AsWrittenCorrect | src/session.c:77 | one call decodes as intended if and only if its chunk does not overshoot |
| SessionMachine.AsWrittenAllCorrect | src/session.c:77 | a run of calls decodes as intended if and only if no chunk overshoots at its turn |
| SessionMachine.DecodesUnlessOvershot | src/session.c:36-95 | a fresh session receives exactly the commands whose encoding its chunks make up, if and only if no chunk overshoots at its turn |
| StreamCuts.StreamDecodes | src/session.c:36-95 | the same, if and only if no payload is cut with the next cut behind its end: a condition on the commands sent and the positions of the cuts |
| StreamCuts.NeverOvershootsIsUnbroken | src/session.c:77 | that condition is the one on the decoder's states |
| StreamCuts.OvershootAt | src/session.c:77 | at any position of the stream the next bytes overshoot exactly when they break a payload |
| SessionMachine.AsWrittenConserves | src/session.c:45-90 | the loop as written, overshoots included, holds every byte consumed in its completed commands and its partial one |
| SessionMachine.OvershootRunLoses | src/session.c:76-90 | a run that overshoots ends stuck, with fewer commands completed than the stream holds |
| SessionMachine.StuckForever | src/session.c:85 | after an overshoot no command is completed any more |
| SessionMachine.SplitPayloadIsLost | src/session.c:76-90 | every payload of two or more bytes is lost if it is cut anywhere and the next chunk goes one byte further |
| SessionMachine.SplitPayloadExample | src/session.c:76-90 | a concrete two-byte payload that is lost |
| SessionMachine.NeverSendReply | src/session.c:91-93 | no chunks take a started session to the state in which the loop would spin |
| LifetimeSpec.RunInv | src/librmilter.c:139-211 | in every reachable state the queue, the links, the sessions, the registered events and the reference counts fit each other |
| LifetimeSpec.RefcountCounts | src/librmilter.c:134-166 | the milter's reference count is the number of live sessions, and one until the creator lets go; the queue holds each live session once, by its own link |
| LifetimeSpec.AfterInv | src/librmilter.c:139-211 | each event keeps the invariant, and finds what it touches alive |
| LifetimeSpec.RegisteredCanFire | src/librmilter.c:196-211 | an event that is registered after any run belongs to a live session, which can be read from and closed, and was not deleted before |
| LifetimeSpec.DestroyedFreesAll | include/librmilter.h:200-203 | destroying frees the milter and all its sessions, however many there are |
| LifetimeSpec.TailsClosedInv | src/librmilter.c:182-190 | the loop closes one session a turn, and the milter lives through all of it |
| LifetimeSpec.LetGoInv | src/librmilter.c:192-193 | the last release frees the milter exactly when no session is left |
| LifetimeSpec.FreedLeavesNothing | src/librmilter.c:95-104 | when the milter's destructor has run, it ran once and no session, link or event is left |
| LifetimeSpec.DestroyedAsWrittenExactly | src/librmilter.c:182-190 | the loop as written destroys milter and sessions if and only if there is at most one session |
| LifetimeSpec.DestroyAsWrittenExample | src/librmilter.c:173-194 | a run of two sockets taken over after which destroying as written leaves the milter and one session |
| LifetimeSpec.DestroyedAsWrittenInv | src/librmilter.c:173-194 | what it leaves: all sessions but the one at the tail of the queue |
| LifetimeSpec.NoneAddedAfterDestroy | src/librmilter.c:147-149 | once the milter is to die, no run adds a session |
| LifetimeSpec.RunReleasesAll | src/librmilter.c:45-59 | over every run each event added is deleted once, or still registered and not deleted; each descriptor number is closed as often as it was taken over, not counting the live sessions that hold it; a freed milter holds none |
| Service.DescriptorsAreClosed | src/librmilter.c:57-59 | each descriptor of a socket that came before the milter was told to die was closed, as often as it came, unless a session alive holds it, and no other was |
| Service.RunTakes | src/librmilter.c:147-157 | the descriptors taken over are those of the sockets that came before the milter was told to die |
| LifetimeSpec.RunStream | src/session.c:97-123 | over every run each live session's decoder is where its own chunks take it |
| Service.SessionDecodes | src/session.c:97-123 | after any run, the commands received from a client are the ones sent if and only if its chunks broke no payload, the chunks being what its read event brought since it came |
| Service.RunServes | src/librmilter.c:139-211 | after any events the milter serves exactly the clients told from the events alone: in order of arrival, each with its descriptor, its events and what was read from it |
| Service.ClientHistory | src/librmilter.c:139-202 | a client served came with a socket before the milter was told to die, and what was read from it is what its read event has brought since, in order |
| Service.NewestFirst | src/librmilter.c:164-166 | in every reachable state the queue lists the live sessions, the last to come first |
| Service.OldestGoes | src/librmilter.c:182-190 | destroying as written frees the session that came first of those alive, and no other |
| Service.DestroyAsWrittenLeavesLast | src/librmilter.c:173-194 | of two clients, destroying as written leaves the second |
| EventEffects.TakingAddsSession | src/librmilter.c:151-161 | a socket taken over is a new session with its descriptor, one reference and a fresh decoder; the others are as they were |
| EventEffects.TakingAddsLinkAndEvents | src/librmilter.c:165-167 | its link is the new head of the queue, and a read event and a timer of its own are registered |
| EventEffects.TakingIsCounted | src/librmilter.c:161-163 | the milter has one more reference, and the descriptor is in the account unless it is -1 |
| EventEffects.ReadingFeedsSession | src/session.c:119-122 | the whole chunk reaches the session whose read event fired, whose other fields and all other sessions are as they were |
| EventEffects.ReadingChangesNoMore | src/session.c:119-122 | nothing else changes |
| EventEffects.EndingRemovesSession | src/session.c:104-118 | a timeout, a failed read or the end of the stream frees exactly the session the event is registered for |
| EventEffects.EndingRemovesLinkAndEvents | src/librmilter.c:45-55 | its link leaves the queue, the others in their order, and its two events are deleted |
| EventEffects.EndingIsCounted | src/librmilter.c:57-91 | the milter loses one reference, and the session's descriptor is closed unless it is -1 |
| EventEffects.DestroyingAsWrittenFreesLast | src/librmilter.c:182-193 | destroying as written frees the session at the tail of the queue and no other, and lets go of the milter |
| LifetimeSpec.ConsumedInv | src/librmilter.c:151-167 | a new session is in order with everything there is |
| LifetimeSpec.ClosedInv | src/librmilter.c:37-93 | closing a session finds all it deletes and leaves the rest in order |
| LifetimeSpec.CloseAsWrittenExactly | src/session.c:140-144 | the calls that, as written, delete a closed session's events go through if and only if the loop's data is null, and then leave the events of the others |
| LifetimeSpec.CloseDeletesExactly | src/session.c:140-144 | for any loop, the calls leave the events of the others if and only if the arguments are in order and the fields cleared, or neither and the loop's data is null |
| LifetimeSpec.CloseAsWrittenExample | src/session.c:140-144 | a run to a live session whose closing, as written, does not go through with a loop that has data, and does with one that has none |
| Lifetime.Runtime.constructor | src/librmilter.c:106-137 | a fresh milter with the creator's reference |
| Lifetime.Runtime.ConsumeSocket | src/librmilter.c:139-170 | takes the socket over unless the milter is to die; the step of the transition system |
| Lifetime.Runtime.SessionStart | src/session.c:147-156 | the initial state and the two events |
| Lifetime.Runtime.SessionClose | src/session.c:131-145 | the events deleted and forgotten, the reference dropped, the destructor run when it was the last |
| Lifetime.Runtime.SessionCloseAsWritten | src/session.c:131-145 | the calls as written, with a loop whose data is null: the same transition, by the destructor's deletions |
| Lifetime.Runtime.SessionDtor | src/librmilter.c:37-93 | deletes the events still set, closes the descriptor unless it is -1, unlinks the session, releases the milter and frees the session |
| Lifetime.Runtime.ReleaseMilter | src/ref.h:74-80 | the count drops by one, and the destructor runs at zero, with its assertion that no session is left |
| Lifetime.Runtime.FeedChunk | src/session.c:119-122 | the session's state machine goes on over the chunk, which is the transition system's step |
| Lifetime.Runtime.ProcessRead | src/session.c:97-123 | input goes to the state machine; failure and end of stream close the session |
| Lifetime.Runtime.ProcessTimer | src/librmilter.c:204-211 | closes the session |
| Lifetime.Runtime.Destroy | src/librmilter.c:172-194 | with the repaired step, the loop and the release are the transition that frees everything |
| Lifetime.Runtime.DestroyAsWritten | src/librmilter.c:172-194 | as written; reads a freed link if and only if there is a session |
| Lifetime.Runtime.Drive | src/librmilter.c:139-211 | any sequence of events, from any state in order, is the run of the transition system |

## Left out

- SingleEdit.AppendVS2008: that its heap is the plain form's is not a lemma of its own; the two methods have one contract, which fixes the head and every `next`, and a frame that holds no `prev`.
- Lifetime.Runtime.SessionClose: has the argument order and the cleared fields repaired; the calls as written are in `Lifetime.Runtime.SessionCloseAsWritten` and `LifetimeSpec.CloseAsWrittenExactly`.
- Lifetime.Runtime.SessionCloseAsWritten: is for loops whose data is null, the only ones with which the calls go through; the null test is the shipped callbacks', and other callbacks may lack it.
- Lifetime.Runtime.SessionDtor: does not free the byte arrays, the macro table or the reply list, and does not look at `write_ev`, which no code of the repository sets; the loop over the replies is `DoubleEdit.FreeAll`.
- Lifetime.Runtime.Destroy: has the loop's step repaired; the step as written is in `Lifetime.Runtime.DestroyAsWritten`.
- LifetimeSpec.DestroyedAsWrittenExactly: takes the successor of the freed link to be what it was before, none.
- LifetimeSpec.DestroyedAsWrittenInv: takes the successor of the freed link to be what it was before, none.
- Lifetime.Runtime.DestroyAsWritten: the successor read from the freed link is taken to be what it was before, none; what reused memory would hold is not modelled.
- Lifetime.Runtime.ProcessRead: the retry on EINTR is a recursion governed by the kernel; read() brings an arbitrary result instead of filling the wrong buffer.
- SessionMachine.Session.StateMachine: the payload's length is unbounded, so a decoder that overshot never reaches the 2^32 bytes at which the byte array's own length field would wrap.
- DoubleSort.Sort: run sizes are unbounded integers; `MergeTheorems.RunSizeFitsInt32` says when the C `int` agrees.
- CompareOnce.AnsweredByFunction: says that a comparator that changes while sorting answers as some function does; the sorts themselves are stated for a function.
- Comparators that look at the link fields.
- User callbacks (`close`, `abort`), which might re-enter the library, and allocation failures.
- Reply sending and the milter commands' meaning, which the repository declares but does not implement.
- The limit of 64K a command, which the decoder does not enforce.
- The logger, the adapters to libev and libevent (an event loop is a set of registered events with add and delete), and glib's own data structures.
- The atomic variants of the reference count macros and `REF_INIT`.
- The counting, searching and plain traversal macros, and the casts of `NO_DECLTYPE` apart from the VS2008 append and delete.
