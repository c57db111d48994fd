# Verified models of the PIM summer project

The repository is a laboratory of concurrent data structures: linked lists with fine-grained locks, lock-free and
flat-combining structures, a generator that records traces of concurrent runs, and a checker that replays them. This
project models its core in Dafny and proves what the structures are for. `dafny verify dfyconfig.toml` checks everything.

Memory is sequentially consistent throughout: every lock, unlock, shared read, shared write and compare-and-set is one
step, and a schedule picks which thread steps next. A theorem about runs quantifies over every number of threads and
every schedule; a step that is not possible leaves the state as it is.

| files | what they model |
|---|---|
| `Linearizability` | the canonical atomic object: a history is linearizable when it is a trace of that object; answers that leave the object alone may take effect in the past |
| `HandOverHandList`, `HandOverHandProofs`, `HandOverHandProgress` | the sorted list with one mutex per node, crawled hand over hand, whose removal frees nodes |
| `MSQueue`, `MSQueueProofs`, `MSQueueProgress`, `MSQueueLockFree` | the Michael-Scott queue with helping |
| `EliminationStack`, `EliminationStackProofs`, `EliminationStackProgress` | the stack whose colliding pushes and pops meet in an elimination array |
| `PriorityQueue`, `PairingHeap` | the sequential priority queue, and the pairing heap with child, sibling and prev links and its two-pass merge through a growable array |
| `Slots`, `FlatCombining`, `FlatCombiningProofs`, `FlatCombiningRuns` | the request words of flat combining, and the slot protocol around any combined object |
| `FlatCombiningHeap`, `FlatCombiningHeapLimits` | flat combining over the heap, and the values for which it works |
| `ChunkedQueue` | one combining pass of the chunked FIFO queue, in place |
| `FlatCombiningQueue`, `FlatCombiningQueueLimits` | flat combining over the chunked queue, and the clients for which it works |
| `FlatCombiningProgress` | when a thread returns from flat combining by itself |
| `FCSkipList` | one combining pass of the flat-combining skip list |
| `ReadWriteLock`, `ReadWriteLockCalls` | the reader-writer monitor, statement by statement and call by call |
| `SortedList`, `ReplayLog`, `ReplayChecker`, `ReplayExact` | the sequential sorted list, the log files, the checker that replays two logs, and when its verdict is right |
| `TraceGenerator` | the threads that write such logs |
| `LogFiles`, `GeneratedLogs` | the text of the logs, and what the checker says of the logs that the generator writes |
| `Relaxation` | the in-place edge relaxation kernel, repeated |
| `Decimal`, `YearLists`, `CopyrightDates` | decimal numerals, what a list of years means, and its printer and parser |
| `Potential` | sums of what threads have left to do, for the proofs that runs get on |
| `Options` | values that may be missing |

Concurrent code is a state machine: a `Step` function with one program point per shared access, `Run` over arbitrary
schedules, an invariant, and a simulation that matches every step with actions of the atomic object. Sequential code that
works in place is a class or a method with loops, proved against a specification. Nodes and chunks that the source
allocates live in a store, a map from addresses to records that the methods update in place. Two pointers are aliases when
their addresses are equal, and `delete` takes the address out of the store, so an access to a freed node or outside an
array does not verify. The hand-over-hand list may be given freed addresses again; the sequential structures are given
addresses that were not in use before.

Where the code does something its callers may not expect, the model follows the code:

- Flat combining encodes requests and answers in one word. A value is stored only if it is positive, and a value of
  2147483646 is answered by the very word that asks for a removal. `HeapLinearizable` is for the other values, and
  `ExactValues` shows that it can be for no more: for each value left out there is a run that no priority queue has.
- `FCSkipList` keeps its tail at the largest integer, so an addition of that integer counts on the tail and is lost. Its
  removals all answer -5. The specification of a pass says both.
- Within one pass of `FCQueue` dequeues never see that pass's enqueues, even when a later scan serves them. The
  specification of a pass is therefore dequeues first, then enqueues. A dequeue may thus be told that the queue is empty
  after an enqueue has returned. `ExactClients` says who may see this: every client with two threads or more that both
  adds and removes, and no other. A single scan is enough when there are three threads.
- The trace generator turns a removal from an empty list into an addition. With maximum size 0 the list outgrows its
  maximum; `SizeExact` says exactly when it does not.
- The year parser reads ranges of four-digit years only. `RoundTrip` says for which sets printing and parsing are inverse.
- The relaxation kernel adds 64-bit words, which wrap. `ExactBound` says for which numbers of nodes and bounds on the
  weights the distances are right for every graph: nodes times bound must not exceed NC.
- The replay checker places every answer of the first log as early as it can, so it may call logs inconsistent that an
  order explains. `ExactVerdicts` says for which keys this cannot happen, `RunsAccepted` that logs of real runs need the
  same condition, and `MissedHistory` gives such logs. `ToolsAgree` says the same of the two tools together: the files of
  a two-thread run of the generator may be called inconsistent.

## Model

| member | source | states |
|---|---|---|
| HandOverHandProofs.ListLinearizable | host/gen_multi/FGLockLinkedList.h:66-156 | for any number of threads and any interleaving of single steps, the calls and returns of contains, add and remove are those of an atomic set |
| HandOverHandProofs.NoFault | host/gen_multi/FGLockLinkedList.h:66-156 | no thread ever locks, reads, writes or unlocks a deleted node, unlocks a mutex it does not hold, or destroys a locked one |
| HandOverHandProofs.AlwaysSorted | host/gen_multi/FGLockLinkedList.h:36-156 | in every reachable state head to tail is one finite chain without repetition whose interior keys increase strictly |
| HandOverHandProofs.ContainsWindow | host/gen_multi/FGLockLinkedList.h:66-91 | in every reachable state in which contains holds only curr, every key before curr is below x, so the answer it is about to give is the whole list's answer at that moment |
| HandOverHandProofs.ContainsAnswer | host/gen_multi/FGLockLinkedList.h:75-91 | what the comparison with curr says about membership of x in the whole list, in both directions |
| HandOverHandProofs.UpdateAnswer | host/gen_multi/FGLockLinkedList.h:102-113 | with pred and curr locked around the place of x, the comparison with curr decides membership of x in the whole list |
| HandOverHandProofs.AtMostTwoLocks | host/gen_multi/FGLockLinkedList.h:66-156 | no thread ever holds more than two node mutexes |
| HandOverHandProofs.NoDeadlock | host/gen_multi/FGLockLinkedList.h:66-156 | in every reachable state with an unfinished operation some thread inside an operation can take a step that changes the state |
| HandOverHandProofs.OwnerMoves | host/gen_multi/FGLockLinkedList.h:66-156 | the owner of a taken mutex on the chain can move, or the owner of one further towards the tail can |
| HandOverHandProofs.OnlyLocksBlock | host/gen_multi/FGLockLinkedList.h:66-156 | nothing but a taken mutex ever stops a thread inside an operation |
| HandOverHandProofs.LinkStep | host/gen_multi/FGLockLinkedList.h:115-119 | linking a new node between pred and curr keeps the chain sorted and adds exactly x to its keys |
| HandOverHandProofs.UnlinkStep | host/gen_multi/FGLockLinkedList.h:140-141 | unlinking curr keeps the chain sorted and takes exactly x out of its keys |
| HandOverHandProofs.FreeStep | host/gen_multi/FGLockLinkedList.h:142-145 | deleting the unlinked node, unlocked while pred is still locked, disturbs no other thread |
| HandOverHandProofs.LockMatch | host/gen_multi/FGLockLinkedList.h:72-73 | the node about to be locked is allocated, and taking or waiting for its mutex keeps every invariant |
| HandOverHandProofs.UnlockMatch | host/gen_multi/FGLockLinkedList.h:120-121 | a node being unlocked is allocated and locked by the unlocking thread |
| HandOverHandProofs.StepMatch | host/gen_multi/FGLockLinkedList.h:66-156 | every step of every thread is matched by the atomic set taking no action or one, at the same point of the history |
| HandOverHandProgress.OperationsEnd | host/gen_multi/FGLockLinkedList.h:66-156 | every run that wastes no step on a taken mutex is bounded by the calls in it: all operations end under any such schedule |
| HandOverHandProgress.SoloCall | host/gen_multi/FGLockLinkedList.h:66-156 | from a reachable state with the others out, a call returns within five steps a key and twenty more, with the set's answer, and leaves the list holding the set after it |
| MSQueueProofs.QueueLinearizable | All_Summer2017/testProject/data_structures/MSQueue.h:54-138 | for any number of threads and any schedule, calls and returns are those of an atomic FIFO queue, the empty answer included |
| MSQueueProofs.QueueShape | All_Summer2017/testProject/data_structures/MSQueue.h:54-138 | in every run no null is dereferenced, head never passes tail, and tail is the last node or the last but one |
| MSQueueProofs.NextWrittenOnce | All_Summer2017/testProject/data_structures/MSQueue.h:72 | over a whole run: whatever steps come after the first i, a next field that is not null keeps its value, and so does every node's value |
| MSQueueProofs.LinkStep | All_Summer2017/testProject/data_structures/MSQueue.h:72 | the successful linking compare-and-set hits the last node and appends the value to the queue |
| MSQueueProofs.HeadShape | All_Summer2017/testProject/data_structures/MSQueue.h:124-131 | the successful head compare-and-set takes exactly the first value, and head stays behind tail |
| MSQueueProofs.TailShape | All_Summer2017/testProject/data_structures/MSQueue.h:79-88 | a successful tail compare-and-set moves tail from the last but one node to the last |
| MSQueueProofs.EmptyExtend | All_Summer2017/testProject/data_structures/MSQueue.h:108-114 | the empty answer takes effect in the past, at the read of next that the later check of head validates, without disturbing any other operation |
| MSQueueProofs.StepMatch | All_Summer2017/testProject/data_structures/MSQueue.h:54-138 | every other step is matched by the atomic queue at the same point of the history |
| MSQueueProgress.ObstructionFree | All_Summer2017/testProject/data_structures/MSQueue.h:54-138 | in every reachable state, wherever the others have stopped, a thread inside add or remove returns within 15 steps of its own |
| MSQueueProgress.SoloCall | All_Summer2017/testProject/data_structures/MSQueue.h:54-138 | a call that runs by itself returns within 12 steps: add appends its value, remove answers and drops the first value, and on an empty queue answers 0 and changes nothing |
| MSQueueLockFree.LockFree | All_Summer2017/testProject/data_structures/MSQueue.h:54-138 | with n threads a run has at most 16 + 30 n steps for each call in it, whatever the schedule: some operation always ends |
| EliminationStackProofs.StackLinearizable | All_Summer2017/testProject/data_structures/EliminationStack.h:51-104 | for any number of threads, any size of the elimination array and any schedule, calls and returns are those of an atomic stack |
| EliminationStackProofs.StackNoFault | All_Summer2017/testProject/data_structures/EliminationStack.h:51-104 | no access outside the elimination array and none to a node that does not exist, for every array size including 0 |
| EliminationStackProofs.NodeInOnePlace | All_Summer2017/testProject/data_structures/EliminationStack.h:51-104 | in every run a node is on the chain, in one slot or with its push, and in at most one of these |
| EliminationStackProofs.GoneForGood | All_Summer2017/testProject/data_structures/EliminationStack.h:80-104 | a node that is consumed after i steps of a run is consumed after every later step: never again on the chain, in a slot or with a push |
| EliminationStackProofs.TakenOnce | All_Summer2017/testProject/data_structures/EliminationStack.h:87-96 | no two steps of one run take the same node: no pushed value is popped twice |
| EliminationStackProofs.GrabMatch | All_Summer2017/testProject/data_structures/EliminationStack.h:94-96 | taking a node out of a slot is the push that offers it followed at once by this pop |
| EliminationStackProofs.PushMatch | All_Summer2017/testProject/data_structures/EliminationStack.h:55-59 | the successful top compare-and-set of add pushes the value |
| EliminationStackProofs.TopMatch | All_Summer2017/testProject/data_structures/EliminationStack.h:87-89 | the successful top compare-and-set of remove pops the top value |
| EliminationStackProofs.EmptyMatch | All_Summer2017/testProject/data_structures/EliminationStack.h:83-85 | reading a null top is the moment at which an empty stack is answered |
| EliminationStackProofs.PrivateMatch | All_Summer2017/testProject/data_structures/EliminationStack.h:52-68 | allocating, offering and withdrawing a node have no effect on the stack |
| EliminationStackProgress.ObstructionFree | All_Summer2017/testProject/data_structures/EliminationStack.h:51-104 | in every reachable state a thread inside add or remove that runs by itself returns within twice the array size and 11 steps |
| EliminationStackProgress.SoloCall | All_Summer2017/testProject/data_structures/EliminationStack.h:51-104 | a call that runs by itself returns within 5 steps: add pushes, remove answers and drops the top value, and on an empty stack answers 0 |
| EliminationStackProgress.LockFree | All_Summer2017/testProject/data_structures/EliminationStack.h:51-104 | the steps of a run are bounded by its calls times a number that depends on the threads and the array size only |
| PairingHeap.PairHeap.constructor | All_Summer2017/testProject/data_structures/PairingHeap.h:147-154 | an empty heap with a usable work array |
| PairingHeap.PairHeap.CompareAndLink | All_Summer2017/testProject/data_structures/PairingHeap.h:52-75 | two trees with well-formed links become one, the smaller key on top; every node outside the two is unchanged; a null second tree changes nothing |
| PairingHeap.LinkHeap | All_Summer2017/testProject/data_structures/PairingHeap.h:52-75 | linking two heap-ordered trees gives a heap-ordered tree with exactly their nodes and keys |
| PairingHeap.PairHeap.DoubleIfFull | All_Summer2017/testProject/data_structures/PairingHeap.h:77-87 | after the call the index is in bounds and all earlier entries are as before |
| PairingHeap.PairHeap.Collect | All_Summer2017/testProject/data_structures/PairingHeap.h:93-102 | all siblings are in the array in order, each cut off as a tree of its own, with room for the closing null |
| PairingHeap.PairHeap.PairPass | All_Summer2017/testProject/data_structures/PairingHeap.h:104-107 | neighbours are linked left to right; an odd tree at the end stays as it is |
| PairingHeap.PairHeap.MergePass | All_Summer2017/testProject/data_structures/PairingHeap.h:109-118 | the pairs are linked right to left, an odd tree first, into one tree |
| PairingHeap.PairHeap.CombineSiblings | All_Summer2017/testProject/data_structures/PairingHeap.h:89-119 | any number of siblings, odd or even, become the one tree that the two passes define, all array accesses in bounds |
| PairingHeap.CombineHeap | All_Summer2017/testProject/data_structures/PairingHeap.h:89-119 | that tree is heap-ordered and holds exactly the siblings' nodes and keys |
| PairingHeap.PairHeap.Insert | All_Summer2017/testProject/data_structures/PairingHeap.h:156-164 | the heap stays well formed and its multiset gains exactly x; the new node's address is returned, it holds x, and every other node holds what it held |
| PairingHeap.PairHeap.DeleteMin | All_Summer2017/testProject/data_structures/PairingHeap.h:166-176 | the answer and the remaining multiset are those of a priority queue; exactly the root leaves, which held a least key, and every other node keeps its key; the empty heap answers 0 |
| PairingHeap.DeleteRoot | All_Summer2017/testProject/data_structures/PairingHeap.h:166-176 | in a heap-ordered tree the root holds a minimum, and its children hold the rest |
| PairingHeap.PairHeap.CutOut | All_Summer2017/testProject/data_structures/PairingHeap.h:131-140 | a node below the root is cut out with its children and its new key, both remaining structures well formed |
| PairingHeap.PairHeap.DecreaseKey | All_Summer2017/testProject/data_structures/PairingHeap.h:127-143 | a larger key changes nothing; otherwise that node holds the new key, every other node what it held, and the heap stays ordered with the same nodes |
| PairingHeap.PairHeap.Drain | All_Summer2017/testProject/data_structures/PairingHeap.h:166-180 | emptying the heap yields a sorted permutation of what was in it |
| PairingHeap.PairHeap.Replay | All_Summer2017/testProject/data_structures/PairingHeap.h:127-176 | any sequence of insertions, removals and decreased keys answers as a sequential priority queue with handles does, step by step, from any valid heap |
| PairingHeap.HeldKeys | All_Summer2017/testProject/data_structures/PairingHeap.h:156-176 | the multiset of the heap is that of the keys its nodes hold |
| PairingHeap.PlainAnswers | All_Summer2017/testProject/data_structures/PairingHeap.h:156-176 | without decreased keys the answers of such a sequence are those of the priority queue of bare keys |
| FlatCombiningHeap.HeapLinearizable | All_Summer2017/testProject/data_structures/FCPairingHeap.h:48-148 | in every run each add or remove that returns was applied exactly once between call and return, and answers are those of a sequential priority queue in service order |
| FlatCombiningProofs.OneCombiner | All_Summer2017/testProject/data_structures/FCPairingHeap.h:97-101 | whatever is combined and whatever values are added: the combiner lock is held exactly while one thread combines, never two; the slots form one list, and no pointer off it is followed |
| FlatCombiningProofs.ServeMatch | All_Summer2017/testProject/data_structures/FCPairingHeap.h:54-64 | where the combined object serves a request as the sequential one does, serving a slot is its owner's operation taking effect, whichever thread combines |
| FlatCombiningProofs.RequestOwned | All_Summer2017/testProject/data_structures/FCPairingHeap.h:54-60 | a request in a slot is the one its owner posted, and the owner is still waiting for it |
| FlatCombiningProofs.StartMatch | All_Summer2017/testProject/data_structures/FCPairingHeap.h:52 | a combiner's own slot lies ahead of its first scan |
| FlatCombiningProofs.LookMatch | All_Summer2017/testProject/data_structures/FCPairingHeap.h:53-69 | a first scan does not end before the combiner's own request is served |
| FlatCombiningProofs.LinkMatch | All_Summer2017/testProject/data_structures/ITest.h:193-222 | pushing a slot keeps the slot list and leaves every scan under way intact |
| FlatCombiningProgress.HeapReturns | All_Summer2017/testProject/data_structures/FCPairingHeap.h:83-148 | in every reachable state in which no other thread combines, wherever the others are and whatever values are added: a thread inside an operation returns by itself, within (n + 1)(4n + 10) + 12 steps of its own |
| FlatCombiningProgress.QueueReturns | All_Summer2017/testProject/data_structures/FCQueue.h:237-316 | the same for the queue, within 3(4n + 10) + 12 steps and three for each chunk |
| FlatCombiningProgress.WaitsOn | All_Summer2017/testProject/data_structures/FCPairingHeap.h:97-115 | a thread that waits for its answer while another holds the lock never returns by itself: the condition is needed |
| FlatCombiningHeapLimits.ExactValues | All_Summer2017/testProject/data_structures/FCPairingHeap.h:48-148 | for every 32-bit v: all runs whose added values are good or v are runs of a priority queue if and only if v is positive and not 2147483646 |
| FlatCombiningHeapLimits.NonPositiveFails | All_Summer2017/testProject/data_structures/FCPairingHeap.h:54-64 | for every v up to 0, a run of one thread that adds v and 1 and then removes 1: not a history of a priority queue |
| FlatCombiningHeapLimits.BigFails | All_Summer2017/testProject/data_structures/FCPairingHeap.h:61-64 | a run of two threads in which the answer 2147483646 is served as a request and a value that nobody removed is lost |
| FlatCombiningHeapLimits.SoloAdd | All_Summer2017/testProject/data_structures/FCPairingHeap.h:83-103 | an add that runs alone answers true always and stores its value exactly when the value is positive |
| ChunkedQueue.FCQueue.constructor | All_Summer2017/testProject/data_structures/FCQueue.h:198-220 | an empty queue of one chunk |
| ChunkedQueue.FCQueue.Prepare | All_Summer2017/testProject/data_structures/FCQueue.h:93-102 | a chunk with room is at hand and reading is at the saved index |
| ChunkedQueue.FCQueue.Grow | All_Summer2017/testProject/data_structures/FCQueue.h:125-143 | growing keeps every stored value, frees the old chunk and leaves room for a value and the terminator |
| ChunkedQueue.FCQueue.Enqueue | All_Summer2017/testProject/data_structures/FCQueue.h:113-143 | the value is stored behind the pass's earlier ones, in bounds, growing when full |
| ChunkedQueue.FCQueue.Dequeue | All_Summer2017/testProject/data_structures/FCQueue.h:144-166 | the first value of the old queue is answered and dropped, an empty queue answers 0, or a chunk boundary is crossed and the queue is unchanged |
| ChunkedQueue.FCQueue.Cross | All_Summer2017/testProject/data_structures/FCQueue.h:154-160 | an exhausted chunk is freed; it is neither reachable nor the head, and the queue is unchanged |
| ChunkedQueue.FCQueue.Scan | All_Summer2017/testProject/data_structures/FCQueue.h:109-169 | one scan serves every request it reads and ends despite the repeated look after a chunk boundary; changes are requests plus boundaries |
| ChunkedQueue.FCQueue.Tries | All_Summer2017/testProject/data_structures/FCQueue.h:105-173 | scans are repeated exactly while the last one made enough changes |
| ChunkedQueue.FCQueue.SaveRead | All_Summer2017/testProject/data_structures/FCQueue.h:175-181 | the place where the next pass reads is saved, or the exhausted chunk freed, with the queue unchanged |
| ChunkedQueue.FCQueue.Publish | All_Summer2017/testProject/data_structures/FCQueue.h:183-191 | the filled chunk is closed and linked behind the last, appending exactly the pass's values |
| ChunkedQueue.FCQueue.FlatCombining | All_Summer2017/testProject/data_structures/FCQueue.h:89-194 | whatever the scans read, served dequeues are answered in order from the old queue and served enqueues are appended in order; exactly the live chunks stay allocated |
| ChunkedQueue.FCQueue.Passes | All_Summer2017/testProject/data_structures/FCQueue.h:89-194 | over any number of passes what was taken followed by what is left is what was there followed by what was put in |
| ChunkedQueue.PassIsFifo | All_Summer2017/testProject/data_structures/FCQueue.h:89-194 | what leaves in a pass followed by what is left is the old queue followed by what came |
| ChunkedQueue.OutIs | All_Summer2017/testProject/data_structures/FCQueue.h:144-166 | the values handed out are exactly the first ones of the old queue, as many as there were dequeues, or all |
| FlatCombiningQueue.PassAgrees | All_Summer2017/testProject/data_structures/FCQueue.h:105-191 | the steps that serve one request at a time leave, over a whole pass, the words and the queue that the in-place pass is proved to leave |
| FlatCombiningQueue.ServeIsFifo | All_Summer2017/testProject/data_structures/FCQueue.h:112-166 | serving a request is the enqueue or dequeue of a sequential queue that holds the old chunks and the pass's own values, unless a dequeue comes when only the pass's own are left |
| FlatCombiningQueue.QueueLinearizable | All_Summer2017/testProject/data_structures/FCQueue.h:89-316 | in every run in which no dequeue is served at such a moment, the calls and returns are those of an atomic queue |
| FlatCombiningQueue.CalmRun | All_Summer2017/testProject/data_structures/FCQueue.h:89-316 | no dequeue is ever served at such a moment when one thread calls, or nobody adds, or nobody removes |
| FlatCombiningQueueLimits.ExactClients | All_Summer2017/testProject/data_structures/FCQueue.h:89-316 | for every number of threads and every set of operations on encodable values: all runs that call only these are runs of an atomic queue if and only if there is at most one thread, or no addition, or no removal among them |
| FlatCombiningQueueLimits.DuoRun | All_Summer2017/testProject/data_structures/FCQueue.h:106-173 | two threads: a second scan answers that the queue is empty to a thread whose own addition has returned |
| FlatCombiningQueueLimits.TrioRun | All_Summer2017/testProject/data_structures/FCQueue.h:109-169 | three threads or more: a single scan answers so to a thread that called after another thread's addition had returned |
| FlatCombiningQueueLimits.NotAQueue | All_Summer2017/testProject/data_structures/FCQueue.h:89-316 | an addition returns, a removal is called after it and finds nothing, and no removal comes in between: not a history of a queue |
| FCSkipList.SkipList.constructor | All_Summer2017/testProject/data_structures/FCSkipList.h:229-241 | an empty, well-formed skip list |
| FCSkipList.SkipList.Find | All_Summer2017/testProject/data_structures/FCSkipList.h:98-122 | the key's node exactly if it is present, and on every level the neighbours of its place |
| FCSkipList.SkipList.Splice | All_Summer2017/testProject/data_structures/FCSkipList.h:158-164 | on every level below the height the new node is put between the recorded neighbours, and nothing else changes |
| FCSkipList.PutShape | All_Summer2017/testProject/data_structures/FCSkipList.h:153-164 | after the splice every level again links exactly the nodes that reach it, in strict key order |
| FCSkipList.SkipList.Add | All_Summer2017/testProject/data_structures/FCSkipList.h:144-167 | the multiset gains the key once, except that the largest integer is lost |
| FCSkipList.SkipList.CountDownFront | All_Summer2017/testProject/data_structures/FCSkipList.h:193-206 | k removals take the k smallest values, or all; the used-up nodes are a prefix of the list |
| FCSkipList.SkipList.UnlinkFront | All_Summer2017/testProject/data_structures/FCSkipList.h:208-224 | the descent leaves the head linked, on every level, to the first node that still counts |
| FCSkipList.RestShape | All_Summer2017/testProject/data_structures/FCSkipList.h:208-224 | what is left is a well-formed skip list on every level |
| FCSkipList.SkipList.RemoveFront | All_Summer2017/testProject/data_structures/FCSkipList.h:193-225 | the removals of a pass leave the multiset without its smallest values and no used-up node reachable on any level |
| FCSkipList.SkipList.FlatCombining | All_Summer2017/testProject/data_structures/FCSkipList.h:125-225 | whatever the scans read, the multiset becomes the old one plus all additions but the largest integer, minus as many smallest values as removals were read; answers are 0 and -5 |
| FCSkipList.LevelChain | All_Summer2017/testProject/data_structures/FCSkipList.h:98-225 | following the pointers of a level visits exactly the nodes that reach it, in strict key order, and ends at the tail |
| FCSkipList.LevelSublist | All_Summer2017/testProject/data_structures/FCSkipList.h:98-225 | every level is a sublist of the one below |
| FCSkipList.TakeFirst | All_Summer2017/testProject/data_structures/FCSkipList.h:197-199 | counting down the first node that still counts removes a minimum of the multiset |
| FCSkipList.NothingAsked | All_Summer2017/testProject/data_structures/FCSkipList.h:139-184 | after a scan no word left in a slot is a request, so the scans that repeat it change nothing |
| ReadWriteLock.MutualExclusion | All_Summer2017/testProject/framework/cpp_framework.h:310-352 | in every run, spurious wake-ups and barging included, there is never a writer together with a reader or a second writer |
| ReadWriteLock.NoLostWakeup | All_Summer2017/testProject/framework/cpp_framework.h:310-352 | whenever the lock is idle and some thread sleeps, a writer waits that has already been signalled and can go on |
| ReadWriteLock.NoReaderLeftAsleep | All_Summer2017/testProject/framework/cpp_framework.h:310-352 | while the mutex is free and no writer holds the lock or waits for it, no reader sleeps, whoever else reads |
| ReadWriteLock.WokenWriterEnters | All_Summer2017/testProject/framework/cpp_framework.h:335-341 | a woken writer that finds the lock idle gets in |
| ReadWriteLock.StepInv | All_Summer2017/testProject/framework/cpp_framework.h:310-352 | every statement of every thread keeps the counters exact, the exclusion and both wake-up guarantees; what whole calls do is in ReadWriteLockCalls |
| ReadWriteLock.SignalsInv | All_Summer2017/testProject/framework/cpp_framework.h:323-352 | a signal or broadcast leaves nobody asleep who could go on with nobody to wake them |
| ReadWriteLockCalls.ReaderLock | All_Summer2017/testProject/framework/cpp_framework.h:310-321 | with the mutex free, four steps of the thread let it in as a reader, or put it to sleep exactly if a writer holds the lock or waits, and change nothing else |
| ReadWriteLockCalls.WriterLock | All_Summer2017/testProject/framework/cpp_framework.h:331-342 | the same for a writer, which sleeps exactly if the lock is held |
| ReadWriteLockCalls.ReaderWoken | All_Summer2017/testProject/framework/cpp_framework.h:314-320 | a woken reader gets in, or sleeps again exactly if a writer holds the lock or waits |
| ReadWriteLockCalls.WriterWoken | All_Summer2017/testProject/framework/cpp_framework.h:335-341 | a woken writer gets in, or sleeps again exactly if the lock is held |
| ReadWriteLockCalls.ReaderUnlock | All_Summer2017/testProject/framework/cpp_framework.h:323-329 | the reader is out and one fewer, and one sleeping writer is woken if one waits |
| ReadWriteLockCalls.WriterUnlock | All_Summer2017/testProject/framework/cpp_framework.h:344-352 | the writer is out and the lock free; one sleeping writer is woken, or else every sleeping reader |
| ReadWriteLockCalls.OutByUnlock | All_Summer2017/testProject/framework/cpp_framework.h:310-352 | in every run a thread is out again only after its own unlock: the call it makes, the lock it then holds as reader or writer as asked, and the unlock come in this order |
| SortedList.LinkedList.constructor | All_Summer2017/Linked_List_b/00mine/LinkedList.h:36-41 | the empty set |
| SortedList.LinkedList.Contains | All_Summer2017/Linked_List_b/00mine/LinkedList.h:64-83 | the answer is membership in the set of the list |
| SortedList.LinkedList.Add | All_Summer2017/Linked_List_b/00mine/LinkedList.h:87-128 | the answer says whether the value was new; the set gains exactly it; the list stays sorted and listSize its length |
| SortedList.LinkedList.Remove | All_Summer2017/Linked_List_b/00mine/LinkedList.h:132-164 | the answer says whether the value was there; the set loses exactly it and its node is freed |
| ReplayLog.Str2Int | test.cpp:19-44 | the value of the digits with sign, wrapped to 32 bits |
| ReplayLog.ReadBack | test.cpp:19-44 | every 32-bit integer is read back from its decimal form |
| ReplayLog.ReadTokens | test.cpp:78-172 | reading a well-formed log gives back its entries one after the other; LogFiles says what the tokens are, letter by letter |
| LogFiles.WordsRead | test.cpp:85-152 | the words add(x), contains(x) and remove(x) before yes or no are read as these operations, with x and the answer, for every 32-bit x |
| LogFiles.FileWords | host/gen_multi/host_generator_thread.cpp:35-84 | the words of the text that the generator writes are the tokens of its entries |
| LogFiles.FileRead | test.cpp:78-172 | the checker reads back from the generator's text exactly the entries that were written |
| ReplayChecker.Check | test.cpp:46-191 | the verdict is that of going on with log 1 while its answers are right and otherwise with log 2; consistent: an order playing all of log 1 with every answer right and a prefix of log 2; inconsistent: all of log 2 played and the next answer of log 1 still wrong |
| ReplayExact.ExactVerdicts | test.cpp:76-191 | for any two sets of keys that logs 1 and 2 add or remove with yes: the verdict says on all such logs whether an order exists if and only if the sets are disjoint or the second has at most one key |
| ReplayExact.RunsAccepted | test.cpp:76-191 | for the same sets: all logs of real runs, two threads on one set with every answer of both logs right, are called consistent under exactly the same condition |
| ReplayExact.NothingMissed | test.cpp:85-182 | under that condition an order that explains log 1 is enough for consistent, although every answer is placed as early as possible |
| ReplayExact.Misjudged | test.cpp:85-182 | for every other two sets there are logs of a real run, with every answer of both right, that change just those keys and are called inconsistent |
| ReplayExact.MissedHistory | test.cpp:85-182 | histories of a set with every answer of both logs right that are called inconsistent |
| ReplayChecker.ConsistentMeans | test.cpp:78-83 | on well-formed logs consistent means that all of log 1, merged with a prefix of log 2, is an order in which every answer of log 1 is the set's answer |
| ReplayChecker.Tried | test.cpp:85-134 | an entry of log 1 fits the list and is placed, or starts a wait; between waits the list equals the replayed set and rmv and add2 are 0 |
| ReplayChecker.Passed | test.cpp:154-182 | an entry of log 2 other than the one waited for leaves the waiting answer wrong and the list different from the replayed set in the waiting key at most |
| ReplayChecker.Arrived | test.cpp:159-181 | the entry waited for makes the waiting answer right, the list equal to the replayed set, and rmv and add2 zero |
| ReplayChecker.Second | test.cpp:154-182 | the list and the variables after one entry of log 2 |
| TraceGenerator.SizeWhenFree | host/gen_multi/host_generator_thread.cpp:28-88 | with N threads, maximum at least 1 (or nothing to add) and initial size at most the maximum: whenever the spin lock is free, size is the cardinality of the list and lies in 0..maximum |
| TraceGenerator.SizeExact | host/gen_multi/host_generator_thread.cpp:28-88 | size stays within the maximum in every run exactly when the maximum is not 0, or only contains is drawn, or no operation is asked for |
| TraceGenerator.AnswersRight | host/gen_multi/host_generator_thread.cpp:35-84 | every logged yes or no is the set's answer in one order of all log lines, of which each file is its thread's part |
| TraceGenerator.CountBound | host/gen_multi/host_generator_thread.cpp:28-30 | the operation count never exceeds its bound by more than N - 1 |
| TraceGenerator.MaximumZero | host/gen_multi/host_generator_thread.cpp:40-60 | with maximum size 0 a run ends with the lock free and one element in the list |
| TraceGenerator.Percentages | host/gen_multi/host_generator_thread.cpp:34-68 | of the hundred rolls exactly the given percentage looks up, and the rest is halved between adding and removing, or all goes to the one that the size allows |
| GeneratedLogs.RunHappened | host/gen_multi/host_generator_thread.cpp:28-88 | the two files of every run of two generator threads from the empty list are logs of one order with every answer right |
| GeneratedLogs.Produced | host/gen_multi/host_generator_thread.cpp:28-88 | every two such logs are the files of a run of the generator |
| GeneratedLogs.ToolsAgree | test.cpp:76-191 | for any two sets of keys: the checker calls the files of all runs of two generator threads consistent, where these add or remove just those keys, if and only if the sets are disjoint or the second has at most one key |
| Relaxation.Kernel | All_Summer2017/l.c:21-32 | distances after a pass are those of relaxing all edges one by one in scan order, and the checksum is the sum, modulo 2^64, of the weights of exactly the edges that lowered a distance |
| Relaxation.ZeroChecksum | All_Summer2017/l.c:21-35 | with positive weights whose total fits a word the checksum is 0 exactly when the pass changed no distance |
| Relaxation.ZeroMeansDone | All_Summer2017/l.c:21-35 | from distances that are weights of walks the checksum of a pass is 0 exactly when they were the shortest already |
| Relaxation.RoundsDone | All_Summer2017/l.c:21-35 | after any number of passes the next checksum is 0 exactly when the distances are the shortest |
| Relaxation.RelaxSound | All_Summer2017/l.c:24-31 | relaxing an edge keeps every distance the weight of a walk from the source |
| Relaxation.NoWrap | All_Summer2017/l.c:27-29 | if no walk with as many edges as there are nodes is heavier than NC, and shorter ones are lighter, no sum wraps |
| Relaxation.LightWeights | All_Summer2017/l.c:27-29 | nodes times the largest weight at most NC is enough for that |
| Relaxation.ExactBound | All_Summer2017/l.c:21-32 | for every number of nodes and every 64-bit bound on the weights: all graphs within the bound get the shortest distances after one pass fewer than there are nodes if and only if nodes times bound is at most NC |
| Relaxation.RingFails | All_Summer2017/l.c:27-29 | above that bound a ring of nodes gets a wrong distance |
| Relaxation.RoundsCover | All_Summer2017/l.c:21-32 | after k passes every distance that is not NC is the weight of a walk, and no walk of at most k edges is lighter |
| Relaxation.PassAdvances | All_Summer2017/l.c:21-32 | a pass keeps distances weights of walks and, despite the in-place updates, accounts for walks with one edge more |
| Relaxation.Passes | All_Summer2017/l.c:21-32 | resetting and k passes in place compute the distances of k rounds, for which RoundsCover holds when the walks fit |
| Relaxation.ShortestPaths | All_Summer2017/l.c:21-32 | after one pass fewer than there are nodes a node has no distance exactly when no walk reaches it, and otherwise its distance is the least weight of a walk to it |
| Relaxation.Shorten | All_Summer2017/l.c:21-32 | for every walk there is one with fewer edges than nodes, to the same end and no heavier |
| Relaxation.WrapsWithoutBound | All_Summer2017/l.c:27-29 | without the bound on the weights a pass assigns a wrapped distance that is the weight of no walk |
| CopyrightDates.DateStr | SMC_original/GEM5/gem5/util/find_copyrights.py:175-199 | the runs of the sorted years, printed and joined; no result for the empty set |
| CopyrightDates.PrintRuns | SMC_original/GEM5/gem5/util/find_copyrights.py:186-197 | the printed runs of a sorted list |
| CopyrightDates.RunsCover | SMC_original/GEM5/gem5/util/find_copyrights.py:186-197 | the runs are maximal, disjoint and increasing, and cover exactly the years |
| CopyrightDates.ProcessDates | SMC_original/GEM5/gem5/util/find_copyrights.py:98-116 | exactly the years that the text mentions: white space around ranges, numbers, dashes and commas does not count, a piece that starts with a range of four-digit years means the years from the first to the last, another that is a number means that year, and the rest nothing |
| YearLists.PieceDenotes | SMC_original/GEM5/gem5/util/find_copyrights.py:103-114 | a year is read from a piece if and only if the piece means it by the grammar of ranges and numbers |
| YearLists.SpacedRange | SMC_original/GEM5/gem5/util/find_copyrights.py:103-109 | any white space around two four-digit years and the dash between them: the years from the first to the last |
| YearLists.SpacedNumber | SMC_original/GEM5/gem5/util/find_copyrights.py:110-112 | any integer with any white space around it means itself |
| YearLists.JoinMentions | SMC_original/GEM5/gem5/util/find_copyrights.py:101 | pieces joined by commas mention what one of them means |
| YearLists.YearsMentioned | SMC_original/GEM5/gem5/util/find_copyrights.py:98-116 | the years read from a text are exactly those it mentions |
| CopyrightDates.RunRead | SMC_original/GEM5/gem5/util/find_copyrights.py:103-114 | a printed run is read as years of its own only, and as all of them exactly when it is a single year or consists of four-digit years |
| CopyrightDates.RoundTrip | SMC_original/GEM5/gem5/util/find_copyrights.py:98-199 | process_dates(datestr(S)) equals S exactly when every run of two or more years lies in 1000..9999 |
| CopyrightDates.FourDigitYears | SMC_original/GEM5/gem5/util/find_copyrights.py:98-199 | process_dates(datestr(S)) equals S for every non-empty set of four-digit years |

## Left out

- HandOverHandProofs.ListLinearizable: the constructor initialises the first node's mutex twice and never the last one's; the model takes both as initialised and free.
- FlatCombiningHeap.HeapLinearizable: for added values from 1 to 2147483647 other than 2147483646, the values that a slot can carry in both directions; `ExactValues` shows that the theorem fails for each of the others.
- FlatCombiningProofs.ServeMatch: the operation on the combined object and the write of its answer are one step; the object is touched under the combiner lock only.
- ChunkedQueue.FCQueue.FlatCombining: the requests that scans read are inputs; `FlatCombiningQueue` puts the pass between the threads that post them.
- FlatCombiningQueue.QueueLinearizable: the chunks are the values left in them, as `PassAgrees` ties them to the pass in place; values are those that a slot can carry in both directions.
- FlatCombiningQueueLimits.ExactClients: for sets of operations on such values; which other values fail is stated for the priority queue only.
- ChunkedQueue.FCQueue.constructor: the thread count divided by 1.7 is rounded up exactly, without floating point.
- FCSkipList.SkipList.FlatCombining: counters do not wrap, and the random height of a pass is a parameter in 1..19; the shift-register generator behind it is not modelled.
- PairingHeap.PairHeap.Insert: no counterpart of `new` failing; removed nodes stay allocated, as in the source.
- PairingHeap.PairHeap.Replay: the key of a node that is no longer in the heap is not decreased; the source expects its callers to see to that.
- HandOverHandProgress.OperationsEnd: for schedules that do not pick a thread whose next mutex is taken; fairness of the mutexes is not claimed.
- FlatCombiningProgress.HeapReturns: while no other thread holds the combiner lock; `WaitsOn` shows that flat combining blocks otherwise.
- ReadWriteLock.MutualExclusion: a thread unlocks only what it has locked; fairness between readers and writers is not claimed.
- ReplayExact.ExactVerdicts: for well-formed logs with 32-bit arguments; an order need not get the answers of log 2 right, which the checker does not look at.
- GeneratedLogs.ToolsAgree: for two generator threads that start with an empty list, as the checker does, and 32-bit keys.
- TraceGenerator.AnswersRight: keys and rolls of the random generator are picked by the schedule, and the loop of `main` that fills the list is its result, any set of the right size.
- Relaxation.PassAdvances: for graphs whose walks with as many edges as nodes stay within NC; `ExactBound` is exact for bounds on the weights, not for each single graph.
- Relaxation.ZeroChecksum: for positive weights with a total below 2^64; an edge of weight 0 lowers a distance without a trace in the sum.
- Relaxation.Kernel: nodes are indices and successor pointers are indices of nodes; printing is left out.
- CopyrightDates.ProcessDates: strings are sequences of characters, white space is the ASCII one; finding copyright blocks and owners in files is not modelled.
- Statistics counters, time stamps, back-off, memory barriers and padding: they have no part in what the structures promise.
- Weak memory: all accesses are sequentially consistent.
- Destructors and printing of the lists, and the copies of the same lists in other directories.
- The coarse-lock and single-thread host lists, the Oyama queues, the combining tree, the basket queue, the lock-free and lazy skip lists, the lock-free stack and the flat-combining stack.
- The simulator, its utilities other than the year lists, the cache models and the platform code.
