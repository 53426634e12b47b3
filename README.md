# Datacenter-aware repair request coordinator, in Dafny

This project models Cassandra's `DatacenterAwareRequestCoordinator`. The coordinator sequences
outbound repair requests so that each datacenter has at most one request in flight, while
different datacenters proceed in parallel. It keeps two pieces of state:

- a map from datacenter name to a FIFO queue of targets (`requestsByDatacenter`);
- a counter of targets not yet completed (`remaining`).

It has three operations:

- `add` appends a target to its datacenter's queue. The queue is created on first use.
- `start` dispatches the head of every non-empty queue.
- `completed` checks that the reported target is the head of its queue. It pops that head,
  dispatches the next head if there is one, and returns the decremented counter.

Files:

- `coordinator.dfy`, module `RequestCoordinator`: the class `DatacenterAwareRequestCoordinator<T>`.
  Its real fields are `requestsByDatacenter: map<string, seq<T>>` and `remaining: int`. The
  methods `Add` and `Completed` update those fields in place, as the Java methods do; `Start`
  only dispatches. `Start` loops over the map's keys in an unspecified order, like the
  iteration over the `HashMap`. The file ends with client methods for the three-target scenario: n1 and n2 in one
  datacenter, n3 in another.
- `queues.dfy`, module `RequestQueues`: the value-level vocabulary the class is specified with,
  and the lemmas that carry the proofs.
  - `Filter` picks one datacenter's targets out of a log.
  - `TotalLength` sums all queue lengths.
  - `Accounted` says each datacenter's adds are its completions followed by its queue.
  - `InFlight` says each datacenter's dispatches are its completions followed by its queue
    head, once dispatching has begun.

Collaborators are replaced as follows:

- The snitch lookup `getDatacenter` is the constant function `dcOf: T -> string`, given to the
  constructor.
- `processor.process` appends its target to the ghost log `dispatched`.
- The ghost logs `added` and `completions` and the ghost flag `started` record the history that
  the invariants speak about.
- `InetAddress` is the type parameter `T`.

The class invariant `Valid()` holds after every operation. It says:

- `remaining` equals the total length of all queues;
- `remaining` equals the number of adds minus the number of completions;
- `Accounted` holds, so every queue is the FIFO remainder of its datacenter's adds.

The protocol invariant `Sequenced()` is `InFlight` on the current state. From it, the lemma
`DispatchOrder` derives three facts per datacenter:

- dispatches follow adds in order;
- completions follow dispatches in order;
- at most one dispatched target is not yet completed.

The Java code does not forbid calling `add` after `start`, calling `start` twice, or calling
`completed` before `start`, and this model does not forbid them either. Each of them can break
`Sequenced()`, so each operation keeps it only under a condition:

- `Add` keeps `Sequenced()` exactly when dispatching has not begun or the target joins a
  non-empty queue. `AddKeepsInFlight` proves both directions of that condition.
- `Start` keeps `Sequenced()` when it is the first call to `Start`.
- `Completed` keeps `Sequenced()` once dispatching has begun. A `completed` before `start`
  records a completion of a target that was never dispatched, and `Sequenced()` in general no
  longer holds. It survives only when the next head equals the completed target, which needs a
  duplicate add.

Two further points follow the code:

- The code does not check that a target is added only once, so duplicate adds are allowed.
  `DispatchedAtMostOnce` proves that no target is dispatched twice, under the hypothesis that no
  target was added twice.
- The Java `assert`s at lines 66-67 become preconditions of `Completed`. `peek()` on an empty
  queue returns `null`, and `equals(null)` is false, so the head check also requires the queue
  to be non-empty.

## Model

| member | source | states |
|---|---|---|
| RequestCoordinator.DatacenterAwareRequestCoordinator.constructor | src/java/org/apache/cassandra/repair/DatacenterAwareRequestCoordinator.java:30-37 | A new coordinator has no queues, a zero counter, nothing dispatched and dispatching not begun; both invariants hold. |
| RequestCoordinator.DatacenterAwareRequestCoordinator.Add | src/java/org/apache/cassandra/repair/DatacenterAwareRequestCoordinator.java:39-50 | The target is appended at the tail of its datacenter's queue, and the queue is created empty first if absent. Every other datacenter's queue is unchanged. `remaining` grows by exactly 1 and nothing is dispatched. The invariant is kept, and the in-flight protocol is kept unless dispatching has begun and the queue was empty. |
| RequestCoordinator.DatacenterAwareRequestCoordinator.Start | src/java/org/apache/cassandra/repair/DatacenterAwareRequestCoordinator.java:52-59 | Queues and counter are unchanged. The old dispatch log is a prefix of the new one. Each datacenter's dispatches grow by exactly its queue head, so empty queues are skipped and no datacenter gets two. When `Start` is called for the first time and nothing was completed before it, each non-empty queue has its head in flight. |
| RequestCoordinator.DatacenterAwareRequestCoordinator.Completed | src/java/org/apache/cassandra/repair/DatacenterAwareRequestCoordinator.java:61-72 | Requires the target's datacenter to have a queue whose head is the target. Removes exactly that head and leaves other datacenters' queues unchanged. Dispatches the new head if the queue is still non-empty, and nothing otherwise. Returns the old counter minus 1, which is the new counter and equals adds minus completions (the m-th completion after k adds returns k - m). The result is 0 exactly when every queue is empty. Once dispatching has begun, the in-flight protocol is kept. |
| RequestQueues.Filter | src/java/org/apache/cassandra/repair/DatacenterAwareRequestCoordinator.java:41-48 | One datacenter's slice of a log is no longer than the log, and holds only targets of that datacenter that occur in the log. |
| RequestQueues.FilterHolds | src/java/org/apache/cassandra/repair/DatacenterAwareRequestCoordinator.java:41-48 | Every target of a log that belongs to a datacenter is in that datacenter's slice, so no target is lost when the log is split by datacenter. |
| RequestQueues.FilterAppend | src/java/org/apache/cassandra/repair/DatacenterAwareRequestCoordinator.java:48 | A datacenter's slice of a concatenation is the concatenation of the slices, so appending to one queue touches only that datacenter's history. |
| RequestQueues.TotalLength | src/java/org/apache/cassandra/repair/DatacenterAwareRequestCoordinator.java:31 | The total queued count bounds every single queue's length. It is zero exactly when every queue is empty. |
| RequestQueues.TotalLengthRemove | src/java/org/apache/cassandra/repair/DatacenterAwareRequestCoordinator.java:68-71 | The total is any one queue's length plus the total of the others. |
| RequestQueues.TotalLengthUpdate | src/java/org/apache/cassandra/repair/DatacenterAwareRequestCoordinator.java:46-49 | Replacing or creating one queue changes the total by the difference in that queue's length. This is why `++` after a push and `--` after a poll keep the counter equal to the total. |
| RequestQueues.AccountedIsKeyed | src/java/org/apache/cassandra/repair/DatacenterAwareRequestCoordinator.java:41-48 | When the queues account for the adds, every queue holds only targets of its own datacenter, so a target is in no queue but its own datacenter's. |
| RequestQueues.AddKeepsAccounted | src/java/org/apache/cassandra/repair/DatacenterAwareRequestCoordinator.java:39-50 | Pushing a target at the tail of its datacenter's queue and logging the add keeps each queue the FIFO remainder of its datacenter's adds. |
| RequestQueues.AddKeepsInFlight | src/java/org/apache/cassandra/repair/DatacenterAwareRequestCoordinator.java:39-50 | An add keeps the in-flight protocol if and only if dispatching has not begun or the target joins a non-empty queue. |
| RequestQueues.CompleteKeepsAccounted | src/java/org/apache/cassandra/repair/DatacenterAwareRequestCoordinator.java:62-68 | Polling the completed head and logging the completion keeps each queue the FIFO remainder of its datacenter's adds. |
| RequestQueues.CompleteKeepsInFlight | src/java/org/apache/cassandra/repair/DatacenterAwareRequestCoordinator.java:66-70 | Polling the completed head and dispatching the new head, if any, keeps the in-flight protocol. |
| RequestQueues.SendHeadStep | src/java/org/apache/cassandra/repair/DatacenterAwareRequestCoordinator.java:54-58 | One iteration of the dispatch loop adds exactly the visited queue's head, if it has one, to that datacenter's dispatches and to no other datacenter's. |
| RequestQueues.SendHeadsDone | src/java/org/apache/cassandra/repair/DatacenterAwareRequestCoordinator.java:52-59 | Once every queue has been visited, each datacenter's dispatches have grown by exactly its queue head. A coordinator that had not begun dispatching now has every queue head in flight. |
| RequestQueues.DispatchOrder | src/java/org/apache/cassandra/repair/DatacenterAwareRequestCoordinator.java:48-70 | FIFO per datacenter: the dispatches of a datacenter are a prefix of its adds, and its completions are a prefix of its dispatches. At most one dispatched target of a datacenter is not yet completed. |
| RequestQueues.DispatchedAtMostOnce | src/java/org/apache/cassandra/repair/DatacenterAwareRequestCoordinator.java:39-72 | If no target was added twice, then no target is dispatched twice and no queue holds a target twice. |

## Left out

- The snitch lookup (`DatabaseDescriptor.getEndpointSnitch().getDatacenter`) is global topology configuration. It is the deterministic, total function `dcOf`, fixed when the coordinator is constructed.
- The request processor (`IRequestProcessor.process`) is external transport. A dispatch is only recorded in the ghost log `dispatched`; what the processor does with a target is not modelled.
- Concurrency is not modelled. The class has no locking, so calls are taken to be serialized.
- Release builds, where Java `assert` is disabled and a mismatched target would be polled silently, are not modelled. The asserts at lines 66-67 are preconditions.
- The order in which `HashMap.values()` is iterated is not modelled. `Start` picks the next datacenter with a non-deterministic choice, and its contract is stated per datacenter.
- `RequestCoordinator.DatacenterAwareRequestCoordinator.Add`: does not model the 32-bit wrap-around of `remaining++` after 2^31 - 1 pending targets, because the counter is an unbounded `int` here. The same holds for `remaining--` in `Completed`, which cannot go below zero under its preconditions.
- `InetAddress` specifics are not modelled. A target is any type with equality.
