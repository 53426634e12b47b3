/**
 * The repair request coordinator that keeps at most one request in flight
 * per datacenter: targets are queued per datacenter, `Start` dispatches the
 * head of every queue, and each `Completed` pops the finished head and
 * dispatches the next target of that datacenter.
 *
 * The topology lookup is the constant `dcOf`, given at construction; the
 * request processor is the ghost log `dispatched`, to which every dispatch
 * appends its target. The ghost logs `added` and `completions` and the ghost
 * flag `started` record the history the invariants speak about.
 */
module RequestCoordinator {
  import opened RequestQueues

  class DatacenterAwareRequestCoordinator<T> {
    const dcOf: T -> string
    var requestsByDatacenter: map<string, seq<T>>
    var remaining: int

    ghost var added: seq<T>
    ghost var completions: seq<T>
    ghost var dispatched: seq<T>
    ghost var started: bool

    /** The counter is the number of queued targets, which is the adds not yet completed. */
    ghost predicate Valid()
      reads this
    {
      && remaining == TotalLength(requestsByDatacenter)
      && remaining == |added| - |completions|
      && Accounted(requestsByDatacenter, dcOf, added, completions)
    }

    /** Each datacenter has had exactly its completed targets and, once started, its queue head dispatched. */
    ghost predicate Sequenced()
      reads this
    {
      InFlight(requestsByDatacenter, dcOf, completions, dispatched, started)
    }

    constructor (dcOf: T -> string)
      ensures Valid() && Sequenced()
      ensures this.dcOf == dcOf
      ensures requestsByDatacenter == map[] && remaining == 0
      ensures added == [] && completions == [] && dispatched == [] && !started
    {
      this.dcOf := dcOf;
      requestsByDatacenter := map[];
      remaining := 0;
      added, completions, dispatched, started := [], [], [], false;
    }

    /**
     * Appends `request` to the queue of its datacenter, creating the queue on
     * first use, and counts it as remaining; nothing is dispatched. After
     * `Start`, an add to a datacenter with nothing queued is not dispatched by
     * anyone, so only then is `Sequenced` not kept.
     */
    method Add(request: T)
      requires Valid()
      modifies this
      ensures Valid()
      ensures requestsByDatacenter
           == old(requestsByDatacenter)[dcOf(request) := Queue(old(requestsByDatacenter), dcOf(request)) + [request]]
      ensures remaining == old(remaining) + 1
      ensures added == old(added) + [request] && completions == old(completions)
      ensures dispatched == old(dispatched) && started == old(started)
      ensures old(Sequenced()) && (!started || Queue(old(requestsByDatacenter), dcOf(request)) != []) ==> Sequenced()
    {
      var dc := dcOf(request);
      var queue: seq<T>;
      if dc in requestsByDatacenter {
        queue := requestsByDatacenter[dc];
      } else {
        queue := [];
        requestsByDatacenter := requestsByDatacenter[dc := queue];
      }
      TotalLengthUpdate(old(requestsByDatacenter), dc, queue + [request]);
      AddKeepsAccounted(old(requestsByDatacenter), dcOf, added, completions, request);
      if old(Sequenced()) {
        AddKeepsInFlight(old(requestsByDatacenter), dcOf, completions, dispatched, started, request);
      }
      assert requestsByDatacenter[dc := queue + [request]] == old(requestsByDatacenter)[dc := queue + [request]];
      requestsByDatacenter := requestsByDatacenter[dc := queue + [request]];
      remaining := remaining + 1;
      added := added + [request];
    }

    /**
     * Dispatches the head of every non-empty queue, in no particular order of
     * datacenters; the queues and the counter are left as they are.
     */
    method Start()
      requires Valid()
      modifies this`dispatched, this`started
      ensures Valid()
      ensures started
      ensures IsPrefix(old(dispatched), dispatched)
      ensures forall d :: Filter(dispatched, dcOf, d)
                       == Filter(old(dispatched), dcOf, d) + Front(Queue(requestsByDatacenter, d))
      ensures old(Sequenced()) && !old(started) ==> Sequenced()
    {
      AccountedIsKeyed(requestsByDatacenter, dcOf, added, completions);
      var pending := requestsByDatacenter.Keys;
      ghost var queues := requestsByDatacenter;
      ghost var visited: set<string> := {};
      ghost var sent: seq<T> := [];
      while pending != {}
        invariant pending !! visited && pending + visited == queues.Keys
        invariant HeadsSent(queues, dcOf, sent, visited)
        invariant dispatched == old(dispatched) + sent
        invariant requestsByDatacenter == queues
        decreases pending
        modifies this`dispatched
      {
        var dc :| dc in pending;
        var requests := requestsByDatacenter[dc];
        SendHeadStep(queues, dcOf, sent, visited, dc);
        if requests != [] {
          dispatched := dispatched + [requests[0]];
        }
        sent := sent + Front(requests);
        pending := pending - {dc};
        visited := visited + {dc};
      }
      SendHeadsDone(queues, dcOf, completions, old(dispatched), sent);
      started := true;
    }

    /**
     * Reports that `request`, the head of its datacenter's queue, has
     * finished: pops it, dispatches the next target of the same datacenter if
     * there is one, and returns how many targets remain in all datacenters.
     */
    method Completed(request: T) returns (left: int)
      requires Valid()
      requires dcOf(request) in requestsByDatacenter
      requires requestsByDatacenter[dcOf(request)] != [] && request == requestsByDatacenter[dcOf(request)][0]
      modifies this
      ensures Valid()
      ensures requestsByDatacenter
           == old(requestsByDatacenter)[dcOf(request) := old(requestsByDatacenter)[dcOf(request)][1..]]
      ensures dispatched == old(dispatched) + Front(requestsByDatacenter[dcOf(request)])
      ensures remaining == old(remaining) - 1 && left == remaining
      ensures left == |added| - |completions|
      ensures left == 0 <==> forall d :: d in requestsByDatacenter ==> requestsByDatacenter[d] == []
      ensures completions == old(completions) + [request] && added == old(added) && started == old(started)
      ensures old(Sequenced()) && started ==> Sequenced()
    {
      var dc := dcOf(request);
      var requests := requestsByDatacenter[dc];
      ghost var queues' := requestsByDatacenter[dc := requests[1..]];
      ghost var completions' := completions + [request];
      ghost var dispatched' := dispatched + Front(requests[1..]);
      assert TotalLength(queues') == remaining - 1 by {
        TotalLengthUpdate(requestsByDatacenter, dc, requests[1..]);
      }
      assert Accounted(queues', dcOf, added, completions') by {
        CompleteKeepsAccounted(requestsByDatacenter, dcOf, added, completions, request);
      }
      assert Sequenced() && started ==> InFlight(queues', dcOf, completions', dispatched', true) by {
        if Sequenced() && started {
          AccountedIsKeyed(requestsByDatacenter, dcOf, added, completions);
          CompleteKeepsInFlight(requestsByDatacenter, dcOf, completions, dispatched, request);
        }
      }
      requestsByDatacenter := requestsByDatacenter[dc := requests[1..]];
      completions := completions + [request];
      if requests[1..] != [] {
        dispatched := dispatched + [requests[1]];
      }
      remaining := remaining - 1;
      left := remaining;
    }
  }

  /** The topology of the scenarios below: target 3 lives in "dc2", every other target in "dc1". */
  function ScenarioDc(n: int): (dc: string)
  {
    if n == 3 then "dc2" else "dc1"
  }

  /** Targets 1 and 2 queued in "dc1", target 3 in "dc2". */
  method ScenarioSetup() returns (c: DatacenterAwareRequestCoordinator<int>)
    ensures fresh(c) && c.Valid() && !c.started
    ensures c.dcOf == ScenarioDc && c.dispatched == [] && c.remaining == 3
    ensures c.requestsByDatacenter == map["dc1" := [1, 2], "dc2" := [3]]
    ensures c.added == [1, 2, 3] && c.completions == [] && c.Sequenced()
  {
    c := new DatacenterAwareRequestCoordinator<int>(ScenarioDc);
    c.Add(1);
    assert [] + [1] == [1];
    c.Add(2);
    assert [1] + [2] == [1, 2];
    c.Add(3);
    assert [] + [3] == [3];
  }

  /**
   * Starting dispatches target 1 for "dc1" and target 3 for "dc2" but not
   * target 2, and completing target 2 ahead of target 1 is a contract
   * violation.
   */
  method ScenarioStart()
  {
    var c := ScenarioSetup();
    c.Start();
    ghost var log := c.dispatched;
    assert Front(Queue(c.requestsByDatacenter, "dc1")) == [1];
    assert Front(Queue(c.requestsByDatacenter, "dc2")) == [3];
    assert Filter(log, ScenarioDc, "dc1") == [1];
    assert Filter(log, ScenarioDc, "dc2") == [3];
    assert 2 !in log by {
      forall i | 0 <= i < |log| ensures log[i] != 2 {
        if ScenarioDc(log[i]) == "dc1" {
          FilterHolds(log, ScenarioDc, "dc1", i);
        }
      }
    }
    assert c.requestsByDatacenter[ScenarioDc(2)][0] != 2;
  }

  /**
   * Completing targets 1, 3 and 2 in turn reports 2, 1 and 0 remaining, and
   * completing target 1 dispatches target 2 while "dc1" still has at most one
   * target in flight.
   */
  method ScenarioCountdown()
  {
    var c := ScenarioSetup();
    c.Start();
    var left := c.Completed(1);
    assert left == 2 && c.dispatched[|c.dispatched| - 1] == 2 by {
      assert [1, 2][1..] == [2];
    }
    assert c.requestsByDatacenter["dc1"] == [2] && c.requestsByDatacenter["dc2"] == [3] by {
      assert [1, 2][1..] == [2];
    }
    DispatchOrder(c.requestsByDatacenter, c.dcOf, c.added, c.completions, c.dispatched, c.started, "dc1");
    assert |Filter(c.dispatched, ScenarioDc, "dc1")| <= |Filter(c.completions, ScenarioDc, "dc1")| + 1;
    left := c.Completed(3);
    assert left == 1;
    assert c.requestsByDatacenter["dc1"] == [2];
    left := c.Completed(2);
    assert left == 0;
  }
}
