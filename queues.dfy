/**
 * Value-level vocabulary for the datacenter-aware request coordinator:
 * the targets of one datacenter picked out of a log, the total length of
 * all per-datacenter queues, and the two invariants that tie the queues to
 * the history of adds, completions and dispatches.
 */
module RequestQueues {

  /** The queue of datacenter `d`; a datacenter without an entry has none pending. */
  function Queue<T>(queues: map<string, seq<T>>, d: string): (q: seq<T>)
  {
    if d in queues then queues[d] else []
  }

  /** The target a queue has in flight once dispatching has begun: its head, if any. */
  function Front<T>(q: seq<T>): (f: seq<T>)
  {
    if q == [] then [] else [q[0]]
  }

  /** The targets of `log` that belong to datacenter `d`, in log order. */
  function Filter<T>(log: seq<T>, dcOf: T -> string, d: string): (r: seq<T>)
    ensures |r| <= |log|
    ensures forall i :: 0 <= i < |r| ==> r[i] in log && dcOf(r[i]) == d
  {
    if log == [] then []
    else if dcOf(log[0]) == d then [log[0]] + Filter(log[1..], dcOf, d)
    else Filter(log[1..], dcOf, d)
  }

  /** Every target of the log that belongs to `d` is in `d`'s slice. */
  lemma {:induction false} FilterHolds<T>(log: seq<T>, dcOf: T -> string, d: string, i: nat)
    requires i < |log| && dcOf(log[i]) == d
    ensures log[i] in Filter(log, dcOf, d)
  {
    if i > 0 {
      FilterHolds(log[1..], dcOf, d, i - 1);
    }
  }

  lemma {:induction false} FilterAppend<T>(a: seq<T>, b: seq<T>, dcOf: T -> string, d: string)
    ensures Filter(a + b, dcOf, d) == Filter(a, dcOf, d) + Filter(b, dcOf, d)
  {
    if a == [] {
      assert a + b == b;
    } else {
      assert (a + b)[1..] == a[1..] + b;
      FilterAppend(a[1..], b, dcOf, d);
    }
  }

  /** Appending one target extends exactly its own datacenter's slice of a log. */
  lemma {:induction false} FilterSnoc<T>(log: seq<T>, t: T, dcOf: T -> string, d: string)
    ensures Filter(log + [t], dcOf, d)
         == Filter(log, dcOf, d) + (if dcOf(t) == d then [t] else [])
  {
    FilterAppend(log, [t], dcOf, d);
    assert [t][1..] == [];
  }

  ghost function Pick(keys: set<string>): (k: string)
    requires keys != {}
  {
    var k :| k in keys; k
  }

  /** The number of targets held in all queues together. */
  ghost function TotalLength<T>(queues: map<string, seq<T>>): (n: nat)
    ensures n == 0 <==> forall d :: d in queues ==> queues[d] == []
    ensures forall d :: d in queues ==> |queues[d]| <= n
    decreases |queues|
  {
    if queues == map[] then 0
    else
      var k := Pick(queues.Keys);
      var rest := queues - {k};
      assert rest.Keys == queues.Keys - {k};
      assert forall d :: d in queues && d != k ==> d in rest && rest[d] == queues[d];
      |queues[k]| + TotalLength(rest)
  }

  /** The total does not depend on which datacenter is counted first. */
  lemma {:induction false} TotalLengthRemove<T>(queues: map<string, seq<T>>, k: string)
    requires k in queues
    ensures TotalLength(queues) == |queues[k]| + TotalLength(queues - {k})
    decreases |queues|
  {
    var j := Pick(queues.Keys);
    if j != k {
      assert (queues - {j}).Keys == queues.Keys - {j};
      assert (queues - {k}).Keys == queues.Keys - {k};
      TotalLengthRemove(queues - {j}, k);
      TotalLengthRemove(queues - {k}, j);
      assert queues - {j} - {k} == queues - {k} - {j};
    }
  }

  /** Replacing one datacenter's queue changes the total by the difference in length. */
  lemma {:induction false} TotalLengthUpdate<T>(queues: map<string, seq<T>>, k: string, q: seq<T>)
    ensures TotalLength(queues[k := q]) == TotalLength(queues) - |Queue(queues, k)| + |q|
  {
    if k in queues {
      TotalLengthRemove(queues, k);
    } else {
      assert queues - {k} == queues;
    }
    TotalLengthRemove(queues[k := q], k);
    assert queues[k := q] - {k} == queues - {k};
  }

  /** Every queue holds only targets of its own datacenter. */
  ghost predicate Keyed<T>(queues: map<string, seq<T>>, dcOf: T -> string)
  {
    forall d, t :: d in queues && t in queues[d] ==> dcOf(t) == d
  }

  /**
   * Per datacenter, the targets added so far are the ones already completed
   * followed by the ones still queued: each queue is what is left of its
   * datacenter's adds once a prefix has completed.
   */
  ghost predicate Accounted<T>(queues: map<string, seq<T>>, dcOf: T -> string, added: seq<T>, completions: seq<T>)
  {
    forall d {:trigger Filter(added, dcOf, d)} :: Filter(added, dcOf, d) == Filter(completions, dcOf, d) + Queue(queues, d)
  }

  /**
   * Per datacenter, the targets dispatched so far are the ones already
   * completed followed, once dispatching has begun, by the head of the queue.
   */
  ghost predicate InFlight<T>(queues: map<string, seq<T>>, dcOf: T -> string, completions: seq<T>,
                              dispatched: seq<T>, started: bool)
  {
    forall d {:trigger Filter(dispatched, dcOf, d)} :: Filter(dispatched, dcOf, d)
             == Filter(completions, dcOf, d) + (if started then Front(Queue(queues, d)) else [])
  }

  lemma {:induction false} AccountedIsKeyed<T>(queues: map<string, seq<T>>, dcOf: T -> string, added: seq<T>, completions: seq<T>)
    requires Accounted(queues, dcOf, added, completions)
    ensures Keyed(queues, dcOf)
  {
    forall d, t | d in queues && t in queues[d]
      ensures dcOf(t) == d
    {
      assert t in Filter(added, dcOf, d);
    }
  }

  /** Adding `t` to the tail of its datacenter's queue keeps the queues accounted for. */
  lemma {:induction false} AddKeepsAccounted<T>(queues: map<string, seq<T>>, dcOf: T -> string, added: seq<T>,
                             completions: seq<T>, t: T)
    requires Accounted(queues, dcOf, added, completions)
    ensures Accounted(queues[dcOf(t) := Queue(queues, dcOf(t)) + [t]], dcOf, added + [t], completions)
  {
    var queues' := queues[dcOf(t) := Queue(queues, dcOf(t)) + [t]];
    forall d ensures Filter(added + [t], dcOf, d) == Filter(completions, dcOf, d) + Queue(queues', d) {
      FilterSnoc(added, t, dcOf, d);
      assert Filter(added, dcOf, d) == Filter(completions, dcOf, d) + Queue(queues, d);
    }
  }

  /**
   * Adding `t` keeps every dispatch accounted for unless dispatching has begun
   * and `t` lands in an empty queue, where it becomes a head nobody dispatched.
   */
  lemma {:induction false} AddKeepsInFlight<T>(queues: map<string, seq<T>>, dcOf: T -> string, completions: seq<T>,
                            dispatched: seq<T>, started: bool, t: T)
    requires InFlight(queues, dcOf, completions, dispatched, started)
    ensures (!started || Queue(queues, dcOf(t)) != [])
        <==> InFlight(queues[dcOf(t) := Queue(queues, dcOf(t)) + [t]], dcOf, completions, dispatched, started)
  {
    var queues' := queues[dcOf(t) := Queue(queues, dcOf(t)) + [t]];
    if started && Queue(queues, dcOf(t)) == [] {
      var d := dcOf(t);
      assert Filter(dispatched, dcOf, d) == Filter(completions, dcOf, d);
      assert Front(Queue(queues', d)) == [t];
      assert |Filter(dispatched, dcOf, d)| != |Filter(completions, dcOf, d) + Front(Queue(queues', d))|;
    } else {
      forall d ensures Filter(dispatched, dcOf, d)
                    == Filter(completions, dcOf, d) + (if started then Front(Queue(queues', d)) else []) {
        assert Filter(dispatched, dcOf, d)
            == Filter(completions, dcOf, d) + (if started then Front(Queue(queues, d)) else []);
        if d == dcOf(t) && started {
          assert Front(Queue(queues', d)) == Front(Queue(queues, d));
        }
      }
    }
  }

  /**
   * Popping the head `t` of its datacenter's queue and logging it as
   * completed keeps the queues accounted for.
   */
  lemma {:induction false} CompleteKeepsAccounted<T>(queues: map<string, seq<T>>, dcOf: T -> string, added: seq<T>,
                                                     completions: seq<T>, t: T)
    requires Accounted(queues, dcOf, added, completions)
    requires dcOf(t) in queues && queues[dcOf(t)] != [] && queues[dcOf(t)][0] == t
    ensures Accounted(queues[dcOf(t) := queues[dcOf(t)][1..]], dcOf, added, completions + [t])
  {
    var q := queues[dcOf(t)];
    var queues' := queues[dcOf(t) := q[1..]];
    forall d ensures Filter(added, dcOf, d) == Filter(completions + [t], dcOf, d) + Queue(queues', d) {
      FilterSnoc(completions, t, dcOf, d);
      assert Filter(added, dcOf, d) == Filter(completions, dcOf, d) + Queue(queues, d);
    }
  }

  /**
   * Once dispatching has begun, popping the completed head `t` and
   * dispatching the new head of the same queue, if any, keeps every dispatch
   * accounted for.
   */
  lemma {:induction false} CompleteKeepsInFlight<T>(queues: map<string, seq<T>>, dcOf: T -> string, completions: seq<T>,
                                 dispatched: seq<T>, t: T)
    requires InFlight(queues, dcOf, completions, dispatched, true)
    requires Keyed(queues, dcOf)
    requires dcOf(t) in queues && queues[dcOf(t)] != [] && queues[dcOf(t)][0] == t
    ensures InFlight(queues[dcOf(t) := queues[dcOf(t)][1..]], dcOf, completions + [t],
                     dispatched + Front(queues[dcOf(t)][1..]), true)
  {
    var q := queues[dcOf(t)];
    var queues' := queues[dcOf(t) := q[1..]];
    forall d ensures Filter(dispatched + Front(q[1..]), dcOf, d)
                  == Filter(completions + [t], dcOf, d) + Front(Queue(queues', d)) {
      FilterSnoc(completions, t, dcOf, d);
      FilterAppend(dispatched, Front(q[1..]), dcOf, d);
      assert Filter(dispatched, dcOf, d) == Filter(completions, dcOf, d) + Front(Queue(queues, d));
      if q[1..] != [] {
        assert q[1] in queues[dcOf(t)];
        FilterSnoc([], q[1], dcOf, d);
        assert [] + [q[1]] == [q[1]];
      }
    }
  }

  /** `sent` holds, per datacenter, the head of its queue if it is among `visited`, and nothing else. */
  ghost predicate HeadsSent<T>(queues: map<string, seq<T>>, dcOf: T -> string, sent: seq<T>, visited: set<string>)
  {
    forall d {:trigger Filter(sent, dcOf, d)} :: Filter(sent, dcOf, d) == if d in visited then Front(Queue(queues, d)) else []
  }

  /**
   * One step of dispatching the queue heads: with the heads of the `visited`
   * datacenters already sent, sending the head of `dc` (when it has one)
   * extends the sent heads to `visited + {dc}`.
   */
  lemma {:induction false} SendHeadStep<T>(queues: map<string, seq<T>>, dcOf: T -> string, sent: seq<T>,
                                           visited: set<string>, dc: string)
    requires Keyed(queues, dcOf)
    requires dc in queues && dc !in visited
    requires HeadsSent(queues, dcOf, sent, visited)
    ensures HeadsSent(queues, dcOf, sent + Front(queues[dc]), visited + {dc})
  {
    var f := Front(queues[dc]);
    forall d ensures Filter(sent + f, dcOf, d) == if d in visited + {dc} then Front(Queue(queues, d)) else [] {
      FilterAppend(sent, f, dcOf, d);
      if f != [] {
        assert queues[dc][0] in queues[dc];
        FilterSnoc([], queues[dc][0], dcOf, d);
        assert [] + [queues[dc][0]] == f;
      }
    }
  }

  /**
   * Once the heads of all datacenters are sent, each datacenter's dispatches
   * grow by exactly its queue head, and a coordinator that had dispatched
   * nothing beyond its completions is now dispatching.
   */
  lemma {:induction false} SendHeadsDone<T>(queues: map<string, seq<T>>, dcOf: T -> string, completions: seq<T>,
                                            dispatched: seq<T>, sent: seq<T>)
    requires HeadsSent(queues, dcOf, sent, queues.Keys)
    ensures forall d :: Filter(dispatched + sent, dcOf, d) == Filter(dispatched, dcOf, d) + Front(Queue(queues, d))
    ensures InFlight(queues, dcOf, completions, dispatched, false) ==> InFlight(queues, dcOf, completions, dispatched + sent, true)
  {
    forall d ensures Filter(dispatched + sent, dcOf, d) == Filter(dispatched, dcOf, d) + Front(Queue(queues, d)) {
      FilterAppend(dispatched, sent, dcOf, d);
    }
  }

  ghost predicate IsPrefix<T>(a: seq<T>, b: seq<T>)
  {
    |a| <= |b| && a == b[..|a|]
  }

  /**
   * FIFO and single-in-flight per datacenter: the dispatches of a datacenter
   * follow its adds in order, completions follow dispatches in order, and at
   * most one dispatched target of the datacenter is not yet completed.
   */
  lemma {:induction false} DispatchOrder<T>(queues: map<string, seq<T>>, dcOf: T -> string, added: seq<T>,
                         completions: seq<T>, dispatched: seq<T>, started: bool, d: string)
    requires Accounted(queues, dcOf, added, completions)
    requires InFlight(queues, dcOf, completions, dispatched, started)
    ensures IsPrefix(Filter(dispatched, dcOf, d), Filter(added, dcOf, d))
    ensures IsPrefix(Filter(completions, dcOf, d), Filter(dispatched, dcOf, d))
    ensures |Filter(dispatched, dcOf, d)| <= |Filter(completions, dcOf, d)| + 1
  {
    // The ensures follow from the two splits that Accounted and InFlight give for d; stating them
    // here keeps the solver from searching the quantified invariants.
    assert Filter(added, dcOf, d) == Filter(completions, dcOf, d) + Queue(queues, d);
    assert Filter(dispatched, dcOf, d) == Filter(completions, dcOf, d) + (if started then Front(Queue(queues, d)) else []);
  }

  ghost predicate Distinct<T>(s: seq<T>)
  {
    forall i, j :: 0 <= i < j < |s| ==> s[i] != s[j]
  }

  lemma {:induction false} FilterDistinct<T>(log: seq<T>, dcOf: T -> string, d: string)
    requires Distinct(log)
    ensures Distinct(Filter(log, dcOf, d))
  {
    if log != [] {
      assert Distinct(log[1..]) by {
        forall i, j | 0 <= i < j < |log| - 1 ensures log[1..][i] != log[1..][j] {
          assert log[1..][i] == log[i + 1] && log[1..][j] == log[j + 1];
        }
      }
      FilterDistinct(log[1..], dcOf, d);
      var r := Filter(log[1..], dcOf, d);
      if dcOf(log[0]) == d {
        assert log[0] !in r by {
          forall k | 0 <= k < |log| - 1 ensures log[1..][k] != log[0] {
            assert log[1..][k] == log[k + 1];
          }
          forall k | 0 <= k < |r| ensures r[k] != log[0] {
            assert r[k] in log[1..];
          }
        }
        forall i, j | 0 <= i < j < |[log[0]] + r| ensures ([log[0]] + r)[i] != ([log[0]] + r)[j] {
          if i > 0 {
            assert ([log[0]] + r)[i] == r[i - 1] && ([log[0]] + r)[j] == r[j - 1];
          } else {
            assert ([log[0]] + r)[j] in r;
          }
        }
      }
    }
  }

  /** A log whose every datacenter slice is repetition-free is itself repetition-free. */
  lemma {:induction false} DistinctFromFilters<T>(log: seq<T>, dcOf: T -> string)
    requires forall d :: Distinct(Filter(log, dcOf, d))
    ensures Distinct(log)
  {
    if log != [] {
      var d0 := dcOf(log[0]);
      var r := Filter(log[1..], dcOf, d0);
      var s0 := Filter(log, dcOf, d0);
      assert s0 == [log[0]] + r;
      assert Distinct(s0);
      assert log[0] !in r by {
        forall k | 0 <= k < |r| ensures r[k] != log[0] {
          assert s0[0] == log[0] && s0[k + 1] == r[k];
        }
      }
      forall d ensures Distinct(Filter(log[1..], dcOf, d)) {
        var s := Filter(log, dcOf, d);
        var t := Filter(log[1..], dcOf, d);
        if dcOf(log[0]) == d {
          assert s == [log[0]] + t;
          forall i, j | 0 <= i < j < |t| ensures t[i] != t[j] {
            assert s[i + 1] == t[i] && s[j + 1] == t[j];
          }
        } else {
          assert s == t;
        }
      }
      DistinctFromFilters(log[1..], dcOf);
      forall i, j | 0 <= i < j < |log| ensures log[i] != log[j] {
        if i == 0 {
          assert log[j] == log[1..][j - 1];
          if dcOf(log[j]) == d0 {
            FilterHolds(log[1..], dcOf, d0, j - 1);
          }
        } else {
          assert log[i] == log[1..][i - 1] && log[j] == log[1..][j - 1];
        }
      }
    }
  }

  /**
   * When no target is added twice, no target is dispatched twice, and no
   * queue holds a target twice.
   */
  lemma {:induction false} DispatchedAtMostOnce<T>(queues: map<string, seq<T>>, dcOf: T -> string, added: seq<T>,
                                completions: seq<T>, dispatched: seq<T>, started: bool)
    requires Accounted(queues, dcOf, added, completions)
    requires InFlight(queues, dcOf, completions, dispatched, started)
    requires Distinct(added)
    ensures Distinct(dispatched)
    ensures forall d :: d in queues ==> Distinct(queues[d])
  {
    forall d ensures Distinct(Filter(dispatched, dcOf, d)) {
      DispatchOrder(queues, dcOf, added, completions, dispatched, started, d);
      FilterDistinct(added, dcOf, d);
      var a, p := Filter(added, dcOf, d), Filter(dispatched, dcOf, d);
      forall i, j | 0 <= i < j < |p| ensures p[i] != p[j] {
        assert p[i] == a[i] && p[j] == a[j];
      }
    }
    DistinctFromFilters(dispatched, dcOf);
    forall d | d in queues ensures Distinct(queues[d]) {
      FilterDistinct(added, dcOf, d);
      var c, q := Filter(completions, dcOf, d), queues[d];
      var a := Filter(added, dcOf, d);
      assert a == c + q;
      forall i, j | 0 <= i < j < |q| ensures q[i] != q[j] {
        assert q[i] == a[|c| + i] && q[j] == a[|c| + j];
      }
    }
  }
}
