/// The building blocks every policy's loop is made of: filtering the
/// pending list, picking the first extremum the way Python's `min` and `max`
/// do, the idle skip to the earliest arrival, and `list.remove`.
module Selection {
  import opened Processes

  /** The keys the policies minimise (Priority maximises `priority`, that is,
      minimises its negation). */
  datatype Rule = ShortestBurst | HighestPriority | EarliestDeadline | ShortestRemaining

  /** Whether a process may be considered under `rule` at all: the deadline
      policies skip processes without a deadline. */
  predicate Eligible(rule: Rule, p: Process) {
    rule == EarliestDeadline ==> p.deadline.Some?
  }

  function Key(rule: Rule, p: Process): int
    requires Eligible(rule, p)
  {
    match rule
    case ShortestBurst => p.burst
    case HighestPriority => -p.priority
    case EarliestDeadline => p.deadline.value
    case ShortestRemaining => p.remaining
  }

  /** Record `i` is chosen over record `j`: a strictly better key, or the
      same key and earlier in list order. */
  predicate Precedes(rule: Rule, ps: seq<Process>, i: nat, j: nat)
    requires i < |ps| && j < |ps| && Eligible(rule, ps[i]) && Eligible(rule, ps[j])
  {
    Key(rule, ps[i]) < Key(rule, ps[j]) || (Key(rule, ps[i]) == Key(rule, ps[j]) && i < j)
  }

  /** The filters of the list comprehensions. */
  datatype Test = ArrivedBy(t: int) | EligibleBy(rule: Rule, t: int) | ArrivesAfter(t: int)

  predicate Passes(test: Test, p: Process) {
    match test
    case ArrivedBy(t) => p.arrival <= t
    case EligibleBy(rule, t) => p.arrival <= t && Eligible(rule, p)
    case ArrivesAfter(t) => p.arrival > t
  }

  /** `[p for p in s if test(p)]`: the records of `s` that pass, in the order of `s`. */
  function Filter(ps: seq<Process>, s: seq<nat>, test: Test): (r: seq<nat>)
    requires ValidIndices(s, |ps|)
    ensures ValidIndices(r, |ps|) && |r| <= |s|
    ensures forall k :: 0 <= k < |r| ==> Passes(test, ps[r[k]])
    ensures forall i :: i in r <==> i in s && Passes(test, ps[i])
  {
    if s == [] then []
    else
      var rest := Filter(ps, s[1..], test);
      assert forall i :: i in s <==> i == s[0] || i in s[1..];
      if Passes(test, ps[s[0]]) then [s[0]] + rest else rest
  }

  /** Filtering by arrival looks at nothing but the arrival times. */
  lemma {:induction false} FilterSameArrivals(ps: seq<Process>, qs: seq<Process>, s: seq<nat>, t: int)
    requires ValidIndices(s, |ps|) && ValidIndices(s, |qs|)
    requires forall k :: 0 <= k < |s| ==> ps[s[k]].arrival == qs[s[k]].arrival
    ensures Filter(ps, s, ArrivedBy(t)) == Filter(qs, s, ArrivedBy(t))
  {
    if s != [] {
      FilterSameArrivals(ps, qs, s[1..], t);
    }
  }

  /** Filtering keeps list order. */
  lemma {:induction false} FilterIncreasing(ps: seq<Process>, s: seq<nat>, test: Test)
    requires ValidIndices(s, |ps|) && Increasing(s)
    ensures Increasing(Filter(ps, s, test))
  {
    if s != [] {
      var t := s[1..];
      assert forall k :: 0 <= k < |t| ==> t[k] == s[k + 1];
      FilterIncreasing(ps, t, test);
      var rest := Filter(ps, t, test);
      if Passes(test, ps[s[0]]) {
        forall k | 0 <= k < |rest|
          ensures s[0] < rest[k]
        {
          assert rest[k] in rest;
          var j :| 0 <= j < |t| && t[j] == rest[k];
        }
        IncreasingCons(s[0], rest);
      }
    }
  }

  lemma IncreasingCons(x: nat, s: seq<nat>)
    requires Increasing(s) && forall k :: 0 <= k < |s| ==> x < s[k]
    ensures Increasing([x] + s)
  {
    var r := [x] + s;
    forall j, k | 0 <= j < k < |r|
      ensures r[j] < r[k]
    {
      assert r[k] == s[k - 1];
      if j > 0 {
        assert r[j] == s[j - 1];
      }
    }
  }

  /** The processes of `pending` a policy following `rule` may run at `clock`. */
  function Available(rule: Rule, ps: seq<Process>, pending: seq<nat>, clock: int): (r: seq<nat>)
    requires ValidIndices(pending, |ps|)
    ensures ValidIndices(r, |ps|)
    ensures forall k :: 0 <= k < |r| ==> ps[r[k]].arrival <= clock && Eligible(rule, ps[r[k]])
    ensures forall i :: i in r <==> i in pending && ps[i].arrival <= clock && Eligible(rule, ps[i])
    ensures Increasing(pending) ==> Increasing(r)
  {
    if Increasing(pending) then
      FilterIncreasing(ps, pending, EligibleBy(rule, clock));
      Filter(ps, pending, EligibleBy(rule, clock))
    else
      Filter(ps, pending, EligibleBy(rule, clock))
  }

  /** `min(s, key=...)` (and `max` for Priority): the position in `s` of the
      first record whose key is best; everything before it is strictly worse
      and nothing after it is better. */
  function FirstBest(rule: Rule, ps: seq<Process>, s: seq<nat>): (m: nat)
    requires s != [] && ValidIndices(s, |ps|)
    requires forall k :: 0 <= k < |s| ==> Eligible(rule, ps[s[k]])
    ensures m < |s|
    ensures forall j :: 0 <= j < m ==> Key(rule, ps[s[m]]) < Key(rule, ps[s[j]])
    ensures forall j :: m < j < |s| ==> Key(rule, ps[s[m]]) <= Key(rule, ps[s[j]])
  {
    if |s| == 1 then 0
    else
      var t := s[1..];
      assert forall k :: 0 <= k < |t| ==> t[k] == s[k + 1];
      var m := FirstBest(rule, ps, t);
      if Key(rule, ps[t[m]]) < Key(rule, ps[s[0]]) then 1 + m else 0
  }

  /** In a list without repeats in list order, the first best record precedes
      every other record of the list. */
  lemma {:induction false} FirstBestPrecedes(rule: Rule, ps: seq<Process>, s: seq<nat>, q: nat)
    requires s != [] && ValidIndices(s, |ps|) && Increasing(s)
    requires forall k :: 0 <= k < |s| ==> Eligible(rule, ps[s[k]])
    requires q in s && q != s[FirstBest(rule, ps, s)]
    ensures Precedes(rule, ps, s[FirstBest(rule, ps, s)], q)
  {
    var m := FirstBest(rule, ps, s);
    var j :| 0 <= j < |s| && s[j] == q;
    if j < m {
      assert Key(rule, ps[s[m]]) < Key(rule, ps[s[j]]);
    } else {
      assert m < j;
      assert Key(rule, ps[s[m]]) <= Key(rule, ps[s[j]]) && s[m] < s[j];
    }
  }

  /** `min(p.arrival_time for p in s)`: the earliest arrival among `s`. */
  function MinArrival(ps: seq<Process>, s: seq<nat>): (t: int)
    requires s != [] && ValidIndices(s, |ps|)
    ensures forall i :: i in s ==> t <= ps[i].arrival
    ensures exists i :: i in s && ps[i].arrival == t
  {
    if |s| == 1 then ps[s[0]].arrival
    else
      assert forall i :: i in s[1..] ==> i in s;
      var t := MinArrival(ps, s[1..]);
      assert forall i :: i in s ==> i == s[0] || i in s[1..];
      if ps[s[0]].arrival < t then ps[s[0]].arrival else t
  }

  /** After an idle skip to the earliest arrival, some process is available. */
  lemma IdleSkipMakesAvailable(rule: Rule, ps: seq<Process>, pending: seq<nat>)
    requires pending != [] && ValidIndices(pending, |ps|)
    requires forall i :: i in pending ==> Eligible(rule, ps[i])
    ensures Available(rule, ps, pending, MinArrival(ps, pending)) != []
  {
    var t := MinArrival(ps, pending);
    var i :| i in pending && ps[i].arrival == t;
    assert i in Available(rule, ps, pending, t);
  }

  /** `s.remove(x)`: drop the first occurrence of `x`. */
  function Remove(s: seq<nat>, x: nat): (r: seq<nat>)
    requires x in s
    ensures |r| == |s| - 1
    ensures forall i :: i in r ==> i in s
  {
    if s[0] == x then s[1..]
    else
      assert x in s[1..];
      var rest := Remove(s[1..], x);
      assert forall i :: i in [s[0]] + rest ==> i == s[0] || i in rest;
      [s[0]] + rest
  }

  /** In a list in list order without repeats, `remove` drops exactly `x` and keeps the order. */
  lemma {:induction false} RemoveIncreasing(s: seq<nat>, x: nat)
    requires x in s && Increasing(s)
    ensures Increasing(Remove(s, x))
    ensures forall i :: i in Remove(s, x) <==> i in s && i != x
  {
    if s[0] == x {
      assert forall i :: i in s[1..] ==> i != x by {
        forall i | i in s[1..] ensures i != x {
          var j :| 0 <= j < |s[1..]| && s[1..][j] == i;
          assert s[j + 1] == i;
        }
      }
      assert forall i :: i in s <==> i == s[0] || i in s[1..];
    } else {
      assert x in s[1..];
      RemoveIncreasing(s[1..], x);
      var rest := Remove(s[1..], x);
      forall k | 0 <= k < |rest|
        ensures s[0] < rest[k]
      {
        assert rest[k] in rest;
        var j :| 0 <= j < |s[1..]| && s[1..][j] == rest[k];
        assert s[j + 1] == rest[k];
      }
      assert forall i :: i in s <==> i == s[0] || i in s[1..];
      assert forall i :: i in [s[0]] + rest <==> i == s[0] || i in rest;
    }
  }

  /** `processes.copy()` seen as indices: 0, 1, ..., n-1 in list order. */
  function AllIndices(n: nat): (r: seq<nat>)
    ensures |r| == n && Increasing(r)
    ensures forall i: int :: i in r <==> 0 <= i < n
  {
    var r := seq(n, i => i);
    assert forall i :: 0 <= i < n ==> r[i] == i && i in r;
    r
  }

  /** The processor time still owed to the records listed in `s`. */
  function TotalRemaining(ps: seq<Process>, s: seq<nat>): int
    requires ValidIndices(s, |ps|)
  {
    if s == [] then 0 else ps[s[0]].remaining + TotalRemaining(ps, s[1..])
  }

  lemma {:induction false} TotalRemainingBound(ps: seq<Process>, s: seq<nat>)
    requires ValidIndices(s, |ps|)
    requires forall k :: 0 <= k < |s| ==> ps[s[k]].remaining >= 1
    ensures TotalRemaining(ps, s) >= |s|
  {
    if s != [] {
      TotalRemainingBound(ps, s[1..]);
    }
  }

  /** Only the remaining times of the listed records count. */
  lemma {:induction false} TotalRemainingSame(ps: seq<Process>, qs: seq<Process>, s: seq<nat>)
    requires ValidIndices(s, |ps|) && ValidIndices(s, |qs|)
    requires forall k :: 0 <= k < |s| ==> ps[s[k]].remaining == qs[s[k]].remaining
    ensures TotalRemaining(ps, s) == TotalRemaining(qs, s)
  {
    if s != [] {
      TotalRemainingSame(ps, qs, s[1..]);
    }
  }

  /** Changing the record of a listed process changes the total by the
      change in its remaining time. */
  lemma {:induction false} TotalRemainingUpdate(ps: seq<Process>, s: seq<nat>, i: nat, p: Process)
    requires ValidIndices(s, |ps|) && Increasing(s) && i in s
    ensures TotalRemaining(ps[i := p], s) == TotalRemaining(ps, s) - ps[i].remaining + p.remaining
  {
    assert i < |ps| by {
      var k :| 0 <= k < |s| && s[k] == i;
    }
    var t := s[1..];
    assert forall k :: 0 <= k < |t| ==> t[k] == s[k + 1];
    if s[0] == i {
      forall k | 0 <= k < |t|
        ensures ps[i := p][t[k]].remaining == ps[t[k]].remaining
      {
        assert t[k] != i;
      }
      TotalRemainingSame(ps[i := p], ps, t);
    } else {
      TotalRemainingUpdate(ps, t, i, p);
    }
  }

  /** Dropping a listed process from the list removes its remaining time from the total. */
  lemma {:induction false} TotalRemainingRemove(ps: seq<Process>, s: seq<nat>, i: nat)
    requires ValidIndices(s, |ps|) && i in s
    ensures ValidIndices(Remove(s, i), |ps|)
    ensures TotalRemaining(ps, Remove(s, i)) == TotalRemaining(ps, s) - ps[i].remaining
  {
    var r := Remove(s, i);
    assert forall k :: 0 <= k < |r| ==> r[k] in s;
    if s[0] != i {
      var t := s[1..];
      assert forall k :: 0 <= k < |t| ==> t[k] == s[k + 1];
      assert i in t;
      TotalRemainingRemove(ps, t, i);
      var rt := Remove(t, i);
      assert r == [s[0]] + rt;
      assert r[1..] == rt;
    }
  }
}
