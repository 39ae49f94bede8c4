/// `fcfs`: the records are stably sorted by arrival time and each one runs
/// to completion in that order, starting when the processor is free or, if
/// later, when it arrives.
module Fcfs {
  import opened Processes

  // ---------------------------------------------------------------------
  // `sorted(processes, key=lambda x: x.arrival_time)`, as indices.

  /** Record `i` comes before record `j` in a stable sort by arrival: it
      arrives earlier, or at the same time and earlier in the list. */
  predicate ByArrival(ps: seq<Process>, i: nat, j: nat)
    requires i < |ps| && j < |ps|
  {
    ps[i].arrival < ps[j].arrival || (ps[i].arrival == ps[j].arrival && i < j)
  }

  /** `s` lists indices in the order of a stable sort by arrival. */
  predicate SortedByArrival(ps: seq<Process>, s: seq<nat>)
    requires ValidIndices(s, |ps|)
  {
    forall j, k :: 0 <= j < k < |s| ==> ByArrival(ps, s[j], s[k])
  }

  /** Insert index `x` into a list sorted by arrival, keeping it sorted. */
  function Insert(ps: seq<Process>, s: seq<nat>, x: nat): (r: seq<nat>)
    requires ValidIndices(s, |ps|) && x < |ps|
    ensures |r| == |s| + 1 && ValidIndices(r, |ps|)
    ensures forall i :: i in r <==> i in s || i == x
  {
    if s == [] then [x]
    else if ByArrival(ps, x, s[0]) then [x] + s
    else
      var rest := Insert(ps, s[1..], x);
      assert forall i :: i in s <==> i == s[0] || i in s[1..];
      assert forall i :: i in [s[0]] + rest <==> i == s[0] || i in rest;
      [s[0]] + rest
  }

  lemma {:induction false} InsertSorted(ps: seq<Process>, s: seq<nat>, x: nat)
    requires ValidIndices(s, |ps|) && x < |ps| && x !in s && SortedByArrival(ps, s)
    ensures SortedByArrival(ps, Insert(ps, s, x))
  {
    if s != [] && !ByArrival(ps, x, s[0]) {
      var rest := Insert(ps, s[1..], x);
      assert x != s[0];
      InsertSorted(ps, s[1..], x);
      forall k | 0 <= k < |rest|
        ensures ByArrival(ps, s[0], rest[k])
      {
        assert rest[k] in rest;
        if rest[k] != x {
          var j :| 0 <= j < |s[1..]| && s[1..][j] == rest[k];
          assert s[j + 1] == rest[k];
        }
      }
      var r := [s[0]] + rest;
      forall j, k | 0 <= j < k < |r|
        ensures ByArrival(ps, r[j], r[k])
      {
        if j > 0 {
          assert r[j] == rest[j - 1] && r[k] == rest[k - 1];
        }
      }
    }
  }

  /** The indices 0 .. n-1 sorted stably by arrival: insertion of each index
      in turn, so that equal arrivals stay in list order. */
  function SortByArrival(ps: seq<Process>, n: nat): (r: seq<nat>)
    requires n <= |ps|
    ensures |r| == n && ValidIndices(r, |ps|)
    ensures forall i: int :: i in r <==> 0 <= i < n
  {
    if n == 0 then [] else Insert(ps, SortByArrival(ps, n - 1), n - 1)
  }

  /** The sort yields each record once, by arrival, ties in list order. */
  lemma {:induction false} SortByArrivalSorted(ps: seq<Process>, n: nat)
    requires n <= |ps|
    ensures SortedByArrival(ps, SortByArrival(ps, n)) && IsPermutation(SortByArrival(ps, n), n)
  {
    var r := SortByArrival(ps, n);
    if n > 0 {
      SortByArrivalSorted(ps, n - 1);
      InsertSorted(ps, SortByArrival(ps, n - 1), n - 1);
    }
    forall j, k | 0 <= j < k < |r|
      ensures r[j] != r[k]
    {
      assert ByArrival(ps, r[j], r[k]);
    }
    assert ValidIndices(r, n) by {
      forall k | 0 <= k < |r|
        ensures r[k] < n
      {
        assert r[k] in r;
      }
    }
  }

  // ---------------------------------------------------------------------
  // The policy as a function of its input.

  /** The loop's variables: the records, `current_time`, `schedule`, and,
      for the proofs, the record behind each entry of `schedule`. */
  datatype State = State(procs: seq<Process>, clock: int, timeline: seq<Slice>, owners: seq<nat>)

  /** One iteration: wait for record `i` if it has not arrived, then run it to completion. */
  function Serve(st: State, i: nat): (r: State)
    requires i < |st.procs|
    ensures |r.procs| == |st.procs|
  {
    var p := st.procs[i];
    var t := if st.clock < p.arrival then p.arrival else st.clock;
    State(st.procs[i := Dispatched(p, t)], t + p.burst,
          st.timeline + [Slice(t, t + p.burst, p.name)], st.owners + [i])
  }

  /** The loop from position `j` of `order` to its end. */
  function Run(st: State, order: seq<nat>, j: nat): (r: State)
    requires ValidIndices(order, |st.procs|) && j <= |order|
    ensures |r.procs| == |st.procs|
    decreases |order| - j
  {
    if j == |order| then st else Run(Serve(st, order[j]), order, j + 1)
  }

  function Schedule(ps0: seq<Process>): Outcome {
    var r := Run(State(ps0, 0, [], []), SortByArrival(ps0, |ps0|), 0);
    Outcome(r.procs, r.timeline, r.owners)
  }

  // ---------------------------------------------------------------------
  // The invariant of the loop after the first `j` records of `order`.

  /** Slice `k` ran `order[k]` from the later of the previous slice's end and
      its arrival, for its whole burst, and the record holds that dispatch. */
  ghost predicate ServedAt(ps0: seq<Process>, procs: seq<Process>, tl: seq<Slice>, order: seq<nat>, k: nat) {
    k < |tl| && k < |order| && order[k] < |ps0| && order[k] < |procs| &&
    var i, s := order[k], tl[k].start;
    s == (if PrevEnd(tl, k) < ps0[i].arrival then ps0[i].arrival else PrevEnd(tl, k)) &&
    tl[k] == Slice(s, s + ps0[i].burst, ps0[i].name) &&
    procs[i] == Dispatched(ps0[i], s)
  }

  ghost predicate Inv(ps0: seq<Process>, order: seq<nat>, j: nat, st: State) {
    |st.procs| == |ps0| && ValidIndices(order, |ps0|) && Distinct(order) && j <= |order| &&
    st.owners == order[..j] && |st.timeline| == j && st.clock == LastEnd(st.timeline) &&
    (forall k :: 0 <= k < j ==> ServedAt(ps0, st.procs, st.timeline, order, k)) &&
    (forall k :: j <= k < |order| ==> st.procs[order[k]] == ps0[order[k]])
  }

  lemma ServeKeepsInv(ps0: seq<Process>, order: seq<nat>, j: nat, st: State)
    requires Inv(ps0, order, j, st) && j < |order|
    ensures Inv(ps0, order, j + 1, Serve(st, order[j]))
  {
    var i := order[j];
    var r := Serve(st, i);
    assert r.owners == order[..j + 1];
    assert PrevEnd(r.timeline, j) == st.clock;
    forall k | 0 <= k < j
      ensures ServedAt(ps0, r.procs, r.timeline, order, k)
    {
      assert ServedAt(ps0, st.procs, st.timeline, order, k);
      assert order[k] != i && r.timeline[k] == st.timeline[k];
      assert PrevEnd(r.timeline, k) == PrevEnd(st.timeline, k);
    }
    forall k | j + 1 <= k < |order|
      ensures r.procs[order[k]] == ps0[order[k]]
    {
      assert order[k] != i;
    }
    assert ServedAt(ps0, r.procs, r.timeline, order, j);
  }

  lemma {:induction false} RunKeepsInv(ps0: seq<Process>, order: seq<nat>, j: nat, st: State)
    requires Inv(ps0, order, j, st)
    ensures Inv(ps0, order, |order|, Run(st, order, j))
    decreases |order| - j
  {
    if j < |order| {
      ServeKeepsInv(ps0, order, j, st);
      RunKeepsInv(ps0, order, j + 1, Serve(st, order[j]));
    }
  }

  /** The invariant at the end of the run over the sorted order. */
  lemma FinalInv(ps0: seq<Process>)
    ensures var order := SortByArrival(ps0, |ps0|);
            var r := Run(State(ps0, 0, [], []), order, 0);
            Inv(ps0, order, |order|, r) && SortedByArrival(ps0, order) && IsPermutation(order, |ps0|)
  {
    var order := SortByArrival(ps0, |ps0|);
    SortByArrivalSorted(ps0, |ps0|);
    RunKeepsInv(ps0, order, 0, State(ps0, 0, [], []));
  }

  // ---------------------------------------------------------------------
  // What every FCFS run guarantees.

  /** Processes run in non-decreasing order of arrival, ties in list order,
      each exactly once. */
  lemma ServesInArrivalOrder(ps0: seq<Process>)
    ensures var o := Schedule(ps0);
      IsPermutation(o.owners, |ps0|) &&
      forall j, k :: 0 <= j < k < |ps0| ==>
        ps0[o.owners[j]].arrival < ps0[o.owners[k]].arrival ||
        (ps0[o.owners[j]].arrival == ps0[o.owners[k]].arrival && o.owners[j] < o.owners[k])
  {
    FinalInv(ps0);
    var order := SortByArrival(ps0, |ps0|);
    assert Schedule(ps0).owners == order[..|order|] == order;
  }

  /** Slice `k` runs the `k`-th process of the sorted order from the later of
      the previous slice's end (time 0 for the first) and its arrival, for
      its whole burst; the record holds that start as start and first
      response and its end as completion. */
  lemma StartsAtLaterOfClockAndArrival(ps0: seq<Process>)
    ensures var o := Schedule(ps0);
      |o.procs| == |ps0| && |o.timeline| == |o.owners| == |ps0| && ValidIndices(o.owners, |ps0|) &&
      forall k :: 0 <= k < |ps0| ==>
        var i, s := o.owners[k], o.timeline[k].start;
        s == (if PrevEnd(o.timeline, k) < ps0[i].arrival then ps0[i].arrival else PrevEnd(o.timeline, k)) &&
        o.timeline[k] == Slice(s, s + ps0[i].burst, ps0[i].name) &&
        o.procs[i] == Dispatched(ps0[i], s)
  {
    FinalInv(ps0);
    var order := SortByArrival(ps0, |ps0|);
    var r := Run(State(ps0, 0, [], []), order, 0);
    var o := Schedule(ps0);
    assert o == Outcome(r.procs, r.timeline, r.owners) && o.owners == order;
    forall k | 0 <= k < |ps0|
      ensures var i, s := o.owners[k], o.timeline[k].start;
        s == (if PrevEnd(o.timeline, k) < ps0[i].arrival then ps0[i].arrival else PrevEnd(o.timeline, k)) &&
        o.timeline[k] == Slice(s, s + ps0[i].burst, ps0[i].name) &&
        o.procs[i] == Dispatched(ps0[i], s)
    {
      assert ServedAt(ps0, r.procs, r.timeline, order, k);
    }
  }

  /** With bursts of at least one second the timeline is sorted by start,
      without overlaps, and starts no earlier than time 0. */
  lemma TimelineOrdered(ps0: seq<Process>)
    requires Admissible(ps0)
    ensures Ordered(Schedule(ps0).timeline)
  {
    StartsAtLaterOfClockAndArrival(ps0);
    var o := Schedule(ps0);
    forall k | 0 <= k < |o.timeline|
      ensures PrevEnd(o.timeline, k) <= o.timeline[k].start < o.timeline[k].end
    {
      assert ps0[o.owners[k]].burst >= 1;
    }
  }

  /** Every record ends completed, dispatched once: start and first response
      coincide, no earlier than its arrival, and the completion is exactly
      one burst later. */
  lemma CompletesEveryProcess(ps0: seq<Process>)
    ensures var o := Schedule(ps0);
      AllCompleted(ps0, o.procs) &&
      forall i :: 0 <= i < |ps0| ==>
        o.procs[i].start == o.procs[i].firstResponse &&
        o.procs[i].completion.value == o.procs[i].firstResponse.value + ps0[i].burst &&
        o.procs[i].remaining == ps0[i].remaining
  {
    ServesInArrivalOrder(ps0);
    StartsAtLaterOfClockAndArrival(ps0);
    var o := Schedule(ps0);
    forall i | 0 <= i < |ps0|
      ensures o.procs[i].firstResponse.Some? && ps0[i].arrival <= o.procs[i].firstResponse.value &&
              o.procs[i] == Dispatched(ps0[i], o.procs[i].firstResponse.value)
    {
      assert i in o.owners;
      var k :| 0 <= k < |o.owners| && o.owners[k] == i;
    }
  }

  // ---------------------------------------------------------------------
  // The policy as the program runs it, on an array of records.

  /** `fcfs`: fills in the records of `a` and returns the timeline, exactly
      as `Schedule` describes. */
  method Fcfs(a: array<Process>) returns (schedule: seq<Slice>)
    modifies a
    ensures var o := Schedule(old(a[..])); a[..] == o.procs && schedule == o.timeline
  {
    ghost var ps0 := a[..];
    ghost var owners: seq<nat> := [];
    var order := SortByArrival(a[..], a.Length);
    var clock := 0;
    schedule := [];
    for j := 0 to |order|
      invariant Run(State(a[..], clock, schedule, owners), order, j) == Run(State(ps0, 0, [], []), order, 0)
    {
      ghost var st := State(a[..], clock, schedule, owners);
      var i := order[j];
      if clock < a[i].arrival {
        clock := a[i].arrival;
      }
      DispatchAt(a, i, clock);
      schedule := schedule + [Slice(clock, a[i].completion.value, a[i].name)];
      clock := a[i].completion.value;
      owners := owners + [i];
      assert State(a[..], clock, schedule, owners) == Serve(st, i);
    }
  }
}
