/// The non-preemptive policies `sjf`, `priority_scheduling`,
/// `earliest_deadline_first` and `rate_monotonic`. All four run the same
/// loop and differ only in the key they pick by, so the loop is written once
/// and parameterised by a `Rule`.
module NonPreemptive {
  import opened Processes
  import opened Selection

  /** The loop's variables: the records, `remaining_processes` (as indices,
      in list order), `current_time`, `schedule`, and, for the proofs, the
      record behind each entry of `schedule`. */
  datatype State = State(procs: seq<Process>, pending: seq<nat>, clock: int,
                         timeline: seq<Slice>, owners: seq<nat>)

  /** What the loop needs to be well defined: valid indices, and under the
      deadline rule every pending process has a deadline. */
  predicate Runnable(rule: Rule, st: State) {
    ValidIndices(st.pending, |st.procs|) &&
    forall i :: i in st.pending ==> Eligible(rule, st.procs[i])
  }

  /** No pending process may run at the current time. */
  predicate Idle(rule: Rule, st: State)
    requires Runnable(rule, st)
  {
    Available(rule, st.procs, st.pending, st.clock) == []
  }

  /** One iteration of the loop: an idle skip to the earliest pending
      arrival, or the dispatch of the first best available process for its
      whole burst. Every iteration either removes a process or is an idle
      skip after which some process is available. */
  function Step(rule: Rule, st: State): (r: State)
    requires Runnable(rule, st) && st.pending != []
    ensures Runnable(rule, r)
    ensures |r.pending| < |st.pending| || (|r.pending| == |st.pending| && Idle(rule, st) && !Idle(rule, r))
  {
    var ps := st.procs;
    var avail := Available(rule, ps, st.pending, st.clock);
    if avail == [] then
      IdleSkipMakesAvailable(rule, ps, st.pending);
      st.(clock := MinArrival(ps, st.pending))
    else
      var k := avail[FirstBest(rule, ps, avail)];
      var p := Dispatched(ps[k], st.clock);
      var rest := Remove(st.pending, k);
      assert forall j :: 0 <= j < |rest| ==> rest[j] in st.pending;
      State(ps[k := p], rest, p.completion.value,
            st.timeline + [Slice(st.clock, p.completion.value, p.name)], st.owners + [k])
  }

  /** The idle branch of `Step`: only the clock moves, to the earliest pending arrival. */
  lemma StepIdles(rule: Rule, st: State)
    requires Runnable(rule, st) && st.pending != [] && Idle(rule, st)
    ensures Step(rule, st) == st.(clock := MinArrival(st.procs, st.pending))
  {
  }

  /** The dispatch branch of `Step`, with the chosen process named `k`. */
  lemma StepDispatches(rule: Rule, st: State, k: nat)
    requires Runnable(rule, st) && st.pending != [] && !Idle(rule, st)
    requires var avail := Available(rule, st.procs, st.pending, st.clock);
             k == avail[FirstBest(rule, st.procs, avail)]
    ensures k in st.pending && k < |st.procs|
    ensures var p := st.procs[k];
            Step(rule, st) == State(st.procs[k := Dispatched(p, st.clock)], Remove(st.pending, k),
                                    st.clock + p.burst, st.timeline + [Slice(st.clock, st.clock + p.burst, p.name)],
                                    st.owners + [k])
  {
    var avail := Available(rule, st.procs, st.pending, st.clock);
    assert k in avail;
  }

  /** The loop run to the end: nothing is left pending. */
  function Run(rule: Rule, st: State): (r: State)
    requires Runnable(rule, st)
    ensures r.pending == []
    decreases |st.pending|, if Idle(rule, st) then 1 else 0
  {
    if st.pending == [] then st else Run(rule, Step(rule, st))
  }

  /** The whole policy on a list of records, from time 0 with every process pending. */
  function Schedule(rule: Rule, ps0: seq<Process>): Outcome
    requires forall i :: 0 <= i < |ps0| ==> Eligible(rule, ps0[i])
  {
    var r := Run(rule, State(ps0, AllIndices(|ps0|), 0, [], []));
    Outcome(r.procs, r.timeline, r.owners)
  }

  // ---------------------------------------------------------------------
  // The invariant of the loop, relative to the records it started from.
  // Each part names only the loop variables it is about.

  /** Pending and dispatched records split the indices, each dispatched
      once; the pending list stays in list order. */
  ghost predicate Shape(n: nat, pending: seq<nat>, tl: seq<Slice>, owners: seq<nat>) {
    |tl| == |owners| && |pending| + |owners| == n &&
    Increasing(pending) && ValidIndices(pending, n) &&
    ValidIndices(owners, n) && Distinct(owners) &&
    forall i :: 0 <= i < n ==> (i in pending <==> i !in owners)
  }

  /** Pending records are exactly as the caller supplied them. */
  ghost predicate Untouched(ps0: seq<Process>, procs: seq<Process>, pending: seq<nat>) {
    |procs| == |ps0| && forall q :: q in pending ==> q < |ps0| && procs[q] == ps0[q]
  }

  /** Slice `k` is the single dispatch of its owner: it starts no earlier
      than the owner's arrival, lasts exactly its burst, and the record holds
      that start as start and first response and its end as completion. */
  ghost predicate DispatchedAt(ps0: seq<Process>, procs: seq<Process>, tl: seq<Slice>, owners: seq<nat>, k: nat) {
    k < |tl| && k < |owners| && owners[k] < |ps0| && owners[k] < |procs| &&
    var i, s := owners[k], tl[k].start;
    ps0[i].arrival <= s &&
    tl[k] == Slice(s, s + ps0[i].burst, ps0[i].name) &&
    procs[i] == Dispatched(ps0[i], s)
  }

  ghost predicate AllDispatched(ps0: seq<Process>, procs: seq<Process>, tl: seq<Slice>, owners: seq<nat>) {
    forall k :: 0 <= k < |owners| ==> DispatchedAt(ps0, procs, tl, owners, k)
  }

  predicate AllEligible(rule: Rule, ps0: seq<Process>) {
    forall i :: 0 <= i < |ps0| ==> Eligible(rule, ps0[i])
  }

  /** Each dispatched process preceded, under `rule`, every process that had
      arrived by its start and was dispatched after it or is still pending. */
  ghost predicate Selected(rule: Rule, ps0: seq<Process>, pending: seq<nat>, tl: seq<Slice>, owners: seq<nat>)
    requires AllEligible(rule, ps0) && |tl| == |owners|
    requires ValidIndices(owners, |ps0|) && ValidIndices(pending, |ps0|)
  {
    (forall k, j :: 0 <= k < j < |owners| && ps0[owners[j]].arrival <= tl[k].start ==>
       Precedes(rule, ps0, owners[k], owners[j])) &&
    (forall k, q :: 0 <= k < |owners| && q in pending && ps0[q].arrival <= tl[k].start ==>
       Precedes(rule, ps0, owners[k], q))
  }

  /** The processor idles only while nothing has arrived: a slice that
      starts after the previous one ended starts no later than any arrival
      among the processes not dispatched before it. */
  ghost predicate NoIdleWait(ps0: seq<Process>, pending: seq<nat>, tl: seq<Slice>, owners: seq<nat>)
    requires |tl| == |owners| && ValidIndices(owners, |ps0|) && ValidIndices(pending, |ps0|)
  {
    NoIdleBeforeLater(ps0, tl, owners) && NoIdleBeforePending(ps0, pending, tl, owners)
  }

  ghost predicate NoIdleBeforeLater(ps0: seq<Process>, tl: seq<Slice>, owners: seq<nat>)
    requires |tl| == |owners| && ValidIndices(owners, |ps0|)
  {
    forall k, j :: 0 <= k <= j < |owners| && PrevEnd(tl, k) < tl[k].start ==>
      tl[k].start <= ps0[owners[j]].arrival
  }

  ghost predicate NoIdleBeforePending(ps0: seq<Process>, pending: seq<nat>, tl: seq<Slice>, owners: seq<nat>)
    requires |tl| == |owners| && ValidIndices(pending, |ps0|)
  {
    forall k, q :: 0 <= k < |owners| && q in pending && PrevEnd(tl, k) < tl[k].start ==>
      tl[k].start <= ps0[q].arrival
  }

  /** After an idle skip the clock stands at or before every pending arrival. */
  ghost predicate ClockAhead(ps0: seq<Process>, pending: seq<nat>, tl: seq<Slice>, clock: int)
    requires ValidIndices(pending, |ps0|)
  {
    LastEnd(tl) <= clock &&
    (LastEnd(tl) < clock ==> forall q :: q in pending ==> clock <= ps0[q].arrival)
  }

  ghost predicate Inv(rule: Rule, ps0: seq<Process>, st: State) {
    Admissible(ps0) && AllEligible(rule, ps0) &&
    Shape(|ps0|, st.pending, st.timeline, st.owners) &&
    Untouched(ps0, st.procs, st.pending) &&
    AllDispatched(ps0, st.procs, st.timeline, st.owners) &&
    Ordered(st.timeline) &&
    Selected(rule, ps0, st.pending, st.timeline, st.owners) &&
    NoIdleWait(ps0, st.pending, st.timeline, st.owners) &&
    ClockAhead(ps0, st.pending, st.timeline, st.clock)
  }

  lemma InitialInv(rule: Rule, ps0: seq<Process>)
    requires Admissible(ps0) && AllEligible(rule, ps0)
    ensures Inv(rule, ps0, State(ps0, AllIndices(|ps0|), 0, [], []))
  {
  }

  lemma IdleStepKeepsInv(rule: Rule, ps0: seq<Process>, st: State)
    requires Inv(rule, ps0, st) && st.pending != []
    requires Available(rule, st.procs, st.pending, st.clock) == []
    ensures Inv(rule, ps0, Step(rule, st))
  {
    var m := MinArrival(st.procs, st.pending);
    assert Step(rule, st) == st.(clock := m);
    forall q | q in st.pending
      ensures st.clock < ps0[q].arrival && m <= ps0[q].arrival
    {
      assert q !in Available(rule, st.procs, st.pending, st.clock);
    }
    var w :| w in st.pending && st.procs[w].arrival == m;
    assert ClockAhead(ps0, st.pending, st.timeline, m);
  }

  // The parts of a dispatch: process `k`, pending and arrived by `c`, runs
  // from `c` for its whole burst.

  lemma ShapeDispatch(n: nat, pending: seq<nat>, tl: seq<Slice>, owners: seq<nat>, k: nat, s: Slice)
    requires Shape(n, pending, tl, owners) && k in pending
    ensures Shape(n, Remove(pending, k), tl + [s], owners + [k])
  {
    var pending', owners' := Remove(pending, k), owners + [k];
    RemoveIncreasing(pending, k);
    assert k < n;
    assert k !in owners;
    assert forall i :: i in pending' <==> i in pending && i != k;
    assert forall i :: i in owners' <==> i in owners || i == k;
    assert ValidIndices(pending', n) by {
      forall j | 0 <= j < |pending'|
        ensures pending'[j] < n
      {
        assert pending'[j] in pending;
      }
    }
    assert Distinct(owners') by {
      forall a, b | 0 <= a < b < |owners'|
        ensures owners'[a] != owners'[b]
      {
        if b == |owners| {
          assert owners[a] in owners;
        }
      }
    }
  }

  lemma AllDispatchedAppend(ps0: seq<Process>, procs: seq<Process>, tl: seq<Slice>, owners: seq<nat>, k: nat, c: int)
    requires AllDispatched(ps0, procs, tl, owners) && |procs| == |ps0| && |tl| == |owners|
    requires k < |ps0| && k !in owners && ps0[k].arrival <= c
    ensures AllDispatched(ps0, procs[k := Dispatched(ps0[k], c)],
                          tl + [Slice(c, c + ps0[k].burst, ps0[k].name)], owners + [k])
  {
    var procs', tl', owners' := procs[k := Dispatched(ps0[k], c)],
                                tl + [Slice(c, c + ps0[k].burst, ps0[k].name)], owners + [k];
    forall j | 0 <= j < |owners'|
      ensures DispatchedAt(ps0, procs', tl', owners', j)
    {
      if j < |owners| {
        assert DispatchedAt(ps0, procs, tl, owners, j);
        assert owners[j] in owners;
      }
    }
  }

  lemma SelectedDispatch(rule: Rule, ps0: seq<Process>, pending: seq<nat>, tl: seq<Slice>, owners: seq<nat>,
                         k: nat, s: Slice)
    requires AllEligible(rule, ps0) && |tl| == |owners|
    requires ValidIndices(owners, |ps0|) && ValidIndices(pending, |ps0|) && Increasing(pending)
    requires Selected(rule, ps0, pending, tl, owners) && k in pending
    requires forall q :: q in pending && q != k && ps0[q].arrival <= s.start ==> Precedes(rule, ps0, k, q)
    ensures ValidIndices(Remove(pending, k), |ps0|) && ValidIndices(owners + [k], |ps0|)
    ensures Selected(rule, ps0, Remove(pending, k), tl + [s], owners + [k])
  {
    var pending', tl', owners' := Remove(pending, k), tl + [s], owners + [k];
    var n := |owners|;
    RemoveIncreasing(pending, k);
    assert forall j :: 0 <= j < |pending'| ==> pending'[j] in pending;
    assert owners'[n] == k && tl'[n] == s;
    forall a, b | 0 <= a < b < |owners'| && ps0[owners'[b]].arrival <= tl'[a].start
      ensures Precedes(rule, ps0, owners'[a], owners'[b])
    {
      assert tl'[a] == tl[a] && owners'[a] == owners[a];
      if b < n {
        assert owners'[b] == owners[b];
      }
    }
    forall a, q | 0 <= a < |owners'| && q in pending' && ps0[q].arrival <= tl'[a].start
      ensures Precedes(rule, ps0, owners'[a], q)
    {
      assert q in pending && q != k;
      if a < n {
        assert tl'[a] == tl[a] && owners'[a] == owners[a];
      }
    }
  }

  lemma NoIdleLaterDispatch(ps0: seq<Process>, pending: seq<nat>, tl: seq<Slice>, owners: seq<nat>, k: nat, c: int, s: Slice)
    requires |tl| == |owners| && ValidIndices(owners, |ps0|) && ValidIndices(pending, |ps0|)
    requires NoIdleBeforeLater(ps0, tl, owners) && NoIdleBeforePending(ps0, pending, tl, owners)
    requires ClockAhead(ps0, pending, tl, c) && k in pending && s.start == c
    ensures ValidIndices(owners + [k], |ps0|)
    ensures NoIdleBeforeLater(ps0, tl + [s], owners + [k])
  {
    var tl', owners' := tl + [s], owners + [k];
    var n := |owners|;
    assert PrevEnd(tl', n) == LastEnd(tl);
    assert owners'[n] == k && tl'[n] == s;
    forall a, b | 0 <= a <= b < |owners'| && PrevEnd(tl', a) < tl'[a].start
      ensures tl'[a].start <= ps0[owners'[b]].arrival
    {
      if a < n {
        assert PrevEnd(tl', a) == PrevEnd(tl, a) && tl'[a] == tl[a];
        if b < n {
          assert owners'[b] == owners[b];
        }
      }
    }
  }

  lemma NoIdlePendingDispatch(ps0: seq<Process>, pending: seq<nat>, tl: seq<Slice>, owners: seq<nat>, k: nat, c: int, s: Slice)
    requires |tl| == |owners| && ValidIndices(pending, |ps0|)
    requires NoIdleBeforePending(ps0, pending, tl, owners)
    requires ClockAhead(ps0, pending, tl, c) && k in pending && s.start == c
    ensures ValidIndices(Remove(pending, k), |ps0|)
    ensures NoIdleBeforePending(ps0, Remove(pending, k), tl + [s], owners + [k])
  {
    var pending', tl', owners' := Remove(pending, k), tl + [s], owners + [k];
    var n := |owners|;
    assert forall j :: 0 <= j < |pending'| ==> pending'[j] in pending;
    assert PrevEnd(tl', n) == LastEnd(tl);
    assert tl'[n] == s;
    forall a, q | 0 <= a < |owners'| && q in pending' && PrevEnd(tl', a) < tl'[a].start
      ensures tl'[a].start <= ps0[q].arrival
    {
      assert q in pending;
      if a < n {
        assert PrevEnd(tl', a) == PrevEnd(tl, a) && tl'[a] == tl[a];
      }
    }
  }

  lemma DispatchStepKeepsInv(rule: Rule, ps0: seq<Process>, st: State)
    requires Inv(rule, ps0, st) && st.pending != []
    requires Available(rule, st.procs, st.pending, st.clock) != []
    ensures Inv(rule, ps0, Step(rule, st))
  {
    var ps := st.procs;
    var avail := Available(rule, ps, st.pending, st.clock);
    var k := avail[FirstBest(rule, ps, avail)];
    var c := st.clock;
    var s := Slice(c, c + ps0[k].burst, ps0[k].name);
    assert k in avail && ps[k] == ps0[k];
    assert Step(rule, st) == State(ps[k := Dispatched(ps0[k], c)], Remove(st.pending, k), c + ps0[k].burst,
                                   st.timeline + [s], st.owners + [k]);
    forall q | q in st.pending && q != k && ps0[q].arrival <= c
      ensures Precedes(rule, ps0, k, q)
    {
      assert q in avail;
      FirstBestPrecedes(rule, ps, avail, q);
    }
    ShapeDispatch(|ps0|, st.pending, st.timeline, st.owners, k, s);
    AllDispatchedAppend(ps0, ps, st.timeline, st.owners, k, c);
    OrderedAppend(st.timeline, s);
    SelectedDispatch(rule, ps0, st.pending, st.timeline, st.owners, k, s);
    NoIdleLaterDispatch(ps0, st.pending, st.timeline, st.owners, k, c, s);
    NoIdlePendingDispatch(ps0, st.pending, st.timeline, st.owners, k, c, s);
  }

  lemma {:induction false} RunKeepsInv(rule: Rule, ps0: seq<Process>, st: State)
    requires Inv(rule, ps0, st)
    ensures Inv(rule, ps0, Run(rule, st))
    decreases |st.pending|, if Idle(rule, st) then 1 else 0
  {
    if st.pending != [] {
      if Available(rule, st.procs, st.pending, st.clock) == [] {
        IdleStepKeepsInv(rule, ps0, st);
      } else {
        DispatchStepKeepsInv(rule, ps0, st);
      }
      RunKeepsInv(rule, ps0, Step(rule, st));
    }
  }

  /** The invariant at the end of the run, with every process dispatched. */
  lemma FinalInv(rule: Rule, ps0: seq<Process>)
    requires Admissible(ps0) && AllEligible(rule, ps0)
    ensures var r := Run(rule, State(ps0, AllIndices(|ps0|), 0, [], []));
            Inv(rule, ps0, r) && IsPermutation(r.owners, |ps0|)
  {
    var st := State(ps0, AllIndices(|ps0|), 0, [], []);
    InitialInv(rule, ps0);
    RunKeepsInv(rule, ps0, st);
  }

  /** The part of the final invariant about the dispatches alone. */
  lemma FinalDispatched(rule: Rule, ps0: seq<Process>)
    requires Admissible(ps0) && AllEligible(rule, ps0)
    ensures var r := Run(rule, State(ps0, AllIndices(|ps0|), 0, [], []));
            |r.procs| == |ps0| && |r.timeline| == |r.owners| && IsPermutation(r.owners, |ps0|) &&
            AllDispatched(ps0, r.procs, r.timeline, r.owners)
  {
    FinalInv(rule, ps0);
  }

  // ---------------------------------------------------------------------
  // What every run of the four policies guarantees.

  /** Each process is dispatched exactly once: the slices list every record
      once; each slice starts no earlier than its process arrived and lasts
      exactly its burst, and the record holds that start as start and first
      response and that end as completion. */
  lemma DispatchesEachOnce(rule: Rule, ps0: seq<Process>)
    requires Admissible(ps0) && AllEligible(rule, ps0)
    ensures var o := Schedule(rule, ps0);
      |o.procs| == |ps0| && |o.timeline| == |ps0| && IsPermutation(o.owners, |ps0|) &&
      forall k :: 0 <= k < |ps0| ==>
        var i, s := o.owners[k], o.timeline[k].start;
        ps0[i].arrival <= s && o.timeline[k] == Slice(s, s + ps0[i].burst, ps0[i].name) &&
        o.procs[i] == Dispatched(ps0[i], s)
  {
    FinalDispatched(rule, ps0);
    var r := Run(rule, State(ps0, AllIndices(|ps0|), 0, [], []));
    var o := Schedule(rule, ps0);
    assert o == Outcome(r.procs, r.timeline, r.owners);
    forall k | 0 <= k < |ps0|
      ensures var i, s := o.owners[k], o.timeline[k].start;
        ps0[i].arrival <= s && o.timeline[k] == Slice(s, s + ps0[i].burst, ps0[i].name) &&
        o.procs[i] == Dispatched(ps0[i], s)
    {
      assert DispatchedAt(ps0, r.procs, r.timeline, r.owners, k);
    }
  }

  /** Every record ends completed: start and first response coincide, the
      completion is exactly one burst later, and the remaining time is untouched. */
  lemma CompletesEveryProcess(rule: Rule, ps0: seq<Process>)
    requires Admissible(ps0) && AllEligible(rule, ps0)
    ensures var o := Schedule(rule, ps0);
      AllCompleted(ps0, o.procs) &&
      forall i :: 0 <= i < |ps0| ==>
        o.procs[i].start == o.procs[i].firstResponse &&
        o.procs[i].completion.value == o.procs[i].firstResponse.value + ps0[i].burst &&
        o.procs[i].remaining == ps0[i].burst
  {
    DispatchesEachOnce(rule, ps0);
    var o := Schedule(rule, ps0);
    forall i | 0 <= i < |ps0|
      ensures o.procs[i].firstResponse.Some? && ps0[i].arrival <= o.procs[i].firstResponse.value &&
              o.procs[i] == Dispatched(ps0[i], o.procs[i].firstResponse.value)
    {
      assert i in o.owners;
      var k :| 0 <= k < |o.owners| && o.owners[k] == i;
    }
  }

  /** The timeline is sorted by start, its slices do not overlap, and none starts before time 0. */
  lemma TimelineOrdered(rule: Rule, ps0: seq<Process>)
    requires Admissible(ps0) && AllEligible(rule, ps0)
    ensures Ordered(Schedule(rule, ps0).timeline)
  {
    FinalInv(rule, ps0);
  }

  /** The selection rule, read off the finished timeline: a process that
      was dispatched later but had already arrived when an earlier slice
      started lost to that slice's process under `rule` (worse key, or the
      same key and later in list order). */
  lemma SelectsBest(rule: Rule, ps0: seq<Process>)
    requires Admissible(ps0) && AllEligible(rule, ps0)
    ensures var o := Schedule(rule, ps0);
      |o.owners| == |o.timeline| == |ps0| && ValidIndices(o.owners, |ps0|) &&
      forall k, j :: 0 <= k < j < |ps0| && ps0[o.owners[j]].arrival <= o.timeline[k].start ==>
        Precedes(rule, ps0, o.owners[k], o.owners[j])
  {
    FinalInv(rule, ps0);
  }

  /** The idle skip: each slice starts as soon as the previous one ends, or
      else exactly at its own process's arrival, when none of the processes
      still to run had arrived any earlier. */
  lemma NeverIdlesWhileWaiting(rule: Rule, ps0: seq<Process>)
    requires Admissible(ps0) && AllEligible(rule, ps0)
    ensures var o := Schedule(rule, ps0);
      |o.owners| == |o.timeline| == |ps0| && ValidIndices(o.owners, |ps0|) &&
      forall k :: 0 <= k < |ps0| ==>
        o.timeline[k].start == PrevEnd(o.timeline, k) ||
        (o.timeline[k].start == ps0[o.owners[k]].arrival &&
         forall j :: k <= j < |ps0| ==> o.timeline[k].start <= ps0[o.owners[j]].arrival)
  {
    FinalInv(rule, ps0);
    var r := Run(rule, State(ps0, AllIndices(|ps0|), 0, [], []));
    var o := Schedule(rule, ps0);
    assert o == Outcome(r.procs, r.timeline, r.owners);
    var tl, owners := r.timeline, r.owners;
    assert Ordered(tl) && NoIdleBeforeLater(ps0, tl, owners);
    forall k | 0 <= k < |ps0| && tl[k].start != PrevEnd(tl, k)
      ensures tl[k].start == ps0[owners[k]].arrival
      ensures forall j :: k <= j < |ps0| ==> tl[k].start <= ps0[owners[j]].arrival
    {
      assert PrevEnd(tl, k) < tl[k].start;
      assert DispatchedAt(ps0, r.procs, tl, owners, k);
    }
  }

  /** SJF: among the processes that had arrived when a slice started, the
      one dispatched has the shortest burst, ties to the earliest in the list. */
  lemma SjfPicksShortestBurst(ps0: seq<Process>)
    requires Admissible(ps0)
    ensures var o := Schedule(ShortestBurst, ps0);
      |o.owners| == |o.timeline| == |ps0| && ValidIndices(o.owners, |ps0|) &&
      forall k, j :: 0 <= k < j < |ps0| && ps0[o.owners[j]].arrival <= o.timeline[k].start ==>
        var p, q := ps0[o.owners[k]], ps0[o.owners[j]];
        p.burst < q.burst || (p.burst == q.burst && o.owners[k] < o.owners[j])
  {
    SelectsBest(ShortestBurst, ps0);
  }

  /** Priority: the process dispatched has the highest priority among those
      that had arrived, ties to the earliest in the list. */
  lemma PriorityPicksHighest(ps0: seq<Process>)
    requires Admissible(ps0)
    ensures var o := Schedule(HighestPriority, ps0);
      |o.owners| == |o.timeline| == |ps0| && ValidIndices(o.owners, |ps0|) &&
      forall k, j :: 0 <= k < j < |ps0| && ps0[o.owners[j]].arrival <= o.timeline[k].start ==>
        var p, q := ps0[o.owners[k]], ps0[o.owners[j]];
        p.priority > q.priority || (p.priority == q.priority && o.owners[k] < o.owners[j])
  {
    SelectsBest(HighestPriority, ps0);
  }

  /** EDF and RM: the process dispatched has the earliest deadline among
      those that had arrived, ties to the earliest in the list. */
  lemma DeadlinePicksEarliest(ps0: seq<Process>)
    requires Admissible(ps0) && AllEligible(EarliestDeadline, ps0)
    ensures var o := Schedule(EarliestDeadline, ps0);
      |o.owners| == |o.timeline| == |ps0| && ValidIndices(o.owners, |ps0|) &&
      forall k, j :: 0 <= k < j < |ps0| && ps0[o.owners[j]].arrival <= o.timeline[k].start ==>
        var p, q := ps0[o.owners[k]], ps0[o.owners[j]];
        p.deadline.value < q.deadline.value ||
        (p.deadline.value == q.deadline.value && o.owners[k] < o.owners[j])
  {
    SelectsBest(EarliestDeadline, ps0);
  }

  // ---------------------------------------------------------------------
  // The policies as the program runs them, on an array of records.

  /** One iteration of the loop on the array: an idle skip, or the
      dispatch of the first best available process. */
  method Iterate(rule: Rule, a: array<Process>, pending: seq<nat>, clock: int, schedule: seq<Slice>,
                 ghost owners: seq<nat>)
    returns (pending': seq<nat>, clock': int, schedule': seq<Slice>, ghost owners': seq<nat>)
    requires Runnable(rule, State(a[..], pending, clock, schedule, owners)) && pending != []
    modifies a
    ensures State(a[..], pending', clock', schedule', owners')
         == Step(rule, State(old(a[..]), pending, clock, schedule, owners))
  {
    ghost var st := State(a[..], pending, clock, schedule, owners);
    var available := Available(rule, a[..], pending, clock);
    if available == [] {
      StepIdles(rule, st);
      pending', clock', schedule', owners' := pending, MinArrival(a[..], pending), schedule, owners;
    } else {
      var k := available[FirstBest(rule, a[..], available)];
      StepDispatches(rule, st, k);
      DispatchAt(a, k, clock);
      schedule' := schedule + [Slice(clock, a[k].completion.value, a[k].name)];
      clock' := a[k].completion.value;
      pending' := Remove(pending, k);
      owners' := owners + [k];
    }
  }

  /** The loop shared by the four policies: fills in the records of `a`
      and returns the timeline, exactly as `Schedule` describes. */
  method RunNonPreemptive(rule: Rule, a: array<Process>) returns (schedule: seq<Slice>)
    requires AllEligible(rule, a[..])
    modifies a
    ensures var o := Schedule(rule, old(a[..])); a[..] == o.procs && schedule == o.timeline
  {
    ghost var ps0 := a[..];
    ghost var owners: seq<nat> := [];
    var pending := AllIndices(a.Length);
    var clock := 0;
    schedule := [];
    while pending != []
      invariant Runnable(rule, State(a[..], pending, clock, schedule, owners))
      invariant Run(rule, State(a[..], pending, clock, schedule, owners))
             == Run(rule, State(ps0, AllIndices(|ps0|), 0, [], []))
      decreases |pending|, if Idle(rule, State(a[..], pending, clock, schedule, owners)) then 1 else 0
    {
      pending, clock, schedule, owners := Iterate(rule, a, pending, clock, schedule, owners);
    }
  }

  /** `sjf`: shortest burst first among the arrived processes. */
  method Sjf(a: array<Process>) returns (schedule: seq<Slice>)
    modifies a
    ensures var o := Schedule(ShortestBurst, old(a[..])); a[..] == o.procs && schedule == o.timeline
  {
    schedule := RunNonPreemptive(ShortestBurst, a);
  }

  /** `priority_scheduling`: highest priority first among the arrived processes. */
  method PriorityScheduling(a: array<Process>) returns (schedule: seq<Slice>)
    modifies a
    ensures var o := Schedule(HighestPriority, old(a[..])); a[..] == o.procs && schedule == o.timeline
  {
    schedule := RunNonPreemptive(HighestPriority, a);
  }

  /** `earliest_deadline_first`: earliest deadline first among the arrived
      processes that have one. Every process must carry a deadline. */
  method EarliestDeadlineFirst(a: array<Process>) returns (schedule: seq<Slice>)
    requires forall i :: 0 <= i < a.Length ==> a[i].deadline.Some?
    modifies a
    ensures var o := Schedule(EarliestDeadline, old(a[..])); a[..] == o.procs && schedule == o.timeline
  {
    schedule := RunNonPreemptive(EarliestDeadline, a);
  }

  /** `rate_monotonic`: the deadline stands in for the period, so the rule is
      the same as EDF's. Every process must carry a deadline. */
  method RateMonotonic(a: array<Process>) returns (schedule: seq<Slice>)
    requires forall i :: 0 <= i < a.Length ==> a[i].deadline.Some?
    modifies a
    ensures var o := Schedule(EarliestDeadline, old(a[..])); a[..] == o.procs && schedule == o.timeline
  {
    schedule := RunNonPreemptive(EarliestDeadline, a);
  }

  // ---------------------------------------------------------------------
  // A record without a deadline under EDF or RM.

  /** As written, EDF and RM skip a process with no deadline but still take
      it into `min(p.arrival_time for p in remaining_processes)`. Once such a
      process has arrived and nothing with a deadline is available, the idle
      skip moves the clock to no later than now, and nothing is available at
      the new time either: the loop never ends. */
  lemma MissingDeadlineStalls(ps: seq<Process>, pending: seq<nat>, clock: int, i: nat)
    requires ValidIndices(pending, |ps|) && i in pending
    requires ps[i].arrival <= clock && ps[i].deadline.None?
    requires Available(EarliestDeadline, ps, pending, clock) == []
    ensures pending != [] && MinArrival(ps, pending) <= clock
    ensures forall j :: j !in Available(EarliestDeadline, ps, pending, MinArrival(ps, pending))
  {
    var t := MinArrival(ps, pending);
    forall j | j in Available(EarliestDeadline, ps, pending, t)
      ensures j in Available(EarliestDeadline, ps, pending, clock)
    {
    }
  }

  /** The smallest such input: one process, arrived at time 0, with no
      deadline. The clock stays at 0 and the process is never run. */
  lemma MissingDeadlineExample()
    ensures var ps := [NewProcess("P1", 0, 1)];
      Available(EarliestDeadline, ps, [0], 0) == [] && MinArrival(ps, [0]) == 0
  {
    var ps := [NewProcess("P1", 0, 1)];
    assert !Eligible(EarliestDeadline, ps[0]);
    assert Filter(ps, [0][1..], EligibleBy(EarliestDeadline, 0)) == [];
  }

  /** `earliest_deadline_first` and `rate_monotonic` with the validation
      they need: a process set in which some record has no deadline is
      rejected before the clock moves, leaving the records untouched;
      otherwise the run is the one `Schedule` describes. */
  method DeadlineScheduleValidated(a: array<Process>) returns (schedule: Option<seq<Slice>>)
    modifies a
    ensures schedule.None? <==> exists i :: 0 <= i < a.Length && old(a[i]).deadline.None?
    ensures schedule.None? ==> a[..] == old(a[..])
    ensures schedule.Some? ==>
              var o := Schedule(EarliestDeadline, old(a[..])); a[..] == o.procs && schedule.value == o.timeline
  {
    var i := 0;
    while i < a.Length
      invariant 0 <= i <= a.Length
      invariant forall j :: 0 <= j < i ==> a[j].deadline.Some?
    {
      if a[i].deadline.None? {
        return None;
      }
      i := i + 1;
    }
    var timeline := RunNonPreemptive(EarliestDeadline, a);
    schedule := Some(timeline);
  }
}
