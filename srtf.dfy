/// `srtf`: shortest remaining time first, preemptive, one second per
/// iteration. Every iteration re-selects among all arrived pending processes
/// (the running one included), so a process earlier in the list with the
/// same remaining time preempts the running one.
module Srtf {
  import opened Processes
  import opened Selection

  /** The loop's variables: the records, `remaining_processes` (as indices,
      in list order), `current_time`, `current_process`, the `start_time`
      of the running slice, `schedule`, and, for the proofs, the record
      behind each entry of `schedule`. */
  datatype State = State(procs: seq<Process>, pending: seq<nat>, clock: int, current: Option<nat>,
                         segStart: int, timeline: seq<Slice>, owners: seq<nat>)

  /** What the loop needs to be well defined and to terminate: valid
      indices in list order, the running process still pending, and every
      pending process owing at least one second. */
  predicate Runnable(st: State) {
    ValidIndices(st.pending, |st.procs|) && Increasing(st.pending) &&
    (st.current.Some? ==> st.current.value in st.pending) &&
    forall k :: 0 <= k < |st.pending| ==> st.procs[st.pending[k]].remaining >= 1
  }

  /** The loop condition `remaining_processes or current_process`. */
  predicate Running(st: State) {
    st.pending != [] || st.current.Some?
  }

  /** Nothing runs and nothing pending has arrived: the clock skips ahead. */
  predicate IdleNow(st: State)
    requires Runnable(st)
  {
    st.current == None && Available(ShortestRemaining, st.procs, st.pending, st.clock) == []
  }

  /** `next_process`: the first arrived pending process with the least
      remaining time, or the running one when none has arrived. */
  function Next(st: State): (i: nat)
    requires Runnable(st) && Running(st) && !IdleNow(st)
    ensures i in st.pending && i < |st.procs|
  {
    var avail := Available(ShortestRemaining, st.procs, st.pending, st.clock);
    if avail != [] then
      var i := avail[FirstBest(ShortestRemaining, st.procs, avail)];
      assert i in avail;
      i
    else
      st.current.value
  }

  /** The context switch when `next` is not the running process: the
      running process's slice is closed at the current time, a new slice
      starts, and a process that never ran records its first response. */
  function Switch(st: State, next: nat): (r: State)
    requires next < |st.procs| && (st.current.Some? ==> st.current.value < |st.procs|)
    ensures r.current == Some(next) && r.pending == st.pending && |r.procs| == |st.procs|
  {
    if st.current == Some(next) then st
    else
      var tl := if st.current.Some? then st.timeline + [Slice(st.segStart, st.clock, st.procs[st.current.value].name)]
                else st.timeline;
      var ow := if st.current.Some? then st.owners + [st.current.value] else st.owners;
      var p := st.procs[next];
      var procs := if p.firstResponse == None then st.procs[next := p.(firstResponse := Some(st.clock))]
                   else st.procs;
      State(procs, st.pending, st.clock, Some(next), st.clock, tl, ow)
  }

  /** One second of the running process; when it finishes, its slice is
      closed, its completion recorded and it leaves the pending list. */
  function Tick(st: State): State
    requires st.current.Some? && st.current.value in st.pending && st.current.value < |st.procs|
  {
    var i := st.current.value;
    var p := st.procs[i].(remaining := st.procs[i].remaining - 1);
    var t := st.clock + 1;
    if p.remaining == 0 then
      State(st.procs[i := p.(completion := Some(t))], Remove(st.pending, i), t, None, st.segStart,
            st.timeline + [Slice(st.segStart, t, p.name)], st.owners + [i])
    else
      st.(procs := st.procs[i := p], clock := t)
  }

  /** One iteration of the loop. */
  function Step(st: State): State
    requires Runnable(st) && Running(st)
  {
    if IdleNow(st) then
      st.(clock := MinArrival(st.procs, st.pending))
    else
      var next := Next(st);
      Tick(Switch(st, next))
  }

  /** A switch changes no remaining time and no list. */
  lemma SwitchProgress(st: State, next: nat)
    requires Runnable(st) && next in st.pending && next < |st.procs|
    ensures var r := Switch(st, next);
      Runnable(r) && TotalRemaining(r.procs, r.pending) == TotalRemaining(st.procs, st.pending)
  {
    var r := Switch(st, next);
    assert forall i :: 0 <= i < |st.procs| ==> r.procs[i].remaining == st.procs[i].remaining;
    TotalRemainingSame(r.procs, st.procs, st.pending);
  }

  /** A tick takes exactly one second off the total remaining time. */
  lemma TickProgress(st: State)
    requires Runnable(st) && st.current.Some? && st.current.value < |st.procs|
    ensures var r := Tick(st);
      Runnable(r) && TotalRemaining(r.procs, r.pending) == TotalRemaining(st.procs, st.pending) - 1
  {
    var i := st.current.value;
    var p := st.procs[i].(remaining := st.procs[i].remaining - 1);
    assert p.remaining >= 0 by {
      var k :| 0 <= k < |st.pending| && st.pending[k] == i;
    }
    if p.remaining == 0 {
      var q := p.(completion := Some(st.clock + 1));
      var procs' := st.procs[i := q];
      assert Tick(st) == State(procs', Remove(st.pending, i), st.clock + 1, None, st.segStart,
                               st.timeline + [Slice(st.segStart, st.clock + 1, p.name)], st.owners + [i]);
      TotalRemainingUpdate(st.procs, st.pending, i, q);
      TotalRemainingRemove(procs', st.pending, i);
      RemoveIncreasing(st.pending, i);
      var rest := Remove(st.pending, i);
      forall k | 0 <= k < |rest|
        ensures procs'[rest[k]].remaining >= 1
      {
        assert rest[k] in rest;
        var j :| 0 <= j < |st.pending| && st.pending[j] == rest[k];
      }
    } else {
      assert Tick(st) == st.(procs := st.procs[i := p], clock := st.clock + 1);
      TotalRemainingUpdate(st.procs, st.pending, i, p);
      forall k | 0 <= k < |st.pending|
        ensures st.procs[i := p][st.pending[k]].remaining >= 1
      {
      }
    }
  }

  /** An idle skip changes only the clock, after which some process has arrived. */
  lemma IdleProgress(st: State)
    requires Runnable(st) && Running(st) && IdleNow(st)
    ensures var r := Step(st); r.procs == st.procs && r.pending == st.pending && Runnable(r) && !IdleNow(r)
  {
    IdleSkipMakesAvailable(ShortestRemaining, st.procs, st.pending);
  }

  /** A busy iteration: a possible switch, then one tick. */
  lemma BusyProgress(st: State)
    requires Runnable(st) && Running(st) && !IdleNow(st)
    ensures var r := Step(st);
      Runnable(r) && TotalRemaining(r.procs, r.pending) == TotalRemaining(st.procs, st.pending) - 1
  {
    var next := Next(st);
    SwitchProgress(st, next);
    TickProgress(Switch(st, next));
  }

  /** Every iteration keeps the loop well defined and either takes one
      second off the total remaining time or is an idle skip after which
      some process has arrived. */
  lemma StepProgress(st: State)
    requires Runnable(st) && Running(st)
    ensures var r := Step(st);
      Runnable(r) && 0 <= TotalRemaining(r.procs, r.pending) &&
      (TotalRemaining(r.procs, r.pending) < TotalRemaining(st.procs, st.pending) ||
       (TotalRemaining(r.procs, r.pending) == TotalRemaining(st.procs, st.pending) && IdleNow(st) && !IdleNow(r)))
  {
    var r := Step(st);
    if IdleNow(st) {
      IdleProgress(st);
    } else {
      BusyProgress(st);
    }
    TotalRemainingBound(r.procs, r.pending);
  }

  /** The loop run to the end: nothing pending, nothing running. */
  function Run(st: State): (r: State)
    requires Runnable(st)
    ensures !Running(r)
    decreases TotalRemaining(st.procs, st.pending), if IdleNow(st) then 1 else 0
  {
    if !Running(st) then st
    else
      StepProgress(st);
      Run(Step(st))
  }

  function Initial(ps0: seq<Process>): State {
    State(ps0, AllIndices(|ps0|), 0, None, 0, [], [])
  }

  function Schedule(ps0: seq<Process>): Outcome
    requires Admissible(ps0)
  {
    var r := Run(Initial(ps0));
    Outcome(r.procs, r.timeline, r.owners)
  }

  // ---------------------------------------------------------------------
  // The invariant of the loop, relative to the records it started from. It
  // holds between iterations ("strict") and, in a weaker form, right after
  // a switch, before the tick.

  /** The processor time record `i` has had: its closed slices, plus the
      open slice if it is running. */
  function Used(st: State, i: nat): int
    requires |st.timeline| == |st.owners|
  {
    Busy(st.timeline, st.owners, i) + (if st.current == Some(i) then st.clock - st.segStart else 0)
  }

  /** A record's inputs are untouched, `start_time` is never written, and it
      is completed, with nothing remaining, exactly when it left the pending list. */
  predicate RecordOk(p0: Process, p: Process, pending: bool) {
    SameInputs(p0, p) && p.start == None && p.remaining <= p0.burst &&
    (pending <==> p.completion == None) && (!pending ==> p.remaining == 0)
  }

  /** The first response is recorded once the process has been dispatched,
      no earlier than its arrival, and leaves room for the time it has run
      before the current time (or its completion). */
  predicate ResponseOk(p0: Process, p: Process, running: bool, clock: int, strict: bool) {
    (if strict then (p.firstResponse.Some? <==> p.remaining < p0.burst) && (running ==> p.remaining < p0.burst)
     else (p.firstResponse.Some? <==> p.remaining < p0.burst || running)) &&
    (p.firstResponse.Some? ==>
       p0.arrival <= p.firstResponse.value &&
       p.firstResponse.value + (p0.burst - p.remaining) <= (if p.completion.Some? then p.completion.value else clock))
  }

  ghost predicate Records(ps0: seq<Process>, st: State) {
    |st.procs| == |ps0| &&
    forall i :: 0 <= i < |ps0| ==> RecordOk(ps0[i], st.procs[i], i in st.pending)
  }

  ghost predicate Accounted(ps0: seq<Process>, st: State) {
    |st.timeline| == |st.owners| && |st.procs| == |ps0| &&
    forall i :: 0 <= i < |ps0| ==> Used(st, i) == ps0[i].burst - st.procs[i].remaining
  }

  ghost predicate Responses(ps0: seq<Process>, st: State, strict: bool) {
    |st.procs| == |ps0| &&
    forall i :: 0 <= i < |ps0| ==> ResponseOk(ps0[i], st.procs[i], st.current == Some(i), st.clock, strict)
  }

  /** The closed slices are ordered and labelled; the open slice starts
      after them and (between iterations) has run at least one second. */
  ghost predicate TimelineOk(ps0: seq<Process>, st: State, strict: bool) {
    Labelled(ps0, st.timeline, st.owners) && Ordered(st.timeline) &&
    (st.current.Some? ==>
       LastEnd(st.timeline) <= st.segStart && (if strict then st.segStart < st.clock else st.segStart <= st.clock)) &&
    (st.current.None? ==> LastEnd(st.timeline) <= st.clock)
  }

  ghost predicate Inv(ps0: seq<Process>, st: State) {
    Admissible(ps0) && Runnable(st) && Records(ps0, st) && Accounted(ps0, st) &&
    Responses(ps0, st, true) && TimelineOk(ps0, st, true)
  }

  ghost predicate MidInv(ps0: seq<Process>, st: State) {
    Admissible(ps0) && Runnable(st) && Records(ps0, st) && Accounted(ps0, st) &&
    Responses(ps0, st, false) && TimelineOk(ps0, st, false)
  }

  lemma InitialInv(ps0: seq<Process>)
    requires Admissible(ps0)
    ensures Inv(ps0, Initial(ps0))
  {
    var st := Initial(ps0);
    forall i | 0 <= i < |ps0|
      ensures Used(st, i) == ps0[i].burst - st.procs[i].remaining
    {
    }
  }

  // The idle skip.

  lemma IdleKeepsInv(ps0: seq<Process>, st: State)
    requires Inv(ps0, st) && Running(st) && IdleNow(st)
    ensures Inv(ps0, Step(st))
  {
    var m := MinArrival(st.procs, st.pending);
    var r := Step(st);
    assert r == st.(clock := m);
    IdleProgress(st);
    var w :| w in st.pending && st.procs[w].arrival == m;
    assert w !in Available(ShortestRemaining, st.procs, st.pending, st.clock);
    assert st.clock <= m;
    forall i | 0 <= i < |ps0|
      ensures Used(r, i) == Used(st, i)
      ensures ResponseOk(ps0[i], r.procs[i], r.current == Some(i), r.clock, true)
    {
      assert ResponseOk(ps0[i], st.procs[i], st.current == Some(i), st.clock, true);
    }
  }

  // The switch.

  lemma SwitchRecords(ps0: seq<Process>, st: State, next: nat)
    requires Records(ps0, st) && next < |st.procs| && (st.current.Some? ==> st.current.value < |st.procs|)
    ensures Records(ps0, Switch(st, next))
  {
    var r := Switch(st, next);
    forall i | 0 <= i < |ps0|
      ensures RecordOk(ps0[i], r.procs[i], i in r.pending)
    {
      assert RecordOk(ps0[i], st.procs[i], i in st.pending);
    }
  }

  lemma SwitchAccounted(ps0: seq<Process>, st: State, next: nat)
    requires Accounted(ps0, st) && next < |st.procs| && (st.current.Some? ==> st.current.value < |st.procs|)
    ensures Accounted(ps0, Switch(st, next))
  {
    var r := Switch(st, next);
    if st.current != Some(next) {
      forall i | 0 <= i < |ps0|
        ensures Used(r, i) == ps0[i].burst - r.procs[i].remaining
      {
        assert Used(st, i) == ps0[i].burst - st.procs[i].remaining;
        if st.current.Some? {
          var c := st.current.value;
          BusyAppend(st.timeline, st.owners, Slice(st.segStart, st.clock, st.procs[c].name), c, i);
        }
      }
    }
  }

  lemma SwitchResponses(ps0: seq<Process>, st: State, next: nat)
    requires Records(ps0, st) && Responses(ps0, st, true)
    requires next in st.pending && next < |st.procs| && (st.current.Some? ==> st.current.value < |st.procs|)
    requires st.current != Some(next) ==> st.procs[next].arrival <= st.clock
    ensures Responses(ps0, Switch(st, next), false)
  {
    var r := Switch(st, next);
    forall i | 0 <= i < |ps0|
      ensures ResponseOk(ps0[i], r.procs[i], r.current == Some(i), r.clock, false)
    {
      assert RecordOk(ps0[i], st.procs[i], i in st.pending);
      assert ResponseOk(ps0[i], st.procs[i], st.current == Some(i), st.clock, true);
    }
  }

  lemma SwitchTimeline(ps0: seq<Process>, st: State, next: nat)
    requires Records(ps0, st) && TimelineOk(ps0, st, true)
    requires next < |st.procs| && (st.current.Some? ==> st.current.value < |st.procs|)
    ensures TimelineOk(ps0, Switch(st, next), false)
  {
    var r := Switch(st, next);
    if st.current != Some(next) && st.current.Some? {
      var c := st.current.value;
      var sl := Slice(st.segStart, st.clock, st.procs[c].name);
      assert RecordOk(ps0[c], st.procs[c], c in st.pending);
      OrderedAppend(st.timeline, sl);
      LabelledAppend(ps0, st.timeline, st.owners, sl, c);
    }
  }

  // The tick.

  lemma TickRecords(ps0: seq<Process>, st: State)
    requires Records(ps0, st) && Runnable(st) && st.current.Some? && st.current.value < |st.procs|
    ensures Records(ps0, Tick(st))
  {
    var r := Tick(st);
    var i := st.current.value;
    RemoveIncreasing(st.pending, i);
    forall j | 0 <= j < |ps0|
      ensures RecordOk(ps0[j], r.procs[j], j in r.pending)
    {
      assert RecordOk(ps0[j], st.procs[j], j in st.pending);
    }
  }

  lemma TickAccounted(ps0: seq<Process>, st: State)
    requires Accounted(ps0, st) && Runnable(st) && st.current.Some? && st.current.value < |st.procs|
    ensures Accounted(ps0, Tick(st))
  {
    var r := Tick(st);
    var i := st.current.value;
    forall j | 0 <= j < |ps0|
      ensures Used(r, j) == ps0[j].burst - r.procs[j].remaining
    {
      assert Used(st, j) == ps0[j].burst - st.procs[j].remaining;
      if st.procs[i].remaining == 1 {
        BusyAppend(st.timeline, st.owners, Slice(st.segStart, st.clock + 1, st.procs[i].name), i, j);
      }
    }
  }

  lemma TickResponses(ps0: seq<Process>, st: State)
    requires Records(ps0, st) && Responses(ps0, st, false)
    requires Runnable(st) && st.current.Some? && st.current.value < |st.procs|
    ensures Responses(ps0, Tick(st), true)
  {
    var r := Tick(st);
    var i := st.current.value;
    forall j | 0 <= j < |ps0|
      ensures ResponseOk(ps0[j], r.procs[j], r.current == Some(j), r.clock, true)
    {
      assert RecordOk(ps0[j], st.procs[j], j in st.pending);
      assert ResponseOk(ps0[j], st.procs[j], st.current == Some(j), st.clock, false);
    }
  }

  lemma TickTimeline(ps0: seq<Process>, st: State)
    requires Records(ps0, st) && TimelineOk(ps0, st, false)
    requires Runnable(st) && st.current.Some? && st.current.value < |st.procs|
    ensures TimelineOk(ps0, Tick(st), true)
  {
    var i := st.current.value;
    if st.procs[i].remaining == 1 {
      var sl := Slice(st.segStart, st.clock + 1, st.procs[i].name);
      assert RecordOk(ps0[i], st.procs[i], i in st.pending);
      OrderedAppend(st.timeline, sl);
      LabelledAppend(ps0, st.timeline, st.owners, sl, i);
    }
  }

  /** A process the loop switches to has arrived. */
  lemma NextArrived(st: State)
    requires Runnable(st) && Running(st) && !IdleNow(st)
    ensures st.current != Some(Next(st)) ==> st.procs[Next(st)].arrival <= st.clock
  {
    var avail := Available(ShortestRemaining, st.procs, st.pending, st.clock);
    if avail != [] {
      assert Next(st) in avail;
    }
  }

  lemma BusyKeepsInv(ps0: seq<Process>, st: State)
    requires Inv(ps0, st) && Running(st) && !IdleNow(st)
    ensures Inv(ps0, Step(st))
  {
    var next := Next(st);
    NextArrived(st);
    var mid := Switch(st, next);
    SwitchProgress(st, next);
    SwitchRecords(ps0, st, next);
    SwitchAccounted(ps0, st, next);
    SwitchResponses(ps0, st, next);
    SwitchTimeline(ps0, st, next);
    assert MidInv(ps0, mid);
    TickProgress(mid);
    TickRecords(ps0, mid);
    TickAccounted(ps0, mid);
    TickResponses(ps0, mid);
    TickTimeline(ps0, mid);
    assert Step(st) == Tick(mid);
  }

  lemma {:induction false} RunKeepsInv(ps0: seq<Process>, st: State)
    requires Inv(ps0, st)
    ensures Inv(ps0, Run(st))
    decreases TotalRemaining(st.procs, st.pending), if IdleNow(st) then 1 else 0
  {
    if Running(st) {
      StepProgress(st);
      if IdleNow(st) {
        IdleKeepsInv(ps0, st);
      } else {
        BusyKeepsInv(ps0, st);
      }
      RunKeepsInv(ps0, Step(st));
    }
  }

  /** The invariant at the end of the run, with nothing pending or running. */
  lemma FinalInv(ps0: seq<Process>)
    requires Admissible(ps0)
    ensures var r := Run(Initial(ps0)); Inv(ps0, r) && r.pending == [] && r.current == None
  {
    InitialInv(ps0);
    RunKeepsInv(ps0, Initial(ps0));
  }

  // ---------------------------------------------------------------------
  // What every SRTF run guarantees.

  /** Every record ends completed with nothing remaining; `start_time` is
      never written; the first response is no earlier than the arrival and
      the completion leaves room for the whole burst after it. */
  lemma CompletesEveryProcess(ps0: seq<Process>)
    requires Admissible(ps0)
    ensures var o := Schedule(ps0);
      AllCompleted(ps0, o.procs) &&
      forall i :: 0 <= i < |ps0| ==> o.procs[i].remaining == 0 && o.procs[i].start == None
  {
    FinalInv(ps0);
    var r := Run(Initial(ps0));
    var o := Schedule(ps0);
    assert o == Outcome(r.procs, r.timeline, r.owners);
    forall i | 0 <= i < |ps0|
      ensures SameInputs(ps0[i], o.procs[i]) && o.procs[i].completion.Some? && o.procs[i].firstResponse.Some?
      ensures ps0[i].arrival <= o.procs[i].firstResponse.value
      ensures o.procs[i].firstResponse.value + ps0[i].burst <= o.procs[i].completion.value
      ensures o.procs[i].remaining == 0 && o.procs[i].start == None
    {
      assert RecordOk(ps0[i], r.procs[i], i in r.pending);
      assert ResponseOk(ps0[i], r.procs[i], r.current == Some(i), r.clock, true);
    }
  }

  /** The slices of each process add up to exactly its burst. */
  lemma BusyEqualsBurst(ps0: seq<Process>)
    requires Admissible(ps0)
    ensures var o := Schedule(ps0);
      |o.timeline| == |o.owners| &&
      forall i :: 0 <= i < |ps0| ==> Busy(o.timeline, o.owners, i) == ps0[i].burst
  {
    FinalInv(ps0);
    var r := Run(Initial(ps0));
    var o := Schedule(ps0);
    assert o == Outcome(r.procs, r.timeline, r.owners);
    forall i | 0 <= i < |ps0|
      ensures Busy(o.timeline, o.owners, i) == ps0[i].burst
    {
      assert RecordOk(ps0[i], r.procs[i], i in r.pending);
      assert Used(r, i) == ps0[i].burst - r.procs[i].remaining;
    }
  }

  /** The timeline is sorted by start, its slices are non-empty and do not
      overlap, none starts before time 0, and each carries its owner's name. */
  lemma TimelineOrdered(ps0: seq<Process>)
    requires Admissible(ps0)
    ensures var o := Schedule(ps0); Ordered(o.timeline) && Labelled(ps0, o.timeline, o.owners)
  {
    FinalInv(ps0);
  }

  /** A switch to a process that is not running gives it the current time
      as first response if it has none, and changes nothing else in any record. */
  lemma SwitchFields(st: State, next: nat)
    requires next < |st.procs| && (st.current.Some? ==> st.current.value < |st.procs|)
    ensures var r := Switch(st, next);
      |r.procs| == |st.procs| && r.clock == st.clock &&
      (forall j :: 0 <= j < |st.procs| && j != next ==> r.procs[j] == st.procs[j]) &&
      r.procs[next] == st.procs[next].(firstResponse :=
        if st.current != Some(next) && st.procs[next].firstResponse.None? then Some(st.clock)
        else st.procs[next].firstResponse)
  {
  }

  /** A tick takes one second off the running record, records its
      completion at the new time when that reaches zero, and touches no
      other record. */
  lemma TickFields(st: State)
    requires st.current.Some? && st.current.value in st.pending && st.current.value < |st.procs|
    ensures var r, i := Tick(st), st.current.value;
      |r.procs| == |st.procs| && r.clock == st.clock + 1 &&
      (forall j :: 0 <= j < |st.procs| && j != i ==> r.procs[j] == st.procs[j]) &&
      r.procs[i] == st.procs[i].(remaining := st.procs[i].remaining - 1,
                                 completion := if st.procs[i].remaining == 1 then Some(r.clock)
                                               else st.procs[i].completion)
  {
  }

  /** The process chosen to run precedes, by least remaining time and then
      list order, every other arrived pending process. */
  lemma NextPrecedes(st: State)
    requires Runnable(st) && Running(st) && !IdleNow(st)
    ensures var i := Next(st);
      forall q :: q in st.pending && q != i && st.procs[q].arrival <= st.clock ==>
        Precedes(ShortestRemaining, st.procs, i, q)
  {
    var i := Next(st);
    var avail := Available(ShortestRemaining, st.procs, st.pending, st.clock);
    forall q | q in st.pending && q != i && st.procs[q].arrival <= st.clock
      ensures Precedes(ShortestRemaining, st.procs, i, q)
    {
      assert q in avail;
      FirstBestPrecedes(ShortestRemaining, st.procs, avail, q);
    }
  }

  /** Each busy iteration runs, for one second, the arrived pending process
      with the least remaining time, ties to the earliest in the list (or
      keeps the running one when nothing pending has arrived); no other
      remaining time changes and the clock advances by one second. */
  lemma TickRunsShortestRemaining(st: State)
    requires Runnable(st) && Running(st) && !IdleNow(st)
    ensures var i, r := Next(st), Step(st);
      |r.procs| == |st.procs| && r.clock == st.clock + 1 &&
      r.procs[i].remaining == st.procs[i].remaining - 1 &&
      (forall j :: 0 <= j < |st.procs| && j != i ==> r.procs[j].remaining == st.procs[j].remaining) &&
      (st.procs[i].arrival <= st.clock || st.current == Some(i)) &&
      forall q :: q in st.pending && q != i && st.procs[q].arrival <= st.clock ==>
        Precedes(ShortestRemaining, st.procs, i, q)
  {
    var i := Next(st);
    NextArrived(st);
    NextPrecedes(st);
    var mid := Switch(st, i);
    assert Step(st) == Tick(mid);
    SwitchFields(st, i);
    TickFields(mid);
  }

  /** During a run, an iteration gives a process a first response exactly
      when it runs that process and the process had none, and then the first
      response is the time at which the iteration starts; a first response,
      once recorded, never changes. */
  lemma FirstResponseRecordedOnce(ps0: seq<Process>, st: State, i: nat)
    requires Inv(ps0, st) && Running(st) && i < |st.procs|
    ensures var r := Step(st);
      |r.procs| == |st.procs| &&
      (st.procs[i].firstResponse.None? && r.procs[i].firstResponse.Some? <==>
       !IdleNow(st) && i == Next(st) && st.procs[i].firstResponse.None?) &&
      (st.procs[i].firstResponse.None? && r.procs[i].firstResponse.Some? ==> r.procs[i].firstResponse.value == st.clock) &&
      (st.procs[i].firstResponse.Some? ==> r.procs[i].firstResponse == st.procs[i].firstResponse)
  {
    if !IdleNow(st) {
      var next := Next(st);
      var mid := Switch(st, next);
      StepBusy(st);
      SwitchFields(st, next);
      TickFields(mid);
      if st.current == Some(next) {
        assert ResponseOk(ps0[next], st.procs[next], true, st.clock, true);
      }
    }
  }

  /** During a run, an iteration records a completion for a process
      exactly when it takes that process's remaining time to zero, and the
      completion it records is the new clock. */
  lemma CompletesWhenFinished(ps0: seq<Process>, st: State, i: nat)
    requires Inv(ps0, st) && Running(st) && i < |st.procs|
    ensures var r := Step(st);
      |r.procs| == |st.procs| &&
      (st.procs[i].completion.None? && r.procs[i].completion.Some? <==>
       st.procs[i].remaining > 0 && r.procs[i].remaining == 0) &&
      (st.procs[i].completion.None? && r.procs[i].completion.Some? ==> r.procs[i].completion.value == r.clock)
  {
    assert RecordOk(ps0[i], st.procs[i], i in st.pending);
    if !IdleNow(st) {
      var mid := Switch(st, Next(st));
      assert Step(st) == Tick(mid);
      SwitchFields(st, Next(st));
      TickFields(mid);
      if mid.current == Some(i) {
        assert st.procs[i].remaining >= 1 by {
          var k :| 0 <= k < |st.pending| && st.pending[k] == i;
        }
      }
    }
  }

  // ---------------------------------------------------------------------
  // The policy as the program runs it, on an array of records.

  /** The context switch on the array: close the running slice, open one
      for `next`, and record its first response if it never ran. */
  method ContextSwitch(a: array<Process>, next: nat, clock: int, current: Option<nat>, segStart: int,
                       schedule: seq<Slice>, ghost owners: seq<nat>)
    returns (current': Option<nat>, segStart': int, schedule': seq<Slice>, ghost owners': seq<nat>)
    requires next < a.Length && (current.Some? ==> current.value < a.Length)
    modifies a
    ensures var st := State(old(a[..]), [], clock, current, segStart, schedule, owners);
            State(a[..], [], clock, current', segStart', schedule', owners') == Switch(st, next)
  {
    current', segStart', schedule', owners' := current, segStart, schedule, owners;
    if current != Some(next) {
      if current.Some? {
        schedule' := schedule + [Slice(segStart, clock, a[current.value].name)];
        owners' := owners + [current.value];
      }
      current' := Some(next);
      segStart' := clock;
      if a[next].firstResponse == None {
        Update(a, next, a[next].(firstResponse := Some(clock)));
      }
    }
  }

  /** One second of the running process on the array. */
  method RunOneSecond(a: array<Process>, pending: seq<nat>, clock: int, current: Option<nat>, segStart: int,
                      schedule: seq<Slice>, ghost owners: seq<nat>)
    returns (pending': seq<nat>, clock': int, current': Option<nat>, schedule': seq<Slice>, ghost owners': seq<nat>)
    requires current.Some? && current.value in pending && current.value < a.Length
    modifies a
    ensures var st := State(old(a[..]), pending, clock, current, segStart, schedule, owners);
            State(a[..], pending', clock', current', segStart, schedule', owners') == Tick(st)
  {
    var i := current.value;
    pending', current', schedule', owners' := pending, current, schedule, owners;
    Update(a, i, a[i].(remaining := a[i].remaining - 1));
    clock' := clock + 1;
    if a[i].remaining == 0 {
      schedule' := schedule + [Slice(segStart, clock', a[i].name)];
      owners' := owners + [i];
      Update(a, i, a[i].(completion := Some(clock')));
      pending' := Remove(pending, i);
      current' := None;
    }
  }

  /** A busy iteration is a switch to the chosen process followed by a tick. */
  lemma StepBusy(st: State)
    requires Runnable(st) && Running(st) && !IdleNow(st)
    ensures var mid := Switch(st, Next(st));
      mid.current == Some(Next(st)) && Next(st) in mid.pending && Next(st) < |mid.procs| &&
      Step(st) == Tick(mid)
  {
  }

  /** The busy branch of the loop body on the array: pick the next process,
      switch to it if it is not running, and run it for one second. */
  method RunNext(a: array<Process>, available: seq<nat>, pending: seq<nat>, clock: int, current: Option<nat>,
                 segStart: int, schedule: seq<Slice>, ghost owners: seq<nat>)
    returns (pending': seq<nat>, clock': int, current': Option<nat>, segStart': int,
             schedule': seq<Slice>, ghost owners': seq<nat>)
    requires var st := State(a[..], pending, clock, current, segStart, schedule, owners);
             Runnable(st) && Running(st) && !IdleNow(st) &&
             available == Available(ShortestRemaining, a[..], pending, clock)
    modifies a
    ensures var st := State(old(a[..]), pending, clock, current, segStart, schedule, owners);
            State(a[..], pending', clock', current', segStart', schedule', owners') == Step(st)
  {
    ghost var st := State(a[..], pending, clock, current, segStart, schedule, owners);
    var next := if available != [] then available[FirstBest(ShortestRemaining, a[..], available)]
                else current.value;
    assert next == Next(st);
    StepBusy(st);
    current', segStart', schedule', owners' := ContextSwitch(a, next, clock, current, segStart, schedule, owners);
    ghost var mid := Switch(st, next);
    assert State(a[..], pending, clock, current', segStart', schedule', owners') == mid;
    pending', clock', current', schedule', owners' := RunOneSecond(a, pending, clock, current', segStart', schedule', owners');
  }

  /** One pass of the loop body on the array: the idle skip, or a context
      switch to the chosen process followed by one second of it. */
  method Iterate(a: array<Process>, pending: seq<nat>, clock: int, current: Option<nat>, segStart: int,
                 schedule: seq<Slice>, ghost owners: seq<nat>)
    returns (pending': seq<nat>, clock': int, current': Option<nat>, segStart': int,
             schedule': seq<Slice>, ghost owners': seq<nat>)
    requires var st := State(a[..], pending, clock, current, segStart, schedule, owners);
             Runnable(st) && Running(st)
    modifies a
    ensures var st := State(old(a[..]), pending, clock, current, segStart, schedule, owners);
            State(a[..], pending', clock', current', segStart', schedule', owners') == Step(st)
  {
    var available := Available(ShortestRemaining, a[..], pending, clock);
    if available == [] && current == None {
      pending', clock', current', segStart', schedule', owners' :=
        pending, MinArrival(a[..], pending), current, segStart, schedule, owners;
    } else {
      pending', clock', current', segStart', schedule', owners' :=
        RunNext(a, available, pending, clock, current, segStart, schedule, owners);
    }
  }

  /** `srtf`: fills in the records of `a` and returns the timeline, exactly
      as `Schedule` describes. */
  method Srtf(a: array<Process>) returns (schedule: seq<Slice>)
    requires Admissible(a[..])
    modifies a
    ensures var o := Schedule(old(a[..])); a[..] == o.procs && schedule == o.timeline
  {
    ghost var ps0 := a[..];
    ghost var owners: seq<nat> := [];
    var pending := AllIndices(a.Length);
    var clock := 0;
    var current: Option<nat> := None;
    var segStart := 0;
    schedule := [];
    while pending != [] || current.Some?
      invariant Runnable(State(a[..], pending, clock, current, segStart, schedule, owners))
      invariant Run(State(a[..], pending, clock, current, segStart, schedule, owners)) == Run(Initial(ps0))
      decreases TotalRemaining(a[..], pending),
                if IdleNow(State(a[..], pending, clock, current, segStart, schedule, owners)) then 1 else 0
    {
      ghost var st := State(a[..], pending, clock, current, segStart, schedule, owners);
      StepProgress(st);
      pending, clock, current, segStart, schedule, owners := Iterate(a, pending, clock, current, segStart, schedule, owners);
    }
  }
}
