/// `round_robin`: preemptive, a FIFO ready queue and a fixed quantum. Each
/// pass admits the arrived processes (in list order), runs the head of the
/// queue for at most one quantum, admits what arrived meanwhile, and only
/// then puts the preempted process back at the end of the queue.
module RoundRobin {
  import opened Processes
  import opened Selection

  /** The loop's variables: the records, `remaining_processes` (the ones not
      yet admitted, as indices in list order), `ready_queue`, `current_time`,
      `schedule`, and, for the proofs, the record behind each entry of `schedule`. */
  datatype State = State(procs: seq<Process>, waiting: seq<nat>, queue: seq<nat>, clock: int,
                         timeline: seq<Slice>, owners: seq<nat>)

  /** What the loop needs to be well defined and to terminate: valid
      indices, the not-yet-admitted list in list order, no record queued
      twice or both queued and waiting, no negative remaining time, and
      every queued or waiting record owing at least one second. */
  predicate Runnable(st: State) {
    ValidIndices(st.waiting, |st.procs|) && Increasing(st.waiting) &&
    ValidIndices(st.queue, |st.procs|) && Distinct(st.queue) &&
    (forall i :: i in st.waiting ==> i !in st.queue) &&
    (forall i :: 0 <= i < |st.procs| ==> st.procs[i].remaining >= 0) &&
    (forall i :: i in st.queue ==> i < |st.procs| && st.procs[i].remaining >= 1) &&
    (forall i :: i in st.waiting ==> i < |st.procs| && st.procs[i].remaining >= 1)
  }

  /** The loop condition `remaining_processes or ready_queue`. */
  predicate Running(st: State) {
    st.waiting != [] || st.queue != []
  }

  /** The processes that have arrived by time `t` move, in list order, from
      the not-yet-admitted list to the back of the ready queue. */
  function Admit(st: State, t: int): State
    requires ValidIndices(st.waiting, |st.procs|)
  {
    st.(queue := st.queue + Filter(st.procs, st.waiting, ArrivedBy(t)),
        waiting := Filter(st.procs, st.waiting, ArrivesAfter(t)))
  }

  /** Runs that do not share two records in one list. */
  lemma DistinctAppend(s: seq<nat>, t: seq<nat>)
    requires Distinct(s) && Increasing(t) && forall i :: i in t ==> i !in s
    ensures Distinct(s + t)
  {
    var u := s + t;
    forall j, k | 0 <= j < k < |u|
      ensures u[j] != u[k]
    {
      if j < |s| && k >= |s| {
        assert u[k] == t[k - |s|] && u[k] in t;
      }
    }
  }

  /** Admission moves exactly the arrived processes, keeps both lists free
      of repeats and of each other, and keeps the not-yet-admitted list in
      list order. */
  lemma AdmitLists(st: State, t: int)
    requires ValidIndices(st.waiting, |st.procs|) && Increasing(st.waiting) && Distinct(st.queue)
    requires forall i :: i in st.waiting ==> i !in st.queue
    ensures var r := Admit(st, t);
      Increasing(r.waiting) && Distinct(r.queue) && (forall i :: i in r.waiting ==> i !in r.queue) &&
      (forall i :: i in r.waiting <==> i in st.waiting && st.procs[i].arrival > t) &&
      (forall i :: i in r.queue <==> i in st.queue || (i in st.waiting && st.procs[i].arrival <= t))
  {
    var arrivals := Filter(st.procs, st.waiting, ArrivedBy(t));
    FilterIncreasing(st.procs, st.waiting, ArrivedBy(t));
    FilterIncreasing(st.procs, st.waiting, ArrivesAfter(t));
    DistinctAppend(st.queue, arrivals);
    assert forall i :: i in Admit(st, t).queue <==> i in st.queue || i in arrivals;
  }

  /** Admission keeps the loop well defined, keeps the records, the clock
      and the timeline, loses no process and queues only arrived ones. */
  lemma AdmitFacts(st: State, t: int)
    requires Runnable(st)
    ensures var r := Admit(st, t);
      Runnable(r) && r.procs == st.procs && r.clock == st.clock &&
      r.timeline == st.timeline && r.owners == st.owners &&
      (Running(r) <==> Running(st)) &&
      (forall i :: i in r.waiting <==> i in st.waiting && st.procs[i].arrival > t) &&
      (forall i :: i in r.queue <==> i in st.queue || (i in st.waiting && st.procs[i].arrival <= t))
  {
    AdmitLists(st, t);
    var r := Admit(st, t);
    if st.waiting != [] {
      assert st.waiting[0] in st.waiting;
    }
    if st.queue != [] {
      assert st.queue[0] in r.queue;
    }
  }

  /** Nothing is ready even after admission: the clock skips ahead. */
  predicate IdleNow(st: State)
    requires Runnable(st)
  {
    Admit(st, st.clock).queue == []
  }

  /** `min(quantum, remaining_time)`. */
  function Execution(quantum: int, remaining: int): int {
    if quantum <= remaining then quantum else remaining
  }

  /** Pop the head of the queue, record its first response if unset, and
      run it for one quantum or what it still needs, whichever is less. */
  function RunHead(st: State, quantum: int): State
    requires Runnable(st) && st.queue != [] && quantum >= 1
  {
    var i := st.queue[0];
    assert i in st.queue;
    var p := st.procs[i];
    var exec := Execution(quantum, p.remaining);
    var t := st.clock + exec;
    var p' := p.(firstResponse := if p.firstResponse == None then Some(st.clock) else p.firstResponse,
                 remaining := p.remaining - exec);
    State(st.procs[i := p'], st.waiting, st.queue[1..], t,
          st.timeline + [Slice(st.clock, t, p.name)], st.owners + [i])
  }

  /** Back to the end of the queue if time remains, otherwise completed now. */
  function Finish(st: State, i: nat): State
    requires i < |st.procs|
  {
    if st.procs[i].remaining > 0 then st.(queue := st.queue + [i])
    else st.(procs := st.procs[i := st.procs[i].(completion := Some(st.clock))])
  }

  /** Run the head, admit the processes that arrived meanwhile, and only
      then re-queue the head or record its completion. */
  function Dispatch(st: State, quantum: int): State
    requires Runnable(st) && st.queue != [] && quantum >= 1
  {
    var ran := RunHead(st, quantum);
    AdmitFacts(ran, ran.clock);
    Finish(Admit(ran, ran.clock), st.queue[0])
  }

  /** One pass of the loop. */
  function Step(st: State, quantum: int): State
    requires Runnable(st) && Running(st) && quantum >= 1
  {
    AdmitFacts(st, st.clock);
    var admitted := Admit(st, st.clock);
    if admitted.queue == [] then admitted.(clock := MinArrival(admitted.procs, admitted.waiting))
    else Dispatch(admitted, quantum)
  }

  /** The processor time still owed to all records. */
  function Outstanding(ps: seq<Process>): int {
    if ps == [] then 0 else Outstanding(ps[..|ps| - 1]) + ps[|ps| - 1].remaining
  }

  lemma {:induction false} OutstandingNonnegative(ps: seq<Process>)
    requires forall i :: 0 <= i < |ps| ==> ps[i].remaining >= 0
    ensures Outstanding(ps) >= 0
  {
    if ps != [] {
      OutstandingNonnegative(ps[..|ps| - 1]);
    }
  }

  lemma {:induction false} OutstandingUpdate(ps: seq<Process>, i: nat, p: Process)
    requires i < |ps|
    ensures Outstanding(ps[i := p]) == Outstanding(ps) - ps[i].remaining + p.remaining
  {
    var n := |ps| - 1;
    if i < n {
      assert ps[i := p][..n] == ps[..n][i := p];
      OutstandingUpdate(ps[..n], i, p);
    } else {
      assert ps[i := p][..n] == ps[..n];
    }
  }

  /** The idle skip changes no remaining time and makes something ready. */
  lemma IdleProgress(st: State, quantum: int)
    requires Runnable(st) && Running(st) && quantum >= 1 && IdleNow(st)
    ensures var r := Step(st, quantum);
      Runnable(r) && Running(r) && !IdleNow(r) && r.procs == st.procs
  {
    AdmitFacts(st, st.clock);
    var admitted := Admit(st, st.clock);
    var m := MinArrival(admitted.procs, admitted.waiting);
    var r := admitted.(clock := m);
    assert Step(st, quantum) == r;
    var w :| w in admitted.waiting && admitted.procs[w].arrival == m;
    AdmitFacts(r, m);
    assert w in Admit(r, m).queue;
  }

  /** The head leaves the queue and takes at least one second off the time
      still owed; the loop stays well defined. */
  lemma RunHeadProgress(st: State, quantum: int)
    requires Runnable(st) && st.queue != [] && quantum >= 1
    ensures var r, i := RunHead(st, quantum), st.queue[0];
      Runnable(r) && i < |r.procs| && i !in r.queue && i !in r.waiting &&
      Outstanding(r.procs) < Outstanding(st.procs)
  {
    var i := st.queue[0];
    assert i in st.queue;
    var p := st.procs[i];
    var exec := Execution(quantum, p.remaining);
    var p' := p.(firstResponse := if p.firstResponse == None then Some(st.clock) else p.firstResponse,
                 remaining := p.remaining - exec);
    var r := RunHead(st, quantum);
    assert r.procs == st.procs[i := p'];
    OutstandingUpdate(st.procs, i, p');
    forall j | j in st.queue[1..]
      ensures j in st.queue && j != i
    {
      var k :| 0 <= k < |st.queue[1..]| && st.queue[1..][k] == j;
      assert st.queue[k + 1] == j;
    }
  }

  /** Re-queueing a record on no list, or completing it, keeps the loop well
      defined and changes no remaining time. */
  lemma FinishProgress(st: State, i: nat)
    requires Runnable(st) && i < |st.procs| && i !in st.queue && i !in st.waiting
    ensures var r := Finish(st, i);
      Runnable(r) && Outstanding(r.procs) == Outstanding(st.procs)
  {
    if st.procs[i].remaining > 0 {
      DistinctAppend(st.queue, [i]);
    } else {
      OutstandingUpdate(st.procs, i, st.procs[i].(completion := Some(st.clock)));
    }
  }

  /** A dispatch takes at least one second off the time still owed. */
  lemma DispatchProgress(st: State, quantum: int)
    requires Runnable(st) && st.queue != [] && quantum >= 1
    ensures var r := Dispatch(st, quantum);
      Runnable(r) && Outstanding(r.procs) < Outstanding(st.procs)
  {
    var ran := RunHead(st, quantum);
    RunHeadProgress(st, quantum);
    AdmitFacts(ran, ran.clock);
    FinishProgress(Admit(ran, ran.clock), st.queue[0]);
  }

  lemma StepProgress(st: State, quantum: int)
    requires Runnable(st) && Running(st) && quantum >= 1
    ensures var r := Step(st, quantum);
      Runnable(r) && Outstanding(st.procs) >= 0 &&
      (Outstanding(r.procs) < Outstanding(st.procs) ||
       (Outstanding(r.procs) == Outstanding(st.procs) && IdleNow(st) && !IdleNow(r)))
  {
    OutstandingNonnegative(st.procs);
    AdmitFacts(st, st.clock);
    if IdleNow(st) {
      IdleProgress(st, quantum);
    } else {
      DispatchProgress(Admit(st, st.clock), quantum);
    }
  }

  /** The loop, run to the end. */
  function Run(st: State, quantum: int): (r: State)
    requires Runnable(st) && quantum >= 1
    decreases Outstanding(st.procs), if IdleNow(st) then 1 else 0
  {
    if !Running(st) then st
    else
      StepProgress(st, quantum);
      Run(Step(st, quantum), quantum)
  }

  function Initial(ps0: seq<Process>): State {
    State(ps0, AllIndices(|ps0|), [], 0, [], [])
  }

  /** `round_robin(processes, quantum)` on fresh records and a quantum of
      at least one second. */
  function Schedule(ps0: seq<Process>, quantum: int): Outcome
    requires Admissible(ps0) && quantum >= 1
  {
    var st := Initial(ps0);
    assert Runnable(st);
    var r := Run(st, quantum);
    Outcome(r.procs, r.timeline, r.owners)
  }

  // ---------------------------------------------------------------------
  // The invariant of the loop, relative to the records it started from.

  /** A record's inputs are untouched, `start_time` is never written, and it
      is completed, with nothing remaining, exactly when it is neither
      waiting nor queued. */
  predicate RecordOk(p0: Process, p: Process, pending: bool) {
    SameInputs(p0, p) && p.start == None && 0 <= p.remaining <= p0.burst &&
    (pending <==> p.completion == None) && (!pending ==> p.remaining == 0)
  }

  /** The first response is recorded exactly once the process has run, no
      earlier than its arrival, and leaves room for the time it has run
      before the current time (or its completion). */
  predicate ResponseOk(p0: Process, p: Process, clock: int) {
    (p.firstResponse.Some? <==> p.remaining < p0.burst) &&
    (p.firstResponse.Some? ==>
       p0.arrival <= p.firstResponse.value &&
       p.firstResponse.value + (p0.burst - p.remaining) <= (if p.completion.Some? then p.completion.value else clock))
  }

  ghost predicate Records(ps0: seq<Process>, st: State) {
    |st.procs| == |ps0| &&
    forall i :: 0 <= i < |ps0| ==> RecordOk(ps0[i], st.procs[i], i in st.waiting || i in st.queue)
  }

  ghost predicate Accounted(ps0: seq<Process>, st: State) {
    |st.timeline| == |st.owners| && |st.procs| == |ps0| &&
    forall i :: 0 <= i < |ps0| ==> Busy(st.timeline, st.owners, i) == ps0[i].burst - st.procs[i].remaining
  }

  ghost predicate Responses(ps0: seq<Process>, st: State) {
    |st.procs| == |ps0| &&
    forall i :: 0 <= i < |ps0| ==> ResponseOk(ps0[i], st.procs[i], st.clock)
  }

  /** Only arrived processes are in the ready queue. */
  ghost predicate Queued(st: State) {
    forall i :: i in st.queue && i < |st.procs| ==> st.procs[i].arrival <= st.clock
  }

  ghost predicate TimelineOk(ps0: seq<Process>, st: State) {
    Labelled(ps0, st.timeline, st.owners) && Ordered(st.timeline) && LastEnd(st.timeline) <= st.clock
  }

  /** No slice is longer than the quantum, and a shorter one is its owner's
      last: the owner completed when it ended. */
  ghost predicate WithinQuantum(st: State, quantum: int) {
    |st.timeline| == |st.owners| &&
    forall k :: 0 <= k < |st.timeline| ==>
      st.timeline[k].end - st.timeline[k].start <= quantum &&
      (st.timeline[k].end - st.timeline[k].start < quantum ==>
         st.owners[k] < |st.procs| && st.procs[st.owners[k]].completion == Some(st.timeline[k].end))
  }

  ghost predicate Inv(ps0: seq<Process>, st: State, quantum: int) {
    Admissible(ps0) && quantum >= 1 && Runnable(st) && Records(ps0, st) && Accounted(ps0, st) &&
    Responses(ps0, st) && Queued(st) && TimelineOk(ps0, st) && WithinQuantum(st, quantum)
  }

  lemma InitialInv(ps0: seq<Process>, quantum: int)
    requires Admissible(ps0) && quantum >= 1
    ensures Inv(ps0, Initial(ps0), quantum)
  {
  }

  /** Admission at the current time keeps the invariant. */
  lemma AdmitKeepsInv(ps0: seq<Process>, st: State, quantum: int)
    requires Inv(ps0, st, quantum)
    ensures Inv(ps0, Admit(st, st.clock), quantum)
  {
    AdmitFacts(st, st.clock);
    var r := Admit(st, st.clock);
    assert forall i :: (i in r.waiting || i in r.queue) <==> (i in st.waiting || i in st.queue);
  }

  /** Moving the clock forward over an empty queue keeps the invariant. */
  lemma ClockSkipKeepsInv(ps0: seq<Process>, st: State, quantum: int, m: int)
    requires Inv(ps0, st, quantum) && st.queue == [] && st.clock <= m
    ensures Inv(ps0, st.(clock := m), quantum)
  {
    var r := st.(clock := m);
    forall i | 0 <= i < |ps0|
      ensures ResponseOk(ps0[i], r.procs[i], m)
    {
      assert ResponseOk(ps0[i], st.procs[i], st.clock);
    }
  }

  lemma IdleKeepsInv(ps0: seq<Process>, st: State, quantum: int)
    requires Inv(ps0, st, quantum) && Running(st) && IdleNow(st)
    ensures Inv(ps0, Step(st, quantum), quantum)
  {
    AdmitKeepsInv(ps0, st, quantum);
    AdmitFacts(st, st.clock);
    var admitted := Admit(st, st.clock);
    var m := MinArrival(admitted.procs, admitted.waiting);
    assert Step(st, quantum) == admitted.(clock := m);
    var w :| w in admitted.waiting && admitted.procs[w].arrival == m;
    ClockSkipKeepsInv(ps0, admitted, quantum, m);
  }

  /** What one dispatch does to the records, the clock and the timeline. */
  lemma DispatchRan(st: State, quantum: int)
    requires Runnable(st) && st.queue != [] && quantum >= 1
    ensures var r, i := Dispatch(st, quantum), st.queue[0];
      var p := st.procs[i];
      var exec := Execution(quantum, p.remaining);
      var t := st.clock + exec;
      i < |st.procs| && i in st.queue && 1 <= exec <= p.remaining && exec <= quantum &&
      |r.procs| == |st.procs| && r.clock == t &&
      r.timeline == st.timeline + [Slice(st.clock, t, p.name)] && r.owners == st.owners + [i] &&
      (forall j :: 0 <= j < |st.procs| && j != i ==> r.procs[j] == st.procs[j]) &&
      r.procs[i] == p.(firstResponse := if p.firstResponse == None then Some(st.clock) else p.firstResponse,
                       remaining := p.remaining - exec,
                       completion := if exec == p.remaining then Some(t) else p.completion)
  {
    var i := st.queue[0];
    assert i in st.queue;
    var ran := RunHead(st, quantum);
    AdmitFacts(ran, ran.clock);
  }

  /** What one dispatch does to the not-yet-admitted list and the queue. */
  lemma DispatchLists(st: State, quantum: int)
    requires Runnable(st) && st.queue != [] && quantum >= 1
    ensures var r, i := Dispatch(st, quantum), st.queue[0];
      var p := st.procs[i];
      var t := st.clock + Execution(quantum, p.remaining);
      (forall j :: j in r.waiting <==> j in st.waiting && st.procs[j].arrival > t) &&
      (forall j :: j in r.queue <==>
         (j in st.queue && j != i) || (j in st.waiting && st.procs[j].arrival <= t) ||
         (j == i && Execution(quantum, p.remaining) < p.remaining))
  {
    var i := st.queue[0];
    assert i in st.queue;
    var ran := RunHead(st, quantum);
    RunHeadProgress(st, quantum);
    AdmitFacts(ran, ran.clock);
    forall j
      ensures j in st.queue[1..] <==> j in st.queue && j != i
    {
      if j in st.queue[1..] {
        var k :| 0 <= k < |st.queue[1..]| && st.queue[1..][k] == j;
        assert st.queue[k + 1] == j;
      }
      if j in st.queue && j != i {
        var k :| 0 <= k < |st.queue| && st.queue[k] == j;
        assert st.queue[1..][k - 1] == j;
      }
    }
  }

  lemma DispatchRecords(ps0: seq<Process>, st: State, quantum: int)
    requires Runnable(st) && Records(ps0, st) && st.queue != [] && quantum >= 1
    ensures Records(ps0, Dispatch(st, quantum))
  {
    DispatchRan(st, quantum);
    DispatchLists(st, quantum);
    var r := Dispatch(st, quantum);
    forall j | 0 <= j < |ps0|
      ensures RecordOk(ps0[j], r.procs[j], j in r.waiting || j in r.queue)
    {
      assert RecordOk(ps0[j], st.procs[j], j in st.waiting || j in st.queue);
    }
  }

  lemma DispatchAccounted(ps0: seq<Process>, st: State, quantum: int)
    requires Runnable(st) && Accounted(ps0, st) && st.queue != [] && quantum >= 1
    ensures Accounted(ps0, Dispatch(st, quantum))
  {
    DispatchRan(st, quantum);
    var i := st.queue[0];
    var r := Dispatch(st, quantum);
    forall j | 0 <= j < |ps0|
      ensures Busy(r.timeline, r.owners, j) == ps0[j].burst - r.procs[j].remaining
    {
      BusyAppend(st.timeline, st.owners, Slice(st.clock, r.clock, st.procs[i].name), i, j);
    }
  }

  lemma DispatchResponses(ps0: seq<Process>, st: State, quantum: int)
    requires Runnable(st) && Records(ps0, st) && Responses(ps0, st) && Queued(st) && st.queue != [] && quantum >= 1
    ensures Responses(ps0, Dispatch(st, quantum))
  {
    DispatchRan(st, quantum);
    var i := st.queue[0];
    assert i in st.queue;
    var r := Dispatch(st, quantum);
    forall j | 0 <= j < |ps0|
      ensures ResponseOk(ps0[j], r.procs[j], r.clock)
    {
      assert ResponseOk(ps0[j], st.procs[j], st.clock);
      assert RecordOk(ps0[j], st.procs[j], j in st.waiting || j in st.queue);
    }
  }

  lemma DispatchQueued(st: State, quantum: int)
    requires Runnable(st) && Queued(st) && st.queue != [] && quantum >= 1
    ensures Queued(Dispatch(st, quantum))
  {
    DispatchRan(st, quantum);
    DispatchLists(st, quantum);
    assert st.queue[0] in st.queue;
  }

  lemma DispatchTimeline(ps0: seq<Process>, st: State, quantum: int)
    requires Runnable(st) && Records(ps0, st) && TimelineOk(ps0, st) && st.queue != [] && quantum >= 1
    ensures TimelineOk(ps0, Dispatch(st, quantum))
  {
    DispatchRan(st, quantum);
    var i := st.queue[0];
    var r := Dispatch(st, quantum);
    var slice := Slice(st.clock, r.clock, st.procs[i].name);
    OrderedAppend(st.timeline, slice);
    assert RecordOk(ps0[i], st.procs[i], true);
    LabelledAppend(ps0, st.timeline, st.owners, slice, i);
  }

  lemma DispatchQuantum(ps0: seq<Process>, st: State, quantum: int)
    requires Runnable(st) && Records(ps0, st) && WithinQuantum(st, quantum) && st.queue != [] && quantum >= 1
    ensures WithinQuantum(Dispatch(st, quantum), quantum)
  {
    DispatchRan(st, quantum);
    var i := st.queue[0];
    assert i in st.queue;
    var r := Dispatch(st, quantum);
    forall k | 0 <= k < |r.timeline|
      ensures r.timeline[k].end - r.timeline[k].start <= quantum
      ensures r.timeline[k].end - r.timeline[k].start < quantum ==>
                r.owners[k] < |r.procs| && r.procs[r.owners[k]].completion == Some(r.timeline[k].end)
    {
      if k < |st.timeline| {
        assert r.timeline[k] == st.timeline[k] && r.owners[k] == st.owners[k];
        if st.timeline[k].end - st.timeline[k].start < quantum {
          var o := st.owners[k];
          assert RecordOk(ps0[o], st.procs[o], o in st.waiting || o in st.queue);
        }
      }
    }
  }

  lemma DispatchKeepsInv(ps0: seq<Process>, st: State, quantum: int)
    requires Inv(ps0, st, quantum) && st.queue != []
    ensures Inv(ps0, Dispatch(st, quantum), quantum)
  {
    DispatchProgress(st, quantum);
    DispatchRecords(ps0, st, quantum);
    DispatchAccounted(ps0, st, quantum);
    DispatchResponses(ps0, st, quantum);
    DispatchQueued(st, quantum);
    DispatchTimeline(ps0, st, quantum);
    DispatchQuantum(ps0, st, quantum);
  }

  lemma StepKeepsInv(ps0: seq<Process>, st: State, quantum: int)
    requires Inv(ps0, st, quantum) && Running(st)
    ensures Inv(ps0, Step(st, quantum), quantum)
  {
    if IdleNow(st) {
      IdleKeepsInv(ps0, st, quantum);
    } else {
      AdmitKeepsInv(ps0, st, quantum);
      DispatchKeepsInv(ps0, Admit(st, st.clock), quantum);
    }
  }

  lemma {:induction false} RunKeepsInv(ps0: seq<Process>, st: State, quantum: int)
    requires Inv(ps0, st, quantum)
    ensures Inv(ps0, Run(st, quantum), quantum) && !Running(Run(st, quantum))
    decreases Outstanding(st.procs), if IdleNow(st) then 1 else 0
  {
    if Running(st) {
      StepProgress(st, quantum);
      StepKeepsInv(ps0, st, quantum);
      RunKeepsInv(ps0, Step(st, quantum), quantum);
    }
  }

  /** The invariant at the end of the run, with nothing waiting or queued. */
  lemma FinalInv(ps0: seq<Process>, quantum: int)
    requires Admissible(ps0) && quantum >= 1
    ensures var r := Run(Initial(ps0), quantum);
      Inv(ps0, r, quantum) && r.waiting == [] && r.queue == []
  {
    InitialInv(ps0, quantum);
    RunKeepsInv(ps0, Initial(ps0), quantum);
  }

  // ---------------------------------------------------------------------
  // What every Round Robin run guarantees.

  /** Every record ends completed with nothing remaining; `start_time` is
      never written; the first response is no earlier than the arrival and
      the completion leaves room for the whole burst after it. */
  lemma CompletesEveryProcess(ps0: seq<Process>, quantum: int)
    requires Admissible(ps0) && quantum >= 1
    ensures var o := Schedule(ps0, quantum);
      AllCompleted(ps0, o.procs) &&
      forall i :: 0 <= i < |ps0| ==> o.procs[i].remaining == 0 && o.procs[i].start == None
  {
    FinalInv(ps0, quantum);
    var r := Run(Initial(ps0), quantum);
    var o := Schedule(ps0, quantum);
    assert o == Outcome(r.procs, r.timeline, r.owners);
    forall i | 0 <= i < |ps0|
      ensures SameInputs(ps0[i], o.procs[i]) && o.procs[i].completion.Some? && o.procs[i].firstResponse.Some?
      ensures ps0[i].arrival <= o.procs[i].firstResponse.value
      ensures o.procs[i].firstResponse.value + ps0[i].burst <= o.procs[i].completion.value
      ensures o.procs[i].remaining == 0 && o.procs[i].start == None
    {
      assert RecordOk(ps0[i], r.procs[i], i in r.waiting || i in r.queue);
      assert ResponseOk(ps0[i], r.procs[i], r.clock);
    }
  }

  /** The slices of each process add up to exactly its burst. */
  lemma BusyEqualsBurst(ps0: seq<Process>, quantum: int)
    requires Admissible(ps0) && quantum >= 1
    ensures var o := Schedule(ps0, quantum);
      |o.timeline| == |o.owners| &&
      forall i :: 0 <= i < |ps0| ==> Busy(o.timeline, o.owners, i) == ps0[i].burst
  {
    FinalInv(ps0, quantum);
    var r := Run(Initial(ps0), quantum);
    forall i | 0 <= i < |ps0|
      ensures Busy(r.timeline, r.owners, i) == ps0[i].burst
    {
      assert RecordOk(ps0[i], r.procs[i], i in r.waiting || i in r.queue);
    }
  }

  /** The timeline is sorted by start, its slices are non-empty and do not
      overlap, none starts before time 0, and each carries its owner's name. */
  lemma TimelineOrdered(ps0: seq<Process>, quantum: int)
    requires Admissible(ps0) && quantum >= 1
    ensures var o := Schedule(ps0, quantum); Ordered(o.timeline) && Labelled(ps0, o.timeline, o.owners)
  {
    FinalInv(ps0, quantum);
  }

  /** Every slice lasts between one second and one quantum, and a slice
      shorter than the quantum ends exactly when its owner completes. */
  lemma SlicesWithinQuantum(ps0: seq<Process>, quantum: int)
    requires Admissible(ps0) && quantum >= 1
    ensures var o := Schedule(ps0, quantum);
      |o.timeline| == |o.owners| &&
      forall k :: 0 <= k < |o.timeline| ==>
        1 <= o.timeline[k].end - o.timeline[k].start <= quantum &&
        (o.timeline[k].end - o.timeline[k].start < quantum ==>
           o.owners[k] < |o.procs| && o.procs[o.owners[k]].completion == Some(o.timeline[k].end))
  {
    FinalInv(ps0, quantum);
    var r := Run(Initial(ps0), quantum);
    forall k | 0 <= k < |r.timeline|
      ensures 1 <= r.timeline[k].end - r.timeline[k].start
    {
      assert PrevEnd(r.timeline, k) <= r.timeline[k].start < r.timeline[k].end;
    }
  }

  /** One dispatch runs the head of the queue for `min(quantum, remaining)`
      seconds, at least one, recorded as a single slice; when that leaves
      nothing remaining, the head completes at the end of the slice. */
  lemma DispatchRunsOneSlice(st: State, quantum: int)
    requires Runnable(st) && st.queue != [] && quantum >= 1
    ensures var r, i := Dispatch(st, quantum), st.queue[0];
      var p := st.procs[i];
      var exec := r.clock - st.clock;
      i < |st.procs| && i < |r.procs| &&
      1 <= exec <= quantum && exec <= p.remaining && (exec == quantum || exec == p.remaining) &&
      r.timeline == st.timeline + [Slice(st.clock, r.clock, p.name)] &&
      r.procs[i].remaining == p.remaining - exec &&
      (r.procs[i].remaining == 0 ==> r.procs[i].completion == Some(r.clock))
  {
    DispatchRan(st, quantum);
  }

  /** Each pass first appends the processes that have arrived by the
      current time to the ready queue, in list order and after the ones
      already waiting there; the one slice it then runs belongs to the
      record at the head of that queue. When the queue is still empty,
      nothing runs. */
  lemma StepAdmitsInListOrder(st: State, quantum: int)
    requires Runnable(st) && Running(st) && quantum >= 1
    ensures var arrivals := Filter(st.procs, st.waiting, ArrivedBy(st.clock));
      var ready, r := st.queue + arrivals, Step(st, quantum);
      Increasing(arrivals) && ValidIndices(ready, |st.procs|) &&
      (forall j :: j in arrivals <==> j in st.waiting && st.procs[j].arrival <= st.clock) &&
      (ready == [] ==> r.timeline == st.timeline && r.owners == st.owners) &&
      (ready != [] ==> r.timeline == st.timeline + [Slice(st.clock, r.clock, st.procs[ready[0]].name)] &&
                       r.owners == st.owners + [ready[0]])
  {
    var arrivals := Filter(st.procs, st.waiting, ArrivedBy(st.clock));
    FilterIncreasing(st.procs, st.waiting, ArrivedBy(st.clock));
    AdmitFacts(st, st.clock);
    var admitted := Admit(st, st.clock);
    assert admitted.queue == st.queue + arrivals;
    if admitted.queue != [] {
      DispatchRunsOneSlice(admitted, quantum);
      DispatchRan(admitted, quantum);
    }
  }

  /** One dispatch keeps the rest of the queue in order, appends the
      processes that arrived by the end of the slice in list order, and
      only after them puts the head back, if it still has time left. */
  lemma DispatchQueueOrder(st: State, quantum: int)
    requires Runnable(st) && st.queue != [] && quantum >= 1
    ensures var r, i := Dispatch(st, quantum), st.queue[0];
      var arrivals := Filter(st.procs, st.waiting, ArrivedBy(r.clock));
      i < |r.procs| && Increasing(arrivals) &&
      (forall j :: j in arrivals <==> j in st.waiting && st.procs[j].arrival <= r.clock) &&
      r.queue == st.queue[1..] + arrivals + (if r.procs[i].remaining > 0 then [i] else [])
  {
    var i := st.queue[0];
    assert i in st.queue;
    DispatchRan(st, quantum);
    var ran := RunHead(st, quantum);
    var t := ran.clock;
    FilterSameArrivals(ran.procs, st.procs, st.waiting, t);
    FilterIncreasing(st.procs, st.waiting, ArrivedBy(t));
  }

  // ---------------------------------------------------------------------
  // The policy as the program runs it, on an array of records.

  /** `ready_queue.pop(0)`, the first response, one slice of at most one
      quantum, and the clock, on the array. */
  method RunHeadAt(a: array<Process>, quantum: int, waiting: seq<nat>, queue: seq<nat>, clock: int,
                   schedule: seq<Slice>, ghost owners: seq<nat>)
    returns (queue': seq<nat>, clock': int, schedule': seq<Slice>, ghost owners': seq<nat>)
    requires Runnable(State(a[..], waiting, queue, clock, schedule, owners)) && queue != [] && quantum >= 1
    modifies a
    ensures var st := State(old(a[..]), waiting, queue, clock, schedule, owners);
            State(a[..], waiting, queue', clock', schedule', owners') == RunHead(st, quantum)
  {
    assert queue[0] in queue;
    var i := queue[0];
    queue' := queue[1..];
    if a[i].firstResponse == None {
      Update(a, i, a[i].(firstResponse := Some(clock)));
    }
    var exec := if quantum <= a[i].remaining then quantum else a[i].remaining;
    schedule' := schedule + [Slice(clock, clock + exec, a[i].name)];
    owners' := owners + [i];
    Update(a, i, a[i].(remaining := a[i].remaining - exec));
    clock' := clock + exec;
  }

  /** Re-queue record `i` if time remains, otherwise record its completion. */
  method FinishAt(a: array<Process>, i: nat, waiting: seq<nat>, queue: seq<nat>, clock: int,
                  schedule: seq<Slice>, ghost owners: seq<nat>)
    returns (queue': seq<nat>)
    requires i < a.Length
    modifies a
    ensures var st := State(old(a[..]), waiting, queue, clock, schedule, owners);
            State(a[..], waiting, queue', clock, schedule, owners) == Finish(st, i)
  {
    queue' := queue;
    if a[i].remaining > 0 {
      queue' := queue + [i];
    } else {
      Update(a, i, a[i].(completion := Some(clock)));
    }
  }

  /** One pass of the loop body on the array. */
  method Iterate(a: array<Process>, quantum: int, waiting: seq<nat>, queue: seq<nat>, clock: int,
                 schedule: seq<Slice>, ghost owners: seq<nat>)
    returns (waiting': seq<nat>, queue': seq<nat>, clock': int, schedule': seq<Slice>, ghost owners': seq<nat>)
    requires var st := State(a[..], waiting, queue, clock, schedule, owners);
             Runnable(st) && Running(st) && quantum >= 1
    modifies a
    ensures var st := State(old(a[..]), waiting, queue, clock, schedule, owners);
            State(a[..], waiting', queue', clock', schedule', owners') == Step(st, quantum)
  {
    ghost var st := State(a[..], waiting, queue, clock, schedule, owners);
    AdmitFacts(st, clock);
    var arrivals := Filter(a[..], waiting, ArrivedBy(clock));
    queue', waiting' := queue + arrivals, Filter(a[..], waiting, ArrivesAfter(clock));
    clock', schedule', owners' := clock, schedule, owners;
    if queue' == [] {
      clock' := MinArrival(a[..], waiting');
    } else {
      ghost var admitted := Admit(st, clock);
      assert State(a[..], waiting', queue', clock, schedule, owners) == admitted;
      var i := queue'[0];
      queue', clock', schedule', owners' := RunHeadAt(a, quantum, waiting', queue', clock, schedule, owners);
      ghost var ran := RunHead(admitted, quantum);
      assert State(a[..], waiting', queue', clock', schedule', owners') == ran;
      RunHeadProgress(admitted, quantum);
      arrivals := Filter(a[..], waiting', ArrivedBy(clock'));
      queue', waiting' := queue' + arrivals, Filter(a[..], waiting', ArrivesAfter(clock'));
      queue' := FinishAt(a, i, waiting', queue', clock', schedule', owners');
    }
  }

  /** `round_robin(processes, quantum)`: fills in the records of `a` and
      returns the timeline, exactly as `Schedule` describes. */
  method RoundRobin(a: array<Process>, quantum: int) returns (schedule: seq<Slice>)
    requires Admissible(a[..]) && quantum >= 1
    modifies a
    ensures var o := Schedule(old(a[..]), quantum); a[..] == o.procs && schedule == o.timeline
  {
    ghost var ps0 := a[..];
    ghost var owners: seq<nat> := [];
    var waiting := AllIndices(a.Length);
    var queue: seq<nat> := [];
    var clock := 0;
    schedule := [];
    assert Runnable(Initial(ps0));
    while waiting != [] || queue != []
      invariant Runnable(State(a[..], waiting, queue, clock, schedule, owners))
      invariant Run(State(a[..], waiting, queue, clock, schedule, owners), quantum) == Run(Initial(ps0), quantum)
      decreases Outstanding(a[..]), if IdleNow(State(a[..], waiting, queue, clock, schedule, owners)) then 1 else 0
    {
      ghost var st := State(a[..], waiting, queue, clock, schedule, owners);
      StepProgress(st, quantum);
      waiting, queue, clock, schedule, owners := Iterate(a, quantum, waiting, queue, clock, schedule, owners);
    }
  }
}
