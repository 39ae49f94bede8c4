/// Process records, execution slices, and the predicates every scheduling
/// policy's result is judged by.
module Processes {

  datatype Option<T> = None | Some(value: T)

  /** One simulated process: the inputs a user enters, and the simulation
      state a policy writes into the record as it runs. */
  datatype Process = Process(
    name: string,
    arrival: int,
    burst: int,
    priority: int,
    deadline: Option<int>,
    remaining: int,
    start: Option<int>,
    completion: Option<int>,
    firstResponse: Option<int>)

  /** One entry of a timeline: `name` ran on the processor from `start` to `end`. */
  datatype Slice = Slice(start: int, end: int, name: string)

  /** What a policy run leaves behind: the mutated records, the timeline it
      returns, and (for the proofs only) the index of the record behind each slice. */
  datatype Outcome = Outcome(procs: seq<Process>, timeline: seq<Slice>, owners: seq<nat>)

  /** A record as the constructor leaves it: nothing run, nothing recorded. */
  predicate IsFresh(p: Process) {
    p.remaining == p.burst && p.start == None && p.completion == None && p.firstResponse == None
  }

  /** The constructor: priority defaults to 0 and the deadline to none. */
  function NewProcess(name: string, arrival: int, burst: int,
                      priority: int := 0, deadline: Option<int> := None): (p: Process)
    ensures IsFresh(p)
    ensures p.name == name && p.arrival == arrival && p.burst == burst
    ensures p.priority == priority && p.deadline == deadline
  {
    Process(name, arrival, burst, priority, deadline, burst, None, None, None)
  }

  /** What the caller guarantees before every run: fresh copies of the
      records, each needing at least one second of processor time. */
  predicate Admissible(ps: seq<Process>) {
    forall i :: 0 <= i < |ps| ==> IsFresh(ps[i]) && ps[i].burst >= 1
  }

  /** The fields a policy never writes. */
  predicate SameInputs(p: Process, q: Process) {
    p.name == q.name && p.arrival == q.arrival && p.burst == q.burst &&
    p.priority == q.priority && p.deadline == q.deadline
  }

  /** A non-preemptive dispatch at time `t`: start, first response and
      completion are recorded together; the remaining time is left alone. */
  function Dispatched(p: Process, t: int): Process {
    p.(start := Some(t), firstResponse := Some(t), completion := Some(t + p.burst))
  }

  /** Dispatch record `k` at time `clock`: start, first response and
      completion are written into the record, nothing else changes. */
  method DispatchAt(a: array<Process>, k: nat, clock: int)
    requires k < a.Length
    modifies a
    ensures a[..] == old(a[..])[k := Dispatched(old(a[k]), clock)]
  {
    a[k] := a[k].(start := Some(clock), firstResponse := Some(clock),
                  completion := Some(clock + a[k].burst));
  }

  /** `a[k] = p`: replace one record, nothing else changes. */
  method Update(a: array<Process>, k: nat, p: Process)
    requires k < a.Length
    modifies a
    ensures a[..] == old(a[..])[k := p]
  {
    a[k] := p;
  }

  /** Every element of `s` indexes a record of a list of length `n`. */
  predicate ValidIndices(s: seq<nat>, n: nat) {
    forall k :: 0 <= k < |s| ==> s[k] < n
  }

  /** `s` lists indices in strictly increasing order: list order, no repeats. */
  predicate Increasing(s: seq<nat>) {
    forall j, k :: 0 <= j < k < |s| ==> s[j] < s[k]
  }

  predicate Distinct(s: seq<nat>) {
    forall j, k :: 0 <= j < k < |s| ==> s[j] != s[k]
  }

  /** `s` lists each of the indices 0 .. n-1 exactly once. */
  predicate IsPermutation(s: seq<nat>, n: nat) {
    |s| == n && ValidIndices(s, n) && Distinct(s) && forall i :: 0 <= i < n ==> i in s
  }

  /** When the processor became free before slice `k`: the end of the
      previous slice, or time 0 for the first one. */
  function PrevEnd(tl: seq<Slice>, k: nat): int
    requires k <= |tl|
  {
    if k == 0 then 0 else tl[k - 1].end
  }

  /** When the processor became free after the last slice (time 0 for an empty timeline). */
  function LastEnd(tl: seq<Slice>): int {
    PrevEnd(tl, |tl|)
  }

  /** A well-formed timeline: every slice is non-empty, starts no earlier
      than time 0 and than the end of the slice before it. */
  predicate Ordered(tl: seq<Slice>) {
    forall k :: 0 <= k < |tl| ==> PrevEnd(tl, k) <= tl[k].start < tl[k].end
  }

  /** Slice `k` belongs to record `owners[k]` and carries its name. */
  predicate Labelled(ps: seq<Process>, tl: seq<Slice>, owners: seq<nat>) {
    |tl| == |owners| && ValidIndices(owners, |ps|) &&
    forall k :: 0 <= k < |tl| ==> owners[k] < |ps| && tl[k].name == ps[owners[k]].name
  }

  /** Total processor time the slices give to record `i`. */
  function Busy(tl: seq<Slice>, owners: seq<nat>, i: nat): int
    requires |tl| == |owners|
  {
    if tl == [] then 0
    else
      var n := |tl| - 1;
      Busy(tl[..n], owners[..n], i) + (if owners[n] == i then tl[n].end - tl[n].start else 0)
  }

  /** Every record finished: its inputs are untouched, it first ran no
      earlier than it arrived, and the time from first response to
      completion leaves room for its whole burst. */
  predicate AllCompleted(ps0: seq<Process>, ps: seq<Process>) {
    |ps| == |ps0| &&
    forall i :: 0 <= i < |ps| ==>
      SameInputs(ps0[i], ps[i]) && ps[i].completion.Some? && ps[i].firstResponse.Some? &&
      ps0[i].arrival <= ps[i].firstResponse.value &&
      ps[i].firstResponse.value + ps0[i].burst <= ps[i].completion.value
  }

  /** In an ordered timeline no two slices overlap: each ends before any later one starts. */
  lemma {:induction false} OrderedApart(tl: seq<Slice>, j: nat, k: nat)
    requires Ordered(tl) && j < k < |tl|
    ensures tl[j].end <= tl[k].start
  {
    assert PrevEnd(tl, k) <= tl[k].start;
    if j < k - 1 {
      OrderedApart(tl, j, k - 1);
      assert PrevEnd(tl, k - 1) <= tl[k - 1].start < tl[k - 1].end;
    }
  }

  /** A non-empty slice starting after the last one keeps the timeline ordered. */
  lemma OrderedAppend(tl: seq<Slice>, s: Slice)
    requires Ordered(tl) && LastEnd(tl) <= s.start < s.end
    ensures Ordered(tl + [s])
  {
    var tl' := tl + [s];
    forall j | 0 <= j < |tl'|
      ensures PrevEnd(tl', j) <= tl'[j].start < tl'[j].end
    {
      if j < |tl| {
        assert PrevEnd(tl', j) == PrevEnd(tl, j);
      }
    }
  }

  /** A slice named after its owner keeps the timeline labelled. */
  lemma LabelledAppend(ps: seq<Process>, tl: seq<Slice>, owners: seq<nat>, s: Slice, o: nat)
    requires Labelled(ps, tl, owners) && o < |ps| && s.name == ps[o].name
    ensures Labelled(ps, tl + [s], owners + [o])
  {
    var tl', owners' := tl + [s], owners + [o];
    forall k | 0 <= k < |tl'|
      ensures owners'[k] < |ps| && tl'[k].name == ps[owners'[k]].name
    {
      if k < |tl| {
        assert tl'[k] == tl[k] && owners'[k] == owners[k];
      }
    }
  }

  /** Appending a slice adds its length to its owner's busy time and nothing to anyone else's. */
  lemma BusyAppend(tl: seq<Slice>, owners: seq<nat>, s: Slice, o: nat, i: nat)
    requires |tl| == |owners|
    ensures Busy(tl + [s], owners + [o], i) == Busy(tl, owners, i) + (if o == i then s.end - s.start else 0)
  {
    assert (tl + [s])[..|tl|] == tl;
    assert (owners + [o])[..|owners|] == owners;
  }
}
