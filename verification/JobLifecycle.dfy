/**
  Evaluation jobs from creation to deletion: what storage makes of status events, and the
  active-jobs and queue-depth gauges that the handlers keep beside it.

  Handlers are serialised per job. Every way a storage call can fail is an input of the step, so
  the conservation laws are stated for all of them, with an explicit account of each leak.
*/
module JobLifecycle {
  import opened Wrappers

  datatype Overall = Pending | Running | Completed | Failed | Cancelled | PartiallyFailed

  predicate Terminal(o: Overall) { o.Completed? || o.Failed? || o.Cancelled? || o.PartiallyFailed? }

  /** The state of one benchmark. */
  datatype Status = Queued | Active | Done | Broken | Dropped

  predicate Settled(s: Status) { s.Done? || s.Broken? || s.Dropped? }

  datatype BenchmarkRef = BenchmarkRef(provider: string, id: string)

  /** The last report on the benchmark at `index`. */
  datatype Entry = Entry(ref: BenchmarkRef, index: nat, status: Status)

  datatype Kind = Evaluation | PostProcessing

  datatype Job = Job(kind: Kind, benchmarks: seq<BenchmarkRef>, entries: seq<Entry>, state: Overall)

  /** A status event's own claim about which benchmark it reports on. Never Dropped. */
  datatype Event = Event(ref: BenchmarkRef, index: int, status: Status)

  /******* Storage *******/

  function Count(entries: seq<Entry>, s: Status): nat {
    if entries == [] then 0
    else Count(entries[..|entries| - 1], s) + if entries[|entries| - 1].status == s then 1 else 0
  }

  function OverallOf(entries: seq<Entry>, total: nat): Overall {
    var done, broken, active, dropped :=
      Count(entries, Done), Count(entries, Broken), Count(entries, Active), Count(entries, Dropped);
    if done == total then Completed
    else if broken == total then Failed
    else if done + broken == total then PartiallyFailed
    else if dropped == total then Cancelled
    else if done + broken + dropped == total then PartiallyFailed
    else if active > 0 || done > 0 || broken > 0 || dropped > 0 then Running
    else Pending
  }

  predicate Matches(e: Entry, ev: Event) { e.ref == ev.ref && e.index == ev.index }

  /** Records the event on its entry; a settled benchmark cannot become unsettled again. */
  function Report(entries: seq<Entry>, ev: Event): seq<Entry>
    requires ev.index >= 0
  {
    if entries == [] then [Entry(ev.ref, ev.index, ev.status)]
    else if Matches(entries[0], ev) then
      if Settled(entries[0].status) && !Settled(ev.status) then entries
      else [Entry(ev.ref, ev.index, ev.status)] + entries[1..]
    else [entries[0]] + Report(entries[1..], ev)
  }

  /** UpdateEvaluationJob: refused for terminal jobs and for benchmarks the job does not have. */
  function UpdateJob(job: Job, ev: Event): Option<Job> {
    if Terminal(job.state) then None
    else if !(0 <= ev.index < |job.benchmarks| && job.benchmarks[ev.index] == ev.ref) then None
    else
      var entries := Report(job.entries, ev);
      Some(job.(entries := entries, state := OverallOf(entries, |job.benchmarks|)))
  }

  function DropUnsettled(entries: seq<Entry>): seq<Entry> {
    seq(|entries|, i requires 0 <= i < |entries| =>
      if Settled(entries[i].status) then entries[i] else entries[i].(status := Dropped))
  }

  /** UpdateEvaluationJobStatus. */
  function SetStatus(job: Job, state: Overall): Option<Job> {
    if state == job.state then Some(job)
    else if Terminal(job.state) then None
    else Some(job.(state := state, entries := if state.Cancelled? then DropUnsettled(job.entries) else job.entries))
  }

  /******* Handlers *******/

  /** A job's GUID. */
  type Id = nat

  datatype State = State(jobs: map<Id, Job>, used: set<Id>, active: int, queue: int, exported: map<Id, nat>)

  datatype StartOutcome = NoRuntime | Started | StartFailed(statusStored: bool)

  datatype Step =
    | Create(id: Id, kind: Kind, benchmarks: seq<BenchmarkRef>, stored: bool, start: StartOutcome)
    | Update(id: Id, event: Event, readOk: bool, storedOk: bool, gaugeReadOk: bool, exportReadOk: bool)
    | Cancel(id: Id, hard: bool, storedOk: bool)
    | DeletePostProcessing(id: Id, storedOk: bool)

  /** Job ids are fresh GUIDs; jobs have at least one benchmark; adapters cannot report Dropped. */
  predicate CanStep(s: State, t: Step) {
    match t
    case Create(id, _, benchmarks, _, _) => id !in s.used && benchmarks != []
    case Update(_, ev, _, _, _, _) => !ev.status.Dropped?
    case _ => true
  }

  /** How the gauges move when an accepted event takes a job from `previous` (None: unread) to `now`. */
  function AfterUpdate(active: int, queue: int, previous: Option<Overall>, now: Overall): (int, int) {
    if previous == Some(now) then (active, queue)
    else
      var queue := if previous == Some(Pending) && now.Running? then queue - 1 else queue;
      if Terminal(now) && !(previous.Some? && Terminal(previous.value)) then
        (active - 1, if previous == Some(Pending) then queue - 1 else queue)
      else
        (active, queue)
  }

  function Bump(m: map<Id, nat>, id: Id): map<Id, nat> { m[id := if id in m then m[id] + 1 else 1] }

  function Next(s: State, t: Step): State
    requires CanStep(s, t)
  {
    match t
    case Create(id, kind, benchmarks, stored, start) =>
      if !stored then s.(used := s.used + {id})
      else if start == StartFailed(true) then
        s.(jobs := s.jobs[id := Job(kind, benchmarks, [], Failed)], used := s.used + {id})
      else
        s.(jobs := s.jobs[id := Job(kind, benchmarks, [], Pending)], used := s.used + {id},
           active := s.active + 1, queue := s.queue + 1)
    case Update(id, ev, readOk, storedOk, gaugeReadOk, exportReadOk) =>
      if id !in s.jobs || !storedOk || UpdateJob(s.jobs[id], ev).None? then s
      else
        var job := UpdateJob(s.jobs[id], ev).value;
        var previous := if readOk then Some(s.jobs[id].state) else None;
        var (active, queue) := if gaugeReadOk then AfterUpdate(s.active, s.queue, previous, job.state) else (s.active, s.queue);
        s.(jobs := s.jobs[id := job], active := active, queue := queue,
           exported := if exportReadOk && Terminal(job.state) && previous != Some(job.state) then Bump(s.exported, id) else s.exported)
    case Cancel(id, hard, storedOk) =>
      if id !in s.jobs || s.jobs[id].kind != Evaluation || !storedOk then s
      else if hard then s.(jobs := s.jobs - {id})
      else if Terminal(s.jobs[id].state) then s
      else Leave(s.(jobs := s.jobs[id := SetStatus(s.jobs[id], Cancelled).value]), s.jobs[id].state)
    case DeletePostProcessing(id, storedOk) =>
      if id !in s.jobs || s.jobs[id].kind != PostProcessing || !storedOk then s
      else if Terminal(s.jobs[id].state) then s.(jobs := s.jobs - {id})
      else Leave(s.(jobs := s.jobs - {id}), s.jobs[id].state)
  }

  /** A job in state `previous` stops being active. */
  function Leave(s: State, previous: Overall): State {
    s.(active := s.active - 1, queue := if previous.Pending? then s.queue - 1 else s.queue)
  }

  /** The handlers' storage and gauges, updated step by step in the order the code does it. */
  class Service {
    var jobs: map<Id, Job>
    var used: set<Id>
    var active: int
    var queue: int
    var exported: map<Id, nat>

    ghost function View(): State reads this { State(jobs, used, active, queue, exported) }

    constructor ()
      ensures View() == State(map[], {}, 0, 0, map[])
    {
      jobs, used, active, queue, exported := map[], {}, 0, 0, map[];
    }

    method RecordTerminalTransition(previous: Overall)
      modifies this`active, this`queue
      ensures View() == Leave(old(View()), previous)
    {
      active := active - 1;
      if previous == Pending {
        queue := queue - 1;
      }
    }

    /** recordEvaluationJobTerminalStateAfterUpdate. */
    method RecordAfterUpdate(id: Id, gaugeReadOk: bool, previous: Option<Overall>)
      requires id in jobs
      modifies this`active, this`queue
      ensures (active, queue) == if gaugeReadOk then AfterUpdate(old(active), old(queue), previous, jobs[id].state) else (old(active), old(queue))
    {
      if !gaugeReadOk {
        return;
      }
      var now := jobs[id].state;
      if previous == Some(now) {
        return;
      }
      if previous == Some(Pending) && now == Running {
        queue := queue - 1;
      }
      if Terminal(now) && (previous == None || !Terminal(previous.value)) {
        active := active - 1;
        if previous == Some(Pending) {
          queue := queue - 1;
        }
      }
    }

    method CreateJob(id: Id, kind: Kind, benchmarks: seq<BenchmarkRef>, stored: bool, start: StartOutcome)
      requires CanStep(View(), Create(id, kind, benchmarks, stored, start))
      modifies this
      ensures View() == Next(old(View()), Create(id, kind, benchmarks, stored, start))
    {
      used := used + {id};
      if !stored {
        return;
      }
      jobs := jobs[id := Job(kind, benchmarks, [], Pending)];
      active := active + 1;
      queue := queue + 1;
      match start {
        case StartFailed(statusStored) =>
          if statusStored {
            jobs := jobs[id := jobs[id].(state := Failed)];
            RecordTerminalTransition(Pending);
          }
        case NoRuntime =>
          // the status is rewritten with the same state
        case Started =>
      }
    }

    method UpdateEvaluation(id: Id, ev: Event, readOk: bool, storedOk: bool, gaugeReadOk: bool, exportReadOk: bool)
      requires CanStep(View(), Update(id, ev, readOk, storedOk, gaugeReadOk, exportReadOk))
      modifies this
      ensures View() == Next(old(View()), Update(id, ev, readOk, storedOk, gaugeReadOk, exportReadOk))
    {
      var previous: Option<Overall> := None;
      if id in jobs && readOk {
        previous := Some(jobs[id].state);
      }
      if id !in jobs || !storedOk {
        return;
      }
      var updated := UpdateJob(jobs[id], ev);
      if updated == None {
        return;
      }
      jobs := jobs[id := updated.value];
      RecordAfterUpdate(id, gaugeReadOk, previous);
      if exportReadOk && Terminal(jobs[id].state) && previous != Some(jobs[id].state) {
        exported := Bump(exported, id);
      }
    }

    method CancelEvaluation(id: Id, hard: bool, storedOk: bool)
      modifies this
      ensures View() == Next(old(View()), Cancel(id, hard, storedOk))
    {
      if id !in jobs || jobs[id].kind != Evaluation {
        return;
      }
      var previous := jobs[id].state;
      if hard {
        if storedOk {
          jobs := jobs - {id};
        }
        return;
      }
      if previous == Cancelled || !storedOk {
        return;
      }
      var updated := SetStatus(jobs[id], Cancelled);
      if updated == None {
        return;
      }
      jobs := jobs[id := updated.value];
      if !Terminal(previous) {
        RecordTerminalTransition(previous);
      }
    }

    method DeletePostProcessingJob(id: Id, storedOk: bool)
      modifies this
      ensures View() == Next(old(View()), DeletePostProcessing(id, storedOk))
    {
      if id !in jobs || jobs[id].kind != PostProcessing || !storedOk {
        return;
      }
      var previous := jobs[id].state;
      jobs := jobs - {id};
      if !Terminal(previous) {
        RecordTerminalTransition(previous);
      }
    }
  }

  /******* The gauges and what they should show *******/

  function LiveJobs(jobs: map<Id, Job>): set<Id> { set id | id in jobs && !Terminal(jobs[id].state) }

  function PendingJobs(jobs: map<Id, Job>): set<Id> { set id | id in jobs && jobs[id].state.Pending? }

  function One(b: bool): int { if b then 1 else 0 }

  /** The stored outcome of an event, if it is accepted. */
  function Accepted(s: State, t: Step): Option<Job>
    requires t.Update?
  {
    if t.id in s.jobs && t.storedOk then UpdateJob(s.jobs[t.id], t.event) else None
  }

  predicate HardDeletes(s: State, t: Step) {
    t.Cancel? && t.hard && t.storedOk && t.id in s.jobs && s.jobs[t.id].kind.Evaluation?
  }

  /** By how much a step leaves the active gauge too high. */
  function ActiveLeak(s: State, t: Step): int {
    if HardDeletes(s, t) then One(!Terminal(s.jobs[t.id].state))
    else if t.Update? && Accepted(s, t).Some? then One(Terminal(Accepted(s, t).value.state) && !t.gaugeReadOk)
    else 0
  }

  /** By how much a step leaves the queue gauge too high; negative when it leaves it too low. */
  function QueueLeak(s: State, t: Step): int {
    if HardDeletes(s, t) then One(s.jobs[t.id].state.Pending?)
    else if t.Update? && Accepted(s, t).Some? then
      var before, now := s.jobs[t.id].state, Accepted(s, t).value.state;
      One(before.Pending? && !now.Pending? && !(t.readOk && t.gaugeReadOk)) - One(!before.Pending? && now.Pending?)
    else 0
  }

  lemma CountMember(a: set<Id>, b: set<Id>, id: Id)
    requires a - {id} == b - {id}
    ensures |b| == |a| - One(id in a) + One(id in b)
  {
    assert a == (a - {id}) + (if id in a then {id} else {});
    assert b == (b - {id}) + (if id in b then {id} else {});
  }

  /** Only job `id` differs between the two stores. */
  ghost predicate Elsewhere(a: map<Id, Job>, b: map<Id, Job>, id: Id) { a - {id} == b - {id} }

  lemma CountJobs(a: map<Id, Job>, b: map<Id, Job>, id: Id)
    requires Elsewhere(a, b, id)
    ensures |LiveJobs(b)| == |LiveJobs(a)| - One(id in LiveJobs(a)) + One(id in LiveJobs(b))
    ensures |PendingJobs(b)| == |PendingJobs(a)| - One(id in PendingJobs(a)) + One(id in PendingJobs(b))
  {
    forall h | h != id ensures h in a <==> h in b ensures h in a ==> a[h] == b[h] {
      assert h in a - {id} <==> h in b - {id};
      if h in a { assert (a - {id})[h] == (b - {id})[h]; }
    }
    CountMember(LiveJobs(a), LiveJobs(b), id);
    CountMember(PendingJobs(a), PendingJobs(b), id);
  }

  /** How far each gauge is above the number of jobs it should show. */
  function ActiveExcess(s: State): int { s.active - |LiveJobs(s.jobs)| }

  function QueueExcess(s: State): int { s.queue - |PendingJobs(s.jobs)| }

  ghost predicate Fresh(s: State) { s.jobs.Keys <= s.used && s.exported.Keys <= s.used }

  /** A job that stops being active, by deletion or by its state, leaves the gauges as right as they were. */
  lemma LeaveAccounting(s: State, id: Id, jobs: map<Id, Job>)
    requires id in s.jobs && !Terminal(s.jobs[id].state) && Elsewhere(s.jobs, jobs, id) && id !in LiveJobs(jobs)
    ensures
      var s' := Leave(s.(jobs := jobs), s.jobs[id].state);
      ActiveExcess(s') == ActiveExcess(s) && QueueExcess(s') == QueueExcess(s)
  {
    CountJobs(s.jobs, jobs, id);
    assert id in LiveJobs(s.jobs) && id !in PendingJobs(jobs);
  }

  lemma UpdateAccounting(s: State, t: Step)
    requires CanStep(s, t) && t.Update? && Accepted(s, t).Some?
    ensures ActiveExcess(Next(s, t)) == ActiveExcess(s) + ActiveLeak(s, t)
    ensures QueueExcess(Next(s, t)) == QueueExcess(s) + QueueLeak(s, t)
  {
    CountJobs(s.jobs, Next(s, t).jobs, t.id);
  }

  /** Exact accounting of every step: a step keeps the law exactly when its leak is zero. */
  lemma StepAccounting(s: State, t: Step)
    requires Fresh(s) && CanStep(s, t)
    ensures Fresh(Next(s, t))
    ensures ActiveExcess(Next(s, t)) == ActiveExcess(s) + ActiveLeak(s, t)
    ensures QueueExcess(Next(s, t)) == QueueExcess(s) + QueueLeak(s, t)
  {
    if t.Update? {
      if Accepted(s, t).Some? { UpdateAccounting(s, t); }
    } else {
      CountJobs(s.jobs, Next(s, t).jobs, t.id);
    }
  }

  /******* Whole runs *******/

  predicate IsRun(s: State, steps: seq<Step>)
    decreases |steps|
  {
    steps == [] || (CanStep(s, steps[0]) && IsRun(Next(s, steps[0]), steps[1..]))
  }

  function After(s: State, steps: seq<Step>): State
    requires IsRun(s, steps)
    decreases |steps|
  {
    if steps == [] then s else After(Next(s, steps[0]), steps[1..])
  }

  function Leaks(s: State, steps: seq<Step>): (int, int)
    requires IsRun(s, steps)
    decreases |steps|
  {
    if steps == [] then (0, 0)
    else
      var (a, q) := Leaks(Next(s, steps[0]), steps[1..]);
      (a + ActiveLeak(s, steps[0]), q + QueueLeak(s, steps[0]))
  }

  predicate Initial(s: State) {
    |s.jobs| == 0 && |s.exported| == 0 && s.active == 0 && s.queue == 0
  }

  lemma {:induction false} RunAccounting(s: State, steps: seq<Step>)
    requires Fresh(s) && IsRun(s, steps)
    ensures
      var s' := After(s, steps);
      && ActiveExcess(s') == ActiveExcess(s) + Leaks(s, steps).0
      && QueueExcess(s') == QueueExcess(s) + Leaks(s, steps).1
    decreases |steps|
  {
    if steps != [] {
      StepAccounting(s, steps[0]);
      RunAccounting(Next(s, steps[0]), steps[1..]);
    }
  }

  /**
    Conservation over every run: the active gauge is the number of stored non-terminal jobs plus
    the leaks, the queue gauge the number of stored pending jobs plus the leaks.
  */
  lemma GaugeConservation(s: State, steps: seq<Step>)
    requires Initial(s) && IsRun(s, steps)
    ensures
      var s' := After(s, steps);
      && s'.active == |LiveJobs(s'.jobs)| + Leaks(s, steps).0
      && s'.queue == |PendingJobs(s'.jobs)| + Leaks(s, steps).1
  {
    assert LiveJobs(s.jobs) == {} && PendingJobs(s.jobs) == {};
    RunAccounting(s, steps);
  }

  /******* Exports and terminal states *******/

  ghost predicate ExportInv(s: State) {
    && Fresh(s)
    && (forall id | id in s.exported :: s.exported[id] == 1 && (id in s.jobs ==> Terminal(s.jobs[id].state)))
  }

  lemma StepKeepsExports(s: State, t: Step)
    requires ExportInv(s) && CanStep(s, t)
    ensures ExportInv(Next(s, t))
  {
    StepAccounting(s, t);
  }

  /** Event-driven export fires at most once per job, whatever reads fail. */
  lemma {:induction false} ExportedAtMostOnce(s: State, steps: seq<Step>)
    requires ExportInv(s) && IsRun(s, steps)
    ensures ExportInv(After(s, steps))
    decreases |steps|
  {
    if steps != [] {
      StepKeepsExports(s, steps[0]);
      ExportedAtMostOnce(Next(s, steps[0]), steps[1..]);
    }
  }

  /** An accepted event, after which the job can be read, ends job `id`. */
  predicate Ends(s: State, t: Step, id: Id) {
    t.Update? && t.id == id && t.exportReadOk && Accepted(s, t).Some? && Accepted(s, t).value.state !in {Pending, Running}
  }

  predicate EndedIn(s: State, steps: seq<Step>, id: Id)
    requires IsRun(s, steps)
    decreases |steps|
  {
    steps != [] && (Ends(s, steps[0], id) || EndedIn(Next(s, steps[0]), steps[1..], id))
  }

  lemma ExportStep(s: State, t: Step, id: Id)
    requires ExportInv(s) && CanStep(s, t)
    ensures id in Next(s, t).exported <==> id in s.exported || Ends(s, t, id)
    ensures id in Next(s, t).exported ==> Next(s, t).exported[id] == 1
  {
    StepKeepsExports(s, t);
  }

  /** Over every run, exactly the jobs that an accepted event has ended are exported, and each of them once. */
  lemma {:induction false} ExportedExactly(s: State, steps: seq<Step>, id: Id)
    requires ExportInv(s) && IsRun(s, steps)
    ensures id in After(s, steps).exported <==> id in s.exported || EndedIn(s, steps, id)
    ensures id in After(s, steps).exported ==> After(s, steps).exported[id] == 1
    decreases |steps|
  {
    if steps != [] {
      StepKeepsExports(s, steps[0]);
      ExportStep(s, steps[0], id);
      ExportedExactly(Next(s, steps[0]), steps[1..], id);
    }
  }

  lemma ExportedFromStart(s: State, steps: seq<Step>, id: Id)
    requires Initial(s) && IsRun(s, steps)
    ensures id in After(s, steps).exported <==> EndedIn(s, steps, id)
  {
    ExportedExactly(s, steps, id);
  }

  /******* What each handler does to its job *******/

  /** A step concerns one job; all others stay as they are. */
  lemma OtherJobsKept(s: State, t: Step, id: Id)
    requires CanStep(s, t) && id != t.id
    ensures (id in Next(s, t).jobs <==> id in s.jobs) && (id in s.jobs ==> Next(s, t).jobs[id] == s.jobs[id])
  {
  }

  /** A stored job is pending and unreported, or failed when it could not be started and that was recorded. */
  lemma CreateEffect(s: State, t: Step)
    requires Fresh(s) && CanStep(s, t) && t.Create?
    ensures t.id in Next(s, t).jobs <==> t.stored
    ensures t.stored ==>
      var job := Next(s, t).jobs[t.id];
      && job.kind == t.kind && job.benchmarks == t.benchmarks && job.entries == []
      && job.state == if t.start == StartFailed(true) then Failed else Pending
  {
  }

  /** Cancelling drops what is not settled and leaves what is; deleting removes the job. */
  lemma CancelEffect(s: State, t: Step)
    requires CanStep(s, t) && t.Cancel? && t.storedOk && t.id in s.jobs && s.jobs[t.id].kind == Evaluation
    ensures t.hard ==> t.id !in Next(s, t).jobs
    ensures !t.hard && s.jobs[t.id].state in {Pending, Running} ==>
      && t.id in Next(s, t).jobs
      && var was, now := s.jobs[t.id], Next(s, t).jobs[t.id];
      && now.state == Cancelled && now.kind == was.kind && now.benchmarks == was.benchmarks && |now.entries| == |was.entries|
      && forall i | 0 <= i < |was.entries| ::
           && now.entries[i].ref == was.entries[i].ref && now.entries[i].index == was.entries[i].index
           && now.entries[i].status ==
              if was.entries[i].status in {Done, Broken, Dropped} then was.entries[i].status else Dropped
    ensures !t.hard && s.jobs[t.id].state !in {Pending, Running} ==> Next(s, t) == s
  {
  }

  lemma DeleteEffect(s: State, t: Step)
    requires CanStep(s, t) && t.DeletePostProcessing?
    ensures t.id in Next(s, t).jobs <==> t.id in s.jobs && !(t.storedOk && s.jobs[t.id].kind == PostProcessing)
    ensures t.id in Next(s, t).jobs ==> Next(s, t) == s
  {
  }

  /** A terminal job keeps its state and its reports until it is deleted. */
  lemma {:induction false} TerminalIsFinal(s: State, steps: seq<Step>, id: Id)
    requires Fresh(s) && IsRun(s, steps) && id in s.used && (id in s.jobs ==> Terminal(s.jobs[id].state))
    ensures
      var s' := After(s, steps);
      id in s'.jobs ==> id in s.jobs && s'.jobs[id] == s.jobs[id]
    decreases |steps|
  {
    if steps != [] {
      StepAccounting(s, steps[0]);
      TerminalIsFinal(Next(s, steps[0]), steps[1..], id);
    }
  }

  /******* What storage computes from the reports *******/

  ghost predicate WellReported(entries: seq<Entry>, benchmarks: seq<BenchmarkRef>) {
    && (forall i | 0 <= i < |entries| :: entries[i].index < |benchmarks| && benchmarks[entries[i].index] == entries[i].ref)
    && DistinctIndices(entries)
  }

  ghost predicate JobInv(job: Job) {
    && job.benchmarks != []
    && WellReported(job.entries, job.benchmarks)
    && (!Terminal(job.state) ==> job.state == OverallOf(job.entries, |job.benchmarks|))
  }

  function Landed(e: Entry, ev: Event): Entry
    requires ev.index >= 0
  {
    if Settled(e.status) && !Settled(ev.status) then e else Entry(ev.ref, ev.index, ev.status)
  }

  ghost predicate LandsAt(entries: seq<Entry>, ev: Event, r: seq<Entry>, j: int)
    requires ev.index >= 0
  {
    0 <= j < |entries| && entries[j].index == ev.index && r == entries[j := Landed(entries[j], ev)]
  }

  ghost predicate Opens(entries: seq<Entry>, ev: Event, r: seq<Entry>)
    requires ev.index >= 0
  {
    r == entries + [Entry(ev.ref, ev.index, ev.status)] && forall i | 0 <= i < |entries| :: entries[i].index != ev.index
  }

  /** An event lands on the entry of its index (or is ignored there), or opens a new entry. */
  lemma {:induction false} ReportShape(entries: seq<Entry>, ev: Event, benchmarks: seq<BenchmarkRef>)
    requires WellReported(entries, benchmarks) && 0 <= ev.index < |benchmarks| && benchmarks[ev.index] == ev.ref
    ensures Opens(entries, ev, Report(entries, ev)) || exists j :: LandsAt(entries, ev, Report(entries, ev), j)
  {
    var r := Report(entries, ev);
    if entries == [] {
    } else if Matches(entries[0], ev) {
      assert LandsAt(entries, ev, r, 0);
    } else {
      var rest := entries[1..];
      ReportShape(rest, ev, benchmarks);
      if Opens(rest, ev, Report(rest, ev)) {
        OpensBehind(entries, ev, Report(rest, ev));
      } else {
        var j :| LandsAt(rest, ev, Report(rest, ev), j);
        LandsBehind(entries, ev, Report(rest, ev), j);
      }
    }
  }

  lemma OpensBehind(entries: seq<Entry>, ev: Event, r: seq<Entry>)
    requires ev.index >= 0 && entries != [] && entries[0].index != ev.index && Opens(entries[1..], ev, r)
    ensures Opens(entries, ev, [entries[0]] + r)
  {
    assert [entries[0]] + r == entries + [Entry(ev.ref, ev.index, ev.status)];
    assert forall i | 0 < i < |entries| :: entries[i] == entries[1..][i - 1];
  }

  lemma LandsBehind(entries: seq<Entry>, ev: Event, r: seq<Entry>, j: nat)
    requires ev.index >= 0 && entries != [] && LandsAt(entries[1..], ev, r, j)
    ensures LandsAt(entries, ev, [entries[0]] + r, j + 1)
  {
    assert [entries[0]] + r == entries[j + 1 := Landed(entries[j + 1], ev)];
  }

  /** Which events storage accepts: for an unfinished job, on a benchmark that is at the stated index. */
  lemma AcceptedExactly(job: Job, ev: Event)
    ensures UpdateJob(job, ev).Some? <==>
            job.state in {Pending, Running} && 0 <= ev.index < |job.benchmarks| && job.benchmarks[ev.index] == ev.ref
  {
  }

  /**
    What an accepted event records: its benchmark has the reported status, unless it had settled
    and the report would unsettle it; every other benchmark has the status it had.
  */
  lemma UpdateRecords(job: Job, ev: Event, b: int, s: Status)
    requires JobInv(job) && UpdateJob(job, ev).Some?
    ensures
      var job' := UpdateJob(job, ev).value;
      && job'.kind == job.kind && job'.benchmarks == job.benchmarks
      && (b != ev.index ==> (Reported(job'.entries, b, {s}) <==> Reported(job.entries, b, {s})))
      && var stays := Reported(job.entries, ev.index, {Done, Broken, Dropped}) && ev.status in {Queued, Active};
      && (b == ev.index && !stays ==> (Reported(job'.entries, b, {s}) <==> s == ev.status))
      && (b == ev.index && stays ==> (Reported(job'.entries, b, {s}) <==> Reported(job.entries, b, {s})))
  {
    var es, r := job.entries, Report(job.entries, ev);
    ReportShape(es, ev, job.benchmarks);
    if Opens(es, ev, r) {
      OpeningRecords(es, ev, r, b, s);
    } else {
      var j :| LandsAt(es, ev, r, j);
      LandingRecords(es, job.benchmarks, ev, r, j, b, s);
    }
  }

  lemma OpeningRecords(es: seq<Entry>, ev: Event, r: seq<Entry>, b: int, s: Status)
    requires ev.index >= 0 && Opens(es, ev, r)
    ensures !Reported(es, ev.index, {Done, Broken, Dropped})
    ensures Reported(r, b, {s}) <==> if b == ev.index then s == ev.status else Reported(es, b, {s})
  {
    assert r[|es|] == Entry(ev.ref, ev.index, ev.status);
    if i :| 0 <= i < |es| && es[i].index == b && es[i].status in {s} { assert r[i] == es[i]; }
  }

  lemma LandingRecords(es: seq<Entry>, benchmarks: seq<BenchmarkRef>, ev: Event, r: seq<Entry>, j: nat, b: int, s: Status)
    requires WellReported(es, benchmarks) && ev.index >= 0 && LandsAt(es, ev, r, j)
    ensures Reported(es, ev.index, {Done, Broken, Dropped}) <==> es[j].status in {Done, Broken, Dropped}
    ensures b != ev.index ==> (Reported(r, b, {s}) <==> Reported(es, b, {s}))
    ensures
      var stays := es[j].status in {Done, Broken, Dropped} && ev.status in {Queued, Active};
      && (b == ev.index && !stays ==> (Reported(r, b, {s}) <==> s == ev.status))
      && (b == ev.index && stays ==> (Reported(r, b, {s}) <==> Reported(es, b, {s})))
  {
    assert r[j] == Landed(es[j], ev) && r[j].index == ev.index;
    assert forall h | 0 <= h < |es| && h != j :: r[h] == es[h] && es[h].index != ev.index;
    if b != ev.index {
      if i :| 0 <= i < |es| && es[i].index == b && es[i].status in {s} { assert r[i] == es[i]; }
      if i :| 0 <= i < |r| && r[i].index == b && r[i].status in {s} { assert r[i] == es[i]; }
    }
  }

  lemma UpdateKeepsJobInv(job: Job, ev: Event)
    requires JobInv(job) && UpdateJob(job, ev).Some?
    ensures JobInv(UpdateJob(job, ev).value)
  {
    ReportShape(job.entries, ev, job.benchmarks);
  }

  lemma {:induction false} CountZero(entries: seq<Entry>, s: Status)
    ensures Count(entries, s) == 0 <==> forall i | 0 <= i < |entries| :: entries[i].status != s
  {
    if entries != [] {
      CountZero(entries[..|entries| - 1], s);
    }
  }

  lemma PendingMeansAllQueued(entries: seq<Entry>, total: nat)
    requires total > 0
    ensures OverallOf(entries, total).Pending? <==> AllQueued(entries)
  {
    CountZero(entries, Done);
    CountZero(entries, Broken);
    CountZero(entries, Active);
    CountZero(entries, Dropped);
  }

  /**
    Storage does move a running job backwards. It happens exactly when a "pending" event arrives
    for the only benchmark that has reported anything else, and that benchmark is running.
  */
  lemma RegressionExact(job: Job, ev: Event)
    requires JobInv(job) && job.state.Running? && UpdateJob(job, ev).Some?
    ensures UpdateJob(job, ev).value.state.Pending? <==>
            ev.status.Queued? && exists j :: OnlyActive(job.entries, j) && job.entries[j].index == ev.index
  {
    var es, r := job.entries, Report(job.entries, ev);
    ReportShape(es, ev, job.benchmarks);
    PendingMeansAllQueued(es, |job.benchmarks|);
    PendingMeansAllQueued(r, |job.benchmarks|);
    if Opens(es, ev, r) {
      OpeningKeepsRunning(es, ev, r);
    } else {
      var j :| LandsAt(es, ev, r, j);
      LandingRegresses(es, ev, r, j);
      if h :| OnlyActive(es, h) && es[h].index == ev.index {
        SameEntry(es, job.benchmarks, h, j);
      }
    }
  }

  /** Entry `j` is the only one that is not queued, and it is running. */
  ghost predicate OnlyActive(entries: seq<Entry>, j: int) {
    && 0 <= j < |entries| && entries[j].status.Active?
    && forall h | 0 <= h < |entries| && h != j :: entries[h].status.Queued?
  }

  ghost predicate AllQueued(entries: seq<Entry>) { forall i | 0 <= i < |entries| :: entries[i].status.Queued? }

  lemma OpeningKeepsRunning(es: seq<Entry>, ev: Event, r: seq<Entry>)
    requires ev.index >= 0 && Opens(es, ev, r) && !AllQueued(es)
    ensures !AllQueued(r)
  {
    var i :| 0 <= i < |es| && !es[i].status.Queued?;
    assert r[i] == es[i];
  }

  lemma LandingRegresses(es: seq<Entry>, ev: Event, r: seq<Entry>, j: nat)
    requires ev.index >= 0 && LandsAt(es, ev, r, j) && !AllQueued(es)
    ensures AllQueued(r) <==> ev.status.Queued? && OnlyActive(es, j)
  {
    assert r[j] == Landed(es[j], ev);
    assert forall h | 0 <= h < |es| && h != j :: r[h] == es[h];
    if AllQueued(r) {
      assert forall h | 0 <= h < |es| && h != j :: es[h].status.Queued?;
      assert !es[j].status.Queued?;
    }
  }

  lemma SameEntry(es: seq<Entry>, benchmarks: seq<BenchmarkRef>, h: nat, j: nat)
    requires WellReported(es, benchmarks) && h < |es| && j < |es| && es[h].index == es[j].index
    ensures h == j
  {
  }

  /** Benchmark `b` has last reported a status in `ss`. */
  ghost predicate Reported(entries: seq<Entry>, b: int, ss: set<Status>) {
    exists i :: 0 <= i < |entries| && entries[i].index == b && entries[i].status in ss
  }

  /** Every benchmark of a job with `total` of them has. */
  ghost predicate AllReported(entries: seq<Entry>, total: nat, ss: set<Status>) {
    forall b | 0 <= b < total :: Reported(entries, b, ss)
  }

  function CountIn(entries: seq<Entry>, ss: set<Status>): nat {
    if entries == [] then 0
    else CountIn(entries[..|entries| - 1], ss) + if entries[|entries| - 1].status in ss then 1 else 0
  }

  lemma {:induction false} CountOfTwo(entries: seq<Entry>, s: Status, ss: set<Status>)
    requires s !in ss
    ensures CountIn(entries, ss + {s}) == CountIn(entries, ss) + Count(entries, s)
  {
    if entries != [] { CountOfTwo(entries[..|entries| - 1], s, ss); }
  }

  lemma {:induction false} CountOfNone(entries: seq<Entry>)
    ensures CountIn(entries, {}) == 0
  {
    if entries != [] { CountOfNone(entries[..|entries| - 1]); }
  }

  function Indices(entries: seq<Entry>, ss: set<Status>): set<int> {
    if entries == [] then {}
    else
      var last := entries[|entries| - 1];
      Indices(entries[..|entries| - 1], ss) + (if last.status in ss then {last.index as int} else {})
  }

  lemma {:induction false} IndicesMember(entries: seq<Entry>, b: int, ss: set<Status>)
    ensures b in Indices(entries, ss) <==> Reported(entries, b, ss)
  {
    if entries != [] {
      var n := |entries| - 1;
      var rest := entries[..n];
      IndicesMember(rest, b, ss);
      assert forall i | 0 <= i < n :: rest[i] == entries[i];
    }
  }

  ghost predicate DistinctIndices(entries: seq<Entry>) {
    forall i, j | 0 <= i < j < |entries| :: entries[i].index != entries[j].index
  }

  lemma {:induction false} CountIsIndices(entries: seq<Entry>, ss: set<Status>)
    requires DistinctIndices(entries)
    ensures CountIn(entries, ss) == |Indices(entries, ss)|
  {
    if entries != [] {
      var n := |entries| - 1;
      var rest := entries[..n];
      assert DistinctIndices(rest);
      CountIsIndices(rest, ss);
      IndicesMember(rest, entries[n].index, ss);
      assert !Reported(rest, entries[n].index, ss);
    }
  }

  function Below(n: nat): (r: set<int>)
    ensures forall i :: i in r <==> 0 <= i < n
    ensures |r| == n
  {
    if n == 0 then {} else Below(n - 1) + {n - 1}
  }

  lemma SubsetSize(a: set<int>, b: set<int>)
    requires a <= b
    ensures |a| <= |b| && (|a| == |b| <==> b <= a)
  {
    assert b == a + (b - a);
  }

  lemma IndicesBelow(entries: seq<Entry>, benchmarks: seq<BenchmarkRef>, ss: set<Status>)
    requires WellReported(entries, benchmarks)
    ensures Indices(entries, ss) <= Below(|benchmarks|)
    ensures Below(|benchmarks|) <= Indices(entries, ss) <==> AllReported(entries, |benchmarks|, ss)
  {
    forall b ensures b in Indices(entries, ss) <==> Reported(entries, b, ss) { IndicesMember(entries, b, ss); }
    assert forall b | Reported(entries, b, ss) :: 0 <= b < |benchmarks|;
  }

  /** A count reaches the total exactly when every benchmark of the job has reported such a status. */
  lemma CountReachesTotal(entries: seq<Entry>, benchmarks: seq<BenchmarkRef>, ss: set<Status>)
    requires WellReported(entries, benchmarks)
    ensures CountIn(entries, ss) <= |benchmarks|
    ensures CountIn(entries, ss) == |benchmarks| <==> AllReported(entries, |benchmarks|, ss)
  {
    CountIsIndices(entries, ss);
    IndicesBelow(entries, benchmarks, ss);
    SubsetSize(Indices(entries, ss), Below(|benchmarks|));
  }

  lemma CountsAsSets(entries: seq<Entry>)
    ensures Count(entries, Done) == CountIn(entries, {Done})
    ensures Count(entries, Broken) == CountIn(entries, {Broken})
    ensures Count(entries, Dropped) == CountIn(entries, {Dropped})
    ensures Count(entries, Done) + Count(entries, Broken) == CountIn(entries, {Done, Broken})
    ensures Count(entries, Done) + Count(entries, Broken) + Count(entries, Dropped) == CountIn(entries, {Done, Broken, Dropped})
  {
    CountOfNone(entries);
    forall s: Status ensures CountIn(entries, {s}) == Count(entries, s) {
      CountOfTwo(entries, s, {});
      assert {} + {s} == {s};
    }
    CountOfTwo(entries, Broken, {Done});
    assert {Done} + {Broken} == {Done, Broken};
    CountOfTwo(entries, Dropped, {Done, Broken});
    assert {Done, Broken} + {Dropped} == {Done, Broken, Dropped};
  }

  /**
    What each overall state says about the benchmarks: all done, all failed or all cancelled; all
    settled in different ways; some not settled, with or without one that has left the queue.
  */
  lemma OverallExact(entries: seq<Entry>, benchmarks: seq<BenchmarkRef>)
    requires WellReported(entries, benchmarks) && benchmarks != []
    ensures
      var o, n := OverallOf(entries, |benchmarks|), |benchmarks|;
      && (o.Completed? <==> AllReported(entries, n, {Done}))
      && (o.Failed? <==> AllReported(entries, n, {Broken}))
      && (o.Cancelled? <==> AllReported(entries, n, {Dropped}))
      && (o.PartiallyFailed? <==>
            AllReported(entries, n, {Done, Broken, Dropped}) && !AllReported(entries, n, {Done}) &&
            !AllReported(entries, n, {Broken}) && !AllReported(entries, n, {Dropped}))
      && (o.Running? <==> !AllReported(entries, n, {Done, Broken, Dropped}) && !AllQueued(entries))
      && (o.Pending? <==> AllQueued(entries))
  {
    var n := |benchmarks|;
    CountsAsSets(entries);
    CountReachesTotal(entries, benchmarks, {Done});
    CountReachesTotal(entries, benchmarks, {Broken});
    CountReachesTotal(entries, benchmarks, {Dropped});
    CountReachesTotal(entries, benchmarks, {Done, Broken, Dropped});
    PendingMeansAllQueued(entries, n);
  }

  /** The same of the state that an accepted event leaves behind. */
  lemma UpdateExact(job: Job, ev: Event)
    requires JobInv(job) && UpdateJob(job, ev).Some?
    ensures
      var job' := UpdateJob(job, ev).value;
      && (job'.state.Completed? <==> AllReported(job'.entries, |job.benchmarks|, {Done}))
      && (Terminal(job'.state) <==> AllReported(job'.entries, |job.benchmarks|, {Done, Broken, Dropped}))
  {
    var job' := UpdateJob(job, ev).value;
    UpdateKeepsJobInv(job, ev);
    OverallExact(job'.entries, job.benchmarks);
    CountsAsSets(job'.entries);
    CountReachesTotal(job'.entries, job.benchmarks, {Done, Broken, Dropped});
  }

  ghost predicate StoreInv(s: State) { forall id | id in s.jobs :: JobInv(s.jobs[id]) }

  lemma NewJobInv(kind: Kind, benchmarks: seq<BenchmarkRef>, state: Overall)
    requires benchmarks != [] && (state.Pending? || state.Failed?)
    ensures JobInv(Job(kind, benchmarks, [], state))
  {
    PendingMeansAllQueued([], |benchmarks|);
  }

  lemma DropKeepsReports(entries: seq<Entry>, benchmarks: seq<BenchmarkRef>)
    requires WellReported(entries, benchmarks)
    ensures WellReported(DropUnsettled(entries), benchmarks)
  {
    var dropped := DropUnsettled(entries);
    assert forall i | 0 <= i < |entries| :: dropped[i].index == entries[i].index && dropped[i].ref == entries[i].ref;
  }

  lemma CancelKeepsJobInv(job: Job)
    requires JobInv(job) && SetStatus(job, Cancelled).Some?
    ensures JobInv(SetStatus(job, Cancelled).value)
  {
    DropKeepsReports(job.entries, job.benchmarks);
  }

  /** Every stored job is well reported in every run, so the exact lemmas apply to all of them. */
  lemma StepKeepsStore(s: State, t: Step)
    requires StoreInv(s) && CanStep(s, t)
    ensures StoreInv(Next(s, t))
  {
    var jobs := Next(s, t).jobs;
    forall id | id in jobs ensures JobInv(jobs[id]) {
      if id !in s.jobs || jobs[id] != s.jobs[id] {
        match t
        case Create(_, kind, benchmarks, _, _) => NewJobInv(kind, benchmarks, jobs[id].state);
        case Update(_, ev, _, _, _, _) => UpdateKeepsJobInv(s.jobs[id], ev);
        case Cancel(_, _, _) => CancelKeepsJobInv(s.jobs[id]);
        case DeletePostProcessing(_, _) =>
      }
    }
  }

  lemma {:induction false} RunKeepsStore(s: State, steps: seq<Step>)
    requires StoreInv(s) && IsRun(s, steps)
    ensures StoreInv(After(s, steps))
    decreases |steps|
  {
    if steps != [] {
      StepKeepsStore(s, steps[0]);
      RunKeepsStore(Next(s, steps[0]), steps[1..]);
    }
  }

  /******* The law without read failures *******/

  /** Every read that an update makes succeeds. */
  predicate ReadsOk(steps: seq<Step>) {
    forall i | 0 <= i < |steps| && steps[i].Update? :: steps[i].readOk && steps[i].gaugeReadOk
  }

  /** An accepted event moves a job back to pending. */
  predicate Regresses(s: State, t: Step) {
    t.Update? && Accepted(s, t).Some? && !s.jobs[t.id].state.Pending? && Accepted(s, t).value.state.Pending?
  }

  function Regressions(s: State, steps: seq<Step>): nat
    requires IsRun(s, steps)
    decreases |steps|
  {
    if steps == [] then 0
    else Regressions(Next(s, steps[0]), steps[1..]) + if Regresses(s, steps[0]) then 1 else 0
  }

  /** How many non-terminal and how many pending jobs the cancel endpoint deleted. */
  function HardDeleted(s: State, steps: seq<Step>): (int, int)
    requires IsRun(s, steps)
    decreases |steps|
  {
    if steps == [] then (0, 0)
    else
      var t := steps[0];
      var (live, pending) := HardDeleted(Next(s, t), steps[1..]);
      (live + One(HardDeletes(s, t) && !Terminal(s.jobs[t.id].state)),
       pending + One(HardDeletes(s, t) && s.jobs[t.id].state.Pending?))
  }

  lemma {:induction false} ReadLeaks(s: State, steps: seq<Step>)
    requires IsRun(s, steps) && ReadsOk(steps)
    ensures Leaks(s, steps) == (HardDeleted(s, steps).0, HardDeleted(s, steps).1 - Regressions(s, steps))
    decreases |steps|
  {
    if steps != [] {
      assert ReadsOk(steps[1..]);
      ReadLeaks(Next(s, steps[0]), steps[1..]);
    }
  }

  /**
    When reads succeed, the active gauge is off by the hard deletions alone, and the queue gauge
    exactly when no accepted event has moved a job back to pending; each one that did costs one.
  */
  lemma CleanConservation(s: State, steps: seq<Step>)
    requires Initial(s) && IsRun(s, steps) && ReadsOk(steps)
    ensures
      var s' := After(s, steps);
      && s'.active == |LiveJobs(s'.jobs)| + HardDeleted(s, steps).0
      && s'.queue == |PendingJobs(s'.jobs)| + HardDeleted(s, steps).1 - Regressions(s, steps)
      && (s'.queue == |PendingJobs(s'.jobs)| + HardDeleted(s, steps).1 <==> Regressions(s, steps) == 0)
  {
    GaugeConservation(s, steps);
    ReadLeaks(s, steps);
  }

  /** One benchmark that reports running, pending, running leaves the queue gauge below zero. */
  lemma QueueGaugeCanGoNegative(s: State, ref: BenchmarkRef)
    requires Initial(s) && s.used == {}
    ensures
      var run := Update(0, Event(ref, 0, Active), true, true, true, true);
      var back := Update(0, Event(ref, 0, Queued), true, true, true, true);
      var steps := [Create(0, Evaluation, [ref], true, Started), run, back, run];
      IsRun(s, steps) && After(s, steps).queue == -1 && |PendingJobs(After(s, steps).jobs)| == 0
  {
    var run := Update(0, Event(ref, 0, Active), true, true, true, true);
    var back := Update(0, Event(ref, 0, Queued), true, true, true, true);
    var create := Create(0, Evaluation, [ref], true, Started);
    var s1 := Next(s, create);
    assert s1.jobs == map[0 := Job(Evaluation, [ref], [], Pending)];
    BackAndForth(s1, ref);
    RunCons(s, create, [run, back, run]);
  }

  /** A new job with one benchmark, taken to running, back, and to running again. */
  lemma BackAndForth(s: State, ref: BenchmarkRef)
    requires s.jobs == map[0 := Job(Evaluation, [ref], [], Pending)]
    ensures
      var run := Update(0, Event(ref, 0, Active), true, true, true, true);
      var back := Update(0, Event(ref, 0, Queued), true, true, true, true);
      var steps := [run, back, run];
      IsRun(s, steps) && After(s, steps).queue == s.queue - 2 && |PendingJobs(After(s, steps).jobs)| == 0
  {
    var run := Update(0, Event(ref, 0, Active), true, true, true, true);
    var back := Update(0, Event(ref, 0, Queued), true, true, true, true);
    SoloStep(s, ref, [], Pending, Active);
    var s2 := Next(s, run);
    SoloStep(s2, ref, [Entry(ref, 0, Active)], Running, Queued);
    var s3 := Next(s2, back);
    SoloStep(s3, ref, [Entry(ref, 0, Queued)], Pending, Active);
    var s4 := Next(s3, run);
    assert PendingJobs(s4.jobs) == {};
    RunCons(s3, run, []);
    RunCons(s2, back, [run]);
    RunCons(s, run, [back, run]);
  }

  lemma SoloStep(s: State, ref: BenchmarkRef, entries: seq<Entry>, state: Overall, to: Status)
    requires (entries == [] || exists from :: entries == [Entry(ref, 0, from)] && !Settled(from)) && !Terminal(state) && !Settled(to)
    requires s.jobs == map[0 := Job(Evaluation, [ref], entries, state)]
    ensures
      var state' := if to.Active? then Running else Pending;
      Next(s, Update(0, Event(ref, 0, to), true, true, true, true)) ==
      s.(jobs := map[0 := Job(Evaluation, [ref], [Entry(ref, 0, to)], state')],
         queue := s.queue - One(state.Pending? && state'.Running?))
  {
    OneBenchmark(ref, entries, state, to);
  }

  lemma OneBenchmark(ref: BenchmarkRef, entries: seq<Entry>, state: Overall, to: Status)
    requires (entries == [] || exists from :: entries == [Entry(ref, 0, from)] && !Settled(from)) && !Terminal(state) && !Settled(to)
    ensures UpdateJob(Job(Evaluation, [ref], entries, state), Event(ref, 0, to)) ==
            Some(Job(Evaluation, [ref], [Entry(ref, 0, to)], if to.Active? then Running else Pending))
  {
    var e := [Entry(ref, 0, to)];
    assert Report(entries, Event(ref, 0, to)) == e;
    assert e[..0] == [];
    assert Count(e, Done) == Count(e, Broken) == Count(e, Dropped) == 0;
    assert Count(e, Active) == One(to.Active?);
  }

  lemma RunCons(s: State, t: Step, rest: seq<Step>)
    requires CanStep(s, t) && IsRun(Next(s, t), rest)
    ensures IsRun(s, [t] + rest) && After(s, [t] + rest) == After(Next(s, t), rest)
  {
    assert ([t] + rest)[1..] == rest;
  }
}
