/**
  The config watcher's debounce loop: one select loop, a timer per burst of file events, reload
  callbacks running on their own goroutines, a WaitGroup counting tickets and a mutex around
  reload. Each action another goroutine can observe is one step; a run is an interleaving.

  `disk` counts relevant changes to the config files, so "what a reload read" is a number.
*/
module ConfigWatcher {
  import opened Wrappers

  /** A callback created by time.AfterFunc. */
  datatype Callback =
    | Armed
    | Stopped                     // Timer.Stop returned true: it will never run
    | Fired                       // running, before reloadMu.Lock
    | Locked                      // holds reloadMu, nothing read yet
    | ReadingCollections(providers: nat)            // provider files read at that version
    | ReadAll(providers: nat, collections: nat)
    | Released                    // reload returned; the deferred Done is still due
    | Finished

  datatype Event = Event(relevant: bool, version: nat)

  datatype Loop =
    | Select
    | Got(version: nat)           // a relevant event was received
    | TimerStopped(version: nat)  // Stop returned true; Done not called yet
    | Cleared(version: nat)       // before Add(1)
    | Added(version: nat)         // before AfterFunc
    | Cancelled                   // ctx.Done() was chosen
    | Waiting(leaked: bool)       // in reloadWg.Wait(); leaked: Stop returned true on the way here
    | Returned

  datatype State = State(
    disk: nat,
    queue: seq<Event>,            // events not yet received by the loop
    loop: Loop,
    timer: Option<nat>,           // debounceTimer
    wg: int,
    mu: Option<nat>,              // callback holding reloadMu
    callbacks: seq<Callback>,
    handled: nat,                 // version of the last relevant event the loop has handled
    started: nat,                 // highest version at which a reload began reading
    stored: nat,                  // provider version last given to storage
    storedCollections: nat,       // collection version last given to storage
    lastOk: bool)                 // the last reload to finish succeeded

  datatype Step =
    | Change(relevant: bool)      // the file system changes and an event is queued
    | Receive
    | Cancel
    | CloseChannel
    | LoopStep
    | Fire(t: nat)
    | Run(t: nat)
    | EndReload(t: nat, ok: bool)

  predicate CanStep(s: State, x: Step) {
    match x
    case Change(_) => true
    case Receive => s.loop.Select? && s.queue != []
    case Cancel => s.loop.Select?
    case CloseChannel => s.loop.Select?
    case LoopStep =>
      (match s.loop
       case Got(_) => s.timer.Some? ==> s.timer.value < |s.callbacks|
       case TimerStopped(_) => true
       case Cleared(_) => true
       case Added(_) => true
       case Cancelled => s.timer.Some? ==> s.timer.value < |s.callbacks|
       case Waiting(_) => s.wg == 0
       case _ => false)
    case Fire(t) => t < |s.callbacks| && s.callbacks[t].Armed?
    case Run(t) =>
      && t < |s.callbacks|
      && (match s.callbacks[t]
          case Fired => s.mu.None?
          case Locked => true
          case ReadingCollections(_) => true
          case Released => true
          case _ => false)
    case EndReload(t, _) => t < |s.callbacks| && s.callbacks[t].ReadAll?
  }

  function Set(s: State, t: nat, c: Callback): State
    requires t < |s.callbacks|
  {
    s.(callbacks := s.callbacks[t := c])
  }

  predicate TimerArmed(s: State) {
    s.timer.Some? && s.timer.value < |s.callbacks| && s.callbacks[s.timer.value].Armed?
  }

  function LoopNext(s: State): State
    requires CanStep(s, LoopStep)
  {
    match s.loop
    case Got(v) =>
      if TimerArmed(s) then Set(s, s.timer.value, Stopped).(loop := TimerStopped(v))
      else s.(loop := Cleared(v))
    case TimerStopped(v) => s.(wg := s.wg - 1, loop := Cleared(v))
    case Cleared(v) => s.(wg := s.wg + 1, loop := Added(v))
    case Added(v) =>
      s.(callbacks := s.callbacks + [Armed], timer := Some(|s.callbacks|), handled := v, loop := Select)
    case Cancelled =>
      if TimerArmed(s) then Set(s, s.timer.value, Stopped).(loop := Waiting(true))
      else s.(loop := Waiting(false))
    case Waiting(_) => s.(loop := Returned)
    case _ => s
  }

  function RunNext(s: State, t: nat): State
    requires CanStep(s, Run(t))
  {
    match s.callbacks[t]
    case Fired => Set(s, t, Locked).(mu := Some(t))
    case Locked =>
      Set(s, t, ReadingCollections(s.disk)).(started := if s.disk > s.started then s.disk else s.started)
    case ReadingCollections(p) => Set(s, t, ReadAll(p, s.disk))
    case Released => Set(s, t, Finished).(wg := s.wg - 1)
    case _ => s
  }

  function Next(s: State, x: Step): State
    requires CanStep(s, x)
  {
    match x
    case Change(relevant) =>
      var version := if relevant then s.disk + 1 else s.disk;
      s.(disk := version, queue := s.queue + [Event(relevant, version)])
    case Receive =>
      s.(queue := s.queue[1..], loop := if s.queue[0].relevant then Got(s.queue[0].version) else Select)
    case Cancel => s.(loop := Cancelled)
    case CloseChannel => s.(loop := Waiting(false))
    case LoopStep => LoopNext(s)
    case Fire(t) => Set(s, t, Fired)
    case Run(t) => RunNext(s, t)
    case EndReload(t, ok) =>
      var ReadAll(providers, collections) := s.callbacks[t];
      var s' := Set(s, t, Released).(mu := None, lastOk := ok);
      if ok then s'.(stored := providers, storedCollections := collections) else s'
  }

  predicate IsRun(s: State, steps: seq<Step>)
    decreases |steps|
  {
    steps == [] || (CanStep(s, steps[0]) && IsRun(Next(s, steps[0]), steps[1..]))
  }

  function After(s: State, steps: seq<Step>): State
    requires IsRun(s, steps)
    decreases |steps|
  {
    if steps == [] then s else After(Next(s, steps[0]), steps[1..])
  }

  /******* Tickets *******/

  /** The callback is armed or has not called Done yet. */
  predicate Live(c: Callback) { !c.Stopped? && !c.Finished? }

  function Outstanding(cs: seq<Callback>): nat {
    if cs == [] then 0 else Outstanding(cs[..|cs| - 1]) + (if Live(cs[|cs| - 1]) then 1 else 0)
  }

  lemma {:induction false} OutstandingUpdate(cs: seq<Callback>, t: nat, c: Callback)
    requires t < |cs|
    ensures Outstanding(cs[t := c]) == Outstanding(cs) - (if Live(cs[t]) then 1 else 0) + (if Live(c) then 1 else 0)
  {
    var n := |cs| - 1;
    if t == n {
      assert cs[t := c][..n] == cs[..n];
    } else {
      assert cs[t := c][..n] == cs[..n][t := c];
      OutstandingUpdate(cs[..n], t, c);
    }
  }

  lemma {:induction false} OutstandingZero(cs: seq<Callback>)
    ensures Outstanding(cs) == 0 <==> forall t | 0 <= t < |cs| :: !Live(cs[t])
  {
    if cs != [] {
      var n := |cs| - 1;
      OutstandingZero(cs[..n]);
      assert forall t | 0 <= t < n :: cs[..n][t] == cs[t];
    }
  }

  /** Tickets the loop itself holds: one between Stop and Done, one between Add and AfterFunc, one leaked. */
  function LoopTickets(loop: Loop): nat {
    match loop
    case TimerStopped(_) => 1
    case Added(_) => 1
    case Waiting(leaked) => if leaked then 1 else 0
    case _ => 0
  }

  ghost predicate TicketInv(s: State) {
    && (s.loop.Returned? || s.wg == Outstanding(s.callbacks) + LoopTickets(s.loop))
    && (s.loop.Returned? ==> s.wg == 0 == Outstanding(s.callbacks))
    && (s.timer.Some? ==> s.timer.value < |s.callbacks|)
    && (forall t | 0 <= t < |s.callbacks| && s.callbacks[t].Armed? :: s.timer == Some(t))
    && (s.loop.TimerStopped? || s.loop.Cleared? || s.loop.Added? || s.loop == Waiting(true) ==> !TimerArmed(s))
  }

  lemma StopKeepsTickets(s: State, loop: Loop)
    requires TicketInv(s) && TimerArmed(s) && LoopTickets(s.loop) == 0 && LoopTickets(loop) == 1
    requires !s.loop.Returned? && !loop.Returned?
    ensures TicketInv(Set(s, s.timer.value, Stopped).(loop := loop))
  {
    OutstandingUpdate(s.callbacks, s.timer.value, Stopped);
  }

  lemma AfterFuncKeepsTickets(s: State)
    requires TicketInv(s) && s.loop.Added?
    ensures TicketInv(LoopNext(s))
  {
    var cs := s.callbacks + [Armed];
    assert cs[..|s.callbacks|] == s.callbacks;
    assert forall t | 0 <= t < |s.callbacks| :: cs[t] == s.callbacks[t] && !cs[t].Armed?;
  }

  lemma LoopStepKeepsTickets(s: State)
    requires TicketInv(s) && CanStep(s, LoopStep)
    ensures TicketInv(LoopNext(s))
  {
    if s.loop.Added? {
      AfterFuncKeepsTickets(s);
    } else if s.loop.Got? && TimerArmed(s) {
      StopKeepsTickets(s, TimerStopped(s.loop.version));
    } else if s.loop.Cancelled? && TimerArmed(s) {
      StopKeepsTickets(s, Waiting(true));
    }
  }

  /** A live callback moves on, giving its ticket back exactly when it finishes. */
  lemma CallbackKeepsTickets(s: State, s': State, t: nat, c: Callback)
    requires TicketInv(s) && t < |s.callbacks| && Live(s.callbacks[t])
    requires !c.Armed? && !c.Stopped?
    requires s'.callbacks == s.callbacks[t := c] && s'.loop == s.loop && s'.timer == s.timer
    requires s'.wg == s.wg - (if c.Finished? then 1 else 0)
    ensures TicketInv(s')
  {
    OutstandingUpdate(s.callbacks, t, c);
    OutstandingZero(s.callbacks);
  }

  lemma StepKeepsTickets(s: State, x: Step)
    requires TicketInv(s) && CanStep(s, x)
    ensures TicketInv(Next(s, x))
  {
    var s' := Next(s, x);
    match x
    case LoopStep => LoopStepKeepsTickets(s);
    case Fire(t) => CallbackKeepsTickets(s, s', t, Fired);
    case Run(t) => CallbackKeepsTickets(s, s', t, s'.callbacks[t]);
    case EndReload(t, _) => CallbackKeepsTickets(s, s', t, Released);
    case _ =>
  }

  /******* Reloads and what they read *******/

  predicate InReload(c: Callback) { c.Locked? || c.ReadingCollections? || c.ReadAll? }

  predicate AwaitsRead(c: Callback) { c.Armed? || c.Fired? || c.Locked? }

  predicate MidEvent(loop: Loop) { loop.Got? || loop.TimerStopped? || loop.Cleared? || loop.Added? }

  /** The version of the latest relevant change, as seen from the queue, the loop or the past. */
  function Latest(s: State): nat {
    LatestIn(s.queue, if MidEvent(s.loop) then s.loop.version else s.handled)
  }

  function LatestIn(q: seq<Event>, otherwise: nat): nat {
    if q == [] then otherwise
    else if q[|q| - 1].relevant then q[|q| - 1].version
    else LatestIn(q[..|q| - 1], otherwise)
  }

  lemma {:induction false} LatestPop(q: seq<Event>, otherwise: nat)
    requires q != []
    ensures LatestIn(q, otherwise) == LatestIn(q[1..], if q[0].relevant then q[0].version else otherwise)
  {
    if |q| > 1 && !q[|q| - 1].relevant {
      LatestPop(q[..|q| - 1], otherwise);
      assert q[..|q| - 1][1..] == q[1..][..|q| - 2];
    }
  }

  ghost predicate ReloadInv(s: State) {
    && (forall t | 0 <= t < |s.callbacks| :: InReload(s.callbacks[t]) <==> s.mu == Some(t))
    && (s.mu.Some? ==> s.mu.value < |s.callbacks|)
    && s.stored <= s.started <= s.disk
    && (forall t | 0 <= t < |s.callbacks| && s.callbacks[t].ReadingCollections? :: s.callbacks[t].providers == s.started)
    && (forall t | 0 <= t < |s.callbacks| && s.callbacks[t].ReadAll? ::
          s.callbacks[t].providers == s.started <= s.callbacks[t].collections <= s.disk)
    && (s.lastOk && (s.mu.None? || s.callbacks[s.mu.value].Locked?) ==>
          s.stored == s.started <= s.storedCollections <= s.disk)
  }

  /** A callback outside reload may change in any way that keeps it outside. */
  lemma OutsideKeepsReload(s: State, t: nat, c: Callback)
    requires ReloadInv(s) && t < |s.callbacks| && !InReload(s.callbacks[t]) && !InReload(c)
    ensures ReloadInv(Set(s, t, c))
  {
  }

  lemma NewCallbackKeepsReload(s: State)
    requires ReloadInv(s)
    ensures ReloadInv(s.(callbacks := s.callbacks + [Armed]))
  {
  }

  /** Reloads do not depend on where the loop is, on the timer, on the tickets or on the queue. */
  lemma LoopIsApart(s: State, s': State)
    requires ReloadInv(s)
    requires s' == s.(loop := s'.loop, timer := s'.timer, wg := s'.wg, handled := s'.handled, queue := s'.queue)
    ensures ReloadInv(s')
  {
  }

  lemma LoopStepKeepsReload(s: State)
    requires ReloadInv(s) && CanStep(s, LoopStep)
    ensures ReloadInv(LoopNext(s))
  {
    var s' := LoopNext(s);
    if s.loop.Added? {
      NewCallbackKeepsReload(s);
      LoopIsApart(s.(callbacks := s.callbacks + [Armed]), s');
    } else if (s.loop.Got? || s.loop.Cancelled?) && TimerArmed(s) {
      OutsideKeepsReload(s, s.timer.value, Stopped);
      LoopIsApart(Set(s, s.timer.value, Stopped), s');
    } else {
      LoopIsApart(s, s');
    }
  }

  lemma RunKeepsReload(s: State, t: nat)
    requires ReloadInv(s) && CanStep(s, Run(t))
    ensures ReloadInv(RunNext(s, t))
  {
  }

  lemma StepKeepsReload(s: State, x: Step)
    requires ReloadInv(s) && CanStep(s, x)
    ensures ReloadInv(Next(s, x))
  {
    match x
    case LoopStep => LoopStepKeepsReload(s);
    case Run(t) => RunKeepsReload(s, t);
    case Fire(t) => OutsideKeepsReload(s, t, Fired);
    case _ =>
  }

  /**
    No lost change. `Latest` is the disk version until the loop stops receiving, and a handled
    event is covered by a read that began after it, or some callback has yet to begin its read.
  */
  ghost predicate CoverInv(s: State) {
    && Latest(s) == s.disk
    && s.handled <= s.disk && (MidEvent(s.loop) ==> s.loop.version <= s.disk)
    && (forall i | 0 <= i < |s.queue| :: s.queue[i].version <= s.disk)
    && (s.loop.Select? || s.loop.Got? || s.loop.Cancelled? || s.loop == Waiting(false) ==>
          Covered(s, s.handled))
  }

  ghost predicate Covered(s: State, version: nat) {
    version <= s.started || exists t :: 0 <= t < |s.callbacks| && AwaitsRead(s.callbacks[t])
  }

  lemma LoopStepKeepsCover(s: State)
    requires TicketInv(s) && CoverInv(s) && CanStep(s, LoopStep)
    ensures CoverInv(LoopNext(s))
  {
    var s' := LoopNext(s);
    if s.loop.Added? {
      assert AwaitsRead(s'.callbacks[|s.callbacks|]);
    } else if !TimerArmed(s) {
      assert s'.callbacks == s.callbacks;
    }
  }

  lemma CallbackKeepsCover(s: State, s': State, t: nat, c: Callback)
    requires CoverInv(s) && t < |s.callbacks|
    requires s' == Set(s, t, c).(wg := s'.wg, mu := s'.mu, started := s'.started, stored := s'.stored, storedCollections := s'.storedCollections, lastOk := s'.lastOk)
    requires s.started <= s'.started && (AwaitsRead(s.callbacks[t]) ==> AwaitsRead(c) || s'.started == s'.disk)
    ensures CoverInv(s')
  {
    if h :| 0 <= h < |s.callbacks| && AwaitsRead(s.callbacks[h]) && (h != t || AwaitsRead(c)) {
      assert AwaitsRead(s'.callbacks[h]);
    }
  }

  lemma ReceiveKeepsCover(s: State)
    requires CoverInv(s) && CanStep(s, Receive)
    ensures CoverInv(Next(s, Receive))
  {
    LatestPop(s.queue, s.handled);
  }

  lemma ChangeKeepsCover(s: State, relevant: bool)
    requires CoverInv(s)
    ensures CoverInv(Next(s, Change(relevant)))
  {
    assert Next(s, Change(relevant)).queue[..|s.queue|] == s.queue;
  }

  lemma CallbackStepKeepsCover(s: State, x: Step)
    requires ReloadInv(s) && CoverInv(s) && CanStep(s, x) && (x.Fire? || x.Run? || x.EndReload?)
    ensures CoverInv(Next(s, x))
  {
    var s' := Next(s, x);
    CallbackKeepsCover(s, s', x.t, s'.callbacks[x.t]);
  }

  lemma StepKeepsCover(s: State, x: Step)
    requires TicketInv(s) && ReloadInv(s) && CoverInv(s) && CanStep(s, x)
    ensures CoverInv(Next(s, x))
  {
    match x
    case LoopStep => LoopStepKeepsCover(s);
    case Receive => ReceiveKeepsCover(s);
    case Change(relevant) => ChangeKeepsCover(s, relevant);
    case Cancel =>
    case CloseChannel =>
    case _ => CallbackStepKeepsCover(s, x);
  }

  ghost predicate Inv(s: State) { TicketInv(s) && ReloadInv(s) && CoverInv(s) }

  lemma StepKeepsInv(s: State, x: Step)
    requires Inv(s) && CanStep(s, x)
    ensures Inv(Next(s, x))
  {
    StepKeepsTickets(s, x);
    StepKeepsReload(s, x);
    StepKeepsCover(s, x);
  }

  lemma {:induction false} RunKeepsInv(s: State, steps: seq<Step>)
    requires Inv(s) && IsRun(s, steps)
    ensures Inv(After(s, steps))
    decreases |steps|
  {
    if steps != [] {
      StepKeepsInv(s, steps[0]);
      RunKeepsInv(Next(s, steps[0]), steps[1..]);
    }
  }

  /******* What every run guarantees *******/

  predicate Initial(s: State) {
    && s.disk == s.handled == s.started == s.stored == s.storedCollections == 0
    && |s.queue| == 0 && s.loop.Select? && s.timer.None? && s.wg == 0
    && s.mu.None? && |s.callbacks| == 0 && s.lastOk
  }

  ghost predicate Reachable(s: State) {
    exists init, steps :: Initial(init) && IsRun(init, steps) && After(init, steps) == s
  }

  lemma {:induction false} ReachableInv(s: State)
    requires Reachable(s)
    ensures Inv(s)
  {
    var init, steps :| Initial(init) && IsRun(init, steps) && After(init, steps) == s;
    InitialInv(init);
    RunKeepsInv(init, steps);
  }

  lemma InitialInv(s: State)
    requires Initial(s)
    ensures Inv(s)
  {
  }

  /**
    The WaitGroup count is never negative; in the select loop it is the number of armed timers
    plus unfinished callbacks; and when Watch has returned nothing is armed or running.
  */
  lemma TicketAccounting(s: State)
    requires Reachable(s)
    ensures s.wg >= 0
    ensures s.loop.Select? ==> s.wg == Outstanding(s.callbacks)
    ensures s.loop.Returned? ==> forall t | 0 <= t < |s.callbacks| :: !Live(s.callbacks[t])
  {
    ReachableInv(s);
    OutstandingZero(s.callbacks);
  }

  /**
    While the loop is selecting, the last relevant event it handled (and so every earlier one) is
    covered by a disk read begun later, or a callback has still to begin its read; and two reload
    bodies never overlap.
  */
  lemma NoLostChange(s: State)
    requires Reachable(s)
    ensures s.loop.Select? ==> Covered(s, s.handled)
    ensures forall t, u | 0 <= t < |s.callbacks| && 0 <= u < |s.callbacks| &&
                          InReload(s.callbacks[t]) && InReload(s.callbacks[u]) :: t == u
  {
    ReachableInv(s);
  }

  /**
    Convergence: with no event left to receive and no callback left to run, a successful last
    reload means storage holds exactly what is on disk, providers and collections alike.
  */
  lemma QuietMeansCurrent(s: State)
    requires Reachable(s)
    requires s.loop.Select? && s.queue == [] && s.wg == 0 && s.lastOk
    ensures s.stored == s.storedCollections == s.disk
  {
    ReachableInv(s);
    QuietInv(s);
  }

  lemma QuietInv(s: State)
    requires Inv(s)
    requires s.loop.Select? && s.queue == [] && s.wg == 0 && s.lastOk
    ensures s.stored == s.storedCollections == s.disk
  {
    OutstandingZero(s.callbacks);
  }

  /******* Cancellation *******/

  lemma LeakBlocksStep(s: State, x: Step)
    requires TicketInv(s) && s.loop == Waiting(true) && CanStep(s, x)
    ensures Next(s, x).loop == Waiting(true)
  {
  }

  /** With a leaked ticket, Wait never comes back. */
  lemma {:induction false} LeakedTicketBlocks(s: State, steps: seq<Step>)
    requires Inv(s) && s.loop == Waiting(true) && IsRun(s, steps)
    ensures After(s, steps).loop == Waiting(true)
    decreases |steps|
  {
    if steps != [] {
      StepKeepsInv(s, steps[0]);
      LeakBlocksStep(s, steps[0]);
      LeakedTicketBlocks(Next(s, steps[0]), steps[1..]);
    }
  }

  function Work(c: Callback): nat {
    match c
    case Armed => 6
    case Fired => 5
    case Locked => 4
    case ReadingCollections(_) => 3
    case ReadAll(_, _) => 2
    case Released => 1
    case _ => 0
  }

  function TotalWork(cs: seq<Callback>): nat {
    if cs == [] then 0 else TotalWork(cs[..|cs| - 1]) + Work(cs[|cs| - 1])
  }

  lemma {:induction false} TotalWorkUpdate(cs: seq<Callback>, t: nat, c: Callback)
    requires t < |cs|
    ensures TotalWork(cs[t := c]) == TotalWork(cs) - Work(cs[t]) + Work(c)
  {
    var n := |cs| - 1;
    if t == n {
      assert cs[t := c][..n] == cs[..n];
    } else {
      assert cs[t := c][..n] == cs[..n][t := c];
      TotalWorkUpdate(cs[..n], t, c);
    }
  }

  /** A step that some live callback can take now. */
  function CallbackStep(s: State, t: nat): Step
    requires t < |s.callbacks|
  {
    match s.callbacks[t]
    case Armed => Fire(t)
    case ReadAll(_, _) => EndReload(t, true)
    case _ => Run(t)
  }

  lemma {:induction false} CallbackProgress(s: State) returns (x: Step)
    requires ReloadInv(s) && Outstanding(s.callbacks) != 0
    ensures CanStep(s, x) && Next(s, x).loop == s.loop && Next(s, x).queue == s.queue && Next(s, x).disk == s.disk
    ensures TotalWork(Next(s, x).callbacks) < TotalWork(s.callbacks)
    ensures (s.lastOk || ReloadDue(s)) ==> (Next(s, x).lastOk || ReloadDue(Next(s, x)))
  {
    OutstandingZero(s.callbacks);
    var t: nat :| t < |s.callbacks| && Live(s.callbacks[t]);
    if s.mu.Some? { t := s.mu.value; }
    LiveCallbackSteps(s, t);
    x := CallbackStep(s, t);
    TotalWorkUpdate(s.callbacks, t, Next(s, x).callbacks[t]);
    if s.lastOk || ReloadDue(s) { DueStaysDue(s, t); }
  }

  /** The callback has still to complete a reload. */
  predicate Due(c: Callback) { c.Armed? || c.Fired? || c.Locked? || c.ReadingCollections? || c.ReadAll? }

  ghost predicate ReloadDue(s: State) { exists t :: 0 <= t < |s.callbacks| && Due(s.callbacks[t]) }

  /** A reload that is due stays due until one has ended well. */
  lemma DueStaysDue(s: State, t: nat)
    requires t < |s.callbacks| && CanStep(s, CallbackStep(s, t)) && (s.lastOk || ReloadDue(s))
    ensures Next(s, CallbackStep(s, t)).lastOk || ReloadDue(Next(s, CallbackStep(s, t)))
  {
    var s' := Next(s, CallbackStep(s, t));
    if !s.lastOk && !s'.lastOk {
      var h :| 0 <= h < |s.callbacks| && Due(s.callbacks[h]);
      assert Due(s'.callbacks[h]);
    }
  }

  /** A live callback that holds the reload mutex, or finds it free, has a step that brings it nearer its end. */
  lemma LiveCallbackSteps(s: State, t: nat)
    requires t < |s.callbacks| && Live(s.callbacks[t]) && (s.mu.None? || s.mu == Some(t))
    requires InReload(s.callbacks[t]) <==> s.mu == Some(t)
    ensures CanStep(s, CallbackStep(s, t))
    ensures
      var s' := Next(s, CallbackStep(s, t));
      && s'.loop == s.loop && s'.queue == s.queue && s'.disk == s.disk
      && s'.callbacks == s.callbacks[t := s'.callbacks[t]] && Work(s'.callbacks[t]) < Work(s.callbacks[t])
  {
  }

  /** Without a leak, the callbacks can always be run to their end and Watch returns. */
  lemma {:induction false} WaitReleases(s: State) returns (steps: seq<Step>)
    requires Inv(s) && s.loop == Waiting(false)
    ensures IsRun(s, steps) && After(s, steps).loop.Returned?
    decreases TotalWork(s.callbacks)
  {
    if s.wg == 0 {
      steps := [LoopStep];
      assert steps[1..] == [];
    } else {
      var x := CallbackProgress(s);
      StepKeepsInv(s, x);
      var rest := WaitReleases(Next(s, x));
      steps := [x] + rest;
      RunCons(s, x, rest);
    }
  }

  /**
    After cancellation Watch can return exactly when no timer was armed at the moment of Stop:
    the cancellation branch drops a stopped timer's ticket without calling Done.
  */
  lemma {:induction false} CancelReturnsExactly(s: State)
    requires Reachable(s) && s.loop.Cancelled?
    ensures CanStep(s, LoopStep)
    ensures (exists steps :: IsRun(LoopNext(s), steps) && After(LoopNext(s), steps).loop.Returned?) <==> !TimerArmed(s)
  {
    ReachableInv(s);
    var s' := LoopNext(s);
    StepKeepsTickets(s, LoopStep);
    StepKeepsReload(s, LoopStep);
    StepKeepsCover(s, LoopStep);
    if TimerArmed(s) {
      forall steps | IsRun(s', steps) ensures !After(s', steps).loop.Returned? {
        LeakedTicketBlocks(s', steps);
      }
    } else {
      var steps := WaitReleases(s');
    }
  }

  /** The hang is reachable: one relevant change, then cancellation before the debounce expires. */
  lemma {:induction false} CancelCanHang(s: State)
    requires Initial(s)
    ensures
      var steps := [Change(true), Receive, LoopStep, LoopStep, LoopStep, Cancel, LoopStep];
      IsRun(s, steps) && After(s, steps).loop == Waiting(true)
  {
    var s1 := Next(s, Change(true));
    var s2 := Next(s1, Receive);
    var s3 := Next(s2, LoopStep);
    var s4 := Next(s3, LoopStep);
    var s5 := Next(s4, LoopStep);
    var s6 := Next(s5, Cancel);
    var s7 := Next(s6, LoopStep);
    assert s7.loop == Waiting(true);
    RunCons(s6, LoopStep, []);
    RunCons(s5, Cancel, [LoopStep]);
    RunCons(s4, LoopStep, [Cancel, LoopStep]);
    RunCons(s3, LoopStep, [LoopStep, Cancel, LoopStep]);
    RunCons(s2, LoopStep, [LoopStep, LoopStep, Cancel, LoopStep]);
    RunCons(s1, Receive, [LoopStep, LoopStep, LoopStep, Cancel, LoopStep]);
    RunCons(s, Change(true), [Receive, LoopStep, LoopStep, LoopStep, Cancel, LoopStep]);
  }

  lemma RunCons(s: State, x: Step, rest: seq<Step>)
    requires CanStep(s, x) && IsRun(Next(s, x), rest)
    ensures IsRun(s, [x] + rest) && After(s, [x] + rest) == After(Next(s, x), rest)
  {
    assert ([x] + rest)[1..] == rest;
  }

  /******* What reaches storage *******/

  /** Storage changes only when a reload ends well, and then to what that reload read; the rest leave it alone. */
  lemma StoredWhenReloadEnds(s: State, x: Step)
    requires CanStep(s, x)
    ensures x.EndReload? && x.ok ==>
      && Next(s, x).stored == s.callbacks[x.t].providers && Next(s, x).storedCollections == s.callbacks[x.t].collections
      && Next(s, x).lastOk
    ensures x.EndReload? && !x.ok ==> !Next(s, x).lastOk
    ensures !(x.EndReload? && x.ok) ==> Next(s, x).stored == s.stored && Next(s, x).storedCollections == s.storedCollections
    ensures !x.EndReload? ==> Next(s, x).lastOk == s.lastOk
  {
  }

  /** A reload reads what is on disk at the moment, the providers first and then the collections. */
  lemma ReloadReadsDisk(s: State, t: nat)
    requires CanStep(s, Run(t))
    ensures s.callbacks[t].Locked? ==> Next(s, Run(t)).callbacks[t] == ReadingCollections(s.disk)
    ensures s.callbacks[t].ReadingCollections? ==> Next(s, Run(t)).callbacks[t] == ReadAll(s.callbacks[t].providers, s.disk)
  {
  }

  /** The loop's steps after a relevant event leave a timer armed for it. */
  lemma {:induction false} EventIsScheduled(s: State) returns (steps: seq<Step>)
    requires Inv(s) && MidEvent(s.loop)
    ensures IsRun(s, steps) && Inv(After(s, steps))
    ensures
      var s' := After(s, steps);
      s'.loop.Select? && s'.queue == s.queue && s'.disk == s.disk && s'.handled == s.loop.version && ReloadDue(s')
    decreases if s.loop.Got? then 3 else if s.loop.TimerStopped? then 2 else if s.loop.Cleared? then 1 else 0
  {
    var s' := Next(s, LoopStep);
    StepKeepsInv(s, LoopStep);
    if s.loop.Added? {
      assert Due(s'.callbacks[|s.callbacks|]);
      RunCons(s, LoopStep, []);
      steps := [LoopStep] + [];
    } else {
      var rest := EventIsScheduled(s');
      RunCons(s, LoopStep, rest);
      steps := [LoopStep] + rest;
    }
  }

  /** Taking one event off the queue loses none of what is due. */
  lemma StillDue(s: State, s1: State, s2: State)
    requires s.queue != [] && s1.queue == s.queue[1..] && s2.queue == s1.queue && s1.callbacks == s.callbacks
    requires if s.queue[0].relevant then ReloadDue(s2) else s2 == s1
    ensures ReloadDue(s) || (exists i :: 0 <= i < |s.queue| && s.queue[i].relevant) ==>
            ReloadDue(s2) || (exists i :: 0 <= i < |s2.queue| && s2.queue[i].relevant)
  {
    if i :| 0 < i < |s.queue| && s.queue[i].relevant { assert s2.queue[i - 1].relevant; }
  }

  /** The queue can be worked off; a relevant event in it leaves a reload due. */
  lemma {:induction false} QueueDrains(s: State) returns (steps: seq<Step>)
    requires Inv(s) && s.loop.Select?
    ensures IsRun(s, steps) && Inv(After(s, steps))
    ensures
      var s' := After(s, steps);
      && s'.loop.Select? && s'.queue == [] && s'.disk == s.disk
      && (ReloadDue(s) || (exists i :: 0 <= i < |s.queue| && s.queue[i].relevant) ==> ReloadDue(s'))
    decreases |s.queue|
  {
    if s.queue == [] {
      steps := [];
    } else {
      var s1 := Next(s, Receive);
      StepKeepsInv(s, Receive);
      var first := [];
      if s.queue[0].relevant { first := EventIsScheduled(s1); }
      var s2 := After(s1, first);
      var rest := QueueDrains(s2);
      RunAppend(s1, first, rest);
      RunCons(s, Receive, first + rest);
      steps := [Receive] + (first + rest);
      StillDue(s, s1, s2);
    }
  }

  /** All callbacks can be run to their end, every reload succeeding. */
  lemma {:induction false} ReloadsRunOut(s: State) returns (steps: seq<Step>)
    requires Inv(s) && s.loop.Select?
    ensures IsRun(s, steps) && Inv(After(s, steps))
    ensures
      var s' := After(s, steps);
      && s'.loop.Select? && s'.wg == 0 && s'.queue == s.queue && s'.disk == s.disk
      && (s.lastOk || ReloadDue(s) ==> s'.lastOk)
    decreases TotalWork(s.callbacks)
  {
    if s.wg == 0 {
      OutstandingZero(s.callbacks);
      steps := [];
    } else {
      var x := CallbackProgress(s);
      StepKeepsInv(s, x);
      var rest := ReloadsRunOut(Next(s, x));
      RunCons(s, x, rest);
      steps := [x] + rest;
    }
  }

  /** A change is not only kept in mind: from every state of a watcher that is not stopping, it can be brought to storage. */
  lemma {:induction false} ChangeIsStored(s: State) returns (steps: seq<Step>)
    requires Reachable(s) && s.loop.Select?
    ensures IsRun(s, [Change(true)] + steps)
    ensures
      var s' := After(s, [Change(true)] + steps);
      s'.stored == s'.storedCollections == s'.disk == s.disk + 1
  {
    ReachableInv(s);
    var s1 := Next(s, Change(true));
    StepKeepsInv(s, Change(true));
    assert s1.queue[|s.queue|].relevant;
    var first := QueueDrains(s1);
    var s2 := After(s1, first);
    var last := ReloadsRunOut(s2);
    RunAppend(s1, first, last);
    steps := first + last;
    RunCons(s, Change(true), steps);
    QuietInv(After(s2, last));
  }

  lemma {:induction false} RunAppend(s: State, first: seq<Step>, last: seq<Step>)
    requires IsRun(s, first) && IsRun(After(s, first), last)
    ensures IsRun(s, first + last) && After(s, first + last) == After(After(s, first), last)
    decreases |first|
  {
    if first == [] {
      assert first + last == last;
    } else {
      RunAppend(Next(s, first[0]), first[1..], last);
      RunCons(s, first[0], first[1..] + last);
      assert [first[0]] + (first[1..] + last) == first + last;
    }
  }
}
