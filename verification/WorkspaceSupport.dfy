/**
  Single-flight detection of MLflow workspace support.

  Any number of callers run Resolve (and PrepareClient around it) against one shared
  WorkspaceSupport. Every action another goroutine can observe is one step, so a run of
  the machine is an interleaving: atomic loads and stores of `support`, lock and unlock of
  `mu`, the reads and writes made under it, the probe goroutine's own actions, context
  cancellation, and each way out of a select.
*/
module WorkspaceSupport {
  import opened Wrappers

  datatype Kind = Unknown | Enabled | Disabled

  datatype Result =
    | Ok                 // nil
    | BadArgument        // nil client or nil context
    | ContextDone        // ctx.Err()
    | ProbeFailed        // ErrWorkspaceSupportUnresolved

  /** Where a caller stands. `call` is an index into the probe calls made so far. */
  datatype CallerPc =
    | Entry
    | SawUnknown               // first Resolved() was false
    | WantLock                 // ctx was live
    | Locked                   // holds mu
    | LockedUnknown            // holds mu, second Resolved() was false
    | LockedResolved           // holds mu, second Resolved() was true
    | LockedJoin(call: nat)    // holds mu, found an in-flight call
    | LockedNew(call: nat)     // holds mu, has installed its own call
    | Spawn(call: nat)         // released mu, about to start the goroutine
    | Waiting(call: nat)       // in the select
    | Resolved(result: Result) // Resolve has returned
    | ReadEnabled              // PrepareClient: Apply saw Resolved(), reads Enabled() next
    | Prepared(flag: Option<bool>) // client handed out; None leaves the client's own flag

  datatype Caller = Caller(pc: CallerPc, client: bool, context: bool, cancelled: bool)

  /** Where a probe call's goroutine stands. */
  datatype ProbePc =
    | NotStarted
    | Probing
    | Answered(enabled: bool)  // the server answered; support not stored yet
    | Finished(result: Result) // runProbe has returned
    | FinLocked(result: Result)
    | FinErrSet
    | FinCleared               // inflight is nil
    | FinClosed                // done is closed
    | Gone

  datatype Call = Call(owner: nat, pc: ProbePc, err: Option<Result>, closed: bool)

  datatype Owner = Free | ByCaller(i: nat) | ByProbe(c: nat)

  datatype State = State(
    support: Kind,
    stores: nat,               // how many definitive stores have happened
    mu: Owner,
    inflight: Option<nat>,
    calls: seq<Call>,
    callers: seq<Caller>)

  datatype Step =
    | Arrive(client: bool, context: bool)
    | Cancel(i: nat)
    | CallerStep(i: nat)
    | SelectDone(i: nat)       // the select picks ctx.Done()
    | ProbeStep(c: nat)
    | Answer(c: nat, ok: bool, enabled: bool)  // the network call returns

  predicate HoldsLock(pc: CallerPc) {
    pc.Locked? || pc.LockedUnknown? || pc.LockedResolved? || pc.LockedJoin? || pc.LockedNew?
  }

  predicate ProbeHoldsLock(pc: ProbePc) {
    pc.FinLocked? || pc.FinErrSet? || pc.FinCleared? || pc.FinClosed?
  }

  predicate CanStep(s: State, t: Step) {
    match t
    case Arrive(_, _) => true
    case Cancel(i) => i < |s.callers|
    case CallerStep(i) =>
      && i < |s.callers|
      && (match s.callers[i].pc
          case WantLock => s.mu.Free?
          case LockedJoin(c) => c < |s.calls|
          case LockedNew(c) => c < |s.calls|
          case Spawn(c) => c < |s.calls|
          case Waiting(c) => c < |s.calls| && s.calls[c].closed && s.calls[c].err.Some?
          case Resolved(r) => r.Ok?
          case Prepared(_) => false
          case _ => true)
    case SelectDone(i) => i < |s.callers| && s.callers[i].pc.Waiting? && s.callers[i].cancelled
    case ProbeStep(c) =>
      && c < |s.calls|
      && (match s.calls[c].pc
          case NotStarted => false
          case Probing => false
          case Finished(_) => s.mu.Free?
          case Gone => false
          case _ => true)
    case Answer(c, _, _) => c < |s.calls| && s.calls[c].pc.Probing?
  }

  function SetPc(s: State, i: nat, pc: CallerPc): State
    requires i < |s.callers|
  {
    s.(callers := s.callers[i := s.callers[i].(pc := pc)])
  }

  function SetCall(s: State, c: nat, call: Call): State
    requires c < |s.calls|
  {
    s.(calls := s.calls[c := call])
  }

  function CallerNext(s: State, i: nat): State
    requires CanStep(s, CallerStep(i))
  {
    var me := s.callers[i];
    match me.pc
    case Entry =>
      if !me.client || !me.context then SetPc(s, i, Resolved(BadArgument))
      else if s.support != Unknown then SetPc(s, i, Resolved(Ok))
      else SetPc(s, i, SawUnknown)
    case SawUnknown =>
      SetPc(s, i, if me.cancelled then Resolved(ContextDone) else WantLock)
    case WantLock =>
      SetPc(s, i, Locked).(mu := ByCaller(i))
    case Locked =>
      SetPc(s, i, if s.support != Unknown then LockedResolved else LockedUnknown)
    case LockedResolved =>
      SetPc(s, i, Resolved(Ok)).(mu := Free)
    case LockedUnknown =>
      if s.inflight.Some? then
        SetPc(s, i, LockedJoin(s.inflight.value))
      else
        SetPc(s, i, LockedNew(|s.calls|)).(
          inflight := Some(|s.calls|),
          calls := s.calls + [Call(i, NotStarted, None, false)])
    case LockedJoin(c) =>
      SetPc(s, i, Waiting(c)).(mu := Free)
    case LockedNew(c) =>
      SetPc(s, i, Spawn(c)).(mu := Free)
    case Spawn(c) =>
      SetCall(SetPc(s, i, Waiting(c)), c, s.calls[c].(pc := Probing))
    case Waiting(c) =>
      SetPc(s, i, Resolved(s.calls[c].err.value))
    case Resolved(_) =>
      SetPc(s, i, if s.support == Unknown then Prepared(None) else ReadEnabled)
    case ReadEnabled =>
      SetPc(s, i, Prepared(Some(s.support == Enabled)))
    case Prepared(_) => s
  }

  function ProbeNext(s: State, c: nat): State
    requires CanStep(s, ProbeStep(c))
  {
    var call := s.calls[c];
    match call.pc
    case Answered(enabled) =>
      SetCall(s, c, call.(pc := Finished(Ok))).(
        support := if enabled then Enabled else Disabled,
        stores := s.stores + 1)
    case Finished(r) =>
      SetCall(s, c, call.(pc := FinLocked(r))).(mu := ByProbe(c))
    case FinLocked(r) =>
      SetCall(s, c, call.(pc := FinErrSet, err := Some(r)))
    case FinErrSet =>
      SetCall(s, c, call.(pc := FinCleared)).(inflight := None)
    case FinCleared =>
      SetCall(s, c, call.(pc := FinClosed, closed := true))
    case FinClosed =>
      SetCall(s, c, call.(pc := Gone)).(mu := Free)
    case _ => s
  }

  function Next(s: State, t: Step): State
    requires CanStep(s, t)
  {
    match t
    case Arrive(client, context) =>
      s.(callers := s.callers + [Caller(Entry, client, context, false)])
    case Cancel(i) => s.(callers := s.callers[i := s.callers[i].(cancelled := true)])
    case CallerStep(i) => CallerNext(s, i)
    case SelectDone(i) => SetPc(s, i, Resolved(ContextDone))
    case ProbeStep(c) => ProbeNext(s, c)
    case Answer(c, ok, enabled) =>
      SetCall(s, c, s.calls[c].(pc := if ok then Answered(enabled) else Finished(ProbeFailed)))
  }

  /******* Runs *******/

  predicate IsRun(s: State, steps: seq<Step>)
    decreases |steps|
  {
    steps == [] || (CanStep(s, steps[0]) && IsRun(Next(s, steps[0]), steps[1..]))
  }

  function After(s: State, steps: seq<Step>): State
    requires IsRun(s, steps)
    decreases |steps|
  {
    if steps == [] then s else After(Next(s, steps[0]), steps[1..])
  }

  /******* The inductive invariant *******/

  /** The probe has not yet given up its place in `inflight`. */
  predicate Unfinished(call: Call) {
    !call.pc.FinCleared? && !call.pc.FinClosed? && !call.pc.Gone?
  }

  predicate BeforeStore(call: Call) {
    call.pc.NotStarted? || call.pc.Probing? || call.pc.Answered?
  }

  /** The probe got no answer from the server. */
  predicate Failed(call: Call) {
    call.pc in {Finished(ProbeFailed), FinLocked(ProbeFailed)} || call.err == Some(ProbeFailed)
  }

  ghost predicate LockInv(s: State) {
    && (forall i | 0 <= i < |s.callers| :: HoldsLock(s.callers[i].pc) <==> s.mu == ByCaller(i))
    && (forall c | 0 <= c < |s.calls| :: ProbeHoldsLock(s.calls[c].pc) <==> s.mu == ByProbe(c))
    && (s.mu.ByCaller? ==> s.mu.i < |s.callers|)
    && (s.mu.ByProbe? ==> s.mu.c < |s.calls|)
  }

  ghost predicate SingleFlight(s: State) {
    && (forall c | 0 <= c < |s.calls| :: Unfinished(s.calls[c]) <==> s.inflight == Some(c))
    && (s.inflight.Some? ==> s.inflight.value < |s.calls|)
  }

  ghost predicate StoreInv(s: State) {
    && s.stores == (if s.support == Unknown then 0 else 1)
    && (forall c | 0 <= c < |s.calls| && BeforeStore(s.calls[c]) :: s.support == Unknown)
    && (forall c | 0 <= c < |s.calls| && Unfinished(s.calls[c]) && Failed(s.calls[c]) :: s.support == Unknown)
    && (forall i | 0 <= i < |s.callers| && s.callers[i].pc.LockedUnknown? && s.inflight.None? :: s.support == Unknown)
  }

  predicate GoodResult(s: State, r: Result) { r.Ok? ==> s.support != Unknown }

  predicate ProbeResult(s: State, r: Result) {
    (r.Ok? || r.ProbeFailed?) && GoodResult(s, r)
  }

  ghost predicate CallInv(s: State, c: nat)
    requires c < |s.calls|
  {
    var call := s.calls[c];
    && (call.err.Some? <==> call.pc.FinErrSet? || !Unfinished(call))
    && (call.closed <==> call.pc.FinClosed? || call.pc.Gone?)
    && (call.err.Some? ==> ProbeResult(s, call.err.value))
    && (call.pc.Finished? || call.pc.FinLocked? ==> ProbeResult(s, call.pc.result))
    && (call.pc.NotStarted? ==>
          call.owner < |s.callers| && s.callers[call.owner].pc in {LockedNew(c), Spawn(c)})
  }

  ghost predicate CallerInv(s: State, i: nat)
    requires i < |s.callers|
  {
    match s.callers[i].pc
    case LockedResolved => s.support != Unknown
    case LockedJoin(c) => c < |s.calls|
    case LockedNew(c) => c < |s.calls| && s.calls[c].pc.NotStarted? && s.calls[c].owner == i
    case Spawn(c) => c < |s.calls| && s.calls[c].pc.NotStarted? && s.calls[c].owner == i
    case Waiting(c) => c < |s.calls|
    case Resolved(r) => GoodResult(s, r)
    case ReadEnabled => s.support != Unknown
    case Prepared(flag) => s.support != Unknown && flag == Some(s.support == Enabled)
    case _ => true
  }

  ghost predicate Inv(s: State) {
    && LockInv(s)
    && SingleFlight(s)
    && StoreInv(s)
    && (forall c: nat | c < |s.calls| :: CallInv(s, c))
    && (forall i: nat | i < |s.callers| :: CallerInv(s, i))
  }

  lemma CallerStepKeepsLock(s: State, i: nat)
    requires LockInv(s) && CanStep(s, CallerStep(i)) && CallerInv(s, i)
    ensures LockInv(CallerNext(s, i))
  {
  }

  lemma CallerStepKeepsFlight(s: State, i: nat)
    requires SingleFlight(s) && CanStep(s, CallerStep(i)) && CallerInv(s, i)
    ensures SingleFlight(CallerNext(s, i))
  {
  }

  lemma CallerStepKeepsStore(s: State, i: nat)
    requires LockInv(s) && SingleFlight(s) && StoreInv(s) && CanStep(s, CallerStep(i)) && CallerInv(s, i)
    ensures StoreInv(CallerNext(s, i))
  {
  }

  lemma CallerStepKeepsCalls(s: State, i: nat, c: nat)
    requires CanStep(s, CallerStep(i)) && c < |CallerNext(s, i).calls|
    requires CallerInv(s, i) && (c < |s.calls| ==> CallInv(s, c))
    ensures CallInv(CallerNext(s, i), c)
  {
  }

  lemma CallerStepKeepsSelf(s: State, i: nat)
    requires CanStep(s, CallerStep(i)) && CallerInv(s, i)
    requires s.callers[i].pc.Waiting? ==> CallInv(s, s.callers[i].pc.call)
    requires s.inflight.Some? ==> s.inflight.value < |s.calls|
    ensures CallerInv(CallerNext(s, i), i)
  {
  }

  lemma CallerStepKeepsOther(s: State, i: nat, h: nat)
    requires CanStep(s, CallerStep(i)) && h < |s.callers| && h != i
    requires CallerInv(s, i) && CallerInv(s, h)
    ensures CallerInv(CallerNext(s, i), h)
  {
  }

  lemma CallerStepKeepsInv(s: State, i: nat)
    requires Inv(s) && CanStep(s, CallerStep(i))
    ensures Inv(CallerNext(s, i))
  {
    var s' := CallerNext(s, i);
    CallerStepKeepsLock(s, i);
    CallerStepKeepsFlight(s, i);
    CallerStepKeepsStore(s, i);
    forall c: nat | c < |s'.calls| ensures CallInv(s', c) { CallerStepKeepsCalls(s, i, c); }
    forall h: nat | h < |s'.callers| ensures CallerInv(s', h) {
      if h == i { CallerStepKeepsSelf(s, i); } else { CallerStepKeepsOther(s, i, h); }
    }
  }

  lemma ProbeStepKeepsLock(s: State, c: nat)
    requires LockInv(s) && CanStep(s, ProbeStep(c))
    ensures LockInv(ProbeNext(s, c))
  {
  }

  lemma ProbeStepKeepsFlight(s: State, c: nat)
    requires SingleFlight(s) && CanStep(s, ProbeStep(c))
    ensures SingleFlight(ProbeNext(s, c))
  {
  }

  lemma ProbeStepKeepsStore(s: State, c: nat)
    requires LockInv(s) && SingleFlight(s) && StoreInv(s) && CanStep(s, ProbeStep(c)) && CallInv(s, c)
    ensures StoreInv(ProbeNext(s, c))
  {
  }

  lemma ProbeStepKeepsCalls(s: State, c: nat, h: nat)
    requires CanStep(s, ProbeStep(c)) && h < |s.calls| && CallInv(s, c) && CallInv(s, h)
    ensures CallInv(ProbeNext(s, c), h)
  {
  }

  lemma ProbeStepKeepsCallers(s: State, c: nat, i: nat)
    requires CanStep(s, ProbeStep(c)) && i < |s.callers| && StoreInv(s) && CallerInv(s, i)
    ensures CallerInv(ProbeNext(s, c), i)
  {
  }

  lemma ProbeStepKeepsInv(s: State, c: nat)
    requires Inv(s) && CanStep(s, ProbeStep(c))
    ensures Inv(ProbeNext(s, c))
  {
    var s' := ProbeNext(s, c);
    ProbeStepKeepsLock(s, c);
    ProbeStepKeepsFlight(s, c);
    ProbeStepKeepsStore(s, c);
    forall h: nat | h < |s'.calls| ensures CallInv(s', h) { ProbeStepKeepsCalls(s, c, h); }
    forall i: nat | i < |s'.callers| ensures CallerInv(s', i) { ProbeStepKeepsCallers(s, c, i); }
  }

  lemma StepKeepsInv(s: State, t: Step)
    requires Inv(s) && CanStep(s, t)
    ensures Inv(Next(s, t))
  {
    var s' := Next(s, t);
    match t
    case CallerStep(i) => CallerStepKeepsInv(s, i);
    case ProbeStep(c) => ProbeStepKeepsInv(s, c);
    case _ =>
      OtherStepKeepsFlight(s, t);
      forall c: nat | c < |s'.calls| ensures CallInv(s', c) { OtherStepKeepsCall(s, t, c); }
      forall i: nat | i < |s'.callers| ensures CallerInv(s', i) { OtherStepKeepsCaller(s, t, i); }
  }

  /** Arrivals, cancellations, the select's way out and the server's answer. */
  predicate Outside(t: Step) { !t.CallerStep? && !t.ProbeStep? }

  lemma OtherStepKeepsFlight(s: State, t: Step)
    requires LockInv(s) && SingleFlight(s) && StoreInv(s) && CanStep(s, t) && Outside(t)
    ensures LockInv(Next(s, t)) && SingleFlight(Next(s, t)) && StoreInv(Next(s, t))
  {
  }

  lemma OtherStepKeepsCall(s: State, t: Step, c: nat)
    requires CanStep(s, t) && Outside(t) && c < |s.calls| && CallInv(s, c)
    ensures CallInv(Next(s, t), c)
  {
  }

  lemma OtherStepKeepsCaller(s: State, t: Step, i: nat)
    requires CanStep(s, t) && Outside(t) && i < |Next(s, t).callers| && (i < |s.callers| ==> CallerInv(s, i))
    ensures CallerInv(Next(s, t), i)
  {
  }

  /******* Over whole runs *******/

  lemma {:induction false} RunKeepsInv(s: State, steps: seq<Step>)
    requires Inv(s) && IsRun(s, steps)
    ensures Inv(After(s, steps))
    decreases |steps|
  {
    if steps != [] {
      StepKeepsInv(s, steps[0]);
      RunKeepsInv(Next(s, steps[0]), steps[1..]);
    }
  }

  predicate Initial(s: State) { s == State(Unknown, 0, Free, None, [], []) }

  ghost predicate Reachable(s: State) {
    exists init, steps :: Initial(init) && IsRun(init, steps) && After(init, steps) == s
  }

  lemma {:induction false} ReachableInv(s: State)
    requires Reachable(s)
    ensures Inv(s)
  {
    var init, steps :| Initial(init) && IsRun(init, steps) && After(init, steps) == s;
    RunKeepsInv(init, steps);
  }

  /**
    In every interleaving of any number of callers: at most one probe is unfinished, support is
    stored at most once, a nil return implies a resolved capability, and every client handed out
    by PrepareClient carries the one flag that was detected.
  */
  lemma SharedProbeSafety(s: State)
    requires Reachable(s)
    ensures forall c, e | 0 <= c < |s.calls| && 0 <= e < |s.calls| && Unfinished(s.calls[c]) && Unfinished(s.calls[e]) :: c == e
    ensures s.stores <= 1 && (s.stores == 1 <==> s.support != Unknown)
    ensures forall i | 0 <= i < |s.callers| && s.callers[i].pc == Resolved(Ok) :: s.support != Unknown
    ensures forall i | 0 <= i < |s.callers| && s.callers[i].pc.Prepared? ::
              s.support != Unknown && s.callers[i].pc == Prepared(Some(s.support == Enabled))
  {
    ReachableInv(s);
    forall i | 0 <= i < |s.callers| && s.callers[i].pc == Resolved(Ok) ensures s.support != Unknown {
      assert CallerInv(s, i);
    }
    forall i | 0 <= i < |s.callers| && s.callers[i].pc.Prepared?
      ensures s.support != Unknown && s.callers[i].pc == Prepared(Some(s.support == Enabled))
    {
      assert CallerInv(s, i);
    }
  }

  lemma {:induction false} RunKeepsSupport(s: State, steps: seq<Step>)
    requires Inv(s) && IsRun(s, steps) && s.support != Unknown
    ensures After(s, steps).support == s.support
    decreases |steps|
  {
    if steps != [] {
      var t := steps[0];
      if t.ProbeStep? { assert CallInv(s, t.c); }
      StepKeepsInv(s, t);
      RunKeepsSupport(Next(s, t), steps[1..]);
    }
  }

  /** Once detected, the capability is kept for the rest of the run. */
  lemma SupportNeverFlips(s: State, steps: seq<Step>)
    requires Reachable(s) && IsRun(s, steps) && s.support != Unknown
    ensures After(s, steps).support == s.support
  {
    ReachableInv(s);
    RunKeepsSupport(s, steps);
  }

  /**
    From its failure until it gives up its place, a failed probe finds the capability unknown; its
    steps keep it so, and the one that gives up the place leaves nothing in flight.
  */
  lemma FailedProbeLeavesUnknown(s: State, c: nat)
    requires Reachable(s) && c < |s.calls| && Failed(s.calls[c]) && Unfinished(s.calls[c])
    ensures s.support == Unknown && s.inflight == Some(c)
    ensures CanStep(s, ProbeStep(c)) ==>
      var s' := Next(s, ProbeStep(c));
      s'.support == Unknown && Failed(s'.calls[c]) && (Unfinished(s'.calls[c]) || s'.inflight.None?)
  {
    ReachableInv(s);
    assert CallInv(s, c);
  }

  /** The lock's holder, left to itself, releases it while a failed probe is waiting for it. */
  lemma {:induction false} LockReleases(s: State, c: nat) returns (steps: seq<Step>)
    requires Inv(s) && c < |s.calls| && s.calls[c].pc == Finished(ProbeFailed)
    ensures IsRun(s, steps) && After(s, steps).mu.Free? && Inv(After(s, steps))
    ensures |After(s, steps).calls| == |s.calls| && After(s, steps).calls[c] == s.calls[c]
    ensures forall i | 0 <= i < |s.callers| && !HoldsLock(s.callers[i].pc) ::
              i < |After(s, steps).callers| && After(s, steps).callers[i] == s.callers[i]
    decreases LockWork(s)
  {
    if s.mu.Free? {
      steps := [];
    } else {
      var t := HolderStep(s);
      HolderAdvances(s, c);
      var rest := LockReleases(Next(s, t), c);
      RunCons(s, t, rest);
      steps := [t] + rest;
    }
  }

  /** How many steps the lock's holder takes to release it. */
  function LockWork(s: State): nat {
    match s.mu
    case Free => 0
    case ByCaller(i) =>
      if i < |s.callers| then (if s.callers[i].pc.Locked? then 3 else if s.callers[i].pc.LockedUnknown? then 2 else 1) else 0
    case ByProbe(d) =>
      if d < |s.calls| then
        (if s.calls[d].pc.FinLocked? then 4 else if s.calls[d].pc.FinErrSet? then 3 else if s.calls[d].pc.FinCleared? then 2 else 1)
      else 0
  }

  function HolderStep(s: State): Step
    requires !s.mu.Free?
  {
    if s.mu.ByCaller? then CallerStep(s.mu.i) else ProbeStep(s.mu.c)
  }

  lemma HolderAdvances(s: State, c: nat)
    requires Inv(s) && c < |s.calls| && s.calls[c].pc == Finished(ProbeFailed) && !s.mu.Free?
    ensures CanStep(s, HolderStep(s)) && Inv(Next(s, HolderStep(s)))
    ensures
      var s' := Next(s, HolderStep(s));
      && LockWork(s') < LockWork(s)
      && |s'.calls| == |s.calls| && s'.calls[c] == s.calls[c]
      && |s'.callers| == |s.callers|
      && forall i | 0 <= i < |s.callers| && !HoldsLock(s.callers[i].pc) :: s'.callers[i] == s.callers[i]
  {
    if s.mu.ByCaller? {
      CallerHolderAdvances(s, s.mu.i, c);
    } else {
      assert ProbeHoldsLock(s.calls[s.mu.c].pc);
    }
    StepKeepsInv(s, HolderStep(s));
  }

  /** A caller that finds a failed probe still in flight joins it and lets go of the lock. */
  lemma CallerHolderAdvances(s: State, i: nat, c: nat)
    requires Inv(s) && c < |s.calls| && s.calls[c].pc == Finished(ProbeFailed) && s.mu == ByCaller(i)
    ensures CanStep(s, CallerStep(i))
    ensures
      var s' := CallerNext(s, i);
      && LockWork(s') < LockWork(s) && s'.calls == s.calls
      && |s'.callers| == |s.callers| && forall h | 0 <= h < |s.callers| && h != i :: s'.callers[h] == s.callers[h]
  {
    assert HoldsLock(s.callers[i].pc) && CallerInv(s, i);
    assert Unfinished(s.calls[c]) && s.inflight == Some(c) && s.support == Unknown;
  }

  /** The five steps that take a probe from its result to its end. */
  lemma ProbeEnds(s: State, c: nat, r: Result)
    requires c < |s.calls| && s.calls[c].pc == Finished(r) && s.mu.Free?
    ensures
      var t := ProbeStep(c);
      IsRun(s, [t, t, t, t, t]) &&
      After(s, [t, t, t, t, t]) ==
      s.(inflight := None, calls := s.calls[c := s.calls[c].(pc := Gone, err := Some(r), closed := true)])
  {
    var t := ProbeStep(c);
    var call := s.calls[c];
    var s1 := Next(s, t);
    var s2 := Next(s1, t);
    var s3 := Next(s2, t);
    var s4 := Next(s3, t);
    var s5 := Next(s4, t);
    assert s5.calls == s.calls[c := call.(pc := Gone, err := Some(r), closed := true)];
    RunCons(s4, t, []); RunCons(s3, t, [t]); RunCons(s2, t, [t, t]); RunCons(s1, t, [t, t, t]); RunCons(s, t, [t, t, t, t]);
  }

  /** A failed probe leaves the capability unknown, nothing in flight and the lock free. */
  lemma FailedProbeEnds(s: State, c: nat)
    requires Inv(s) && c < |s.calls| && s.calls[c].pc == Finished(ProbeFailed) && s.mu.Free?
    ensures
      var t := ProbeStep(c);
      IsRun(s, [t, t, t, t, t]) &&
      var s' := After(s, [t, t, t, t, t]);
      && s' == s.(inflight := None, calls := s.calls[c := s.calls[c].(pc := Gone, err := Some(ProbeFailed), closed := true)])
      && s'.support == Unknown
  {
    assert Unfinished(s.calls[c]) && Failed(s.calls[c]);
    ProbeEnds(s, c, ProbeFailed);
  }

  /**
    Whenever a probe has failed, it can finish without any new arrival, leaving the capability
    unknown, nothing in flight and the lock free.
  */
  lemma FailedProbeCleansUp(s: State, c: nat) returns (steps: seq<Step>)
    requires Reachable(s) && c < |s.calls| && s.calls[c].pc == Finished(ProbeFailed)
    ensures IsRun(s, steps)
    ensures
      var s' := After(s, steps);
      && s'.support == Unknown && s'.inflight.None? && s'.mu.Free?
      && |s'.calls| == |s.calls| && s'.calls[c].err == Some(ProbeFailed) && s'.calls[c].closed
      && forall i | 0 <= i < |s.callers| && !HoldsLock(s.callers[i].pc) ::
           i < |s'.callers| && s'.callers[i] == s.callers[i]
  {
    ReachableInv(s);
    var first := LockReleases(s, c);
    var t := ProbeStep(c);
    var last := [t, t, t, t, t];
    FailedProbeEnds(After(s, first), c);
    RunAppend(s, first, last);
    steps := first + last;
  }

  /**
    A failure is not final: a live caller that comes after it starts a probe of its own, the one
    that is then in flight.
  */
  lemma FailedProbeRestarts(s: State, c: nat, i: nat) returns (steps: seq<Step>)
    requires Reachable(s) && c < |s.calls| && s.calls[c].pc == Finished(ProbeFailed)
    requires i < |s.callers| && s.callers[i] == Caller(Entry, true, true, false)
    ensures IsRun(s, steps)
    ensures
      var s' := After(s, steps);
      && s'.inflight == Some(|s.calls|) && |s'.calls| == |s.calls| + 1
      && s'.calls[|s.calls|] == Call(i, Probing, None, false)
      && i < |s'.callers| && s'.callers[i] == Caller(Waiting(|s.calls|), true, true, false)
  {
    var first := FailedProbeCleansUp(s, c);
    var t := CallerStep(i);
    var last := [t, t, t, t, t, t, t];
    Restartable(After(s, first), i);
    RunAppend(s, first, last);
    steps := first + last;
  }

  /** A caller with a live context that runs on its own starts a fresh probe when none is in flight. */
  lemma Restartable(s: State, i: nat)
    requires s.support == Unknown && s.inflight.None? && s.mu.Free?
    requires i < |s.callers| && s.callers[i] == Caller(Entry, true, true, false)
    ensures
      var t := CallerStep(i);
      IsRun(s, [t, t, t, t, t, t, t]) &&
      After(s, [t, t, t, t, t, t, t]) ==
      s.(inflight := Some(|s.calls|),
         calls := s.calls + [Call(i, Probing, None, false)],
         callers := s.callers[i := Caller(Waiting(|s.calls|), true, true, false)])
  {
    var t := CallerStep(i);
    var s1 := Next(s, t);
    var s2 := Next(s1, t);
    var s3 := Next(s2, t);
    var s4 := Next(s3, t);
    var s5 := Next(s4, t);
    var s6 := Next(s5, t);
    var s7 := Next(s6, t);
    assert s7.calls == s.calls + [Call(i, Probing, None, false)];
    RunCons(s6, t, []); RunCons(s5, t, [t]); RunCons(s4, t, [t, t]); RunCons(s3, t, [t, t, t]);
    RunCons(s2, t, [t, t, t, t]); RunCons(s1, t, [t, t, t, t, t]); RunCons(s, t, [t, t, t, t, t, t]);
  }

  lemma {:induction false} RunAppend(s: State, first: seq<Step>, last: seq<Step>)
    requires IsRun(s, first) && IsRun(After(s, first), last)
    ensures IsRun(s, first + last) && After(s, first + last) == After(After(s, first), last)
    decreases |first|
  {
    if first == [] {
      assert first + last == last;
    } else {
      RunAppend(Next(s, first[0]), first[1..], last);
      RunCons(s, first[0], first[1..] + last);
      assert [first[0]] + (first[1..] + last) == first + last;
    }
  }

  lemma RunCons(s: State, t: Step, rest: seq<Step>)
    requires CanStep(s, t) && IsRun(Next(s, t), rest)
    ensures IsRun(s, [t] + rest) && After(s, [t] + rest) == After(Next(s, t), rest)
  {
    assert ([t] + rest)[1..] == rest;
  }

  predicate CallerBusy(me: Caller) {
    !(me.pc.Prepared? || (me.pc.Resolved? && !me.pc.result.Ok?))
  }

  /**
    No interleaving gets stuck: while any caller or probe has work left, some goroutine can take
    a step of its own (no arrival and no cancellation needed).
  */
  lemma NoDeadlock(s: State) returns (t: Step)
    requires Reachable(s)
    requires (exists i :: 0 <= i < |s.callers| && CallerBusy(s.callers[i])) || (exists c :: 0 <= c < |s.calls| && !s.calls[c].pc.Gone?)
    ensures CanStep(s, t) && (t.CallerStep? || t.ProbeStep? || t.Answer?)
  {
    ReachableInv(s);
    if s.mu.ByCaller? {
      assert CallerInv(s, s.mu.i);
      t := CallerStep(s.mu.i);
    } else if s.mu.ByProbe? {
      t := ProbeStep(s.mu.c);
    } else if c: nat :| c < |s.calls| && !s.calls[c].pc.Gone? {
      t := ProbeProgress(s, c);
    } else {
      var i: nat :| i < |s.callers| && CallerBusy(s.callers[i]);
      assert CallerInv(s, i);
      if s.callers[i].pc.Waiting? { assert CallInv(s, s.callers[i].pc.call); }
      t := CallerStep(i);
    }
  }

  lemma ProbeProgress(s: State, c: nat) returns (t: Step)
    requires Inv(s) && s.mu.Free? && c < |s.calls| && !s.calls[c].pc.Gone?
    ensures CanStep(s, t) && (t.CallerStep? || t.ProbeStep? || t.Answer?)
  {
    assert CallInv(s, c);
    match s.calls[c].pc
    case NotStarted => t := CallerStep(s.calls[c].owner);
    case Probing => t := Answer(c, true, true);
    case _ => t := ProbeStep(c);
  }

  /******* Results and where they come from *******/

  /** The server answered call `c`, with or without success. */
  predicate Answers(t: Step, c: nat, ok: bool) { t.Answer? && t.c == c && t.ok == ok }

  /** One of the steps is the server's answer that workspaces are supported (`flag`) or not. */
  ghost predicate Detected(steps: seq<Step>, flag: bool) {
    exists j :: 0 <= j < |steps| && steps[j].Answer? && steps[j].ok && steps[j].enabled == flag
  }

  ghost predicate ProbeFailedIn(steps: seq<Step>, c: nat) {
    exists j :: 0 <= j < |steps| && Answers(steps[j], c, false)
  }

  ghost predicate CallExplained(steps: seq<Step>, call: Call, c: nat) {
    && (call.pc.Answered? ==> Detected(steps, call.pc.enabled))
    && (call.pc == Finished(ProbeFailed) || call.pc == FinLocked(ProbeFailed) || call.err == Some(ProbeFailed) ==>
          ProbeFailedIn(steps, c))
    && (call.pc.Finished? || call.pc.FinLocked? ==> call.pc.result.Ok? || call.pc.result.ProbeFailed?)
    && (call.err.Some? ==> call.err.value.Ok? || call.err.value.ProbeFailed?)
  }

  ghost predicate CallerExplained(steps: seq<Step>, me: Caller) {
    && (me.pc == Resolved(BadArgument) ==> !me.client || !me.context)
    && (me.pc == Resolved(ContextDone) ==> me.cancelled)
    && (me.pc == Resolved(ProbeFailed) ==> exists c: nat :: ProbeFailedIn(steps, c))
  }

  ghost predicate Explained(s: State, steps: seq<Step>) {
    && (s.support == Enabled ==> Detected(steps, true))
    && (s.support == Disabled ==> Detected(steps, false))
    && (forall c: nat | c < |s.calls| :: CallExplained(steps, s.calls[c], c))
    && (forall i: nat | i < |s.callers| :: CallerExplained(steps, s.callers[i]))
  }

  lemma DetectedLonger(steps: seq<Step>, t: Step, flag: bool)
    ensures Detected(steps, flag) ==> Detected(steps + [t], flag)
    ensures t.Answer? && t.ok && t.enabled == flag ==> Detected(steps + [t], flag)
  {
    var all := steps + [t];
    assert all[|steps|] == t;
    if j :| 0 <= j < |steps| && steps[j].Answer? && steps[j].ok && steps[j].enabled == flag { assert all[j] == steps[j]; }
  }

  lemma FailedLonger(steps: seq<Step>, t: Step, c: nat)
    ensures ProbeFailedIn(steps, c) ==> ProbeFailedIn(steps + [t], c)
    ensures Answers(t, c, false) ==> ProbeFailedIn(steps + [t], c)
  {
    var all := steps + [t];
    assert all[|steps|] == t;
    if j :| 0 <= j < |steps| && Answers(steps[j], c, false) { assert all[j] == steps[j]; }
  }

  lemma CallStaysExplained(s: State, steps: seq<Step>, t: Step, c: nat)
    requires CanStep(s, t) && Explained(s, steps) && c < |Next(s, t).calls|
    ensures CallExplained(steps + [t], Next(s, t).calls[c], c)
  {
    DetectedLonger(steps, t, true);
    DetectedLonger(steps, t, false);
    FailedLonger(steps, t, c);
    if c < |s.calls| { assert CallExplained(steps, s.calls[c], c); }
  }

  lemma CallerStaysExplained(s: State, steps: seq<Step>, t: Step, i: nat)
    requires CanStep(s, t) && Explained(s, steps) && i < |Next(s, t).callers|
    ensures CallerExplained(steps + [t], Next(s, t).callers[i])
  {
    if i < |s.callers| {
      assert CallerExplained(steps, s.callers[i]);
      if t == CallerStep(i) {
        OwnStepExplained(s, steps, i);
      } else {
        OutcomeLonger(steps, t, s.callers[i]);
      }
    }
  }

  lemma OutcomeLonger(steps: seq<Step>, t: Step, me: Caller)
    requires CallerExplained(steps, me)
    ensures CallerExplained(steps + [t], me)
  {
    if c: nat :| ProbeFailedIn(steps, c) { FailedLonger(steps, t, c); }
  }

  /** A caller's own step: an error it returns is its own, or the one its probe left. */
  lemma OwnStepExplained(s: State, steps: seq<Step>, i: nat)
    requires CanStep(s, CallerStep(i)) && Explained(s, steps)
    ensures CallerExplained(steps + [CallerStep(i)], Next(s, CallerStep(i)).callers[i])
  {
    if s.callers[i].pc.Waiting? {
      var c := s.callers[i].pc.call;
      assert CallExplained(steps, s.calls[c], c);
      FailedLonger(steps, CallerStep(i), c);
    }
  }

  lemma SupportStaysExplained(s: State, steps: seq<Step>, t: Step)
    requires CanStep(s, t) && Explained(s, steps)
    ensures Next(s, t).support == Enabled ==> Detected(steps + [t], true)
    ensures Next(s, t).support == Disabled ==> Detected(steps + [t], false)
  {
    DetectedLonger(steps, t, true);
    DetectedLonger(steps, t, false);
    if t.ProbeStep? { assert CallExplained(steps, s.calls[t.c], t.c); }
  }

  lemma {:induction false} RunIsExplained(s: State, steps: seq<Step>, before: seq<Step>)
    requires IsRun(s, steps) && Explained(s, before)
    ensures Explained(After(s, steps), before + steps)
    decreases |steps|
  {
    if steps == [] {
      assert before + steps == before;
    } else {
      var t := steps[0];
      var s' := Next(s, t);
      SupportStaysExplained(s, before, t);
      forall c: nat | c < |s'.calls| ensures CallExplained(before + [t], s'.calls[c], c) { CallStaysExplained(s, before, t, c); }
      forall i: nat | i < |s'.callers| ensures CallerExplained(before + [t], s'.callers[i]) { CallerStaysExplained(s, before, t, i); }
      RunIsExplained(s', steps[1..], before + [t]);
      assert before + [t] + steps[1..] == before + steps;
    }
  }

  ghost predicate OutcomeExplained(steps: seq<Step>, me: Caller) {
    CallerExplained(steps, me) && (me.pc.Prepared? ==> me.pc.flag.Some? && Detected(steps, me.pc.flag.value))
  }

  /**
    Over every run from the start, what is detected is what the server answered, every client
    carries such an answer, and every error has its cause: arguments, the caller's own context, or
    a probe that the server did not answer.
  */
  lemma ResultsAreExplained(s: State, steps: seq<Step>)
    requires Initial(s) && IsRun(s, steps)
    ensures
      var s' := After(s, steps);
      && (s'.support == Enabled ==> Detected(steps, true))
      && (s'.support == Disabled ==> Detected(steps, false))
      && forall i: nat | i < |s'.callers| :: OutcomeExplained(steps, s'.callers[i])
  {
    RunIsExplained(s, steps, []);
    assert [] + steps == steps;
    var s' := After(s, steps);
    assert Reachable(s');
    SharedProbeSafety(s');
    forall i: nat | i < |s'.callers| ensures OutcomeExplained(steps, s'.callers[i]) {
      assert CallerExplained(steps, s'.callers[i]);
    }
  }

  /** What one live caller and its probe do when the server answers `flag`. */
  function DetectionRun(flag: bool): seq<Step> {
    var me, probe := CallerStep(0), ProbeStep(0);
    [Arrive(true, true)] + [me, me, me, me, me, me, me] +
    ([Answer(0, true, flag), probe] + ([probe, probe, probe, probe, probe] + [me, me, me]))
  }

  /** A probe that the server answers does reach its caller: the client then carries the answer. */
  lemma AnswerReachesClient(s: State, flag: bool)
    requires Initial(s)
    ensures IsRun(s, DetectionRun(flag))
    ensures
      var s' := After(s, DetectionRun(flag));
      |s'.callers| == 1 && s'.callers[0].pc == Prepared(Some(flag)) && s'.support == if flag then Enabled else Disabled
  {
    var me := CallerStep(0);
    var s1 := Next(s, Arrive(true, true));
    assert s1.callers == [Caller(Entry, true, true, false)];
    var first := [me, me, me, me, me, me, me];
    Restartable(s1, 0);
    RunCons(s, Arrive(true, true), first);
    var s2 := After(s1, first);
    assert s2.callers == [Caller(Waiting(0), true, true, false)] && s2.calls == [Call(0, Probing, None, false)];
    AnswerStored(s2, flag);
    var probe := ProbeStep(0);
    RunAppend(s, [Arrive(true, true)] + first, [Answer(0, true, flag), probe] + ([probe, probe, probe, probe, probe] + [me, me, me]));
  }

  /** The answer is stored, the probe ends, and the caller that waited for it goes on. */
  lemma AnswerStored(s: State, flag: bool)
    requires s.support == Unknown && s.mu.Free? && s.calls == [Call(0, Probing, None, false)]
    requires s.callers == [Caller(Waiting(0), true, true, false)]
    ensures
      var me, probe := CallerStep(0), ProbeStep(0);
      var steps := [Answer(0, true, flag), probe] + ([probe, probe, probe, probe, probe] + [me, me, me]);
      IsRun(s, steps) &&
      var s' := After(s, steps);
      |s'.callers| == 1 && s'.callers[0].pc == Prepared(Some(flag)) && s'.support == if flag then Enabled else Disabled
  {
    var me, probe := CallerStep(0), ProbeStep(0);
    var a := Next(s, Answer(0, true, flag));
    var b := Next(a, probe);
    RunCons(a, probe, []);
    RunCons(s, Answer(0, true, flag), [probe]);
    assert [Answer(0, true, flag)] + [probe] == [Answer(0, true, flag), probe];
    ProbeEnds(b, 0, Ok);
    var c := After(b, [probe, probe, probe, probe, probe]);
    assert c.calls == [Call(0, Gone, Some(Ok), true)];
    WaiterRuns(c, flag);
    RunAppend(b, [probe, probe, probe, probe, probe], [me, me, me]);
    RunAppend(s, [Answer(0, true, flag), probe], [probe, probe, probe, probe, probe] + [me, me, me]);
  }

  lemma WaiterRuns(s: State, flag: bool)
    requires s.support == (if flag then Enabled else Disabled) && s.calls == [Call(0, Gone, Some(Ok), true)]
    requires s.callers == [Caller(Waiting(0), true, true, false)]
    ensures
      var me := CallerStep(0);
      IsRun(s, [me, me, me]) &&
      var s' := After(s, [me, me, me]);
      |s'.callers| == 1 && s'.callers[0].pc == Prepared(Some(flag)) && s'.support == s.support
  {
    var me := CallerStep(0);
    var a := Next(s, me);
    var b := Next(a, me);
    var c := Next(b, me);
    RunCons(b, me, []);
    RunCons(a, me, [me]);
    RunCons(s, me, [me, me]);
  }

  /** Where a caller can be whose context was done before it asked for the lock. */
  predicate Early(me: Caller) {
    me.cancelled &&
    (me.pc.Entry? || me.pc.SawUnknown? || (me.pc.Resolved? && !me.pc.result.ProbeFailed?) || me.pc.ReadEnabled? || me.pc.Prepared?)
  }

  /** A caller whose context is done in time never takes the lock, never starts a probe and never waits for one. */
  lemma {:induction false} CancelledNeverProbes(s: State, steps: seq<Step>, i: nat)
    requires IsRun(s, steps) && i < |s.callers| && Early(s.callers[i])
    ensures i < |After(s, steps).callers| && Early(After(s, steps).callers[i])
    decreases |steps|
  {
    if steps != [] { CancelledNeverProbes(Next(s, steps[0]), steps[1..], i); }
  }

  /** Bad arguments are refused before anything is looked at. */
  lemma BadArgumentsRefused(s: State, i: nat)
    requires i < |s.callers| && s.callers[i].pc.Entry? && (!s.callers[i].client || !s.callers[i].context)
    ensures CanStep(s, CallerStep(i)) && Next(s, CallerStep(i)) == SetPc(s, i, Resolved(BadArgument))
  {
  }
}
