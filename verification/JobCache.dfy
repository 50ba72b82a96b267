/**
  The sidecar's job cache: entries are loaded on first use, served while resident, and removed
  by a periodic sweep. Each method is one section run under the cache's lock; a `Get` that
  misses runs two of them, with any others in between. `Valid` is kept by every section, so it
  holds after every interleaving; what it says of the recorded history gives the laws at the end.
*/
module JobCache {
  import opened Wrappers

  /** Seconds on the cache's clock. */
  type Time = int

  const DefaultTtl: Time := 2 * 60 * 60

  datatype Entry<T> = Entry(target: T, cleanAfter: Time)

  /** What happened, in order. `Swept` follows the evictions of one sweep. */
  datatype Event<T> =
    | Loaded(job: string, target: T, at: Time)
    | Failed(job: string, at: Time)
    | Served(job: string, target: T, at: Time)
    | Evicted(job: string, at: Time)
    | Swept(at: Time)

  /******* Histories *******/

  function After<T>(e: Event<T>, job: string, before: Option<Event<T>>): Option<Event<T>> {
    if e.Loaded? && e.job == job then Some(e) else if e.Evicted? && e.job == job then None else before
  }

  /** The load that put `job` into the cache, if it is there after `log`. */
  function Residency<T>(log: seq<Event<T>>, job: string): (r: Option<Event<T>>)
    ensures r.Some? ==> r.value.Loaded? && r.value.job == job
  {
    if log == [] then None
    else
      var prior, e := log[..|log| - 1], log[|log| - 1];
      After(e, job, Residency(prior, job))
  }

  function Latest<T>(start: Time, log: seq<Event<T>>): Time {
    if log == [] then start else log[|log| - 1].at
  }

  function LastSweep<T>(start: Time, log: seq<Event<T>>): Time {
    if log == [] then start
    else if log[|log| - 1].Swept? then log[|log| - 1].at
    else LastSweep(start, log[..|log| - 1])
  }

  ghost predicate Expired<T>(ttl: Time, load: Event<T>, now: Time) { now > load.at + ttl }

  /** `e` may follow `log`. */
  ghost predicate Allowed<T(!new)>(ttl: Time, log: seq<Event<T>>, e: Event<T>) {
    match e
    case Loaded(job, _, _) => Residency(log, job).None?
    case Failed(job, _) => Residency(log, job).None?
    case Served(job, target, _) => Residency(log, job).Some? && Residency(log, job).value.target == target
    case Evicted(job, at) => Residency(log, job).Some? && Expired(ttl, Residency(log, job).value, at)
    case Swept(at) => forall job :: Residency(log, job).Some? ==> !Expired(ttl, Residency(log, job).value, at)
  }

  ghost predicate Lawful<T(!new)>(start: Time, ttl: Time, log: seq<Event<T>>) {
    log != [] ==>
      var prior, e := log[..|log| - 1], log[|log| - 1];
      Lawful(start, ttl, prior) && Allowed(ttl, prior, e) && Latest(start, prior) <= e.at
  }

  lemma Snoc<T(!new)>(start: Time, ttl: Time, log: seq<Event<T>>, e: Event<T>)
    requires Lawful(start, ttl, log) && Allowed(ttl, log, e) && Latest(start, log) <= e.at
    ensures Lawful(start, ttl, log + [e]) && Latest(start, log + [e]) == e.at
    ensures forall job :: Residency(log + [e], job) == After(e, job, Residency(log, job))
  {
    assert (log + [e])[..|log|] == log;
  }

  /******* The cache *******/

  /** The entries left when all but `rest` have been examined at time `now`. */
  function Unexpired<T>(entries: map<string, Entry<T>>, now: Time, rest: set<string>): map<string, Entry<T>> {
    map job | job in entries && (job in rest || entries[job].cleanAfter >= now) :: entries[job]
  }

  /** `later` adds nothing but evictions to `log`. */
  ghost predicate EvictionsAfter<T>(log: seq<Event<T>>, later: seq<Event<T>>) {
    log <= later && forall i | |log| <= i < |later| :: later[i].Evicted?
  }

  lemma UnexpiredNext<T>(entries: map<string, Entry<T>>, now: Time, rest: set<string>, job: string)
    requires job in rest && rest <= entries.Keys
    ensures Unexpired(entries, now, rest - {job}) ==
            if now > entries[job].cleanAfter then Unexpired(entries, now, rest) - {job} else Unexpired(entries, now, rest)
  {
  }

  class JobInfoCache<T(!new)> {
    var entries: map<string, Entry<T>>
    const ttl: Time
    ghost const start: Time
    ghost var log: seq<Event<T>>

    /** The cache holds exactly the current residencies, each with the deadline of its one load. */
    ghost predicate Mirrors()
      reads this
    {
      forall job :: match Residency(log, job)
                    case None => job !in entries
                    case Some(load) => job in entries && entries[job] == Entry(load.target, load.at + ttl)
    }

    ghost predicate Valid()
      reads this
    {
      ttl > 0 && Lawful(start, ttl, log) && Mirrors()
    }

    constructor (ttl: Time, ghost now: Time)
      ensures Valid() && log == [] && start == now
      ensures this.ttl == if ttl <= 0 then 7200 else ttl
    {
      this.ttl := if ttl <= 0 then DefaultTtl else ttl;
      entries := map[];
      start := now;
      log := [];
    }

    /** The first section of `Get`, under the read lock; None means a miss. */
    method Lookup(job: string, ghost now: Time) returns (target: Option<T>)
      requires Valid() && Latest(start, log) <= now
      modifies this`log
      ensures Valid()
      ensures log == match target case Some(x) => old(log) + [Served(job, x, now)] case None => old(log)
      ensures target.None? <==> Residency(log, job).None?
    {
      if job in entries {
        target := Some(entries[job].target);
        Snoc(start, ttl, log, Served(job, entries[job].target, now));
        log := log + [Served(job, entries[job].target, now)];
      } else {
        target := None;
      }
    }

    /** The second section, under the write lock, with what the job's file gives if it is read. */
    method LoadIfAbsent(job: string, file: Option<T>, now: Time) returns (target: Option<T>)
      requires Valid() && Latest(start, log) <= now
      modifies this
      ensures Valid()
      ensures Residency(old(log), job).Some? ==> target.Some? && log == old(log) + [Served(job, target.value, now)]
      ensures Residency(old(log), job).None? ==> target == file
      ensures Residency(old(log), job).None? && file.None? ==> entries == old(entries) && log == old(log) + [Failed(job, now)]
      ensures Residency(old(log), job).None? && file.Some? ==>
        log == old(log) + [Loaded(job, file.value, now), Served(job, file.value, now)]
    {
      target := Lookup(job, now);
      if target.Some? {
        return;
      }
      if file.None? {
        Snoc(start, ttl, log, Failed(job, now));
        log := log + [Failed(job, now)];
        return;
      }
      Snoc(start, ttl, log, Loaded(job, file.value, now));
      Snoc(start, ttl, log + [Loaded(job, file.value, now)], Served(job, file.value, now));
      entries := entries[job := Entry(file.value, now + ttl)];
      log := log + [Loaded(job, file.value, now)] + [Served(job, file.value, now)];
      target := file;
    }

    /** Removes what expired before `now`, in whatever order the map is ranged over. */
    method Sweep(now: Time)
      requires Valid() && Latest(start, log) <= now
      modifies this
      ensures Valid() && |log| > 0 && log[|log| - 1] == Swept(now)
      ensures EvictionsAfter(old(log), log[..|log| - 1])
      ensures entries == Unexpired(old(entries), now, {})
    {
      var rest := entries.Keys;
      assert entries == Unexpired(entries, now, rest);
      while rest != {}
        invariant Valid() && Latest(start, log) <= now && rest <= entries.Keys
        invariant EvictionsAfter(old(log), log)
        invariant entries == Unexpired(old(entries), now, rest)
        decreases rest
      {
        var job :| job in rest;
        UnexpiredNext(old(entries), now, rest, job);
        Examine(job, now);
        rest := rest - {job};
      }
      RecordSweep(now);
    }

    method RecordSweep(ghost now: Time)
      requires Valid() && Latest(start, log) <= now && forall job | job in entries :: entries[job].cleanAfter >= now
      modifies this`log
      ensures Valid() && log == old(log) + [Swept(now)]
    {
      Snoc(start, ttl, log, Swept(now));
      log := log + [Swept(now)];
    }

    method Examine(job: string, now: Time)
      requires Valid() && Latest(start, log) <= now && job in entries
      modifies this
      ensures Valid() && Latest(start, log) <= now && EvictionsAfter(old(log), log)
      ensures entries == if now > old(entries)[job].cleanAfter then old(entries) - {job} else old(entries)
    {
      if now > entries[job].cleanAfter {
        Snoc(start, ttl, log, Evicted(job, now));
        entries := entries - {job};
        log := log + [Evicted(job, now)];
      }
    }
  }

  /******* Laws of lawful histories *******/

  function Count<T>(log: seq<Event<T>>, p: Event<T> -> bool): nat {
    if log == [] then 0 else Count(log[..|log| - 1], p) + if p(log[|log| - 1]) then 1 else 0
  }

  /** Each residency comes from one load and ends in one eviction. */
  lemma {:induction false} OneLoadPerResidency<T(!new)>(start: Time, ttl: Time, log: seq<Event<T>>, job: string)
    requires Lawful(start, ttl, log)
    ensures Count(log, (e: Event<T>) => e.Loaded? && e.job == job) ==
            Count(log, (e: Event<T>) => e.Evicted? && e.job == job) + (if Residency(log, job).Some? then 1 else 0)
  {
    if log != [] { OneLoadPerResidency(start, ttl, log[..|log| - 1], job); }
  }

  lemma {:induction false} SweepBeforeLatest<T(!new)>(start: Time, ttl: Time, log: seq<Event<T>>)
    requires Lawful(start, ttl, log)
    ensures start <= LastSweep(start, log) <= Latest(start, log)
  {
    if log != [] { SweepBeforeLatest(start, ttl, log[..|log| - 1]); }
  }

  /** What is resident had not expired at the last sweep. */
  lemma {:induction false} SurvivedLastSweep<T(!new)>(start: Time, ttl: Time, log: seq<Event<T>>, job: string)
    requires Lawful(start, ttl, log) && ttl >= 0 && Residency(log, job).Some?
    ensures LastSweep(start, log) <= Residency(log, job).value.at + ttl
  {
    var prior, e := log[..|log| - 1], log[|log| - 1];
    SweepBeforeLatest(start, ttl, prior);
    if !(e.Loaded? && e.job == job) && !e.Swept? {
      SurvivedLastSweep(start, ttl, prior, job);
    }
  }

  /** `log[h]` is the latest load of `job`, and nothing before `i` ended its residency. */
  ghost predicate Begins<T>(log: seq<Event<T>>, h: int, i: nat, job: string)
    requires i <= |log|
  {
    && 0 <= h < i && log[h].Loaded? && log[h].job == job
    && forall m | h < m < i :: !((log[m].Loaded? || log[m].Evicted?) && log[m].job == job)
  }

  lemma {:induction false} ResidencyLocated<T>(log: seq<Event<T>>, job: string)
    requires Residency(log, job).Some?
    ensures exists h :: Begins(log, h, |log|, job) && log[h] == Residency(log, job).value
  {
    var n := |log| - 1;
    var e := log[n];
    if e.Loaded? && e.job == job {
      assert Begins(log, n, |log|, job);
    } else {
      ResidencyLocated(log[..n], job);
      var h :| Begins(log[..n], h, n, job) && log[..n][h] == Residency(log, job).value;
      assert Begins(log, h, |log|, job);
    }
  }

  lemma {:induction false} LawfulPrefix<T(!new)>(start: Time, ttl: Time, log: seq<Event<T>>, i: nat)
    requires Lawful(start, ttl, log) && i < |log|
    ensures Lawful(start, ttl, log[..i]) && Allowed(ttl, log[..i], log[i])
  {
    if i < |log| - 1 {
      LawfulPrefix(start, ttl, log[..|log| - 1], i);
      assert log[..|log| - 1][..i] == log[..i];
    }
  }

  /**
    Every answer is the value of the one load that began the current residency. If at most
    `interval` has passed since the last sweep, it is at most `ttl + interval` old.
  */
  lemma ServedIsFresh<T(!new)>(start: Time, ttl: Time, interval: Time, log: seq<Event<T>>, i: nat)
    requires Lawful(start, ttl, log) && ttl >= 0 && i < |log| && log[i].Served?
    requires log[i].at <= LastSweep(start, log[..i]) + interval
    ensures exists h :: Begins(log, h, i, log[i].job) && log[h].target == log[i].target && log[i].at <= log[h].at + ttl + interval
  {
    var prior, job := log[..i], log[i].job;
    LawfulPrefix(start, ttl, log, i);
    ResidencyLocated(prior, job);
    SurvivedLastSweep(start, ttl, prior, job);
    var h :| Begins(prior, h, i, job) && prior[h] == Residency(prior, job).value;
    assert Begins(log, h, i, job);
  }

  /** The bound is reached: a sweep on the deadline keeps the entry for one more interval. */
  lemma BoundIsReached<T(!new)>(job: string, target: T, ttl: Time, interval: Time)
    requires ttl > 0 && interval > 0
    ensures var log := [Loaded(job, target, 0), Swept(ttl), Served(job, target, ttl + interval)];
      Lawful(0, ttl, log) && LastSweep(0, log) + interval == log[2].at == log[0].at + ttl + interval
  {
    var load, sweep, serve := Loaded(job, target, 0), Swept(ttl), Served(job, target, ttl + interval);
    Snoc(0, ttl, [], load);
    assert [] + [load] == [load];
    Snoc(0, ttl, [load], sweep);
    assert [load] + [sweep] == [load, sweep];
    Snoc(0, ttl, [load, sweep], serve);
    assert [load, sweep] + [serve] == [load, sweep, serve] && [load, sweep, serve][..2] == [load, sweep];
  }
}
