/** The sector seed and refresh jobs (`airspace_sector_seed_job` and `spawn_airspace_sectors_refresh` in
    `backend/src/jobs.rs`, over `run_interval` in `backend/src/job_registry.rs`): every interleaving of two
    job loops, admin triggers and writes by other replicas. The sector table is a version number. */
module SectorReload {
  import opened Wrappers
  import opened JobRegistry

  const REFRESH := "airspace_sectors_refresh"
  const SEED := "airspace_sector_seed"

  /** Where a run of the refresh job is. `Loaded` holds the table version the query returned. */
  datatype Refresh = Absent | Waiting | Woken | Loading | Loaded(version: nat) | LoadFailed | Stored

  /** Where a run of the seed job is. `Committed` has written but not yet triggered. */
  datatype Seed = NoSeed | Idle | Roused | Fetching | Committed | Done | SeedFailed

  /** `firstTick` holds until a registered loop wakes for the first time: an interval's first tick is due at
      once. `foreign` says that another replica has written since the refresh last read the table. */
  datatype State = State(
    jobs: Jobs, refresh: Refresh, firstTick: bool, seed: Seed,
    table: nat, cache: Option<nat>, loaded: bool, foreign: bool)

  datatype Action =
    | RegisterRefresh | TickRefresh | NotifiedRefresh | BeginRefresh(now: int)
    | LoadOk | LoadErr | Store | FinishRefresh(at: int)
    | RegisterSeed | WakeSeed(byTick: bool) | BeginSeed(started: int)
    | Commit | AlreadyCurrent | SeedErr | TriggerRefresh | FinishSeed(finished: int)
    | AdminTrigger(name: string) | ForeignWrite

  predicate Enabled(s: State, a: Action) {
    match a
    case RegisterRefresh => s.refresh == Absent
    case TickRefresh => s.refresh == Waiting
    case NotifiedRefresh => s.refresh == Waiting && REFRESH in s.jobs && s.jobs[REFRESH].permit
    case BeginRefresh(_) => s.refresh == Woken
    case LoadOk => s.refresh == Loading
    case LoadErr => s.refresh == Loading
    case Store => s.refresh.Loaded?
    case FinishRefresh(_) => s.refresh == Stored || s.refresh == LoadFailed
    case RegisterSeed => s.seed == NoSeed
    case WakeSeed(byTick) => s.seed == Idle && (byTick || (SEED in s.jobs && s.jobs[SEED].permit))
    case BeginSeed(_) => s.seed == Roused
    case Commit => s.seed == Fetching
    case AlreadyCurrent => s.seed == Fetching
    case SeedErr => s.seed == Fetching
    case TriggerRefresh => s.seed == Committed
    case FinishSeed(_) => s.seed == Done || s.seed == SeedFailed
    case AdminTrigger(_) => true
    case ForeignWrite => true
  }

  /** One step. `triggers` is true in the program; false gives the program without the seed's trigger. */
  function Next(s: State, a: Action, triggers: bool): State
    requires Enabled(s, a)
  {
    match a
    case RegisterRefresh =>
      s.(jobs := Registered(s.jobs, REFRESH, "Reload ATC sector volumes from the DB", Some(300), true),
         refresh := Waiting, firstTick := true)
    case TickRefresh => s.(refresh := Woken, firstTick := false)
    case NotifiedRefresh => s.(jobs := Taken(s.jobs, REFRESH), refresh := Woken, firstTick := false)
    case BeginRefresh(now) => s.(jobs := Begun(s.jobs, REFRESH, now), refresh := Loading)
    case LoadOk => s.(refresh := Loaded(s.table), foreign := false)
    case LoadErr => s.(refresh := LoadFailed)
    case Store => s.(cache := Some(s.refresh.version), loaded := true, refresh := Stored)
    case FinishRefresh(at) =>
      s.(jobs := Finished(s.jobs, REFRESH, at, s.refresh == Stored, ""), refresh := Waiting)
    case RegisterSeed =>
      s.(jobs := Registered(s.jobs, SEED, "Load ATC sector volumes from the pinned vtsd sectors.json", Some(86400), true),
         seed := Idle)
    case WakeSeed(byTick) => s.(jobs := if byTick then s.jobs else Taken(s.jobs, SEED), seed := Roused)
    case BeginSeed(now) => s.(jobs := Begun(s.jobs, SEED, now), seed := Fetching)
    case Commit => s.(table := s.table + 1, seed := if triggers then Committed else Done)
    case AlreadyCurrent => s.(seed := Done)
    case SeedErr => s.(seed := SeedFailed)
    case TriggerRefresh => s.(jobs := Triggered(s.jobs, REFRESH), seed := Done)
    case FinishSeed(at) => s.(jobs := Finished(s.jobs, SEED, at, s.seed == Done, ""), seed := Idle)
    case AdminTrigger(name) => s.(jobs := Triggered(s.jobs, name))
    case ForeignWrite => s.(table := s.table + 1, foreign := true)
  }

  ghost predicate Initial(s: State) {
    && REFRESH !in s.jobs && SEED !in s.jobs
    && s.refresh == Absent && !s.firstTick && s.seed == NoSeed
    && s.cache == None && !s.loaded && !s.foreign
  }

  /** The state after a run, if each action was enabled in its turn. */
  function After(s: State, actions: seq<Action>, triggers: bool): Option<State> {
    if actions == [] then Some(s)
    else
      var last := |actions| - 1;
      var before := After(s, actions[..last], triggers);
      if before.None? || !Enabled(before.value, actions[last]) then None
      else Some(Next(before.value, actions[last], triggers))
  }

  // ---- No lost reload --------------------------------------------------------------------------

  predicate Permit(s: State) {
    REFRESH in s.jobs && s.jobs[REFRESH].permit
  }

  /** Nothing is pending: the refresh loop is registered and waiting, its first tick behind it, with no
      permit stored, and the seed is not between its commit and its trigger. */
  predicate Quiet(s: State) {
    s.refresh == Waiting && !s.firstTick && !Permit(s) && s.seed != Committed
  }

  predicate LastRefresh(s: State, ok: bool) {
    REFRESH in s.jobs && s.jobs[REFRESH].status.lastOk == Some(ok)
  }

  /** Some later read of the table is already certain. */
  predicate ReadPending(s: State) {
    s.refresh == Absent || s.firstTick || Permit(s) || s.refresh == Woken || s.refresh == Loading || s.seed == Committed
  }

  predicate AtMost(cache: Option<nat>, version: nat) {
    cache.Some? ==> cache.value <= version
  }

  ghost predicate Invariant(s: State) {
    && (REFRESH in s.jobs <==> s.refresh != Absent)
    && (REFRESH in s.jobs ==> s.jobs[REFRESH].status.triggerable)
    && (REFRESH in s.jobs ==>
          (s.jobs[REFRESH].status.running <==> s.refresh.Loading? || s.refresh.Loaded? || s.refresh.LoadFailed? || s.refresh.Stored?))
    && (s.firstTick ==> s.refresh == Waiting)
    && (s.loaded <==> s.cache.Some?)
    && AtMost(s.cache, s.table)
    && (s.refresh.Loaded? ==> s.refresh.version <= s.table && AtMost(s.cache, s.refresh.version))
    && (s.refresh == Stored ==> s.cache.Some?)
    && (s.refresh == Waiting && !s.firstTick ==> s.jobs[REFRESH].status.lastOk.Some?)
    && (s.refresh == Waiting && LastRefresh(s, true) ==> s.cache.Some?)
    && Current(s)
  }

  /** Unless a read is pending, what the run holds or has stored is the whole table. */
  ghost predicate Current(s: State) {
    !ReadPending(s) && !s.foreign ==>
      match s.refresh
      case Loaded(v) => v == s.table
      case LoadFailed => true
      case Stored => s.cache == Some(s.table)
      case _ => s.cache == Some(s.table) || LastRefresh(s, false)
  }

  lemma InitialInvariant(s: State)
    requires Initial(s)
    ensures Invariant(s)
  {
  }

  /** A trigger refused for want of a registered job loses nothing: a refused trigger means that the
      refresh loop has not started, so its first tick is still to come. */
  lemma RefusedTriggerIsEarly(s: State)
    requires Invariant(s)
    ensures !Triggerable(s.jobs, REFRESH) <==> s.refresh == Absent
    ensures !Triggerable(s.jobs, REFRESH) ==> Triggered(s.jobs, REFRESH) == s.jobs && ReadPending(s)
  {
  }

  predicate OfRefresh(a: Action) {
    || a.RegisterRefresh? || a.TickRefresh? || a.NotifiedRefresh? || a.BeginRefresh? || a.LoadOk? || a.LoadErr?
    || a.Store? || a.FinishRefresh?
  }

  lemma RefreshKeepsInvariant(s: State, a: Action)
    requires Invariant(s) && Enabled(s, a) && OfRefresh(a)
    ensures Invariant(Next(s, a, true))
  {
  }

  /** A step that leaves the refresh loop alone keeps the invariant, if it owns up to any new table. */
  lemma UntouchedKeeps(s: State, t: State)
    requires Invariant(s) && Get(t.jobs, REFRESH) == Get(s.jobs, REFRESH)
    requires t.refresh == s.refresh && t.firstTick == s.firstTick && t.cache == s.cache && t.loaded == s.loaded
    requires s.table <= t.table && (s.foreign ==> t.foreign) && (s.seed == Committed ==> t.seed == Committed)
    requires s.table < t.table ==> t.foreign || t.seed == Committed
    ensures Invariant(t)
  {
    assert REFRESH in s.jobs <==> REFRESH in t.jobs;
    assert REFRESH in s.jobs ==> s.jobs[REFRESH] == t.jobs[REFRESH];
  }

  lemma SeedLeavesRefresh(s: State, a: Action)
    requires Enabled(s, a) && !OfRefresh(a) && !a.TriggerRefresh? && !a.AdminTrigger?
    ensures Get(Next(s, a, true).jobs, REFRESH) == Get(s.jobs, REFRESH)
  {
    assert REFRESH != SEED;
  }

  lemma TriggerKeepsInvariant(s: State, a: Action)
    requires Invariant(s) && Enabled(s, a) && (a.TriggerRefresh? || a.AdminTrigger?)
    ensures Invariant(Next(s, a, true))
  {
  }

  lemma OthersKeepInvariant(s: State, a: Action)
    requires Invariant(s) && Enabled(s, a) && !OfRefresh(a)
    ensures Invariant(Next(s, a, true))
  {
    hide Invariant, Registered, Begun, Finished, Taken, Triggered;
    if a.TriggerRefresh? || a.AdminTrigger? {
      TriggerKeepsInvariant(s, a);
    } else {
      SeedLeavesRefresh(s, a);
      UntouchedKeeps(s, Next(s, a, true));
    }
  }

  lemma StepKeepsInvariant(s: State, a: Action)
    requires Invariant(s) && Enabled(s, a)
    ensures Invariant(Next(s, a, true))
  {
    hide *;
    if OfRefresh(a) {
      RefreshKeepsInvariant(s, a);
    } else {
      OthersKeepInvariant(s, a);
    }
  }

  /** The cache only ever moves forward, whichever reload is in flight. */
  lemma StepKeepsForward(s: State, a: Action)
    requires Invariant(s) && Enabled(s, a)
    ensures var t := Next(s, a, true);
      s.cache.Some? ==> t.cache.Some? && s.cache.value <= t.cache.value
  {
  }

  lemma {:induction false} RunKeepsInvariant(s: State, actions: seq<Action>)
    requires Initial(s) && After(s, actions, true).Some?
    ensures Invariant(After(s, actions, true).value)
  {
    hide Invariant, Initial, Enabled, Next;
    if actions == [] {
      InitialInvariant(s);
    } else {
      var last := |actions| - 1;
      RunKeepsInvariant(s, actions[..last]);
      StepKeepsInvariant(After(s, actions[..last], true).value, actions[last]);
    }
  }

  /** In every interleaving, whenever nothing is pending the cache is the table, unless the last refresh
      reported failure or another replica has written since. */
  lemma NoLostReload(s: State, actions: seq<Action>)
    requires Initial(s) && After(s, actions, true).Some? && Quiet(After(s, actions, true).value)
    ensures var t := After(s, actions, true).value;
      t.cache == Some(t.table) || LastRefresh(t, false) || t.foreign
    ensures var t := After(s, actions, true).value; !LastRefresh(t, false) ==> LastRefresh(t, true) && t.loaded
  {
    RunKeepsInvariant(s, actions);
    hide After, Invariant, Initial, LastRefresh, Quiet;
    QuietIsCurrent(After(s, actions, true).value);
  }

  lemma QuietIsCurrent(t: State)
    requires Invariant(t) && Quiet(t)
    ensures t.cache == Some(t.table) || LastRefresh(t, false) || t.foreign
    ensures !LastRefresh(t, false) ==> LastRefresh(t, true) && t.loaded
  {
    var ok := t.jobs[REFRESH].status.lastOk;
    assert ok.Some? && (ok.value || ok == Some(false));
  }

  /** Over any stretch of a run the cache never goes back to an older table. */
  lemma {:induction false} CacheOnlyAdvances(s: State, actions: seq<Action>, more: seq<Action>)
    requires Initial(s) && After(s, actions + more, true).Some?
    ensures After(s, actions, true).Some?
    ensures var (before, after) := (After(s, actions, true).value, After(s, actions + more, true).value);
      before.cache.Some? ==> after.cache.Some? && before.cache.value <= after.cache.value
  {
    hide Invariant, Initial, Enabled, Next;
    if more == [] {
      assert actions + more == actions;
    } else {
      var last := |more| - 1;
      var whole := actions + more;
      assert whole[..|whole| - 1] == actions + more[..last];
      CacheOnlyAdvances(s, actions, more[..last]);
      RunKeepsInvariant(s, whole[..|whole| - 1]);
      StepKeepsForward(After(s, whole[..|whole| - 1], true).value, whole[|whole| - 1]);
    }
  }

  // ---- What the trigger is for -----------------------------------------------------------------

  const FIRST := State(map[], Absent, false, NoSeed, 0, None, false, false)

  lemma AfterStep(s: State, actions: seq<Action>, a: Action, triggers: bool)
    requires After(s, actions, triggers).Some? && Enabled(After(s, actions, triggers).value, a)
    ensures After(s, actions + [a], triggers) == Some(Next(After(s, actions, triggers).value, a, triggers))
  {
    assert (actions + [a])[..|actions|] == actions;
  }

  lemma Extended(actions: seq<Action>, s: State, a: Action) returns (more: seq<Action>, t: State)
    requires After(FIRST, actions, false) == Some(s) && Enabled(s, a)
    ensures more == actions + [a] && t == Next(s, a, false) && After(FIRST, more, false) == Some(t)
  {
    more, t := actions + [a], Next(s, a, false);
    AfterStep(FIRST, actions, a, false);
  }

  /** A refresh registers, wakes on its first tick and begins. */
  lemma RefreshUnderWay() returns (actions: seq<Action>, s: State)
    ensures After(FIRST, actions, false) == Some(s)
    ensures s.refresh == Loading && s.seed == NoSeed && s.table == 0 && s.cache == None && !s.firstTick && !s.foreign
    ensures REFRESH in s.jobs && !s.jobs[REFRESH].permit
  {
    hide After;
    actions, s := Extended([], FIRST, RegisterRefresh) by { NoSteps(); }
    actions, s := Extended(actions, s, TickRefresh);
    actions, s := Extended(actions, s, BeginRefresh(1));
  }

  lemma NoSteps()
    ensures After(FIRST, [], false) == Some(FIRST)
  {
  }

  /** So does the seed. */
  lemma BothUnderWay() returns (actions: seq<Action>, s: State)
    ensures After(FIRST, actions, false) == Some(s)
    ensures s.refresh == Loading && s.seed == Fetching && s.table == 0 && s.cache == None && !s.firstTick && !s.foreign
    ensures REFRESH in s.jobs && !s.jobs[REFRESH].permit
  {
    hide After, Registered, Begun, Finished, Taken, Triggered;
    actions, s := RefreshUnderWay();
    SameEntry(s, RegisterSeed);
    actions, s := Extended(actions, s, RegisterSeed);
    SameEntry(s, WakeSeed(true));
    actions, s := Extended(actions, s, WakeSeed(true));
    SameEntry(s, BeginSeed(2));
    actions, s := Extended(actions, s, BeginSeed(2));
  }

  lemma SameEntry(s: State, a: Action)
    requires Enabled(s, a) && (a.RegisterSeed? || a.WakeSeed? || a.BeginSeed?) && REFRESH in s.jobs
    ensures REFRESH in Next(s, a, false).jobs && Next(s, a, false).jobs[REFRESH] == s.jobs[REFRESH]
  {
    assert REFRESH != SEED;
  }

  /** It reads the old table, and meanwhile the seed commits a new one. */
  lemma Overtaken() returns (actions: seq<Action>, s: State)
    ensures After(FIRST, actions, false) == Some(s)
    ensures s.refresh == Loaded(0) && s.seed == Done && s.table == 1 && s.cache == None && !s.firstTick && !s.foreign
    ensures REFRESH in s.jobs && !s.jobs[REFRESH].permit
  {
    hide After;
    actions, s := BothUnderWay();
    actions, s := Extended(actions, s, LoadOk);
    actions, s := Extended(actions, s, Commit);
  }

  /** Without the trigger, a reload in flight can be the last word. In this run everything goes quiet, the
      last refresh succeeded, no other replica wrote, and the cache still holds the old table. */
  lemma WithoutTriggerLastWordIsStale() returns (actions: seq<Action>)
    ensures Initial(FIRST) && After(FIRST, actions, false).Some?
    ensures var t := After(FIRST, actions, false).value;
      Quiet(t) && LastRefresh(t, true) && !t.foreign && t.cache != Some(t.table)
  {
    hide After;
    var s;
    actions, s := Overtaken();
    actions, s := Extended(actions, s, Store);
    actions, s := Extended(actions, s, FinishRefresh(3));
    actions, s := Extended(actions, s, FinishSeed(4));
  }
}
