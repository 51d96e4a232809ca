/** The background job registry (`backend/src/job_registry.rs`). A job's `Notify` is the one permit it can
    store: notifying twice before anyone waits leaves one permit. */
module JobRegistry {
  import opened Wrappers

  datatype Status = Status(
    description: string, intervalSecs: Option<nat>, triggerable: bool,
    lastStarted: int, lastFinished: int, lastOk: Option<bool>, lastDetail: Option<string>, runs: nat, running: bool)

  datatype Entry = Entry(status: Status, permit: bool)

  type Jobs = map<string, Entry>

  const FRESH := Status("", None, false, 0, 0, None, None, 0, false)

  /** Registering is idempotent: a second registration changes nothing. */
  function Registered(jobs: Jobs, name: string, description: string, intervalSecs: Option<nat>, triggerable: bool): Jobs {
    if name in jobs then jobs
    else
      jobs[name := Entry(FRESH.(description := description, intervalSecs := intervalSecs, triggerable := triggerable), false)]
  }

  function Begun(jobs: Jobs, name: string, now: int): Jobs {
    if name !in jobs then jobs
    else jobs[name := jobs[name].(status := jobs[name].status.(lastStarted := now, running := true))]
  }

  function Finished(jobs: Jobs, name: string, now: int, ok: bool, detail: string): Jobs {
    if name !in jobs then jobs
    else
      var s := jobs[name].status;
      jobs[name := jobs[name].(status := s.(
        lastFinished := now, lastOk := Some(ok), lastDetail := Some(detail), runs := s.runs + 1, running := false))]
  }

  predicate Triggerable(jobs: Jobs, name: string) {
    name in jobs && jobs[name].status.triggerable
  }

  function Triggered(jobs: Jobs, name: string): Jobs {
    if Triggerable(jobs, name) then jobs[name := jobs[name].(permit := true)] else jobs
  }

  /** A waiting loop takes the stored permit. */
  function Taken(jobs: Jobs, name: string): Jobs
    requires name in jobs
  {
    jobs[name := jobs[name].(permit := false)]
  }

  class Registry {
    var jobs: Jobs

    constructor ()
      ensures jobs == map[]
    {
      jobs := map[];
    }

    /** Idempotent: a known name keeps its entry, whatever it is registered with; a new one has never run. */
    method Register(name: string, description: string, intervalSecs: Option<nat>, triggerable: bool)
      modifies this
      ensures jobs == Registered(old(jobs), name, description, intervalSecs, triggerable)
      ensures name in old(jobs) ==> jobs == old(jobs)
      ensures name !in old(jobs) ==> name in jobs && NeverRun(jobs[name]) && jobs[name].status.triggerable == triggerable
      ensures OthersKept(old(jobs), jobs, name)
    {
      if name !in jobs {
        jobs := jobs[name := Entry(
                               Status(description, intervalSecs, triggerable, 0, 0, None, None, 0, false), false)];
      }
    }

    /** An unknown name is ignored; a known one is running since `now`, its last outcome still on show. */
    method Begin(name: string, now: int)
      modifies this
      ensures jobs == Begun(old(jobs), name, now)
      ensures jobs.Keys == old(jobs).Keys && OthersKept(old(jobs), jobs, name)
      ensures name in jobs ==>
        var before, after := old(jobs)[name].status, jobs[name].status;
        && after.running && after.lastStarted == now && SameOutcome(before, after)
        && jobs[name].permit == old(jobs)[name].permit
    {
      if name in jobs {
        var e := jobs[name];
        jobs := jobs[name := e.(status := e.status.(lastStarted := now, running := true))];
      }
    }

    /** An unknown name is ignored; a known one has run once more, with this outcome, and is not running. A
        permit stored meanwhile is kept. */
    method Finish(name: string, now: int, ok: bool, detail: string)
      modifies this
      ensures jobs == Finished(old(jobs), name, now, ok, detail)
      ensures jobs.Keys == old(jobs).Keys && OthersKept(old(jobs), jobs, name)
      ensures name in jobs ==>
        var before, after := old(jobs)[name].status, jobs[name].status;
        && !after.running && after.runs == before.runs + 1 && after.lastStarted == before.lastStarted
        && after.lastOk == Some(ok) && after.lastDetail == Some(detail) && after.lastFinished == now
        && jobs[name].permit == old(jobs)[name].permit
    {
      if name in jobs {
        var e := jobs[name];
        var s := e.status.(lastFinished := now, lastOk := Some(ok), lastDetail := Some(detail));
        s := s.(runs := s.runs + 1, running := false);
        jobs := jobs[name := e.(status := s)];
      }
    }

    /** However often a job is triggered before it waits, one permit is stored. */
    method Trigger(name: string) returns (accepted: bool)
      modifies this
      ensures jobs == Triggered(old(jobs), name)
      ensures accepted == Triggerable(old(jobs), name)
      ensures accepted ==> jobs[name].permit && jobs[name].status == old(jobs)[name].status
      ensures !accepted ==> jobs == old(jobs)
      ensures jobs.Keys == old(jobs).Keys && OthersKept(old(jobs), jobs, name)
    {
      if name in jobs && jobs[name].status.triggerable {
        jobs := jobs[name := jobs[name].(permit := true)];
        return true;
      }
      return false;
    }

    /** The waiting side of `notified()`: wakes exactly on a stored permit, and uses it up. */
    method Take(name: string) returns (woken: bool)
      modifies this
      ensures woken == (name in old(jobs) && old(jobs)[name].permit)
      ensures jobs == if woken then Taken(old(jobs), name) else old(jobs)
      ensures woken ==> !jobs[name].permit && jobs[name].status == old(jobs)[name].status
      ensures jobs.Keys == old(jobs).Keys && OthersKept(old(jobs), jobs, name)
    {
      woken := name in jobs && jobs[name].permit;
      if woken {
        jobs := jobs[name := jobs[name].(permit := false)];
      }
    }
  }

  /** Every job but `name` is as it was, in the registry or not. */
  ghost predicate OthersKept(before: Jobs, after: Jobs, name: string) {
    forall n :: n != name ==> Get(after, n) == Get(before, n)
  }

  predicate NeverRun(e: Entry) {
    && e.status.runs == 0 && e.status.lastOk.None? && !e.status.running && !e.permit
    && e.status.lastStarted == e.status.lastFinished == 0
  }

  predicate SameOutcome(before: Status, after: Status) {
    && after.lastOk == before.lastOk && after.lastDetail == before.lastDetail
    && after.lastFinished == before.lastFinished && after.runs == before.runs
  }

  /** A run that began and finished is counted once, whatever was triggered meanwhile. */
  lemma RunCountsOnce(jobs: Jobs, name: string, other: string, began: int, finished: int, ok: bool, detail: string)
    requires name in jobs
    ensures
      var after := Finished(Triggered(Begun(jobs, name, began), other), name, finished, ok, detail);
      && after.Keys == jobs.Keys && after[name].status.runs == jobs[name].status.runs + 1
      && after[name].status.lastStarted == began && after[name].status.lastFinished == finished
      && after[name].permit == (jobs[name].permit || (other == name && Triggerable(jobs, name)))
  {
  }
}
