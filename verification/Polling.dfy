/**
 * Two guards against late answers: the run counter of a poll and the generation counter of the system configuration.
 * Requests that are still out are kept in a set, so answers may arrive in any order or never.
 */
module Polling {
  import opened Sequences

  ghost predicate Increasing(ids: seq<nat>) {
    forall i, j :: 0 <= i < j < |ids| ==> ids[i] < ids[j]
  }

  lemma NewestLast(ids: seq<nat>, id: nat)
    requires Increasing(ids) && (forall x :: x in ids ==> x <= id) && id !in ids
    ensures Increasing(ids + [id])
  {
    forall i | 0 <= i < |ids| ensures ids[i] < id {
      assert ids[i] in ids;
    }
  }

  /** No request is both out and applied, none is newer than the counter, and they were applied in order. */
  ghost predicate InOrder(pending: set<nat>, applied: seq<nat>, counter: nat) {
    && (forall id :: id in pending ==> 1 <= id <= counter && id !in applied)
    && (forall id :: id in applied ==> 1 <= id <= counter) && Increasing(applied)
  }

  /** An answer takes its request out; one to the newest request may be applied. */
  lemma Answered(pending: set<nat>, applied: seq<nat>, counter: nat, id: nat)
    requires InOrder(pending, applied, counter) && id in pending
    ensures InOrder(pending - {id}, applied, counter)
    ensures id == counter ==> InOrder(pending - {id}, applied + [id], counter)
  {
    if id == counter {
      NewestLast(applied, id);
    }
  }

  lemma Started(pending: set<nat>, applied: seq<nat>, counter: nat)
    requires InOrder(pending, applied, counter)
    ensures InOrder(pending + {counter + 1}, applied, counter + 1) && InOrder(pending, applied, counter + 1)
    ensures counter + 1 !in pending
  {}

  datatype PollEvent<T> =
    | Tick
    | Refresh
    | Hide
    | Reveal
    | Succeed(run: nat, result: T, now: int)
    | Fail(run: nat, message: string)
    | Unmount

  /** A poll whose `enabled` option stays what it was when it was mounted. */
  class Poll<T> {
    const enabled: bool
    var data: Option<T>
    var error: Option<string>
    var loading: bool
    var lastUpdated: Option<int>
    var runId: nat
    var firstRun: bool
    var mounted: bool
    var hidden: bool
    var timer: Option<nat>
    /** The intervals that are live in the browser, and the next handle it hands out. */
    var live: set<nat>
    var nextHandle: nat
    /** The runs that were not answered yet. */
    var pending: set<nat>
    /** The runs whose answer was applied, in order. */
    ghost var applied: seq<nat>

    /**
     * Applied runs are ever newer, and none is answered twice; the one live interval is the one on record; a visible,
     * mounted poll has it; the skeleton shows exactly until the first answer.
     */
    ghost predicate Valid()
      reads this
    {
      && InOrder(pending, applied, runId)
      && live == (if timer.Some? then {timer.value} else {})
      && (forall h :: h in live ==> h < nextHandle)
      && (timer.Some? ==> mounted && enabled) && (mounted && enabled && !hidden ==> timer.Some?)
      && (loading <==> enabled && firstRun)
      && (firstRun <==> applied == []) && (data.Some? <==> lastUpdated.Some?) && (data.Some? ==> applied != [])
    }

    constructor (enabled: bool, hidden: bool)
      ensures Valid() && this.enabled == enabled && mounted && data == None && error == None
      ensures loading == enabled && (enabled ==> pending == {1} && timer.Some?)
    {
      this.enabled := enabled;
      this.hidden := hidden;
      data, error, lastUpdated, loading := None, None, None, enabled;
      firstRun, mounted := true, true;
      applied := [];
      if enabled {
        runId, pending := 1, {1};
        timer, live, nextHandle := Some(0), {0}, 1;
      } else {
        runId, pending := 0, {};
        timer, live, nextHandle := None, {}, 0;
      }
    }

    method StartRun()
      requires Valid() && enabled && mounted
      modifies this`runId, this`pending, this`loading
      ensures Valid() && runId == old(runId) + 1 && pending == old(pending) + {runId} && loading == old(loading)
    {
      Started(pending, applied, runId);
      runId := runId + 1;
      if firstRun { loading := true; }
      pending := pending + {runId};
    }

    method Schedule()
      requires enabled && mounted && timer == None && live == {}
      modifies this`timer, this`live, this`nextHandle
      ensures timer == Some(old(nextHandle)) && live == {old(nextHandle)} && nextHandle == old(nextHandle) + 1
    {
      timer := Some(nextHandle);
      live := live + {nextHandle};
      nextHandle := nextHandle + 1;
    }

    method CancelTimer()
      modifies this`timer, this`live
      ensures timer == None && live == old(live) - (if old(timer).Some? then {old(timer).value} else {})
    {
      if timer.Some? {
        live := live - {timer.value};
        timer := None;
      }
    }

    /** The interval fires: only a live one can. */
    method OnTick()
      requires Valid() && timer.Some?
      modifies this`runId, this`pending, this`loading
      ensures Valid() && runId == old(runId) + 1
    {
      StartRun();
    }

    method OnRefresh()
      requires Valid() && mounted
      modifies this`runId, this`pending, this`loading
      ensures Valid() && runId == old(runId) + if enabled then 1 else 0
    {
      if enabled {
        StartRun();
      } else {
        loading := false;
      }
    }

    method OnHide()
      requires Valid()
      modifies this`hidden, this`timer, this`live
      ensures Valid() && hidden && timer == None && live == {}
    {
      hidden := true;
      CancelTimer();
    }

    /** Back in view: fetch at once and resume, unless the interval never stopped. */
    method OnReveal()
      requires Valid()
      modifies this`hidden, this`runId, this`pending, this`loading, this`timer, this`live, this`nextHandle
      ensures Valid() && !hidden
      ensures mounted && enabled ==> timer.Some? && runId == old(runId) + if old(timer).Some? then 0 else 1
      ensures !(mounted && enabled) ==> timer == None && runId == old(runId)
    {
      if mounted && enabled && timer.None? {
        StartRun();
        Schedule();
      }
      hidden := false;
    }

    /** An answer counts only while mounted and while no newer run has started. */
    method OnSuccess(run: nat, result: T, now: int)
      requires Valid() && run in pending
      modifies this`pending, this`data, this`error, this`lastUpdated, this`loading, this`firstRun, this`applied
      ensures Valid() && pending == old(pending) - {run} && (old(data).Some? ==> data.Some?)
      ensures if mounted && run == runId
              then
                && data == Some(result) && error == None && !loading && lastUpdated == Some(now)
                && applied == old(applied) + [run]
              else
                && data == old(data) && error == old(error) && loading == old(loading)
                && lastUpdated == old(lastUpdated) && applied == old(applied)
    {
      Answered(pending, applied, runId, run);
      hide InOrder;
      pending := pending - {run};
      if !mounted || run != runId { return; }
      firstRun := false;
      data := Some(result);
      error := None;
      lastUpdated := Some(now);
      loading := false;
      applied := applied + [run];
    }

    /** A failure is shown, and the last result stays. */
    method OnFailure(run: nat, message: string)
      requires Valid() && run in pending
      modifies this`pending, this`error, this`loading, this`firstRun, this`applied
      ensures Valid() && pending == old(pending) - {run}
      ensures if mounted && run == runId then error == Some(message) && !loading && applied == old(applied) + [run]
              else error == old(error) && loading == old(loading) && applied == old(applied)
    {
      Answered(pending, applied, runId, run);
      hide InOrder;
      pending := pending - {run};
      if !mounted || run != runId { return; }
      firstRun := false;
      error := Some(message);
      loading := false;
      applied := applied + [run];
    }

    method OnUnmount()
      requires Valid()
      modifies this`mounted, this`timer, this`live
      ensures Valid() && !mounted && timer == None && live == {}
    {
      mounted := false;
      CancelTimer();
    }

    predicate Enabled(e: PollEvent<T>)
      reads this
    {
      match e
      case Tick => timer.Some?
      case Refresh => mounted
      case Succeed(run, _, _) => run in pending
      case Fail(run, _) => run in pending
      case _ => true
    }

    method Apply(e: PollEvent<T>)
      requires Valid() && Enabled(e)
      modifies this
      ensures Valid() && (old(data).Some? ==> data.Some?) && old(applied) <= applied
      ensures |applied| > |old(applied)| ==> applied[|applied| - 1] == runId && mounted
      ensures !old(mounted) ==> !mounted && data == old(data) && error == old(error) && loading == old(loading)
    {
      match e {
        case Tick => OnTick();
        case Refresh => OnRefresh();
        case Hide => OnHide();
        case Reveal => OnReveal();
        case Succeed(run, result, now) => OnSuccess(run, result, now);
        case Fail(run, message) => OnFailure(run, message);
        case Unmount => OnUnmount();
      }
    }

    /**
     * Every interleaving: the applied runs strictly increase, at most one interval is live, data once there stays,
     * and after an unmount nothing changes any more.
     */
    method Run(events: seq<PollEvent<T>>)
      requires Valid()
      modifies this
      ensures Valid() && Increasing(applied) && |live| <= 1 && (old(data).Some? ==> data.Some?)
      ensures old(applied) <= applied
      ensures !old(mounted) ==> !mounted && data == old(data) && error == old(error) && loading == old(loading)
    {
      for i := 0 to |events|
        invariant Valid() && (old(data).Some? ==> data.Some?) && old(applied) <= applied
        invariant !old(mounted) ==> !mounted && data == old(data) && error == old(error) && loading == old(loading)
      {
        if Enabled(events[i]) {
          Apply(events[i]);
        }
      }
    }
  }

  // ---------------------------------------------------------------- system configuration

  datatype ConfigEvent<C> =
    | Reread
    | Resolve(load: nat, config: C)
    | Reject(load: nat)
    | Leave

  class SystemConfig<C> {
    var config: Option<C>
    var loading: bool
    var error: bool
    var generation: nat
    var mounted: bool
    /** The loads that were not answered yet. */
    var pending: set<nat>
    ghost var applied: seq<nat>

    /** While mounted, it is loading exactly when the load of the current generation is out. */
    ghost predicate Valid()
      reads this
    {
      && InOrder(pending, applied, generation)
      && (mounted ==> (loading <==> generation in pending))
    }

    /** Mounting starts the first load. */
    constructor ()
      ensures Valid() && mounted && loading && config == None && !error && pending == {1} && generation == 1
    {
      config, loading, error := None, true, false;
      generation, pending, mounted := 1, {1}, true;
      applied := [];
    }

    method Refresh()
      requires Valid()
      modifies this`generation, this`loading, this`pending
      ensures Valid() && loading && generation == old(generation) + 1 && pending == old(pending) + {generation}
    {
      Started(pending, applied, generation);
      generation := generation + 1;
      loading := true;
      pending := pending + {generation};
    }

    method OnResolve(load: nat, next: C)
      requires Valid() && load in pending
      modifies this`pending, this`config, this`error, this`loading, this`applied
      ensures Valid() && pending == old(pending) - {load} && (old(config).Some? ==> config.Some?)
      ensures if load == generation then config == Some(next) && !error && !loading && applied == old(applied) + [load]
              else config == old(config) && error == old(error) && loading == old(loading) && applied == old(applied)
    {
      Answered(pending, applied, generation, load);
      hide InOrder;
      pending := pending - {load};
      if load != generation { return; }
      config := Some(next);
      error := false;
      loading := false;
      applied := applied + [load];
    }

    /** A failed load keeps the last configuration. */
    method OnReject(load: nat)
      requires Valid() && load in pending
      modifies this`pending, this`error, this`loading, this`applied
      ensures Valid() && pending == old(pending) - {load}
      ensures if load == generation then error && !loading && applied == old(applied) + [load]
              else error == old(error) && loading == old(loading) && applied == old(applied)
    {
      Answered(pending, applied, generation, load);
      hide InOrder;
      pending := pending - {load};
      if load != generation { return; }
      error := true;
      loading := false;
      applied := applied + [load];
    }

    /** Leaving invalidates whatever is out. */
    method OnUnmount()
      requires Valid()
      modifies this`generation, this`mounted
      ensures Valid() && !mounted && generation !in pending
    {
      Started(pending, applied, generation);
      generation := generation + 1;
      mounted := false;
    }

    predicate Enabled(e: ConfigEvent<C>)
      reads this
    {
      match e
      case Resolve(load, _) => load in pending
      case Reject(load) => load in pending
      case _ => true
    }

    /** Every interleaving: loads are applied in order, the configuration once there stays, and `loading` is exact. */
    method Run(events: seq<ConfigEvent<C>>)
      requires Valid()
      modifies this
      ensures Valid() && Increasing(applied) && (old(config).Some? ==> config.Some?) && old(applied) <= applied
      ensures mounted ==> (loading <==> generation in pending)
    {
      for i := 0 to |events|
        invariant Valid() && (old(config).Some? ==> config.Some?) && old(applied) <= applied
      {
        if Enabled(events[i]) {
          match events[i] {
            case Reread => Refresh();
            case Resolve(load, next) => OnResolve(load, next);
            case Reject(load) => OnReject(load);
            case Leave => OnUnmount();
          }
        }
      }
    }

    /** After leaving, unless it is asked to re-read, no late answer changes anything. */
    method RunAfterLeaving(events: seq<ConfigEvent<C>>)
      requires Valid() && !mounted && generation !in pending && forall i :: 0 <= i < |events| ==> !events[i].Reread?
      modifies this
      ensures Valid() && config == old(config) && loading == old(loading) && error == old(error)
    {
      for i := 0 to |events|
        invariant Valid() && !mounted && generation !in pending
        invariant config == old(config) && loading == old(loading) && error == old(error)
      {
        if Enabled(events[i]) {
          match events[i] {
            case Reread => assert false;
            case Resolve(load, next) => OnResolve(load, next);
            case Reject(load) => OnReject(load);
            case Leave => OnUnmount();
          }
        }
      }
    }
  }
}
