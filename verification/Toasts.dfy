/** The toast stack: at most three notices, each non-sticky one with a pending timer. */
module Toasts {
  import opened Sequences

  const SUCCESS_DURATION_MS: int := 5000
  const INFO_DURATION_MS: int := 5000
  const ERROR_DURATION_MS: int := 0
  const MAX_TOASTS: nat := 3

  datatype Variant = Success | Error | Info

  /** `id` is the number in the toast's id. */
  datatype Toast = Toast(id: nat, variant: Variant, message: string, durationMs: int)

  function DefaultDuration(v: Variant): int {
    match v
    case Error => ERROR_DURATION_MS
    case Success => SUCCESS_DURATION_MS
    case Info => INFO_DURATION_MS
  }

  /** Without a duration of its own a toast goes away by itself after five seconds, unless it is an error. */
  lemma ErrorsStay(id: nat, v: Variant, message: string)
    ensures var t := Toast(id, v, message, DefaultDuration(v));
      (Expires(t) <==> v != Error) && (Expires(t) ==> t.durationMs == 5000)
  {}

  predicate Expires(t: Toast) { t.durationMs > 0 }

  ghost function TimersOf(toasts: seq<Toast>): set<nat> {
    set t | t in toasts && Expires(t) :: t.id
  }

  ghost predicate Rising(toasts: seq<Toast>) {
    forall i, j :: 0 <= i < j < |toasts| ==> toasts[i].id < toasts[j].id
  }

  ghost predicate Visible(toasts: seq<Toast>, id: nat) { exists i :: 0 <= i < |toasts| && toasts[i].id == id }

  function NotToast(id: nat): Toast -> bool { (t: Toast) => t.id != id }

  /** The newest three. */
  function Newest(toasts: seq<Toast>): seq<Toast> {
    if |toasts| <= MAX_TOASTS then toasts else toasts[|toasts| - MAX_TOASTS..]
  }

  datatype Event =
    | Show(message: string, variant: Option<Variant>, durationMs: Option<int>)
    | Dismiss(id: nat)
    | Fire(id: nat)
    | Clear

  ghost predicate StackOk(toasts: seq<Toast>, nextId: nat, timers: set<nat>) {
    && |toasts| <= MAX_TOASTS && Rising(toasts) && timers == TimersOf(toasts)
    && forall i :: 0 <= i < |toasts| ==> 1 <= toasts[i].id <= nextId
  }

  /** Of the toasts shown so far, each is visible, was taken away, or was followed by three newer ones. */
  ghost predicate Accounted(toasts: seq<Toast>, nextId: nat, taken: set<nat>) {
    && (forall id: nat :: 1 <= id <= nextId ==> Visible(toasts, id) || id in taken || id + 3 <= nextId)
    && (forall id :: id in taken ==> 1 <= id <= nextId && !Visible(toasts, id))
  }

  /** What leaves the stack when `id` is taken away: that toast, if it is visible. */
  ghost function Leaving(toasts: seq<Toast>, id: nat): set<nat> { if Visible(toasts, id) then {id} else {} }

  ghost function Ids(toasts: seq<Toast>): set<nat> { set t | t in toasts :: t.id }

  class ToastStack {
    var toasts: seq<Toast>
    var nextId: nat
    var timers: set<nat>
    /** The ids of the visible toasts that were dismissed, expired or cleared. */
    ghost var taken: set<nat>

    /**
     * At most three toasts with rising ids, a pending timer for exactly the visible toasts that expire, and every
     * toast ever shown is visible, was taken away, or was followed by three newer ones.
     */
    ghost predicate Valid()
      reads this
    {
      StackOk(toasts, nextId, timers) && Accounted(toasts, nextId, taken)
    }

    constructor ()
      ensures Valid() && toasts == [] && nextId == 0 && taken == {}
    {
      toasts, nextId, timers := [], 0, {};
      taken := {};
    }

    method ClearTimer(id: nat)
      modifies this`timers
      ensures timers == old(timers) - {id}
    {
      if id in timers {
        timers := timers - {id};
      }
    }

    /** At capacity the oldest goes, and its timer with it. */
    method Evict(all: seq<Toast>) returns (next: seq<Toast>)
      modifies this`timers
      ensures next == Newest(all)
      ensures timers == old(timers) - Ids(all[..|all| - |next|])
    {
      next := all;
      ghost var gone := 0;
      hide Ids;
      NoIds();
      while |next| > MAX_TOASTS
        invariant 0 <= gone <= |all| && next == all[gone..] && (gone > 0 ==> |next| >= MAX_TOASTS)
        invariant timers == old(timers) - Ids(all[..gone])
      {
        var evicted := next[0];
        OneMoreId(all, gone);
        next := next[1..];
        ClearTimer(evicted.id);
        gone := gone + 1;
      }
    }

    /** The new toast comes last under a new id. */
    method ShowToast(message: string, variant: Option<Variant>, durationMs: Option<int>) returns (id: nat)
      requires Valid()
      modifies this`toasts, this`nextId, this`timers
      ensures Valid() && id == nextId == old(nextId) + 1
      ensures
        var v := variant.Or(Info);
        toasts == Newest(old(toasts) + [Toast(id, v, message, durationMs.Or(DefaultDuration(v)))])
    {
      var v := variant.Or(Info);
      var duration := durationMs.Or(DefaultDuration(v));
      hide StackOk, Accounted, Newest, Ids, TimersOf, Visible;
      nextId := nextId + 1;
      id := nextId;
      var shown := Toast(id, v, message, duration);
      var next := Evict(toasts + [shown]);
      if duration > 0 {
        timers := timers + {id};
      }
      assert duration <= 0 ==> timers + {} == timers;
      ShowOk(toasts, shown, old(timers), taken);
      toasts := next;
    }

    /** The panel's button. */
    method DismissToast(id: nat)
      requires Valid()
      modifies this`toasts, this`timers, this`taken
      ensures Valid() && nextId == old(nextId) && toasts == Filter(NotToast(id), old(toasts))
      ensures taken == old(taken) + Leaving(old(toasts), id)
    {
      hide StackOk, Accounted, Filter, Leaving;
      RemoveOk(toasts, nextId, timers, taken, id);
      ClearTimer(id);
      taken := taken + Leaving(toasts, id);
      toasts := Filter(NotToast(id), toasts);
    }

    /** A pending timer runs out. */
    method FireTimer(id: nat)
      requires Valid() && id in timers
      modifies this`toasts, this`timers, this`taken
      ensures Valid() && nextId == old(nextId) && toasts == Filter(NotToast(id), old(toasts))
      ensures |toasts| == |old(toasts)| - 1 && taken == old(taken) + {id}
    {
      TimerIsVisible(toasts, id);
      assert Leaving(toasts, id) == {id};
      RemoveOk(toasts, nextId, timers, taken, id);
      hide StackOk, Accounted, Filter, Leaving;
      timers := timers - {id};
      toasts := Filter(NotToast(id), toasts);
      taken := taken + {id};
    }

    method ClearAll()
      requires Valid()
      modifies this`toasts, this`timers, this`taken
      ensures Valid() && nextId == old(nextId) && toasts == [] && timers == {}
      ensures taken == old(taken) + Ids(old(toasts))
    {
      taken := taken + Ids(toasts);
      timers := {};
      toasts := [];
    }

    /** No pending timer outlives the component. */
    method Unmount()
      requires Valid()
      modifies this`timers
      ensures timers == {}
    {
      timers := {};
    }

    method Run(events: seq<Event>)
      requires Valid()
      modifies this
      ensures Valid() && nextId >= old(nextId)
    {
      for i := 0 to |events|
        invariant Valid() && nextId >= old(nextId)
      {
        match events[i] {
          case Show(message, variant, duration) => var id := ShowToast(message, variant, duration);
          case Dismiss(id) => DismissToast(id);
          case Fire(id) => if id in timers { FireTimer(id); }
          case Clear => ClearAll();
        }
      }
    }
  }

  lemma NoIds()
    ensures Ids([]) == {}
  {}

  lemma OneMoreId(all: seq<Toast>, gone: nat)
    requires gone < |all|
    ensures Ids(all[..gone + 1]) == Ids(all[..gone]) + {all[gone].id}
    ensures all[gone..][1..] == all[gone + 1..]
  {
    assert all[..gone + 1] == all[..gone] + [all[gone]];
  }

  lemma TimersAfterShift(toasts: seq<Toast>, k: nat)
    requires Rising(toasts) && k <= |toasts|
    ensures TimersOf(toasts) - Ids(toasts[..k]) == TimersOf(toasts[k..])
  {
    var gone, rest := toasts[..k], toasts[k..];
    assert toasts == gone + rest;
    forall t, u | t in gone && u in rest ensures t.id != u.id {
      var i :| 0 <= i < |gone| && gone[i] == t;
      var j :| 0 <= j < |rest| && rest[j] == u;
      assert toasts[i].id < toasts[k + j].id;
    }
  }

  lemma StackParts(toasts: seq<Toast>, nextId: nat, timers: set<nat>)
    requires StackOk(toasts, nextId, timers)
    ensures |toasts| <= MAX_TOASTS && Rising(toasts) && timers == TimersOf(toasts)
    ensures forall i :: 0 <= i < |toasts| ==> 1 <= toasts[i].id <= nextId
  {}

  lemma AddTimer(init: seq<Toast>, last: Toast)
    ensures TimersOf(init + [last]) == TimersOf(init) + if Expires(last) then {last.id} else {}
  {}

  /** Showing one more toast keeps the stack in order, whichever timers stay. */
  lemma ShowOk(before: seq<Toast>, shown: Toast, timers: set<nat>, taken: set<nat>)
    requires shown.id >= 1 && StackOk(before, shown.id - 1, timers) && Accounted(before, shown.id - 1, taken)
    ensures
      var all := before + [shown];
      var next := Newest(all);
      && |next| <= |all| && Accounted(next, shown.id, taken)
      && StackOk(next, shown.id,
           timers - Ids(all[..|all| - |next|]) + if Expires(shown) then {shown.id} else {})
  {
    var all := before + [shown];
    var next := Newest(all);
    var k := |all| - |next|;
    hide *;
    StackParts(before, shown.id - 1, timers);
    NewestIs(before, shown);
    StillAccounted(before, all, next, taken, shown.id);
    TimersAfterShift(before, k);
    StackOf(before, shown, k);
  }

  lemma NewestIs(before: seq<Toast>, shown: Toast)
    requires |before| <= MAX_TOASTS
    ensures
      var all := before + [shown];
      var next := Newest(all);
      && all[..|before|] == before && all[|before|] == shown && 0 < |next| <= |all| && |next| <= MAX_TOASTS
      && all[..|all| - |next|] == before[..|all| - |next|] && next == before[|all| - |next|..] + [shown]
  {}

  lemma StackOf(before: seq<Toast>, shown: Toast, k: nat)
    requires shown.id >= 1 && Rising(before) && k <= |before| <= MAX_TOASTS + k - 1
    requires forall i :: 0 <= i < |before| ==> 1 <= before[i].id < shown.id
    ensures StackOk(before[k..] + [shown], shown.id,
      TimersOf(before[k..]) + if Expires(shown) then {shown.id} else {})
  {
    KeptRise(before, k, shown);
    AddTimer(before[k..], shown);
    hide TimersOf, Rising, Expires;
  }

  lemma KeptRise(before: seq<Toast>, k: nat, shown: Toast)
    requires Rising(before) && k <= |before| && forall i :: 0 <= i < |before| ==> before[i].id < shown.id
    ensures Rising(before[k..] + [shown]) && Rising(before + [shown])
  {}

  /** The one toast that is evicted was followed by three newer ones. */
  lemma StillAccounted(before: seq<Toast>, all: seq<Toast>, next: seq<Toast>, taken: set<nat>, id: nat)
    requires id >= 1 && |before| <= MAX_TOASTS && Rising(before)
    requires forall i :: 0 <= i < |before| ==> 1 <= before[i].id < id
    requires |all| == |before| + 1 && all[..|before|] == before && all[|before|].id == id && next == Newest(all)
    requires Accounted(before, id - 1, taken)
    ensures Accounted(next, id, taken)
  {
    assert Visible(next, id) by {
      assert next[|next| - 1].id == id;
    }
    hide Visible, Newest, Rising;
    forall k: nat | 1 <= k <= id ensures Visible(next, k) || k in taken || k + 3 <= id {
      if k < id && Visible(before, k) {
        StaysOrIsOld(before, all, next, id, k);
      }
    }
    forall k: nat {
      NewestWasThere(before, all, next, id, k);
    }
  }

  lemma NewestWasThere(before: seq<Toast>, all: seq<Toast>, next: seq<Toast>, id: nat, k: nat)
    requires |all| == |before| + 1 && all[..|before|] == before && all[|before|].id == id && next == Newest(all)
    ensures Visible(next, k) ==> k == id || Visible(before, k)
  {
    if i :| 0 <= i < |next| && next[i].id == k {
      var at := |all| - |next| + i;
      assert next[i] == all[at];
      if at < |before| {
        assert before[at] == all[at];
      }
    }
  }

  lemma StaysOrIsOld(before: seq<Toast>, all: seq<Toast>, next: seq<Toast>, id: nat, k: nat)
    requires |before| <= MAX_TOASTS && Rising(before) && forall i :: 0 <= i < |before| ==> before[i].id < id
    requires |all| == |before| + 1 && all[..|before|] == before && next == Newest(all) && Visible(before, k)
    ensures Visible(next, k) || k + 3 <= id
  {
    var i :| 0 <= i < |before| && before[i].id == k;
    var dropped := |all| - |next|;
    if i >= dropped {
      assert next[i - dropped] == all[i] == before[i];
    } else {
      assert before[0].id < before[1].id < before[2].id < id;
    }
  }

  lemma Others(toasts: seq<Toast>, k: nat)
    requires Rising(toasts) && k < |toasts|
    ensures forall t :: t in toasts[..k] || t in toasts[k + 1..] ==> t.id != toasts[k].id
  {}

  lemma Pieces(toasts: seq<Toast>, k: nat)
    requires k < |toasts|
    ensures toasts == toasts[..k] + ([toasts[k]] + toasts[k + 1..])
  {}

  lemma TakesAt(toasts: seq<Toast>, k: nat)
    requires Rising(toasts) && k < |toasts|
    ensures Filter(NotToast(toasts[k].id), toasts) == Without(toasts, k)
  {
    hide Filter, Rising;
    Others(toasts, k);
    Pieces(toasts, k);
    FilterMiddle(NotToast(toasts[k].id), toasts[..k], toasts[k], toasts[k + 1..]);
  }

  lemma FilterTakesOne(toasts: seq<Toast>, id: nat) returns (k: nat)
    requires Rising(toasts)
    ensures Visible(toasts, id) ==>
      k < |toasts| && toasts[k].id == id && Filter(NotToast(id), toasts) == Without(toasts, k)
    ensures !Visible(toasts, id) ==> Filter(NotToast(id), toasts) == toasts
  {
    k := 0;
    hide Filter, Without, Rising;
    if Visible(toasts, id) {
      k :| 0 <= k < |toasts| && toasts[k].id == id;
      TakesAt(toasts, k);
    } else {
      FilterAll(NotToast(id), toasts);
    }
  }

  lemma WithoutKeeps(toasts: seq<Toast>, k: nat, t: Toast)
    requires Rising(toasts) && k < |toasts|
    ensures t in Without(toasts, k) <==> t in toasts && t.id != toasts[k].id
  {
    var kept := Without(toasts, k);
    if t in toasts && t.id != toasts[k].id {
      var i :| 0 <= i < |toasts| && toasts[i] == t;
      assert kept[if i < k then i else i - 1] == t;
    }
    if t in kept {
      var i :| 0 <= i < |kept| && kept[i] == t;
      assert toasts[if i < k then i else i + 1] == t;
    }
  }

  lemma WithoutToast(toasts: seq<Toast>, k: nat)
    requires Rising(toasts) && k < |toasts|
    ensures Rising(Without(toasts, k)) && TimersOf(Without(toasts, k)) == TimersOf(toasts) - {toasts[k].id}
    ensures !Visible(Without(toasts, k), toasts[k].id)
    ensures forall id: nat :: id != toasts[k].id ==> (Visible(toasts, id) <==> Visible(Without(toasts, k), id))
  {
    var kept := Without(toasts, k);
    assert Rising(kept);
    hide Without, Rising;
    forall t ensures t in kept <==> t in toasts && t.id != toasts[k].id {
      WithoutKeeps(toasts, k, t);
    }
    forall id: nat ensures Visible(kept, id) <==> id != toasts[k].id && Visible(toasts, id) {
      if i :| 0 <= i < |toasts| && toasts[i].id == id {
        assert toasts[i] in toasts;
        assert id != toasts[k].id ==> toasts[i] in kept;
      }
      if i :| 0 <= i < |kept| && kept[i].id == id {
        assert kept[i] in kept;
      }
    }
  }

  /** Taking a toast away, if it is there, keeps the stack in order. */
  lemma RemoveOk(toasts: seq<Toast>, nextId: nat, timers: set<nat>, taken: set<nat>, id: nat)
    requires StackOk(toasts, nextId, timers) && Accounted(toasts, nextId, taken)
    ensures
      var kept := Filter(NotToast(id), toasts);
      && StackOk(kept, nextId, timers - {id}) && Accounted(kept, nextId, taken + Leaving(toasts, id))
      && (Visible(toasts, id) ==> |kept| == |toasts| - 1)
  {
    hide Filter, TimersOf, Visible, Accounted, Rising;
    var k := FilterTakesOne(toasts, id);
    if Visible(toasts, id) {
      WithoutToast(toasts, k);
      VisibleInRange(toasts, id, nextId);
      StillCounted(toasts, Without(toasts, k), nextId, taken, id);
      FewerToasts(toasts, k, nextId);
    } else {
      NoTimer(toasts, id);
      assert timers - {id} == timers && taken + Leaving(toasts, id) == taken;
    }
  }

  lemma FewerToasts(toasts: seq<Toast>, k: nat, nextId: nat)
    requires k < |toasts| && forall i :: 0 <= i < |toasts| ==> 1 <= toasts[i].id <= nextId
    ensures forall i :: 0 <= i < |Without(toasts, k)| ==> 1 <= Without(toasts, k)[i].id <= nextId
  {}

  lemma VisibleInRange(toasts: seq<Toast>, id: nat, nextId: nat)
    requires Visible(toasts, id) && forall i :: 0 <= i < |toasts| ==> 1 <= toasts[i].id <= nextId
    ensures 1 <= id <= nextId
  {}

  lemma StillCounted(toasts: seq<Toast>, kept: seq<Toast>, nextId: nat, taken: set<nat>, id: nat)
    requires Accounted(toasts, nextId, taken) && 1 <= id <= nextId && !Visible(kept, id)
    requires forall k: nat :: k != id ==> (Visible(toasts, k) <==> Visible(kept, k))
    ensures Accounted(kept, nextId, taken + {id})
  {
    hide Visible;
  }

  lemma NoTimer(toasts: seq<Toast>, id: nat)
    requires !Visible(toasts, id)
    ensures id !in TimersOf(toasts)
  {
    if id in TimersOf(toasts) {
      TimerIsVisible(toasts, id);
    }
  }

  lemma TimerIsVisible(toasts: seq<Toast>, id: nat)
    requires id in TimersOf(toasts)
    ensures Visible(toasts, id)
  {
    var t :| t in toasts && Expires(t) && t.id == id;
    var i :| 0 <= i < |toasts| && toasts[i] == t;
  }
}
