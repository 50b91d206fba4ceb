/** The timers of a worker thread's instances, with the least expiration time cached
    so that most checks need not look at them. */
module Timers {
  import opened Sequences

  const MAX_LENGTH := 200_000_000
  const NEVER := 0xFFFFFFF

  datatype Timer = Timer(waiting: bool, length: nat, start: nat, expiry: nat, lastTimeout: nat, extra: nat)

  /** Would `check_time_out` report this timer? */
  predicate Expired(t: Timer, crashView: nat, view: nat, now: nat) {
    view > crashView && t.waiting && now > t.expiry
  }

  /** The timer after it was reported: it grows linearly on consecutive timeouts, and by its
      own length on the first one. */
  function TimedOut(t: Timer, view: nat): Timer
    requires view > 0
  {
    var extra := if t.lastTimeout < view - 1 then t.length else t.extra;
    t.(waiting := false, extra := extra, lastTimeout := view,
       length := if t.length + extra > MAX_LENGTH then MAX_LENGTH else t.length + extra)
  }

  function Started(t: Timer, now: nat): Timer {
    t.(waiting := true, start := now, expiry := now + t.length)
  }

  /** A wait that was much too long halves the timer. */
  function Ended(t: Timer, now: nat): Timer
    requires t.waiting ==> t.start <= now
  {
    t.(waiting := false,
       length := if t.waiting && now - t.start < t.length / 8 then t.length / 2 else t.length)
  }

  /** The cached time is no later than the expiration of any waiting timer. */
  ghost predicate Early(timers: map<nat, Timer>, minExp: nat) {
    forall i :: i in timers && timers[i].waiting ==> minExp <= timers[i].expiry
  }

  class TimerManager {
    /** The instances of this thread, ascending. */
    const ids: seq<nat>
    const crashView: nat
    var timers: map<nat, Timer>
    var minId: nat
    var minExp: nat

    ghost predicate Valid()
      reads this
    {
      && (forall i :: i in timers <==> i in ids)
      && Early(timers, minExp)
    }

    constructor (ids: seq<nat>, crashView: nat, length: nat)
      ensures Valid() && this.ids == ids && this.crashView == crashView
      ensures timers == map i | i in ids :: Timer(false, length, 0, 0, 0, 0)
    {
      this.ids, this.crashView := ids, crashView;
      timers := map i | i in ids :: Timer(false, length, 0, 0, 0, 0);
      minId, minExp := 0, 0x3FFFFFFF;
    }

    /** The recomputation loop: the least of `minExp` and all waiting timers. */
    method Recompute()
      requires forall i :: i in timers <==> i in ids
      modifies this`minId, this`minExp
      ensures Valid() && minExp <= old(minExp)
      ensures minExp == old(minExp) || (minId in timers && timers[minId].waiting && minExp == timers[minId].expiry)
    {
      for k := 0 to |ids|
        invariant minExp <= old(minExp)
        invariant minExp == old(minExp) || (minId in timers && timers[minId].waiting && minExp == timers[minId].expiry)
        invariant forall j :: 0 <= j < k && timers[ids[j]].waiting ==> minExp <= timers[ids[j]].expiry
      {
        assert ids[k] in timers;
        if timers[ids[k]].waiting && timers[ids[k]].expiry < minExp {
          minId := ids[k];
          minExp := timers[ids[k]].expiry;
        }
      }
      forall i | i in timers && timers[i].waiting ensures minExp <= timers[i].expiry {
        var j :| 0 <= j < |ids| && ids[j] == i;
      }
    }

    /** `setTimer`. */
    method SetTimer(id: nat, now: nat, warm: bool)
      requires Valid() && id in timers
      modifies this
      ensures Valid()
      ensures timers == if warm then old(timers)[id := Started(old(timers)[id], now)] else old(timers)
    {
      if !warm {
        return;
      }
      var reorder := id == minId;
      timers := timers[id := Started(timers[id], now)];
      if reorder || timers[id].expiry < minExp {
        minId := id;
        minExp := timers[id].expiry;
        Recompute();
      }
    }

    /** `endTimer`. */
    method EndTimer(id: nat, now: nat, warm: bool)
      requires Valid() && id in timers && (timers[id].waiting ==> timers[id].start <= now)
      modifies this
      ensures Valid()
      ensures timers == if warm then old(timers)[id := Ended(old(timers)[id], now)] else old(timers)
    {
      if !warm {
        return;
      }
      var reorder := id == minId;
      timers := timers[id := Ended(timers[id], now)];
      if reorder {
        minId := id;
        minExp := NEVER;
        Recompute();
      }
    }

    /** Would a scan of all timers report instance `i`? Only instances whose leader is one
        of the suspects are looked at. */
    predicate Reports(views: map<nat, nat>, suspects: set<nat>, now: nat, i: nat)
      requires i in timers && i in views
      reads this
    {
      i in suspects && Expired(timers[i], crashView, views[i], now)
    }

    /** `check_timers`: with its early return it still reports exactly what the full scan
        would, the first expired timer or none. */
    method CheckTimers(views: map<nat, nat>, suspects: set<nat>, now: nat, warm: bool) returns (r: Option<nat>)
      requires Valid() && forall i :: i in ids ==> i in views
      modifies this`timers
      ensures Valid()
      ensures r.None? ==> timers == old(timers)
      ensures r.None? && warm ==> forall i :: i in timers ==> !Reports(views, suspects, now, i)
      ensures r.Some? ==>
        && warm && r.value in views && r.value in old(timers)
        && old(Reports(views, suspects, now, r.value)) && views[r.value] > 0
        && timers == old(timers)[r.value := TimedOut(old(timers)[r.value], views[r.value])]
      ensures r.Some? ==> exists k :: 0 <= k < |ids| && ids[k] == r.value && forall j :: 0 <= j < k ==>
        ids[j] in old(timers) && !old(Reports(views, suspects, now, ids[j]))
    {
      if !warm || now < minExp {
        return None;
      }
      for k := 0 to |ids|
        invariant timers == old(timers)
        invariant forall j :: 0 <= j < k ==> ids[j] in timers && !Reports(views, suspects, now, ids[j])
      {
        var i := ids[k];
        if i !in suspects {
          continue;
        }
        if Expired(timers[i], crashView, views[i], now) {
          timers := timers[i := TimedOut(timers[i], views[i])];
          return Some(i);
        }
      }
      forall i | i in timers ensures !Reports(views, suspects, now, i) {
        var j :| 0 <= j < |ids| && ids[j] == i;
      }
      return None;
    }
  }

  // ----- Whole histories -------------------------------------------------------

  /** Calls on the manager; a check sees the current views and the suspected leaders. */
  datatype Op =
    | Set(id: nat, now: nat, warm: bool)
    | End(id: nat, now: nat, warm: bool)
    | Check(views: map<nat, nat>, suspects: set<nat>, now: nat, warm: bool)

  /** A call, what it reported, and the lengths of the timers after it. */
  datatype Event = Event(op: Op, report: Option<nat>, lengths: map<nat, nat>)

  ghost predicate Recorded(ids: seq<nat>, past: seq<Event>) {
    forall k :: 0 <= k < |past| ==> RecordedOne(ids, past[k])
  }

  ghost predicate RecordedOne(ids: seq<nat>, e: Event) {
    && (forall i :: i in ids ==> i in e.lengths && (e.op.Check? ==> i in e.op.views))
    && (e.report.Some? ==> e.op.Check? && e.report.value in ids)
  }

  lemma RecordedBefore(ids: seq<nat>, past: seq<Event>, k: nat)
    requires Recorded(ids, past) && k <= |past|
    ensures Recorded(ids, past[..k])
  {
  }

  /** The length of the timer of `i`, which is `length` at the start. */
  ghost function LengthOf(ids: seq<nat>, length: nat, past: seq<Event>, i: nat): nat
    requires i in ids && Recorded(ids, past)
  {
    if past == [] then length else past[|past| - 1].lengths[i]
  }

  /** When the wait of `i` began that still lasts: its timer was set, and since then neither
      set again, nor ended, nor reported. */
  ghost function Since(past: seq<Event>, i: nat): Option<nat> {
    if past == [] then None
    else
      var e := past[|past| - 1];
      if e.op.Set? && e.op.id == i && e.op.warm then Some(e.op.now)
      else if (e.op.End? && e.op.id == i && e.op.warm) || e.report == Some(i) then None
      else Since(past[..|past| - 1], i)
  }

  /** The view of the last report of `i`, and by how much the timer grew: by its own length if
      the one before was not in the view before or in the same, and otherwise as last time. */
  ghost function LastGrowth(ids: seq<nat>, length: nat, past: seq<Event>, i: nat): (nat, nat)
    requires i in ids && Recorded(ids, past)
    decreases |past|, 0
  {
    if past == [] then (0, 0)
    else
      var n := |past| - 1;
      if past[n].report == Some(i) then (past[n].op.views[i], Growth(ids, length, past[..n], i, past[n].op.views[i]))
      else LastGrowth(ids, length, past[..n], i)
  }

  ghost function Growth(ids: seq<nat>, length: nat, past: seq<Event>, i: nat, view: nat): nat
    requires i in ids && Recorded(ids, past)
    decreases |past|, 1
  {
    var last := LastGrowth(ids, length, past, i);
    if last.0 + 1 < view then LengthOf(ids, length, past, i) else last.1
  }

  /** More than its current length has passed since instance `i` began to wait. */
  ghost predicate Due(ids: seq<nat>, crashView: nat, length: nat, past: seq<Event>, op: Op, i: nat)
    requires i in ids && Recorded(ids, past) && op.Check? && i in op.views
  {
    && op.warm && i in op.suspects && op.views[i] > crashView
    && Since(past, i).Some? && op.now > Since(past, i).value + LengthOf(ids, length, past, i)
  }

  ghost predicate FirstDue(ids: seq<nat>, crashView: nat, length: nat, past: seq<Event>, op: Op, k: nat)
    requires k < |ids| && Recorded(ids, past) && op.Check? && forall i :: i in ids ==> i in op.views
  {
    Due(ids, crashView, length, past, op, ids[k]) && forall j :: 0 <= j < k ==> !Due(ids, crashView, length, past, op, ids[j])
  }

  /** A check reports the first instance that is due, and nothing else reports any. */
  ghost predicate ReportRight(ids: seq<nat>, crashView: nat, length: nat, past: seq<Event>, e: Event)
    requires Recorded(ids, past) && RecordedOne(ids, e)
  {
    && (e.op.Check? && e.report.None? ==> forall i :: i in ids ==> !Due(ids, crashView, length, past, e.op, i))
    && (e.report.Some? ==> exists k :: 0 <= k < |ids| && ids[k] == e.report.value && FirstDue(ids, crashView, length, past, e.op, k))
  }

  /** The wait of `i` ended early, after less than an eighth of the length. */
  ghost predicate EndsEarly(ids: seq<nat>, length: nat, past: seq<Event>, op: Op, i: nat)
    requires i in ids && Recorded(ids, past)
  {
    && op.End? && op.id == i && op.warm
    && Since(past, i).Some? && op.now < Since(past, i).value + LengthOf(ids, length, past, i) / 8
  }

  /** Only a report and an early end change the length. */
  ghost predicate LengthRight(ids: seq<nat>, length: nat, past: seq<Event>, e: Event, i: nat)
    requires i in ids && Recorded(ids, past) && RecordedOne(ids, e)
  {
    var was := LengthOf(ids, length, past, i);
    e.lengths[i] ==
      if e.report == Some(i) then
        var sum := was + Growth(ids, length, past, i, e.op.views[i]);
        if sum > MAX_LENGTH then MAX_LENGTH else sum
      else if EndsEarly(ids, length, past, e.op, i) then was / 2
      else was
  }

  ghost predicate EventRight(ids: seq<nat>, crashView: nat, length: nat, past: seq<Event>, e: Event)
    requires Recorded(ids, past) && RecordedOne(ids, e)
  {
    ReportRight(ids, crashView, length, past, e) && forall i :: i in ids ==> LengthRight(ids, length, past, e, i)
  }

  /** Every event of the history follows from those before it. */
  ghost predicate AllRight(ids: seq<nat>, crashView: nat, length: nat, log: seq<Event>) {
    && Recorded(ids, log)
    && forall k :: 0 <= k < |log| ==> Recorded(ids, log[..k]) && EventRight(ids, crashView, length, log[..k], log[k])
  }

  /** The timer of `i` is what the history says. */
  ghost predicate Tells(ids: seq<nat>, length: nat, past: seq<Event>, i: nat, t: Timer)
    requires i in ids && Recorded(ids, past)
  {
    && t.length == LengthOf(ids, length, past, i)
    && (t.lastTimeout, t.extra) == LastGrowth(ids, length, past, i)
    && t.waiting == Since(past, i).Some?
    && (t.waiting ==> t.start == Since(past, i).value && t.expiry == t.start + t.length)
  }

  ghost predicate AllTell(ids: seq<nat>, length: nat, past: seq<Event>, timers: map<nat, Timer>) {
    Recorded(ids, past) && forall i :: i in ids ==> i in timers && Tells(ids, length, past, i, timers[i])
  }

  ghost function Lengths(timers: map<nat, Timer>): map<nat, nat> {
    map i | i in timers :: timers[i].length
  }

  /** What a call does to the timer of `i`. */
  function TimerAfter(op: Op, report: Option<nat>, i: nat, t: Timer): Timer
    requires op.Check? && report == Some(i) ==> i in op.views && op.views[i] > 0
    requires t.waiting ==> t.start <= op.now
  {
    match op
    case Set(id, now, warm) => if id == i && warm then Started(t, now) else t
    case End(id, now, warm) => if id == i && warm then Ended(t, now) else t
    case Check(views, _, _, _) => if report == Some(i) then TimedOut(t, views[i]) else t
  }

  lemma OneTimer(ids: seq<nat>, length: nat, past: seq<Event>, e: Event, i: nat, t: Timer)
    requires i in ids && Recorded(ids, past) && RecordedOne(ids, e) && Tells(ids, length, past, i, t)
    requires e.report == Some(i) ==> e.op.views[i] > 0
    requires t.waiting ==> t.start <= e.op.now
    requires var t' := TimerAfter(e.op, e.report, i, t); e.lengths[i] == t'.length
    ensures Recorded(ids, past + [e]) && LengthRight(ids, length, past, e, i)
    ensures Tells(ids, length, past + [e], i, TimerAfter(e.op, e.report, i, t))
  {
    assert (past + [e])[..|past|] == past;
  }

  lemma DueIffExpired(ids: seq<nat>, crashView: nat, length: nat, past: seq<Event>, op: Op, i: nat, t: Timer)
    requires i in ids && Recorded(ids, past) && Tells(ids, length, past, i, t) && op.Check? && i in op.views && op.warm
    ensures Due(ids, crashView, length, past, op, i) <==> i in op.suspects && Expired(t, crashView, op.views[i], op.now)
  {
  }

  /** The clock never runs backwards, and calls name known instances. */
  predicate Callable(ids: seq<nat>, ops: seq<Op>) {
    && (forall j, k :: 0 <= j < k < |ops| ==> ops[j].now <= ops[k].now)
    && (forall k, i :: 0 <= k < |ops| && ops[k].Check? && i in ids ==> i in ops[k].views)
    && (forall k :: 0 <= k < |ops| && !ops[k].Check? ==> ops[k].id in ids)
  }

  method Call(m: TimerManager, op: Op, ghost length: nat, ghost past: seq<Event>) returns (report: Option<nat>)
    requires m.Valid() && AllTell(m.ids, length, past, m.timers)
    requires op.Check? ==> forall i :: i in m.ids ==> i in op.views
    requires !op.Check? ==> op.id in m.ids
    requires forall i :: i in m.timers ==> m.timers[i].start <= op.now
    modifies m
    ensures m.Valid() && (report.Some? ==> op.Check? && report.value in m.ids && op.views[report.value] > 0)
    ensures forall i :: i in m.ids ==> i in m.timers && m.timers[i] == TimerAfter(op, report, i, old(m.timers)[i])
    ensures forall i :: i in m.timers ==> m.timers[i].start <= op.now
    ensures var e := Event(op, report, Lengths(m.timers)); RecordedOne(m.ids, e) && ReportRight(m.ids, m.crashView, length, past, e)
  {
    match op
    case Set(id, now, warm) =>
      m.SetTimer(id, now, warm);
      report := None;
    case End(id, now, warm) =>
      m.EndTimer(id, now, warm);
      report := None;
    case Check(views, suspects, now, warm) =>
      forall i | i in m.ids && warm ensures
        Due(m.ids, m.crashView, length, past, op, i) <==> i in suspects && Expired(m.timers[i], m.crashView, views[i], now)
      {
        DueIffExpired(m.ids, m.crashView, length, past, op, i, m.timers[i]);
      }
      report := m.CheckTimers(views, suspects, now, warm);
  }

  /** No wait begins later than the last call. */
  ghost predicate NoneAhead(log: seq<Event>, timers: map<nat, Timer>) {
    forall i :: i in timers ==> timers[i].start == 0 || (log != [] && timers[i].start <= log[|log| - 1].op.now)
  }

  /** The manager and the history of its calls so far. */
  ghost predicate Follows(m: TimerManager, length: nat, log: seq<Event>)
    reads m
  {
    && m.Valid() && AllRight(m.ids, m.crashView, length, log) && AllTell(m.ids, length, log, m.timers)
    && NoneAhead(log, m.timers)
  }

  lemma NextRight(ids: seq<nat>, crashView: nat, length: nat, log: seq<Event>, e: Event, was: map<nat, Timer>, timers: map<nat, Timer>)
    requires AllRight(ids, crashView, length, log) && AllTell(ids, length, log, was)
    requires RecordedOne(ids, e) && ReportRight(ids, crashView, length, log, e) && e.lengths == Lengths(timers)
    requires forall i :: i in was ==> was[i].start <= e.op.now
    requires e.report.Some? ==> e.op.views[e.report.value] > 0
    requires forall i :: i in ids ==> i in timers && timers[i] == TimerAfter(e.op, e.report, i, was[i])
    ensures AllRight(ids, crashView, length, log + [e]) && AllTell(ids, length, log + [e], timers)
  {
    forall i | i in ids
      ensures LengthRight(ids, length, log, e, i) && Recorded(ids, log + [e]) && Tells(ids, length, log + [e], i, timers[i])
    {
      OneTimer(ids, length, log, e, i, was[i]);
    }
    var more := log + [e];
    forall k | 0 <= k < |more|
      ensures Recorded(ids, more[..k]) && EventRight(ids, crashView, length, more[..k], more[k])
    {
      assert more[..k] == log[..k] && (k == |log| ==> log[..k] == log);
    }
  }

  /** One call on the manager. */
  method Perform(m: TimerManager, op: Op, ghost length: nat, ghost past: seq<Event>) returns (e: Event)
    requires Follows(m, length, past)
    requires op.Check? ==> forall i :: i in m.ids ==> i in op.views
    requires !op.Check? ==> op.id in m.ids
    requires past == [] || past[|past| - 1].op.now <= op.now
    modifies m
    ensures e.op == op && Follows(m, length, past + [e])
  {
    ghost var was := m.timers;
    BeginsBefore(past, was, op);
    var report := Call(m, op, length, past);
    e := Event(op, report, map i | i in m.timers :: m.timers[i].length);
    assert AllRight(m.ids, m.crashView, length, past + [e]) && AllTell(m.ids, length, past + [e], m.timers) by {
      NextRight(m.ids, m.crashView, length, past, e, was, m.timers);
    }
    NotAhead(past, e, m.timers);
  }

  lemma NotAhead(past: seq<Event>, e: Event, timers: map<nat, Timer>)
    requires forall i :: i in timers ==> timers[i].start <= e.op.now
    ensures NoneAhead(past + [e], timers)
  {
  }

  lemma BeginsBefore(past: seq<Event>, timers: map<nat, Timer>, op: Op)
    requires NoneAhead(past, timers) && (past == [] || past[|past| - 1].op.now <= op.now)
    ensures forall i :: i in timers ==> timers[i].start <= op.now
  {
  }

  /** Any history of calls: an instance is reported exactly if more than the length of its
      timer has passed since it was set, and it was neither ended nor reported in between; and
      the length changes as the reports and the early ends say. */
  method Serve(ids: seq<nat>, crashView: nat, length: nat, ops: seq<Op>) returns (log: seq<Event>)
    requires Callable(ids, ops)
    ensures |log| == |ops| && forall k :: 0 <= k < |ops| ==> log[k].op == ops[k]
    ensures AllRight(ids, crashView, length, log)
  {
    var m := new TimerManager(ids, crashView, length);
    log := [];
    while |log| < |ops|
      invariant fresh(m) && m.ids == ids && m.crashView == crashView && Follows(m, length, log)
      invariant |log| <= |ops| && forall k :: 0 <= k < |log| ==> log[k].op == ops[k]
    {
      var e := Perform(m, ops[|log|], length, log);
      log := log + [e];
    }
  }

  // ----- What that means for the lengths ---------------------------------------

  /** A report never leaves a timer longer than the maximum; so it makes a timer shorter exactly
      if it was longer than that, as it is at first with the shipped constants. */
  lemma ReportShortensIff(ids: seq<nat>, crashView: nat, length: nat, log: seq<Event>, k: nat, i: nat)
    requires AllRight(ids, crashView, length, log) && k < |log| && i in ids && log[k].report == Some(i)
    ensures log[k].lengths[i] <= MAX_LENGTH
    ensures log[k].lengths[i] < LengthOf(ids, length, log[..k], i) <==> LengthOf(ids, length, log[..k], i) > MAX_LENGTH
  {
    assert LengthRight(ids, length, log[..k], log[k], i);
  }

  /** Timers that start within the maximum stay there. */
  lemma {:induction false} NeverAboveMax(ids: seq<nat>, crashView: nat, length: nat, log: seq<Event>, k: nat, i: nat)
    requires AllRight(ids, crashView, length, log) && k <= |log| && i in ids && length <= MAX_LENGTH
    ensures LengthOf(ids, length, log[..k], i) <= MAX_LENGTH
  {
    if k > 0 {
      NeverAboveMax(ids, crashView, length, log, k - 1, i);
      assert EventRight(ids, crashView, length, log[..k - 1], log[k - 1]);
      assert log[..k][|log[..k]| - 1] == log[k - 1];
    }
  }
}
