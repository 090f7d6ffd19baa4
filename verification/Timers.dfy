/** Sleep and process timer tracking (`src/kernel/timer.rs`) and its drain loop. */
module Timers {
  import opened Prelude
  import opened Tables

  const U128_MAX: nat := 0xffff_ffff_ffff_ffff_ffff_ffff_ffff_ffff

  datatype SleepEntry = SleepEntry(process: ProcessId, thread: Option<ThreadId>, deadline: nat)

  datatype ProcessTimer = ProcessTimer(owner: ProcessId, id: nat, armed: bool, deadline: nat, interval: nat)

  datatype ExpiredSleep = ExpiredSleep(process: ProcessId, thread: Option<ThreadId>)

  datatype ExpiredTimer = ExpiredTimer(owner: ProcessId, id: nat)

  datatype TimerError = Full | InvalidTimer

  function SaturatingAdd(a: nat, b: nat): nat {
    if a + b > U128_MAX then U128_MAX else a + b
  }

  function SaturatingMul(a: nat, b: nat): nat {
    if a * b > U128_MAX then U128_MAX else a * b
  }

  // ---------------------------------------------------------------------
  // Expiry
  // ---------------------------------------------------------------------

  predicate Asleep(slot: Option<SleepEntry>, now: nat) {
    slot.Some? && slot.value.deadline <= now
  }

  predicate Due(slot: Option<ProcessTimer>, now: nat) {
    slot.Some? && slot.value.armed && slot.value.deadline <= now
  }

  /** What an expired timer becomes. */
  function Rearmed(t: ProcessTimer, now: nat): ProcessTimer
    requires t.deadline <= now
  {
    if t.interval > 0 then
      var missed := (now - t.deadline) / t.interval + 1;
      t.(deadline := SaturatingAdd(t.deadline, SaturatingMul(t.interval, missed)))
    else
      t.(armed := false, deadline := 0)
  }

  /** The deadline `k` intervals on. */
  function Period(t: ProcessTimer, k: nat): nat {
    t.deadline + t.interval * k
  }

  /** `d` is the least deadline a whole number of intervals on that exceeds `now`. */
  ghost predicate NextPeriod(t: ProcessTimer, now: nat, d: nat) {
    && now < d
    && (exists k: nat :: d == Period(t, k))
    && (forall k: nat :: now < Period(t, k) ==> d <= Period(t, k))
  }

  lemma PeriodsRise(t: ProcessTimer, j: nat, k: nat)
    requires j <= k
    ensures Period(t, j) <= Period(t, k)
  {
    MulMonotone(t.interval, j, k);
  }

  lemma PeriodAround(t: ProcessTimer, now: nat, q: nat)
    requires t.deadline <= now && t.interval > 0 && q == (now - t.deadline) / t.interval
    ensures Period(t, q) <= now < Period(t, q + 1)
  {
    var elapsed := now - t.deadline;
    assert t.interval * q <= elapsed < t.interval * q + t.interval;
    assert t.interval * (q + 1) == t.interval * q + t.interval;
  }

  lemma NextPeriodIs(t: ProcessTimer, now: nat, q: nat)
    requires Period(t, q) <= now < Period(t, q + 1)
    ensures NextPeriod(t, now, Period(t, q + 1))
  {
    hide Period;
    forall k: nat | now < Period(t, k)
      ensures Period(t, q + 1) <= Period(t, k)
    {
      if k <= q {
        PeriodsRise(t, k, q);
      } else {
        PeriodsRise(t, q + 1, k);
      }
    }
  }

  lemma NextPeriodUnique(t: ProcessTimer, now: nat, d: nat, e: nat)
    requires NextPeriod(t, now, d) && NextPeriod(t, now, e)
    ensures d == e
  {
    hide Period;
    var j: nat :| d == Period(t, j);
    var k: nat :| e == Period(t, k);
  }

  /** A periodic timer moves to its next period, capped at the end of time. */
  lemma PeriodicMovesOn(t: ProcessTimer, now: nat)
    requires t.deadline <= now <= U128_MAX && t.interval > 0
    ensures exists d: nat :: NextPeriod(t, now, d)
    ensures forall d: nat :: NextPeriod(t, now, d)
              ==> Rearmed(t, now) == t.(deadline := if d > U128_MAX then U128_MAX else d)
  {
    var q := (now - t.deadline) / t.interval;
    PeriodAround(t, now, q);
    var d := Period(t, q + 1);
    RearmedAt(t, now, q);
    NextPeriodIs(t, now, q);
    hide Period, NextPeriod, Rearmed;
    forall e: nat | NextPeriod(t, now, e)
      ensures e == d
    {
      NextPeriodUnique(t, now, d, e);
    }
  }

  /** Saturating both the product and the sum is saturating the deadline. */
  lemma RearmedAt(t: ProcessTimer, now: nat, q: nat)
    requires t.deadline <= now && t.interval > 0 && q == (now - t.deadline) / t.interval
    ensures Rearmed(t, now) == t.(deadline := if Period(t, q + 1) > U128_MAX then U128_MAX else Period(t, q + 1))
  {
    var step := t.interval * (q + 1);
    assert SaturatingMul(t.interval, q + 1) == if step > U128_MAX then U128_MAX else step;
  }

  lemma MulMonotone(a: nat, b: nat, c: nat)
    requires b <= c
    ensures a * b <= a * c
  {
  }

  /** Expiry silences a timer, except a periodic one at the very end of time. */
  lemma SilencedUnlessEndOfTime(t: ProcessTimer, now: nat)
    requires t.armed && t.deadline <= now <= U128_MAX
    ensures Due(Some(Rearmed(t, now)), now) <==> now == U128_MAX && t.interval > 0
  {
    if t.interval > 0 {
      PeriodicMovesOn(t, now);
      var d: nat :| NextPeriod(t, now, d);
      assert now < d;
      hide Period;
    }
  }

  /** The drain loop ends at `now`. */
  predicate Drainable(timers: seq<Option<ProcessTimer>>, now: nat) {
    now < U128_MAX || forall i :: 0 <= i < |timers| && Due(timers[i], now) ==> timers[i].value.interval == 0
  }

  function AsleepAt(now: nat): Option<SleepEntry> -> bool {
    slot => Asleep(slot, now)
  }

  function DueAt(now: nat): Option<ProcessTimer> -> bool {
    slot => Due(slot, now)
  }

  /** A slot after its timer has expired. */
  function RearmedSlot(now: nat): Option<ProcessTimer> -> Option<ProcessTimer> {
    slot => if Due(slot, now) then Some(Rearmed(slot.value, now)) else slot
  }

  function Report(slot: Option<ProcessTimer>): ExpiredTimer {
    if slot.Some? then ExpiredTimer(slot.value.owner, slot.value.id) else ExpiredTimer(0, 0)
  }

  function Awake(slot: Option<SleepEntry>): Option<SleepEntry> {
    None
  }

  function Sleeper(slot: Option<SleepEntry>): ExpiredSleep {
    if slot.Some? then ExpiredSleep(slot.value.process, slot.value.thread) else ExpiredSleep(0, None)
  }

  lemma ExpirySilences(timers: seq<Option<ProcessTimer>>, now: nat)
    requires now <= U128_MAX && Drainable(timers, now)
    ensures forall k :: 0 <= k < |timers| && DueAt(now)(timers[k]) ==> !DueAt(now)(RearmedSlot(now)(timers[k]))
  {
    forall k | 0 <= k < |timers| && Due(timers[k], now)
      ensures !Due(RearmedSlot(now)(timers[k]), now)
    {
      SilencedUnlessEndOfTime(timers[k].value, now);
    }
  }

  /** Otherwise some timer is due again after every expiry: the drain loop never ends. */
  lemma DrainNeverEnds(timers: seq<Option<ProcessTimer>>, now: nat)
    requires now <= U128_MAX && !Drainable(timers, now)
    ensures var i := First(timers, DueAt(now));
            i < |timers| && !Drainable(timers[i := RearmedSlot(now)(timers[i])], now)
  {
    var i := First(timers, DueAt(now));
    var j :| 0 <= j < |timers| && Due(timers[j], now) && timers[j].value.interval > 0;
    SilencedUnlessEndOfTime(timers[j].value, now);
    var after := timers[i := RearmedSlot(now)(timers[i])];
    assert Due(after[j], now) && after[j].value.interval > 0;
  }

  /** A timer of period one that is set to the largest time: expiring it leaves the table as it was. */
  lemma StuckTimer()
    ensures var timers := [Some(ProcessTimer(1, 1, true, U128_MAX, 1))];
            && IdsUnique(timers) && !Drainable(timers, U128_MAX)
            && First(timers, DueAt(U128_MAX)) == 0 && timers[0 := RearmedSlot(U128_MAX)(timers[0])] == timers
  {
    var timers := [Some(ProcessTimer(1, 1, true, U128_MAX, 1))];
    assert Due(timers[0], U128_MAX);
    FirstIs(timers, DueAt(U128_MAX), 0);
  }

  // ---------------------------------------------------------------------
  // Identifiers
  // ---------------------------------------------------------------------

  /** The id after `id`: 64-bit wrap-around that skips zero. */
  function NextId(id: nat): nat {
    if id + 1 >= TWO_64 then 1 else id + 1
  }

  predicate Holds(owner: ProcessId, id: nat, slot: Option<ProcessTimer>) {
    slot.Some? && slot.value.owner == owner && slot.value.id == id
  }

  function HeldBy(owner: ProcessId, id: nat): Option<ProcessTimer> -> bool {
    slot => Holds(owner, id, slot)
  }

  ghost predicate InUse(timers: seq<Option<ProcessTimer>>, owner: ProcessId, id: nat) {
    exists i :: 0 <= i < |timers| && Holds(owner, id, timers[i])
  }

  /** Each owner's ids are non-zero 64-bit numbers, all different. */
  ghost predicate IdsUnique(timers: seq<Option<ProcessTimer>>) {
    && (forall i :: 0 <= i < |timers| && timers[i].Some? ==> 1 <= timers[i].value.id < TWO_64)
    && (forall i, j :: 0 <= i < j < |timers| && timers[i].Some? && timers[j].Some?
                       && timers[i].value.owner == timers[j].value.owner
          ==> timers[i].value.id != timers[j].value.id)
  }

  /** The `n`-th candidate from `start` in the cycle of non-zero ids. */
  ghost function Candidate(start: nat, n: nat): (id: nat)
    requires 1 <= start < TWO_64
    ensures 1 <= id < TWO_64
  {
    (start - 1 + n) % (TWO_64 - 1) + 1
  }

  ghost function UsedIds(timers: seq<Option<ProcessTimer>>): set<nat> {
    set i | 0 <= i < |timers| && timers[i].Some? :: timers[i].value.id
  }

  lemma {:induction false} UsedIdsBounded(timers: seq<Option<ProcessTimer>>)
    ensures |UsedIds(timers)| <= |timers|
    decreases |timers|
  {
    if timers != [] {
      var front, last := timers[..|timers| - 1], timers[|timers| - 1];
      UsedIdsBounded(front);
      assert forall i :: 0 <= i < |front| ==> front[i] == timers[i];
      if last.None? {
        assert UsedIds(timers) == UsedIds(front);
      } else {
        assert UsedIds(timers) == UsedIds(front) + {last.value.id};
      }
    }
  }

  ghost function Probed(start: nat, n: nat): set<nat>
    requires 1 <= start < TWO_64
  {
    set k | 0 <= k < n :: Candidate(start, k)
  }

  lemma CandidatesDistinct(start: nat, m: nat, n: nat)
    requires 1 <= start < TWO_64 && m < n < TWO_64 - 1
    ensures Candidate(start, m) != Candidate(start, n)
  {
  }

  lemma CandidateFollows(start: nat, n: nat)
    requires 1 <= start < TWO_64 && n < TWO_64 - 1
    ensures NextId(Candidate(start, n)) == Candidate(start, n + 1)
    ensures Candidate(start, 0) == start
  {
  }

  lemma {:induction false} ProbedSize(start: nat, n: nat)
    requires 1 <= start < TWO_64 && n <= TWO_64 - 1
    ensures |Probed(start, n)| == n
    decreases n
  {
    if n > 0 {
      ProbedSize(start, n - 1);
      forall m | 0 <= m < n - 1
        ensures Candidate(start, m) != Candidate(start, n - 1)
      {
        CandidatesDistinct(start, m, n - 1);
      }
      assert Probed(start, n) == Probed(start, n - 1) + {Candidate(start, n - 1)};
    }
  }

  /** Probing finds only ids in use at most as often as there are timer slots. */
  lemma Pigeonhole(timers: seq<Option<ProcessTimer>>, owner: ProcessId, start: nat, n: nat)
    requires 1 <= start < TWO_64 && n <= TWO_64 - 1
    requires forall k :: 0 <= k < n ==> InUse(timers, owner, Candidate(start, k))
    ensures n <= |timers|
  {
    ProbedSize(start, n);
    UsedIdsBounded(timers);
    var probed, used := Probed(start, n), UsedIds(timers);
    forall id | id in probed
      ensures id in used
    {
      var k :| 0 <= k < n && id == Candidate(start, k);
      assert InUse(timers, owner, Candidate(start, k));
      var i :| 0 <= i < |timers| && Holds(owner, id, timers[i]);
      assert timers[i].value.id in used;
    }
    assert used == probed + (used - probed);
  }

  class TimerManager {
    var sleeps: seq<Option<SleepEntry>>
    var timers: seq<Option<ProcessTimer>>
    var nextTimerId: nat

    ghost predicate Valid()
      reads this
    {
      && |timers| < TWO_64 - 1
      && nextTimerId < TWO_64
      && IdsUnique(timers)
    }

    constructor (sleepCap: nat, timerCap: nat)
      requires timerCap < TWO_64 - 1
      ensures Valid()
      ensures |sleeps| == sleepCap && |timers| == timerCap && nextTimerId == 1
      ensures forall i :: 0 <= i < sleepCap ==> sleeps[i].None?
      ensures forall i :: 0 <= i < timerCap ==> timers[i].None?
    {
      sleeps := seq(sleepCap, i => None);
      timers := seq(timerCap, i => None);
      nextTimerId := 1;
    }

    /** Scan for the owner's timer. */
    method LocateTimer(owner: ProcessId, id: nat) returns (idx: nat)
      ensures idx == First(timers, HeldBy(owner, id))
    {
      idx := 0;
      while idx < |timers|
        invariant idx <= |timers|
        invariant forall k :: 0 <= k < idx ==> !Holds(owner, id, timers[k])
      {
        if timers[idx].Some? && timers[idx].value.owner == owner && timers[idx].value.id == id {
          return;
        }
        idx := idx + 1;
      }
    }

    /** The first unused id in the cycle; the fall-back on a full cycle is never reached. */
    method AllocateTimerId(owner: ProcessId) returns (id: nat, ghost probes: nat)
      requires Valid()
      modifies this`nextTimerId
      ensures Valid() && nextTimerId == NextId(id)
      ensures 1 <= id < TWO_64 && !InUse(timers, owner, id)
      ensures probes <= |timers|
      ensures var start := if old(nextTimerId) == 0 then 1 else old(nextTimerId);
              && id == Candidate(start, probes)
              && forall k :: 0 <= k < probes ==> InUse(timers, owner, Candidate(start, k))
    {
      hide Candidate, IdsUnique;
      var start := if nextTimerId == 0 then 1 else nextTimerId;
      CandidateFollows(start, 0);
      var candidate := start;
      probes := 0;
      while true
        invariant unchanged(this)
        invariant probes < TWO_64 - 1 && candidate == Candidate(start, probes)
        invariant forall k :: 0 <= k < probes ==> InUse(timers, owner, Candidate(start, k))
        decreases TWO_64 - probes
      {
        Pigeonhole(timers, owner, start, probes);
        var idx := LocateTimer(owner, candidate);
        if idx == |timers| {
          nextTimerId := NextId(candidate);
          return candidate, probes;
        }
        assert Holds(owner, candidate, timers[idx]);
        CandidateFollows(start, probes);
        candidate := NextId(candidate);
        probes := probes + 1;
        Pigeonhole(timers, owner, start, probes);
        if candidate == start {
          CandidatesDistinct(start, 0, probes);
          assert false;
        }
      }
    }

    method CreateTimer(owner: ProcessId) returns (r: Result<nat, TimerError>)
      requires Valid()
      modifies this`nextTimerId, this`timers
      ensures |timers| == |old(timers)|
      ensures Valid()
      ensures var free := First(old(timers), (slot: Option<ProcessTimer>) => slot.None?);
              if free == |timers| then
                r == Err(Full) && timers == old(timers) && nextTimerId == old(nextTimerId)
              else
                && r.Ok? && !InUse(old(timers), owner, r.value) && nextTimerId == NextId(r.value)
                && timers == old(timers)[free := Some(ProcessTimer(owner, r.value, false, 0, 0))]
    {
      var idx := 0;
      while idx < |timers|
        invariant idx <= |timers| && unchanged(this)
        invariant forall k :: 0 <= k < idx ==> timers[k].Some?
      {
        if timers[idx].None? {
          var id, probes := AllocateTimerId(owner);
          timers := timers[idx := Some(ProcessTimer(owner, id, false, 0, 0))];
          return Ok(id);
        }
        idx := idx + 1;
      }
      r := Err(Full);
    }

    method SetTimer(owner: ProcessId, id: nat, deadline: Option<nat>, interval: nat)
      returns (r: Result<ProcessTimer, TimerError>)
      requires Valid()
      modifies this`timers
      ensures |timers| == |old(timers)|
      ensures Valid()
      ensures var idx := First(old(timers), HeldBy(owner, id));
              if idx == |timers| then r == Err(InvalidTimer) && timers == old(timers)
              else
                && r == Ok(old(timers)[idx].value)
                && timers == old(timers)[idx := Some(ProcessTimer(
                     owner, id, deadline.Some?, if deadline.Some? then deadline.value else 0, interval))]
    {
      var idx := LocateTimer(owner, id);
      if idx == |timers| {
        return Err(InvalidTimer);
      }
      var previous := timers[idx].value;
      var timer := previous.(interval := interval);
      if deadline.Some? {
        timer := timer.(armed := true, deadline := deadline.value);
      } else {
        timer := timer.(armed := false, deadline := 0);
      }
      timers := timers[idx := Some(timer)];
      r := Ok(previous);
    }

    method DeleteTimer(owner: ProcessId, id: nat) returns (r: Result<(), TimerError>)
      requires Valid()
      modifies this`timers
      ensures |timers| == |old(timers)|
      ensures Valid()
      ensures r.Ok? <==> InUse(old(timers), owner, id)
      ensures !InUse(timers, owner, id)
      ensures forall i :: 0 <= i < |timers| ==>
                timers[i] == if Holds(owner, id, old(timers)[i]) then None else old(timers)[i]
    {
      var idx := LocateTimer(owner, id);
      if idx == |timers| {
        return Err(InvalidTimer);
      }
      assert Holds(owner, id, timers[idx]);
      timers := timers[idx := None];
      r := Ok(());
    }

    method ReleaseProcess(owner: ProcessId)
      requires Valid()
      modifies this`sleeps, this`timers
      ensures |sleeps| == |old(sleeps)| && |timers| == |old(timers)|
      ensures Valid()
      ensures forall i :: 0 <= i < |sleeps| ==>
                sleeps[i] == if old(sleeps)[i].Some? && old(sleeps)[i].value.process == owner then None
                  else old(sleeps)[i]
      ensures forall i :: 0 <= i < |timers| ==>
                timers[i] == if old(timers)[i].Some? && old(timers)[i].value.owner == owner then None
                  else old(timers)[i]
    {
      var idx := 0;
      while idx < |sleeps|
        invariant idx <= |sleeps| == |old(sleeps)| && unchanged(this`timers)
        invariant forall i :: 0 <= i < |sleeps| ==>
                    sleeps[i] == if i < idx && old(sleeps)[i].Some? && old(sleeps)[i].value.process == owner
                                 then None else old(sleeps)[i]
      {
        if sleeps[idx].Some? && sleeps[idx].value.process == owner {
          sleeps := sleeps[idx := None];
        }
        idx := idx + 1;
      }
      idx := 0;
      while idx < |timers|
        invariant idx <= |timers| == |old(timers)| && |sleeps| == |old(sleeps)|
        invariant forall i :: 0 <= i < |timers| ==>
                    timers[i] == if i < idx && old(timers)[i].Some? && old(timers)[i].value.owner == owner
                                 then None else old(timers)[i]
        invariant forall i :: 0 <= i < |sleeps| ==>
                    sleeps[i] == if old(sleeps)[i].Some? && old(sleeps)[i].value.process == owner
                                 then None else old(sleeps)[i]
      {
        if timers[idx].Some? && timers[idx].value.owner == owner {
          timers := timers[idx := None];
        }
        idx := idx + 1;
      }
    }

    method AddSleep(process: ProcessId, thread: Option<ThreadId>, deadline: nat) returns (r: Result<(), TimerError>)
      modifies this`sleeps
      ensures |sleeps| == |old(sleeps)|
      ensures var free := First(old(sleeps), (slot: Option<SleepEntry>) => slot.None?);
              if free == |sleeps| then r == Err(Full) && sleeps == old(sleeps)
              else r == Ok(()) && sleeps == old(sleeps)[free := Some(SleepEntry(process, thread, deadline))]
    {
      var idx := 0;
      while idx < |sleeps|
        invariant idx <= |sleeps| && unchanged(this`sleeps)
        invariant forall k :: 0 <= k < idx ==> sleeps[k].Some?
      {
        if sleeps[idx].None? {
          sleeps := sleeps[idx := Some(SleepEntry(process, thread, deadline))];
          return Ok(());
        }
        idx := idx + 1;
      }
      r := Err(Full);
    }

    method ExpireSleep(now: nat) returns (r: Option<ExpiredSleep>)
      modifies this`sleeps
      ensures |sleeps| == |old(sleeps)|
      ensures var i := First(old(sleeps), AsleepAt(now));
              if i == |sleeps| then r == None && sleeps == old(sleeps)
              else
                var entry := old(sleeps)[i].value;
                r == Some(ExpiredSleep(entry.process, entry.thread)) && sleeps == old(sleeps)[i := None]
    {
      var idx := 0;
      while idx < |sleeps|
        invariant idx <= |sleeps| && unchanged(this`sleeps)
        invariant forall k :: 0 <= k < idx ==> !Asleep(sleeps[k], now)
      {
        if sleeps[idx].Some? {
          var entry := sleeps[idx].value;
          if entry.deadline <= now {
            sleeps := sleeps[idx := None];
            return Some(ExpiredSleep(entry.process, entry.thread));
          }
        }
        idx := idx + 1;
      }
      r := None;
    }

    method ExpireTimer(now: nat) returns (r: Option<ExpiredTimer>)
      requires Valid()
      modifies this`timers
      ensures |timers| == |old(timers)|
      ensures Valid()
      ensures var i := First(old(timers), DueAt(now));
              if i == |timers| then r == None && timers == old(timers)
              else
                var t := old(timers)[i].value;
                && r == Some(ExpiredTimer(t.owner, t.id))
                && timers == old(timers)[i := Some(Rearmed(t, now))]
    {
      var idx := 0;
      while idx < |timers|
        invariant idx <= |timers| && unchanged(this`timers)
        invariant forall k :: 0 <= k < idx ==> !Due(timers[k], now)
      {
        if timers[idx].Some? {
          var timer := timers[idx].value;
          if timer.armed && timer.deadline <= now {
            if timer.interval > 0 {
              var elapsed := now - timer.deadline;
              var missed := elapsed / timer.interval + 1;
              timer := timer.(deadline := SaturatingAdd(timer.deadline, SaturatingMul(timer.interval, missed)));
              timers := timers[idx := Some(timer)];
            } else {
              timer := timer.(armed := false, deadline := 0);
              timers := timers[idx := Some(timer)];
            }
            return Some(ExpiredTimer(timer.owner, timer.id));
          }
        }
        idx := idx + 1;
      }
      r := None;
    }

    /**
     The drain loops of `wake_expired_timeouts`: every due sleep and timer is
     reported once, in slot order, and no slot is left due.
     */
    method WakeExpiredTimeouts(now: nat) returns (woken: seq<ExpiredSleep>, expired: seq<ExpiredTimer>)
      requires Valid() && now <= U128_MAX && Drainable(timers, now)
      modifies this`sleeps, this`timers
      ensures |sleeps| == |old(sleeps)| && |timers| == |old(timers)|
      ensures Valid()
      ensures sleeps == Swept(old(sleeps), AsleepAt(now), Awake)
      ensures woken == Collect(old(sleeps), AsleepAt(now), Sleeper)
      ensures timers == Swept(old(timers), DueAt(now), RearmedSlot(now))
      ensures expired == Collect(old(timers), DueAt(now), Report)
      ensures forall i :: 0 <= i < |sleeps| ==> !Asleep(sleeps[i], now)
      ensures forall i :: 0 <= i < |timers| ==> !Due(timers[i], now)
    {
      ExpirySilences(timers, now);
      woken := DrainSleeps(now);
      expired := DrainTimers(now);
    }

    method DrainSleeps(now: nat) returns (woken: seq<ExpiredSleep>)
      modifies this`sleeps
      ensures |sleeps| == |old(sleeps)|
      ensures sleeps == Swept(old(sleeps), AsleepAt(now), Awake)
      ensures woken == Collect(old(sleeps), AsleepAt(now), Sleeper)
    {
      hide First, Swept, SweptTo, Collect;
      ghost var before := sleeps;
      ghost var f := 0;
      woken := [];
      while true
        invariant f <= |sleeps| == |before|
        invariant sleeps == SweptTo(before, AsleepAt(now), Awake, f)
        invariant woken == Collect(before[..f], AsleepAt(now), Sleeper)
        decreases |sleeps| - f
      {
        ghost var current := sleeps;
        ghost var i := First(current, AsleepAt(now));
        SweepStep(before, AsleepAt(now), Awake, f, current, i);
        CollectStep(before, AsleepAt(now), Sleeper, f, i);
        var r := ExpireSleep(now);
        if r.None? {
          break;
        }
        assert sleeps == current[i := Awake(before[i])];
        woken := woken + [r.value];
        f := i + 1;
      }
    }

    method DrainTimers(now: nat) returns (expired: seq<ExpiredTimer>)
      requires Valid() && now <= U128_MAX && Drainable(timers, now)
      modifies this`timers
      ensures |timers| == |old(timers)|
      ensures Valid()
      ensures timers == Swept(old(timers), DueAt(now), RearmedSlot(now))
      ensures expired == Collect(old(timers), DueAt(now), Report)
    {
      hide First, Swept, SweptTo, Collect;
      ghost var before := timers;
      ghost var f := 0;
      expired := [];
      ExpirySilences(before, now);
      while true
        invariant Valid() && f <= |timers| == |before|
        invariant timers == SweptTo(before, DueAt(now), RearmedSlot(now), f)
        invariant expired == Collect(before[..f], DueAt(now), Report)
        decreases |timers| - f
      {
        ghost var current := timers;
        ghost var i := First(current, DueAt(now));
        SweepStep(before, DueAt(now), RearmedSlot(now), f, current, i);
        CollectStep(before, DueAt(now), Report, f, i);
        var r := ExpireTimer(now);
        if r.None? {
          break;
        }
        assert timers == current[i := RearmedSlot(now)(before[i])];
        expired := expired + [r.value];
        f := i + 1;
      }
    }
  }
}
