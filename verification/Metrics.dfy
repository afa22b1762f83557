/**
The tracker behind the instance gauges: counters kept up to date one Workspace at a time,
and a high-water mark of the running ones.
*/
module Metrics {
  import opened Wrappers
  import opened Lifecycle

  datatype Key = Key(namespace: string, name: string)

  type Phases = map<Key, Phase>

  /** A series is labelled with the phase; Unset stands for the label "Unknown". A reset publishes
      these; Failed is not among them. */
  const PUBLISHED: seq<Phase> := [Pending, Starting, Running, Sleeping, Stopped, Unset]

  // ----- counting -----

  function With(m: Phases, p: Phase, keys: set<Key>): set<Key> {
    set k | k in keys && k in m && m[k] == p
  }

  /** How many of the tracked Workspaces have this label. */
  function Count(m: Phases, p: Phase): nat {
    |With(m, p, m.Keys)|
  }

  lemma CountMeans(m: Phases, p: Phase)
    ensures Count(m, p) == |set k | k in m && m[k] == p|
  {
    assert With(m, p, m.Keys) == set k | k in m && m[k] == p;
  }

  lemma CountAfterUnset(m: Phases, key: Key, p: Phase)
    requires key in m
    ensures Count(m - {key}, p) == Count(m, p) - (if m[key] == p then 1 else 0)
  {
    var n := m - {key};
    var rest := With(n, p, n.Keys);
    assert key !in rest;
    if m[key] == p {
      assert With(m, p, m.Keys) == rest + {key};
    } else {
      assert With(m, p, m.Keys) == rest;
    }
  }

  lemma CountAfterSet(m: Phases, key: Key, phase: Phase, p: Phase)
    ensures Count(m[key := phase], p) ==
            Count(m, p) - (if key in m && m[key] == p then 1 else 0) + (if phase == p then 1 else 0)
  {
    CountAfterUnset(m[key := phase], key, p);
    assert m[key := phase] - {key} == m - {key};
    if key in m {
      CountAfterUnset(m, key, p);
    } else {
      assert m - {key} == m;
    }
  }

  /** The labelled counts add up to the number of tracked Workspaces. */
  lemma {:induction false} CountsAddUp(m: Phases)
    ensures Count(m, Unset) + Count(m, Pending) + Count(m, Starting) + Count(m, Running)
            + Count(m, Sleeping) + Count(m, Stopped) + Count(m, Failed) == |m|
    decreases |m|
  {
    if m != map[] {
      var key :| key in m;
      CountsAddUp(m - {key});
      assert (m - {key}).Keys == m.Keys - {key};
      forall p: Phase { CountAfterUnset(m, key, p); }
    }
  }

  // ----- the labelled gauges -----

  type Gauges = map<Phase, int>

  function Value(active: Gauges, p: Phase): int {
    if p in active then active[p] else 0
  }

  /** How far a gauge is off its recount. */
  function Off(active: Gauges, m: Phases, p: Phase): int {
    Value(active, p) - Count(m, p)
  }

  function Bump(active: Gauges, p: Phase, delta: int): Gauges {
    active[p := Value(active, p) + delta]
  }

  function Moved(active: Gauges, m: Phases, key: Key, phase: Phase): Gauges {
    Bump(if key in m then Bump(active, m[key], -1) else active, phase, 1)
  }

  /** Moving one Workspace between two series leaves every gauge as right or wrong as it was. */
  lemma MovedKeepsOff(active: Gauges, m: Phases, key: Key, phase: Phase)
    ensures forall p: Phase :: Off(Moved(active, m, key, phase), m[key := phase], p) == Off(active, m, p)
  {
    forall p: Phase ensures Off(Moved(active, m, key, phase), m[key := phase], p) == Off(active, m, p) {
      CountAfterSet(m, key, phase, p);
    }
  }

  lemma RemovedKeepsOff(active: Gauges, m: Phases, key: Key)
    requires key in m
    ensures forall p: Phase :: Off(Bump(active, m[key], -1), m - {key}, p) == Off(active, m, p)
  {
    forall p: Phase ensures Off(Bump(active, m[key], -1), m - {key}, p) == Off(active, m, p) {
      CountAfterUnset(m, key, p);
    }
  }

  /** The gauges after a reset that found `m`. */
  function Republished(active: Gauges, m: Phases): Gauges {
    map p: Phase | p in active || p in PUBLISHED :: if p in PUBLISHED then Count(m, p) else Value(active, p)
  }

  datatype Call = Set(key: Key, phase: Phase) | Drop(key: Key) | Reset(listed: Phases)

  /** The tracked phases and the labelled gauges after a sequence of calls. */
  function Play(calls: seq<Call>): (Phases, Gauges) {
    if calls == [] then (map[], map[])
    else
      var (m, active) := Play(calls[..|calls| - 1]);
      match calls[|calls| - 1]
      case Set(key, phase) => (m[key := phase], Moved(active, m, key, phase))
      case Drop(key) => (m - {key}, if key in m then Bump(active, m[key], -1) else active)
      case Reset(listed) => (listed, Republished(active, listed))
  }

  predicate NeverFailed(calls: seq<Call>) {
    forall c <- calls :: (c.Set? ==> c.phase != Failed) && (c.Reset? ==> Failed !in c.listed.Values)
  }

  lemma NoFailed(m: Phases)
    requires Failed !in m.Values
    ensures Count(m, Failed) == 0
  {
    assert With(m, Failed, m.Keys) == {};
  }

  /** After any calls every labelled gauge is the recount of its label, except possibly Failed, and
      that one too when the phase does not occur. */
  lemma GaugesAreRecounts(calls: seq<Call>)
    ensures forall p: Phase :: p != Failed ==> Off(Play(calls).1, Play(calls).0, p) == 0
    ensures var (m, active) := Play(calls);
            forall p: Phase :: p != Failed ==> (if p in active then active[p] else 0) == |set k | k in m && m[k] == p|
    ensures NeverFailed(calls) ==> Value(Play(calls).1, Failed) == 0 == Count(Play(calls).0, Failed)
  {
    GaugesNotOff(calls);
    var (m, active) := Play(calls);
    forall p: Phase | p != Failed
      ensures (if p in active then active[p] else 0) == |set k | k in m && m[k] == p|
    {
      assert Off(active, m, p) == 0;
      CountMeans(m, p);
    }
  }

  lemma {:induction false} GaugesNotOff(calls: seq<Call>)
    ensures forall p: Phase :: p != Failed ==> Off(Play(calls).1, Play(calls).0, p) == 0
    ensures NeverFailed(calls) ==> Value(Play(calls).1, Failed) == 0 == Count(Play(calls).0, Failed)
  {
    if calls != [] {
      var before, last := calls[..|calls| - 1], calls[|calls| - 1];
      GaugesNotOff(before);
      var (m, active) := Play(before);
      assert NeverFailed(calls) ==> last in calls && NeverFailed(before);
      match last
      case Set(key, phase) =>
        MovedKeepsOff(active, m, key, phase);
        CountAfterSet(m, key, phase, Failed);
        assert Play(calls) == (m[key := phase], Moved(active, m, key, phase));
        forall p: Phase | p != Failed ensures Off(Play(calls).1, Play(calls).0, p) == 0 {
          assert Off(Moved(active, m, key, phase), m[key := phase], p) == Off(active, m, p);
        }
      case Drop(key) =>
        if key in m {
          RemovedKeepsOff(active, m, key);
          CountAfterUnset(m, key, Failed);
        } else {
          assert m - {key} == m;
        }
      case Reset(listed) =>
        PublishedAreAllButFailed();
        if NeverFailed(calls) {
          NoFailed(listed);
        }
    }
  }

  lemma PublishedAreAllButFailed()
    ensures forall p: Phase :: p in PUBLISHED <==> p != Failed
  {
    assert PUBLISHED[0] == Pending && PUBLISHED[1] == Starting && PUBLISHED[2] == Running;
    assert PUBLISHED[3] == Sleeping && PUBLISHED[4] == Stopped && PUBLISHED[5] == Unset;
  }

  /** Without that a gauge can go wrong: a failed Workspace that a listing no longer has stays counted. */
  lemma FailedGaugeGoesStale(key: Key)
    ensures var (m, active) := Play([Set(key, Failed), Reset(map[])]); Off(active, m, Failed) == 1
  {
    var calls := [Set(key, Failed), Reset(map[])];
    assert calls[..1] == [Set(key, Failed)] && calls[..1][..0] == [];
    assert Play([Set(key, Failed)]) == (map[key := Failed], Bump(map[], Failed, 1));
    PublishedAreAllButFailed();
    NoFailed(map[]);
  }

  // ----- high-water mark -----

  /** The number of running Workspaces after a call, and the clock at that call. */
  datatype Reading = Reading(running: nat, at: Time)

  function Peak(history: seq<Reading>): nat {
    if history == [] then 0
    else
      var before := Peak(history[..|history| - 1]);
      if history[|history| - 1].running > before then history[|history| - 1].running else before
  }

  /** When the number `n` was reached for the first time. */
  function FirstReached(history: seq<Reading>, n: nat): Option<Time> {
    if history == [] then None
    else if FirstReached(history[..|history| - 1], n).Some? then FirstReached(history[..|history| - 1], n)
    else if history[|history| - 1].running >= n then Some(history[|history| - 1].at)
    else None
  }

  lemma {:induction false} PeakIsMaximum(history: seq<Reading>)
    ensures forall r <- history :: r.running <= Peak(history)
    ensures Peak(history) > 0 ==> exists r <- history :: r.running == Peak(history)
  {
    if history != [] {
      var shorter, last := history[..|history| - 1], history[|history| - 1];
      PeakIsMaximum(shorter);
      assert history == shorter + [last];
      if Peak(history) > 0 && Peak(history) != last.running {
        var r :| r in shorter && r.running == Peak(shorter);
        assert r in history;
      } else {
        assert last in history;
      }
    }
  }

  lemma {:induction false} FirstReachedIsFirst(history: seq<Reading>, n: nat)
    ensures FirstReached(history, n).Some? ==>
              exists i :: 0 <= i < |history| && history[i].running >= n && history[i].at == FirstReached(history, n).value
                          && forall j :: 0 <= j < i ==> history[j].running < n
    ensures FirstReached(history, n).None? ==> forall r <- history :: r.running < n
  {
    if history != [] {
      var shorter, last := history[..|history| - 1], history[|history| - 1];
      FirstReachedIsFirst(shorter, n);
      assert history == shorter + [last];
      if FirstReached(shorter, n).Some? {
        var i :| 0 <= i < |shorter| && shorter[i].running >= n && shorter[i].at == FirstReached(shorter, n).value
                 && forall j :: 0 <= j < i ==> shorter[j].running < n;
        assert history[i].running >= n && forall j :: 0 <= j < i ==> history[j] == shorter[j];
      } else {
        forall j | 0 <= j < |shorter| ensures history[j].running < n { assert shorter[j] in shorter; }
      }
    }
  }

  // ----- the tracker -----

  class Tracker {
    var phases: Phases
    var running: int
    var peakRunning: int
    var peakAt: Option<Time>
    // the exported gauges
    var active: Gauges
    var total: int
    var runningGauge: int
    var peakGauge: int
    var peakStamp: Option<Time>
    // one reading for every call so far
    ghost var history: seq<Reading>

    /** Every labelled gauge but Failed is the recount of its label, and the counters agree. */
    ghost predicate Counted()
      reads this
    {
      && running == Count(phases, Running) && total == |phases|
      && (forall p: Phase :: p != Failed ==> Off(active, phases, p) == 0)
    }

    /** The mark is the maximum over the history, with the clock at the first time it was reached. */
    ghost predicate Marked()
      reads this
    {
      && peakRunning == Peak(history) == peakGauge
      && (if peakRunning > 0 then peakAt == FirstReached(history, peakRunning) == peakStamp
          else peakAt.None? && peakStamp.None?)
    }

    ghost predicate Valid()
      reads this
    {
      Counted() && Marked() && runningGauge == running <= peakRunning
    }

    /** How far the gauge of Failed is off its recount. */
    ghost function Drift(): int
      reads this
    {
      Off(active, phases, Failed)
    }

    constructor ()
      ensures Valid() && Drift() == 0 && phases == map[] && history == []
    {
      phases, running, peakRunning, peakAt := map[], 0, 0, None;
      active, total, runningGauge, peakGauge, peakStamp := map[], 0, 0, 0, None;
      history := [];
    }

    /** Publishes the running count and folds it into the mark. */
    method PublishDerived(now: Time)
      requires Counted() && Marked()
      modifies this`runningGauge, this`peakRunning, this`peakAt, this`peakGauge, this`peakStamp, this`history
      ensures Valid() && history == old(history) + [Reading(running, now)]
    {
      runningGauge := running;
      ghost var before := history;
      history := history + [Reading(running, now)];
      assert history[..|history| - 1] == before;
      if running > peakRunning {
        FirstReachedIsFirst(before, running);
        PeakIsMaximum(before);
        peakRunning := running;
        peakAt := Some(now);
        peakGauge := peakRunning;
        peakStamp := peakAt;
      } else if peakRunning > 0 {
        PeakIsMaximum(before);
        FirstReachedIsFirst(before, peakRunning);
      }
    }

    /** A call that changes nothing: the reading is recorded for the history alone. */
    ghost method NoChange(now: Time)
      requires Valid()
      modifies this`history
      ensures Valid() && history == old(history) + [Reading(running, now)]
    {
      ghost var before := history;
      history := history + [Reading(running, now)];
      assert history[..|history| - 1] == before;
      if peakRunning > 0 {
        PeakIsMaximum(before);
        FirstReachedIsFirst(before, peakRunning);
      }
    }

    method SetPhase(key: Key, phase: Phase, now: Time)
      requires Valid()
      modifies this
      ensures Valid() && phases == old(phases)[key := phase] && Drift() == old(Drift())
      ensures history == old(history) + [Reading(running, now)]
    {
      if key in phases && phases[key] == phase {
        assert phases[key := phase] == phases;
        NoChange(now);
        return;
      }
      Move(key, phase);
      PublishDerived(now);
    }

    /** The counters when a phase that differs from the recorded one, if any, is recorded. */
    method Move(key: Key, phase: Phase)
      requires Counted() && (key in phases ==> phases[key] != phase)
      modifies this`phases, this`active, this`total, this`running
      ensures Counted() && phases == old(phases)[key := phase] && Drift() == old(Drift())
    {
      MovedKeepsOff(active, phases, key, phase);
      CountAfterSet(phases, key, phase, Running);
      ghost var moved := Moved(active, phases, key, phase);
      if key in phases {
        var previous := phases[key];
        active := Bump(active, previous, -1);
        if previous == Running {
          running := running - 1;
        }
      } else {
        total := total + 1;
      }
      phases := phases[key := phase];
      active := Bump(active, phase, 1);
      if phase == Running {
        running := running + 1;
      }
      assert active == moved;
      assert forall p: Phase :: Off(moved, phases, p) == Off(old(active), old(phases), p);
    }

    method UnsetPhase(key: Key, now: Time)
      requires Valid()
      modifies this
      ensures Valid() && phases == old(phases) - {key} && Drift() == old(Drift())
      ensures history == old(history) + [Reading(running, now)]
    {
      if key !in phases {
        assert phases - {key} == phases;
        NoChange(now);
        return;
      }
      RemovedKeepsOff(active, phases, key);
      CountAfterUnset(phases, key, Running);
      var previous := phases[key];
      phases := phases - {key};
      assert phases.Keys == old(phases).Keys - {key};
      total := total - 1;
      active := Bump(active, previous, -1);
      if previous == Running {
        running := running - 1;
      }
      PublishDerived(now);
    }

    /** Rebuilds every published series from a listing. The mark survives. The gauge of Failed is not
        touched, so all gauges are right afterwards exactly when it already showed the
        number of failed Workspaces in the listing. */
    method ResetAll(listed: Phases, now: Time)
      requires Valid()
      modifies this
      ensures Valid() && phases == listed && peakRunning >= old(peakRunning)
      ensures history == old(history) + [Reading(running, now)]
      ensures Drift() == 0 <==> Value(old(active), Failed) == Count(listed, Failed)
    {
      ghost var before := history;
      Relist(listed);
      PublishDerived(now);
      assert history[..|history| - 1] == before;
    }

    method Relist(listed: Phases)
      modifies this`phases, this`active, this`total, this`running
      ensures Counted() && phases == listed && Drift() == Value(old(active), Failed) - Count(listed, Failed)
    {
      phases := listed;
      var counts := CountLabels(listed);
      active := PublishCounts(active, counts);
      total := |listed|;
      running := if Running in counts then counts[Running] else 0;
    }
  }

  method PublishCounts(active: Gauges, counts: map<Phase, nat>) returns (published: Gauges)
    ensures forall p: Phase :: Value(published, p) ==
              if p == Failed then Value(active, p) else if p in counts then counts[p] else 0
  {
    published := active;
    var i := 0;
    while i < |PUBLISHED|
      invariant 0 <= i <= |PUBLISHED|
      invariant forall p: Phase :: Value(published, p) ==
                  if p in PUBLISHED[..i] then (if p in counts then counts[p] else 0) else Value(active, p)
    {
      var p := PUBLISHED[i];
      assert PUBLISHED[..i + 1] == PUBLISHED[..i] + [p];
      published := published[p := if p in counts then counts[p] else 0];
      i := i + 1;
    }
    assert PUBLISHED[..i] == PUBLISHED;
    PublishedAreAllButFailed();
  }

  method CountLabels(m: Phases) returns (counts: map<Phase, nat>)
    ensures forall l :: (if l in counts then counts[l] else 0) == Count(m, l)
  {
    counts := map[];
    var todo := m.Keys;
    while todo != {}
      invariant todo <= m.Keys
      invariant forall l :: (if l in counts then counts[l] else 0) == |With(m, l, m.Keys - todo)|
    {
      var k :| k in todo;
      var l := m[k];
      forall other ensures |With(m, other, m.Keys - (todo - {k}))| ==
                           |With(m, other, m.Keys - todo)| + if other == l then 1 else 0
      {
        if other == l {
          assert With(m, other, m.Keys - (todo - {k})) == With(m, other, m.Keys - todo) + {k};
        } else {
          assert With(m, other, m.Keys - (todo - {k})) == With(m, other, m.Keys - todo);
        }
      }
      counts := counts[l := (if l in counts then counts[l] else 0) + 1];
      todo := todo - {k};
    }
    assert m.Keys - todo == m.Keys;
  }
}
