/**
lastActiveTime and startedAt over whole runs, and the invariants of the stored status.
*/
module Timestamps {
  import opened Wrappers
  import opened Lifecycle
  import opened Protocol
  import opened Convergence

  /** `None` lies before every time. */
  predicate Leq(a: Option<Time>, b: Option<Time>) {
    a.Some? ==> b.Some? && a.value <= b.value
  }

  ghost predicate Ascending(hist: seq<Workspace>) {
    forall i :: 0 < i < |hist| ==>
      Leq(hist[i - 1].status.lastActive, hist[i].status.lastActive) &&
      Leq(hist[i - 1].status.startedAt, hist[i].status.startedAt)
  }

  predicate Past(ws: Workspace, now: Time) {
    StoredTime(ws.status.lastActive) && NotAfter(ws.status.lastActive, now) && StoredTime(ws.status.startedAt)
  }

  ghost predicate AllPast(hist: seq<Workspace>, now: Time) {
    forall i :: 0 <= i < |hist| ==> Past(hist[i], now)
  }

  // ----- one write -----

  /** The clock readings a write carries are not in the future, and a wake-up read the clock
      after it had fetched the object. */
  predicate Timely(write: Write, ws: Workspace, now: Time) {
    match write
    case Touch(at) => at <= now && NotAfter(ws.status.lastActive, at)
    case InitStatus(at) => at <= now
    case Record(status) => NotAfter(status.lastActive, now)
    case _ => true
  }

  lemma WriteAscends(write: Write, ws: Workspace, now: Time)
    requires Past(ws, now) && Timely(write, ws, now)
    ensures Past(Apply(write, ws), now)
    ensures Leq(ws.status.lastActive, Apply(write, ws).status.lastActive)
    ensures Leq(ws.status.startedAt, Apply(write, ws).status.startedAt)
  {
    match write
    case Touch(at) =>
      if ws.status.lastActive.Some? {
        PersistMonotone(ws.status.lastActive.value, at);
      }
    case Record(status) =>
      if status.lastActive.Some? && ws.status.lastActive.Some? && status.lastActive.value > ws.status.lastActive.value {
        PersistMonotone(ws.status.lastActive.value, status.lastActive.value);
      }
      if status.startedAt.Some? && ws.status.startedAt.Some? && status.startedAt.value > ws.status.startedAt.value {
        PersistMonotone(ws.status.startedAt.value, status.startedAt.value);
      }
    case _ =>
  }

  // ----- the invariant -----

  predicate HasDecided(r: Rec) {
    r.Judged? || r.RecordGot?
  }

  ghost predicate Times(w: World)
    requires Versions(w)
  {
    && AllPast(w.ws.hist, w.clock) && Ascending(w.ws.hist)
    && (forall id <- w.calls ::
          w.calls[id].since <= w.clock && NotAfter(w.ws.hist[w.calls[id].base].status.lastActive, w.calls[id].since))
    && (HasDecided(w.rec) ==> NotAfter(w.memo.decided.lastActive, w.clock))
    && (BeforeDeploy(w.rec) || Queued(w.queue) ||
          (w.memo.wantAt <= w.clock && NotAfter(Read(w).status.lastActive, w.memo.wantAt)))
  }

  ghost predicate TimeInv(w: World) {
    Inv(w) && Times(w)
  }

  lemma CommitTime(w: World, base: nat, write: Write)
    requires Versions(w) && Times(w) && Accepted(w, base) && base < |w.ws.hist| && Versions(Commit(w, base, write))
    requires Timely(write, w.ws.hist[base], w.clock)
    ensures Times(Commit(w, base, write))
  {
    WriteAscends(write, w.ws.hist[base], w.clock);
    assert Read(Commit(w, base, write)) == Read(w);
  }

  lemma CallSendTime(w: World, id: nat, now: Time)
    requires Versions(w) && Times(w) && OutsideEnabled(w, CallSend(id, now)) && Versions(DoOutside(w, CallSend(id, now)))
    ensures Times(DoOutside(w, CallSend(id, now)))
  {
    var call := w.calls[id];
    var write := WriteOf(call.op, now);
    var rest := w.(calls := w.calls - {id});
    assert Times(rest);
    if Sends(write, w.ws.hist[call.base]) && Accepted(w, call.base) {
      CommitTime(rest, call.base, write);
    }
  }

  lemma OutsideTime(w: World, a: Outside)
    requires Versions(w) && Times(w) && OutsideEnabled(w, a) && Versions(DoOutside(w, a))
    ensures Times(DoOutside(w, a))
  {
    if a.CallSend? {
      CallSendTime(w, a.id, a.now);
    }
  }

  lemma InformTime(w: World, a: Inform)
    requires Versions(w) && Times(w) && InformEnabled(w, a) && Versions(DoInform(w, a))
    ensures Times(DoInform(w, a))
  {
  }

  lemma PrepareTime(w: World, a: Prepare)
    requires Versions(w) && Times(w) && PrepareEnabled(w, a) && Versions(DoPrepare(w, a))
    ensures Times(DoPrepare(w, a))
  {
    match a
    case InitSend(now) =>
      if NeedsInit(w.ws.hist[w.rec.base].status) && Accepted(w, w.rec.base) {
        CommitTime(w, w.rec.base, InitStatus(now));
      }
    case OaSend =>
      if Accepted(w, w.rec.base) {
        CommitTime(w, w.rec.base, SetOa(OaValue(Read(w))));
      }
    case _ =>
  }

  lemma JudgeTime(w: World, found: bool, pod: Option<Pod>, links: string)
    requires Versions(w) && Times(w) && w.rec.Deployed? && Versions(JudgeStatus(w, found, pod, links))
    ensures Times(JudgeStatus(w, found, pod, links))
  {
  }

  lemma ActTime(w: World, a: Act)
    requires Versions(w) && Times(w) && ActEnabled(w, a) && Versions(DoAct(w, a))
    ensures Times(DoAct(w, a))
  {
    match a
    case Judge(found, pod, links) => JudgeTime(w, found, pod, links);
    case RecordSend =>
      if Accepted(w, w.rec.base) {
        CommitTime(w, w.rec.base, Record(w.memo.decided));
      }
    case _ =>
  }

  lemma StepTime(w: World, a: Action)
    requires Versions(w) && Times(w) && Enabled(w, a) && Versions(Step(w, a))
    ensures Times(Step(w, a))
  {
    match a
    case Out(o) => OutsideTime(w, o);
    case Inf(i) => InformTime(w, i);
    case Pre(p) => PrepareTime(w, p);
    case Do(d) => ActTime(w, d);
  }

  lemma {:induction false} RunTime(run: seq<World>, acts: seq<Action>, n: nat)
    requires IsRun(run, acts) && n < |run|
    ensures TimeInv(run[n])
  {
    RunInv(run, acts, n);
    if n > 0 {
      RunTime(run, acts, n - 1);
      StepTime(run[n - 1], acts[n - 1]);
    }
  }

  // ----- what follows for whole runs -----

  lemma {:induction false} AscendingLeq(hist: seq<Workspace>, i: nat, j: nat)
    requires Ascending(hist) && i <= j < |hist|
    ensures Leq(hist[i].status.lastActive, hist[j].status.lastActive)
    ensures Leq(hist[i].status.startedAt, hist[j].status.startedAt)
    decreases j
  {
    if i < j {
      AscendingLeq(hist, i, j - 1);
      assert Leq(hist[j - 1].status.lastActive, hist[j].status.lastActive);
    }
  }

  /** Neither timestamp ever moves backwards or returns to nil, over any run: a reconcile that
      read an old value never undoes a later wake-up. */
  lemma TimestampsAscend(run: seq<World>, acts: seq<Action>, m: nat, n: nat)
    requires IsRun(run, acts) && m <= n < |run|
    ensures run[m].ws.hist != [] && run[n].ws.hist != []
    ensures Leq(Latest(run[m].ws).status.lastActive, Latest(run[n].ws).status.lastActive)
    ensures Leq(Latest(run[m].ws).status.startedAt, Latest(run[n].ws).status.startedAt)
  {
    RunTime(run, acts, m);
    RunTime(run, acts, n);
    RunExtends(run, acts, m, n);
    AscendingLeq(run[n].ws.hist, |run[m].ws.hist| - 1, |run[n].ws.hist| - 1);
  }

  /** No wake-up is lost: once everything has settled, the last reconcile wanted a replica for a Workspace that
      is not stopped unless its idle window, counted from the stored lastActiveTime, was over at that reconcile,
      which is not older than the wake-up; and the stored Deployment has what it wanted. */
  lemma NoLostWakeup(run: seq<World>, acts: seq<Action>, n: nat)
    requires IsRun(run, acts) && n < |run| && Quiescent(run[n]) && run[n].ws.hist != [] && run[n].ds.hist != []
    ensures run[n].memo.wantAt <= run[n].clock
    ensures NotAfter(Latest(run[n].ws).status.lastActive, run[n].memo.wantAt)
    ensures var ws := Latest(run[n].ws);
            run[n].memo.want.replicas == 0 <==>
            ws.spec.stopped ||
            (ws.spec.idle.Window? && ws.status.lastActive.Some? &&
             run[n].memo.wantAt > ws.status.lastActive.value + ws.spec.idle.ns)
    ensures TellsLives(run, acts, 0, n) ==> AsWanted(run[n])
  {
    RunTime(run, acts, n);
    SettledRead(run[n]);
    if TellsLives(run, acts, 0, n) {
      DeploymentConverges(run, acts, 0, n);
    }
  }

  // ----- startedAt is a maximum -----

  function Later(a: Option<Time>, b: Option<Time>): Option<Time> {
    if Leq(a, b) then b else a
  }

  /** The start time a write proposes, as it would be stored. */
  function Proposal(write: Write): Option<Time> {
    match write
    case Record(status) => PersistOption(status.startedAt)
    case Backfill(at) => Some(Persist(at))
    case _ => None
  }

  function Proposals(log: seq<Write>): seq<Option<Time>> {
    seq(|log|, i requires 0 <= i < |log| => Proposal(log[i]))
  }

  function LatestOf(first: Option<Time>, rest: seq<Option<Time>>): Option<Time> {
    if rest == [] then first else Later(LatestOf(first, rest[..|rest| - 1]), rest[|rest| - 1])
  }

  lemma WriteTakesLater(write: Write, ws: Workspace)
    requires StoredTime(ws.status.startedAt) && Sends(write, ws)
    ensures Apply(write, ws).status.startedAt == Later(ws.status.startedAt, Proposal(write))
  {
    if write.Record? && write.status.startedAt.Some? && ws.status.startedAt.Some? {
      if write.status.startedAt.value > ws.status.startedAt.value {
        PersistMonotone(ws.status.startedAt.value, write.status.startedAt.value);
      }
    }
  }

  lemma {:induction false} SerialTakesLatest(hist: seq<Workspace>, log: seq<Write>, now: Time, n: nat)
    requires Serial(hist, log) && AllPast(hist, now) && n <= |log|
    ensures hist[n].status.startedAt == LatestOf(hist[0].status.startedAt, Proposals(log[..n]))
  {
    if n > 0 {
      SerialTakesLatest(hist, log, now, n - 1);
      assert Proposals(log[..n])[..n - 1] == Proposals(log[..n - 1]);
      assert Past(hist[n - 1], now);
      WriteTakesLater(log[n - 1], hist[n - 1]);
      assert hist[n - 1 + 1] == Apply(log[n - 1], hist[n - 1]);
    }
  }

  /** The stored startedAt is the latest of its initial value and every accepted proposal. */
  lemma StartedAtIsLatest(run: seq<World>, acts: seq<Action>, n: nat)
    requires IsRun(run, acts) && n < |run|
    ensures run[n].ws.hist != []
    ensures Latest(run[n].ws).status.startedAt
         == LatestOf(run[0].ws.hist[0].status.startedAt, Proposals(run[n].log))
  {
    RunTime(run, acts, n);
    RunExtends(run, acts, 0, n);
    SerialTakesLatest(run[n].ws.hist, run[n].log, run[n].clock, |run[n].log|);
    assert run[n].log[..|run[n].log|] == run[n].log;
  }

  lemma {:induction false} LatestOfIsMaximum(first: Option<Time>, rest: seq<Option<Time>>)
    ensures LatestOf(first, rest) == first || LatestOf(first, rest) in rest
    ensures Leq(first, LatestOf(first, rest))
    ensures forall t <- rest :: Leq(t, LatestOf(first, rest))
  {
    if rest != [] {
      var shorter := rest[..|rest| - 1];
      LatestOfIsMaximum(first, shorter);
      assert rest == shorter + [rest[|rest| - 1]];
    }
  }

  /** In whatever order the proposals are accepted, the outcome is the same. */
  lemma OrderDoesNotMatter(first: Option<Time>, ps: seq<Option<Time>>, qs: seq<Option<Time>>)
    requires multiset(ps) == multiset(qs)
    ensures LatestOf(first, ps) == LatestOf(first, qs)
  {
    LatestOfIsMaximum(first, ps);
    LatestOfIsMaximum(first, qs);
    assert forall t :: t in ps <==> t in multiset(ps);
    assert forall t :: t in qs <==> t in multiset(qs);
  }

  // ----- the stored status -----

  predicate StatusOk(s: Status) {
    && !s.phase.Failed?
    && (!s.phase.Running? ==> s.podName == "")
    && (s.phase.Running? ==> s.startedAt.Some?)
  }

  ghost predicate StatusesOk(w: World) {
    && Versions(w)
    && (forall ws <- w.ws.hist :: StatusOk(ws.status))
    && (HasDecided(w.rec) ==> StatusOk(w.memo.decided))
  }

  lemma OutsideStatus(w: World, a: Outside)
    requires StatusesOk(w) && OutsideEnabled(w, a) && Versions(DoOutside(w, a))
    ensures StatusesOk(DoOutside(w, a))
  {
  }

  lemma PrepareStatus(w: World, a: Prepare)
    requires StatusesOk(w) && PrepareEnabled(w, a) && Versions(DoPrepare(w, a))
    ensures StatusesOk(DoPrepare(w, a))
  {
  }

  lemma ActStatus(w: World, a: Act)
    requires StatusesOk(w) && ActEnabled(w, a) && Versions(DoAct(w, a))
    ensures StatusesOk(DoAct(w, a))
  {
  }

  lemma StepStatus(w: World, a: Action)
    requires StatusesOk(w) && Enabled(w, a) && Versions(Step(w, a))
    ensures StatusesOk(Step(w, a))
  {
    match a
    case Out(o) => OutsideStatus(w, o);
    case Inf(i) => assert DoInform(w, i).ws.hist == w.ws.hist;
    case Pre(p) => PrepareStatus(w, p);
    case Do(d) => ActStatus(w, d);
  }

  /** When it holds initially, every version of the Workspace ever stored has no Pod name outside
      Running, a start time while Running, and never the phase Failed. */
  lemma {:induction false} StoredStatusOk(run: seq<World>, acts: seq<Action>, n: nat)
    requires IsRun(run, acts) && n < |run| && StatusOk(run[0].ws.hist[0].status)
    ensures StatusesOk(run[n])
  {
    if n == 0 {
      assert Versions(run[0]);
    } else {
      StoredStatusOk(run, acts, n - 1);
      RunInv(run, acts, n);
      StepStatus(run[n - 1], acts[n - 1]);
    }
  }
}
