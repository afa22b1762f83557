/**
What the operator can do by itself. From every reachable state it can settle without any step from outside and
without time passing.
*/
module Settling {
  import opened Wrappers
  import opened Lifecycle
  import opened Protocol
  import opened Convergence

  // ----- steps of the operator, its caches and its queue -----

  ghost predicate Path(w: World, acts: seq<Action>, v: World)
    decreases |acts|
  {
    if acts == [] then w == v
    else Versions(w) && Enabled(w, acts[0]) && !acts[0].Out? && Path(Step(w, acts[0]), acts[1..], v)
  }

  /** `v` can follow `w` by such steps alone. */
  ghost predicate Leads(w: World, v: World) {
    exists acts :: Path(w, acts, v)
  }

  lemma {:induction false} PathThrough(u: World, acts: seq<Action>, w: World, a: Action)
    requires Path(u, acts, w) && Versions(w) && Enabled(w, a) && !a.Out?
    ensures Path(u, acts + [a], Step(w, a))
    decreases |acts|
  {
    if acts == [] {
      assert [a][1..] == [] && acts + [a] == [a];
    } else {
      assert (acts + [a])[1..] == acts[1..] + [a];
      PathThrough(Step(u, acts[0]), acts[1..], w, a);
    }
  }

  lemma Stay(w: World)
    ensures Leads(w, w)
  {
    assert Path(w, [], w);
  }

  /** One more step. */
  lemma Go(u: World, w: World, a: Action) returns (v: World)
    requires Leads(u, w) && Inv(w) && Enabled(w, a) && !a.Out?
    ensures v == Step(w, a) && Leads(u, v) && Inv(v)
  {
    v := Step(w, a);
    var acts :| Path(u, acts, w);
    PathThrough(u, acts, w, a);
    StepInv(w, a);
  }

  // ----- coming to rest -----

  predicate SameObjects(w: World, v: World) {
    v.ws.hist == w.ws.hist && v.ds.hist == w.ds.hist && v.clock == w.clock && v.autoOa == w.autoOa
  }

  /** No reconcile is under way and both caches have caught up and told about it. */
  ghost predicate Calm(w: World) {
    Inv(w) && w.rec.Idle? && CaughtUp(w.ws) && CaughtUp(w.ds)
  }

  lemma {:induction false} DrainWs(u: World, w: World) returns (v: World)
    requires Leads(u, w) && Inv(w)
    ensures Leads(u, v) && Inv(v) && SameObjects(w, v) && v.rec == w.rec && v.ds == w.ds
    ensures v.ws == w.ws.(events := [])
    decreases |w.ws.events|
  {
    v := w;
    if w.ws.events != [] {
      v := Go(u, w, Inf(HandleWs));
      v := DrainWs(u, v);
    }
  }

  lemma {:induction false} DrainD(u: World, w: World) returns (v: World)
    requires Leads(u, w) && Inv(w)
    ensures Leads(u, v) && Inv(v) && SameObjects(w, v) && v.rec == w.rec && v.ws == w.ws
    ensures v.ds == w.ds.(events := [])
    decreases |w.ds.events|
  {
    v := w;
    if w.ds.events != [] {
      v := Go(u, w, Inf(HandleD));
      v := DrainD(u, v);
    }
  }

  lemma CatchUp(u: World, w: World) returns (v: World)
    requires Leads(u, w) && Inv(w)
    ensures Leads(u, v) && Inv(v) && SameObjects(w, v) && v.rec == w.rec
    ensures CaughtUp(v.ws) && CaughtUp(v.ds)
  {
    v := w;
    if v.ws.cache < |v.ws.hist| - 1 {
      v := Go(u, v, Inf(DeliverWs(|v.ws.hist| - 1)));
    }
    v := DrainWs(u, v);
    if v.ds.cache < |v.ds.hist| - 1 {
      v := Go(u, v, Inf(DeliverD(|v.ds.hist| - 1)));
    }
    v := DrainD(u, v);
  }

  /** A reconcile can always be given up. */
  lemma Rest(u: World, w: World) returns (v: World)
    requires Leads(u, w) && Inv(w)
    ensures Leads(u, v) && Calm(v) && SameObjects(w, v)
  {
    v := w;
    if !w.rec.Idle? {
      v := Go(u, w, Pre(Fail));
    }
    v := CatchUp(u, v);
  }

  // ----- one round -----

  /** A reconcile with up-to-date caches begins. */
  lemma Begin(u: World, w: World) returns (v: World)
    requires Leads(u, w) && Calm(w) && Queued(w.queue)
    ensures Leads(u, v) && Inv(v) && v == w.(rec := Fetched, queue := Queue(false, false, None), memo := w.memo.(rd := w.ws.cache))
  {
    v := w;
    if w.queue.backoff {
      v := Go(u, v, Inf(FireBackoff));
    }
    v := Go(u, v, Pre(Pop(false)));
    v := Go(u, v, Pre(Fetch));
  }

  /** A reconcile with both caches up to date has got as far as `rec`, and nothing else is queued. */
  ghost predicate AtWork(w: World, rec: Rec) {
    && Inv(w) && w.rec == rec && CaughtUp(w.ws) && CaughtUp(w.ds)
    && !Queued(w.queue) && w.memo.rd == w.ws.cache
  }

  lemma StatusFilled(u: World, w: World) returns (v: World)
    requires Leads(u, w) && AtWork(w, Fetched) && NeedsInit(Latest(w.ws).status)
    ensures Leads(u, v) && Inv(v) && v.clock == w.clock && v.autoOa == w.autoOa && v.ds.hist == w.ds.hist
    ensures v.ws.hist == w.ws.hist + [Apply(InitStatus(w.clock), Latest(w.ws))]
  {
    v := Go(u, w, Pre(InitGet));
    v := Go(u, v, Pre(InitSend(w.clock)));
  }

  lemma LabelSet(u: World, w: World) returns (v: World)
    requires Leads(u, w) && AtWork(w, Inited) && NeedsOa(w.autoOa, Latest(w.ws))
    ensures Leads(u, v) && Inv(v) && v.clock == w.clock && v.autoOa == w.autoOa && v.ds.hist == w.ds.hist
    ensures v.ws.hist == w.ws.hist + [Apply(SetOa(OaValue(Latest(w.ws))), Latest(w.ws))]
  {
    v := Go(u, w, Pre(OaGet));
    v := Go(u, v, Pre(OaSend));
  }

  predicate Fits(d: Option<Deploy>, ws: Workspace, now: Time) {
    d.Some? && Matches(d.value, WantOf(ws, now))
  }

  /** The Deployment is created or updated unless it fits already. */
  lemma DeploySent(u: World, w: World) returns (v: World)
    requires Leads(u, w) && AtWork(w, Rec.Ready)
    ensures Leads(u, v) && Inv(v) && v.clock == w.clock && v.autoOa == w.autoOa && v.ws == w.ws
    ensures Fits(Latest(v.ds), Latest(w.ws), w.clock)
    ensures Fits(Latest(w.ds), Latest(w.ws), w.clock) ==>
              AtWork(v, Deployed) && v.ds == w.ds && v.memo.want == WantOf(Latest(w.ws), w.clock)
  {
    v := Go(u, w, Do(DeployGet));
    v := Go(u, v, Do(DeploySend));
  }

  /** What the status half decides in such a state. */
  lemma Judged(u: World, w: World) returns (v: World)
    requires Leads(u, w) && AtWork(w, Deployed) && Latest(w.ds).Some? && Latest(w.ws).status.lastActive.Some?
    ensures Leads(u, v) && AtWork(v, Rec.Judged) && v.ws == w.ws && v.ds == w.ds && v.clock == w.clock && v.autoOa == w.autoOa
    ensures v.memo.decided.phase == PhaseFor(Latest(w.ws).spec.stopped, w.memo.want.replicas, Latest(w.ds).value.ready)
    ensures v.memo.decided.lastActive
            == if v.memo.decided.phase.Running? && Inactive(Latest(w.ws).status.phase) then Some(w.clock)
               else Latest(w.ws).status.lastActive
  {
    v := Go(u, w, Do(Judge(true, None, "")));
  }

  /** The status is stored if it differs, and the reconcile ends. */
  lemma Stored(u: World, w: World) returns (v: World)
    requires Leads(u, w) && AtWork(w, Rec.Judged)
    ensures Leads(u, v) && Inv(v) && v.rec.Idle? && !Queued(v.queue) && v.clock == w.clock && v.autoOa == w.autoOa
    ensures v.ds == w.ds && v.ws.cache == w.ws.cache && v.ws.events == w.ws.events
    ensures v.ws.hist == w.ws.hist || v.ws.hist == w.ws.hist + [Apply(Record(w.memo.decided), Latest(w.ws))]
  {
    if StatusChanged(Read(w).status, w.memo.decided) {
      v := Go(u, w, Do(RecordGet));
      v := Go(u, v, Do(RecordSend));
    } else {
      v := Go(u, w, Do(RecordSkip));
    }
    v := Go(u, v, Do(Finish));
  }

  // ----- what is still to be done -----

  /** A reconcile would start a new window if it found the Pod ready. */
  predicate Wakes(ws: Workspace, now: Time) {
    Inactive(ws.status.phase) && !ws.spec.stopped && ComputeDesiredReplicas(ws, now) != 0
  }

  function Todo(ws: Workspace, d: Option<Deploy>, now: Time, autoOa: bool): nat {
    (if NeedsInit(ws.status) then 8 else 0) + (if NeedsOa(autoOa, ws) then 4 else 0)
    + (if Wakes(ws, now) then 2 else 0) + (if Fits(d, ws, now) then 0 else 1)
  }

  function TodoOf(w: World): nat
    requires w.ws.hist != [] && w.ds.hist != []
  {
    Todo(Latest(w.ws), Latest(w.ds), w.clock, w.autoOa)
  }

  lemma FilledIsFilled(ws: Workspace, d: Option<Deploy>, now: Time, autoOa: bool)
    requires NeedsInit(ws.status)
    ensures Todo(Apply(InitStatus(now), ws), d, now, autoOa) < Todo(ws, d, now, autoOa)
  {
  }

  lemma LabelIsSet(ws: Workspace, d: Option<Deploy>, now: Time, autoOa: bool)
    requires NeedsOa(autoOa, ws)
    ensures Todo(Apply(SetOa(OaValue(ws)), ws), d, now, autoOa) < Todo(ws, d, now, autoOa)
  {
  }

  /** The cache hears of the write of the reconcile itself. */
  lemma Heard(u: World, w: World) returns (v: World)
    requires Leads(u, w) && Inv(w) && w.rec.Idle? && !Queued(w.queue) && CaughtUp(w.ds) && w.ws.events == []
    ensures Leads(u, v) && Calm(v) && SameObjects(w, v)
    ensures WsSame(Cached(w.ws), Latest(w.ws)) ==> Quiescent(v)
  {
    v := w;
    var last := |w.ws.hist| - 1;
    if w.ws.cache < last {
      v := Go(u, v, Inf(DeliverWs(last)));
      v := Go(u, v, Inf(HandleWs));
    }
  }

  /** A status that is stored is one the watch does not react to, or it has started a window, which happens once. */
  lemma StartsOnce(ws: Workspace, d: Deploy, decided: Status, now: Time, autoOa: bool)
    requires !NeedsInit(ws.status) && !NeedsOa(autoOa, ws) && Fits(Some(d), ws, now)
    requires decided.phase == PhaseFor(ws.spec.stopped, ComputeDesiredReplicas(ws, now), d.ready)
    requires decided.lastActive
             == if decided.phase.Running? && Inactive(ws.status.phase) then Some(now) else ws.status.lastActive
    ensures var next := Apply(Record(decided), ws);
            WsSame(ws, next) || Todo(next, Some(d), now, autoOa) < Todo(ws, Some(d), now, autoOa)
  {
  }

  predicate HasStatus(w: World) {
    && w.ws.hist != [] && w.ds.hist != []
    && !NeedsInit(Latest(w.ws).status) && !NeedsOa(w.autoOa, Latest(w.ws))
    && Fits(Latest(w.ds), Latest(w.ws), w.clock)
  }

  lemma Considered(u: World, w: World) returns (v: World)
    requires Leads(u, w) && AtWork(w, Rec.Ready) && HasStatus(w)
    ensures Leads(u, v) && AtWork(v, Rec.Judged) && v.ws == w.ws && v.ds == w.ds && v.clock == w.clock && v.autoOa == w.autoOa
    ensures var ws, next := Latest(w.ws), Apply(Record(v.memo.decided), Latest(w.ws));
            WsSame(ws, next) || Todo(next, Latest(w.ds), w.clock, w.autoOa) < TodoOf(w)
  {
    v := DeploySent(u, w);
    v := Judged(u, v);
    StartsOnce(Latest(w.ws), Latest(w.ds).value, v.memo.decided, w.clock, w.autoOa);
  }

  /** The last part of a round that has nothing to prepare. */
  lemma FullPass(u: World, w: World) returns (v: World)
    requires Leads(u, w) && AtWork(w, Rec.Ready) && HasStatus(w)
    ensures Leads(u, v) && Calm(v) && v.clock == w.clock
    ensures Quiescent(v) || TodoOf(v) < TodoOf(w)
  {
    v := Considered(u, w);
    v := Stored(u, v);
    v := Heard(u, v);
  }

  lemma FillRound(u: World, w: World) returns (v: World)
    requires Leads(u, w) && AtWork(w, Fetched) && NeedsInit(Latest(w.ws).status)
    ensures Leads(u, v) && Calm(v) && v.clock == w.clock && TodoOf(v) < TodoOf(w)
  {
    v := StatusFilled(u, w);
    v := Rest(u, v);
    FilledIsFilled(Latest(w.ws), Latest(w.ds), w.clock, w.autoOa);
  }

  lemma LabelRound(u: World, w: World) returns (v: World)
    requires Leads(u, w) && AtWork(w, Inited) && NeedsOa(w.autoOa, Latest(w.ws))
    ensures Leads(u, v) && Calm(v) && v.clock == w.clock && TodoOf(v) < TodoOf(w)
  {
    v := LabelSet(u, w);
    v := Rest(u, v);
    LabelIsSet(Latest(w.ws), Latest(w.ds), w.clock, w.autoOa);
  }

  lemma DeployRound(u: World, w: World) returns (v: World)
    requires Leads(u, w) && AtWork(w, Rec.Ready) && !Fits(Latest(w.ds), Latest(w.ws), w.clock)
    ensures Leads(u, v) && Calm(v) && v.clock == w.clock && TodoOf(v) < TodoOf(w)
  {
    v := DeploySent(u, w);
    v := Rest(u, v);
  }

  /** A round gets something done for good, or settles everything. */
  lemma Round(u: World, w: World) returns (v: World)
    requires Leads(u, w) && Calm(w) && Queued(w.queue)
    ensures Leads(u, v) && Calm(v) && v.clock == w.clock
    ensures Quiescent(v) || TodoOf(v) < TodoOf(w)
  {
    v := Begin(u, w);
    if NeedsInit(Latest(w.ws).status) {
      v := FillRound(u, v);
    } else {
      v := Go(u, v, Pre(InitSkip));
      v := Decided(u, v);
    }
  }

  lemma Decided(u: World, w: World) returns (v: World)
    requires Leads(u, w) && AtWork(w, Inited) && !NeedsInit(Latest(w.ws).status)
    ensures Leads(u, v) && Calm(v) && v.clock == w.clock
    ensures Quiescent(v) || TodoOf(v) < TodoOf(w)
  {
    if NeedsOa(w.autoOa, Latest(w.ws)) {
      v := LabelRound(u, w);
    } else {
      v := Go(u, w, Pre(OaSkip));
      if Fits(Latest(w.ds), Latest(w.ws), w.clock) {
        v := FullPass(u, v);
      } else {
        v := DeployRound(u, v);
      }
    }
  }

  lemma {:induction false} Settle(u: World, w: World) returns (v: World)
    requires Leads(u, w) && Calm(w)
    ensures Leads(u, v) && Quiescent(v) && v.clock == w.clock
    decreases TodoOf(w)
  {
    v := w;
    if Queued(w.queue) {
      v := Round(u, w);
      if !Quiescent(v) {
        v := Settle(u, v);
      }
    }
  }

  /** From every reachable state a settled one can be reached without a step from outside, at the same clock
      reading. */
  lemma CanSettle(run: seq<World>, acts: seq<Action>, n: nat)
    requires IsRun(run, acts) && n < |run|
    ensures exists v :: Leads(run[n], v) && Quiescent(v) && v.clock == run[n].clock
  {
    RunInv(run, acts, n);
    Stay(run[n]);
    var v := Rest(run[n], run[n]);
    v := Settle(run[n], v);
  }
}
