/**
The idle window in time. A timed run is a run in which the time that work takes is not
counted: the clock only moves while everything has settled and never past a due requeue, and
the reconciler's read of the Deployment does not fail. Between two ticks everything may still
happen in any order, and every read may be stale.
*/
module Timing {
  import opened Wrappers
  import opened Lifecycle
  import opened Protocol
  import opened Convergence
  import opened Timestamps
  import opened Phases

  ghost predicate Timed(w: World, a: Action) {
    match a
    case Out(Tick(dt)) => Quiescent(w) && (w.queue.timer.Some? ==> w.clock + dt <= w.queue.timer.value)
    case Do(Judge(found, _, _)) => found
    case _ => true
  }

  ghost predicate IsTimedRun(run: seq<World>, acts: seq<Action>) {
    IsRun(run, acts) && forall i {:trigger acts[i]} :: 0 <= i < |acts| ==> Timed(run[i], acts[i])
  }

  // ----- the invariant of timed runs -----

  /** A reconcile takes no time. */
  predicate Instant(w: World) {
    && (w.rec.DeployGot? || w.rec.Deployed? || HasDecided(w.rec) || w.rec.Finishing? ==> w.memo.wantAt == w.clock)
    && (HasDecided(w.rec) || w.rec.Finishing? ==> w.memo.judgedAt == w.clock)
    && (w.queue.timer.Some? ==> w.clock <= w.queue.timer.value)
  }

  /** What the status half decided, from what it saw. */
  ghost predicate DecidedFrom(w: World)
    requires Versions(w)
  {
    HasDecided(w.rec) || Over(w) ==>
      && w.memo.judgedD.Some? && w.memo.wantAt == w.memo.judgedAt
      && Evaluate(Read(w), w.memo.want.replicas, w.ds.hist[w.memo.judgedD.value], w.memo.pod, w.memo.links, w.memo.judgedAt)
         == Evaluated(w.memo.decided, w.memo.requeue)
      && (Queued(w.queue) || DJudged(w.ds, w.memo.judgedD.value))
  }

  /** The decision has been stored, and the requeue it asked for is armed. */
  ghost predicate DecisionStored(w: World)
    requires Versions(w)
  {
    && (Over(w) ==> Leq(PersistOption(w.memo.decided.lastActive), Latest(w.ws).status.lastActive))
    && (w.rec.Idle? && !Queued(w.queue) && w.memo.requeue.Some? ==>
          w.queue.timer.Some? && w.queue.timer.value <= w.memo.judgedAt + w.memo.requeue.value)
  }

  ghost predicate TimedInv(w: World)
    requires Versions(w)
  {
    Instant(w) && DecidedFrom(w) && DecisionStored(w)
  }

  // ----- one step at a time -----

  lemma ForeignCommitTimed(w: World, base: nat, write: Write)
    requires TimeInv(w) && TimedInv(w) && Accepted(w, base) && base < |w.ws.hist| && Foreign(write)
    requires TimeInv(Commit(w, base, write))
    ensures TimedInv(Commit(w, base, write))
  {
    var v := Commit(w, base, write);
    assert Latest(v.ws) == Apply(write, Latest(w.ws));
    AscendingLeq(v.ws.hist, |w.ws.hist| - 1, |w.ws.hist|);
    assert v.ws.hist[|w.ws.hist| - 1] == Latest(w.ws);
    assert Read(v) == Read(w);
  }

  lemma DeployAppendTimed(w: World, x: Option<Deploy>)
    requires Versions(w) && TimedInv(w) && Versions(w.(ds := Append(w.ds, x)))
    ensures TimedInv(w.(ds := Append(w.ds, x)))
  {
    DNewsAppend(w.ds, x);
  }

  lemma CallSendTimed(w: World, id: nat, now: Time)
    requires TimeInv(w) && TimedInv(w) && OutsideEnabled(w, CallSend(id, now))
    requires TimeInv(DoOutside(w, CallSend(id, now)))
    ensures TimedInv(DoOutside(w, CallSend(id, now)))
  {
    var call := w.calls[id];
    var write := WriteOf(call.op, now);
    if Sends(write, w.ws.hist[call.base]) && Accepted(w, call.base) {
      var rest := w.(calls := w.calls - {id});
      assert TimeInv(rest) && TimedInv(rest);
      ForeignCommitTimed(rest, call.base, write);
    }
  }

  lemma OutsideTimed(w: World, a: Outside)
    requires TimeInv(w) && TimedInv(w) && OutsideEnabled(w, a) && Timed(w, Out(a)) && TimeInv(DoOutside(w, a))
    ensures TimedInv(DoOutside(w, a))
  {
    match a
    case Tick(dt) =>
    case CallGet(_, _, _) =>
    case CallSend(id, now) => CallSendTimed(w, id, now);
    case EditDeploy(replicas, template) =>
      DeployAppendTimed(w, Some(EditedDeploy(Latest(w.ds).value, replicas, template)));
    case SetReady(ready) => DeployAppendTimed(w, Some(Latest(w.ds).value.(ready := ready)));
    case DeleteDeploy => DeployAppendTimed(w, None);
  }

  lemma InformTimed(w: World, a: Inform)
    requires Versions(w) && TimedInv(w) && InformEnabled(w, a) && Versions(DoInform(w, a))
    ensures TimedInv(DoInform(w, a))
  {
    match a
    case DeliverD(to) => DNewsDeliver(w.ds, to);
    case HandleD => DNewsHandle(w.ds);
    case _ =>
  }

  lemma OaSendTimed(w: World)
    requires Versions(w) && TimedInv(w) && w.rec.OaGot? && Versions(DoPrepare(w, OaSend))
    ensures TimedInv(DoPrepare(w, OaSend))
  {
    if Accepted(w, w.rec.base) {
      var v := DoPrepare(w, OaSend);
      assert Latest(v.ws) == Apply(SetOa(OaValue(Read(w))), Latest(w.ws));
      assert Read(v) == Read(w);
    }
  }

  lemma PrepareTimed(w: World, a: Prepare)
    requires Versions(w) && TimedInv(w) && PrepareEnabled(w, a) && Timed(w, Pre(a)) && Versions(DoPrepare(w, a))
    ensures TimedInv(DoPrepare(w, a))
  {
    if a.OaSend? {
      OaSendTimed(w);
    }
  }

  /** The status half starts a new window only together with a change of phase. */
  lemma WindowKept(ws: Workspace, replicas: int, deploy: Option<Deploy>, pod: Option<Pod>, links: string, now: Time)
    requires Evaluate(ws, replicas, deploy, pod, links, now).Evaluated?
    requires Evaluate(ws, replicas, deploy, pod, links, now).status.phase == ws.status.phase
    ensures Evaluate(ws, replicas, deploy, pod, links, now).status.lastActive == ws.status.lastActive
  {
  }

  lemma RecordSkipTimed(w: World)
    requires TimeInv(w) && TimedInv(w) && ActEnabled(w, RecordSkip)
    ensures TimedInv(DoAct(w, RecordSkip))
  {
    WindowKept(Read(w), w.memo.want.replicas, w.ds.hist[w.memo.judgedD.value], w.memo.pod, w.memo.links, w.memo.judgedAt);
    assert Past(Read(w), w.clock);
    AscendingLeq(w.ws.hist, w.memo.rd, |w.ws.hist| - 1);
  }

  lemma RecordSendTimed(w: World)
    requires Versions(w) && TimedInv(w) && w.rec.RecordGot? && Versions(DoAct(w, RecordSend))
    ensures TimedInv(DoAct(w, RecordSend))
  {
    if Accepted(w, w.rec.base) {
      var v := DoAct(w, RecordSend);
      assert Latest(v.ws) == Apply(Record(w.memo.decided), Latest(w.ws));
      assert Read(v) == Read(w);
    }
  }

  lemma ActTimed(w: World, a: Act)
    requires TimeInv(w) && TimedInv(w) && ActEnabled(w, a) && Timed(w, Do(a)) && Versions(DoAct(w, a))
    ensures TimedInv(DoAct(w, a))
  {
    match a
    case RecordSkip => RecordSkipTimed(w);
    case RecordSend => RecordSendTimed(w);
    case _ =>
  }

  lemma StepTimed(w: World, a: Action)
    requires TimeInv(w) && TimedInv(w) && Enabled(w, a) && Timed(w, a) && TimeInv(Step(w, a))
    ensures TimedInv(Step(w, a))
  {
    match a
    case Out(o) => OutsideTimed(w, o);
    case Inf(i) => InformTimed(w, i);
    case Pre(p) => PrepareTimed(w, p);
    case Do(d) => ActTimed(w, d);
  }

  lemma {:induction false} RunTimed(run: seq<World>, acts: seq<Action>, n: nat)
    requires IsTimedRun(run, acts) && n < |run|
    ensures TimeInv(run[n]) && TimedInv(run[n])
  {
    RunTime(run, acts, n);
    if n == 0 {
      InitTimed(run[0]);
    } else {
      RunTimed(run, acts, n - 1);
      StepIsTimed(run, acts, n);
      NextTimed(run[n - 1], acts[n - 1], run[n]);
    }
  }

  lemma InitTimed(w: World)
    requires Init(w) && Versions(w)
    ensures TimedInv(w)
  {
  }

  lemma StepIsTimed(run: seq<World>, acts: seq<Action>, n: nat)
    requires IsTimedRun(run, acts) && 0 < n < |run|
    ensures |run| == |acts| + 1 && Follows(run[n - 1], acts[n - 1], run[n]) && Timed(run[n - 1], acts[n - 1])
  {
    var i := n - 1;
    assert Timed(run[i], acts[i]);
  }

  lemma NextTimed(w: World, a: Action, v: World)
    requires TimeInv(w) && TimedInv(w) && Follows(w, a, v) && Timed(w, a) && TimeInv(v)
    ensures TimedInv(v)
  {
    StepTimed(w, a);
  }

  // ----- what follows -----

  /** In a settled state with the phase Running and a parsable timeout, when the last reconcile had something to
      write or had read a version with that phase, and the Deployment exists: a requeue is due at
      the end of the window, counted from the stored lastActiveTime and less
      than a second later than that because of its precision, or one second after the
      last reconcile, whichever is later. */
  lemma RequeueIsDue(run: seq<World>, acts: seq<Action>, n: nat)
    requires IsTimedRun(run, acts) && n < |run| && Quiescent(run[n])
    requires Versions(run[n]) && WroteOrAgreed(run[n]) && Latest(run[n].ds).Some?
    requires Latest(run[n].ws).status.phase.Running? && Latest(run[n].ws).spec.idle.Window?
    ensures run[n].queue.timer.Some? && run[n].clock <= run[n].queue.timer.value
    ensures Latest(run[n].ws).status.lastActive.Some?
    ensures var expiry := Latest(run[n].ws).status.lastActive.value + Latest(run[n].ws).spec.idle.ns;
            run[n].memo.wantAt <= expiry &&
            (run[n].queue.timer.value < expiry + SECOND || run[n].queue.timer.value <= run[n].memo.wantAt + SECOND)
  {
    RunTimed(run, acts, n);
    RunPhase(run, acts, n);
    SettledRead(run[n]);
  }

  /** However stale the reads were: when everything has settled more than a second after the end of the stored
      window, the last reconcile did not decide on Running, and the Deployment has been scaled to 0,
      ready or not, unless the decision was Starting: exactly then the replica is still there. */
  lemma IdleScalesToZero(run: seq<World>, acts: seq<Action>, n: nat)
    requires IsTimedRun(run, acts) && n < |run| && Quiescent(run[n]) && run[n].ws.hist != []
    requires Latest(run[n].ws).spec.idle.Window? && Latest(run[n].ws).status.lastActive.Some?
    requires run[n].clock > Latest(run[n].ws).status.lastActive.value + Latest(run[n].ws).spec.idle.ns + SECOND
    ensures TellsLives(run, acts, 0, n) ==> AsWanted(run[n])
    ensures AsWanted(run[n]) ==>
              && !run[n].memo.decided.phase.Running?
              && (Latest(run[n].ds).value.replicas == 0 <==> !run[n].memo.decided.phase.Starting?)
  {
    RunTimed(run, acts, n);
    RunPhase(run, acts, n);
    SettledRead(run[n]);
    if TellsLives(run, acts, 0, n) {
      DeploymentConverges(run, acts, 0, n);
    }
  }

  // ----- with reads that are up to date -----

  ghost predicate IsFreshRun(run: seq<World>, acts: seq<Action>) {
    IsTimedRun(run, acts) && forall i {:trigger acts[i]} :: 0 <= i < |acts| ==> ReadsLatest(run[i], acts[i])
  }

  /** Whenever a run with such reads has settled with the wanted Deployment, the stored phase is the one that the
      spec, the wanted replicas and the ready replicas of the stored Deployment imply. */
  lemma PhaseConverges(run: seq<World>, acts: seq<Action>, n: nat)
    requires IsFreshRun(run, acts) && n < |run| && Quiescent(run[n]) && TellsLives(run, acts, 0, n)
    ensures Versions(run[n]) && AsWanted(run[n]) && PhaseRight(run[n])
  {
    RunTimed(run, acts, n);
    DeploymentConverges(run, acts, 0, n);
    FreshReadsAgree(run, acts, n);
    PhaseRightIff(run, acts, n);
  }

  /** And the requeue is due whenever the stored phase is Running. */
  lemma FreshRequeueIsDue(run: seq<World>, acts: seq<Action>, n: nat)
    requires IsFreshRun(run, acts) && n < |run| && Quiescent(run[n]) && TellsLives(run, acts, 0, n)
    requires run[n].ws.hist != [] && Latest(run[n].ws).status.phase.Running? && Latest(run[n].ws).spec.idle.Window?
    ensures run[n].queue.timer.Some? && run[n].clock <= run[n].queue.timer.value
    ensures Latest(run[n].ws).status.lastActive.Some?
    ensures var expiry := Latest(run[n].ws).status.lastActive.value + Latest(run[n].ws).spec.idle.ns;
            run[n].memo.wantAt <= expiry &&
            (run[n].queue.timer.value < expiry + SECOND || run[n].queue.timer.value <= run[n].memo.wantAt + SECOND)
  {
    PhaseConverges(run, acts, n);
    FreshReadsAgree(run, acts, n);
    RequeueIsDue(run, acts, n);
  }

  /** So when more than a second has passed since the end of the window, a Workspace that nobody wakes is not
      stored as Running any more, and its Deployment has been scaled to 0, ready or not, unless the Workspace never got
      past Starting: exactly then the replica is still there. */
  lemma RunningEndsByExpiry(run: seq<World>, acts: seq<Action>, n: nat)
    requires IsFreshRun(run, acts) && n < |run| && Quiescent(run[n]) && TellsLives(run, acts, 0, n)
    requires run[n].ws.hist != []
    requires Latest(run[n].ws).spec.idle.Window? && Latest(run[n].ws).status.lastActive.Some?
    requires run[n].clock > Latest(run[n].ws).status.lastActive.value + Latest(run[n].ws).spec.idle.ns + SECOND
    ensures !Latest(run[n].ws).status.phase.Running?
    ensures run[n].ds.hist != [] && Latest(run[n].ds).Some?
    ensures Latest(run[n].ds).value.replicas == 0 <==> !Latest(run[n].ws).status.phase.Starting?
    ensures Latest(run[n].ds).value.ready > 0 ==> Latest(run[n].ds).value.replicas == 0
  {
    RunTimed(run, acts, n);
    PhaseConverges(run, acts, n);
    IdleScalesToZero(run, acts, n);
    PhaseRightIffDecided(run, acts, n);
  }
}
