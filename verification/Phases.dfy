/**
When the stored phase is right. The Workspace watch does not react to a change of phase, so nothing makes up
for a reconcile that left the phase as it was because the version it had read already had that phase.
*/
module Phases {
  import opened Lifecycle
  import opened Protocol
  import opened Convergence
  import opened Timestamps

  /** The latest reconcile has been made to the end and nothing is owed. */
  predicate Over(w: World) {
    w.rec.Finishing? || (w.rec.Idle? && !Queued(w.queue))
  }

  predicate Settling(w: World) {
    (HasDecided(w.rec) || Over(w)) && w.memo.judgedD.Some?
  }

  /** The phase was decided from the spec as read, the wanted replicas, and the Deployment as judged, and that
      one is up to date or more work is owed. */
  ghost predicate PhaseDecided(w: World)
    requires Versions(w)
  {
    Settling(w) ==>
      var deploy := w.ds.hist[w.memo.judgedD.value];
      && (deploy.Some? ==>
            w.memo.decided.phase == PhaseFor(Read(w).spec.stopped, w.memo.want.replicas, deploy.value.ready))
      && (Queued(w.queue) || DJudged(w.ds, w.memo.judgedD.value))
  }

  /** A status that was written has the decided phase. */
  ghost predicate PhaseStored(w: World)
    requires Versions(w)
  {
    Over(w) && StatusChanged(Read(w).status, w.memo.decided) ==> Latest(w.ws).status.phase == w.memo.decided.phase
  }

  ghost predicate PhaseInv(w: World)
    requires Versions(w)
  {
    PhaseDecided(w) && PhaseStored(w)
  }

  // ----- one step at a time -----

  /** The writes of anyone but the reconciler leave the phase alone. */
  predicate Foreign(write: Write) {
    !write.InitStatus? && !write.SetOa? && !write.Record?
  }

  lemma OutsidePhase(w: World, a: Outside)
    requires Versions(w) && PhaseInv(w) && OutsideEnabled(w, a) && Versions(DoOutside(w, a))
    ensures PhaseInv(DoOutside(w, a))
  {
  }

  lemma InformPhase(w: World, a: Inform)
    requires Versions(w) && PhaseInv(w) && InformEnabled(w, a) && Versions(DoInform(w, a))
    ensures PhaseInv(DoInform(w, a))
  {
    match a
    case DeliverD(to) => DNewsDeliver(w.ds, to);
    case HandleD => DNewsHandle(w.ds);
    case _ =>
  }

  lemma PreparePhase(w: World, a: Prepare)
    requires Versions(w) && PhaseInv(w) && PrepareEnabled(w, a) && Versions(DoPrepare(w, a))
    ensures PhaseInv(DoPrepare(w, a))
  {
  }

  lemma RecordSendPhase(w: World)
    requires Versions(w) && PhaseInv(w) && w.rec.RecordGot? && Versions(DoAct(w, RecordSend))
    ensures PhaseInv(DoAct(w, RecordSend))
  {
    if Accepted(w, w.rec.base) {
      var v := DoAct(w, RecordSend);
      assert Latest(v.ws) == Apply(Record(w.memo.decided), w.ws.hist[w.rec.base]);
      assert Read(v) == Read(w);
    }
  }

  lemma ActPhase(w: World, a: Act)
    requires Versions(w) && PhaseInv(w) && ActEnabled(w, a) && Versions(DoAct(w, a))
    ensures PhaseInv(DoAct(w, a))
  {
    if a.RecordSend? {
      RecordSendPhase(w);
    }
  }

  lemma StepPhase(w: World, a: Action)
    requires Versions(w) && PhaseInv(w) && Enabled(w, a) && Versions(Step(w, a))
    ensures PhaseInv(Step(w, a))
  {
    match a
    case Out(o) => OutsidePhase(w, o);
    case Inf(i) => InformPhase(w, i);
    case Pre(p) => PreparePhase(w, p);
    case Do(d) => ActPhase(w, d);
  }

  lemma {:induction false} RunPhase(run: seq<World>, acts: seq<Action>, n: nat)
    requires IsRun(run, acts) && n < |run|
    ensures Inv(run[n]) && PhaseInv(run[n])
  {
    RunInv(run, acts, n);
    if n > 0 {
      RunPhase(run, acts, n - 1);
      StepPhase(run[n - 1], acts[n - 1]);
    }
  }

  // ----- what follows -----

  /** In a settled state of any run, after a reconcile that could read its Deployment: the Deployment exists if
      and only if that read found it. */
  lemma ExistsIffFound(run: seq<World>, acts: seq<Action>, n: nat)
    requires IsRun(run, acts) && n < |run| && Quiescent(run[n]) && run[n].memo.judgedD.Some?
    ensures Versions(run[n])
    ensures Latest(run[n].ds).Some? <==> run[n].ds.hist[run[n].memo.judgedD.value].Some?
  {
    RunPhase(run, acts, n);
  }

  /** The phase that the stored spec and the stored Deployment imply. */
  ghost predicate PhaseRight(w: World)
    requires Versions(w) && Latest(w.ds).Some?
  {
    var phase, stopped, d := Latest(w.ws).status.phase, Latest(w.ws).spec.stopped, Latest(w.ds).value;
    && (phase.Stopped? <==> stopped)
    && (phase.Sleeping? <==> !stopped && d.replicas == 0)
    && (phase.Running? <==> !stopped && d.replicas != 0 && d.ready > 0)
    && (phase.Starting? <==> !stopped && d.replicas != 0 && d.ready == 0)
  }

  /** If the stored Deployment is as wanted besides, the stored phase is the implied one if and only if it is
      the phase that the reconcile decided on. */
  lemma PhaseRightIffDecided(run: seq<World>, acts: seq<Action>, n: nat)
    requires IsRun(run, acts) && n < |run| && Quiescent(run[n])
    requires run[n].memo.judgedD.Some? && AsWanted(run[n])
    ensures Versions(run[n])
    ensures PhaseRight(run[n]) <==> Latest(run[n].ws).status.phase == run[n].memo.decided.phase
  {
    RunPhase(run, acts, n);
    SettledRead(run[n]);
  }

  /** The reconcile had something to write, or had read a version with the phase that is stored. */
  predicate WroteOrAgreed(w: World)
    requires Versions(w)
  {
    StatusChanged(Read(w).status, w.memo.decided) || Read(w).status.phase == Latest(w.ws).status.phase
  }

  /** That is the case exactly when the reconcile had something to write, or had read a version with
      the phase that is stored. */
  lemma PhaseRightIff(run: seq<World>, acts: seq<Action>, n: nat)
    requires IsRun(run, acts) && n < |run| && Quiescent(run[n])
    requires run[n].memo.judgedD.Some? && AsWanted(run[n])
    ensures Versions(run[n])
    ensures PhaseRight(run[n]) <==> WroteOrAgreed(run[n])
  {
    PhaseRightIffDecided(run, acts, n);
    RunPhase(run, acts, n);
  }

  // ----- reads that are up to date -----

  /** Every read of the Workspace finds the latest version. */
  predicate ReadsLatest(w: World, a: Action) {
    a.Pre? && (a.p.Fetch? || a.p.Refetch? || a.p.OaRefetch?) ==> w.ws.cache == |w.ws.hist| - 1
  }

  predicate HoldsCopy(r: Rec) {
    !r.Idle? && !r.Popped? && !r.InitSent? && !r.Finishing?
  }

  /** Nobody but the reconciler sets the phase, so its copy has the stored one. */
  ghost predicate PhaseHeld(w: World)
    requires Versions(w)
  {
    && (HoldsCopy(w.rec) ==> Latest(w.ws).status.phase == Read(w).status.phase)
    && (w.rec.RecordGot? ==> StatusChanged(Read(w).status, w.memo.decided))
    && (Over(w) ==> WroteOrAgreed(w))
  }

  lemma OutsideHeld(w: World, a: Outside)
    requires Versions(w) && PhaseHeld(w) && OutsideEnabled(w, a) && Versions(DoOutside(w, a))
    ensures PhaseHeld(DoOutside(w, a))
  {
    var v := DoOutside(w, a);
    assert Latest(v.ws).status.phase == Latest(w.ws).status.phase && Read(v) == Read(w);
  }

  lemma InformHeld(w: World, a: Inform)
    requires Versions(w) && PhaseHeld(w) && InformEnabled(w, a) && Versions(DoInform(w, a))
    ensures PhaseHeld(DoInform(w, a))
  {
    assert Read(DoInform(w, a)) == Read(w);
  }

  lemma PrepareHeld(w: World, a: Prepare)
    requires Versions(w) && PhaseHeld(w) && PrepareEnabled(w, a) && ReadsLatest(w, Pre(a)) && Versions(DoPrepare(w, a))
    ensures PhaseHeld(DoPrepare(w, a))
  {
    if a.OaSend? && Accepted(w, w.rec.base) {
      var v := DoPrepare(w, OaSend);
      assert Latest(v.ws) == Apply(SetOa(OaValue(Read(w))), Latest(w.ws));
      assert Read(v) == Read(w);
    }
  }

  lemma ActHeld(w: World, a: Act)
    requires Versions(w) && PhaseHeld(w) && ActEnabled(w, a) && Versions(DoAct(w, a))
    ensures PhaseHeld(DoAct(w, a))
  {
    var v := DoAct(w, a);
    assert Read(v) == Read(w);
  }

  lemma StepHeld(w: World, a: Action)
    requires Versions(w) && PhaseHeld(w) && Enabled(w, a) && ReadsLatest(w, a) && Versions(Step(w, a))
    ensures PhaseHeld(Step(w, a))
  {
    match a
    case Out(o) => OutsideHeld(w, o);
    case Inf(i) => InformHeld(w, i);
    case Pre(p) => PrepareHeld(w, p);
    case Do(d) => ActHeld(w, d);
  }

  /** Then the condition is met at the end of every reconcile. */
  lemma {:induction false} FreshReadsAgree(run: seq<World>, acts: seq<Action>, n: nat)
    requires IsRun(run, acts) && n < |run|
    requires forall i {:trigger acts[i]} :: 0 <= i < n ==> ReadsLatest(run[i], acts[i])
    ensures Versions(run[n]) && PhaseHeld(run[n])
  {
    RunInv(run, acts, n);
    if n > 0 {
      FreshReadsAgree(run, acts, n - 1);
      StepHeld(run[n - 1], acts[n - 1]);
    }
  }
}
