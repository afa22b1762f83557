/**
Runs that show where the promises of the modules Timing and Sleep end.
*/
module Limits {
  import opened Wrappers
  import opened Lifecycle
  import opened Protocol
  import opened Convergence
  import opened Timing
  import opened Sleep

  /** A Workspace that is starting, with a window of one second, and a Deployment that is as
      wanted, with the given number of ready replicas. */
  function StartingWorld(ready: nat): World {
    var template := Template(map[], map[]);
    var ws := Workspace(1, Spec(false, Window(SECOND), map[]), map[], Status(Starting, "", "", Some(0), None));
    World(false, 0, Watch([ws], 0, []), [], Watch([Some(Deploy(1, 1, template, ready))], 0, []),
          Queue(true, false, None), Idle,
          Memo(0, Want(1, template), 0, None, None, "", 0, ws.status, None), map[])
  }

  /** A world of the examples in which a reconcile can start and has nothing to do before its status half. */
  predicate Plain(w: World) {
    && Versions(w) && w.rec.Idle? && w.queue.dirty && !w.autoOa
    && !NeedsInit(Cached(w.ws).status) && Cached(w.ds).Some?
    && Matches(Cached(w.ds).value, WantOf(Cached(w.ws), w.clock))
  }

  function AfterFetch(w: World): World
    requires Plain(w)
  {
    w.(rec := Inited, queue := Queue(false, w.queue.backoff, None), memo := w.memo.(rd := w.ws.cache))
  }

  function AfterDeploy(w: World): World
    requires Plain(w)
  {
    w.(rec := Deployed, queue := Queue(false, w.queue.backoff, None),
       memo := w.memo.(rd := w.ws.cache, want := WantOf(Cached(w.ws), w.clock), wantAt := w.clock))
  }

  lemma FetchRound(run: seq<World>, acts: seq<Action>) returns (run': seq<World>, acts': seq<Action>)
    requires IsRun(run, acts) && Plain(run[|acts|])
    ensures IsRun(run', acts') && run'[|acts'|] == AfterFetch(run[|acts|])
    ensures IsTimedRun(run, acts) ==> IsTimedRun(run', acts')
  {
    run', acts' := Extend(run, acts, Pre(Pop(false)));
    run', acts' := Extend(run', acts', Pre(Fetch));
    run', acts' := Extend(run', acts', Pre(InitSkip));
  }

  lemma DeployRound(run: seq<World>, acts: seq<Action>) returns (run': seq<World>, acts': seq<Action>)
    requires IsRun(run, acts) && Plain(run[|acts|])
    ensures IsRun(run', acts') && run'[|acts'|] == AfterDeploy(run[|acts|])
    ensures IsTimedRun(run, acts) ==> IsTimedRun(run', acts')
  {
    run', acts' := FetchRound(run, acts);
    run', acts' := Extend(run', acts', Pre(OaSkip));
    run', acts' := Extend(run', acts', Do(DeployGet));
    run', acts' := Extend(run', acts', Do(DeploySend));
  }

  predicate StillStarting(w: World) {
    && Versions(w) && w.rec.Deployed? && w.memo.want.replicas == 1 && !Read(w).spec.stopped
    && Read(w).status.phase.Starting? && Read(w).status.podName == "" && Read(w).status.links == ""
    && Cached(w.ds).Some? && Cached(w.ds).value.ready == 0
  }

  function AfterStarting(w: World): World
    requires StillStarting(w)
  {
    w.(rec := Finishing,
       memo := w.memo.(judgedD := Some(w.ds.cache), pod := None, links := "", judgedAt := w.clock,
                       decided := Read(w).status, requeue := None))
  }

  lemma StartingRound(run: seq<World>, acts: seq<Action>) returns (run': seq<World>, acts': seq<Action>)
    requires IsRun(run, acts) && StillStarting(run[|acts|])
    ensures IsRun(run', acts') && run'[|acts'|] == AfterStarting(run[|acts|])
    ensures IsTimedRun(run, acts) ==> IsTimedRun(run', acts')
  {
    run', acts' := Extend(run, acts, Do(Judge(true, None, "")));
    run', acts' := Extend(run', acts', Do(RecordSkip));
  }

  lemma StartingSettles() returns (run: seq<World>, acts: seq<Action>)
    ensures IsTimedRun(run, acts) && Quiescent(run[|acts|]) && Versions(run[|acts|])
    ensures run[|acts|].clock == 0 && run[|acts|].queue.timer.None?
    ensures run[|acts|].ws == StartingWorld(0).ws && run[|acts|].ds == StartingWorld(0).ds
  {
    run, acts := StartingJudged();
    run, acts := Extend(run, acts, Do(Finish));
  }

  lemma StartingJudged() returns (run: seq<World>, acts: seq<Action>)
    ensures IsTimedRun(run, acts) && run[|acts|].rec.Finishing? && Versions(run[|acts|])
    ensures run[|acts|].clock == 0 && run[|acts|].queue == Queue(false, false, None) && run[|acts|].memo.requeue.None?
    ensures run[|acts|].ws == StartingWorld(0).ws && run[|acts|].ds == StartingWorld(0).ds
  {
    run, acts := [StartingWorld(0)], [];
    run, acts := DeployRound(run, acts);
    run, acts := StartingRound(run, acts);
  }

  /** The requeue is armed for the phase Running only. A Workspace whose Pod never becomes ready
      keeps its replica for any length of time beyond its window, with nothing queued. */
  lemma StartingIsNotBounded(late: nat) returns (run: seq<World>, acts: seq<Action>)
    ensures IsTimedRun(run, acts) && Quiescent(run[|acts|])
    ensures run[|acts|].clock == late && run[|acts|].queue.timer.None?
    ensures run[|acts|].ws == StartingWorld(0).ws && run[|acts|].ds == StartingWorld(0).ds
  {
    run, acts := StartingSettles();
    run, acts := Extend(run, acts, Out(Tick(late)));
  }

  predicate JustReady(w: World) {
    && Versions(w) && w.rec.Deployed? && w.memo.want.replicas == 1 && !Read(w).spec.stopped
    && Read(w).status == Status(Starting, "", "", Some(w.clock), None) && Read(w).spec.idle == Window(SECOND)
    && Cached(w.ds).Some? && Cached(w.ds).value.ready == 1 && w.ws.cache == |w.ws.hist| - 1
  }

  function AfterReady(w: World): World
    requires JustReady(w)
  {
    w.(rec := Judged,
       memo := w.memo.(judgedD := Some(w.ds.cache), pod := None, links := "", judgedAt := w.clock,
                       decided := Status(Running, "", "", Some(w.clock), Some(w.clock)), requeue := Some(SECOND)))
  }

  lemma ReadyRound(run: seq<World>, acts: seq<Action>) returns (run': seq<World>, acts': seq<Action>)
    requires IsRun(run, acts) && JustReady(run[|acts|])
    ensures IsRun(run', acts') && run'[|acts'|] == AfterReady(run[|acts|])
    ensures IsTimedRun(run, acts) ==> IsTimedRun(run', acts')
  {
    run', acts' := Extend(run, acts, Do(Judge(true, None, "")));
  }

  function AfterRecord(w: World): World
    requires JustReady(w)
  {
    Commit(w, w.ws.cache, Record(AfterReady(w).memo.decided)).(rec := Finishing, memo := AfterReady(w).memo)
  }

  lemma RecordRound(run: seq<World>, acts: seq<Action>) returns (run': seq<World>, acts': seq<Action>)
    requires IsRun(run, acts) && JustReady(run[|acts|])
    ensures IsRun(run', acts') && run'[|acts'|] == AfterRecord(run[|acts|])
    ensures IsTimedRun(run, acts) ==> IsTimedRun(run', acts')
  {
    run', acts' := ReadyRound(run, acts);
    run', acts' := Extend(run', acts', Do(RecordGet));
    run', acts' := Extend(run', acts', Do(RecordSend));
  }

  /** A first reconcile finds the Pod ready and stores the phase Running. */
  lemma ReadyReaches() returns (run: seq<World>, acts: seq<Action>)
    ensures IsTimedRun(run, acts)
    ensures var w := StartingWorld(1); var ws := w.ws.hist[0]; var running := Status(Running, "", "", Some(0), Some(0));
            run[|acts|] == w.(queue := Queue(false, false, Some(SECOND)),
                              ws := Watch([ws, ws.(status := running)], 0, []), log := [Record(running)],
                              memo := w.memo.(judgedD := Some(0), requeue := Some(SECOND), decided := running))
  {
    run, acts := [StartingWorld(1)], [];
    run, acts := DeployRound(run, acts);
    run, acts := RecordRound(run, acts);
    Recorded();
    run, acts := Extend(run, acts, Do(Finish));
  }

  /** The state before the last step of the first reconcile. */
  lemma Recorded()
    ensures Plain(StartingWorld(1)) && JustReady(AfterDeploy(StartingWorld(1)))
    ensures var w := StartingWorld(1); var ws := w.ws.hist[0]; var running := Status(Running, "", "", Some(0), Some(0));
            AfterRecord(AfterDeploy(w))
            == w.(queue := Queue(false, false, None), rec := Finishing,
                  ws := Watch([ws, ws.(status := running)], 0, []), log := [Record(running)],
                  memo := w.memo.(judgedD := Some(0), requeue := Some(SECOND), decided := running))
  {
  }

  /** Then the Pod stops being ready, the operator hears of that before its cache has the status
      it wrote itself, reads the Workspace as still starting, and has nothing to write. */
  lemma StaleReconcile() returns (run: seq<World>, acts: seq<Action>)
    ensures IsTimedRun(run, acts)
    ensures var w := StartingWorld(1); var ws := w.ws.hist[0]; var running := Status(Running, "", "", Some(0), Some(0));
            run[|acts|] == w.(queue := Queue(false, false, None), rec := Deployed,
                              ws := Watch([ws, ws.(status := running)], 0, []), log := [Record(running)],
                              ds := Watch([w.ds.hist[0], StartingWorld(0).ds.hist[0]], 1, []),
                              memo := w.memo.(judgedD := Some(0), requeue := Some(SECOND), decided := running))
  {
    run, acts := ReadyLost();
    run, acts := DeployRound(run, acts);
  }

  lemma ReadyLost() returns (run: seq<World>, acts: seq<Action>)
    ensures IsTimedRun(run, acts)
    ensures var w := StartingWorld(1); var ws := w.ws.hist[0]; var running := Status(Running, "", "", Some(0), Some(0));
            run[|acts|] == w.(queue := Queue(true, false, Some(SECOND)),
                              ws := Watch([ws, ws.(status := running)], 0, []), log := [Record(running)],
                              ds := Watch([w.ds.hist[0], StartingWorld(0).ds.hist[0]], 1, []),
                              memo := w.memo.(judgedD := Some(0), requeue := Some(SECOND), decided := running))
  {
    run, acts := NoLongerReady();
    run, acts := Extend(run, acts, Inf(DeliverD(1)));
    run, acts := Extend(run, acts, Inf(HandleD));
  }

  lemma NoLongerReady() returns (run: seq<World>, acts: seq<Action>)
    ensures IsTimedRun(run, acts)
    ensures var w := StartingWorld(1); var ws := w.ws.hist[0]; var running := Status(Running, "", "", Some(0), Some(0));
            run[|acts|] == w.(queue := Queue(false, false, Some(SECOND)),
                              ws := Watch([ws, ws.(status := running)], 0, []), log := [Record(running)],
                              ds := Watch([w.ds.hist[0], StartingWorld(0).ds.hist[0]], 0, []),
                              memo := w.memo.(judgedD := Some(0), requeue := Some(SECOND), decided := running))
  {
    run, acts := ReadyReaches();
    run, acts := Extend(run, acts, Out(SetReady(0)));
  }

  lemma StaleFinish() returns (run: seq<World>, acts: seq<Action>)
    ensures IsTimedRun(run, acts)
    ensures var w := StartingWorld(1); var ws := w.ws.hist[0]; var running := Status(Running, "", "", Some(0), Some(0));
            run[|acts|] == w.(queue := Queue(false, false, None),
                              ws := Watch([ws, ws.(status := running)], 0, []), log := [Record(running)],
                              ds := Watch([w.ds.hist[0], StartingWorld(0).ds.hist[0]], 1, []),
                              memo := w.memo.(judgedD := Some(1), decided := ws.status))
  {
    run, acts := StaleReconcile();
    run, acts := StartingRound(run, acts);
    run, acts := Extend(run, acts, Do(Finish));
  }

  /** With a read that is not fresh the phase need not be right nor the requeue due, even if work takes no time: the
      phase stays Running although no replica is ready, nothing is queued, no requeue is armed, and
      both caches have caught up, for the watch drops the event that tells about the change of phase. */
  lemma StaleReadLeavesRunning() returns (run: seq<World>, acts: seq<Action>)
    ensures IsTimedRun(run, acts) && Quiescent(run[|acts|]) && run[|acts|].queue.timer.None?
    ensures Latest(run[|acts|].ws).status.phase.Running?
    ensures Latest(run[|acts|].ds).Some? && Latest(run[|acts|].ds).value.ready == 0
  {
    run, acts := StaleFinish();
    run, acts := Extend(run, acts, Inf(DeliverWs(1)));
    run, acts := Extend(run, acts, Inf(HandleWs));
  }

  lemma EditAccepted() returns (run: seq<World>, acts: seq<Action>)
    ensures IsRun(run, acts) && |acts| == 2
    ensures var w := StartingWorld(0); var ws := w.ws.hist[0]; var edit := Edit(Spec(false, Window(0), map[]), map[]);
            run[2] == w.(ws := Watch([ws, Apply(edit, ws)], 0, []), log := [edit])
  {
    run, acts := [StartingWorld(0)], [];
    run, acts := Extend(run, acts, Out(CallGet(1, EditOp(Spec(false, Window(0), map[]), map[]), 0)));
    run, acts := Extend(run, acts, Out(CallSend(1, 0)));
    assert run[2].calls == map[];
  }

  /** The window is made shorter, and is over at once, before the operator's cache has the new spec. */
  lemma ShortenedWindow() returns (run: seq<World>, acts: seq<Action>)
    ensures IsRun(run, acts) && |acts| == 3
    ensures var w := StartingWorld(0); var ws := w.ws.hist[0]; var edit := Edit(Spec(false, Window(0), map[]), map[]);
            run[3] == w.(clock := 1, ws := Watch([ws, Apply(edit, ws)], 0, []), log := [edit])
  {
    run, acts := EditAccepted();
    run, acts := Extend(run, acts, Out(Tick(1)));
  }

  /** Sleep is not absorbing for a reconcile that does not have the stored spec yet: it starts after the stored
      window has ended, nobody writes, and it wants a replica. */
  lemma StaleSpecWantsReplica() returns (run: seq<World>, acts: seq<Action>)
    ensures IsRun(run, acts) && |acts| == 8
    ensures run[3].rec.Idle? && run[3].ws.hist != [] && Expired(Latest(run[3].ws), run[3].clock)
    ensures forall i :: 3 <= i < 8 ==> !ForeignWrite(acts[i])
    ensures run[8].rec.DeployGot? && run[8].memo.want.replicas == 1
  {
    run, acts := StaleFetch();
    run, acts := Extend(run, acts, Pre(InitSkip));
    run, acts := Extend(run, acts, Pre(OaSkip));
    run, acts := Extend(run, acts, Do(DeployGet));
  }

  lemma StaleFetch() returns (run: seq<World>, acts: seq<Action>)
    ensures IsRun(run, acts) && |acts| == 5
    ensures run[3].rec.Idle? && run[3].ws.hist != [] && Expired(Latest(run[3].ws), run[3].clock)
    ensures forall i :: 3 <= i < 5 ==> !ForeignWrite(acts[i])
    ensures run[5] == run[3].(rec := Fetched, queue := Queue(false, false, None))
    ensures !run[3].autoOa && Versions(run[3]) && run[3].clock == 1 && Read(run[3]) == StartingWorld(0).ws.hist[0]
  {
    run, acts := ShortenedWindow();
    run, acts := Extend(run, acts, Pre(Pop(false)));
    run, acts := Extend(run, acts, Pre(Fetch));
  }

  // ----- a reconcile in flight -----

  /** A Workspace that is pending, with a window of no length, whose Deployment is ready. */
  function PendingWorld(): World {
    var w := StartingWorld(1);
    var ws := w.ws.hist[0];
    w.(ws := Watch([ws.(spec := Spec(false, Window(0), map[]), status := Status(Pending, "", "", Some(0), None))], 0, []))
  }

  /** A reconcile has wanted its replica at the last moment of the window. */
  lemma InFlight() returns (run: seq<World>, acts: seq<Action>)
    ensures IsRun(run, acts) && Plain(PendingWorld())
    ensures run[|acts|] == AfterDeploy(PendingWorld()).(clock := SECOND)
  {
    run, acts := [PendingWorld()], [];
    run, acts := DeployRound(run, acts);
    run, acts := Extend(run, acts, Out(Tick(SECOND)));
  }

  lemma InFlightJudged() returns (run: seq<World>, acts: seq<Action>, m: nat)
    ensures IsRun(run, acts) && m == |acts| - 2
    ensures run[m] == AfterDeploy(PendingWorld()).(clock := SECOND)
    ensures acts[m] == Do(Judge(true, None, "")) && acts[m + 1] == Do(RecordGet)
    ensures Versions(run[|acts|]) && run[|acts|].rec == RecordGot(0) && run[|acts|].ws == PendingWorld().ws
    ensures run[|acts|].memo.decided.lastActive == Some(SECOND)
  {
    run, acts := InFlight();
    m := |acts|;
    run, acts := Extend(run, acts, Do(Judge(true, None, "")));
    run, acts := Extend(run, acts, Do(RecordGet));
  }

  /** Nor is sleep absorbing for a reconcile that is in flight when the window ends: it finds its Pod ready and
      starts a new window. */
  lemma InFlightStartsNewWindow() returns (run: seq<World>, acts: seq<Action>, m: nat)
    ensures IsRun(run, acts) && m < |acts|
    ensures Versions(run[m]) && run[m].rec.Deployed? && Expired(Latest(run[m].ws), run[m].clock)
    ensures Cached(run[m].ws) == Latest(run[m].ws)
    ensures forall i :: m <= i < |acts| ==> !ForeignWrite(acts[i])
    ensures run[|acts|].ws.hist != [] && Latest(run[|acts|].ws).status.lastActive == Some(SECOND)
    ensures Latest(run[m].ws).status.lastActive == Some(0)
  {
    run, acts, m := InFlightJudged();
    SendMovesActive(run[|acts|]);
    run, acts := Extend(run, acts, Do(RecordSend));
  }

  lemma SendMovesActive(w: World)
    requires Versions(w) && w.rec == RecordGot(0) && w.ws == PendingWorld().ws && w.memo.decided.lastActive == Some(SECOND)
    ensures var v := DoAct(w, RecordSend); v.ws.hist != [] && Latest(v.ws).status.lastActive == Some(SECOND)
  {
  }

  // ----- a clock reading with a fraction -----

  /** The same Workspace with a window of one second, at a clock reading within the first second. */
  function FractionWorld(now: Time): World {
    var w := PendingWorld();
    w.(clock := now, ws := Watch([w.ws.hist[0].(spec := Spec(false, Window(SECOND), map[]))], 0, []))
  }

  lemma FractionJudged(now: Time) returns (run: seq<World>, acts: seq<Action>)
    requires 0 <= now < SECOND
    ensures IsTimedRun(run, acts)
    ensures run[|acts|] == AfterDeploy(FractionWorld(now)).(
              rec := Judged,
              memo := AfterDeploy(FractionWorld(now)).memo.(
                judgedD := Some(0), judgedAt := now, requeue := Some(SECOND),
                decided := Status(Running, "", "", Some(now), Some(now))))
  {
    run, acts := [FractionWorld(now)], [];
    run, acts := DeployRound(run, acts);
    run, acts := Extend(run, acts, Do(Judge(true, None, "")));
  }

  lemma FractionRead(now: Time) returns (run: seq<World>, acts: seq<Action>)
    requires 0 <= now < SECOND
    ensures IsTimedRun(run, acts)
    ensures var w := run[|acts|];
            && Versions(w) && w.rec == RecordGot(0) && w.clock == now && w.queue == Queue(false, false, None)
            && w.memo.requeue == Some(SECOND) && w.memo.decided == Status(Running, "", "", Some(now), Some(now))
            && w.ds == FractionWorld(now).ds && w.ws == FractionWorld(now).ws
  {
    run, acts := FractionJudged(now);
    run, acts := Extend(run, acts, Do(RecordGet));
  }

  lemma FractionStored(now: Time) returns (run: seq<World>, acts: seq<Action>)
    requires 0 <= now < SECOND
    ensures IsTimedRun(run, acts)
    ensures var w := run[|acts|];
            && Versions(w) && w.rec.Finishing? && w.clock == now && w.queue == Queue(false, false, None)
            && w.memo.requeue == Some(SECOND)
            && w.ds == FractionWorld(now).ds && w.ws.cache == 0 && w.ws.events == [] && |w.ws.hist| == 2
            && w.ws.hist[0] == FractionWorld(now).ws.hist[0]
            && w.ws.hist[1] == w.ws.hist[0].(status := Status(Running, "", "", Some(0), Some(0)))
  {
    run, acts := FractionRead(now);
    run, acts := Extend(run, acts, Do(RecordSend));
  }

  lemma FractionDone(now: Time) returns (run: seq<World>, acts: seq<Action>)
    requires 0 <= now < SECOND
    ensures IsTimedRun(run, acts)
    ensures var w := run[|acts|];
            && Versions(w) && w.rec.Idle? && w.queue == Queue(false, false, Some(now + SECOND))
            && w.ds == FractionWorld(now).ds && w.ws.cache == 0 && w.ws.events == [] && |w.ws.hist| == 2
            && w.ws.hist[0] == FractionWorld(now).ws.hist[0]
            && w.ws.hist[1] == w.ws.hist[0].(status := Status(Running, "", "", Some(0), Some(0)))
  {
    run, acts := FractionStored(now);
    run, acts := Extend(run, acts, Do(Finish));
  }

  /** The requeue is computed before the seconds of lastActiveTime are stored without their fraction, and is late by
      that fraction. */
  lemma RequeueIsLate(now: Time) returns (run: seq<World>, acts: seq<Action>)
    requires 0 <= now < SECOND
    ensures IsTimedRun(run, acts) && Quiescent(run[|acts|]) && run[|acts|].ws.hist != []
    ensures Latest(run[|acts|].ws).spec.idle == Window(SECOND) && Latest(run[|acts|].ws).status.lastActive == Some(0)
    ensures Latest(run[|acts|].ws).status.phase.Running?
    ensures run[|acts|].queue.timer == Some(SECOND + now)
  {
    run, acts := FractionDone(now);
    run, acts := Extend(run, acts, Inf(DeliverWs(1)));
    run, acts := Extend(run, acts, Inf(HandleWs));
  }

  // ----- a deletion that is missed -----

  /** A Workspace that wants a replica, and no Deployment yet. */
  function BareWorld(): World {
    StartingWorld(0).(ds := Watch([None], 0, []))
  }

  lemma Created() returns (run: seq<World>, acts: seq<Action>)
    ensures IsRun(run, acts)
    ensures run[|acts|] == BareWorld().(rec := Deployed, queue := Queue(false, false, None),
                                        ds := Watch([None, StartingWorld(0).ds.hist[0]], 0, []))
  {
    run, acts := [BareWorld()], [];
    run, acts := Extend(run, acts, Pre(Pop(false)));
    run, acts := Extend(run, acts, Pre(Fetch));
    run, acts := Extend(run, acts, Pre(InitSkip));
    run, acts := CreatedFrom(run, acts);
  }

  lemma CreatedFrom(run: seq<World>, acts: seq<Action>) returns (run': seq<World>, acts': seq<Action>)
    requires IsRun(run, acts) && run[|acts|] == BareWorld().(rec := Inited, queue := Queue(false, false, None))
    ensures IsRun(run', acts')
    ensures run'[|acts'|] == BareWorld().(rec := Deployed, queue := Queue(false, false, None),
                                          ds := Watch([None, StartingWorld(0).ds.hist[0]], 0, []))
  {
    run', acts' := Extend(run, acts, Pre(OaSkip));
    run', acts' := Extend(run', acts', Do(DeployGet));
    run', acts' := Extend(run', acts', Do(DeploySend));
  }

  lemma CreatedAndDone() returns (run: seq<World>, acts: seq<Action>)
    ensures IsRun(run, acts)
    ensures var w := run[|acts|];
            && Versions(w) && w.rec.Idle? && w.queue == Queue(false, false, None) && w.ws == BareWorld().ws
            && w.ds == Watch([None, StartingWorld(0).ds.hist[0]], 0, []) && w.memo.want.replicas == 1
  {
    run, acts := Created();
    run, acts := Extend(run, acts, Do(Judge(false, None, "")));
    run, acts := Extend(run, acts, Do(RecordSkip));
    run, acts := Extend(run, acts, Do(Finish));
  }

  /** If a gap in the watch swallows both the creation of the Deployment and its deletion, the filter has nothing
      to react to: all is quiet, the Workspace wants a replica, and there is no Deployment. */
  lemma MissedDeletion() returns (run: seq<World>, acts: seq<Action>)
    ensures IsRun(run, acts) && Quiescent(run[|acts|]) && run[|acts|].ds.hist != [] && Latest(run[|acts|].ds).None?
    ensures run[|acts|].memo.want.replicas == 1 && !TellsLives(run, acts, 0, |acts|)
  {
    run, acts := CreatedAndDone();
    run, acts := Extend(run, acts, Out(DeleteDeploy));
    run, acts := Extend(run, acts, Inf(DeliverD(2)));
    run, acts := Extend(run, acts, Inf(HandleD));
    if TellsLives(run, acts, 0, |acts|) {
      DeploymentConverges(run, acts, 0, |acts|);
    }
  }
}
