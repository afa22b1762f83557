/**
What single steps leave behind in whole runs: an accepted call shows in the stored Workspace until somebody else
writes the same field, a wake-up starts a new window, and a decision that differs is stored.
*/
module Effects {
  import opened Wrappers
  import opened Lifecycle
  import opened Protocol
  import opened Convergence
  import opened Timestamps
  import opened Phases

  // ----- accepted calls -----

  /** Step `i` sends a call that has fetched the latest version. */
  ghost predicate SendsFresh(run: seq<World>, acts: seq<Action>, i: nat, id: nat, now: Time) {
    && IsRun(run, acts) && i < |acts| && acts[i] == Out(CallSend(id, now))
    && id in run[i].calls && run[i].calls[id].base == |run[i].ws.hist| - 1
  }

  lemma CallStored(w: World, id: nat, now: Time)
    requires Versions(w) && OutsideEnabled(w, CallSend(id, now)) && w.calls[id].base == |w.ws.hist| - 1
    ensures var v := DoOutside(w, CallSend(id, now)); var write := WriteOf(w.calls[id].op, now);
            v.ws.hist != [] && Latest(v.ws) == if Sends(write, Latest(w.ws)) then Apply(write, Latest(w.ws)) else Latest(w.ws)
  {
  }

  /** Right after the call the stored Workspace has what the call is there to set. */
  lemma CallShows(run: seq<World>, acts: seq<Action>, i: nat, id: nat, now: Time)
    requires SendsFresh(run, acts, i, id, now)
    ensures run[i + 1].ws.hist != []
    ensures var op, ws := run[i].calls[id].op, Latest(run[i + 1].ws);
            match op
            case StopOp => ws.spec.stopped
            case ResumeOp => !ws.spec.stopped
            case TouchOp => IsFloor(ws.status.lastActive, now)
            case BackfillOp(_) => ws.status.startedAt.Some?
            case EditOp(spec, labels) => ws.spec == spec && ws.labels == labels
            case RequestOp(req) =>
              && !ws.spec.stopped
              && (req.idle.Some? ==> ws.spec.idle == req.idle.value)
              && (forall k <- req.fields :: k in ws.spec.body && ws.spec.body[k] == req.fields[k])
              && (req.oa.Some? ==> Lookup(ws.labels, "oa") == req.oa)
  {
    var w := run[i];
    var write := WriteOf(w.calls[id].op, now);
    assert Follows(run[i], acts[i], run[i + 1]);
    CallStored(w, id, now);
    SpecWritesSet(write, Latest(w.ws));
    StatusWritesSet(write, Latest(w.ws));
    if write.Request? || write.Resume? || write.Backfill? {
      NotSentIffNoChange(write, Latest(w.ws));
    }
  }

  lemma {:induction false} VersionsKeepField(hist: seq<Workspace>, log: seq<Write>, m: nat, n: nat, f: Field)
    requires Serial(hist, log) && m <= n < |hist|
    requires forall j :: m <= j < n ==> !Assigns(log[j], f)
    ensures Get(hist[n], f) == Get(hist[m], f)
    decreases n
  {
    if m < n {
      VersionsKeepField(hist, log, m, n - 1, f);
      assert hist[n - 1 + 1] == Apply(log[n - 1], hist[n - 1]);
      WriteFrame(log[n - 1], hist[n - 1], f);
    }
  }

  /** And a field stays as it is until a write is accepted that is there to set it. */
  lemma FieldStays(run: seq<World>, acts: seq<Action>, m: nat, n: nat, f: Field)
    requires IsRun(run, acts) && m <= n < |run|
    requires forall j :: |run[m].log| <= j < |run[n].log| ==> !Assigns(run[n].log[j], f)
    ensures run[m].ws.hist != [] && run[n].ws.hist != []
    ensures Get(Latest(run[n].ws), f) == Get(Latest(run[m].ws), f)
  {
    RunInv(run, acts, m);
    RunInv(run, acts, n);
    RunExtends(run, acts, m, n);
    VersionsKeepField(run[n].ws.hist, run[n].log, |run[m].log|, |run[n].log|, f);
  }

  /** A Workspace that has been stopped, with no later write to that field, has its Deployment scaled to 0 once all has
      settled, whatever happens in between to its idle window or its Pods. */
  lemma StopScalesToZero(run: seq<World>, acts: seq<Action>, i: nat, id: nat, now: Time, m: nat, n: nat)
    requires SendsFresh(run, acts, i, id, now) && run[i].calls[id].op.StopOp?
    requires i < n < |run| && forall j :: |run[i + 1].log| <= j < |run[n].log| ==> !Assigns(run[n].log[j], StoppedField)
    requires m <= n && Restarts(run[m]) && TellsLives(run, acts, m, n) && Quiescent(run[n])
    ensures run[n].ds.hist != [] && Latest(run[n].ds).Some? && Latest(run[n].ds).value.replicas == 0
  {
    CallShows(run, acts, i, id, now);
    FieldStays(run, acts, i + 1, n, StoppedField);
    DeploymentConverges(run, acts, m, n);
  }

  // ----- wake-ups -----

  /** What an accepted wake-up has stored is never lost: from then on the stored lastActiveTime is less than a
      second before the clock reading of the wake-up, or later. */
  lemma WakeUpIsStored(run: seq<World>, acts: seq<Action>, i: nat, id: nat, now: Time, n: nat)
    requires SendsFresh(run, acts, i, id, now) && run[i].calls[id].op.TouchOp? && i < n < |run|
    ensures run[n].ws.hist != [] && Latest(run[n].ws).status.lastActive.Some?
    ensures now < Latest(run[n].ws).status.lastActive.value + 1_000_000_000
  {
    CallShows(run, acts, i, id, now);
    TimestampsAscend(run, acts, i + 1, n);
  }

  /** So a settled state within the window after a wake-up wants a replica, unless the Workspace is stopped, and
      has it unless a delivery has hidden a life of the Deployment. */
  lemma WokenHasReplica(run: seq<World>, acts: seq<Action>, i: nat, id: nat, now: Time, n: nat)
    requires SendsFresh(run, acts, i, id, now) && run[i].calls[id].op.TouchOp? && i < n < |run|
    requires Quiescent(run[n]) && run[n].ws.hist != [] && !Latest(run[n].ws).spec.stopped
    requires Latest(run[n].ws).spec.idle.Window? ==>
               run[n].memo.wantAt + 1_000_000_000 <= now + Latest(run[n].ws).spec.idle.ns
    ensures run[n].memo.want.replicas == 1
    ensures TellsLives(run, acts, 0, n) ==>
              run[n].ds.hist != [] && Latest(run[n].ds).Some? && Latest(run[n].ds).value.replicas == 1
  {
    WakeUpIsStored(run, acts, i, id, now, n);
    RunInv(run, acts, n);
    SettledRead(run[n]);
    if TellsLives(run, acts, 0, n) {
      DeploymentConverges(run, acts, 0, n);
    }
  }

  // ----- the operator's own writes -----

  /** The create-or-update half writes at most once: it creates a missing Deployment, leaves alone one that is as wanted, and
      otherwise changes the version it has read, keeping what the cluster reports. A refused write makes the
      reconcile start over. */
  lemma DeployIsSent(run: seq<World>, acts: seq<Action>, i: nat)
    requires IsRun(run, acts) && i < |acts| && acts[i] == Do(DeploySend)
    ensures run[i].rec.DeployGot? && run[i].rec.dd < |run[i].ds.hist|
    ensures var s, t, want := run[i].ds.hist, run[i + 1].ds.hist, run[i].memo.want;
            var got, last := s[run[i].rec.dd], s[|s| - 1];
            || (run[i + 1].rec.Deployed?
                && (|| (got.None? && last.None? && t == s + [Some(Deploy(1, want.replicas, want.template, 0))])
                    || (got.Some? && got.value.replicas == want.replicas && got.value.template == want.template && t == s)
                    || (got.Some? && got == last
                        && t == s + [Some(Deploy(got.value.generation + 1, want.replicas, want.template, got.value.ready))])))
            || (run[i + 1].rec.Idle? && run[i + 1].queue.backoff && t == s && (got.None? || run[i].rec.dd < |s| - 1))
  {
    assert Follows(run[i], acts[i], run[i + 1]);
  }

  /** A status half that comes to a decision takes the Pod and the clock as they are: moving to Running starts a new
      window, and it sets startedAt unless a running Workspace has one. */
  lemma JudgeDecides(run: seq<World>, acts: seq<Action>, i: nat, found: bool, pod: Option<Pod>, links: string)
    requires IsRun(run, acts) && i < |acts| && acts[i] == Do(Judge(found, pod, links)) && run[i + 1].rec.Judged?
    ensures Versions(run[i])
    ensures var s, t, now := Read(run[i]).status, run[i + 1].memo.decided, run[i].clock;
            && t.links == links
            && (!found ==> t.phase == s.phase)
            && (t.phase.Running? && found && Cached(run[i].ds).Some? && pod.Some? ==> t.podName == pod.value.name)
            && (t.phase.Running? && s.phase in {Sleeping, Stopped, Pending, Failed} ==> t.lastActive == Some(now))
            && (!t.phase.Running? || s.phase in {Unset, Starting, Running} ==> t.lastActive == s.lastActive)
            && (t.phase.Running? && (!s.phase.Running? || s.startedAt.None?) ==>
                  t.startedAt == if found && pod.Some? && pod.value.startTime.Some? && Cached(run[i].ds).Some?
                                 then pod.value.startTime else Some(now))
            && (!t.phase.Running? || (s.phase.Running? && s.startedAt.Some?) ==> t.startedAt == s.startedAt)
  {
    var w := run[i];
    assert Follows(run[i], acts[i], run[i + 1]);
    EvaluateMeaning(Read(w), w.memo.want.replicas, if found then Cached(w.ds) else None, pod, links, w.clock);
  }

  /** The status half leaves the write out only if what it decided is what it had read. */
  lemma SkippedIsSame(run: seq<World>, acts: seq<Action>, i: nat)
    requires IsRun(run, acts) && i < |acts| && acts[i] == Do(RecordSkip)
    ensures Versions(run[i])
    ensures var s, t := Read(run[i]).status, run[i].memo.decided;
            s.phase == t.phase && s.podName == t.podName && s.links == t.links && s.startedAt == t.startedAt
  {
    assert Follows(run[i], acts[i], run[i + 1]);
  }

  /** And a write that is accepted makes what was decided the stored status. */
  lemma DecisionIsStored(run: seq<World>, acts: seq<Action>, i: nat)
    requires IsRun(run, acts) && i < |acts| && acts[i] == Do(RecordSend)
    requires run[i].rec.RecordGot? && run[i].rec.base == |run[i].ws.hist| - 1
    ensures run[i].ws.hist != [] && run[i + 1].ws.hist != []
    ensures var s, t := run[i].memo.decided, Latest(run[i + 1].ws).status;
            s.phase == t.phase && s.podName == t.podName && s.links == t.links
    ensures var b, s, t := Latest(run[i].ws).status, run[i].memo.decided, Latest(run[i + 1].ws).status;
            IsLater(t.lastActive, b.lastActive, s.lastActive) && IsLater(t.startedAt, b.startedAt, s.startedAt)
  {
    assert Follows(run[i], acts[i], run[i + 1]);
    StatusWritesSet(Record(run[i].memo.decided), Latest(run[i].ws));
  }

  /** A status that was read with something missing is filled in, unless somebody has done so. */
  lemma InitIsStored(run: seq<World>, acts: seq<Action>, i: nat, now: Time)
    requires IsRun(run, acts) && i < |acts| && acts[i] == Pre(InitSend(now))
    requires run[i].rec.InitGot? && run[i].rec.base == |run[i].ws.hist| - 1
    ensures run[i].ws.hist != [] && run[i + 1].ws.hist != []
    ensures var s, t := Latest(run[i].ws).status, Latest(run[i + 1].ws).status;
            && t.phase == (if s.phase.Unset? then Pending else s.phase)
            && (if s.lastActive.Some? then t.lastActive == s.lastActive else IsFloor(t.lastActive, now))
  {
    assert Follows(run[i], acts[i], run[i + 1]);
    StatusWritesSet(InitStatus(now), Latest(run[i].ws));
  }

  /** The reconcile goes on without setting the label only if it is switched off, or the environment gives no
      value, or the label has that value. */
  lemma LabelSkipped(run: seq<World>, acts: seq<Action>, i: nat)
    requires IsRun(run, acts) && i < |acts| && acts[i] == Pre(OaSkip)
    ensures Versions(run[i])
    ensures var ws := Read(run[i]);
            || !run[i].autoOa
            || "env.OA" !in ws.spec.body || ws.spec.body["env.OA"] == ""
            || ("oa" in ws.labels && ws.labels["oa"] == ws.spec.body["env.OA"])
  {
    assert Follows(run[i], acts[i], run[i + 1]);
  }

  /** And otherwise it stores the value of the environment it has read, if nobody else has written since. */
  lemma LabelIsStored(run: seq<World>, acts: seq<Action>, i: nat)
    requires IsRun(run, acts) && i < |acts| && acts[i] == Pre(OaGet)
    ensures Versions(run[i]) && run[i].autoOa
    ensures var body := Read(run[i]).spec.body; "env.OA" in body && body["env.OA"] != ""
    ensures run[i + 1].rec == OaGot(run[i].ws.cache)
    ensures run[i].ws.cache == |run[i].ws.hist| - 1 && i + 1 < |acts| && acts[i + 1] == Pre(OaSend) ==>
              && i + 2 < |run| && run[i + 2].ws.hist != []
              && Lookup(Latest(run[i + 2].ws).labels, "oa") == Some(Read(run[i]).spec.body["env.OA"])
  {
    assert Follows(run[i], acts[i], run[i + 1]);
    if i + 1 < |acts| && acts[i + 1] == Pre(OaSend) {
      assert Follows(run[i + 1], acts[i + 1], run[i + 2]);
      assert Read(run[i + 1]) == Read(run[i]);
    }
  }

  // ----- the stored phase -----

  /** In a settled state the phase tells the four cases apart, under the conditions of module Phases. */
  lemma SettledPhase(run: seq<World>, acts: seq<Action>, n: nat)
    requires IsRun(run, acts) && n < |run| && Quiescent(run[n])
    requires run[n].memo.judgedD.Some? && AsWanted(run[n]) && Versions(run[n]) && WroteOrAgreed(run[n])
    ensures var ws, d := Latest(run[n].ws), Latest(run[n].ds).value;
            match ws.status.phase
            case Stopped => ws.spec.stopped
            case Sleeping => !ws.spec.stopped && d.replicas == 0
            case Running => !ws.spec.stopped && d.replicas != 0 && d.ready > 0
            case Starting => !ws.spec.stopped && d.replicas != 0 && d.ready == 0
            case _ => false
  {
    PhaseRightIff(run, acts, n);
  }
}
