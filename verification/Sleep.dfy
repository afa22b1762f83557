/**
Once the idle window is over, a Workspace stays asleep until somebody writes to it.
*/
module Sleep {
  import opened Wrappers
  import opened Lifecycle
  import opened Protocol
  import opened Convergence
  import opened Timestamps
  import opened Settling

  predicate Expired(ws: Workspace, now: Time) {
    ws.spec.idle.Window? && ws.status.lastActive.Some? && now > ws.status.lastActive.value + ws.spec.idle.ns
  }

  /** A version for which a reconcile that gets past the label wants a replica; it does not get past a missing one. */
  predicate Asks(autoOa: bool, ws: Workspace, now: Time) {
    !NeedsOa(autoOa, ws) && ComputeDesiredReplicas(ws, now) != 0
  }

  /** A reconcile that reads the versions from `c` on can get past the filling-in of the status without a write, before it
      reads version `i`: it finds one that is to be filled in, and a later one where somebody has done so. */
  predicate Passed(hist: seq<Workspace>, c: nat, i: nat)
    requires i <= |hist|
  {
    exists a, j :: c <= a < j < i && NeedsInit(hist[a].status) && !NeedsInit(hist[j].status)
  }

  /** No reconcile that reads the versions from `c` on decides on one that asks for a replica. */
  ghost predicate AskNone(autoOa: bool, hist: seq<Workspace>, now: Time, c: nat) {
    forall i :: c <= i < |hist| && Asks(autoOa, hist[i], now) ==> NeedsInit(hist[i].status) && !Passed(hist, c, i)
  }

  /** Nor does any that starts now or later. */
  ghost predicate AllAskNone(w: World) {
    AskNone(w.autoOa, w.ws.hist, w.clock, w.ws.cache)
  }

  /** A reconcile at the filling-in reads the versions from its working copy on. */
  ghost predicate Filling(w: World)
    requires Versions(w)
  {
    && (w.rec.Fetched? || w.rec.InitGot? ==> AskNone(w.autoOa, w.ws.hist, w.clock, w.memo.rd))
    && (w.rec.InitGot? ==> w.memo.rd <= w.rec.base && NeedsInit(Read(w).status))
    && (w.rec.InitSent? ==> forall i :: w.ws.cache <= i < |w.ws.hist| ==> !Asks(w.autoOa, w.ws.hist[i], w.clock))
    && (Filled(w.rec) ==> !Asks(w.autoOa, Read(w), w.clock))
  }

  /** The further the cache is, the fewer versions there are to decide on. */
  lemma AskNoneFurther(autoOa: bool, hist: seq<Workspace>, now: Time, c: nat, d: nat)
    requires AskNone(autoOa, hist, now, c) && c <= d
    ensures AskNone(autoOa, hist, now, d)
  {
  }

  lemma AskNoneAppend(autoOa: bool, hist: seq<Workspace>, now: Time, c: nat, x: Workspace)
    requires AskNone(autoOa, hist, now, c) && ComputeDesiredReplicas(x, now) == 0
    ensures AskNone(autoOa, hist + [x], now, c)
  {
    assert forall i :: 0 <= i < |hist| ==> (hist + [x])[i] == hist[i];
  }

  /** Past the filling-in no version is left that asks for a replica. */
  lemma FilledAskNone(autoOa: bool, hist: seq<Workspace>, now: Time, c: nat, base: nat, i: nat)
    requires AskNone(autoOa, hist, now, c) && c <= base <= i < |hist|
    requires NeedsInit(hist[c].status) && !NeedsInit(hist[base].status)
    ensures !Asks(autoOa, hist[i], now)
  {
    assert base < i ==> Passed(hist, c, i);
  }

  ghost predicate AllExpired(w: World) {
    forall i :: w.ws.cache <= i < |w.ws.hist| ==> ComputeDesiredReplicas(w.ws.hist[i], w.clock) == 0
  }

  /** The setting of the label is behind, too. */
  predicate Labelled(r: Rec) {
    Filled(r) && !r.Inited? && !r.OaGot? && !r.OaSent?
  }

  /** The filling-in of a missing lastActiveTime is behind. */
  predicate Filled(r: Rec) {
    Working(r) && !r.Fetched? && !r.InitGot? && !r.InitSent?
  }

  predicate Working(r: Rec) {
    !r.Idle? && !r.Popped?
  }

  /** A send by anyone but the reconciler: an API handler, a user, the backfill. */
  predicate ForeignWrite(a: Action) {
    a.Out? && a.o.CallSend?
  }

  ghost predicate Absorbed(w: World, asleep: Workspace)
    requires Versions(w)
  {
    && Expired(asleep, w.clock)
    && Latest(w.ws).generation == asleep.generation && Latest(w.ws).spec == asleep.spec
    && Latest(w.ws).status.lastActive == asleep.status.lastActive
    && AllAskNone(w)
    && (w.rec.OaSent? ==> AllExpired(w))
    && Filling(w)
    && (Labelled(w.rec) ==> ComputeDesiredReplicas(Read(w), w.clock) == 0)
    && (Working(w.rec) && !BeforeDeploy(w.rec) ==> w.memo.want.replicas == 0)
    && (HasDecided(w.rec) ==> Leq(w.memo.decided.lastActive, asleep.status.lastActive))
  }

  /** Who asks for none now asks for none later. */
  lemma NoneLater(ws: Workspace, now: Time, later: Time)
    requires ComputeDesiredReplicas(ws, now) == 0 && now <= later
    ensures ComputeDesiredReplicas(ws, later) == 0
  {
  }

  lemma OutsideAbsorbed(w: World, asleep: Workspace, a: Outside)
    requires Versions(w) && Absorbed(w, asleep) && OutsideEnabled(w, a) && !a.CallSend? && Versions(DoOutside(w, a))
    ensures Absorbed(DoOutside(w, a), asleep)
  {
    if a.Tick? {
      forall ws: Workspace | ComputeDesiredReplicas(ws, w.clock) == 0
        ensures ComputeDesiredReplicas(ws, DoOutside(w, a).clock) == 0
      {
        NoneLater(ws, w.clock, DoOutside(w, a).clock);
      }
    }
  }

  lemma InformAbsorbed(w: World, asleep: Workspace, a: Inform)
    requires TimeInv(w) && Absorbed(w, asleep) && InformEnabled(w, a) && Versions(DoInform(w, a))
    ensures Absorbed(DoInform(w, a), asleep)
  {
    if a.DeliverWs? {
      AskNoneFurther(w.autoOa, w.ws.hist, w.clock, w.ws.cache, a.to);
    }
  }

  /** The writes of the reconciler itself change neither the spec nor lastActiveTime. */
  lemma CommitAbsorbed(w: World, asleep: Workspace, base: nat, write: Write)
    requires Versions(w) && Absorbed(w, asleep) && Accepted(w, base) && base < |w.ws.hist|
    requires Versions(Commit(w, base, write))
    requires write.InitStatus? || write.SetOa? ||
             (write.Record? && Leq(write.status.lastActive, asleep.status.lastActive))
    ensures Absorbed(Commit(w, base, write), asleep)
  {
    var v := Commit(w, base, write);
    assert Latest(v.ws) == Apply(write, Latest(w.ws));
    assert Read(v) == Read(w) && Cached(v.ws) == Cached(w.ws);
    assert forall i :: 0 <= i < |w.ws.hist| ==> v.ws.hist[i] == w.ws.hist[i];
    assert v.ws.hist == w.ws.hist + [Latest(v.ws)];
    AskNoneAppend(w.autoOa, w.ws.hist, w.clock, w.ws.cache, Latest(v.ws));
    if w.rec.Fetched? || w.rec.InitGot? {
      AskNoneAppend(w.autoOa, w.ws.hist, w.clock, w.memo.rd, Latest(v.ws));
    }
  }

  lemma InitSendAbsorbed(w: World, asleep: Workspace, now: Time)
    requires TimeInv(w) && Absorbed(w, asleep) && PrepareEnabled(w, InitSend(now)) && Versions(DoPrepare(w, InitSend(now)))
    ensures Absorbed(DoPrepare(w, InitSend(now)), asleep)
  {
    if !NeedsInit(w.ws.hist[w.rec.base].status) {
      forall i | w.ws.cache <= i < |w.ws.hist| ensures !Asks(w.autoOa, w.ws.hist[i], w.clock) {
        FilledAskNone(w.autoOa, w.ws.hist, w.clock, w.memo.rd, w.rec.base, i);
      }
    } else if Accepted(w, w.rec.base) {
      InitStoredAbsorbed(w, asleep, now);
    }
  }

  lemma InitStoredAbsorbed(w: World, asleep: Workspace, now: Time)
    requires Versions(w) && Absorbed(w, asleep) && w.rec.InitGot? && Accepted(w, w.rec.base)
    requires Versions(Commit(w, w.rec.base, InitStatus(now)))
    ensures Versions(Commit(w, w.rec.base, InitStatus(now)).(rec := InitSent))
    ensures Absorbed(Commit(w, w.rec.base, InitStatus(now)).(rec := InitSent), asleep)
  {
    CommitAbsorbed(w, asleep, w.rec.base, InitStatus(now));
    var hist := Commit(w, w.rec.base, InitStatus(now)).ws.hist;
    assert hist[w.rec.base] == Latest(w.ws);
  }

  lemma OaSendAbsorbed(w: World, asleep: Workspace)
    requires TimeInv(w) && Absorbed(w, asleep) && w.rec.OaGot? && Versions(DoPrepare(w, OaSend))
    ensures Absorbed(DoPrepare(w, OaSend), asleep)
  {
    if Accepted(w, w.rec.base) {
      OaStoredAbsorbed(w, asleep, SetOa(OaValue(Read(w))));
    }
  }

  lemma OaStoredAbsorbed(w: World, asleep: Workspace, write: Write)
    requires Versions(w) && Absorbed(w, asleep) && w.rec.OaGot? && Accepted(w, w.rec.base) && write.SetOa?
    requires Versions(Commit(w, w.rec.base, write))
    ensures Versions(Commit(w, w.rec.base, write).(rec := OaSent))
    ensures Absorbed(Commit(w, w.rec.base, write).(rec := OaSent), asleep)
  {
    CommitAbsorbed(w, asleep, w.rec.base, write);
    var hist := Commit(w, w.rec.base, write).ws.hist;
    assert hist[w.rec.base] == Latest(w.ws);
  }

  lemma PrepareAbsorbed(w: World, asleep: Workspace, a: Prepare)
    requires TimeInv(w) && Absorbed(w, asleep) && PrepareEnabled(w, a) && Versions(DoPrepare(w, a))
    ensures Absorbed(DoPrepare(w, a), asleep)
  {
    match a
    case InitSend(now) => InitSendAbsorbed(w, asleep, now);
    case OaSend => OaSendAbsorbed(w, asleep);
    case _ =>
  }

  lemma ActAbsorbed(w: World, asleep: Workspace, a: Act)
    requires TimeInv(w) && Absorbed(w, asleep) && ActEnabled(w, a) && Versions(DoAct(w, a))
    ensures Absorbed(DoAct(w, a), asleep)
  {
    match a
    case Judge(found, pod, links) => JudgeAbsorbed(w, asleep, found, pod, links);
    case RecordSend => RecordSendAbsorbed(w, asleep);
    case DeployGet => DeployGetAbsorbed(w, asleep);
    case DeploySend => DeploySendAbsorbed(w, asleep);
    case _ =>
  }

  lemma DeployGetAbsorbed(w: World, asleep: Workspace)
    requires Versions(w) && Absorbed(w, asleep) && w.rec.Ready?
    ensures Absorbed(DoAct(w, DeployGet), asleep)
  {
  }

  lemma DeploySendAbsorbed(w: World, asleep: Workspace)
    requires Versions(w) && Absorbed(w, asleep) && w.rec.DeployGot? && Versions(DoAct(w, DeploySend))
    ensures Absorbed(DoAct(w, DeploySend), asleep)
  {
  }

  lemma RecordSendAbsorbed(w: World, asleep: Workspace)
    requires Versions(w) && Absorbed(w, asleep) && w.rec.RecordGot? && Versions(DoAct(w, RecordSend))
    ensures Absorbed(DoAct(w, RecordSend), asleep)
  {
    if Accepted(w, w.rec.base) {
      CommitAbsorbed(w, asleep, w.rec.base, Record(w.memo.decided));
    }
  }

  lemma JudgeAbsorbed(w: World, asleep: Workspace, found: bool, pod: Option<Pod>, links: string)
    requires TimeInv(w) && Absorbed(w, asleep) && w.rec.Deployed? && Versions(JudgeStatus(w, found, pod, links))
    ensures Absorbed(JudgeStatus(w, found, pod, links), asleep)
  {
    AscendingLeq(w.ws.hist, w.memo.rd, |w.ws.hist| - 1);
  }

  lemma StepAbsorbed(w: World, asleep: Workspace, a: Action)
    requires TimeInv(w) && Absorbed(w, asleep) && Enabled(w, a) && !ForeignWrite(a) && Versions(Step(w, a))
    ensures Absorbed(Step(w, a), asleep)
  {
    match a
    case Out(o) => OutsideAbsorbed(w, asleep, o);
    case Inf(i) => InformAbsorbed(w, asleep, i);
    case Pre(p) => PrepareAbsorbed(w, asleep, p);
    case Do(d) => ActAbsorbed(w, asleep, d);
  }

  /** What the latest reconcile wants is decided in one place. */
  lemma StepKeepsWant(w: World, a: Action)
    requires Versions(w) && Enabled(w, a) && a != Do(DeployGet)
    ensures Step(w, a).memo.want == w.memo.want
  {
    match a
    case Out(o) =>
    case Inf(i) =>
    case Pre(p) =>
    case Do(d) =>
  }

  lemma {:induction false} StaysAbsorbed(run: seq<World>, acts: seq<Action>, asleep: Workspace, m: nat, n: nat)
    requires IsRun(run, acts) && m <= n < |run| && Versions(run[m]) && Absorbed(run[m], asleep)
    requires forall i {:trigger acts[i]} :: m <= i < n ==> !ForeignWrite(acts[i])
    ensures TimeInv(run[n]) && Absorbed(run[n], asleep)
    decreases n
  {
    RunTime(run, acts, n);
    if m < n {
      StaysAbsorbed(run, acts, asleep, m, n - 1);
      StepAbsorbed(run[n - 1], asleep, acts[n - 1]);
    }
  }

  lemma {:induction false} WantsNoneAfter(run: seq<World>, acts: seq<Action>, asleep: Workspace, m: nat, i: nat, n: nat)
    requires IsRun(run, acts) && m <= i < n < |run| && Versions(run[m]) && Absorbed(run[m], asleep)
    requires forall j {:trigger acts[j]} :: m <= j < n ==> !ForeignWrite(acts[j])
    requires acts[i] == Do(DeployGet)
    ensures run[n].memo.want.replicas == 0
    decreases n
  {
    if acts[n - 1] == Do(DeployGet) {
      StaysAbsorbed(run, acts, asleep, m, n);
    } else {
      WantsNoneAfter(run, acts, asleep, m, i, n - 1);
      RunInv(run, acts, n - 1);
      StepKeepsWant(run[n - 1], acts[n - 1]);
    }
  }

  /** Sleep is absorbing. Suppose no reconcile is in flight, the stored idle window is over, and no version from
      the cached one to the stored one, to which a reconcile can get, asks for a replica. As long as nobody but the
      operator writes, the spec and lastActiveTime stay as they are, every reconcile
      computes 0 replicas whatever the number of ready replicas, and once such a reconcile
      has been made and everything has settled, the stored Deployment has 0 replicas. */
  lemma SleepIsAbsorbing(run: seq<World>, acts: seq<Action>, m: nat, n: nat)
    requires IsRun(run, acts) && m <= n < |run|
    requires run[m].rec.Idle? && run[m].ws.hist != [] && Expired(Latest(run[m].ws), run[m].clock)
    requires AllAskNone(run[m])
    requires forall i {:trigger acts[i]} :: m <= i < n ==> !ForeignWrite(acts[i])
    ensures run[n].ws.hist != [] && Latest(run[n].ws).spec == Latest(run[m].ws).spec
    ensures Latest(run[n].ws).status.lastActive == Latest(run[m].ws).status.lastActive
    ensures Working(run[n].rec) && !BeforeDeploy(run[n].rec) ==> run[n].memo.want.replicas == 0
    ensures (exists i :: m <= i < n && acts[i] == Do(DeployGet)) ==> run[n].memo.want.replicas == 0
    ensures (exists i :: m <= i < n && acts[i] == Do(DeployGet) && TellsLives(run, acts, i, n)) && Quiescent(run[n]) ==>
              AsWanted(run[n]) && Latest(run[n].ds).value.replicas == 0
  {
    RunTime(run, acts, m);
    var w := run[m];
    StaysAbsorbed(run, acts, Latest(w.ws), m, n);
    if i :| m <= i < n && acts[i] == Do(DeployGet) {
      WantsNoneAfter(run, acts, Latest(w.ws), m, i, n);
    }
    if i :| m <= i < n && acts[i] == Do(DeployGet) && TellsLives(run, acts, i, n) && Quiescent(run[n]) {
      assert Follows(run[i], acts[i], run[i + 1]);
      DeploymentConverges(run, acts, i, n);
    }
  }

  // ----- and when it is not -----

  lemma GetVersion(u: World, w: World, i: nat) returns (v: World)
    requires Leads(u, w) && Inv(w) && w.ws.cache <= i < |w.ws.hist|
    ensures Leads(u, v) && Inv(v) && v.rec == w.rec && v.memo == w.memo && v.ws.hist == w.ws.hist && v.ws.cache == i
    ensures v.clock == w.clock && v.autoOa == w.autoOa
  {
    v := w;
    if w.ws.cache < i {
      v := Go(u, v, Inf(DeliverWs(i)));
    }
  }

  /** From an idle state the cache gets version `i` and a reconcile reads it. */
  lemma ReadVersion(u: World, w: World, i: nat) returns (v: World)
    requires Leads(u, w) && Inv(w) && w.rec.Idle? && w.ws.cache <= i < |w.ws.hist|
    ensures Leads(u, v) && Inv(v) && v.rec.Fetched? && v.ws.hist == w.ws.hist && v.ws.cache == v.memo.rd == i
    ensures v.clock == w.clock && v.autoOa == w.autoOa
  {
    v := GetVersion(u, w, i);
    v := Go(u, v, Inf(Enqueue));
    v := Go(u, v, Pre(Pop(false)));
    v := Go(u, v, Pre(Fetch));
  }

  /** What has been read at `a` is to be filled in, at `j` somebody has done so, and version `i` is what the second
      read finds. */
  lemma PassTo(u: World, w: World, j: nat, i: nat) returns (v: World)
    requires Leads(u, w) && Inv(w) && w.rec.Fetched? && w.ws.cache < j < i < |w.ws.hist|
    requires NeedsInit(Read(w).status) && !NeedsInit(w.ws.hist[j].status)
    ensures Leads(u, v) && Inv(v) && v.rec.Inited? && v.ws.hist == w.ws.hist && v.memo.rd == i
    ensures v.clock == w.clock && v.autoOa == w.autoOa
  {
    v := GetVersion(u, w, j);
    v := Go(u, v, Pre(InitGet));
    v := Go(u, v, Pre(InitSend(v.clock)));
    v := GetVersion(u, v, i);
    v := Go(u, v, Pre(Refetch));
  }

  /** The other way round: if some version from the cached one to the stored one asks for a replica, and a
      reconcile can get to it, then without any step from outside a reconcile can follow that
      wants a replica. */
  lemma SleepCanEnd(w: World) returns (v: World)
    requires Inv(w) && w.rec.Idle? && !AllAskNone(w)
    ensures Leads(w, v) && v.rec.DeployGot? && v.memo.want.replicas != 0
  {
    var i :| w.ws.cache <= i < |w.ws.hist| && Asks(w.autoOa, w.ws.hist[i], w.clock)
             && (NeedsInit(w.ws.hist[i].status) ==> Passed(w.ws.hist, w.ws.cache, i));
    Stay(w);
    if NeedsInit(w.ws.hist[i].status) {
      var a, j :| w.ws.cache <= a < j < i && NeedsInit(w.ws.hist[a].status) && !NeedsInit(w.ws.hist[j].status);
      v := ReadVersion(w, w, a);
      v := PassTo(w, v, j, i);
    } else {
      v := ReadVersion(w, w, i);
      v := Go(w, v, Pre(InitSkip));
    }
    v := Go(w, v, Pre(OaSkip));
    v := Go(w, v, Do(DeployGet));
  }

  /** A path continues the run that led to its start. */
  lemma {:induction false} PathExtends(run: seq<World>, acts: seq<Action>, more: seq<Action>, v: World)
    returns (run': seq<World>, acts': seq<Action>)
    requires IsRun(run, acts) && Path(run[|acts|], more, v)
    ensures IsRun(run', acts') && run <= run' && acts' == acts + more && run'[|acts'|] == v
    decreases |more|
  {
    if more == [] {
      run', acts' := run, acts;
    } else {
      run', acts' := Extend(run, acts, more[0]);
      run', acts' := PathExtends(run', acts', more[1..], v);
      assert acts + [more[0]] + more[1..] == acts + more;
    }
  }

  lemma {:induction false} PathHasNoForeignWrite(w: World, acts: seq<Action>, v: World, i: nat)
    requires Path(w, acts, v) && i < |acts|
    ensures !ForeignWrite(acts[i])
    decreases |acts|
  {
    if i > 0 {
      PathHasNoForeignWrite(Step(w, acts[0]), acts[1..], v, i - 1);
    }
  }

  /** So the condition is exact: in an idle state whose window is over, the operator by itself will never want a replica
      again if and only if no version to which a reconcile can get asks for one. */
  lemma SleepIsAbsorbingIff(run: seq<World>, acts: seq<Action>)
    requires IsRun(run, acts) && run[|acts|].rec.Idle? && run[|acts|].ws.hist != []
    requires Expired(Latest(run[|acts|].ws), run[|acts|].clock)
    ensures AllAskNone(run[|acts|]) <==>
            forall v :: Leads(run[|acts|], v) && v.rec.DeployGot? ==> v.memo.want.replicas == 0
  {
    var w, m := run[|acts|], |acts|;
    RunInv(run, acts, m);
    if AllAskNone(w) {
      forall v | Leads(w, v) && v.rec.DeployGot? ensures v.memo.want.replicas == 0 {
        var more :| Path(w, more, v);
        var run', acts' := PathExtends(run, acts, more, v);
        forall i | m <= i < |acts'| ensures !ForeignWrite(acts'[i]) { PathHasNoForeignWrite(w, more, v, i - m); }
        SleepIsAbsorbing(run', acts', m, |acts'|);
      }
    } else {
      var v := SleepCanEnd(w);
    }
  }
}
