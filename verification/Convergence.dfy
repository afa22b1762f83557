/**
Invariants of every run of the protocol: the writers are serializable, and the Deployment
converges in spite of stale caches and dropped events.
*/
module Convergence {
  import opened Wrappers
  import opened Lifecycle
  import opened Protocol

  // ----- histories -----

  /** Every version after the first is one accepted write applied to the version before it. */
  ghost predicate Serial(hist: seq<Workspace>, log: seq<Write>) {
    && |hist| == |log| + 1
    && forall i {:trigger log[i]} :: 0 <= i < |log| ==> Sends(log[i], hist[i]) && hist[i + 1] == Apply(log[i], hist[i])
  }

  /** Within one life of the Deployment the generation never goes back, and it changes whenever the spec does. */
  predicate DStep(a: Option<Deploy>, b: Option<Deploy>) {
    a.Some? && b.Some? ==>
      a.value.generation <= b.value.generation &&
      (a.value.generation == b.value.generation ==>
         a.value.replicas == b.value.replicas && a.value.template == b.value.template)
  }

  ghost predicate DSerial(hist: seq<Option<Deploy>>) {
    hist != [] && forall i :: 0 < i < |hist| ==> DStep(hist[i - 1], hist[i])
  }

  /** Every deletion and every creation starts another life: how many there were up to version `i`. */
  function Life(hist: seq<Option<Deploy>>, i: nat): nat
    requires i < |hist|
  {
    if i == 0 then 0 else Life(hist, i - 1) + if hist[i - 1].Some? != hist[i].Some? then 1 else 0
  }

  lemma {:induction false} LifeStays(hist: seq<Option<Deploy>>, more: seq<Option<Deploy>>, i: nat)
    requires hist <= more && i < |hist|
    ensures Life(more, i) == Life(hist, i)
  {
    if i > 0 {
      LifeStays(hist, more, i - 1);
    }
  }

  /** The generation of a Workspace never goes back, and it changes whenever the spec does. */
  lemma {:induction false} GenerationTellsSpec(hist: seq<Workspace>, log: seq<Write>, i: nat, j: nat)
    requires Serial(hist, log) && i <= j < |hist|
    ensures hist[i].generation <= hist[j].generation
    ensures hist[i].generation == hist[j].generation ==> hist[i].spec == hist[j].spec
    decreases j
  {
    if i < j {
      GenerationTellsSpec(hist, log, i, j - 1);
      assert hist[j - 1 + 1] == Apply(log[j - 1], hist[j - 1]);
    }
  }

  lemma {:induction false} DGenerationTellsSpec(hist: seq<Option<Deploy>>, i: nat, j: nat)
    requires DSerial(hist) && i <= j < |hist|
    ensures Life(hist, i) <= Life(hist, j)
    ensures Life(hist, i) == Life(hist, j) ==> hist[i].Some? == hist[j].Some? && DStep(hist[i], hist[j])
    decreases j
  {
    if i < j {
      assert DStep(hist[j - 1], hist[j]);
      DGenerationTellsSpec(hist, i, j - 1);
    }
  }

  // ----- what an event still to be handled will bring -----

  ghost predicate WsNews(s: Watch<Workspace>)
    requires WatchOk(s)
  {
    exists e <- s.events :: !WsSame(s.hist[e.0], s.hist[e.1])
  }

  /** What was read at version `rd` is up to date with the cache, or news is on its way. */
  ghost predicate WsFresh(s: Watch<Workspace>, rd: nat)
    requires WatchOk(s) && rd < |s.hist|
  {
    WsNews(s) || WsSame(s.hist[rd], Cached(s))
  }

  ghost predicate DNews(s: Watch<Option<Deploy>>)
    requires WatchOk(s)
  {
    exists e <- s.events :: !DSame(s.hist[e.0], s.hist[e.1])
  }

  /** Two versions of the same life and the same generation. */
  ghost predicate DGenSame(hist: seq<Option<Deploy>>, i: nat, j: nat)
    requires i < |hist| && j < |hist|
  {
    && Life(hist, i) == Life(hist, j) && hist[i].Some? == hist[j].Some?
    && (hist[i].Some? ==> hist[i].value.generation == hist[j].value.generation)
  }

  /** The Deployment as read at version `dd` has the spec of the cached one, or news is on its way. */
  ghost predicate DFresh(s: Watch<Option<Deploy>>, dd: nat)
    requires WatchOk(s) && dd < |s.hist|
  {
    DNews(s) || DGenSame(s.hist, dd, s.cache)
  }

  /** The same for everything the Deployment watch reacts to. */
  ghost predicate DJudged(s: Watch<Option<Deploy>>, dd: nat)
    requires WatchOk(s) && dd < |s.hist|
  {
    DNews(s) || DSame(s.hist[dd], Cached(s))
  }

  /** The cached Deployment is as wanted, or it is known to be behind, or news is on its way. */
  ghost predicate DSettled(s: Watch<Option<Deploy>>, want: Want)
    requires WatchOk(s)
  {
    DNews(s) || !DGenSame(s.hist, s.cache, |s.hist| - 1) || (Cached(s).Some? && Matches(Cached(s).value, want))
  }

  lemma DNewsAppend(s: Watch<Option<Deploy>>, x: Option<Deploy>)
    requires WatchOk(s)
    ensures WatchOk(Append(s, x)) && (DNews(s) ==> DNews(Append(s, x)))
    ensures Cached(Append(s, x)) == Cached(s)
  {
    if DNews(s) {
      var e :| e in s.events && !DSame(s.hist[e.0], s.hist[e.1]);
      assert e in Append(s, x).events;
    }
  }

  lemma DNewsDeliver(s: Watch<Option<Deploy>>, to: nat)
    requires WatchOk(s) && to < |s.hist|
    ensures WatchOk(Deliver(s, to))
    ensures DNews(Deliver(s, to)) <==> DNews(s) || !DSame(Cached(s), s.hist[to])
  {
    var t := Deliver(s, to);
    assert t.events[|s.events|] == (s.cache, to);
    assert (s.cache, to) in t.events;
    if DNews(s) {
      var e :| e in s.events && !DSame(s.hist[e.0], s.hist[e.1]);
      assert e in t.events;
    }
  }

  lemma DNewsHandle(s: Watch<Option<Deploy>>)
    requires WatchOk(s) && s.events != []
    ensures WatchOk(s.(events := s.events[1..]))
    ensures DNews(s) ==> !DSame(s.hist[s.events[0].0], s.hist[s.events[0].1]) || DNews(s.(events := s.events[1..]))
  {
    if DNews(s) {
      var e :| e in s.events && !DSame(s.hist[e.0], s.hist[e.1]);
      assert e == s.events[0] || e in s.events[1..];
    }
  }

  /** The filter tells about the deliveries that pass over a deletion or a creation. */
  ghost predicate Told(s: Watch<Option<Deploy>>, to: nat)
    requires WatchOk(s) && to < |s.hist|
  {
    DSame(Cached(s), s.hist[to]) ==> Life(s.hist, s.cache) == Life(s.hist, to)
  }

  lemma DSettledAppend(s: Watch<Option<Deploy>>, x: Option<Deploy>, want: Want)
    requires WatchOk(s) && DSerial(s.hist) && DStep(Latest(s), x) && DSettled(s, want)
    ensures WatchOk(Append(s, x)) && DSerial(Append(s, x).hist) && DSettled(Append(s, x), want)
  {
    var t, last := Append(s, x), |s.hist| - 1;
    DNewsAppend(s, x);
    LifeStays(s.hist, t.hist, s.cache);
    LifeStays(s.hist, t.hist, last);
    DGenerationTellsSpec(s.hist, s.cache, last);
  }

  lemma DFreshAppend(s: Watch<Option<Deploy>>, x: Option<Deploy>, dd: nat)
    requires WatchOk(s) && dd < |s.hist| && DFresh(s, dd)
    ensures WatchOk(Append(s, x)) && DFresh(Append(s, x), dd)
  {
    DNewsAppend(s, x);
    LifeStays(s.hist, Append(s, x).hist, s.cache);
    LifeStays(s.hist, Append(s, x).hist, dd);
  }

  /** What the create-or-update half leaves is settled, whatever version it had read. */
  lemma SendSettles(s: Watch<Option<Deploy>>, dd: nat, want: Want)
    requires WatchOk(s) && DSerial(s.hist) && dd <= s.cache && DFresh(s, dd)
    requires SendDeploy(s, dd, want).Some? && WatchOk(SendDeploy(s, dd, want).value)
    ensures DSettled(SendDeploy(s, dd, want).value, want)
  {
    var t, last := SendDeploy(s, dd, want).value, |s.hist| - 1;
    DGenerationTellsSpec(s.hist, dd, s.cache);
    if t != s {
      DNewsAppend(s, Latest(t));
      LifeStays(s.hist, t.hist, s.cache);
      LifeStays(s.hist, t.hist, last);
      DGenerationTellsSpec(s.hist, s.cache, last);
    }
  }

  // ----- the invariant -----

  predicate Queued(q: Queue) {
    q.dirty || q.backoff
  }

  predicate BeforeDeploy(r: Rec) {
    r.Popped? || r.Fetched? || r.InitGot? || r.InitSent? || r.Inited? || r.OaGot? || r.OaSent? || r.Ready?
  }

  /** What the reconciler read of the Workspace is up to date, or more work is owed. */
  ghost predicate ReadFresh(w: World)
    requires Versions(w)
  {
    w.rec.Popped? || Queued(w.queue) || WsFresh(w.ws, w.memo.rd)
  }

  ghost predicate WantFresh(w: World)
    requires Versions(w)
  {
    BeforeDeploy(w.rec) || Queued(w.queue) || w.memo.want == WantOf(Read(w), w.memo.wantAt)
  }

  ghost predicate DeployFresh(w: World)
    requires Versions(w)
  {
    BeforeDeploy(w.rec) || Queued(w.queue) ||
    if w.rec.DeployGot? then DFresh(w.ds, w.rec.dd) else DSettled(w.ds, w.memo.want)
  }

  ghost predicate Inv(w: World) {
    && Versions(w) && Serial(w.ws.hist, w.log) && DSerial(w.ds.hist)
    && ReadFresh(w) && WantFresh(w)
  }

  lemma CommitInv(w: World, base: nat, write: Write)
    requires Inv(w) && Accepted(w, base) && base < |w.ws.hist| && Sends(write, w.ws.hist[base])
    ensures Inv(Commit(w, base, write))
  {
    var v := Commit(w, base, write);
    assert Read(v) == Read(w);
  }

  lemma OutsideInv(w: World, a: Outside)
    requires Inv(w) && OutsideEnabled(w, a)
    ensures Inv(DoOutside(w, a))
  {
    match a
    case Tick(_) =>
    case CallGet(_, _, _) =>
    case CallSend(id, now) =>
      var call := w.calls[id];
      var write := WriteOf(call.op, now);
      var rest := w.(calls := w.calls - {id});
      assert Inv(rest);
      if Sends(write, w.ws.hist[call.base]) && Accepted(w, call.base) {
        CommitInv(rest, call.base, write);
      }
    case EditDeploy(replicas, template) =>
      assert DStep(Latest(w.ds), Some(EditedDeploy(Latest(w.ds).value, replicas, template)));
    case SetReady(ready) =>
    case DeleteDeploy =>
  }

  lemma InformInv(w: World, a: Inform)
    requires Inv(w) && InformEnabled(w, a)
    ensures Inv(DoInform(w, a))
  {
    match a
    case DeliverWs(to) =>
    case HandleWs =>
    case _ =>
  }

  lemma PrepareInv(w: World, a: Prepare)
    requires Inv(w) && PrepareEnabled(w, a)
    ensures Inv(DoPrepare(w, a))
  {
    match a
    case InitSend(now) =>
      if NeedsInit(w.ws.hist[w.rec.base].status) && Accepted(w, w.rec.base) {
        CommitInv(w, w.rec.base, InitStatus(now));
      }
    case OaSend =>
      if Accepted(w, w.rec.base) {
        CommitInv(w, w.rec.base, SetOa(OaValue(Read(w))));
      }
    case _ =>
  }

  lemma DeploySendInv(w: World)
    requires Inv(w) && w.rec.DeployGot?
    ensures Inv(DoAct(w, DeploySend))
  {
  }

  lemma JudgeInv(w: World, found: bool, pod: Option<Pod>, links: string)
    requires Inv(w) && w.rec.Deployed?
    ensures Inv(JudgeStatus(w, found, pod, links))
  {
  }

  lemma ActInv(w: World, a: Act)
    requires Inv(w) && ActEnabled(w, a)
    ensures Inv(DoAct(w, a))
  {
    match a
    case DeploySend => DeploySendInv(w);
    case Judge(found, pod, links) => JudgeInv(w, found, pod, links);
    case RecordSend =>
      if Accepted(w, w.rec.base) {
        CommitInv(w, w.rec.base, Record(w.memo.decided));
      }
    case _ =>
  }

  lemma StepInv(w: World, a: Action)
    requires Inv(w) && Enabled(w, a)
    ensures Inv(Step(w, a))
  {
    match a
    case Out(o) => OutsideInv(w, o);
    case Inf(i) => InformInv(w, i);
    case Pre(p) => PrepareInv(w, p);
    case Do(d) => ActInv(w, d);
  }

  lemma {:induction false} RunInv(run: seq<World>, acts: seq<Action>, n: nat)
    requires IsRun(run, acts) && n < |run|
    ensures Inv(run[n])
  {
    if n > 0 {
      RunInv(run, acts, n - 1);
      StepInv(run[n - 1], acts[n - 1]);
    }
  }

  // ----- the Deployment, as long as no deletion is missed -----

  /** A delivery that hides nothing that still matters: the filter tells of the lives it passes over, or there
      is more work or news anyway, or what it delivers is known to be behind or is as wanted. */
  ghost predicate Harmless(w: World, to: nat)
    requires Versions(w) && to < |w.ds.hist|
  {
    || Told(w.ds, to) || BeforeDeploy(w.rec) || Queued(w.queue) || DNews(w.ds)
    || (!w.rec.DeployGot?
        && (!DGenSame(w.ds.hist, to, |w.ds.hist| - 1)
            || (w.ds.hist[to].Some? && Matches(w.ds.hist[to].value, w.memo.want))))
  }

  ghost predicate Tells(w: World, a: Action)
    requires Versions(w) && Enabled(w, a)
  {
    match a
    case Inf(DeliverD(to)) => Harmless(w, to)
    case _ => true
  }

  /** From `m` to `n` no delivery hides a life of the Deployment that matters. */
  ghost predicate TellsLives(run: seq<World>, acts: seq<Action>, m: nat, n: nat)
    requires IsRun(run, acts) && n < |run|
  {
    forall i {:trigger acts[i]} :: m <= i < n ==> Tells(run[i], acts[i])
  }

  /** The Deployment has not been read yet, or will be read again. */
  predicate Restarts(w: World) {
    BeforeDeploy(w.rec) || Queued(w.queue)
  }

  lemma DeployAppendFresh(w: World, x: Option<Deploy>)
    requires Inv(w) && DeployFresh(w) && DStep(Latest(w.ds), x)
    ensures Versions(w.(ds := Append(w.ds, x))) && DeployFresh(w.(ds := Append(w.ds, x)))
  {
    if w.rec.DeployGot? && DFresh(w.ds, w.rec.dd) {
      DFreshAppend(w.ds, x, w.rec.dd);
    }
    if DSettled(w.ds, w.memo.want) {
      DSettledAppend(w.ds, x, w.memo.want);
    }
  }

  lemma OutsideFresh(w: World, a: Outside)
    requires Inv(w) && DeployFresh(w) && OutsideEnabled(w, a) && Versions(DoOutside(w, a))
    ensures DeployFresh(DoOutside(w, a))
  {
    match a
    case EditDeploy(replicas, template) =>
      DeployAppendFresh(w, Some(EditedDeploy(Latest(w.ds).value, replicas, template)));
    case SetReady(ready) => DeployAppendFresh(w, Some(Latest(w.ds).value.(ready := ready)));
    case DeleteDeploy => DeployAppendFresh(w, None);
    case _ =>
  }

  /** That is exactly what a delivery needs in order to keep the Deployment fresh. */
  lemma DeliverFreshIff(w: World, to: nat)
    requires Inv(w) && DeployFresh(w) && InformEnabled(w, DeliverD(to)) && Versions(DoInform(w, DeliverD(to)))
    ensures DeployFresh(DoInform(w, DeliverD(to))) <==> Harmless(w, to)
  {
    if w.rec.DeployGot? {
      GotFreshIff(w.ds, to, w.rec.dd);
    } else {
      SettledFreshIff(w.ds, to, w.memo.want);
    }
  }

  lemma GotFreshIff(s: Watch<Option<Deploy>>, to: nat, dd: nat)
    requires WatchOk(s) && dd < |s.hist| && to < |s.hist|
    ensures DFresh(s, dd) ==> (DFresh(Deliver(s, to), dd) <==> Told(s, to) || DNews(s))
  {
    DNewsDeliver(s, to);
  }

  lemma SettledFreshIff(s: Watch<Option<Deploy>>, to: nat, want: Want)
    requires WatchOk(s) && DSerial(s.hist) && s.cache <= to < |s.hist|
    ensures DSettled(s, want) ==>
              (DSettled(Deliver(s, to), want) <==>
               Told(s, to) || DNews(s) || !DGenSame(s.hist, to, |s.hist| - 1)
               || (s.hist[to].Some? && Matches(s.hist[to].value, want)))
  {
    DNewsDeliver(s, to);
    DGenerationTellsSpec(s.hist, s.cache, to);
  }

  lemma InformFreshIff(w: World, a: Inform)
    requires Inv(w) && DeployFresh(w) && InformEnabled(w, a) && Versions(DoInform(w, a))
    ensures DeployFresh(DoInform(w, a)) <==> Tells(w, Inf(a))
  {
    match a
    case DeliverD(to) => DeliverFreshIff(w, to);
    case HandleD => DNewsHandle(w.ds);
    case _ =>
  }

  lemma ActFresh(w: World, a: Act)
    requires Inv(w) && DeployFresh(w) && ActEnabled(w, a) && Versions(DoAct(w, a))
    ensures DeployFresh(DoAct(w, a))
  {
    if a.DeploySend? && SendDeploy(w.ds, w.rec.dd, w.memo.want).Some? && !Queued(w.queue) {
      SendSettles(w.ds, w.rec.dd, w.memo.want);
    }
  }

  lemma PrepareFresh(w: World, a: Prepare)
    requires Inv(w) && DeployFresh(w) && PrepareEnabled(w, a) && Versions(DoPrepare(w, a))
    ensures DeployFresh(DoPrepare(w, a))
  {
  }

  lemma StepFreshIff(w: World, a: Action)
    requires Inv(w) && DeployFresh(w) && Enabled(w, a) && Versions(Step(w, a))
    ensures DeployFresh(Step(w, a)) <==> Tells(w, a)
  {
    match a
    case Out(o) => OutsideFresh(w, o);
    case Inf(i) => InformFreshIff(w, i);
    case Pre(p) => PrepareFresh(w, p);
    case Do(d) => ActFresh(w, d);
  }

  lemma {:induction false} RunFresh(run: seq<World>, acts: seq<Action>, m: nat, n: nat)
    requires IsRun(run, acts) && m <= n < |run| && Versions(run[m]) && DeployFresh(run[m])
    requires TellsLives(run, acts, m, n)
    ensures Inv(run[n]) && DeployFresh(run[n])
    decreases n
  {
    RunInv(run, acts, n);
    if m < n {
      RunFresh(run, acts, m, n - 1);
      NextFreshIff(run[n - 1], acts[n - 1], run[n]);
    }
  }

  lemma NextFreshIff(w: World, a: Action, v: World)
    requires Inv(w) && DeployFresh(w) && Follows(w, a, v) && Versions(v)
    ensures DeployFresh(v) <==> Tells(w, a)
  {
    StepFreshIff(w, a);
  }

  /** The stretches of a run that hide no life are exactly those throughout which the Deployment stays fresh. */
  lemma TellsIffFresh(run: seq<World>, acts: seq<Action>, m: nat, n: nat)
    requires IsRun(run, acts) && m <= n < |run| && Versions(run[m]) && DeployFresh(run[m])
    ensures TellsLives(run, acts, m, n) <==> forall k :: m <= k <= n ==> Versions(run[k]) && DeployFresh(run[k])
  {
    if TellsLives(run, acts, m, n) {
      forall k | m <= k <= n ensures Versions(run[k]) && DeployFresh(run[k]) { RunFresh(run, acts, m, k); }
    }
    if forall k :: m <= k <= n ==> Versions(run[k]) && DeployFresh(run[k]) {
      forall i | m <= i < n ensures Tells(run[i], acts[i]) {
        RunInv(run, acts, i);
        RunInv(run, acts, i + 1);
        NextFreshIff(run[i], acts[i], run[i + 1]);
      }
    }
  }

  // ----- serializability -----

  ghost predicate Extends(w: World, v: World) {
    w.ws.hist <= v.ws.hist && w.log <= v.log
  }

  lemma OutsideExtends(w: World, a: Outside)
    requires Versions(w) && OutsideEnabled(w, a)
    ensures Extends(w, DoOutside(w, a))
  {
  }

  lemma PrepareExtends(w: World, a: Prepare)
    requires Versions(w) && PrepareEnabled(w, a)
    ensures Extends(w, DoPrepare(w, a))
  {
  }

  lemma ActExtends(w: World, a: Act)
    requires Versions(w) && ActEnabled(w, a)
    ensures Extends(w, DoAct(w, a))
  {
  }

  lemma StepExtends(w: World, a: Action)
    requires Versions(w) && Enabled(w, a)
    ensures Extends(w, Step(w, a))
  {
    match a
    case Out(o) => OutsideExtends(w, o);
    case Inf(i) => assert DoInform(w, i).ws.hist == w.ws.hist;
    case Pre(p) => PrepareExtends(w, p);
    case Do(d) => ActExtends(w, d);
  }

  lemma {:induction false} RunExtends(run: seq<World>, acts: seq<Action>, m: nat, n: nat)
    requires IsRun(run, acts) && m <= n < |run|
    ensures Extends(run[m], run[n])
    decreases n
  {
    if m < n {
      RunExtends(run, acts, m, n - 1);
      RunInv(run, acts, n - 1);
      StepExtends(run[n - 1], acts[n - 1]);
    }
  }

  lemma {:induction false} SerialIsApplyAll(hist: seq<Workspace>, log: seq<Write>, n: nat)
    requires Serial(hist, log) && n < |hist|
    ensures hist[n] == ApplyAll(log[..n], hist[0])
  {
    if n > 0 {
      SerialIsApplyAll(hist, log, n - 1);
      assert log[..n][..n - 1] == log[..n - 1];
      assert hist[n - 1 + 1] == Apply(log[n - 1], hist[n - 1]);
    }
  }

  /** In every interleaving of reads and sends by all writers, the stored Workspace is the initial
      one with the accepted closures applied to it atomically, one after another, in the order
      in which they were accepted; and acceptance is final. */
  lemma WritersAreSerializable(run: seq<World>, acts: seq<Action>, m: nat, n: nat)
    requires IsRun(run, acts) && m <= n < |run|
    ensures run[m].log <= run[n].log
    ensures run[n].ws.hist != [] && Latest(run[n].ws) == ApplyAll(run[n].log, run[0].ws.hist[0])
  {
    RunInv(run, acts, n);
    RunExtends(run, acts, m, n);
    RunExtends(run, acts, 0, n);
    SerialIsApplyAll(run[n].ws.hist, run[n].log, |run[n].log|);
    assert run[n].log[..|run[n].log|] == run[n].log;
  }

  /** A field of the stored Workspace is what the last accepted write that sets it left. */
  lemma NoWriteReverted(run: seq<World>, acts: seq<Action>, n: nat, f: Field)
    requires IsRun(run, acts) && n < |run|
    ensures run[n].ws.hist != [] && LastAssigned(run[n].log, f) < |run[n].ws.hist|
    ensures Get(Latest(run[n].ws), f) == Get(run[n].ws.hist[LastAssigned(run[n].log, f)], f)
  {
    WritersAreSerializable(run, acts, n, n);
    RunInv(run, acts, n);
    RunExtends(run, acts, 0, n);
    LastWriterWins(run[n].log, run[0].ws.hist[0], f);
    SerialIsApplyAll(run[n].ws.hist, run[n].log, LastAssigned(run[n].log, f));
  }

  // ----- convergence -----

  /** What the latest reconcile worked with is what is stored. */
  lemma SettledRead(w: World)
    requires Inv(w) && Quiescent(w)
    ensures w.memo.want == WantOf(Latest(w.ws), w.memo.wantAt)
    ensures WsSame(Read(w), Latest(w.ws)) && Read(w).spec == Latest(w.ws).spec
  {
    GenerationTellsSpec(w.ws.hist, w.log, w.memo.rd, |w.ws.hist| - 1);
  }

  ghost predicate AsWanted(w: World) {
    w.ds.hist != [] && Latest(w.ds).Some? && Matches(Latest(w.ds).value, w.memo.want)
  }

  lemma SettledState(w: World)
    requires Inv(w) && Quiescent(w)
    ensures AsWanted(w) <==> DeployFresh(w)
    ensures w.memo.want == WantOf(Latest(w.ws), w.memo.wantAt)
    ensures WsSame(Read(w), Latest(w.ws)) && Read(w).spec == Latest(w.ws).spec
  {
    SettledRead(w);
  }

  /** What the stored Workspace asks for at a clock reading, field by field. */
  ghost predicate Renders(d: Deploy, ws: Workspace, now: Time) {
    && d.template.body == ws.spec.body && d.template.labels == ws.labels
    && d.replicas == if ws.spec.stopped
                        || (ws.spec.idle.Window? && ws.status.lastActive.Some?
                            && now > ws.status.lastActive.value + ws.spec.idle.ns)
                     then 0 else 1
  }

  /** In a settled state of any run the stored Deployment is what the stored Workspace asks for, at the clock
      reading of the last reconcile, if and only if it has stayed fresh. */
  lemma ConvergedIffFresh(run: seq<World>, acts: seq<Action>, n: nat)
    requires IsRun(run, acts) && n < |run| && Quiescent(run[n])
    ensures Versions(run[n])
    ensures Latest(run[n].ds).Some? && Renders(Latest(run[n].ds).value, Latest(run[n].ws), run[n].memo.wantAt)
            <==> DeployFresh(run[n])
  {
    RunInv(run, acts, n);
    SettledState(run[n]);
  }

  /** Whenever nothing is queued or running and the caches have caught up, the stored
      Deployment is what the stored Workspace asks for at the clock reading of the last
      reconcile: nothing depends on how stale earlier reads were, and a deleted Deployment
      has been created again. Deliveries matter only from a moment on at which the Deployment
      was still to be read; the beginning of the run is one. */
  lemma DeploymentConverges(run: seq<World>, acts: seq<Action>, m: nat, n: nat)
    requires IsRun(run, acts) && m <= n < |run| && Restarts(run[m]) && TellsLives(run, acts, m, n) && Quiescent(run[n])
    ensures run[n].ws.hist != [] && AsWanted(run[n])
    ensures Renders(Latest(run[n].ds).value, Latest(run[n].ws), run[n].memo.wantAt)
  {
    RunInv(run, acts, m);
    RunFresh(run, acts, m, n);
    SettledState(run[n]);
  }

  /** Scaling to 0 in the presence of a stored Workspace that asks for a replica can only come from
      a stale read, and then the change that was missed is still to be told or already queued. */
  lemma ZeroOnlyWhenIdleOrStale(run: seq<World>, acts: seq<Action>, n: nat)
    requires IsRun(run, acts) && n < |run| && run[n].rec.DeployGot? && run[n].memo.want.replicas == 0
    requires run[n].ws.hist != []
    requires var ws := Latest(run[n].ws);
             !ws.spec.stopped
             && (ws.spec.idle.Window? && ws.status.lastActive.Some? ==>
                   run[n].memo.wantAt <= ws.status.lastActive.value + ws.spec.idle.ns)
    ensures WatchOk(run[n].ws)
    ensures Queued(run[n].queue) || WsNews(run[n].ws) || !WsSame(Cached(run[n].ws), Latest(run[n].ws))
  {
    RunInv(run, acts, n);
    var w := run[n];
    GenerationTellsSpec(w.ws.hist, w.log, w.memo.rd, |w.ws.hist| - 1);
  }
}
