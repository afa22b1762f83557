/**
When the status half of a reconcile finds a lastActiveTime to count from. The reconcile fills a missing
one in before it starts, but then reads the Workspace again, through a cache that need not have
the filled-in version yet; the idle calculation takes it for granted.
*/
module NoCrash {
  import opened Wrappers
  import opened Lifecycle
  import opened Protocol
  import opened Convergence
  import opened Timestamps

  // ----- the branch that fails -----

  /** The status half gets to the idle calculation, and does not start a new window before that. */
  predicate CountsFromStored(ws: Workspace, replicas: int, deploy: Option<Deploy>) {
    && ws.spec.idle.Window? && !Inactive(ws.status.phase)
    && if deploy.None? then ws.status.phase.Running?
       else !ws.spec.stopped && replicas != 0 && deploy.value.ready > 0
  }

  lemma CrashesIff(ws: Workspace, replicas: int, deploy: Option<Deploy>, pod: Option<Pod>, links: string, now: Time)
    ensures Evaluate(ws, replicas, deploy, pod, links, now).Crash? <==>
            ws.status.lastActive.None? && CountsFromStored(ws, replicas, deploy)
  {
  }

  // ----- what the reconcile has read -----

  predicate Reads(a: Action) {
    a.Pre? && (a.p.Fetch? || a.p.Refetch? || a.p.OaRefetch?)
  }

  /** The last step before `n` that read the Workspace. */
  function LastRead(acts: seq<Action>, n: nat): (m: nat)
    requires n <= |acts|
    ensures m <= n
  {
    if n == 0 then 0 else if Reads(acts[n - 1]) then n - 1 else LastRead(acts, n - 1)
  }

  predicate HasRead(r: Rec) {
    !r.Idle? && !r.Popped?
  }

  predicate PastInit(r: Rec) {
    HasRead(r) && !r.Fetched? && !r.InitGot? && !r.InitSent?
  }

  lemma StepReads(w: World, a: Action)
    requires Versions(w) && Enabled(w, a)
    ensures Reads(a) ==> Step(w, a).memo.rd == w.ws.cache
    ensures !Reads(a) ==> Step(w, a).memo.rd == w.memo.rd && (HasRead(Step(w, a).rec) ==> HasRead(w.rec))
  {
    match a
    case Out(o) =>
    case Inf(i) =>
    case Pre(p) =>
    case Do(d) =>
  }

  lemma {:induction false} LastReadIsRead(run: seq<World>, acts: seq<Action>, n: nat)
    requires IsRun(run, acts) && n < |run| && HasRead(run[n].rec)
    ensures var m := LastRead(acts, n); m < n && Reads(acts[m]) && run[n].memo.rd == run[m].ws.cache
  {
    StepReads(run[n - 1], acts[n - 1]);
    if !Reads(acts[n - 1]) {
      LastReadIsRead(run, acts, n - 1);
    }
  }

  /** The version at hand is the one that the cache held at the last read. */
  lemma VersionAtHand(run: seq<World>, acts: seq<Action>, n: nat)
    requires IsRun(run, acts) && n < |run| && HasRead(run[n].rec)
    ensures var m := LastRead(acts, n);
            m < n && Reads(acts[m]) && Versions(run[m]) && Versions(run[n])
            && Read(run[n]) == Cached(run[m].ws)
  {
    var m := LastRead(acts, n);
    LastReadIsRead(run, acts, n);
    RunInv(run, acts, m);
    RunInv(run, acts, n);
    RunExtends(run, acts, m, n);
  }

  // ----- a lastActiveTime is at hand -----

  /** The read that follows the filling-in finds it, in whatever version. */
  predicate FindsActive(w: World, a: Action)
    requires Versions(w)
  {
    a.Pre? && a.p.Refetch? ==> Cached(w.ws).status.lastActive.Some?
  }

  ghost predicate HasActive(w: World)
    requires Versions(w)
  {
    PastInit(w.rec) ==> Read(w).status.lastActive.Some?
  }

  lemma StepKeepsActive(w: World, a: Action)
    requires TimeInv(w) && HasActive(w) && Enabled(w, a) && FindsActive(w, a) && Versions(Step(w, a))
    ensures HasActive(Step(w, a))
  {
    match a
    case Out(o) =>
    case Inf(i) =>
    case Pre(p) => PrepareKeepsActive(w, p);
    case Do(d) => ActKeepsActive(w, d);
  }

  lemma PrepareKeepsActive(w: World, a: Prepare)
    requires TimeInv(w) && HasActive(w) && PrepareEnabled(w, a) && FindsActive(w, Pre(a)) && Versions(DoPrepare(w, a))
    ensures HasActive(DoPrepare(w, a))
  {
    if a.OaRefetch? {
      AscendingLeq(w.ws.hist, w.memo.rd, w.ws.cache);
    }
  }

  lemma ActKeepsActive(w: World, a: Act)
    requires Versions(w) && HasActive(w) && ActEnabled(w, a) && Versions(DoAct(w, a))
    ensures HasActive(DoAct(w, a))
  {
  }

  lemma {:induction false} RunKeepsActive(run: seq<World>, acts: seq<Action>, n: nat)
    requires IsRun(run, acts) && n < |run|
    requires forall i {:trigger acts[i]} :: 0 <= i < n ==> FindsActive(run[i], acts[i])
    ensures Versions(run[n]) && HasActive(run[n])
  {
    RunTime(run, acts, n);
    if n > 0 {
      RunKeepsActive(run, acts, n - 1);
      RunTime(run, acts, n - 1);
      StepKeepsActive(run[n - 1], acts[n - 1]);
    }
  }

  /** If the read after the filling-in always finds a lastActiveTime, the status half never meets a missing one,
      whatever else is stale. */
  lemma StatusHalfNeverCrashes(run: seq<World>, acts: seq<Action>, n: nat, deploy: Option<Deploy>, pod: Option<Pod>,
                               links: string)
    requires IsRun(run, acts) && n < |run| && run[n].rec.Deployed?
    requires forall i {:trigger acts[i]} :: 0 <= i < n ==> FindsActive(run[i], acts[i])
    ensures Versions(run[n])
    ensures Evaluate(Read(run[n]), run[n].memo.want.replicas, deploy, pod, links, run[n].clock).Evaluated?
  {
    RunKeepsActive(run, acts, n);
  }

  // ----- exactly when -----

  /** After a first read that was enough a lastActiveTime is at hand. */
  lemma {:induction false} FirstReadSuffices(run: seq<World>, acts: seq<Action>, n: nat)
    requires IsRun(run, acts) && n < |run| && PastInit(run[n].rec)
    requires LastRead(acts, n) < n && acts[LastRead(acts, n)] == Pre(Fetch)
    ensures Versions(run[n]) && Read(run[n]).status.lastActive.Some?
  {
    var w, a := run[n - 1], acts[n - 1];
    RunInv(run, acts, n);
    RunInv(run, acts, n - 1);
    RunExtends(run, acts, n - 1, n);
    StepReads(w, a);
    if a != Pre(InitSkip) {
      StepPastInit(w, a);
      FirstReadSuffices(run, acts, n - 1);
    }
  }

  lemma StepPastInit(w: World, a: Action)
    requires Versions(w) && Enabled(w, a) && PastInit(Step(w, a).rec) && !Reads(a) && a != Pre(InitSkip)
    ensures PastInit(w.rec)
  {
    match a
    case Out(o) =>
    case Inf(i) =>
    case Pre(p) =>
    case Do(d) =>
  }

  /** In every run the status half dereferences nil if and only if the last read of the Workspace found no
      lastActiveTime in the cache and the version it found leads to the idle calculation; and that read is
      never the first one of the reconcile. */
  lemma StatusHalfCrashesIff(run: seq<World>, acts: seq<Action>, n: nat, deploy: Option<Deploy>, pod: Option<Pod>,
                             links: string)
    requires IsRun(run, acts) && n < |run| && run[n].rec.Deployed?
    ensures LastRead(acts, n) < n && Versions(run[n]) && Versions(run[LastRead(acts, n)])
    ensures var found := Cached(run[LastRead(acts, n)].ws);
            var w := run[n];
            && (Evaluate(Read(w), w.memo.want.replicas, deploy, pod, links, w.clock).Crash? <==>
                found.status.lastActive.None? && CountsFromStored(found, w.memo.want.replicas, deploy))
            && (found.status.lastActive.None? ==> acts[LastRead(acts, n)] != Pre(Fetch))
  {
    VersionAtHand(run, acts, n);
    var w := run[n];
    CrashesIff(Read(w), w.memo.want.replicas, deploy, pod, links, w.clock);
    if acts[LastRead(acts, n)] == Pre(Fetch) {
      FirstReadSuffices(run, acts, n);
    }
  }

  // ----- a run in which it happens -----

  /** A Workspace without any status whose Deployment exists and is ready. */
  const FRESH: World :=
    var ws := Workspace(1, Spec(false, Window(SECOND), map[]), map[], Status(Unset, "", "", None, None));
    var template := Template(map[], map[]);
    World(false, 0, Watch([ws], 0, []), [], Watch([Some(Deploy(1, 1, template, 1))], 0, []),
          Queue(true, false, None), Idle, Memo(0, Want(1, template), 0, None, None, "", 0, ws.status, None), map[])

  lemma FilledIn() returns (run: seq<World>, acts: seq<Action>)
    ensures IsRun(run, acts)
    ensures var ws := FRESH.ws.hist[0];
            run[|acts|] == FRESH.(rec := InitSent, queue := Queue(false, false, None), log := [InitStatus(0)],
                                  ws := FRESH.ws.(hist := [ws, Apply(InitStatus(0), ws)]))
  {
    run, acts := [FRESH], [];
    run, acts := Extend(run, acts, Pre(Pop(false)));
    run, acts := Extend(run, acts, Pre(Fetch));
    run, acts := Extend(run, acts, Pre(InitGet));
    run, acts := Extend(run, acts, Pre(InitSend(0)));
  }

  lemma ReadAgain() returns (run: seq<World>, acts: seq<Action>)
    ensures IsRun(run, acts)
    ensures var ws := FRESH.ws.hist[0];
            run[|acts|] == FRESH.(rec := Ready, queue := Queue(false, false, None), log := [InitStatus(0)],
                                  ws := FRESH.ws.(hist := [ws, Apply(InitStatus(0), ws)]))
  {
    run, acts := FilledIn();
    run, acts := Extend(run, acts, Pre(Refetch));
    run, acts := Extend(run, acts, Pre(OaSkip));
  }

  /** The second read comes from a cache without the filled-in status, and the Deployment is ready: the idle
      calculation dereferences a time that is not there. */
  lemma StaleRefetchCrashes() returns (run: seq<World>, acts: seq<Action>)
    ensures IsRun(run, acts) && Versions(run[|acts|]) && run[|acts|].rec.Deployed?
    ensures Latest(run[|acts|].ws).status.lastActive.Some?
    ensures Evaluate(Read(run[|acts|]), run[|acts|].memo.want.replicas, Cached(run[|acts|].ds), None, "",
                     run[|acts|].clock).Crash?
  {
    run, acts := ReadAgain();
    run, acts := Extend(run, acts, Do(DeployGet));
    run, acts := Extend(run, acts, Do(DeploySend));
  }
}
