/**
One Workspace, its Deployment, the operator and the API server as a transition system.

Both objects are kept with their whole history; the position in the history is the
resource version. The operator reads through two caches that may lag behind by any
amount and may skip versions, and it is told about a cache change by an event that may be
handled later. An update is accepted when the version it was computed from is still the
latest one, and is refused otherwise. Every request to the API server, every read of a
cache and every read of the clock that matters is a step of its own, so that anything can
happen in between.
*/
module Protocol {
  import opened Wrappers
  import opened Lifecycle

  // ----- a stored object and the cache that follows it -----

  /** An event is a pair of versions: what the cache held before and what it holds after. */
  datatype Watch<T> = Watch(hist: seq<T>, cache: nat, events: seq<(nat, nat)>)

  predicate WatchOk<T>(s: Watch<T>) {
    s.cache < |s.hist| && forall e <- s.events :: e.0 < |s.hist| && e.1 < |s.hist|
  }

  function Latest<T>(s: Watch<T>): T
    requires s.hist != []
  {
    s.hist[|s.hist| - 1]
  }

  function Cached<T>(s: Watch<T>): T
    requires WatchOk(s)
  {
    s.hist[s.cache]
  }

  function Append<T>(s: Watch<T>, x: T): Watch<T> {
    s.(hist := s.hist + [x])
  }

  function Deliver<T>(s: Watch<T>, to: nat): Watch<T> {
    s.(cache := to, events := s.events + [(s.cache, to)])
  }

  predicate CaughtUp<T>(s: Watch<T>) {
    s.cache == |s.hist| - 1 && s.events == []
  }

  // ----- predicates of the two watches -----

  /** Nothing changed that the Workspace watch reacts to. */
  predicate WsSame(a: Workspace, b: Workspace) {
    a.generation == b.generation && a.labels == b.labels && a.status.lastActive == b.status.lastActive
  }

  /** Nothing changed that the Deployment watch reacts to. */
  predicate DSame(a: Option<Deploy>, b: Option<Deploy>) {
    match (a, b)
    case (Some(x), Some(y)) => x.generation == y.generation && x.ready == y.ready
    case (None, None) => true
    case _ => false
  }

  // ----- state -----

  /** The writers other than the reconciler: API handlers, users, and the startup backfill. */
  datatype Op =
    | StopOp | ResumeOp | TouchOp
    | RequestOp(req: SpecRequest)
    | EditOp(spec: Spec, labels: map<string, string>)
    | BackfillOp(at: Time)

  function WriteOf(op: Op, now: Time): Write {
    match op
    case StopOp => Stop
    case ResumeOp => Resume
    case TouchOp => Touch(now)
    case RequestOp(req) => Request(req)
    case EditOp(spec, labels) => Edit(spec, labels)
    case BackfillOp(at) => Backfill(at)
  }

  /** A closure that has fetched version `base` at time `since` and has not sent anything yet. */
  datatype Call = Call(op: Op, base: nat, since: Time)

  /** How far the reconcile of the key has come. */
  datatype Rec =
    | Idle
    | Popped
    | Fetched
    | InitGot(base: nat, since: Time)
    | InitSent
    | Inited
    | OaGot(base: nat)
    | OaSent
    | Ready
    | DeployGot(dd: nat)
    | Deployed
    | Judged
    | RecordGot(base: nat)
    | Finishing

  /** `dirty` also covers a key that was added again while it is being processed. */
  datatype Queue = Queue(dirty: bool, backoff: bool, timer: Option<Time>)

  /** The local variables of the latest reconcile: the version it works with (`rd`), what it
      wants of the Deployment and when it decided so, the Deployment version and the Pod its
      status half looked at, and what that half decided. */
  datatype Memo = Memo(rd: nat, want: Want, wantAt: Time,
                       judgedD: Option<nat>, pod: Option<Pod>, links: string, judgedAt: Time,
                       decided: Status, requeue: Option<int>)

  datatype World = World(
    autoOa: bool, clock: Time,
    ws: Watch<Workspace>, log: seq<Write>,
    ds: Watch<Option<Deploy>>,
    queue: Queue, rec: Rec, memo: Memo,
    calls: map<nat, Call>)

  /** All version numbers in use are versions that exist. */
  predicate Versions(w: World) {
    && WatchOk(w.ws) && WatchOk(w.ds)
    && w.memo.rd <= w.ws.cache
    && (w.memo.judgedD.Some? ==> w.memo.judgedD.value <= w.ds.cache)
    && (forall id <- w.calls :: w.calls[id].base < |w.ws.hist|)
    && (w.rec.InitGot? ==> w.rec.base <= w.ws.cache)
    && (w.rec.OaGot? ==> w.rec.base <= w.ws.cache)
    && (w.rec.RecordGot? ==> w.rec.base <= w.ws.cache)
    && (w.rec.DeployGot? ==> w.rec.dd <= w.ds.cache)
  }

  /** The Workspace as the latest reconcile read it. */
  function Read(w: World): Workspace
    requires Versions(w)
  {
    w.ws.hist[w.memo.rd]
  }

  // ----- steps outside the operator -----

  datatype Outside =
    | Tick(dt: nat)
    | CallGet(id: nat, op: Op, base: nat)
    | CallSend(id: nat, now: Time)
    | EditDeploy(replicas: int, template: Template)
    | SetReady(ready: nat)
    | DeleteDeploy

  predicate OutsideEnabled(w: World, a: Outside)
    requires Versions(w)
  {
    match a
    case Tick(_) => true
    case CallGet(_, _, base) => base < |w.ws.hist|
    case CallSend(id, now) => id in w.calls && w.calls[id].since <= now <= w.clock
    case EditDeploy(_, _) => Latest(w.ds).Some?
    case SetReady(_) => Latest(w.ds).Some?
    case DeleteDeploy => Latest(w.ds).Some?
  }

  /** An update computed from version `base`: accepted when `base` is the latest version. */
  predicate Accepted(w: World, base: nat) {
    base == |w.ws.hist| - 1
  }

  function Commit(w: World, base: nat, write: Write): World
    requires base < |w.ws.hist|
  {
    w.(ws := Append(w.ws, Apply(write, w.ws.hist[base])), log := w.log + [write])
  }

  /** The API server bumps the generation of a Deployment exactly when its spec changes. */
  function EditedDeploy(d: Deploy, replicas: int, template: Template): Deploy {
    Deploy(if d.replicas == replicas && d.template == template then d.generation else d.generation + 1,
           replicas, template, d.ready)
  }

  function DoOutside(w: World, a: Outside): World
    requires Versions(w) && OutsideEnabled(w, a)
  {
    match a
    case Tick(dt) => w.(clock := w.clock + dt)
    case CallGet(id, op, base) => w.(calls := w.calls[id := Call(op, base, w.clock)])
    case CallSend(id, now) =>
      var call := w.calls[id];
      var write := WriteOf(call.op, now);
      var rest := w.(calls := w.calls - {id});
      if Sends(write, w.ws.hist[call.base]) && Accepted(w, call.base) then Commit(rest, call.base, write) else rest
    case EditDeploy(replicas, template) =>
      w.(ds := Append(w.ds, Some(EditedDeploy(Latest(w.ds).value, replicas, template))))
    case SetReady(ready) => w.(ds := Append(w.ds, Some(Latest(w.ds).value.(ready := ready))))
    case DeleteDeploy => w.(ds := Append(w.ds, None))
  }

  // ----- caches, events and the work queue -----

  datatype Inform =
    | DeliverWs(to: nat)
    | HandleWs
    | DeliverD(to: nat)
    | HandleD
    | Enqueue
    | FireTimer
    | FireBackoff

  predicate InformEnabled(w: World, a: Inform)
    requires Versions(w)
  {
    match a
    case DeliverWs(to) => w.ws.cache < to < |w.ws.hist|
    case HandleWs => w.ws.events != []
    case DeliverD(to) => w.ds.cache < to < |w.ds.hist|
    case HandleD => w.ds.events != []
    case Enqueue => true
    case FireTimer => w.queue.timer.Some? && w.queue.timer.value <= w.clock
    case FireBackoff => w.queue.backoff
  }

  function Dirtied(q: Queue, b: bool): Queue {
    q.(dirty := q.dirty || b)
  }

  function DoInform(w: World, a: Inform): World
    requires Versions(w) && InformEnabled(w, a)
  {
    match a
    case DeliverWs(to) => w.(ws := Deliver(w.ws, to))
    case HandleWs =>
      var e := w.ws.events[0];
      w.(ws := w.ws.(events := w.ws.events[1..]),
         queue := Dirtied(w.queue, !WsSame(w.ws.hist[e.0], w.ws.hist[e.1])))
    case DeliverD(to) => w.(ds := Deliver(w.ds, to))
    case HandleD =>
      var e := w.ds.events[0];
      w.(ds := w.ds.(events := w.ds.events[1..]),
         queue := Dirtied(w.queue, !DSame(w.ds.hist[e.0], w.ds.hist[e.1])))
    case Enqueue => w.(queue := Dirtied(w.queue, true))
    case FireTimer => w.(queue := Queue(true, w.queue.backoff, None))
    case FireBackoff => w.(queue := Queue(true, false, w.queue.timer))
  }

  // ----- the reconciler up to the children -----

  /** The label value the operator derives from the environment of the Workspace, if any; an empty one is none. */
  function OaOf(ws: Workspace): Option<string> {
    if Lookup(ws.spec.body, "env.OA") == Some("") then None else Lookup(ws.spec.body, "env.OA")
  }

  predicate NeedsOa(autoOa: bool, ws: Workspace) {
    autoOa && OaOf(ws).Some? && Lookup(ws.labels, "oa") != OaOf(ws)
  }

  datatype Prepare =
    | Pop(keepTimer: bool)
    | Fetch
    | InitSkip
    | InitGet
    | InitSend(now: Time)
    | Refetch
    | OaSkip
    | OaGet
    | OaSend
    | OaRefetch
    | Fail

  predicate PrepareEnabled(w: World, a: Prepare)
    requires Versions(w)
  {
    match a
    case Pop(_) => w.rec.Idle? && w.queue.dirty
    case Fetch => w.rec.Popped?
    case InitSkip => w.rec.Fetched? && !NeedsInit(Read(w).status)
    case InitGet => w.rec.Fetched? && NeedsInit(Read(w).status)
    case InitSend(now) => w.rec.InitGot? && w.rec.since <= now <= w.clock
    case Refetch => w.rec.InitSent?
    case OaSkip => w.rec.Inited? && !NeedsOa(w.autoOa, Read(w))
    case OaGet => w.rec.Inited? && NeedsOa(w.autoOa, Read(w))
    case OaSend => w.rec.OaGot?
    case OaRefetch => w.rec.OaSent?
    case Fail => !w.rec.Idle?
  }

  function Failed(w: World): World {
    w.(rec := Idle, queue := w.queue.(backoff := true))
  }

  /** A read of the cached Workspace replaces the working copy. */
  function FetchTo(w: World, next: Rec): World {
    w.(rec := next, memo := w.memo.(rd := w.ws.cache))
  }

  function OaValue(ws: Workspace): string {
    if OaOf(ws).Some? then OaOf(ws).value else ""
  }

  function DoPrepare(w: World, a: Prepare): World
    requires Versions(w) && PrepareEnabled(w, a)
  {
    match a
    case Pop(keepTimer) =>
      w.(rec := Popped, queue := Queue(false, w.queue.backoff, if keepTimer then w.queue.timer else None))
    case Fetch => FetchTo(w, Fetched)
    case InitSkip => w.(rec := Inited)
    case InitGet => w.(rec := InitGot(w.ws.cache, w.clock))
    case InitSend(now) =>
      if !NeedsInit(w.ws.hist[w.rec.base].status) then w.(rec := InitSent)
      else if Accepted(w, w.rec.base) then Commit(w, w.rec.base, InitStatus(now)).(rec := InitSent)
      else w.(rec := Fetched)
    case Refetch => FetchTo(w, Inited)
    case OaSkip => w.(rec := Ready)
    case OaGet => w.(rec := OaGot(w.ws.cache))
    case OaSend =>
      if Accepted(w, w.rec.base) then Commit(w, w.rec.base, SetOa(OaValue(Read(w)))).(rec := OaSent)
      else w.(rec := Inited)
    case OaRefetch => FetchTo(w, Ready)
    case Fail => Failed(w)
  }

  // ----- the Deployment and the status -----

  datatype Act =
    | DeployGet
    | DeploySend
    | Judge(found: bool, pod: Option<Pod>, links: string)
    | RecordSkip
    | RecordGet
    | RecordSend
    | Finish

  predicate ActEnabled(w: World, a: Act)
    requires Versions(w)
  {
    match a
    case DeployGet => w.rec.Ready?
    case DeploySend => w.rec.DeployGot?
    case Judge(_, _, _) => w.rec.Deployed?
    case RecordSkip => w.rec.Judged? && !StatusChanged(Read(w).status, w.memo.decided)
    case RecordGet => w.rec.Judged? && StatusChanged(Read(w).status, w.memo.decided)
    case RecordSend => w.rec.RecordGot?
    case Finish => w.rec.Finishing?
  }

  /** The Deployment after the create-or-update half, or `None` when the API server refuses:
      a create of an object that exists, or an update of a version that is not the latest. */
  function SendDeploy(ds: Watch<Option<Deploy>>, dd: nat, want: Want): Option<Watch<Option<Deploy>>>
    requires WatchOk(ds) && dd < |ds.hist|
  {
    var got := ds.hist[dd];
    if got.None? then
      if Latest(ds).None? then Some(Append(ds, Some(Deploy(1, want.replicas, want.template, 0)))) else None
    else if Matches(got.value, want) then Some(ds)
    else if dd == |ds.hist| - 1 then
      Some(Append(ds, Some(EditedDeploy(got.value, want.replicas, want.template))))
    else None
  }

  function JudgeStatus(w: World, found: bool, pod: Option<Pod>, links: string): World
    requires Versions(w)
  {
    var deploy := if found then Cached(w.ds) else None;
    match Evaluate(Read(w), w.memo.want.replicas, deploy, pod, links, w.clock)
    case Crash => Failed(w)
    case Evaluated(status, requeue) =>
      w.(rec := Judged,
         memo := w.memo.(judgedD := if found then Some(w.ds.cache) else None, pod := pod, links := links,
                         judgedAt := w.clock, decided := status, requeue := requeue))
  }

  function Earlier(a: Option<Time>, b: Option<Time>): Option<Time> {
    if a.None? then b else if b.None? then a else if a.value <= b.value then a else b
  }

  function DoAct(w: World, a: Act): World
    requires Versions(w) && ActEnabled(w, a)
  {
    match a
    case DeployGet =>
      w.(rec := DeployGot(w.ds.cache), memo := w.memo.(want := WantOf(Read(w), w.clock), wantAt := w.clock))
    case DeploySend =>
      (match SendDeploy(w.ds, w.rec.dd, w.memo.want)
       case Some(ds) => w.(ds := ds, rec := Deployed)
       case None => Failed(w))
    case Judge(found, pod, links) => JudgeStatus(w, found, pod, links)
    case RecordSkip => w.(rec := Finishing)
    case RecordGet => w.(rec := RecordGot(w.ws.cache))
    case RecordSend =>
      if Accepted(w, w.rec.base) then Commit(w, w.rec.base, Record(w.memo.decided)).(rec := Finishing)
      else w.(rec := Judged)
    case Finish =>
      var due := if w.memo.requeue.Some? then Some(w.clock + w.memo.requeue.value) else None;
      w.(rec := Idle, queue := w.queue.(timer := Earlier(w.queue.timer, due)))
  }

  // ----- runs -----

  datatype Action = Out(o: Outside) | Inf(i: Inform) | Pre(p: Prepare) | Do(d: Act)

  predicate Enabled(w: World, a: Action)
    requires Versions(w)
  {
    match a
    case Out(o) => OutsideEnabled(w, o)
    case Inf(i) => InformEnabled(w, i)
    case Pre(p) => PrepareEnabled(w, p)
    case Do(d) => ActEnabled(w, d)
  }

  function Step(w: World, a: Action): World
    requires Versions(w) && Enabled(w, a)
  {
    match a
    case Out(o) => DoOutside(w, o)
    case Inf(i) => DoInform(w, i)
    case Pre(p) => DoPrepare(w, p)
    case Do(d) => DoAct(w, d)
  }

  /** A stored time has the precision of a stored time. */
  predicate StoredTime(t: Option<Time>) {
    t.Some? ==> t.value == Persist(t.value)
  }

  predicate NotAfter(t: Option<Time>, now: Time) {
    t.Some? ==> t.value <= now
  }

  /** Any object, any Deployment, both already cached, and the key queued by the first listing.
      The stored times are proper stored times, and lastActiveTime is not in the future. */
  predicate Init(w: World) {
    && |w.ws.hist| == 1 && w.ws.cache == 0 && w.ws.events == [] && w.log == []
    && |w.ds.hist| == 1 && w.ds.cache == 0 && w.ds.events == []
    && w.queue == Queue(true, false, None) && w.rec.Idle? && w.calls == map[]
    && w.memo.rd == 0 && w.memo.judgedD.None?
    && StoredTime(w.ws.hist[0].status.lastActive) && NotAfter(w.ws.hist[0].status.lastActive, w.clock)
    && StoredTime(w.ws.hist[0].status.startedAt)
  }

  predicate Follows(w: World, a: Action, v: World) {
    Versions(w) && Enabled(w, a) && v == Step(w, a)
  }

  /** `run` starts in an initial world and every world follows from the one before. */
  ghost predicate IsRun(run: seq<World>, acts: seq<Action>) {
    && |run| == |acts| + 1
    && Init(run[0])
    && forall i {:trigger acts[i]} :: 0 <= i < |acts| ==> Follows(run[i], acts[i], run[i + 1])
  }

  /** Nothing is queued or running and both caches have caught up and told about it. */
  predicate Quiescent(w: World) {
    w.rec.Idle? && !w.queue.dirty && !w.queue.backoff && CaughtUp(w.ws) && CaughtUp(w.ds)
  }

  lemma AppendStep(run: seq<World>, acts: seq<Action>, a: Action, v: World)
    requires IsRun(run, acts) && Follows(run[|acts|], a, v)
    ensures IsRun(run + [v], acts + [a])
  {
    var run', acts' := run + [v], acts + [a];
    forall i | 0 <= i < |acts'|
      ensures Follows(run'[i], acts'[i], run'[i + 1])
    {
      if i < |acts| {
        assert run'[i] == run[i] && run'[i + 1] == run[i + 1] && acts'[i] == acts[i];
      }
    }
  }

  /** One more step at the end of a run. */
  lemma Extend(run: seq<World>, acts: seq<Action>, a: Action) returns (run': seq<World>, acts': seq<Action>)
    requires IsRun(run, acts) && Versions(run[|acts|]) && Enabled(run[|acts|], a)
    ensures run' == run + [Step(run[|acts|], a)] && acts' == acts + [a]
    ensures IsRun(run', acts') && run'[|acts'|] == Step(run[|acts|], a)
  {
    var w := run[|acts|];
    var v := Step(w, a);
    assert Follows(w, a, v);
    AppendStep(run, acts, a, v);
    run', acts' := run + [v], acts + [a];
  }
}
