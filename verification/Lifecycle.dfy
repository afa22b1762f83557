/**
The Workspace object, the decisions the operator takes about one Workspace, and the
read-modify-write closures that the operator and the API server apply to it.

Times are integers in nanoseconds. A time that is stored passes through the JSON form of
a Kubernetes object, which keeps whole seconds only; `Persist` is that truncation.
*/
module Lifecycle {
  import opened Wrappers

  type Time = int

  const SECOND: int := 1_000_000_000

  /** What is left of a time after it has been written to the API server and read back. */
  function Persist(t: Time): (p: Time)
    ensures p <= t < p + 1_000_000_000 && p % 1_000_000_000 == 0
  {
    t - t % SECOND
  }

  lemma PersistMonotone(t: Time, u: Time)
    requires t <= u
    ensures Persist(t) <= Persist(u)
  {
  }

  datatype Phase = Unset | Pending | Starting | Running | Sleeping | Stopped | Failed

  /** spec.idleTimeout by what parsing it gives. */
  datatype IdleTimeout = NoTimeout | Unparsable | Window(ns: int)

  /** `body` holds every other field of the spec, by field name. */
  datatype Spec = Spec(stopped: bool, idle: IdleTimeout, body: map<string, string>)

  /** `links` stands for the PVC name and the endpoint together. */
  datatype Status = Status(phase: Phase, podName: string, links: string,
                           lastActive: Option<Time>, startedAt: Option<Time>)

  datatype Workspace = Workspace(generation: nat, spec: Spec, labels: map<string, string>, status: Status)

  /** Everything else the operator manages in the Deployment is rendered from these two. */
  datatype Template = Template(body: map<string, string>, labels: map<string, string>)

  datatype Deploy = Deploy(generation: nat, replicas: int, template: Template, ready: nat)

  datatype Pod = Pod(name: string, startTime: Option<Time>)

  // ----- decisions -----

  function ComputeDesiredReplicas(ws: Workspace, now: Time): int {
    if ws.spec.stopped then 0
    else if ws.spec.idle.Window? && ws.status.lastActive.Some? then
      if now > ws.status.lastActive.value + ws.spec.idle.ns then 0 else 1
    else 1
  }

  datatype Want = Want(replicas: int, template: Template)

  function WantOf(ws: Workspace, now: Time): Want {
    Want(ComputeDesiredReplicas(ws, now), Template(ws.spec.body, ws.labels))
  }

  predicate Matches(d: Deploy, want: Want) {
    d.replicas == want.replicas && d.template == want.template
  }

  function ComputeStartedAt(oldPhase: Phase, current: Option<Time>, podStart: Option<Time>, now: Time): Time {
    if oldPhase.Running? && current.Some? then current.value
    else if podStart.Some? then podStart.value
    else now
  }

  /** The value to keep and whether it differs from the latest one. */
  function MergeStartedAt(latest: Option<Time>, desired: Option<Time>): (Option<Time>, bool) {
    if desired.None? then (latest, false)
    else if latest.None? || desired.value > latest.value then (desired, true)
    else (latest, false)
  }

  /** True for the phases from which a move to Running starts a new idle window. */
  predicate Inactive(p: Phase) {
    p.Sleeping? || p.Stopped? || p.Pending? || p.Failed?
  }

  /** The phase that the Deployment implies for a Workspace whose Deployment was found. */
  function PhaseFor(stopped: bool, replicas: int, ready: nat): Phase {
    if stopped then Stopped
    else if replicas == 0 then Sleeping
    else if ready > 0 then Running
    else Starting
  }

  /** Outcome of the status half of a reconcile; `Crash` is the nil dereference of lastActiveTime. */
  datatype Evaluation = Crash | Evaluated(status: Status, requeue: Option<int>)

  function Evaluate(ws: Workspace, replicas: int, deploy: Option<Deploy>, pod: Option<Pod>,
                    links: string, now: Time): Evaluation
  {
    var prior := ws.status;
    var phase := if deploy.None? then prior.phase else PhaseFor(ws.spec.stopped, replicas, deploy.value.ready);
    var podName :=
      if deploy.None? then prior.podName
      else if !phase.Running? then ""
      else if pod.Some? then pod.value.name
      else prior.podName;
    if !phase.Running? then
      Evaluated(prior.(phase := phase, podName := podName, links := links), None)
    else
      var podStart := if deploy.Some? && pod.Some? then pod.value.startTime else None;
      var active := if Inactive(prior.phase) then Some(now) else prior.lastActive;
      var started := ComputeStartedAt(prior.phase, prior.startedAt, podStart, now);
      var status := Status(Running, podName, links, active, Some(started));
      if !ws.spec.idle.Window? then Evaluated(status, None)
      else if active.None? then Crash
      else
        var remaining := active.value + ws.spec.idle.ns - now;
        Evaluated(status, Some(if remaining > 0 then remaining else SECOND))
  }

  /** What the status half decides, aspect by aspect. With the Deployment at hand the phase says which of four cases
      holds; without it the phase stays. Moving to Running from a phase without activity starts a new idle window.
      A Running Workspace keeps its startedAt; one that gets there has that of its Pod, or else the clock's. */
  lemma EvaluateMeaning(ws: Workspace, replicas: int, deploy: Option<Deploy>, pod: Option<Pod>, links: string, now: Time)
    requires Evaluate(ws, replicas, deploy, pod, links, now).Evaluated?
    ensures var s := Evaluate(ws, replicas, deploy, pod, links, now).status;
            deploy.Some? ==>
              && (s.phase.Stopped? <==> ws.spec.stopped)
              && (s.phase.Sleeping? <==> !ws.spec.stopped && replicas == 0)
              && (s.phase.Running? <==> !ws.spec.stopped && replicas != 0 && deploy.value.ready > 0)
              && (s.phase.Starting? <==> !ws.spec.stopped && replicas != 0 && deploy.value.ready == 0)
              && (!s.phase.Running? ==> s.podName == "")
              && (s.phase.Running? && pod.Some? ==> s.podName == pod.value.name)
    ensures var s := Evaluate(ws, replicas, deploy, pod, links, now).status;
            && (deploy.None? ==> s.phase == ws.status.phase)
            && s.links == links
            && (s.podName == ws.status.podName || deploy.Some?)
            && (s.phase.Running? && pod.None? ==> s.podName == ws.status.podName)
    ensures var s := Evaluate(ws, replicas, deploy, pod, links, now).status;
            s.lastActive == if s.phase.Running? && ws.status.phase in {Sleeping, Stopped, Pending, Failed} then Some(now)
                            else ws.status.lastActive
    ensures var s := Evaluate(ws, replicas, deploy, pod, links, now).status;
            && (!s.phase.Running? || (ws.status.phase.Running? && ws.status.startedAt.Some?) ==>
                  s.startedAt == ws.status.startedAt)
            && (s.phase.Running? && !(ws.status.phase.Running? && ws.status.startedAt.Some?) ==>
                  && s.startedAt.Some?
                  && (deploy.Some? && pod.Some? && pod.value.startTime.Some? ==> s.startedAt == pod.value.startTime)
                  && (deploy.None? || pod.None? || pod.value.startTime.None? ==> s.startedAt == Some(now)))
    ensures var Evaluated(s, requeue) := Evaluate(ws, replicas, deploy, pod, links, now);
            && (requeue.Some? <==> s.phase.Running? && ws.spec.idle.Window?)
            && (requeue.Some? ==>
                  && s.lastActive.Some?
                  && (now < s.lastActive.value + ws.spec.idle.ns ==>
                        now + requeue.value == s.lastActive.value + ws.spec.idle.ns)
                  && (now >= s.lastActive.value + ws.spec.idle.ns ==> requeue.value == 1_000_000_000))
  {
  }

  /** The test that guards the status write at the end of a reconcile. */
  predicate StatusChanged(prior: Status, next: Status) {
    prior.phase != next.phase || prior.podName != next.podName || prior.links != next.links
    || prior.startedAt != next.startedAt
  }

  // ----- writes -----

  /** What a create/update request carries: only fields that were passed. */
  datatype SpecRequest = SpecRequest(idle: Option<IdleTimeout>, fields: map<string, string>, oa: Option<string>)

  /** The closures given to retry-on-conflict, with the values they captured or read from the clock. */
  datatype Write =
    | Stop
    | Resume
    | Touch(at: Time)
    | Request(req: SpecRequest)
    | Edit(spec: Spec, labels: map<string, string>)
    | InitStatus(at: Time)
    | SetOa(oa: string)
    | Record(status: Status)
    | Backfill(at: Time)

  /** The API server bumps the generation exactly when the spec changes. */
  function WithSpec(ws: Workspace, spec: Spec): Workspace {
    ws.(spec := spec, generation := if spec == ws.spec then ws.generation else ws.generation + 1)
  }

  function WithRequest(ws: Workspace, req: SpecRequest): Workspace {
    var spec := Spec(false, if req.idle.Some? then req.idle.value else ws.spec.idle, ws.spec.body + req.fields);
    var labels := if req.oa.Some? then ws.labels["oa" := req.oa.value] else ws.labels;
    WithSpec(ws, spec).(labels := labels)
  }

  function PersistOption(t: Option<Time>): Option<Time> {
    if t.Some? then Some(Persist(t.value)) else None
  }

  function MergeActive(latest: Option<Time>, desired: Option<Time>): Option<Time> {
    if desired.Some? && (latest.None? || desired.value > latest.value) then Some(Persist(desired.value)) else latest
  }

  function MergeStatus(latest: Status, desired: Status): Status {
    var (started, change) := MergeStartedAt(latest.startedAt, desired.startedAt);
    Status(desired.phase, desired.podName, desired.links,
           MergeActive(latest.lastActive, desired.lastActive),
           if change then PersistOption(started) else latest.startedAt)
  }

  function FillStatus(s: Status, now: Time): Status {
    s.(phase := if s.phase.Unset? then Pending else s.phase,
       lastActive := if s.lastActive.None? then Some(Persist(now)) else s.lastActive)
  }

  predicate NeedsInit(s: Status) {
    s.phase.Unset? || s.lastActive.None?
  }

  /** Whether the closure sends anything for the object it fetched. */
  predicate Sends(w: Write, ws: Workspace) {
    match w
    case Resume => ws.spec.stopped
    case Request(req) => WithRequest(ws, req) != ws
    case InitStatus(_) => NeedsInit(ws.status)
    case Backfill(_) => ws.status.startedAt.None?
    case _ => true
  }

  /** The object the closure sends, computed from the object it fetched. */
  function Apply(w: Write, ws: Workspace): Workspace {
    match w
    case Stop => WithSpec(ws, ws.spec.(stopped := true))
    case Resume => WithSpec(ws, ws.spec.(stopped := false))
    case Touch(at) => ws.(status := ws.status.(lastActive := Some(Persist(at))))
    case Request(req) => WithRequest(ws, req)
    case Edit(spec, labels) => WithSpec(ws, spec).(labels := labels)
    case InitStatus(at) => ws.(status := FillStatus(ws.status, at))
    case SetOa(oa) => ws.(labels := ws.labels["oa" := oa])
    case Record(status) => ws.(status := MergeStatus(ws.status, status))
    case Backfill(at) =>
      if ws.status.startedAt.None? then ws.(status := ws.status.(startedAt := Some(Persist(at)))) else ws
  }

  /** The accepted writes applied one after the other, each as one atomic step. */
  function ApplyAll(log: seq<Write>, ws: Workspace): Workspace {
    if log == [] then ws else Apply(log[|log| - 1], ApplyAll(log[..|log| - 1], ws))
  }

  // ----- what one write leaves alone -----

  datatype Field =
    | StoppedField | IdleField | BodyField(key: string) | LabelField(name: string)
    | PhaseField | PodField | LinksField | ActiveField | StartedField

  datatype FieldValue =
    | Flag(b: bool) | Timeout(i: IdleTimeout) | Text(s: Option<string>) | PhaseOf(p: Phase) | At(t: Option<Time>)

  function Lookup(m: map<string, string>, k: string): Option<string> {
    if k in m then Some(m[k]) else None
  }

  function Get(ws: Workspace, f: Field): FieldValue {
    match f
    case StoppedField => Flag(ws.spec.stopped)
    case IdleField => Timeout(ws.spec.idle)
    case BodyField(k) => Text(Lookup(ws.spec.body, k))
    case LabelField(k) => Text(Lookup(ws.labels, k))
    case PhaseField => PhaseOf(ws.status.phase)
    case PodField => Text(Some(ws.status.podName))
    case LinksField => Text(Some(ws.status.links))
    case ActiveField => At(ws.status.lastActive)
    case StartedField => At(ws.status.startedAt)
  }

  /** The fields a write is there to set. */
  predicate Assigns(w: Write, f: Field) {
    match w
    case Stop => f.StoppedField?
    case Resume => f.StoppedField?
    case Touch(_) => f.ActiveField?
    case Request(req) =>
      f.StoppedField? || (f.IdleField? && req.idle.Some?) || (f.BodyField? && f.key in req.fields)
      || (f.LabelField? && f.name == "oa" && req.oa.Some?)
    case Edit(_, _) => f.StoppedField? || f.IdleField? || f.BodyField? || f.LabelField?
    case InitStatus(_) => f.PhaseField? || f.ActiveField?
    case SetOa(_) => f.LabelField? && f.name == "oa"
    case Record(status) =>
      f.PhaseField? || f.PodField? || f.LinksField? || (f.ActiveField? && status.lastActive.Some?)
      || (f.StartedField? && status.startedAt.Some?)
    case Backfill(_) => f.StartedField?
  }

  /** And what it leaves in those fields. A wake-up stores the clock reading up to its fraction of a second. */
  lemma SpecWritesSet(w: Write, ws: Workspace)
    ensures var v := Apply(w, ws);
            && (w.Stop? ==> v.spec.stopped)
            && (w.Resume? ==> !v.spec.stopped)
            && (w.Edit? ==> v.spec == w.spec && v.labels == w.labels)
            && (w.SetOa? ==> Lookup(v.labels, "oa") == Some(w.oa))
            && (w.Request? ==>
                  && !v.spec.stopped
                  && (w.req.idle.Some? ==> v.spec.idle == w.req.idle.value)
                  && (forall k <- w.req.fields :: k in v.spec.body && v.spec.body[k] == w.req.fields[k])
                  && (w.req.oa.Some? ==> Lookup(v.labels, "oa") == w.req.oa))
    ensures var v := Apply(w, ws);
            && ws.generation <= v.generation <= ws.generation + 1
            && (v.generation == ws.generation <==> v.spec == ws.spec)
  {
  }

  /** The same for the status: of two times the later one stays. */
  lemma StatusWritesSet(w: Write, ws: Workspace)
    ensures var s, t := ws.status, Apply(w, ws).status;
            && (w.Touch? ==> IsFloor(t.lastActive, w.at))
            && (w.InitStatus? ==>
                  && t.phase == (if s.phase.Unset? then Pending else s.phase)
                  && (if s.lastActive.Some? then t.lastActive == s.lastActive else IsFloor(t.lastActive, w.at)))
            && (w.Backfill? ==> if s.startedAt.Some? then t.startedAt == s.startedAt else IsFloor(t.startedAt, w.at))
            && (w.Record? ==> t.phase == w.status.phase && t.podName == w.status.podName && t.links == w.status.links)
            && (w.Record? ==> IsLater(t.lastActive, s.lastActive, w.status.lastActive))
            && (w.Record? ==> IsLater(t.startedAt, s.startedAt, w.status.startedAt))
  {
  }

  predicate IsFloor(stored: Option<Time>, t: Time) {
    stored.Some? && stored.value <= t < stored.value + 1_000_000_000 && stored.value % 1_000_000_000 == 0
  }

  /** `stored` is the later one of what was stored before and what was proposed, which loses its fraction. */
  predicate IsLater(stored: Option<Time>, before: Option<Time>, proposed: Option<Time>) {
    if proposed.Some? && (before.Some? ==> before.value < proposed.value) then IsFloor(stored, proposed.value)
    else stored == before
  }

  /** The closures that look before they send leave it exactly when they would change nothing. */
  lemma NotSentIffNoChange(w: Write, ws: Workspace)
    requires w.Resume? || w.Request? || w.InitStatus? || w.Backfill?
    ensures Sends(w, ws) <==> Apply(w, ws) != ws
  {
    if w.Request? && Sends(w, ws) {
      assert WithRequest(ws, w.req) != ws;
    }
  }

  lemma WriteFrame(w: Write, ws: Workspace, f: Field)
    requires !Assigns(w, f)
    ensures Get(Apply(w, ws), f) == Get(ws, f)
  {
  }

  /** Those are exactly the fields it can change. */
  lemma AssignsIffCanChange(w: Write, f: Field)
    ensures Assigns(w, f) <==> exists ws :: Get(Apply(w, ws), f) != Get(ws, f)
  {
    if Assigns(w, f) {
      var k := if f.BodyField? then f.key else if f.LabelField? then f.name else "";
      var u := Workspace(0, Spec(true, NoTimeout, map[]), map[], Status(Unset, "", "", None, None));
      var v := Workspace(0, Spec(false, Unparsable, map[k := ""]), map[k := ""], Status(Failed, "x", "x", None, None));
      assert Get(Apply(w, u), f) != Get(u, f) || Get(Apply(w, v), f) != Get(v, f);
    } else {
      forall ws ensures Get(Apply(w, ws), f) == Get(ws, f) { WriteFrame(w, ws, f); }
    }
  }

  /** The number of writes up to and including the last one that assigns `f`; 0 when none does. */
  function LastAssigned(log: seq<Write>, f: Field): (n: nat)
    ensures n <= |log|
  {
    if log == [] then 0
    else if Assigns(log[|log| - 1], f) then |log|
    else LastAssigned(log[..|log| - 1], f)
  }

  /** No accepted write reverts a field that another one set: a field holds what the last
      write that is there to set it left behind. */
  lemma {:induction false} LastWriterWins(log: seq<Write>, ws: Workspace, f: Field)
    ensures Get(ApplyAll(log, ws), f) == Get(ApplyAll(log[..LastAssigned(log, f)], ws), f)
  {
    if log != [] {
      var shorter := log[..|log| - 1];
      if Assigns(log[|log| - 1], f) {
        assert log[..|log|] == log;
      } else {
        WriteFrame(log[|log| - 1], ApplyAll(shorter, ws), f);
        LastWriterWins(shorter, ws, f);
        assert log[..LastAssigned(log, f)] == shorter[..LastAssigned(shorter, f)];
      }
    }
  }
}
