/**
Bringing the Deployment of a Workspace to what its spec asks for: created whole if it is missing,
otherwise compared field by field and written back if anything differs.

An absent list or map is the same as an empty one, as the comparisons of the operator have it.
Values that are rendered elsewhere and only compared here are kept as text.
*/
module DeploymentSync {
  import opened Wrappers
  import Volumes

  type Rendered = string

  datatype Strategy = Strategy(kind: string, rolling: Option<Rendered>)

  const RECREATE: string := "Recreate"
  const IF_NOT_PRESENT: string := "IfNotPresent"

  datatype EnvVar = EnvVar(name: string, value: string)

  /** `extra` stands for every field that the operator never sets. */
  datatype Container = Container(
    name: string, image: string, pullPolicy: string, command: seq<string>, args: seq<string>, env: seq<EnvVar>,
    resources: Rendered, ports: seq<int>, mounts: seq<Volumes.Mount>, security: Option<Rendered>,
    lifecycle: Option<Rendered>, startupProbe: Option<Rendered>, readinessProbe: Option<Rendered>, extra: Rendered)

  datatype PodSpec = PodSpec(
    runtimeClass: Option<string>, gracePeriod: Option<int>, automountToken: Option<bool>, serviceLinks: Option<bool>,
    security: Option<Rendered>, containers: seq<Container>, initContainers: seq<Container>,
    volumes: seq<Volumes.Volume>, extra: Rendered)

  datatype Deployment = Deployment(
    labels: map<string, string>, owner: Option<string>, replicas: Option<int>, strategy: Strategy,
    selector: map<string, string>, podLabels: map<string, string>, pod: PodSpec, extra: Rendered)

  /** What the spec asks for. */
  datatype Wanted = Wanted(
    labels: map<string, string>, selector: map<string, string>, podLabels: map<string, string>, owner: string,
    replicas: int, runtimeClass: Option<string>, podSecurity: Rendered,
    image: string, command: seq<string>, args: seq<string>, env: seq<EnvVar>, resources: Rendered, ports: seq<int>,
    mounts: seq<Volumes.Mount>, security: Rendered, lifecycle: Option<Rendered>, startupProbe: Option<Rendered>,
    readinessProbe: Option<Rendered>, initContainers: seq<Container>, volumes: seq<Volumes.Volume>)

  // ----- the create path -----

  function CreatedContainer(w: Wanted): Container {
    Container("runtime", w.image, IF_NOT_PRESENT, w.command, w.args, w.env, w.resources, w.ports, w.mounts,
              Some(w.security), w.lifecycle, w.startupProbe, w.readinessProbe, "")
  }

  function Created(w: Wanted): Deployment {
    Deployment(w.labels, Some(w.owner), Some(w.replicas), Strategy(RECREATE, None), w.selector, w.podLabels,
               PodSpec(w.runtimeClass, Some(2), Some(false), Some(false), Some(w.podSecurity), [CreatedContainer(w)],
                       w.initContainers, w.volumes, ""),
               "")
  }

  // ----- which fields are whose -----

  /** The fields that the spec decides, of the Deployment and of its first container. */
  datatype Managed = Managed(
    labels: map<string, string>, replicas: Option<int>, strategy: Strategy, podLabels: map<string, string>,
    runtimeClass: Option<string>, gracePeriod: Option<int>, automountToken: Option<bool>, serviceLinks: Option<bool>,
    podSecurity: Option<Rendered>, initContainers: seq<Container>, volumes: seq<Volumes.Volume>, first: Container)

  function ManagedOf(d: Deployment): Managed
    requires d.pod.containers != []
  {
    Managed(d.labels, d.replicas, d.strategy, d.podLabels, d.pod.runtimeClass, d.pod.gracePeriod,
            d.pod.automountToken, d.pod.serviceLinks, d.pod.security, d.pod.initContainers, d.pod.volumes,
            d.pod.containers[0].(name := "", extra := ""))
  }

  /** Everything else: the owner, the selector, the first container's name, the further containers, and what
      others may have set. */
  datatype Rest = Rest(owner: Option<string>, selector: map<string, string>, extra: Rendered, podExtra: Rendered,
                       firstName: string, firstExtra: Rendered, others: seq<Container>)

  function RestOf(d: Deployment): Rest
    requires d.pod.containers != []
  {
    Rest(d.owner, d.selector, d.extra, d.pod.extra, d.pod.containers[0].name, d.pod.containers[0].extra,
         d.pod.containers[1..])
  }

  /** The two parts are all there is to a Deployment. */
  lemma PartsDetermine(d: Deployment, e: Deployment)
    requires d.pod.containers != [] && e.pod.containers != []
    requires ManagedOf(d) == ManagedOf(e) && RestOf(d) == RestOf(e)
    ensures d == e
  {
    var c, x := d.pod.containers, e.pod.containers;
    assert c[0].(name := "", extra := "") == x[0].(name := "", extra := "");
    assert c[0] == x[0];
    assert c == [c[0]] + c[1..] && x == [x[0]] + x[1..];
  }

  // ----- the update path -----

  function UpdatedStrategy(s: Strategy): Strategy {
    if s.kind == RECREATE then s else Strategy(RECREATE, None)
  }

  function UpdatedContainer(c: Container, w: Wanted): Container {
    CreatedContainer(w).(name := c.name, extra := c.extra)
  }

  function Updated(d: Deployment, w: Wanted): Deployment
    requires d.pod.containers != []
  {
    Created(w).(owner := d.owner, selector := d.selector, extra := d.extra, strategy := UpdatedStrategy(d.strategy),
                pod := Created(w).pod.(extra := d.pod.extra,
                                       containers := d.pod.containers[0 := UpdatedContainer(d.pod.containers[0], w)]))
  }

  /** The Deployment while a reconcile holds it, fields assigned one by one. */
  class DeploymentObject {
    var labels: map<string, string>
    var owner: Option<string>
    var replicas: Option<int>
    var strategy: Strategy
    var selector: map<string, string>
    var podLabels: map<string, string>
    var pod: PodSpec
    var extra: Rendered

    constructor (d: Deployment)
      ensures Value() == d
    {
      labels, owner, replicas, strategy := d.labels, d.owner, d.replicas, d.strategy;
      selector, podLabels, pod, extra := d.selector, d.podLabels, d.pod, d.extra;
    }

    function Value(): Deployment
      reads this
    {
      Deployment(labels, owner, replicas, strategy, selector, podLabels, pod, extra)
    }

    /** The fields outside the Pod's spec. */
    method SyncOutside(w: Wanted) returns (needsUpdate: bool)
      modifies this`labels, this`replicas, this`strategy, this`podLabels
      ensures labels == w.labels && replicas == Some(w.replicas) && podLabels == w.podLabels
      ensures strategy == UpdatedStrategy(old(strategy))
      ensures !needsUpdate <==> Value() == old(Value())
    {
      needsUpdate := false;
      if replicas.None? || replicas.value != w.replicas {
        replicas := Some(w.replicas);
        needsUpdate := true;
      }
      if strategy.kind != RECREATE {
        strategy := Strategy(RECREATE, None);
        needsUpdate := true;
      }
      if labels != w.labels {
        labels := w.labels;
        needsUpdate := true;
      }
      if podLabels != w.podLabels {
        podLabels := w.podLabels;
        needsUpdate := true;
      }
    }

    /** The Pod's own fields. */
    method SyncPod(w: Wanted) returns (needsUpdate: bool)
      modifies this`pod
      ensures pod == old(pod).(runtimeClass := w.runtimeClass, gracePeriod := Some(2), automountToken := Some(false),
                               serviceLinks := Some(false), security := Some(w.podSecurity))
      ensures !needsUpdate <==> pod == old(pod)
    {
      needsUpdate := false;
      if pod.runtimeClass != w.runtimeClass {
        pod := pod.(runtimeClass := w.runtimeClass);
        needsUpdate := true;
      }
      if pod.gracePeriod.None? || pod.gracePeriod.value != 2 {
        pod := pod.(gracePeriod := Some(2));
        needsUpdate := true;
      }
      if pod.automountToken.None? || pod.automountToken.value {
        pod := pod.(automountToken := Some(false));
        needsUpdate := true;
      }
      if pod.serviceLinks.None? || pod.serviceLinks.value {
        pod := pod.(serviceLinks := Some(false));
        needsUpdate := true;
      }
      if pod.security != Some(w.podSecurity) {
        pod := pod.(security := Some(w.podSecurity));
        needsUpdate := true;
      }
    }

    /** Its init containers and volumes, which come after the first container. */
    method SyncLists(w: Wanted) returns (needsUpdate: bool)
      modifies this`pod
      ensures pod == old(pod).(initContainers := w.initContainers, volumes := w.volumes)
      ensures !needsUpdate <==> pod == old(pod)
    {
      needsUpdate := false;
      if pod.initContainers != w.initContainers {
        pod := pod.(initContainers := w.initContainers);
        needsUpdate := true;
      }
      if pod.volumes != w.volumes {
        pod := pod.(volumes := w.volumes);
        needsUpdate := true;
      }
    }

    method SyncFirstContainer(w: Wanted) returns (needsUpdate: bool)
      requires pod.containers != []
      modifies this`pod
      ensures pod == old(pod).(containers := old(pod).containers[0 := UpdatedContainer(old(pod).containers[0], w)])
      ensures !needsUpdate <==> pod == old(pod)
    {
      var target := new ContainerObject(pod.containers[0]);
      var changed := target.SyncRun(w);
      var changedMore := target.SyncHooks(w);
      pod := pod.(containers := pod.containers[0 := target.value]);
      needsUpdate := changed || changedMore;
      ghost var was := old(pod);
      assert was.containers[0 := was.containers[0]] == was.containers;
      assert pod == was ==> pod.containers[0] == was.containers[0];
    }

    /** All comparisons; afterwards the object has to be written back if it was changed. */
    method Sync(w: Wanted) returns (r: Result<bool, string>)
      modifies this
      ensures old(pod).containers == [] ==> r == Err("no containers") && Value() == old(Value())
      ensures old(pod).containers != [] ==>
                Value() == Updated(old(Value()), w) && r == Ok(Updated(old(Value()), w) != old(Value()))
    {
      if pod.containers == [] {
        return Err("no containers");
      }
      var a := SyncOutside(w);
      var b := SyncPod(w);
      var c := SyncFirstContainer(w);
      var d := SyncLists(w);
      return Ok(a || b || c || d);
    }
  }

  /** The container that a pointer into the Pod's list leads to. */
  class ContainerObject {
    var value: Container

    constructor (c: Container)
      ensures value == c
    {
      value := c;
    }

    /** What the container runs. */
    method SyncRun(w: Wanted) returns (needsUpdate: bool)
      modifies this
      ensures value == old(value).(image := w.image, pullPolicy := IF_NOT_PRESENT, command := w.command,
                                   args := w.args, env := w.env, resources := w.resources)
      ensures !needsUpdate <==> value == old(value)
    {
      needsUpdate := false;
      if value.image != w.image {
        value := value.(image := w.image);
        needsUpdate := true;
      }
      if value.pullPolicy != IF_NOT_PRESENT {
        value := value.(pullPolicy := IF_NOT_PRESENT);
        needsUpdate := true;
      }
      if value.command != w.command {
        value := value.(command := w.command);
        needsUpdate := true;
      }
      if value.args != w.args {
        value := value.(args := w.args);
        needsUpdate := true;
      }
      if value.env != w.env {
        value := value.(env := w.env);
        needsUpdate := true;
      }
      if value.resources != w.resources {
        value := value.(resources := w.resources);
        needsUpdate := true;
      }
    }

    /** What surrounds it. */
    method SyncHooks(w: Wanted) returns (needsUpdate: bool)
      modifies this
      ensures value == old(value).(ports := w.ports, mounts := w.mounts, security := Some(w.security),
                                   lifecycle := w.lifecycle, startupProbe := w.startupProbe,
                                   readinessProbe := w.readinessProbe)
      ensures !needsUpdate <==> value == old(value)
    {
      needsUpdate := false;
      if value.ports != w.ports {
        value := value.(ports := w.ports);
        needsUpdate := true;
      }
      if value.mounts != w.mounts {
        value := value.(mounts := w.mounts);
        needsUpdate := true;
      }
      if value.security != Some(w.security) {
        value := value.(security := Some(w.security));
        needsUpdate := true;
      }
      if value.lifecycle != w.lifecycle {
        value := value.(lifecycle := w.lifecycle);
        needsUpdate := true;
      }
      if value.startupProbe != w.startupProbe {
        value := value.(startupProbe := w.startupProbe);
        needsUpdate := true;
      }
      if value.readinessProbe != w.readinessProbe {
        value := value.(readinessProbe := w.readinessProbe);
        needsUpdate := true;
      }
    }
  }

  /** The API server's copy, and how often it was written. */
  class Store {
    var deploy: Option<Deployment>
    var writes: nat

    constructor (d: Option<Deployment>)
      ensures deploy == d && writes == 0
    {
      deploy, writes := d, 0;
    }
  }

  /** The Deployment runs what the spec asks for, field by field. */
  ghost predicate Runs(d: Deployment, w: Wanted) {
    && d.labels == w.labels && d.podLabels == w.podLabels && d.replicas == Some(w.replicas)
    && d.strategy.kind == "Recreate"
    && d.pod.runtimeClass == w.runtimeClass && d.pod.security == Some(w.podSecurity)
    && d.pod.gracePeriod == Some(2) && d.pod.automountToken == Some(false) && d.pod.serviceLinks == Some(false)
    && d.pod.initContainers == w.initContainers && d.pod.volumes == w.volumes
    && d.pod.containers != []
    && var c := d.pod.containers[0];
       && c.image == w.image && c.pullPolicy == "IfNotPresent" && c.command == w.command && c.args == w.args
       && c.env == w.env && c.resources == w.resources && c.ports == w.ports && c.mounts == w.mounts
       && c.security == Some(w.security) && c.lifecycle == w.lifecycle
       && c.startupProbe == w.startupProbe && c.readinessProbe == w.readinessProbe
  }

  method ReconcileDeployment(store: Store, w: Wanted) returns (r: Result<int, string>)
    modifies store
    ensures r.Ok? ==> store.deploy.Some? && Runs(store.deploy.value, w)
    ensures old(store.deploy).None? ==>
              && store.deploy.Some?
              && var d := store.deploy.value;
                 && d.owner == Some(w.owner) && d.selector == w.selector && d.strategy == Strategy("Recreate", None)
                 && |d.pod.containers| == 1 && d.pod.containers[0].name == "runtime"
    ensures old(store.deploy).Some? && r.Ok? && store.deploy.Some? ==>
              && var c, d := old(store.deploy).value, store.deploy.value;
                 && d.owner == c.owner && d.selector == c.selector && d.extra == c.extra && d.pod.extra == c.pod.extra
                 && c.pod.containers != [] && |d.pod.containers| == |c.pod.containers|
                 && d.pod.containers[0].name == c.pod.containers[0].name
                 && d.pod.containers[0].extra == c.pod.containers[0].extra
                 && d.pod.containers[1..] == c.pod.containers[1..]
    ensures old(store.deploy).None? ==>
              r == Ok(w.replicas) && store.deploy == Some(Created(w)) && store.writes == old(store.writes) + 1
    ensures old(store.deploy).Some? && old(store.deploy).value.pod.containers == [] ==>
              r.Err? && store.deploy == old(store.deploy) && store.writes == old(store.writes)
    ensures old(store.deploy).Some? && old(store.deploy).value.pod.containers != [] ==>
              var d := old(store.deploy).value;
              && r == Ok(w.replicas) && store.deploy == Some(Updated(d, w))
              && store.writes == old(store.writes) + if Updated(d, w) == d then 0 else 1
  {
    if store.deploy.None? {
      store.deploy := Some(Created(w));
      store.writes := store.writes + 1;
      return Ok(w.replicas);
    }
    var o := new DeploymentObject(store.deploy.value);
    var synced := o.Sync(w);
    match synced
    case Err(e) => return Err(e);
    case Ok(needsUpdate) =>
      if needsUpdate {
        store.deploy := Some(o.Value());
        store.writes := store.writes + 1;
      }
      return Ok(w.replicas);
  }

  // ----- what an update achieves -----

  /** One update leaves alone what is not the spec's, and makes the rest what the create path would have written:
      always but for the strategy, where a leftover setting of a rolling update next to the type Recreate
      stays. The API server refuses such a combination. */
  lemma UpdateAgreesWithCreate(d: Deployment, w: Wanted)
    requires d.pod.containers != []
    ensures Updated(d, w).pod.containers != []
    ensures RestOf(Updated(d, w)) == RestOf(d)
    ensures ManagedOf(Updated(d, w)) == ManagedOf(Created(w)) <==>
            !(d.strategy.kind == RECREATE && d.strategy.rolling.Some?)
    ensures ManagedOf(Updated(d, w)).(strategy := Strategy(RECREATE, None)) == ManagedOf(Created(w))
  {
    var u := Updated(d, w);
    assert u.pod.containers[1..] == d.pod.containers[1..];
  }

  /** A second pass finds nothing to write. */
  lemma SecondPassWritesNothing(d: Deployment, w: Wanted)
    requires d.pod.containers != []
    ensures Updated(d, w).pod.containers != [] && Updated(Updated(d, w), w) == Updated(d, w)
    ensures Created(w).pod.containers != [] && Updated(Created(w), w) == Created(w)
  {
    NoResidueOfOne(d, w, w);
    assert [CreatedContainer(w)][0 := CreatedContainer(w)] == [CreatedContainer(w)];
  }

  lemma NoResidueOfOne(d: Deployment, v: Wanted, w: Wanted)
    requires d.pod.containers != []
    ensures Updated(d, v).pod.containers != [] && Updated(Updated(d, v), w) == Updated(d, w)
  {
    var c := d.pod.containers;
    assert c[0 := UpdatedContainer(c[0], v)][0 := UpdatedContainer(c[0], w)] == c[0 := UpdatedContainer(c[0], w)];
  }

  function UpdatedThrough(d: Deployment, ws: seq<Wanted>): (r: Deployment)
    requires d.pod.containers != []
    ensures r.pod.containers != []
  {
    if ws == [] then d else Updated(UpdatedThrough(d, ws[..|ws| - 1]), ws[|ws| - 1])
  }

  /** However often the spec changes, only its last state shows. */
  lemma {:induction false} NoResidue(d: Deployment, ws: seq<Wanted>, w: Wanted)
    requires d.pod.containers != []
    ensures Updated(UpdatedThrough(d, ws), w) == Updated(d, w)
  {
    if ws != [] {
      var before, last := UpdatedThrough(d, ws[..|ws| - 1]), ws[|ws| - 1];
      NoResidueOfOne(before, last, w);
      NoResidue(d, ws[..|ws| - 1], w);
    }
  }
}
