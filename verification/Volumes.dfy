/**
The volumes and mounts of a workspace Pod. Claims and ConfigMaps are asked for by the main
container and by init containers; a source that several of them ask for is declared once.
*/
module Volumes {
  import opened Text

  datatype Kind = SharedClaim | ConfigFile

  /** What a mount asks for. */
  datatype Need = Need(kind: Kind, source: string)

  datatype Source = HostPath(path: string) | Claim(name: string) | ConfigMap(name: string, mode: nat)

  datatype Volume = Volume(name: string, source: Source)

  datatype Mount = Mount(name: string, path: string, subPath: string, readOnly: bool)

  datatype Request = Request(source: string, path: string, subPath: string, readOnly: bool)

  datatype DataMount = DataMount(path: string, subPath: string)

  datatype Container = Container(shared: seq<Request>, configs: seq<Request>, data: seq<DataMount>)

  datatype Runtime = Runtime(image: string, main: Container, inits: seq<Container>)

  const DATA: string := "workspace-data"

  // ----- names -----

  function Prefix(kind: Kind): string {
    match kind
    case SharedClaim => "shared-vol-"
    case ConfigFile => "cm-vol-"
  }

  function NameOf(kind: Kind, n: nat): string {
    Prefix(kind) + NatToString(n)
  }

  function SourceOf(need: Need): Source {
    match need.kind
    case SharedClaim => Claim(need.source)
    case ConfigFile => ConfigMap(need.source, 0x1ed)
  }

  lemma NameOfInjective(k: Kind, m: nat, l: Kind, n: nat)
    requires NameOf(k, m) == NameOf(l, n)
    ensures k == l && m == n
  {
    assert NameOf(k, m)[0] == Prefix(k)[0] && NameOf(l, n)[0] == Prefix(l)[0];
    assert NameOf(k, m)[|Prefix(k)|..] == NatToString(m);
    assert NameOf(l, n)[|Prefix(l)|..] == NatToString(n);
    NatToStringInjective(m, n);
  }

  lemma NameOfIsNotData(k: Kind, n: nat)
    ensures NameOf(k, n) != DATA
  {
    assert NameOf(k, n)[0] == Prefix(k)[0];
  }

  // ----- what the whole Pod asks for, in the order in which the containers are visited -----

  function Needs(kind: Kind, requests: seq<Request>): (r: seq<Need>)
    ensures |r| == |requests|
    ensures forall i :: 0 <= i < |r| ==> r[i] == Need(kind, requests[i].source)
  {
    seq(|requests|, i requires 0 <= i < |requests| => Need(kind, requests[i].source))
  }

  function ContainerNeeds(c: Container): seq<Need> {
    Needs(SharedClaim, c.shared) + Needs(ConfigFile, c.configs)
  }

  /** The needs of the main container and the first `n` init containers. */
  function NeedsOf(rt: Runtime, n: nat): seq<Need>
    requires n <= |rt.inits|
  {
    if n == 0 then ContainerNeeds(rt.main) else NeedsOf(rt, n - 1) + ContainerNeeds(rt.inits[n - 1])
  }

  function AllNeeds(rt: Runtime): seq<Need> {
    NeedsOf(rt, |rt.inits|)
  }

  /** The requests stand in `all` from position `p` on. */
  ghost predicate At(all: seq<Need>, p: nat, kind: Kind, requests: seq<Request>) {
    && p + |requests| <= |all|
    && forall i :: 0 <= i < |requests| ==> all[p + i] == Need(kind, requests[i].source)
  }

  ghost predicate ContainerAt(all: seq<Need>, p: nat, c: Container) {
    At(all, p, SharedClaim, c.shared) && At(all, p + |c.shared|, ConfigFile, c.configs)
  }

  ghost function EndOf(p: nat, c: Container): nat {
    p + |c.shared| + |c.configs|
  }

  // ----- the meaning of the allocation -----

  /** One of the first `n` needs is `need`. */
  ghost predicate Met(all: seq<Need>, n: nat, need: Need)
    requires n <= |all|
  {
    exists i :: 0 <= i < n && all[i] == need
  }

  ghost predicate IsFirst(all: seq<Need>, i: nat) {
    i < |all| && !Met(all, i, all[i])
  }

  /** How many different sources of one kind there are among the first `n` needs. */
  ghost function Count(all: seq<Need>, n: nat, kind: Kind): nat
    requires n <= |all|
  {
    if n == 0 then 0
    else Count(all, n - 1, kind) + if IsFirst(all, n - 1) && all[n - 1].kind == kind then 1 else 0
  }

  ghost function FirstIndex(all: seq<Need>, n: nat, need: Need): (i: nat)
    requires n <= |all| && Met(all, n, need)
    ensures i < n && all[i] == need && IsFirst(all, i)
  {
    if Met(all, n - 1, need) then FirstIndex(all, n - 1, need) else n - 1
  }

  /** A source is numbered by how many others of its kind are asked for before it. */
  ghost function Name(all: seq<Need>, need: Need): string {
    if Met(all, |all|, need) then NameOf(need.kind, Count(all, FirstIndex(all, |all|, need), need.kind)) else ""
  }

  ghost function VolumeAt(all: seq<Need>, i: nat): Volume
    requires i < |all|
  {
    Volume(NameOf(all[i].kind, Count(all, i, all[i].kind)), SourceOf(all[i]))
  }

  /** The positions of the first mentions. */
  ghost function Firsts(all: seq<Need>, n: nat): seq<nat>
    requires n <= |all|
  {
    if n == 0 then [] else Firsts(all, n - 1) + if IsFirst(all, n - 1) then [n - 1] else []
  }

  /** The volumes declared after the first `n` needs. */
  ghost function Declared(source: Source, all: seq<Need>, n: nat): seq<Volume>
    requires n <= |all|
  {
    if n == 0 then [Volume(DATA, source)]
    else if IsFirst(all, n - 1) then Declared(source, all, n - 1) + [VolumeAt(all, n - 1)]
    else Declared(source, all, n - 1)
  }

  /** The name of the volume for each need. */
  type Naming = Need -> string

  ghost function NameIn(all: seq<Need>): Naming {
    need => Name(all, need)
  }

  function MountOf(name: Naming, kind: Kind, r: Request): Mount {
    Mount(name(Need(kind, r.source)), r.path, r.subPath, r.readOnly)
  }

  /** The mounts for the first `n` requests. */
  function RequestMounts(name: Naming, kind: Kind, requests: seq<Request>, n: nat): (ms: seq<Mount>)
    requires n <= |requests|
    ensures |ms| == n && forall i :: 0 <= i < n ==> ms[i] == MountOf(name, kind, requests[i])
  {
    seq(n, i requires 0 <= i < n => MountOf(name, kind, requests[i]))
  }

  function DataMountsOf(ds: seq<DataMount>): (ms: seq<Mount>)
    ensures |ms| == |ds| && forall i :: 0 <= i < |ms| ==> ms[i] == Mount(DATA, ds[i].path, ds[i].subPath, false)
  {
    seq(|ds|, i requires 0 <= i < |ds| => Mount(DATA, ds[i].path, ds[i].subPath, false))
  }

  function ContainerMounts(name: Naming, c: Container, data: seq<DataMount>): seq<Mount> {
    RequestMounts(name, SharedClaim, c.shared, |c.shared|) + RequestMounts(name, ConfigFile, c.configs, |c.configs|)
    + DataMountsOf(data)
  }

  predicate OccursAt(s: string, i: nat, part: string) {
    i + |part| <= |s| && s[i..i + |part|] == part
  }

  predicate Contains(s: string, part: string) {
    exists i :: 0 <= i <= |s| && OccursAt(s, i, part)
  }

  /** The directories of the main container's data volume. */
  function MainData(rt: Runtime): seq<DataMount> {
    if rt.main.data != [] then rt.main.data
    else [DataMount("/workspace", "workspace")]
         + if Contains(rt.image, "smanx/opencode")
           then [DataMount("/root/.config/opencode", "config"), DataMount("/root/.local/share/opencode", "share"),
                 DataMount("/root/.local/state/opencode", "state"), DataMount("/root/.cache/opencode", "cache")]
           else []
  }

  // ----- facts about the numbering -----

  lemma FirstIsUnique(all: seq<Need>, i: nat, j: nat)
    requires IsFirst(all, i) && IsFirst(all, j) && all[i] == all[j]
    ensures i == j
  {
  }

  lemma NameAtFirst(all: seq<Need>, i: nat)
    requires IsFirst(all, i)
    ensures Met(all, |all|, all[i]) && Name(all, all[i]) == NameOf(all[i].kind, Count(all, i, all[i].kind))
  {
    FirstIsUnique(all, i, FirstIndex(all, |all|, all[i]));
  }

  lemma {:induction false} CountGrows(all: seq<Need>, i: nat, n: nat)
    requires i < n <= |all| && IsFirst(all, i)
    ensures Count(all, i, all[i].kind) < Count(all, n, all[i].kind)
  {
    if i < n - 1 {
      CountGrows(all, i, n - 1);
    }
  }

  lemma VolumeNamesDiffer(all: seq<Need>, i: nat, j: nat)
    requires i < j && IsFirst(all, i) && IsFirst(all, j)
    ensures VolumeAt(all, i).name != VolumeAt(all, j).name
    ensures VolumeAt(all, i).source != VolumeAt(all, j).source
  {
    CountGrows(all, i, j);
    var m, n := Count(all, i, all[i].kind), Count(all, j, all[j].kind);
    if NameOf(all[i].kind, m) == NameOf(all[j].kind, n) {
      NameOfInjective(all[i].kind, m, all[j].kind, n);
    }
  }

  lemma {:induction false} FirstsIncrease(all: seq<Need>, n: nat)
    requires n <= |all|
    ensures forall k :: 0 <= k < |Firsts(all, n)| ==> Firsts(all, n)[k] < n && IsFirst(all, Firsts(all, n)[k])
    ensures forall k, l :: 0 <= k < l < |Firsts(all, n)| ==> Firsts(all, n)[k] < Firsts(all, n)[l]
  {
    if n > 0 {
      FirstsIncrease(all, n - 1);
    }
  }

  lemma {:induction false} DeclaredAreFirsts(source: Source, all: seq<Need>, n: nat)
    requires n <= |all|
    ensures |Declared(source, all, n)| == |Firsts(all, n)| + 1
    ensures Declared(source, all, n)[0] == Volume(DATA, source)
    ensures forall k :: 0 <= k < |Firsts(all, n)| ==>
                          Firsts(all, n)[k] < |all|
                          && Declared(source, all, n)[k + 1] == VolumeAt(all, Firsts(all, n)[k])
  {
    if n > 0 {
      DeclaredAreFirsts(source, all, n - 1);
    }
  }

  lemma {:induction false} FirstsAreAll(all: seq<Need>, n: nat, i: nat)
    requires n <= |all| && i < n && IsFirst(all, i)
    ensures i in Firsts(all, n)
  {
    if i < n - 1 {
      FirstsAreAll(all, n - 1, i);
    }
  }

  ghost function Different(all: seq<Need>, n: nat): set<Need>
    requires n <= |all|
  {
    set i | 0 <= i < n :: all[i]
  }

  lemma {:induction false} OneEach(all: seq<Need>, n: nat)
    requires n <= |all|
    ensures |Firsts(all, n)| == |Different(all, n)|
  {
    if n > 0 {
      OneEach(all, n - 1);
      assert Different(all, n) == Different(all, n - 1) + {all[n - 1]};
      assert all[n - 1] in Different(all, n - 1) <==> Met(all, n - 1, all[n - 1]);
    }
  }

  // ----- building -----

  /** What the map of one kind holds after the first `n` needs. */
  ghost function Names(all: seq<Need>, n: nat, kind: Kind): map<string, string>
    requires n <= |all|
  {
    if n == 0 then map[]
    else if IsFirst(all, n - 1) && all[n - 1].kind == kind
    then Names(all, n - 1, kind)[all[n - 1].source := NameOf(kind, Count(all, n - 1, kind))]
    else Names(all, n - 1, kind)
  }

  lemma {:induction false} NamesMeaning(all: seq<Need>, n: nat, kind: Kind, s: string)
    requires n <= |all|
    ensures s in Names(all, n, kind) <==> Met(all, n, Need(kind, s))
    ensures s in Names(all, n, kind) ==> Names(all, n, kind)[s] == Name(all, Need(kind, s))
  {
    if n > 0 {
      NamesMeaning(all, n - 1, kind, s);
      var need := all[n - 1];
      assert Met(all, n, Need(kind, s)) <==> Met(all, n - 1, Need(kind, s)) || need == Need(kind, s);
      if need == Need(kind, s) && IsFirst(all, n - 1) {
        NameAtFirst(all, n - 1);
      }
    }
  }

  /** The local variables of the construction: the volumes, and a map and a counter for each kind. */
  datatype Allocation = Allocation(volumes: seq<Volume>, shared: map<string, string>, sharedCount: nat,
                                   config: map<string, string>, configCount: nat)

  /** What a need does to them. */
  ghost function Allocated(a: Allocation, need: Need): Allocation {
    match need.kind
    case SharedClaim =>
      if need.source in a.shared then a
      else
        var name := NameOf(SharedClaim, a.sharedCount);
        a.(volumes := a.volumes + [Volume(name, SourceOf(need))], shared := a.shared[need.source := name],
           sharedCount := a.sharedCount + 1)
    case ConfigFile =>
      if need.source in a.config then a
      else
        var name := NameOf(ConfigFile, a.configCount);
        a.(volumes := a.volumes + [Volume(name, SourceOf(need))], config := a.config[need.source := name],
           configCount := a.configCount + 1)
  }

  /** What they hold after the first `n` needs. */
  ghost function After(source: Source, all: seq<Need>, n: nat): Allocation
    requires n <= |all|
  {
    if n == 0 then Allocation([Volume(DATA, source)], map[], 0, map[], 0)
    else Allocated(After(source, all, n - 1), all[n - 1])
  }

  /** That is: the volumes of the first mentions, the names by the numbering, and the numbers of different sources. */
  ghost function Meant(source: Source, all: seq<Need>, n: nat): Allocation
    requires n <= |all|
  {
    Allocation(Declared(source, all, n), Names(all, n, SharedClaim), Count(all, n, SharedClaim),
               Names(all, n, ConfigFile), Count(all, n, ConfigFile))
  }

  lemma NextMeant(source: Source, all: seq<Need>, n: nat)
    requires n < |all|
    ensures Meant(source, all, n + 1) == Allocated(Meant(source, all, n), all[n])
  {
    var need := all[n];
    NamesMeaning(all, n, need.kind, need.source);
    assert need == Need(need.kind, need.source);
  }

  lemma {:induction false} AfterIsMeant(source: Source, all: seq<Need>, n: nat)
    requires n <= |all|
    ensures After(source, all, n) == Meant(source, all, n)
  {
    if n > 0 {
      AfterIsMeant(source, all, n - 1);
      NextMeant(source, all, n - 1);
    }
  }

  /** Once a need has been met, its name is in the map of its kind. */
  lemma NameInMap(source: Source, all: seq<Need>, n: nat)
    requires n < |all|
    ensures var need, a := all[n], After(source, all, n + 1);
            var names := if need.kind.SharedClaim? then a.shared else a.config;
            need.source in names && names[need.source] == NameIn(all)(need)
  {
    var need := all[n];
    AfterIsMeant(source, all, n + 1);
    NamesMeaning(all, n + 1, need.kind, need.source);
    assert need == Need(need.kind, need.source);
    assert Met(all, n + 1, need);
  }

  // The next two are the bodies of the loops over the claims and over the ConfigMaps.

  method MountClaim(r: Request, a0: Allocation, ghost source: Source, ghost all: seq<Need>, ghost n: nat,
                    ghost name: Naming)
    returns (a: Allocation, mount: Mount)
    requires n < |all| && all[n] == Need(SharedClaim, r.source) && a0 == After(source, all, n) && name == NameIn(all)
    ensures a == After(source, all, n + 1) && mount == MountOf(name, SharedClaim, r)
  {
    NameInMap(source, all, n);
    a := a0;
    if r.source !in a.shared {
      var name := NameOf(SharedClaim, a.sharedCount);
      a := a.(shared := a.shared[r.source := name], sharedCount := a.sharedCount + 1,
              volumes := a.volumes + [Volume(name, Claim(r.source))]);
    }
    mount := Mount(a.shared[r.source], r.path, r.subPath, r.readOnly);
  }

  method MountConfig(r: Request, a0: Allocation, ghost source: Source, ghost all: seq<Need>, ghost n: nat,
                     ghost name: Naming)
    returns (a: Allocation, mount: Mount)
    requires n < |all| && all[n] == Need(ConfigFile, r.source) && a0 == After(source, all, n) && name == NameIn(all)
    ensures a == After(source, all, n + 1) && mount == MountOf(name, ConfigFile, r)
  {
    NameInMap(source, all, n);
    a := a0;
    if r.source !in a.config {
      var name := NameOf(ConfigFile, a.configCount);
      a := a.(config := a.config[r.source := name], configCount := a.configCount + 1,
              volumes := a.volumes + [Volume(name, ConfigMap(r.source, 0x1ed))]);
    }
    mount := Mount(a.config[r.source], r.path, r.subPath, r.readOnly);
  }

  method MountData(data: seq<DataMount>) returns (mounts: seq<Mount>)
    ensures mounts == DataMountsOf(data)
  {
    mounts := [];
    for i := 0 to |data|
      invariant |mounts| == i
      invariant forall k :: 0 <= k < i ==> mounts[k] == Mount(DATA, data[k].path, data[k].subPath, false)
    {
      mounts := mounts + [Mount(DATA, data[i].path, data[i].subPath, false)];
    }
  }

  lemma NextMount(name: Naming, kind: Kind, requests: seq<Request>, i: nat, mount: Mount)
    requires i < |requests| && mount == MountOf(name, kind, requests[i])
    ensures RequestMounts(name, kind, requests, i) + [mount] == RequestMounts(name, kind, requests, i + 1)
  {
    var a, b := RequestMounts(name, kind, requests, i) + [mount], RequestMounts(name, kind, requests, i + 1);
    assert forall k :: 0 <= k < i ==> a[k] == b[k];
  }

  lemma RequestAt(all: seq<Need>, p: nat, kind: Kind, requests: seq<Request>, i: nat, n: nat)
    requires At(all, p, kind, requests) && i < |requests| && n == p + i
    ensures n < |all| && all[n] == Need(kind, requests[i].source)
  {
    assert all[p + i] == Need(kind, requests[i].source);
  }

  method MountClaims(requests: seq<Request>, a0: Allocation,
                    ghost source: Source, ghost all: seq<Need>, ghost p: nat, ghost q: nat, ghost name: Naming)
    returns (a: Allocation, mounts: seq<Mount>)
    requires At(all, p, SharedClaim, requests) && q == p + |requests| && a0 == After(source, all, p) && name == NameIn(all)
    ensures a == After(source, all, q) && mounts == RequestMounts(name, SharedClaim, requests, |requests|)
  {
    a, mounts := a0, [];
    ghost var n := p;
    for i := 0 to |requests|
      invariant n == p + i && a == After(source, all, n)
      invariant mounts == RequestMounts(name, SharedClaim, requests, i)
    {
      var mount;
      RequestAt(all, p, SharedClaim, requests, i, n);
      a, mount := MountClaim(requests[i], a, source, all, n, name);
      NextMount(name, SharedClaim, requests, i, mount);
      mounts := mounts + [mount];
      n := n + 1;
    }
    assert n == q;
  }

  method MountConfigs(requests: seq<Request>, a0: Allocation,
                     ghost source: Source, ghost all: seq<Need>, ghost p: nat, ghost q: nat, ghost name: Naming)
    returns (a: Allocation, mounts: seq<Mount>)
    requires At(all, p, ConfigFile, requests) && q == p + |requests| && a0 == After(source, all, p) && name == NameIn(all)
    ensures a == After(source, all, q) && mounts == RequestMounts(name, ConfigFile, requests, |requests|)
  {
    a, mounts := a0, [];
    ghost var n := p;
    for i := 0 to |requests|
      invariant n == p + i && a == After(source, all, n)
      invariant mounts == RequestMounts(name, ConfigFile, requests, i)
    {
      var mount;
      RequestAt(all, p, ConfigFile, requests, i, n);
      a, mount := MountConfig(requests[i], a, source, all, n, name);
      NextMount(name, ConfigFile, requests, i, mount);
      mounts := mounts + [mount];
      n := n + 1;
    }
    assert n == q;
  }

  /** The claims and the ConfigMaps of one container. */
  method MountSources(c: Container, a0: Allocation,
                      ghost source: Source, ghost all: seq<Need>, ghost p: nat, ghost e: nat, ghost name: Naming)
    returns (a: Allocation, claims: seq<Mount>, configs: seq<Mount>)
    requires ContainerAt(all, p, c) && e == EndOf(p, c) && a0 == After(source, all, p) && name == NameIn(all)
    ensures a == After(source, all, e)
    ensures claims == RequestMounts(name, SharedClaim, c.shared, |c.shared|)
    ensures configs == RequestMounts(name, ConfigFile, c.configs, |c.configs|)
  {
    ghost var q := p + |c.shared|;
    a, claims := MountClaims(c.shared, a0, source, all, p, q, name);
    a, configs := MountConfigs(c.configs, a, source, all, q, e, name);
  }

  /** And its data directories. */
  method MountContainer(c: Container, data: seq<DataMount>, a0: Allocation,
                        ghost source: Source, ghost all: seq<Need>, ghost p: nat, ghost e: nat, ghost name: Naming)
    returns (a: Allocation, mounts: seq<Mount>)
    requires ContainerAt(all, p, c) && e == EndOf(p, c) && a0 == After(source, all, p) && name == NameIn(all)
    ensures a == After(source, all, e)
    ensures mounts == ContainerMounts(name, c, data)
  {
    var claims, configs;
    a, claims, configs := MountSources(c, a0, source, all, p, e, name);
    var dataMounts := MountData(data);
    mounts := claims + configs + dataMounts;
  }

  /** One round of the loop over the init containers, which have no data directories by default. */
  method MountInit(rt: Runtime, i: nat, a0: Allocation, ghost source: Source) returns (a: Allocation, mounts: seq<Mount>)
    requires i < |rt.inits| && InitLocated(rt, i) && a0 == After(source, AllNeeds(rt), Start(rt, i))
    ensures Start(rt, i + 1) <= |AllNeeds(rt)| && a == After(source, AllNeeds(rt), Start(rt, i + 1))
    ensures mounts == InitMounts(rt, i)
  {
    a, mounts := MountContainer(rt.inits[i], rt.inits[i].data, a0, source, AllNeeds(rt), Start(rt, i), Start(rt, i + 1),
                                NameIn(AllNeeds(rt)));
  }

  method MountInits(rt: Runtime, a0: Allocation, ghost source: Source) returns (a: Allocation, initMounts: seq<seq<Mount>>)
    requires InitsLocated(rt) && Start(rt, 0) <= |AllNeeds(rt)| && a0 == After(source, AllNeeds(rt), Start(rt, 0))
    ensures Start(rt, |rt.inits|) <= |AllNeeds(rt)| && a == After(source, AllNeeds(rt), Start(rt, |rt.inits|))
    ensures initMounts == FirstInitMounts(rt, |rt.inits|)
  {
    a, initMounts := a0, [];
    for i := 0 to |rt.inits|
      invariant Start(rt, i) <= |AllNeeds(rt)| && a == After(source, AllNeeds(rt), Start(rt, i))
      invariant initMounts == FirstInitMounts(rt, i)
    {
      var ms;
      a, ms := MountInit(rt, i, a, source);
      NextInit(rt, i, ms);
      initMounts := initMounts + [ms];
    }
  }

  /** The volumes of the Pod and the mounts of its containers. */
  method Build(rt: Runtime, source: Source)
    returns (volumes: seq<Volume>, mounts: seq<Mount>, initMounts: seq<seq<Mount>>)
    ensures volumes == Pod(AllNeeds(rt), source)
    ensures mounts == MainMounts(rt) && initMounts == FirstInitMounts(rt, |rt.inits|)
  {
    ContainersLocated(rt);
    var a := Allocation([Volume(DATA, source)], map[], 0, map[], 0);
    a, mounts := MountContainer(rt.main, MainData(rt), a, source, AllNeeds(rt), 0, Start(rt, 0), NameIn(AllNeeds(rt)));
    a, initMounts := MountInits(rt, a, source);
    volumes := a.volumes;
    AfterIsMeant(source, AllNeeds(rt), |AllNeeds(rt)|);
  }

  /** Where the needs of an init container start. */
  ghost function Start(rt: Runtime, i: nat): nat
    requires i <= |rt.inits|
  {
    if i == 0 then EndOf(0, rt.main) else EndOf(Start(rt, i - 1), rt.inits[i - 1])
  }

  ghost predicate MainLocated(rt: Runtime) {
    ContainerAt(AllNeeds(rt), 0, rt.main)
  }

  ghost predicate InitLocated(rt: Runtime, i: nat)
    requires i < |rt.inits|
  {
    ContainerAt(AllNeeds(rt), Start(rt, i), rt.inits[i])
  }

  ghost function MainMounts(rt: Runtime): seq<Mount> {
    ContainerMounts(NameIn(AllNeeds(rt)), rt.main, MainData(rt))
  }

  ghost predicate InitsLocated(rt: Runtime) {
    forall i :: 0 <= i < |rt.inits| ==> InitLocated(rt, i)
  }

  /** The mounts of the first `n` init containers. */
  ghost function FirstInitMounts(rt: Runtime, n: nat): (ms: seq<seq<Mount>>)
    requires n <= |rt.inits|
    ensures |ms| == n && forall i :: 0 <= i < n ==> ms[i] == InitMounts(rt, i)
  {
    seq(n, i requires 0 <= i < n => InitMounts(rt, i))
  }

  lemma NextInit(rt: Runtime, i: nat, mounts: seq<Mount>)
    requires i < |rt.inits| && mounts == InitMounts(rt, i)
    ensures FirstInitMounts(rt, i) + [mounts] == FirstInitMounts(rt, i + 1)
  {
    var a, b := FirstInitMounts(rt, i) + [mounts], FirstInitMounts(rt, i + 1);
    assert forall k :: 0 <= k < i ==> a[k] == b[k];
  }

  ghost function InitMounts(rt: Runtime, i: nat): seq<Mount>
    requires i < |rt.inits|
  {
    ContainerMounts(NameIn(AllNeeds(rt)), rt.inits[i], rt.inits[i].data)
  }

  lemma ContainersLocated(rt: Runtime)
    ensures Start(rt, |rt.inits|) == |AllNeeds(rt)|
    ensures MainLocated(rt)
    ensures InitsLocated(rt)
  {
    StartIsLength(rt, |rt.inits|);
    MainAt(rt, |rt.inits|);
    forall i | 0 <= i < |rt.inits| ensures InitLocated(rt, i) {
      InitAt(rt, i, |rt.inits|);
    }
  }

  lemma {:induction false} StartIsLength(rt: Runtime, n: nat)
    requires n <= |rt.inits|
    ensures Start(rt, n) == |NeedsOf(rt, n)|
  {
    if n > 0 {
      StartIsLength(rt, n - 1);
    }
  }

  lemma {:induction false} MainAt(rt: Runtime, n: nat)
    requires n <= |rt.inits|
    ensures ContainerAt(NeedsOf(rt, n), 0, rt.main)
  {
    if n > 0 {
      MainAt(rt, n - 1);
      StillAt(NeedsOf(rt, n - 1), ContainerNeeds(rt.inits[n - 1]), 0, rt.main);
    }
  }

  lemma {:induction false} InitAt(rt: Runtime, i: nat, n: nat)
    requires i < n <= |rt.inits|
    ensures ContainerAt(NeedsOf(rt, n), Start(rt, i), rt.inits[i])
    decreases n
  {
    var before, more := NeedsOf(rt, n - 1), ContainerNeeds(rt.inits[n - 1]);
    if i == n - 1 {
      StartIsLength(rt, i);
      JustAdded(before, rt.inits[i]);
    } else {
      InitAt(rt, i, n - 1);
      StillAt(before, more, Start(rt, i), rt.inits[i]);
    }
  }

  lemma JustAdded(all: seq<Need>, c: Container)
    ensures ContainerAt(all + ContainerNeeds(c), |all|, c)
  {
  }

  lemma StillAt(all: seq<Need>, more: seq<Need>, p: nat, c: Container)
    requires ContainerAt(all, p, c)
    ensures ContainerAt(all + more, p, c)
  {
  }

  // ----- what it means -----

  /** The sources of all the volumes with a name, among the first `n`. */
  ghost function SourcesNamed(volumes: seq<Volume>, n: nat, name: string): seq<Source>
    requires n <= |volumes|
  {
    if n == 0 then []
    else SourcesNamed(volumes, n - 1, name) + if volumes[n - 1].name == name then [volumes[n - 1].source] else []
  }

  /** Exactly one of the volumes has the name, and its source is the given one. */
  ghost predicate Serves(volumes: seq<Volume>, name: string, source: Source) {
    SourcesNamed(volumes, |volumes|, name) == [source]
  }

  lemma {:induction false} NamedOnce(volumes: seq<Volume>, n: nat, i: nat)
    requires DistinctNames(volumes) && n <= |volumes| && i < |volumes|
    ensures SourcesNamed(volumes, n, volumes[i].name) == if i < n then [volumes[i].source] else []
  {
    if n > 0 {
      NamedOnce(volumes, n - 1, i);
      assert i != n - 1 ==> volumes[i].name != volumes[n - 1].name;
    }
  }

  ghost predicate MountFor(volumes: seq<Volume>, m: Mount, kind: Kind, r: Request) {
    && m == Mount(m.name, r.path, r.subPath, r.readOnly)
    && Serves(volumes, m.name, if kind.SharedClaim? then Claim(r.source) else ConfigMap(r.source, 493))
  }

  ghost predicate DataMountFor(volumes: seq<Volume>, m: Mount, source: Source, d: DataMount) {
    && m == Mount(m.name, d.path, d.subPath, false)
    && Serves(volumes, m.name, source)
  }

  /** The mounts of one container are those it asks for, in its order, each on the volume it asks for. */
  ghost predicate Realises(volumes: seq<Volume>, source: Source, c: Container, ds: seq<DataMount>, ms: seq<Mount>) {
    var s, t := |c.shared|, |c.shared| + |c.configs|;
    && |ms| == t + |ds|
    && MountsFor(volumes, ms[..s], SharedClaim, c.shared)
    && MountsFor(volumes, ms[s..t], ConfigFile, c.configs)
    && DataMountsFor(volumes, ms[t..], source, ds)
  }

  ghost predicate DataMountsFor(volumes: seq<Volume>, ms: seq<Mount>, source: Source, ds: seq<DataMount>) {
    |ms| == |ds| && forall k :: 0 <= k < |ms| ==> DataMountFor(volumes, ms[k], source, ds[k])
  }

  ghost predicate MountsFor(volumes: seq<Volume>, ms: seq<Mount>, kind: Kind, requests: seq<Request>) {
    |ms| == |requests| && forall k :: 0 <= k < |ms| ==> MountFor(volumes, ms[k], kind, requests[k])
  }

  ghost function Pod(all: seq<Need>, source: Source): seq<Volume> {
    Declared(source, all, |all|)
  }

  ghost predicate DistinctNames(volumes: seq<Volume>) {
    forall i, j :: 0 <= i < j < |volumes| ==> volumes[i].name != volumes[j].name
  }

  /** No two volumes have the same name. */
  lemma VolumeNamesAreDistinct(all: seq<Need>, source: Source)
    ensures DistinctNames(Pod(all, source))
  {
    var v, f := Pod(all, source), Firsts(all, |all|);
    FirstsIncrease(all, |all|);
    DeclaredAreFirsts(source, all, |all|);
    forall i, j | 0 <= i < j < |v| ensures v[i].name != v[j].name {
      var b := f[j - 1];
      if i == 0 {
        NameOfIsNotData(all[b].kind, Count(all, b, all[b].kind));
      } else {
        VolumeNamesDiffer(all, f[i - 1], b);
      }
    }
  }

  /** One of the needs is for this source. */
  predicate AskedFor(all: seq<Need>, s: Source) {
    match s
    case Claim(name) => Need(SharedClaim, name) in all
    case ConfigMap(name, mode) => Need(ConfigFile, name) in all && mode == 493
    case HostPath(_) => false
  }

  lemma NeedIsAskedFor(all: seq<Need>, i: nat)
    requires i < |all|
    ensures AskedFor(all, VolumeAt(all, i).source)
  {
    var n := all[i];
    assert n in all && n == Need(n.kind, n.source);
  }

  /** Next to the data volume there is one volume for each different need, and nothing else. */
  lemma EachSourceDeclaredOnce(all: seq<Need>, source: Source)
    ensures var v := Pod(all, source);
            && |v| == 1 + |set n | n in all| && v[0] == Volume("workspace-data", source)
            && (forall i, j :: 1 <= i < j < |v| ==> v[i].source != v[j].source)
            && (forall i :: 1 <= i < |v| ==> AskedFor(all, v[i].source))
  {
    var v, f := Pod(all, source), Firsts(all, |all|);
    FirstsIncrease(all, |all|);
    DeclaredAreFirsts(source, all, |all|);
    OneEach(all, |all|);
    assert Different(all, |all|) == set n | n in all;
    forall i, j | 1 <= i < j < |v| ensures v[i].source != v[j].source {
      VolumeNamesDiffer(all, f[i - 1], f[j - 1]);
    }
    forall i | 1 <= i < |v| ensures AskedFor(all, v[i].source) {
      NeedIsAskedFor(all, f[i - 1]);
    }
  }

  lemma NeedIsServed(all: seq<Need>, source: Source, need: Need)
    requires Met(all, |all|, need)
    ensures Serves(Pod(all, source), Name(all, need), SourceOf(need))
  {
    var i := FirstIndex(all, |all|, need);
    DeclaredAreFirsts(source, all, |all|);
    FirstsAreAll(all, |all|, i);
    var k :| 0 <= k < |Firsts(all, |all|)| && Firsts(all, |all|)[k] == i;
    VolumeNamesAreDistinct(all, source);
    assert Pod(all, source)[k + 1] == Volume(Name(all, need), SourceOf(need));
    NamedOnce(Pod(all, source), |Pod(all, source)|, k + 1);
  }

  ghost predicate AllServed(volumes: seq<Volume>, name: Naming, needs: seq<Need>) {
    forall n <- needs :: Serves(volumes, name(n), SourceOf(n))
  }

  lemma RequestsServed(volumes: seq<Volume>, name: Naming, kind: Kind, requests: seq<Request>)
    requires AllServed(volumes, name, Needs(kind, requests))
    ensures MountsFor(volumes, RequestMounts(name, kind, requests, |requests|), kind, requests)
  {
    var ms := RequestMounts(name, kind, requests, |requests|);
    forall k | 0 <= k < |requests| ensures MountFor(volumes, ms[k], kind, requests[k]) {
      assert Needs(kind, requests)[k] in Needs(kind, requests);
    }
  }

  lemma Realised(volumes: seq<Volume>, name: Naming, source: Source, c: Container, data: seq<DataMount>)
    requires AllServed(volumes, name, ContainerNeeds(c)) && Serves(volumes, DATA, source)
    ensures Realises(volumes, source, c, data, ContainerMounts(name, c, data))
  {
    RequestsServed(volumes, name, SharedClaim, c.shared);
    RequestsServed(volumes, name, ConfigFile, c.configs);
    var a := RequestMounts(name, SharedClaim, c.shared, |c.shared|);
    var b := RequestMounts(name, ConfigFile, c.configs, |c.configs|);
    var ms := ContainerMounts(name, c, data);
    assert ms[..|a|] == a && ms[|a|..|a| + |b|] == b && ms[|a| + |b|..] == DataMountsOf(data);
  }

  lemma DataServed(all: seq<Need>, source: Source)
    ensures Serves(Pod(all, source), DATA, source)
  {
    var v := Pod(all, source);
    VolumeNamesAreDistinct(all, source);
    DeclaredAreFirsts(source, all, |all|);
    assert v[0] == Volume(DATA, source);
    NamedOnce(v, |v|, 0);
  }

  /** Whatever a container asks for, it gets. */
  lemma MountsKeepMeaning(all: seq<Need>, source: Source, c: Container, data: seq<DataMount>)
    requires forall n <- ContainerNeeds(c) :: n in all
    ensures Realises(Pod(all, source), source, c, data, ContainerMounts(NameIn(all), c, data))
  {
    var v, name := Pod(all, source), NameIn(all);
    forall n | n in ContainerNeeds(c) ensures Serves(v, name(n), SourceOf(n)) {
      assert Met(all, |all|, n);
      NeedIsServed(all, source, n);
    }
    DataServed(all, source);
    Realised(v, name, source, c, data);
  }

  lemma LocatedNeedsAreAmong(all: seq<Need>, p: nat, c: Container)
    requires ContainerAt(all, p, c)
    ensures forall n <- ContainerNeeds(c) :: n in all
  {
    forall n | n in ContainerNeeds(c) ensures n in all {
      var k :| 0 <= k < |ContainerNeeds(c)| && ContainerNeeds(c)[k] == n;
      assert all[p + k] == n;
    }
  }

  ghost predicate InitRealised(rt: Runtime, source: Source, i: nat, ms: seq<Mount>)
    requires i < |rt.inits|
  {
    Realises(Pod(AllNeeds(rt), source), source, rt.inits[i], rt.inits[i].data, ms)
  }

  lemma InitMountsRealise(rt: Runtime, source: Source, i: nat)
    requires i < |rt.inits| && InitLocated(rt, i)
    ensures InitRealised(rt, source, i, InitMounts(rt, i))
  {
    LocatedNeedsAreAmong(AllNeeds(rt), Start(rt, i), rt.inits[i]);
    MountsKeepMeaning(AllNeeds(rt), source, rt.inits[i], rt.inits[i].data);
  }

  /** All of it for one Pod: what `Build` returns realises the requests of every container. */
  lemma BuildKeepsMeaning(rt: Runtime, source: Source)
    ensures Realises(Pod(AllNeeds(rt), source), source, rt.main, MainData(rt), MainMounts(rt))
    ensures var ms := FirstInitMounts(rt, |rt.inits|);
            && |ms| == |rt.inits|
            && forall i :: 0 <= i < |ms| ==> InitRealised(rt, source, i, ms[i])
  {
    ContainersLocated(rt);
    LocatedNeedsAreAmong(AllNeeds(rt), 0, rt.main);
    MountsKeepMeaning(AllNeeds(rt), source, rt.main, MainData(rt));
    forall i | 0 <= i < |rt.inits| ensures InitRealised(rt, source, i, FirstInitMounts(rt, |rt.inits|)[i]) {
      InitMountsRealise(rt, source, i);
    }
  }

  /** The data directories that are asked for are mounted as asked. */
  lemma AskedDataIsMounted(rt: Runtime, source: Source)
    requires rt.main.data != []
    ensures Realises(Pod(AllNeeds(rt), source), source, rt.main, rt.main.data, MainMounts(rt))
  {
    BuildKeepsMeaning(rt, source);
  }

  const WORKING: DataMount := DataMount("/workspace", "workspace")

  const OPENCODE: seq<DataMount> :=
    [DataMount("/root/.config/opencode", "config"), DataMount("/root/.local/share/opencode", "share"),
     DataMount("/root/.local/state/opencode", "state"), DataMount("/root/.cache/opencode", "cache")]

  /** Without any the working directory is mounted, and four directories more exactly for the images with that
      text in their names. */
  lemma DefaultDataIsMounted(rt: Runtime, source: Source)
    requires rt.main.data == []
    ensures (exists a, b :: rt.image == a + "smanx/opencode" + b) ==>
              Realises(Pod(AllNeeds(rt), source), source, rt.main, [WORKING] + OPENCODE, MainMounts(rt))
    ensures !(exists a, b :: rt.image == a + "smanx/opencode" + b) ==>
              Realises(Pod(AllNeeds(rt), source), source, rt.main, [WORKING], MainMounts(rt))
  {
    BuildKeepsMeaning(rt, source);
    ContainsMeans(rt.image, "smanx/opencode");
    assert [WORKING] + [] == [WORKING];
  }

  lemma ContainsMeans(s: string, part: string)
    ensures Contains(s, part) <==> exists a, b :: s == a + part + b
  {
    if Contains(s, part) {
      var i :| 0 <= i <= |s| && OccursAt(s, i, part);
      assert s == s[..i] + part + s[i + |part|..];
    }
    if a, b :| s == a + part + b {
      assert s[|a|..|a| + |part|] == part;
      assert OccursAt(s, |a|, part);
    }
  }

  /** How many of the first `n` volumes are of one kind. */
  ghost function CountVolumes(volumes: seq<Volume>, n: nat, claims: bool): nat
    requires n <= |volumes|
  {
    if n == 0 then 0
    else CountVolumes(volumes, n - 1, claims)
         + if n > 1 && volumes[n - 1].source.Claim? == claims then 1 else 0
  }

  lemma {:induction false} CountPrefix(v: seq<Volume>, w: seq<Volume>, n: nat, claims: bool)
    requires v <= w && n <= |v|
    ensures CountVolumes(w, n, claims) == CountVolumes(v, n, claims)
  {
    if n > 0 {
      CountPrefix(v, w, n - 1, claims);
    }
  }

  lemma CountNext(v: seq<Volume>, x: Volume, w: seq<Volume>, claims: bool)
    requires v != [] && w == v + [x]
    ensures CountVolumes(w, |w|, claims) == CountVolumes(v, |v|, claims) + if x.source.Claim? == claims then 1 else 0
  {
    CountPrefix(v, w, |v|, claims);
  }

  lemma DeclaredNext(source: Source, all: seq<Need>, n: nat, v: seq<Volume>, w: seq<Volume>, kind: Kind)
    requires n < |all| && v == Declared(source, all, n) && v != [] && w == Declared(source, all, n + 1)
    ensures CountVolumes(w, |w|, kind.SharedClaim?) - CountVolumes(v, |v|, kind.SharedClaim?)
            == if IsFirst(all, n) && all[n].kind == kind then 1 else 0
  {
    if IsFirst(all, n) {
      CountNext(v, VolumeAt(all, n), w, kind.SharedClaim?);
    }
  }

  lemma {:induction false} DeclaredCount(source: Source, all: seq<Need>, n: nat, v: seq<Volume>, kind: Kind)
    requires n <= |all| && v == Declared(source, all, n)
    ensures v != [] && CountVolumes(v, |v|, kind.SharedClaim?) == Count(all, n, kind)
  {
    if n > 0 {
      var before := Declared(source, all, n - 1);
      DeclaredCount(source, all, n - 1, before, kind);
      DeclaredNext(source, all, n - 1, before, v, kind);
    }
  }

  /** The volumes of each kind are numbered in the order in which they are declared. */
  lemma {:induction false} VolumesAreNumbered(source: Source, all: seq<Need>, n: nat, i: nat)
    requires n <= |all| && 1 <= i < |Declared(source, all, n)|
    ensures var v := Declared(source, all, n); var claims := v[i].source.Claim?;
            v[i].name == (if claims then "shared-vol-" else "cm-vol-") + NatToString(CountVolumes(v, i, claims))
  {
    var before, v := Declared(source, all, n - 1), Declared(source, all, n);
    CountPrefix(before, v, if i < |before| then i else |before|, v[i].source.Claim?);
    if i < |before| {
      VolumesAreNumbered(source, all, n - 1, i);
    } else {
      DeclaredCount(source, all, n - 1, before, all[n - 1].kind);
    }
  }

  // ----- stability -----

  lemma MetInPrefix(all: seq<Need>, more: seq<Need>, n: nat, need: Need)
    requires n <= |all|
    ensures Met(all + more, n, need) <==> Met(all, n, need)
  {
    if Met(all, n, need) {
      var i :| 0 <= i < n && all[i] == need;
      assert (all + more)[i] == need;
    }
  }

  lemma {:induction false} PrefixDecides(source: Source, all: seq<Need>, more: seq<Need>, n: nat)
    requires n <= |all|
    ensures Declared(source, all + more, n) == Declared(source, all, n)
    ensures forall k :: Count(all + more, n, k) == Count(all, n, k)
  {
    if n > 0 {
      PrefixDecides(source, all, more, n - 1);
      MetInPrefix(all, more, n - 1, all[n - 1]);
    }
  }

  lemma {:induction false} DeclaredGrows(source: Source, all: seq<Need>, n: nat, m: nat)
    requires n <= m <= |all|
    ensures Declared(source, all, n) <= Declared(source, all, m)
    decreases m
  {
    if n < m {
      DeclaredGrows(source, all, n, m - 1);
    }
  }

  /** Another init container at the end renames nothing: the volumes only grow at the end. */
  lemma LaterNeedsRenameNothing(all: seq<Need>, more: seq<Need>, source: Source)
    ensures Pod(all, source) <= Pod(all + more, source)
  {
    PrefixDecides(source, all, more, |all|);
    DeclaredGrows(source, all + more, |all|, |all + more|);
  }
}
