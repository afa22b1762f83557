/**
The lock sections of the materialized view in every interleaving: handlers, timers that
fire, forced rebuilds, and rebuilds that have captured the pending map but not published
yet. Versions count the changes of the pending map. What a rebuild captures are the items of the
map in any order, and what it publishes is any view that building a snapshot of them can give.
*/
module Debounce {
  import opened Wrappers
  import opened Sorting
  import opened Snapshot
  import opened ListQuery
  import opened WorkspaceCache

  datatype Event = Upserted(it: Item) | Deleted(namespace: string, name: string)

  function Changed(m: Pending, e: Event): Pending {
    match e
    case Upserted(it) => Put(m, it)
    case Deleted(namespace, name) => Drop(m, namespace, name)
  }

  /** `handlers` maps a handler between its two lock sections to the version it made; `armed` and
      `fired` are timers before and after they fire, the latter until their rebuild has
      captured; `forced` are rebuildNow calls that have cancelled the timer but not captured;
      `building` maps a rebuild to what it has captured. `view` is the published view and
      `published` the version it was captured from. `done` is the newest version
      whose handler has completed, `captured` the newest version captured. */
  datatype State = State(
    pendings: seq<Pending>, timer: Option<nat>,
    handlers: map<nat, nat>, armed: set<nat>, fired: set<nat>, forced: set<nat>,
    building: map<nat, Capture>, view: View, published: nat, done: nat, captured: nat)

  datatype Capture = Capture(version: nat, items: seq<Item>)

  /** What building a snapshot of these items gives. */
  ghost predicate BuiltFrom(v: View, items: seq<Item>) {
    v.all == Sorted(items) && ValidView(v)
  }

  function Version(s: State): int {
    |s.pendings| - 1
  }

  datatype Action =
    | Change(h: nat, e: Event)
    | Schedule(h: nat, id: nat)
    | Fire(t: nat)
    | Force(f: nat)
    | CaptureFired(t: nat, b: nat, items: seq<Item>)
    | CaptureForced(f: nat, b: nat, items: seq<Item>)
    | Publish(b: nat, view: View)

  ghost predicate Enabled(s: State, a: Action) {
    s.pendings != [] &&
    match a
    case Change(h, _) => h !in s.handlers
    case Schedule(h, id) => h in s.handlers && id !in s.armed && id !in s.fired
    case Fire(t) => t in s.armed
    case Force(f) => f !in s.forced
    case CaptureFired(t, b, items) =>
      t in s.fired && b !in s.building && Enumerates(items, s.pendings[Version(s)])
    case CaptureForced(f, b, items) =>
      f in s.forced && b !in s.building && Enumerates(items, s.pendings[Version(s)])
    case Publish(b, view) => b in s.building && BuiltFrom(view, s.building[b].items)
  }

  function Max(a: nat, b: nat): nat {
    if a <= b then b else a
  }

  function Captured(s: State, b: nat, items: seq<Item>): State
    requires s.pendings != []
  {
    s.(timer := None, building := s.building[b := Capture(Version(s), items)], captured := Version(s))
  }

  ghost function Step(s: State, a: Action): State
    requires Enabled(s, a)
  {
    match a
    case Change(h, e) =>
      s.(pendings := s.pendings + [Changed(s.pendings[Version(s)], e)], handlers := s.handlers[h := Version(s) + 1])
    case Schedule(h, id) =>
      s.(timer := Arm(s.timer, id), armed := if s.timer.None? then s.armed + {id} else s.armed,
         handlers := s.handlers - {h}, done := Max(s.done, s.handlers[h]))
    case Fire(t) => s.(armed := s.armed - {t}, fired := s.fired + {t})
    case Force(f) =>
      // stopping a timer that has already fired changes nothing
      s.(armed := if s.timer.Some? then s.armed - {s.timer.value} else s.armed, timer := None, forced := s.forced + {f})
    case CaptureFired(t, b, items) => Captured(s, b, items).(fired := s.fired - {t})
    case CaptureForced(f, b, items) => Captured(s, b, items).(forced := s.forced - {f})
    case Publish(b, view) => s.(view := view, published := s.building[b].version, building := s.building - {b})
  }

  /** The cache as it is made: nothing pending, and the empty snapshot published. */
  const START: State := State([map[]], None, map[], {}, {}, {}, map[], View([], map[], map[], map[]), 0, 0, 0)

  ghost predicate IsRun(run: seq<State>, acts: seq<Action>) {
    && |run| == |acts| + 1 && run[0] == START
    && forall i {:trigger acts[i]} :: 0 <= i < |acts| ==> Enabled(run[i], acts[i]) && run[i + 1] == Step(run[i], acts[i])
  }

  /** No handler, timer or rebuild is under way. */
  predicate Quiescent(s: State) {
    s.handlers == map[] && s.armed == {} && s.fired == {} && s.forced == {} && s.building == map[]
  }

  /** A rebuild that has not captured yet is scheduled or under way. */
  predicate RebuildToCome(s: State) {
    s.armed != {} || s.fired != {} || s.forced != {}
  }

  // ----- the invariant -----

  /** The view is the sorted and indexed image of the pending map. */
  ghost predicate ImageOf(v: View, m: Pending) {
    ValidView(v) && StrictlyOrdered(v.all) && multiset(v.all) == multiset(m.Values)
  }

  ghost predicate CapturesOk(s: State) {
    forall b <- s.building ::
      && s.building[b].version < |s.pendings| && s.building[b].version <= s.captured
      && Enumerates(s.building[b].items, s.pendings[s.building[b].version])
  }

  ghost predicate ViewOk(s: State) {
    s.published < |s.pendings| && s.published <= s.captured && ImageOf(s.view, s.pendings[s.published])
  }

  ghost predicate Inv(s: State) {
    && s.pendings != [] && (forall m <- s.pendings :: WellKeyed(m))
    && s.done <= Version(s) && s.captured <= Version(s) && CapturesOk(s) && ViewOk(s)
    && (forall h <- s.handlers :: s.handlers[h] <= Version(s))
    && (s.timer.Some? ==> s.timer.value in s.armed || s.timer.value in s.fired)
    && (s.done <= s.captured || RebuildToCome(s))
    && (s.done == Version(s) || exists h <- s.handlers :: s.handlers[h] == Version(s))
  }

  lemma ChangeInv(s: State, h: nat, e: Event)
    requires Inv(s) && Enabled(s, Change(h, e))
    ensures Inv(Step(s, Change(h, e)))
  {
    var t := Step(s, Change(h, e));
    assert t.handlers[h] == Version(t);
    var m := s.pendings[Version(s)];
    assert m in s.pendings && WellKeyed(Changed(m, e));
    forall m | m in t.pendings ensures WellKeyed(m) {
      assert m in s.pendings || m == Changed(s.pendings[Version(s)], e);
    }
  }

  lemma ScheduleInv(s: State, h: nat, id: nat)
    requires Inv(s) && Enabled(s, Schedule(h, id))
    ensures Inv(Step(s, Schedule(h, id)))
  {
    var t := Step(s, Schedule(h, id));
    if s.done != Version(s) {
      var g :| g in s.handlers && s.handlers[g] == Version(s);
      if g != h {
        assert t.handlers[g] == Version(t);
      }
    }
  }

  lemma PublishInv(s: State, b: nat, view: View)
    requires Inv(s) && Enabled(s, Publish(b, view))
    ensures Inv(Step(s, Publish(b, view)))
  {
    var t, c := Step(s, Publish(b, view)), s.building[b];
    assert s.pendings[c.version] in s.pendings;
    ImageIsUnique(s.pendings[c.version], c.items, c.items);
    if s.done != Version(s) {
      var g :| g in s.handlers && s.handlers[g] == Version(s);
      assert t.handlers[g] == Version(s);
    }
  }

  lemma TimerInv(s: State, a: Action)
    requires Inv(s) && Enabled(s, a) && (a.Fire? || a.Force?)
    ensures Inv(Step(s, a))
  {
    if s.done != Version(s) {
      var g :| g in s.handlers && s.handlers[g] == Version(s);
      assert Step(s, a).handlers[g] == Version(s);
    }
  }

  lemma StepInv(s: State, a: Action)
    requires Inv(s) && Enabled(s, a)
    ensures Inv(Step(s, a))
  {
    match a
    case Change(h, e) => ChangeInv(s, h, e);
    case Schedule(h, id) => ScheduleInv(s, h, id);
    case Publish(b, view) => PublishInv(s, b, view);
    case Fire(t) => TimerInv(s, a);
    case Force(f) => TimerInv(s, a);
    case _ =>
  }

  lemma {:induction false} RunInv(run: seq<State>, acts: seq<Action>, n: nat)
    requires IsRun(run, acts) && n < |run|
    ensures Inv(run[n])
  {
    if n > 0 {
      RunInv(run, acts, n - 1);
      StepInv(run[n - 1], acts[n - 1]);
    }
  }

  // ----- what it means -----

  /** Debounce never drops a change. At every moment each completed handler's change is in what some
      rebuild has captured, or a rebuild that is still to capture exists; in particular one
      exists whenever a timer is recorded, so not arming another one is safe. */
  lemma NoChangeDropped(run: seq<State>, acts: seq<Action>, n: nat)
    requires IsRun(run, acts) && n < |run|
    ensures run[n].done <= run[n].captured || RebuildToCome(run[n])
    ensures run[n].timer.Some? ==> run[n].timer.value in run[n].armed + run[n].fired
    ensures Quiescent(run[n]) ==> run[n].done == run[n].captured == Version(run[n])
  {
    RunInv(run, acts, n);
  }

  /** A handler counts as completed from its second lock section on. */
  lemma CompletedIsCovered(run: seq<State>, acts: seq<Action>, i: nat, n: nat)
    requires IsRun(run, acts) && i < n < |run| && acts[i].Schedule?
    ensures acts[i].h in run[i].handlers && run[i].handlers[acts[i].h] <= run[n].done
  {
    DoneGrows(run, acts, i + 1, n);
  }

  lemma {:induction false} DoneGrows(run: seq<State>, acts: seq<Action>, i: nat, n: nat)
    requires IsRun(run, acts) && i <= n < |run|
    ensures run[i].done <= run[n].done
    decreases n
  {
    if i < n {
      DoneGrows(run, acts, i, n - 1);
      assert run[n - 1 + 1] == Step(run[n - 1], acts[n - 1]);
    }
  }

  /** Whatever overlaps, the published view is the image of a pending state that existed: its items, each
      once, in strict (namespace, name) order, with the indexes that the build gives them. */
  lemma PublishedExisted(run: seq<State>, acts: seq<Action>, n: nat)
    requires IsRun(run, acts) && n < |run|
    ensures run[n].published < |run[n].pendings| && WellKeyed(run[n].pendings[run[n].published])
    ensures ValidView(run[n].view) && StrictlyOrdered(run[n].view.all)
    ensures multiset(run[n].view.all) == multiset(run[n].pendings[run[n].published].Values)
  {
    RunInv(run, acts, n);
    assert run[n].pendings[run[n].published] in run[n].pendings;
  }

  // ----- when the view is up to date -----

  /** The newest capture has been published or is still to be. */
  ghost predicate LatestComing(s: State) {
    s.published == s.captured || exists b <- s.building :: s.building[b].version == s.captured
  }

  predicate Captures(a: Action) {
    a.CaptureFired? || a.CaptureForced?
  }

  /** What is published is the newest capture, or another rebuild still has that. */
  ghost predicate Safe(s: State, a: Action) {
    a.Publish? && a.b in s.building ==>
      || s.building[a.b].version == s.captured
      || exists c <- s.building :: c != a.b && s.building[c].version == s.captured
  }

  /** A capture makes good whatever was published before it; any other step keeps the newest capture coming if
      and only if it is safe, and nothing but a capture brings it back. */
  lemma LatestStepIff(s: State, a: Action, t: State)
    requires Inv(s) && Enabled(s, a) && t == Step(s, a)
    ensures Captures(a) ==> LatestComing(t)
    ensures !Captures(a) ==> (LatestComing(t) <==> LatestComing(s) && Safe(s, a))
  {
    if Captures(a) {
      assert t.building[a.b].version == t.captured;
    } else if a.Publish? {
      assert forall c :: c in t.building <==> c in s.building && c != a.b;
    }
  }

  /** The number of steps up to and including the last capture before `n`. */
  function LastCapture(acts: seq<Action>, n: nat): (m: nat)
    requires n <= |acts|
    ensures m <= n
  {
    if n == 0 then 0 else if Captures(acts[n - 1]) then n else LastCapture(acts, n - 1)
  }

  /** Every publication after the last capture is safe. */
  ghost predicate PublishesSafely(run: seq<State>, acts: seq<Action>, n: nat)
    requires IsRun(run, acts) && n < |run|
  {
    forall i {:trigger acts[i]} :: LastCapture(acts, n) <= i < n ==> Safe(run[i], acts[i])
  }

  lemma {:induction false} LatestComingIff(run: seq<State>, acts: seq<Action>, n: nat)
    requires IsRun(run, acts) && n < |run|
    ensures LatestComing(run[n]) <==> PublishesSafely(run, acts, n)
  {
    if n > 0 {
      LatestComingIff(run, acts, n - 1);
      RunInv(run, acts, n - 1);
      LatestStepIff(run[n - 1], acts[n - 1], run[n]);
      SafelyStep(run, acts, n);
    }
  }

  lemma SafelyStep(run: seq<State>, acts: seq<Action>, n: nat)
    requires IsRun(run, acts) && 0 < n < |run|
    ensures Captures(acts[n - 1]) ==> PublishesSafely(run, acts, n)
    ensures !Captures(acts[n - 1]) ==>
              (PublishesSafely(run, acts, n) <==> PublishesSafely(run, acts, n - 1) && Safe(run[n - 1], acts[n - 1]))
  {
  }

  /** Once nothing is under way, the published snapshot is that of the current pending map if and only if every
      publication after the last capture was safe, whatever overlapped before. */
  lemma QuiescentUpToDateIff(run: seq<State>, acts: seq<Action>, n: nat)
    requires IsRun(run, acts) && n < |run| && Quiescent(run[n])
    ensures run[n].published == Version(run[n]) <==> PublishesSafely(run, acts, n)
  {
    RunInv(run, acts, n);
    LatestComingIff(run, acts, n);
  }

  /** End to end: then the published view answers every filtered and paged query from the live objects, listed
      in any order: filter, sort by (namespace, name), cut out the page. */
  lemma QuiescentAnswers(run: seq<State>, acts: seq<Action>, n: nat, live: seq<Item>, q: Query, paging: Paging)
    requires IsRun(run, acts) && n < |run| && PublishesSafely(run, acts, n) && Quiescent(run[n])
    requires run[n].pendings != [] && Enumerates(live, run[n].pendings[Version(run[n])])
    requires paging.paginated ==> paging.page >= 1 && paging.pageSize >= 1
    ensures ValidView(run[n].view) && run[n].view.all == Sorted(live)
    ensures Answer(run[n].view.all, q, paging) ==
            var found := Sorted(Filter(live, Matching(q)));
            if !paging.paginated then Bare(found)
            else Envelope(Page(found, paging.page, paging.pageSize), |found|, paging.page, paging.pageSize,
                          TotalPages(|found|, paging.pageSize))
  {
    QuiescentUpToDateIff(run, acts, n);
    PublishedExisted(run, acts, n);
    var m := run[n].pendings[Version(run[n])];
    assert WellKeyed(m);
    SortedIsStrict(live);
    StrictIsUnique(run[n].view.all, Sorted(live));
    FilterThenSort(live, Matching(q));
  }

  // ----- the live objects -----

  /** The key that an event is about, as the informer library has it. */
  function EventKey(e: Event): string {
    match e
    case Upserted(it) => it.namespace + "/" + it.name
    case Deleted(namespace, name) => if namespace != "" then namespace + "/" + name else name
  }

  /** Step `i` is the last change of its key before `n`. */
  ghost predicate LastChange(run: seq<State>, acts: seq<Action>, i: nat, n: nat) {
    && IsRun(run, acts) && i < n < |run| && acts[i].Change?
    && forall j {:trigger acts[j]} :: i < j < n && acts[j].Change? ==> EventKey(acts[j].e) != EventKey(acts[i].e)
  }

  /** What the last event of a key has left under that key. */
  predicate HasLast(m: Pending, e: Event) {
    match e
    case Upserted(it) => EventKey(e) in m && m[EventKey(e)] == it
    case Deleted(_, _) => EventKey(e) !in m
  }

  lemma {:induction false} LastIsPending(run: seq<State>, acts: seq<Action>, i: nat, n: nat)
    requires LastChange(run, acts, i, n)
    ensures run[n].pendings != [] && HasLast(run[n].pendings[Version(run[n])], acts[i].e)
    decreases n
  {
    assert run[n - 1 + 1] == Step(run[n - 1], acts[n - 1]);
    if i < n - 1 {
      LastIsPending(run, acts, i, n - 1);
    }
  }

  /** In a settled state the published view has the live objects: of every key it has what the last event of that
      key has left, an added or updated object as it then was, and nothing after a deletion. Only a
      deletion without a namespace misses its object. */
  lemma ViewHasLastChange(run: seq<State>, acts: seq<Action>, i: nat, n: nat)
    requires LastChange(run, acts, i, n) && PublishesSafely(run, acts, n) && Quiescent(run[n])
    ensures var v, e := run[n].view, acts[i].e;
            match e
            case Upserted(it) =>
              it in v.all && forall x <- v.all :: x.namespace + "/" + x.name == it.namespace + "/" + it.name ==> x == it
            case Deleted(namespace, name) =>
              namespace != "" ==> forall x <- v.all :: x.namespace + "/" + x.name != namespace + "/" + name
  {
    LastIsPending(run, acts, i, n);
    QuiescentUpToDateIff(run, acts, n);
    PublishedExisted(run, acts, n);
    InImage(run[n].view.all, run[n].pendings[Version(run[n])]);
  }

  lemma InImage(all: seq<Item>, m: Pending)
    requires WellKeyed(m) && multiset(all) == multiset(m.Values)
    ensures forall x :: x in all <==> KeyOf(x) in m && m[KeyOf(x)] == x
  {
    forall x ensures x in all <==> KeyOf(x) in m && m[KeyOf(x)] == x {
      assert x in multiset(all) <==> x in m.Values;
    }
  }

  lemma StepExplains(s: State, a: Action, t: State, k: string)
    requires Inv(s) && Enabled(s, a) && t == Step(s, a) && k in t.pendings[Version(t)]
    ensures a.Change? && EventKey(a.e) == k ==> a.e == Upserted(t.pendings[Version(t)][k])
    ensures !(a.Change? && EventKey(a.e) == k) ==>
              k in s.pendings[Version(s)] && s.pendings[Version(s)][k] == t.pendings[Version(t)][k]
  {
  }

  /** Whatever is pending under a key is what the last change of that key has put there. */
  lemma {:induction false} PendingCameFrom(run: seq<State>, acts: seq<Action>, n: nat, k: string) returns (i: nat)
    requires IsRun(run, acts) && n < |run| && run[n].pendings != [] && k in run[n].pendings[Version(run[n])]
    ensures LastChange(run, acts, i, n) && EventKey(acts[i].e) == k
    ensures acts[i].e == Upserted(run[n].pendings[Version(run[n])][k])
  {
    if n == 0 {
      assert false;
    } else {
      RunInv(run, acts, n - 1);
      StepExplains(run[n - 1], acts[n - 1], run[n], k);
      if acts[n - 1].Change? && EventKey(acts[n - 1].e) == k {
        i := n - 1;
      } else {
        i := PendingCameFrom(run, acts, n - 1, k);
      }
    }
  }

  /** And every item of the view is there because the last event of its key has added or updated it. */
  lemma ViewHasOnlyLastChanges(run: seq<State>, acts: seq<Action>, n: nat, x: Item)
    requires IsRun(run, acts) && n < |run| && PublishesSafely(run, acts, n) && Quiescent(run[n]) && x in run[n].view.all
    ensures exists i: nat :: LastChange(run, acts, i, n) && acts[i].e == Upserted(x)
  {
    QuiescentUpToDateIff(run, acts, n);
    PublishedExisted(run, acts, n);
    InImage(run[n].view.all, run[n].pendings[Version(run[n])]);
    var i := PendingCameFrom(run, acts, n, KeyOf(x));
  }

  // ----- the lock sections as steps -----

  ghost predicate Shows(pending: Pending, timer: Option<nat>, snap: View, s: State) {
    s.pendings != [] && pending == s.pendings[Version(s)] && timer == s.timer && snap == s.view
  }

  /** The object is in this state. */
  ghost predicate Holds(c: Cache, s: State)
    reads c
  {
    Shows(c.pending, c.timer, c.snap, s)
  }

  method NewCache() returns (c: Cache)
    ensures fresh(c) && Holds(c, START)
  {
    c := new Cache();
  }

  method ChangeSection(c: Cache, ghost s: State, ghost h: nat, e: Event)
    requires Inv(s) && Holds(c, s) && Enabled(s, Change(h, e))
    modifies c`pending
    ensures Holds(c, Step(s, Change(h, e)))
  {
    match e
    case Upserted(it) => c.Upsert(it);
    case Deleted(namespace, name) => c.Delete(namespace, name);
  }

  method ScheduleSection(c: Cache, ghost s: State, ghost h: nat, id: nat) returns (armed: bool)
    requires Holds(c, s) && Enabled(s, Schedule(h, id))
    modifies c`timer
    ensures Holds(c, Step(s, Schedule(h, id)))
    ensures Step(s, Schedule(h, id)).armed == if armed then s.armed + {id} else s.armed
  {
    armed := c.ScheduleRebuild(id);
  }

  method ForceSection(c: Cache, ghost s: State, ghost f: nat) returns (stopped: Option<nat>)
    requires Holds(c, s) && Enabled(s, Force(f))
    modifies c`timer
    ensures Holds(c, Step(s, Force(f)))
    ensures Step(s, Force(f)).armed == if stopped.Some? then s.armed - {stopped.value} else s.armed
  {
    stopped := c.CancelTimer();
  }

  /** The capture of a rebuild, whether a timer or rebuildNow has started it. */
  method CaptureSection(c: Cache, ghost s: State, ghost a: nat, ghost b: nat)
    returns (items: array<Item>, ghost taken: seq<Item>)
    requires Inv(s) && Holds(c, s) && b !in s.building
    modifies c`timer
    ensures fresh(items) && taken == items[..]
    ensures a in s.fired ==> Enabled(s, CaptureFired(a, b, taken)) && Holds(c, Step(s, CaptureFired(a, b, taken)))
    ensures a in s.forced ==> Enabled(s, CaptureForced(a, b, taken)) && Holds(c, Step(s, CaptureForced(a, b, taken)))
  {
    items := c.Capture();
    taken := items[..];
    CaptureSteps(s, a, b, taken);
    assert c.pending == s.pendings[Version(s)] && c.timer.None? && c.snap == s.view;
  }

  lemma CaptureSteps(s: State, a: nat, b: nat, items: seq<Item>)
    requires s.pendings != [] && b !in s.building && Enumerates(items, s.pendings[Version(s)])
    ensures a in s.fired ==>
              && Enabled(s, CaptureFired(a, b, items))
              && Shows(s.pendings[Version(s)], None, s.view, Step(s, CaptureFired(a, b, items)))
    ensures a in s.forced ==>
              && Enabled(s, CaptureForced(a, b, items))
              && Shows(s.pendings[Version(s)], None, s.view, Step(s, CaptureForced(a, b, items)))
  {
  }

  /** Its build, which holds no lock, and its publication. */
  method PublishSection(c: Cache, ghost s: State, ghost b: nat, items: array<Item>) returns (v: View)
    requires Holds(c, s) && b in s.building && s.building[b].items == items[..]
    modifies items, c`snap, c`ready
    ensures Enabled(s, Publish(b, v)) && Holds(c, Step(s, Publish(b, v)))
  {
    v := BuildSnapshot(items);
    c.Publish(v);
  }

  // ----- rebuilds in order -----

  /** No rebuild publishes something older than what is published. */
  ghost predicate Forward(run: seq<State>, acts: seq<Action>)
    requires IsRun(run, acts)
  {
    forall i {:trigger acts[i]} :: 0 <= i < |acts| && acts[i].Publish? ==> run[i].published <= run[i].building[acts[i].b].version
  }

  /** No rebuild captures while another one has captured and not published. */
  ghost predicate NoOverlap(run: seq<State>, acts: seq<Action>)
    requires IsRun(run, acts)
  {
    forall i {:trigger acts[i]} :: 0 <= i < |acts| && Captures(acts[i]) ==> run[i].building == map[]
  }

  ghost predicate OneAtATime(s: State) {
    forall b <- s.building :: s.building[b].version == s.captured
  }

  lemma {:induction false} NoOverlapKeepsOne(run: seq<State>, acts: seq<Action>, n: nat)
    requires IsRun(run, acts) && NoOverlap(run, acts) && n < |run|
    ensures OneAtATime(run[n])
  {
    if n > 0 {
      NoOverlapKeepsOne(run, acts, n - 1);
      assert run[n - 1 + 1] == Step(run[n - 1], acts[n - 1]);
    }
  }

  /** Rebuilds that do not overlap publish in order. */
  lemma NoOverlapIsForward(run: seq<State>, acts: seq<Action>)
    requires IsRun(run, acts) && NoOverlap(run, acts)
    ensures Forward(run, acts)
  {
    forall i | 0 <= i < |acts| && acts[i].Publish?
      ensures run[i].published <= run[i].building[acts[i].b].version
    {
      NoOverlapKeepsOne(run, acts, i);
      RunInv(run, acts, i);
    }
  }

  lemma {:induction false} ForwardKeepsLatest(run: seq<State>, acts: seq<Action>, n: nat)
    requires IsRun(run, acts) && Forward(run, acts) && n < |run|
    ensures LatestComing(run[n])
  {
    if n > 0 {
      ForwardKeepsLatest(run, acts, n - 1);
      RunInv(run, acts, n - 1);
      ForwardStep(run[n - 1], acts[n - 1], run[n]);
    }
  }

  lemma ForwardStep(s: State, a: Action, t: State)
    requires Inv(s) && Enabled(s, a) && t == Step(s, a) && LatestComing(s)
    requires a.Publish? ==> s.published <= s.building[a.b].version
    ensures LatestComing(t)
  {
    LatestStepIff(s, a, t);
  }

  /** And rebuilds that publish in order publish safely. */
  lemma ForwardIsSafe(run: seq<State>, acts: seq<Action>, n: nat)
    requires IsRun(run, acts) && Forward(run, acts) && n < |run|
    ensures PublishesSafely(run, acts, n)
  {
    ForwardKeepsLatest(run, acts, n);
    LatestComingIff(run, acts, n);
  }

  lemma StrictIsUnique(s: seq<Item>, t: seq<Item>)
    requires StrictlyOrdered(s) && StrictlyOrdered(t) && multiset(s) == multiset(t)
    ensures s == t
  {
    NotAfterIsPreorder();
    forall x, y | x in s && y in s && NotAfter(x, y) && NotAfter(y, x) ensures x == y {
      EquivalentHaveSameKey(x, y);
      var i :| 0 <= i < |s| && s[i] == x;
      var j :| 0 <= j < |s| && s[j] == y;
      assert i == j;
    }
    SortedIsUnique(NotAfter, s, t);
  }

  // ----- overlapping rebuilds -----

  lemma Extend(run: seq<State>, acts: seq<Action>, a: Action) returns (run': seq<State>, acts': seq<Action>)
    requires IsRun(run, acts) && Enabled(run[|acts|], a)
    ensures IsRun(run', acts') && run'[|acts'|] == Step(run[|acts|], a)
  {
    run', acts' := run + [Step(run[|acts|], a)], acts + [a];
    forall i | 0 <= i < |acts'| ensures Enabled(run'[i], acts'[i]) && run'[i + 1] == Step(run'[i], acts'[i]) {
      if i < |acts| {
        assert run'[i] == run[i] && run'[i + 1] == run[i + 1] && acts'[i] == acts[i];
      }
    }
  }

  lemma OneItem(it: Item)
    ensures Enumerates([it], map[KeyOf(it) := it]) && Sorted([it]) == [it]
  {
    var m := map[KeyOf(it) := it];
    assert m[KeyOf(it)] == it;
    assert m.Values == {it};
    assert [it][..0] == [];
    assert StableSort(NotAfter, [it][..0]) == [];
    assert Sorted([it]) == Place(NotAfter, [], it);
  }

  /** Deleting an item from the map that has nothing else; without a namespace the keys differ and it stays. */
  function Left(it: Item): seq<Item> {
    if it.namespace != "" then [] else [it]
  }

  lemma LeftEnumerates(it: Item)
    ensures Enumerates(Left(it), Drop(map[KeyOf(it) := it], it.namespace, it.name))
  {
    var m := map[KeyOf(it) := it];
    DeletionUndoesUpsert(map[], it);
    if it.namespace != "" {
      assert Drop(m, it.namespace, it.name) == map[];
    } else {
      assert Drop(m, it.namespace, it.name) == m;
      OneItem(it);
    }
  }

  /** Two rebuilds have captured, one before a deletion and one after it. */
  lemma TwoCaptures(it: Item) returns (run: seq<State>, acts: seq<Action>)
    ensures IsRun(run, acts)
    ensures var m := map[KeyOf(it) := it];
            run[|acts|] == START.(pendings := [map[], m, Drop(m, it.namespace, it.name)],
                                  building := map[1 := Capture(1, [it]), 2 := Capture(2, Left(it))],
                                  done := 2, captured := 2)
  {
    run, acts := SecondFired(it);
    LeftEnumerates(it);
    run, acts := Extend(run, acts, CaptureFired(2, 2, Left(it)));
  }

  lemma SecondFired(it: Item) returns (run: seq<State>, acts: seq<Action>)
    ensures IsRun(run, acts)
    ensures var m := map[KeyOf(it) := it];
            run[|acts|] == START.(pendings := [map[], m, Drop(m, it.namespace, it.name)], timer := Some(2), fired := {2},
                                  building := map[1 := Capture(1, [it])], done := 2, captured := 1)
  {
    run, acts := OneCapture(it);
    run, acts := Extend(run, acts, Change(2, Deleted(it.namespace, it.name)));
    run, acts := Extend(run, acts, Schedule(2, 2));
    run, acts := Extend(run, acts, Fire(2));
  }

  lemma OneCapture(it: Item) returns (run: seq<State>, acts: seq<Action>)
    ensures IsRun(run, acts)
    ensures run[|acts|] == START.(pendings := [map[], map[KeyOf(it) := it]], building := map[1 := Capture(1, [it])],
                                  done := 1, captured := 1)
  {
    run, acts := [START], [];
    run, acts := Extend(run, acts, Change(1, Upserted(it)));
    run, acts := Extend(run, acts, Schedule(1, 1));
    run, acts := Extend(run, acts, Fire(1));
    OneItem(it);
    run, acts := Extend(run, acts, CaptureFired(1, 1, [it]));
  }

  lemma NewerPublished(it: Item) returns (run: seq<State>, acts: seq<Action>)
    ensures IsRun(run, acts) && run[|acts|].published == 2
    ensures var m := map[KeyOf(it) := it];
            run[|acts|] == START.(pendings := [map[], m, Drop(m, it.namespace, it.name)], view := run[|acts|].view,
                                  building := map[1 := Capture(1, [it])], published := 2, done := 2, captured := 2)
  {
    run, acts := TwoCaptures(it);
    var newer := Indexed(Sorted(Left(it)), |Sorted(Left(it))|);
    IndexedIsValid(Sorted(Left(it)));
    run, acts := Extend(run, acts, Publish(2, newer));
  }

  /** Nothing in the code keeps rebuilds from overlapping. Then an older capture can be published
      last, and the view stays behind and has the deleted item although nothing is under way. */
  lemma OverlapLeavesStale(it: Item) returns (run: seq<State>, acts: seq<Action>)
    ensures IsRun(run, acts) && Quiescent(run[|acts|]) && run[|acts|].published < Version(run[|acts|])
    ensures run[|acts|].pendings[run[|acts|].published] == map[KeyOf(it) := it] && run[|acts|].view.all == [it]
    ensures it.namespace != "" ==> run[|acts|].pendings[Version(run[|acts|])] == map[]
  {
    run, acts := NewerPublished(it);
    OneItem(it);
    IndexedIsValid([it]);
    run, acts := Extend(run, acts, Publish(1, Indexed([it], 1)));
  }
}
