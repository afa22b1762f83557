/**
The lifetime of the NetworkPolicy that all Workspaces of a namespace share. It belongs to no
single Workspace: every reconcile of a live one creates it if it seems to be missing, a
reconcile of one that is gone deletes it if no other seems to be left, and a change of the
policy itself wakes one representative Workspace.

Reconciles of different keys overlap; what they read comes from caches that lag behind the
API server, one fed with Workspace events and one with policy events.
*/
module SharedPolicy {
  import opened Text
  import opened Sorting

  /** A Workspace as it is stored: `live` is false while it waits for its deletion. */
  datatype Event = Put(name: string, live: bool) | Gone(name: string)

  type Store = map<string, bool>

  function Applied(m: Store, e: Event): Store {
    match e
    case Put(n, live) => m[n := live]
    case Gone(n) => m - {n}
  }

  function Replay(m: Store, events: seq<Event>): Store
    decreases |events|
  {
    if events == [] then m else Replay(Applied(m, events[0]), events[1..])
  }

  predicate Live(m: Store, n: string) {
    n in m && m[n]
  }

  function LiveNames(m: Store): (r: set<string>)
    ensures forall n :: n in r <==> Live(m, n)
  {
    set n | n in m && m[n]
  }

  /** Where a reconcile stands; the first two belong to a live Workspace. */
  datatype Stage = Ensuring | Creating | Cleaning | Deleting

  datatype State = State(
    ws: Store,                     // on the API server
    cache: Store,                  // in the operator
    feed: seq<Event>,              // Workspace events on their way to the cache
    policy: bool,                  // does the policy exist on the API server
    seen: bool,                    // does it exist in the operator's cache
    policyFeed: seq<bool>,         // created (true) and deleted (false) events on their way
    dirty: set<string>,            // queued keys, among them keys to be queued again
    active: map<string, Stage>)    // reconciles under way

  datatype Action =
    | Write(e: Event)
    | Deliver
    | DeliverPolicy
    | DeleteOutside
    | Enqueue(name: string)
    | Begin(name: string)
    | Look(name: string)
    | Create(name: string)
    | List(name: string)
    | Delete(name: string)
    | Fail(name: string)

  /** The name that the policy's event handler picks. */
  ghost function Smallest(names: set<string>): (r: string)
    requires names != {}
    ensures Least(AtMost, names, r)
  {
    AtMostIsPreorder();
    LeastExists(AtMost, names);
    var r :| Least(AtMost, names, r);
    r
  }

  lemma SmallestIsUnique(names: set<string>, r: string)
    requires Least(AtMost, names, r)
    ensures r == Smallest(names)
  {
    AtMostAntisymmetric(r, Smallest(names));
  }

  ghost function Representative(m: Store): set<string> {
    if LiveNames(m) == {} then {} else {Smallest(LiveNames(m))}
  }

  predicate OthersLive(m: Store, n: string) {
    LiveNames(m) - {n} != {}
  }

  /** The policy exists, or does not exist, from now on. */
  function WithPolicy(s: State, exists': bool): State {
    if s.policy == exists' then s else s.(policy := exists', policyFeed := s.policyFeed + [exists'])
  }

  function Done(s: State, n: string): State {
    s.(active := s.active - {n})
  }

  predicate Enabled(s: State, a: Action) {
    match a
    case Write(Put(n, live)) => if live then n !in s.ws else Live(s.ws, n)
    case Write(Gone(n)) => n in s.ws
    case Deliver => s.feed != []
    case DeliverPolicy => s.policyFeed != []
    case DeleteOutside => s.policy
    case Enqueue(n) => true
    case Begin(n) => n in s.dirty && n !in s.active
    case Look(n) => n in s.active && s.active[n].Ensuring?
    case Create(n) => n in s.active && s.active[n].Creating?
    case List(n) => n in s.active && s.active[n].Cleaning?
    case Delete(n) => n in s.active && s.active[n].Deleting?
    case Fail(n) => n in s.active
  }

  ghost function Next(s: State, a: Action): State
    requires Enabled(s, a)
  {
    match a
    case Write(e) => s.(ws := Applied(s.ws, e), feed := s.feed + [e])
    case Deliver =>
      s.(cache := Applied(s.cache, s.feed[0]), feed := s.feed[1..], dirty := s.dirty + {s.feed[0].name})
    case DeliverPolicy =>
      s.(seen := s.policyFeed[0], policyFeed := s.policyFeed[1..], dirty := s.dirty + Representative(s.cache))
    case DeleteOutside => WithPolicy(s, false)
    case Enqueue(n) => s.(dirty := s.dirty + {n})
    case Begin(n) =>
      s.(dirty := s.dirty - {n}, active := s.active[n := if Live(s.cache, n) then Ensuring else Cleaning])
    case Look(n) => if s.seen then Done(s, n) else s.(active := s.active[n := Creating])
    case Create(n) => Done(WithPolicy(s, true), n)
    case List(n) => if OthersLive(s.cache, n) then Done(s, n) else s.(active := s.active[n := Deleting])
    case Delete(n) => Done(WithPolicy(s, false), n)
    case Fail(n) => Done(s, n).(dirty := s.dirty + {n})
  }

  /** An operator that has just started. A policy may be left from before if a Workspace is left too. */
  predicate Init(s: State) {
    && s.cache == map[] && Replay(s.cache, s.feed) == s.ws
    && !s.seen && s.policyFeed == (if s.policy then [true] else [])
    && s.dirty == {} && s.active == map[]
    && (s.policy ==> s.feed != [])
  }

  ghost predicate IsRun(states: seq<State>, acts: seq<Action>) {
    && |states| == |acts| + 1 && Init(states[0])
    && forall i {:trigger acts[i]} :: 0 <= i < |acts| ==> Enabled(states[i], acts[i]) && states[i + 1] == Next(states[i], acts[i])
  }

  predicate Quiescent(s: State) {
    s.feed == [] && s.policyFeed == [] && s.dirty == {} && s.active == map[]
  }

  // ----- what always holds -----

  predicate PolicyFeedEnds(s: State) {
    s.policy == if s.policyFeed == [] then s.seen else s.policyFeed[|s.policyFeed| - 1]
  }

  /** A reconcile on behalf of a live Workspace that is not live any more will be followed by another. */
  ghost predicate Followed(s: State) {
    forall n | n in s.active && (s.active[n].Ensuring? || s.active[n].Creating?) ::
      Live(s.cache, n) || n in s.dirty
  }

  ghost predicate CleanupDue(s: State) {
    s.feed != [] || s.dirty != {} || exists n :: n in s.active && (s.active[n].Cleaning? || s.active[n].Deleting?)
  }

  ghost predicate Inv(s: State) {
    && Replay(s.cache, s.feed) == s.ws
    && PolicyFeedEnds(s)
    && Followed(s)
    && (s.policy && LiveNames(s.cache) == {} ==> CleanupDue(s))
  }

  lemma {:induction false} ReplayAppend(m: Store, events: seq<Event>, e: Event)
    ensures Replay(m, events + [e]) == Applied(Replay(m, events), e)
    decreases |events|
  {
    if events != [] {
      assert (events + [e])[1..] == events[1..] + [e];
      ReplayAppend(Applied(m, events[0]), events[1..], e);
    }
  }

  lemma DeliverInv(s: State)
    requires Inv(s) && Enabled(s, Deliver)
    ensures Inv(Next(s, Deliver))
  {
    var t := Next(s, Deliver);
    assert s.feed[0].name in t.dirty;
    assert forall n :: n != s.feed[0].name ==> (Live(t.cache, n) <==> Live(s.cache, n));
  }

  predicate OfReconcile(a: Action) {
    a.Begin? || a.Look? || a.Create? || a.List? || a.Delete? || a.Fail?
  }

  lemma ReconcileInv(s: State, a: Action)
    requires Inv(s) && Enabled(s, a) && OfReconcile(a)
    ensures Inv(Next(s, a))
  {
    var t := Next(s, a);
    match a
    case Begin(n) =>
      assert n in t.active;
    case List(n) =>
      assert LiveNames(s.cache) == {} ==> n in t.active;
    case Fail(n) =>
      assert n in t.dirty;
    case _ =>
  }

  lemma StepInv(s: State, a: Action)
    requires Inv(s) && Enabled(s, a)
    ensures Inv(Next(s, a))
  {
    match a
    case Write(e) => ReplayAppend(s.cache, s.feed, e);
    case Deliver => DeliverInv(s);
    case DeliverPolicy =>
    case DeleteOutside =>
    case Enqueue(n) =>
      assert n in Next(s, a).dirty;
    case _ => ReconcileInv(s, a);
  }

  // ----- no policy is left behind -----

  lemma {:induction false} RunInv(states: seq<State>, acts: seq<Action>, n: nat)
    requires IsRun(states, acts) && n < |states|
    ensures Inv(states[n])
  {
    if n > 0 {
      RunInv(states, acts, n - 1);
      StepInv(states[n - 1], acts[n - 1]);
    }
  }

  /** In every run, whatever overlaps, lags or fails: when all is quiet and no Workspace is live, the policy
      is gone. */
  lemma NoPolicyLeftBehind(states: seq<State>, acts: seq<Action>, n: nat)
    requires IsRun(states, acts) && n < |states| && Quiescent(states[n])
    ensures !(exists k :: k in states[n].ws && states[n].ws[k]) ==> !states[n].policy
  {
    RunInv(states, acts, n);
    LiveIffAny(states[n].ws);
  }

  lemma LiveIffAny(m: Store)
    ensures LiveNames(m) != {} <==> exists k :: k in m && m[k]
  {
    assert forall k :: k in LiveNames(m) <==> k in m && m[k];
  }

  /** A Workspace is live for the API server if and only if the last event about it was that it is. */
  lemma {:induction false} LiveIffLastEvent(states: seq<State>, acts: seq<Action>, i: nat, n: nat)
    requires IsRun(states, acts) && i < n < |states| && acts[i].Write?
    requires forall j {:trigger acts[j]} :: i < j < n && acts[j].Write? ==> acts[j].e.name != acts[i].e.name
    ensures var k := acts[i].e.name;
            (k in states[n].ws && states[n].ws[k]) <==> acts[i].e == Put(k, true)
    decreases n
  {
    assert states[n - 1 + 1] == Next(states[n - 1], acts[n - 1]);
    if i < n - 1 {
      LiveIffLastEvent(states, acts, i, n - 1);
    }
  }

  // ----- the policy is there when it is needed -----

  /** Something will bring the policy back: an event of the policy is on its way, or a live Workspace is queued
      or is being reconciled as live. */
  ghost predicate CreationDue(s: State) {
    || s.policyFeed != []
    || exists n :: Live(s.cache, n)
                   && (n in s.dirty || (n in s.active && (s.active[n].Ensuring? || s.active[n].Creating?)))
  }

  ghost predicate Guarded(s: State) {
    !s.policy && LiveNames(s.cache) != {} ==> CreationDue(s)
  }

  predicate Removes(e: Event) {
    e.Gone? || !e.live
  }

  /** A live Workspace other than `k` is queued or being reconciled as live. */
  ghost predicate OtherDue(s: State, k: string) {
    exists n :: n != k && Live(s.cache, n)
                && (n in s.dirty || (n in s.active && (s.active[n].Ensuring? || s.active[n].Creating?)))
  }

  /** If a live Workspace disappears from the cache while the policy is missing, no event of the policy is on its
      way and others are live, then another live one is queued or being reconciled as live. */
  ghost predicate Orderly(s: State, a: Action) {
    a.Deliver? && s.feed != [] && Removes(s.feed[0]) && Live(s.cache, s.feed[0].name)
    && !s.policy && s.policyFeed == [] && OthersLive(s.cache, s.feed[0].name) ==>
      OtherDue(s, s.feed[0].name)
  }

  /** That is exactly what a delivery needs in order to leave the creation of the policy due. */
  lemma DeliverGuardedIff(s: State)
    requires Inv(s) && Guarded(s) && Enabled(s, Deliver)
    ensures Guarded(Next(s, Deliver)) <==> Orderly(s, Deliver)
  {
    var t, e := Next(s, Deliver), s.feed[0];
    assert forall m :: m != e.name ==> (Live(t.cache, m) <==> Live(s.cache, m));
    if Removes(e) {
      assert !Live(t.cache, e.name);
      assert LiveNames(t.cache) == LiveNames(s.cache) - {e.name};
      assert OtherDue(s, e.name) <==>
             exists n :: Live(t.cache, n)
                         && (n in t.dirty || (n in t.active && (t.active[n].Ensuring? || t.active[n].Creating?)));
    } else {
      assert Live(t.cache, e.name) && e.name in t.dirty;
    }
  }

  lemma StepGuardedIff(s: State, a: Action)
    requires Inv(s) && Guarded(s) && Enabled(s, a)
    ensures Guarded(Next(s, a)) <==> Orderly(s, a)
  {
    var t := Next(s, a);
    match a
    case Write(e) =>
    case Deliver => DeliverGuardedIff(s);
    case DeliverPolicy =>
      if LiveNames(s.cache) != {} {
        var r := Smallest(LiveNames(s.cache));
        assert Live(t.cache, r) && r in t.dirty;
      }
    case DeleteOutside =>
    case Enqueue(n) =>
    case Begin(n) =>
      assert Live(s.cache, n) ==> n in t.active && t.active[n].Ensuring?;
    case Look(n) =>
    case Create(n) =>
    case List(n) =>
    case Delete(n) =>
    case Fail(n) =>
      assert n in t.dirty;
  }

  ghost predicate OrderlyRun(states: seq<State>, acts: seq<Action>) {
    IsRun(states, acts) && forall i {:trigger acts[i]} :: 0 <= i < |acts| ==> Orderly(states[i], acts[i])
  }

  lemma {:induction false} RunGuarded(states: seq<State>, acts: seq<Action>, n: nat)
    requires OrderlyRun(states, acts) && n < |states|
    ensures Guarded(states[n])
  {
    if n > 0 {
      RunGuarded(states, acts, n - 1);
      RunInv(states, acts, n - 1);
      assert Orderly(states[n - 1], acts[n - 1]);
      StepGuardedIff(states[n - 1], acts[n - 1]);
    }
  }

  /** The orderly runs are exactly those in which the creation of a missing policy is always due as long as a live
      Workspace is known. */
  lemma OrderlyIffGuarded(states: seq<State>, acts: seq<Action>)
    requires IsRun(states, acts)
    ensures OrderlyRun(states, acts) <==> forall n :: 0 <= n < |states| ==> Guarded(states[n])
  {
    if OrderlyRun(states, acts) {
      forall n | 0 <= n < |states| ensures Guarded(states[n]) { RunGuarded(states, acts, n); }
    }
    if forall n :: 0 <= n < |states| ==> Guarded(states[n]) {
      forall i | 0 <= i < |acts| ensures Orderly(states[i], acts[i]) {
        RunInv(states, acts, i);
        StepGuardedIff(states[i], acts[i]);
        assert Guarded(states[i + 1]);
      }
    }
  }

  /** When all is quiet the policy exists if and only if a live Workspace exists. */
  lemma PolicyIffLive(states: seq<State>, acts: seq<Action>, n: nat)
    requires OrderlyRun(states, acts) && n < |states| && Quiescent(states[n])
    ensures states[n].policy <==> exists k :: k in states[n].ws && states[n].ws[k]
  {
    RunInv(states, acts, n);
    RunGuarded(states, acts, n);
    LiveIffAny(states[n].ws);
  }

  // ----- and when it is not -----

  ghost predicate Reaches(s: State, acts: seq<Action>, t: State)
    decreases |acts|
  {
    if acts == [] then s == t else Enabled(s, acts[0]) && Reaches(Next(s, acts[0]), acts[1..], t)
  }

  lemma {:induction false} ReachesThrough(s: State, acts: seq<Action>, t: State, more: seq<Action>, u: State)
    requires Reaches(s, acts, t) && Reaches(t, more, u)
    ensures Reaches(s, acts + more, u)
    decreases |acts|
  {
    if acts == [] {
      assert acts + more == more;
    } else {
      assert (acts + more)[1..] == acts[1..] + more;
      ReachesThrough(Next(s, acts[0]), acts[1..], t, more, u);
    }
  }

  lemma TwoSteps(s: State, a: Action, b: Action)
    requires Enabled(s, a) && Enabled(Next(s, a), b)
    ensures Reaches(s, [a, b], Next(Next(s, a), b))
  {
    assert [a, b][1..] == [b] && [b][1..] == [];
    assert Reaches(Next(s, a), [b], Next(Next(s, a), b));
  }

  lemma PolicyLost(s: State, r: string)
    requires Quiescent(s) && s.policy && s.seen && LiveNames(s.cache) != {} && r == Smallest(LiveNames(s.cache))
    ensures Reaches(s, [DeleteOutside, DeliverPolicy], s.(policy := false, seen := false, dirty := {r}))
  {
    TwoSteps(s, DeleteOutside, DeliverPolicy);
  }

  lemma WorkspaceLost(s: State, r: string)
    requires s.feed == [] && s.ws == s.cache && s.dirty == {r} && r in s.ws
    ensures Reaches(s, [Write(Gone(r)), Deliver], s.(ws := s.ws - {r}, cache := s.cache - {r}))
  {
    TwoSteps(s, Write(Gone(r)), Deliver);
    assert s.dirty + {r} == s.dirty;
  }

  lemma NothingDone(s: State, r: string)
    requires s.dirty == {r} && s.active == map[] && r !in s.cache && LiveNames(s.cache) != {}
    ensures Reaches(s, [Begin(r), List(r)], s.(dirty := {}))
  {
    assert r !in LiveNames(s.cache);
    assert OthersLive(s.cache, r);
    TwoSteps(s, Begin(r), List(r));
    assert Done(Next(s, Begin(r)), r).active == map[];
  }

  /** From every quiet state with two live Workspaces the policy can be lost for good: it is deleted, its event
      wakes the Workspace with the smallest name, and that one is deleted before its reconcile starts. */
  lemma RepresentativeMayBeGone(s: State, k: string, l: string)
    requires Inv(s) && Quiescent(s) && s.policy
    requires k != l && k in s.ws && s.ws[k] && l in s.ws && s.ws[l]
    ensures exists acts, t, n :: Reaches(s, acts, t) && Quiescent(t) && !t.policy && n in t.ws && t.ws[n]
  {
    assert k in LiveNames(s.cache);
    var r := Smallest(LiveNames(s.cache));
    var n := if r == k then l else k;
    var s1 := s.(policy := false, seen := false, dirty := {r});
    var s2 := s1.(ws := s.ws - {r}, cache := s.cache - {r});
    assert LiveNames(s2.cache) == LiveNames(s.cache) - {r} && n in LiveNames(s2.cache);
    PolicyLost(s, r);
    WorkspaceLost(s1, r);
    NothingDone(s2, r);
    ReachesThrough(s, [DeleteOutside, DeliverPolicy], s1, [Write(Gone(r)), Deliver], s2);
    ReachesThrough(s, [DeleteOutside, DeliverPolicy] + [Write(Gone(r)), Deliver], s2, [Begin(r), List(r)],
                   s2.(dirty := {}));
    assert n in s2.(dirty := {}).ws;
  }

  // ----- reconciles that are not interrupted -----

  /** What a reconcile leaves if nothing happens meanwhile and its view of the policy is up to date. */
  function Settled(s: State, n: string): bool {
    Live(s.cache, n) || (s.policy && OthersLive(s.cache, n))
  }

  datatype WholeStep = Reconcile(name: string) | Other(a: Action)

  /** One reconcile at a time, each in one go, the policy seen as it is and touched by nobody else. */
  predicate WholeEnabled(s: State, a: WholeStep) {
    match a
    case Reconcile(n) => n in s.dirty
    case Other(a) => (a.Write? || a.Deliver? || a.Enqueue?) && Enabled(s, a)
  }

  ghost function WholeNext(s: State, a: WholeStep): State
    requires WholeEnabled(s, a)
  {
    match a
    case Reconcile(n) => s.(dirty := s.dirty - {n}, policy := Settled(s, n), seen := Settled(s, n))
    case Other(a) => Next(s, a)
  }

  /** Nothing is being reconciled and the policy is seen as it is. */
  predicate Idle(s: State) {
    s.active == map[] && s.policyFeed == [] && s.seen == s.policy
  }

  lemma LiveSteps(s: State, n: string)
    requires Idle(s) && n in s.dirty && Live(s.cache, n)
    ensures s.policy ==> Reaches(s, [Begin(n), Look(n)], s.(dirty := s.dirty - {n}))
    ensures !s.policy ==>
              Reaches(s, [Begin(n), Look(n)], s.(dirty := s.dirty - {n}, active := map[n := Creating]))
  {
    TwoSteps(s, Begin(n), Look(n));
    assert Done(Next(s, Begin(n)), n).active == map[];
  }

  lemma GoneSteps(s: State, n: string)
    requires Idle(s) && n in s.dirty && !Live(s.cache, n)
    ensures OthersLive(s.cache, n) ==> Reaches(s, [Begin(n), List(n)], s.(dirty := s.dirty - {n}))
    ensures !OthersLive(s.cache, n) ==>
              Reaches(s, [Begin(n), List(n)], s.(dirty := s.dirty - {n}, active := map[n := Deleting]))
  {
    TwoSteps(s, Begin(n), List(n));
    assert Done(Next(s, Begin(n)), n).active == map[];
  }

  lemma ChangeSteps(s: State, n: string, a: Action, policy: bool)
    requires s.active == map[n := if policy then Creating else Deleting] && s.policyFeed == []
    requires s.seen == s.policy && a == if policy then Create(n) else Delete(n)
    ensures s.policy == policy ==> Reaches(s, [a], s.(active := map[]))
    ensures s.policy != policy ==>
              Reaches(s, [a, DeliverPolicy], s.(active := map[], policy := policy, seen := policy,
                                                dirty := s.dirty + Representative(s.cache)))
  {
    assert Done(WithPolicy(s, policy), n).active == map[];
    if s.policy == policy {
      assert [a][1..] == [];
    } else {
      TwoSteps(s, a, DeliverPolicy);
    }
  }

  /** The state after a reconcile in one go, with what its own policy event may wake. */
  ghost predicate Wholly(s: State, n: string, t: State)
    requires n in s.dirty
  {
    var u := WholeNext(s, Reconcile(n));
    t == u || t == u.(dirty := u.dirty + Representative(s.cache))
  }

  /** A whole reconcile is the steps of one, followed by the delivery of its policy event if there is one. */
  lemma WholeIsSteps(s: State, n: string)
    requires Idle(s) && n in s.dirty
    ensures exists acts, t :: Reaches(s, acts, t) && Wholly(s, n, t)
  {
    var live, rest := Live(s.cache, n), s.dirty - {n};
    var acts := if live then [Begin(n), Look(n)] else [Begin(n), List(n)];
    if live { LiveSteps(s, n); } else { GoneSteps(s, n); }
    if (live && s.policy) || (!live && OthersLive(s.cache, n)) {
      assert Reaches(s, acts, s.(dirty := rest));
      assert Wholly(s, n, s.(dirty := rest));
    } else {
      ChangeFollows(s, n, live, acts);
    }
  }

  lemma ChangeFollows(s: State, n: string, live: bool, acts: seq<Action>)
    requires Idle(s) && n in s.dirty && live == Live(s.cache, n)
    requires if live then !s.policy else !OthersLive(s.cache, n)
    requires Reaches(s, acts, s.(dirty := s.dirty - {n}, active := map[n := if live then Creating else Deleting]))
    ensures exists acts, t :: Reaches(s, acts, t) && Wholly(s, n, t)
  {
    var a := if live then Create(n) else Delete(n);
    var u := s.(dirty := s.dirty - {n}, active := map[n := if live then Creating else Deleting]);
    ChangeSteps(u, n, a, live);
    if s.policy == live {
      var t := u.(active := map[]);
      ReachesThrough(s, acts, u, [a], t);
      assert Wholly(s, n, t);
    } else {
      var t := u.(active := map[], policy := live, seen := live, dirty := u.dirty + Representative(s.cache));
      ReachesThrough(s, acts, u, [a, DeliverPolicy], t);
      assert Wholly(s, n, t);
    }
  }

  /** Without interruption every live Workspace is queued as long as the policy is missing, not just one. */
  ghost predicate WholeInv(s: State) {
    && Replay(s.cache, s.feed) == s.ws
    && (forall n | Live(s.cache, n) :: s.policy || n in s.dirty)
    && (s.policy && LiveNames(s.cache) == {} ==> s.feed != [] || s.dirty != {})
  }

  lemma WholeStepInv(s: State, a: WholeStep)
    requires WholeInv(s) && WholeEnabled(s, a)
    ensures WholeInv(WholeNext(s, a))
  {
    match a
    case Reconcile(n) =>
      assert !Live(s.cache, n) ==> LiveNames(s.cache) - {n} == LiveNames(s.cache);
    case Other(a) =>
      if a.Write? {
        ReplayAppend(s.cache, s.feed, a.e);
      } else if a.Deliver? {
        assert s.feed[0].name in Next(s, a).dirty;
      }
  }

  /** A start at which the policy's cache is filled already. */
  predicate WholeInit(s: State) {
    && s.cache == map[] && Replay(s.cache, s.feed) == s.ws && s.dirty == {} && Idle(s)
    && (s.policy ==> s.feed != [])
  }

  ghost predicate IsWholeRun(states: seq<State>, acts: seq<WholeStep>) {
    && |states| == |acts| + 1 && WholeInit(states[0])
    && forall i {:trigger acts[i]} :: 0 <= i < |acts| ==>
         WholeEnabled(states[i], acts[i]) && states[i + 1] == WholeNext(states[i], acts[i])
  }

  lemma {:induction false} WholeRunInv(states: seq<State>, acts: seq<WholeStep>, n: nat)
    requires IsWholeRun(states, acts) && n < |states|
    ensures WholeInv(states[n])
  {
    if n > 0 {
      WholeRunInv(states, acts, n - 1);
      WholeStepInv(states[n - 1], acts[n - 1]);
    }
  }

  /** Then no order on deletions is needed, however far the cache of Workspaces lags: when nothing is queued or on
      its way, the policy exists if and only if a live Workspace exists. */
  lemma WholePolicyIffLive(states: seq<State>, acts: seq<WholeStep>, n: nat)
    requires IsWholeRun(states, acts) && n < |states|
    requires states[n].feed == [] && states[n].dirty == {}
    ensures states[n].policy <==> exists k :: k in states[n].ws && states[n].ws[k]
  {
    WholeRunInv(states, acts, n);
    LiveIffAny(states[n].ws);
  }

  // ----- the loops over the listed Workspaces -----

  /** An object that a List returns. */
  datatype Listed = Listed(name: string, deleting: bool)

  /** The list is what the cache holds. */
  ghost predicate Lists(items: seq<Listed>, m: Store) {
    && (forall i :: 0 <= i < |items| ==> items[i].name in m && m[items[i].name] == !items[i].deleting)
    && m.Keys == set i | 0 <= i < |items| :: items[i].name
  }

  /** Is there a live Workspace next to the one that is gone? */
  method OtherIsListed(items: seq<Listed>, gone: string, ghost m: Store) returns (other: bool)
    requires Lists(items, m)
    ensures other <==> OthersLive(m, gone)
    ensures other <==> exists k :: k != gone && k in m && m[k]
  {
    for i := 0 to |items|
      invariant forall k :: 0 <= k < i ==> items[k].deleting || items[k].name == gone
    {
      if !items[i].deleting && items[i].name != gone {
        assert items[i].name in LiveNames(m) - {gone};
        return true;
      }
    }
    return false;
  }

  /** The Workspaces to wake when the policy changes. */
  method MapPolicyToWorkspaces(items: seq<Listed>, ghost m: Store) returns (keys: seq<string>)
    requires Lists(items, m)
    ensures |keys| <= 1 && (set k <- keys) == Representative(m)
    ensures keys == [] <==> !(exists k :: k in m && m[k])
    ensures keys != [] ==> keys[0] in m && m[keys[0]] && forall k :: k in m && m[k] ==> AtMost(keys[0], k)
  {
    var names: seq<string> := [];
    for i := 0 to |items|
      invariant forall n :: n in names <==> exists k :: 0 <= k < i && items[k].name == n && !items[k].deleting
    {
      if items[i].deleting {
        continue;
      }
      names := names + [items[i].name];
    }
    ghost var live := LiveNames(m);
    assert forall n :: n in names <==> n in live;
    LiveIffAny(m);
    if names == [] {
      return [];
    }
    var least := MinOf(names);
    assert names[0] in live;
    SmallestIsUnique(live, least);
    return [least];
  }

  method MinOf(names: seq<string>) returns (least: string)
    requires names != []
    ensures least in names && forall n <- names :: AtMost(least, n)
  {
    least := names[0];
    AtMostReflexive(least);
    for i := 1 to |names|
      invariant least in names && forall k :: 0 <= k < i ==> AtMost(least, names[k])
    {
      AtMostTotal(least, names[i]);
      AtMostReflexive(names[i]);
      if !AtMost(least, names[i]) {
        forall k | 0 <= k < i ensures AtMost(names[i], names[k]) { AtMostTransitive(names[i], least, names[k]); }
        least := names[i];
      }
    }
  }
}
