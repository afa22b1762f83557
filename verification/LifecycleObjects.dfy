/**
The same closures and the status half of a reconcile as they are written: step by step on
a fetched object. Each method is proved to leave what the functions of module Lifecycle say.
*/
module LifecycleObjects {
  import opened Wrappers
  import opened Lifecycle

  /** A Pod of the Workspace as listed; `deleting` when it has a deletion timestamp. */
  datatype ListedPod = ListedPod(name: string, startTime: Option<Time>, deleting: bool, running: bool)

  /** The first running Pod that is not being deleted, or else the first one. */
  function SelectPod(pods: seq<ListedPod>): Option<Pod> {
    if pods == [] then None
    else
      var live := FirstLive(pods);
      var p := if live < |pods| then pods[live] else pods[0];
      Some(Pod(p.name, p.startTime))
  }

  /** A running Pod that is not being deleted is preferred, and an earlier one to a later one. */
  lemma SelectedPod(pods: seq<ListedPod>)
    ensures SelectPod(pods).None? <==> pods == []
    ensures pods != [] ==>
              exists i :: && 0 <= i < |pods| && SelectPod(pods) == Some(Pod(pods[i].name, pods[i].startTime))
                          && (if exists p <- pods :: p.running && !p.deleting
                              then pods[i].running && !pods[i].deleting
                                   && forall j :: 0 <= j < i ==> !pods[j].running || pods[j].deleting
                              else i == 0)
  {
    if pods != [] {
      var live := FirstLive(pods);
      var i := if live < |pods| then live else 0;
      assert SelectPod(pods) == Some(Pod(pods[i].name, pods[i].startTime));
    }
  }

  function FirstLive(pods: seq<ListedPod>): (i: nat)
    ensures i <= |pods|
    ensures i < |pods| ==> pods[i].running && !pods[i].deleting
    ensures forall j :: 0 <= j < i ==> !(pods[j].running && !pods[j].deleting)
  {
    if pods == [] then 0
    else if pods[0].running && !pods[0].deleting then 0
    else 1 + FirstLive(pods[1..])
  }

  /** The status subresource of a Workspace object in memory. */
  class StatusObject {
    var phase: Phase
    var podName: string
    var links: string
    var lastActive: Option<Time>
    var startedAt: Option<Time>

    function Value(): Status
      reads this
    {
      Status(phase, podName, links, lastActive, startedAt)
    }

    /** What the API server stores when this status is written: times lose their fraction. */
    function Saved(): Status
      reads this
    {
      Status(phase, podName, links, PersistOption(lastActive), PersistOption(startedAt))
    }

    constructor (s: Status)
      ensures Value() == s
    {
      phase, podName, links, lastActive, startedAt := s.phase, s.podName, s.links, s.lastActive, s.startedAt;
    }

    /** The init closure: fills what is missing and tells whether anything was. */
    method FillMissing(now: Time) returns (changed: bool)
      requires PersistOption(lastActive) == lastActive && PersistOption(startedAt) == startedAt
      modifies this
      ensures changed == NeedsInit(old(Value()))
      ensures Saved() == FillStatus(old(Value()), now)
    {
      changed := false;
      if phase == Unset {
        phase := Pending;
        changed := true;
      }
      if lastActive == None {
        lastActive := Some(now);
        changed := true;
      }
    }

    /** The closure of a wake-up. */
    method Wake(now: Time, ghost ws: Workspace)
      requires Value() == ws.status
      requires PersistOption(lastActive) == lastActive && PersistOption(startedAt) == startedAt
      modifies this`lastActive
      ensures Saved() == Apply(Touch(now), ws).status
    {
      lastActive := Some(now);
    }

    /** The closure that stores the outcome of a reconcile over the latest status. */
    method MergeFrom(desired: Status)
      requires PersistOption(lastActive) == lastActive && PersistOption(startedAt) == startedAt
      modifies this
      ensures Saved() == MergeStatus(old(Value()), desired)
    {
      phase := desired.phase;
      podName := desired.podName;
      links := desired.links;
      if desired.lastActive.Some? && (lastActive.None? || desired.lastActive.value > lastActive.value) {
        lastActive := desired.lastActive;
      }
      var (merged, change) := MergeStartedAt(startedAt, desired.startedAt);
      if change {
        startedAt := merged;
      }
    }

    /** The status half of a reconcile. `crashed` stands for the nil dereference, after which
        the object is dropped. */
    method Judge(ws: Workspace, replicas: int, deploy: Option<Deploy>, pods: seq<ListedPod>,
                 newLinks: string, now: Time)
      returns (crashed: bool, requeue: Option<int>)
      requires Value() == ws.status
      modifies this
      ensures Evaluate(ws, replicas, deploy, SelectPod(pods), newLinks, now)
           == if crashed then Crash else Evaluated(Value(), requeue)
      ensures !crashed && deploy.Some? ==>
                && (phase.Stopped? <==> ws.spec.stopped)
                && (phase.Sleeping? <==> !ws.spec.stopped && replicas == 0)
                && (phase.Running? <==> !ws.spec.stopped && replicas != 0 && deploy.value.ready > 0)
                && (phase.Starting? <==> !ws.spec.stopped && replicas != 0 && deploy.value.ready == 0)
    {
      crashed, requeue := false, None;
      var oldPhase := phase;
      links := newLinks;
      var podStart: Option<Time> := None;
      if deploy.Some? {
        if ws.spec.stopped {
          phase, podName := Stopped, "";
        } else if replicas == 0 {
          phase, podName := Sleeping, "";
        } else if deploy.value.ready > 0 {
          phase := Running;
          if |pods| > 0 {
            var selected := pods[0];
            var i := 0;
            while i < |pods|
              invariant 0 <= i <= |pods|
              invariant selected == pods[0]
              invariant forall j :: 0 <= j < i ==> !(pods[j].running && !pods[j].deleting)
            {
              if !pods[i].deleting && pods[i].running {
                selected := pods[i];
                break;
              }
              i := i + 1;
            }
            assert FirstLive(pods) == i;
            podStart := selected.startTime;
            podName := selected.name;
          }
        } else {
          phase, podName := Starting, "";
        }
      }
      if phase == Running {
        if Inactive(oldPhase) {
          lastActive := Some(now);
        }
        startedAt := Some(ComputeStartedAt(oldPhase, startedAt, podStart, now));
        if ws.spec.idle.Window? {
          if lastActive.None? {
            crashed := true;
            return;
          }
          var remaining := lastActive.value + ws.spec.idle.ns - now;
          requeue := Some(if remaining > 0 then remaining else SECOND);
        }
      }
    }
  }

  /** The spec and labels of a Workspace object in memory, as the API handlers edit them. */
  class SpecObject {
    var stopped: bool
    var idle: IdleTimeout
    var body: map<string, string>
    var labels: map<string, string>

    /** What the API server stores when this object is sent as an update of `before`. */
    function SavedOver(before: Workspace): Workspace
      reads this
    {
      WithSpec(before, Spec(stopped, idle, body)).(labels := labels)
    }

    predicate CopyOf(ws: Workspace)
      reads this
    {
      ws.spec == Spec(stopped, idle, body) && ws.labels == labels
    }

    constructor (ws: Workspace)
      ensures CopyOf(ws)
    {
      stopped, idle, body, labels := ws.spec.stopped, ws.spec.idle, ws.spec.body, ws.labels;
    }

    method StopIt(ghost ws: Workspace)
      requires CopyOf(ws)
      modifies this
      ensures SavedOver(ws) == Apply(Stop, ws)
    {
      stopped := true;
    }

    method ResumeIt(ghost ws: Workspace) returns (send: bool)
      requires CopyOf(ws)
      modifies this
      ensures send == Sends(Resume, ws) && SavedOver(ws) == Apply(Resume, ws)
    {
      send := stopped;
      if stopped {
        stopped := false;
      }
    }

    /** The first closure of a create/update request: every field that was passed and differs is
        set, and the object is sent only when something was. */
    method TakeRequest(req: SpecRequest, ghost ws: Workspace) returns (needsUpdate: bool)
      requires CopyOf(ws)
      modifies this
      ensures needsUpdate == Sends(Request(req), ws)
      ensures SavedOver(ws) == Apply(Request(req), ws)
    {
      needsUpdate := false;
      if stopped {
        stopped := false;
        needsUpdate := true;
      }
      if req.idle.Some? && idle != req.idle.value {
        idle := req.idle.value;
        needsUpdate := true;
      }
      needsUpdate := TakeFields(req.fields, needsUpdate);
      if req.oa.Some? && Lookup(labels, "oa") != req.oa {
        labels := labels["oa" := req.oa.value];
        needsUpdate := true;
      }
      assert ws.labels["oa" := if req.oa.Some? then req.oa.value else ""] == ws.labels <==>
             Lookup(ws.labels, "oa") == Some(if req.oa.Some? then req.oa.value else "");
    }

    method TakeFields(fields: map<string, string>, before: bool) returns (needsUpdate: bool)
      modifies this`body
      ensures body == old(body) + fields
      ensures needsUpdate == (before || body != old(body))
    {
      needsUpdate := before;
      var todo := fields.Keys;
      while todo != {}
        invariant todo <= fields.Keys
        invariant body.Keys == old(body).Keys + (fields.Keys - todo)
        invariant forall k <- body :: body[k] == if k in fields && k !in todo then fields[k] else old(body)[k]
        invariant needsUpdate == (before || body != old(body))
      {
        var k :| k in todo;
        if Lookup(body, k) != Some(fields[k]) {
          assert k in body ==> body[k] == old(body)[k];
          body := body[k := fields[k]];
          assert body[k] == fields[k] && Lookup(old(body), k) != Some(fields[k]);
          needsUpdate := true;
        }
        todo := todo - {k};
      }
    }
  }
}
