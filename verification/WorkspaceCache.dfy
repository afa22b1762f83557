/**
The materialized view: informer events change a pending map, a debounced rebuild captures
the map and publishes a snapshot of it. The class holds the lock sections as methods; module
Debounce puts them into every possible interleaving.
*/
module WorkspaceCache {
  import opened Wrappers
  import opened Snapshot

  type Pending = map<string, Item>

  // ----- keys -----

  function KeyOf(it: Item): string {
    it.namespace + "/" + it.name
  }

  /** The key the informer library derives for a deleted object. */
  function DeletionKey(namespace: string, name: string): string {
    if namespace != "" then namespace + "/" + name else name
  }

  ghost predicate WellKeyed(m: Pending) {
    forall k <- m :: KeyOf(m[k]) == k
  }

  function Put(m: Pending, it: Item): Pending {
    m[KeyOf(it) := it]
  }

  function Drop(m: Pending, namespace: string, name: string): Pending {
    m - {DeletionKey(namespace, name)}
  }

  /** An added or updated object replaces what was there under its key, and nothing else. */
  lemma UpsertReplaces(m: Pending, it: Item)
    ensures var k := it.namespace + "/" + it.name;
            k in Put(m, it) && Put(m, it)[k] == it && Put(m, it) - {k} == m - {k}
  {
  }

  /** A deletion takes away what the last event for the object put there and nothing else, unless the object has no
      namespace: then the two keys differ. */
  lemma DeletionUndoesUpsert(m: Pending, it: Item)
    ensures KeyOf(it) !in Drop(Put(m, it), it.namespace, it.name) <==> it.namespace != ""
    ensures it.namespace != "" ==> Drop(Put(m, it), it.namespace, it.name) == m - {KeyOf(it)}
  {
    if it.namespace == "" {
      assert |KeyOf(it)| == 1 + |it.name|;
    }
  }

  // ----- the items of a map, in any order -----

  ghost predicate Enumerates(s: seq<Item>, m: Pending) {
    multiset(s) == multiset(m.Values)
  }

  /** The snapshot of a pending map: its items in strict (namespace, name) order, whatever the order
      of iteration was. */
  lemma ImageIsUnique(m: Pending, s: seq<Item>, t: seq<Item>)
    requires WellKeyed(m) && Enumerates(s, m) && Enumerates(t, m)
    ensures Sorted(s) == Sorted(t) && StrictlyOrdered(Sorted(s)) && multiset(Sorted(s)) == multiset(m.Values)
  {
    SortedIgnoresInputOrder(s, t);
    SortedIsStrict(s);
  }

  // ----- the object -----

  class Cache {
    var pending: Pending
    var timer: Option<nat>
    var snap: View
    var ready: bool

    constructor ()
      ensures pending == map[] && timer.None? && !ready
      ensures snap == View([], map[], map[], map[]) && ValidView(snap)
    {
      pending, timer, ready := map[], None, false;
      snap := View([], map[], map[], map[]);
      new;
      IndexedIsValid([]);
    }

    /** First lock section of an added or updated object. */
    method Upsert(it: Item)
      requires WellKeyed(pending)
      modifies this`pending
      ensures pending == Put(old(pending), it) && WellKeyed(pending)
      ensures var k := it.namespace + "/" + it.name;
              k in pending && pending[k] == it && pending - {k} == old(pending) - {k}
    {
      pending := pending[KeyOf(it) := it];
    }

    /** First lock section of a deleted object. */
    method Delete(namespace: string, name: string)
      requires WellKeyed(pending)
      modifies this`pending
      ensures pending == Drop(old(pending), namespace, name) && WellKeyed(pending)
      ensures pending == old(pending) - {if namespace != "" then namespace + "/" + name else name}
    {
      pending := pending - {DeletionKey(namespace, name)};
    }

    /** Second lock section of every handler: arms timer `id` unless one is recorded. */
    method ScheduleRebuild(id: nat) returns (armed: bool)
      modifies this`timer
      ensures timer == Arm(old(timer), id) && armed == old(timer).None?
      ensures timer == if armed then Some(id) else old(timer)
    {
      if timer.Some? {
        return false;
      }
      timer := Some(id);
      armed := true;
    }

    /** First lock section of rebuildNow: the timer to stop, if any. */
    method CancelTimer() returns (stopped: Option<nat>)
      modifies this`timer
      ensures stopped == old(timer) && timer.None?
    {
      stopped := timer;
      timer := None;
    }

    /** Lock section of rebuild: forgets the timer and copies the items in some order. */
    method Capture() returns (items: array<Item>)
      requires WellKeyed(pending)
      modifies this`timer
      ensures timer.None? && fresh(items) && Enumerates(items[..], pending)
    {
      timer := None;
      items := CopyItems(pending);
    }

    method Publish(v: View)
      modifies this`snap, this`ready
      ensures snap == v && ready
    {
      snap := v;
      ready := true;
    }

    /** A rebuild with nothing in between publishes the snapshot of the pending map. */
    method Rebuild()
      requires WellKeyed(pending)
      modifies this`timer, this`snap, this`ready
      ensures timer.None? && ready && ValidView(snap)
      ensures StrictlyOrdered(snap.all) && multiset(snap.all) == multiset(pending.Values)
    {
      var items := Capture();
      ImageIsUnique(pending, items[..], items[..]);
      var v := BuildSnapshot(items);
      Publish(v);
    }

    /** Cancels the recorded timer and rebuilds at once. */
    method RebuildNow()
      requires WellKeyed(pending)
      modifies this`timer, this`snap, this`ready
      ensures timer.None? && ready && ValidView(snap)
      ensures StrictlyOrdered(snap.all) && multiset(snap.all) == multiset(pending.Values)
    {
      var _ := CancelTimer();
      Rebuild();
    }

    /** A point read sees the newest event, even while a rebuild is still to come. */
    method Lookup(namespace: string, name: string) returns (found: Option<Item>)
      requires WellKeyed(pending)
      ensures found.Some? <==> namespace + "/" + name in pending
      ensures found.Some? ==> found.value in pending.Values && KeyOf(found.value) == namespace + "/" + name
    {
      var key := namespace + "/" + name;
      found := if key in pending then Some(pending[key]) else None;
    }
  }

  function Arm(timer: Option<nat>, id: nat): Option<nat> {
    if timer.Some? then timer else Some(id)
  }

  ghost function ValuesAt(m: Pending, keys: set<string>): set<Item> {
    set k | k in keys && k in m :: m[k]
  }

  lemma ValuesAtStep(m: Pending, keys: set<string>, k: string)
    requires WellKeyed(m) && keys <= m.Keys && k in m && k !in keys
    ensures ValuesAt(m, keys + {k}) == ValuesAt(m, keys) + {m[k]} && m[k] !in ValuesAt(m, keys)
  {
  }

  method CopyItems(m: Pending) returns (items: array<Item>)
    requires WellKeyed(m)
    ensures fresh(items) && Enumerates(items[..], m)
  {
    var copied := CopyValues(m);
    items := new Item[|copied|](i requires 0 <= i < |copied| => copied[i]);
    assert items[..] == copied;
  }

  /** The map is iterated in any order. */
  method CopyValues(m: Pending) returns (copied: seq<Item>)
    requires WellKeyed(m)
    ensures Enumerates(copied, m)
  {
    copied := [];
    var todo := m.Keys;
    assert ValuesAt(m, m.Keys - todo) == {};
    while todo != {}
      invariant todo <= m.Keys
      invariant multiset(copied) == multiset(ValuesAt(m, m.Keys - todo))
    {
      var k :| k in todo;
      ValuesAtStep(m, m.Keys - todo, k);
      assert m.Keys - (todo - {k}) == m.Keys - todo + {k};
      copied := copied + [m[k]];
      todo := todo - {k};
    }
    assert ValuesAt(m, m.Keys - todo) == m.Values;
  }
}
