/** Reading the masters page by page at one pinned generation, while later generations commit. */
module SnapshotPages {
  import opened Prelude
  import opened KeyPages

  // A stored version of an object: the generation that wrote it, and its body.
  datatype Version = Version(generation: nat, body: string)

  // An object's versions, oldest first.
  type History = seq<Version>

  /** The body an object had at a generation, if it existed. */
  function At(h: History, generation: nat): Option<string> {
    if h == [] then None
    else if h[|h| - 1].generation <= generation then Some(h[|h| - 1].body)
    else At(h[..|h| - 1], generation)
  }

  /** The objects that existed at a generation. */
  function Existing(objects: map<Key, History>, generation: nat): set<Key> {
    set k | k in objects && At(objects[k], generation).Some?
  }

  datatype Item = Item(key: Key, body: string)

  datatype Page = Page(generation: nat, items: seq<Item>, next: Option<Key>)

  datatype Refusal = UnknownGeneration

  predicate Matches(objects: map<Key, History>, generation: nat, item: Item) {
    item.key in objects && At(objects[item.key], generation) == Some(item.body)
  }

  /** Exactly the objects existing at a generation after one cursor and up to another, once each, in key order,
      with the bodies they had then. */
  ghost predicate Between(objects: map<Key, History>, generation: nat, after: Option<Key>, upTo: Option<Key>, items: seq<Item>) {
    && (forall i :: 0 <= i < |items| ==> Matches(objects, generation, items[i]) && Past(after, items[i].key)
                                         && (upTo.Some? ==> items[i].key <= upTo.value))
    && (forall i, j :: 0 <= i < j < |items| ==> items[i].key < items[j].key)
    && (forall k :: k in Existing(objects, generation) && Past(after, k) && (upTo.Some? ==> k <= upTo.value) ==>
          exists i :: 0 <= i < |items| && items[i].key == k)
  }

  predicate Past(after: Option<Key>, k: Key) {
    after.Some? ==> after.value < k
  }

  /** A commit adds one version, at the new generation, to each object it writes. */
  function Committed(objects: map<Key, History>, generation: nat, changes: map<Key, string>): map<Key, History> {
    map k | k in objects.Keys + changes.Keys ::
      (if k in objects then objects[k] else []) + (if k in changes then [Version(generation, changes[k])] else [])
  }

  ghost predicate Dated(objects: map<Key, History>, generation: nat) {
    forall k, i :: k in objects && 0 <= i < |objects[k]| ==> 1 <= objects[k][i].generation <= generation
  }

  /** What an object was at a generation, no later commit changes. */
  lemma CommitKeepsPast(objects: map<Key, History>, generation: nat, changes: map<Key, string>, pinned: nat)
    requires Dated(objects, generation) && pinned <= generation
    ensures
      var after := Committed(objects, generation + 1, changes);
      && Dated(after, generation + 1) && Existing(after, pinned) == Existing(objects, pinned)
      && forall k :: k in Existing(objects, pinned) ==> At(after[k], pinned) == At(objects[k], pinned)
  {
    hide At;
    var after := Committed(objects, generation + 1, changes);
    forall k | k in after
      ensures At(after[k], pinned) == if k in objects then At(objects[k], pinned) else None
    {
      var before := if k in objects then objects[k] else [];
      NewerUnseen(before, generation + 1, if k in changes then Some(changes[k]) else None, pinned);
      NoVersions(pinned);
    }
  }

  /** A commit is seen at its own generation: each object it writes has its new body there, and each other what it had. */
  lemma CommitIsSeen(objects: map<Key, History>, generation: nat, changes: map<Key, string>, k: Key)
    requires Dated(objects, generation) && k in objects.Keys + changes.Keys
    ensures
      var after := Committed(objects, generation + 1, changes);
      At(after[k], generation + 1) == if k in changes then Some(changes[k]) else At(objects[k], generation)
    ensures k in Existing(Committed(objects, generation + 1, changes), generation + 1) <==>
            k in changes || k in Existing(objects, generation)
  {
    var before := if k in objects then objects[k] else [];
    if k in changes {
      var now := before + [Version(generation + 1, changes[k])];
      assert now[|now| - 1].generation == generation + 1;
    } else {
      assert before + [] == before;
      SeenBetween(before, generation);
    }
  }

  lemma SeenBetween(h: History, generation: nat)
    requires forall i :: 0 <= i < |h| ==> h[i].generation <= generation
    ensures At(h, generation + 1) == At(h, generation)
  {
  }

  lemma NoVersions(generation: nat)
    ensures At([], generation).None?
  {
  }

  /** A version newer than a generation is not seen at it. */
  lemma NewerUnseen(before: History, generation: nat, body: Option<string>, pinned: nat)
    requires pinned < generation
    ensures At(before + (if body.Some? then [Version(generation, body.value)] else []), pinned) == At(before, pinned)
  {
    if body.Some? {
      assert (before + [Version(generation, body.value)])[..|before|] == before;
    } else {
      assert before + [] == before;
    }
  }

  lemma NothingBeforeFirst(objects: map<Key, History>, generation: nat)
    requires Dated(objects, generation)
    ensures Existing(objects, 0) == {}
  {
    forall k | k in objects ensures At(objects[k], 0).None? {
      NoneAtZero(objects[k]);
    }
  }

  lemma {:induction false} NoneAtZero(h: History)
    requires forall i :: 0 <= i < |h| ==> 1 <= h[i].generation
    ensures At(h, 0).None?
  {
    if h != [] {
      NoneAtZero(h[..|h| - 1]);
    }
  }

  /** The items of a page of keys: those that existed at the generation. */
  method Read(objects: map<Key, History>, generation: nat, keys: seq<Key>) returns (items: seq<Item>)
    requires (forall k :: k in keys ==> k in objects) && forall i, j :: 0 <= i < j < |keys| ==> keys[i] < keys[j]
    ensures forall i :: 0 <= i < |items| ==> Matches(objects, generation, items[i]) && items[i].key in keys
    ensures forall i, j :: 0 <= i < j < |items| ==> items[i].key < items[j].key
    ensures forall k :: k in keys && k in Existing(objects, generation) ==> exists i :: 0 <= i < |items| && items[i].key == k
  {
    items := [];
    for n := 0 to |keys|
      invariant forall i :: 0 <= i < |items| ==> Matches(objects, generation, items[i]) && items[i].key in keys[..n]
      invariant forall i, j :: 0 <= i < j < |items| ==> items[i].key < items[j].key
      invariant forall k :: k in keys[..n] && k in Existing(objects, generation) ==> exists i :: 0 <= i < |items| && items[i].key == k
    {
      var body := At(objects[keys[n]], generation);
      ghost var before := items;
      if body.Some? {
        items := items + [Item(keys[n], body.value)];
      }
      forall k | k in keys[..n + 1] && k in Existing(objects, generation)
        ensures exists i :: 0 <= i < |items| && items[i].key == k
      {
        if k in keys[..n] {
          var i :| 0 <= i < |before| && before[i].key == k;
          assert items[i].key == k;
        } else {
          assert items[|items| - 1].key == k;
        }
      }
    }
    assert keys[..|keys|] == keys;
  }

  ghost function Ahead(objects: map<Key, History>, cursor: Option<Key>): set<Key> {
    set k | k in objects && Past(cursor, k)
  }

  lemma AheadShrinks(objects: map<Key, History>, cursor: Option<Key>, size: nat, keys: seq<Key>)
    requires PageAfter(objects.Keys, cursor, size, keys) && keys != []
    ensures Ahead(objects, Some(keys[|keys| - 1])) < Ahead(objects, cursor)
  {
    var last := keys[|keys| - 1];
    assert last in keys && last in Ahead(objects, cursor) && last !in Ahead(objects, Some(last));
  }

  /** The items read while the cursor has come this far; before the first page there are none. */
  ghost predicate SoFar(objects: map<Key, History>, generation: nat, after: Option<Key>, cursor: Option<Key>, items: seq<Item>) {
    if cursor.None? then after.None? && items == []
    else Between(objects, generation, after, cursor, items) && (after.Some? ==> after.value <= cursor.value)
  }

  /** One more bounded page of keys carries the items on to its last key, or to the end. */
  lemma PageExtends(objects: map<Key, History>, generation: nat, after: Option<Key>, cursor: Option<Key>, size: nat,
                    items: seq<Item>, keys: seq<Key>, more: seq<Item>)
    requires SoFar(objects, generation, after, cursor, items)
    requires PageAfter(objects.Keys, cursor, size, keys) && keys != []
    requires forall i :: 0 <= i < |more| ==> Matches(objects, generation, more[i]) && more[i].key in keys
    requires forall i, j :: 0 <= i < j < |more| ==> more[i].key < more[j].key
    requires forall k :: k in keys && k in Existing(objects, generation) ==> exists i :: 0 <= i < |more| && more[i].key == k
    ensures SoFar(objects, generation, after, Some(keys[|keys| - 1]), items + more)
  {
    var last := keys[|keys| - 1];
    InPage(objects, cursor, size, keys);
    ExistingStored(objects, generation);
    if cursor.None? {
      StartsPage(objects, generation, keys, more);
      assert [] + more == more;
    } else {
      assert keys[0] in keys;
      PartFollows(objects, generation, cursor.value, Some(last), keys, more);
      PageJoins(objects, objects, generation, after, cursor.value, Some(last), items, more);
    }
  }

  /** The items of a page of keys are those between its cursor and its last key. */
  lemma PartFollows(objects: map<Key, History>, generation: nat, from: Key, upTo: Option<Key>, keys: seq<Key>, more: seq<Item>)
    requires forall k :: k in keys ==> from < k && (upTo.Some? ==> k <= upTo.value)
    requires forall k :: k in Existing(objects, generation) && from < k && (upTo.Some? ==> k <= upTo.value) ==> k in keys
    requires forall i :: 0 <= i < |more| ==> Matches(objects, generation, more[i]) && more[i].key in keys
    requires forall i, j :: 0 <= i < j < |more| ==> more[i].key < more[j].key
    requires forall k :: k in keys && k in Existing(objects, generation) ==> exists i :: 0 <= i < |more| && more[i].key == k
    ensures Between(objects, generation, Some(from), upTo, more)
  {
    hide At, Existing, Matches;
  }

  lemma StartsPage(objects: map<Key, History>, generation: nat, keys: seq<Key>, more: seq<Item>)
    requires keys != [] && forall k :: k in keys ==> k <= keys[|keys| - 1]
    requires forall k :: k in Existing(objects, generation) && k <= keys[|keys| - 1] ==> k in keys
    requires forall i :: 0 <= i < |more| ==> Matches(objects, generation, more[i]) && more[i].key in keys
    requires forall i, j :: 0 <= i < j < |more| ==> more[i].key < more[j].key
    requires forall k :: k in keys && k in Existing(objects, generation) ==> exists i :: 0 <= i < |more| && more[i].key == k
    ensures Between(objects, generation, None, Some(keys[|keys| - 1]), more)
  {
    hide At, Existing, Matches;
  }

  lemma ExistingStored(objects: map<Key, History>, generation: nat)
    ensures Existing(objects, generation) <= objects.Keys
  {
  }

  /** A page of keys holds every key past the cursor up to its last. */
  lemma InPage(objects: map<Key, History>, cursor: Option<Key>, size: nat, keys: seq<Key>)
    requires PageAfter(objects.Keys, cursor, size, keys) && keys != []
    ensures forall k :: k in keys ==> Past(cursor, k) && k <= keys[|keys| - 1]
    ensures forall k :: k in objects && Past(cursor, k) && k <= keys[|keys| - 1] ==> k in keys
  {
    assert keys[|keys| - 1] in keys;
  }

  /** The master reads of a store whose generations go on committing. */
  class MasterReads {
    var generation: nat
    var objects: map<Key, History>

    ghost predicate Valid()
      reads this
    {
      Dated(objects, generation)
    }

    constructor ()
      ensures Valid() && generation == 0 && objects == map[]
    {
      generation, objects := 0, map[];
    }

    method Commit(changes: map<Key, string>)
      requires Valid()
      modifies this
      ensures Valid() && generation == old(generation) + 1 && objects == Committed(old(objects), generation, changes)
    {
      CommitKeepsPast(objects, generation, changes, generation);
      generation := generation + 1;
      objects := Committed(objects, generation, changes);
    }

    /** Any number of commits leave every past generation as it was. */
    method Meanwhile(commits: seq<map<Key, string>>, ghost pinned: nat)
      requires Valid() && pinned <= generation
      modifies this
      ensures Valid() && old(generation) <= generation
      ensures Existing(objects, pinned) == old(Existing(objects, pinned))
      ensures forall k :: k in Existing(objects, pinned) ==> At(objects[k], pinned) == old(At(objects[k], pinned))
    {
      hide Committed, Dated;
      for n := 0 to |commits|
        invariant Valid() && old(generation) <= generation
        invariant Existing(objects, pinned) == old(Existing(objects, pinned))
        invariant forall k :: k in Existing(objects, pinned) ==> k in old(objects) && At(objects[k], pinned) == old(At(objects[k], pinned))
      {
        CommitKeepsPast(objects, generation, commits[n], pinned);
        Commit(commits[n]);
      }
    }

    /** `snapshot_page`: the next objects of a generation, at most `limit`, and where to go on from when, and only
        when, there are more. */
    method SnapshotPage(at: Option<nat>, after: Option<Key>, limit: nat) returns (r: Result<Page, Refusal>)
      requires Valid() && 1 <= limit
      ensures r.Err? <==> at.Some? && !(1 <= at.value <= generation)
      ensures r.Ok? ==>
        var page := r.value;
        && page.generation == (if at.Some? then at.value else generation)
        && |page.items| <= limit
        && Between(objects, page.generation, after, page.next, page.items)
        && (page.next.Some? ==> |page.items| == limit && page.items[limit - 1].key == page.next.value)
        && (page.next.Some? ==> exists k :: k in Existing(objects, page.generation) && page.next.value < k)
    {
      if at.Some? && !(1 <= at.value <= generation) {
        return Err(UnknownGeneration);
      }
      var pinned := if at.Some? then at.value else generation;
      NothingBeforeFirst(objects, generation);
      var items: seq<Item>, cursor := [], after;
      var last := pinned == 0;
      while |items| <= limit && !last
        invariant SoFar(objects, pinned, after, cursor, items)
        invariant last ==> Between(objects, pinned, after, None, items)
        decreases Ahead(objects, cursor), !last
      {
        hide Dated, SoFar, Between, Matches, At, Existing;
        var keys := KeysAfter(objects.Keys, cursor, limit + 1);
        if keys == [] {
          NoneLeft(objects, pinned, after, cursor, limit + 1, items, keys);
          last := true;
        } else {
          AheadShrinks(objects, cursor, limit + 1, keys);
          var more := Read(objects, pinned, keys);
          PageExtends(objects, pinned, after, cursor, limit + 1, items, keys, more);
          if |keys| <= limit {
            AllRead(objects, pinned, after, cursor, limit + 1, items + more, keys);
            last := true;
          }
          items, cursor := items + more, Some(keys[|keys| - 1]);
        }
      }
      if |items| > limit {
        CutAt(objects, pinned, after, cursor, items, limit);
        return Ok(Page(pinned, items[..limit], Some(items[limit - 1].key)));
      }
      return Ok(Page(pinned, items, None));
    }

    /** A reader that follows `next_after` at the generation of its first page, whatever commits between pages, ends
        with every object that existed then, once, in key order, with the body it had. */
    method Follow(limit: nat, between: nat -> seq<map<Key, string>>) returns (pinned: nat, items: seq<Item>)
      requires Valid() && 1 <= limit
      modifies this
      ensures Valid() && pinned == old(generation)
      ensures Between(old(objects), pinned, None, None, items)
    {
      hide Dated, Between, Matches, Existing;
      var first := SnapshotPage(None, None, limit);
      var page := first.value;
      pinned, items := page.generation, page.items;
      var n := 0;
      ghost var start := objects;
      GenerationIsReal(start, pinned, generation, page.next);
      while page.next.Some?
        invariant Valid() && page.generation == pinned == old(generation) <= generation
        invariant Between(start, pinned, None, page.next, items)
        invariant SameAt(start, objects, pinned)
        invariant page.next.Some? ==> pinned > 0
        decreases if page.next.Some? then Ahead(start, page.next) else {}, page.next.Some?
      {
        var from := page.next.value;
        Meanwhile(between(n), pinned);
        n := n + 1;
        var r := SnapshotPage(Some(pinned), Some(from), limit);
        page := r.value;
        if page.next.Some? {
          NextIsAhead(start, objects, pinned, from, page);
        }
        PageJoins(start, objects, pinned, None, from, page.next, items, page.items);
        items := items + page.items;
      }
    }
  }

  /** The same objects, with the same bodies, at a generation. */
  ghost predicate SameAt(a: map<Key, History>, b: map<Key, History>, generation: nat) {
    && Existing(a, generation) == Existing(b, generation)
    && forall k :: k in Existing(a, generation) ==> At(a[k], generation) == At(b[k], generation)
  }

  lemma GenerationIsReal(objects: map<Key, History>, pinned: nat, generation: nat, next: Option<Key>)
    requires Dated(objects, generation)
    ensures (exists k :: k in Existing(objects, pinned)) ==> pinned > 0
    ensures SameAt(objects, objects, pinned)
  {
    NothingBeforeFirst(objects, generation);
  }

  /** A page that goes on from a key joins what came before it. */
  lemma PageJoins(start: map<Key, History>, objects: map<Key, History>, generation: nat, after: Option<Key>, from: Key, next: Option<Key>,
                  items: seq<Item>, more: seq<Item>)
    requires SameAt(start, objects, generation) && (next.Some? ==> from <= next.value) && (after.Some? ==> after.value <= from)
    requires Between(start, generation, after, Some(from), items) && Between(objects, generation, Some(from), next, more)
    ensures Between(start, generation, after, next, items + more)
  {
    SameMatches(start, objects, generation, more);
    hide At, Existing, Matches, SameAt;
    JoinCovers(Existing(start, generation), after, from, next, items, more);
  }

  /** What two lists cover on either side of a key, they cover together. */
  lemma JoinCovers(wanted: set<Key>, after: Option<Key>, from: Key, next: Option<Key>, items: seq<Item>, more: seq<Item>)
    requires forall k :: k in wanted && Past(after, k) && k <= from ==> exists i :: 0 <= i < |items| && items[i].key == k
    requires forall k :: k in wanted && from < k && (next.Some? ==> k <= next.value) ==> exists i :: 0 <= i < |more| && more[i].key == k
    ensures forall k :: k in wanted && Past(after, k) && (next.Some? ==> k <= next.value) ==>
      exists i :: 0 <= i < |items + more| && (items + more)[i].key == k
  {
    var all := items + more;
    forall k | k in wanted && Past(after, k) && (next.Some? ==> k <= next.value)
      ensures exists i :: 0 <= i < |all| && all[i].key == k
    {
      if k <= from {
        var i :| 0 <= i < |items| && items[i].key == k;
        assert all[i].key == k;
      } else {
        var i :| 0 <= i < |more| && more[i].key == k;
        assert all[|items| + i].key == k;
      }
    }
  }

  lemma SameMatches(start: map<Key, History>, objects: map<Key, History>, generation: nat, items: seq<Item>)
    requires SameAt(start, objects, generation)
    ensures Existing(start, generation) == Existing(objects, generation)
    ensures forall i :: 0 <= i < |items| && Matches(objects, generation, items[i]) ==> Matches(start, generation, items[i])
  {
    hide At;
    forall i | 0 <= i < |items| && Matches(objects, generation, items[i]) ensures Matches(start, generation, items[i]) {
      assert items[i].key in Existing(objects, generation);
    }
  }

  lemma NextIsAhead(start: map<Key, History>, objects: map<Key, History>, generation: nat, from: Key, page: Page)
    requires SameAt(start, objects, generation) && page.next.Some? && |page.items| > 0
    requires page.items[|page.items| - 1].key == page.next.value
    requires Between(objects, generation, Some(from), page.next, page.items)
    ensures from < page.next.value && Ahead(start, page.next) < Ahead(start, Some(from))
  {
    var last := page.items[|page.items| - 1];
    assert Matches(objects, generation, last);
    assert last.key in Existing(start, generation);
    assert last.key in Ahead(start, Some(from)) && last.key !in Ahead(start, page.next);
  }

  lemma NoneLeft(objects: map<Key, History>, generation: nat, after: Option<Key>, cursor: Option<Key>, size: nat, items: seq<Item>,
                 keys: seq<Key>)
    requires SoFar(objects, generation, after, cursor, items)
    requires PageAfter(objects.Keys, cursor, size, keys) && keys == [] && size > 0
    ensures Between(objects, generation, after, None, items)
  {
  }

  lemma AllRead(objects: map<Key, History>, generation: nat, after: Option<Key>, cursor: Option<Key>, size: nat, items: seq<Item>,
                keys: seq<Key>)
    requires PageAfter(objects.Keys, cursor, size, keys) && 0 < |keys| < size
    requires SoFar(objects, generation, after, Some(keys[|keys| - 1]), items)
    ensures Between(objects, generation, after, None, items)
  {
    forall k | k in objects && k > keys[|keys| - 1] ensures k in keys {
      assert keys[|keys| - 1] in keys;
    }
  }

  lemma MatchIsExisting(objects: map<Key, History>, generation: nat, item: Item)
    ensures Matches(objects, generation, item) ==> item.key in Existing(objects, generation)
  {
  }

  /** The first items of a longer list, and the cursor that leads on to the rest. */
  lemma CutAt(objects: map<Key, History>, generation: nat, after: Option<Key>, upTo: Option<Key>, items: seq<Item>, limit: nat)
    requires Between(objects, generation, after, upTo, items) && 1 <= limit < |items|
    ensures Between(objects, generation, after, Some(items[limit - 1].key), items[..limit])
    ensures items[limit].key in Existing(objects, generation) && items[limit - 1].key < items[limit].key
  {
    MatchIsExisting(objects, generation, items[limit]);
    hide At, Existing, Matches;
    var last := items[limit - 1].key;
    forall k | k in Existing(objects, generation) && Past(after, k) && k <= last
      ensures exists i :: 0 <= i < limit && items[..limit][i].key == k
    {
      var i :| 0 <= i < |items| && items[i].key == k;
      assert i < limit;
      assert items[..limit][i].key == k;
    }
  }
}