/** The generation-gated detail index: batches keep it, forced pages leave it behind, and the owner's
    resumable rebuild restores it. When it counts as complete, a lookup answers as a scan. */
module MasterIndex {
  import opened Prelude
  import KeyPages

  // Master ids, in the storage-key order the owner pass reads them in; their text has an order of its own.
  type Id = nat
  // A configured key: its name and values. Group digests are taken as injective, so a group is its key.
  type Key = nat

  datatype Body = Body(canonical: Id, kind: nat, retired: bool, text: int)

  // `textOrder` places each id's text among all texts.
  datatype Spec = Spec(kind: nat, keysOf: Body -> set<Key>, textOrder: Id -> nat)

  predicate Eligible(id: Id, body: Body) {
    body.canonical == id && !body.retired
  }

  /** `derive`: the groups a master's body gives, or None when the index holds nothing for it. */
  function Derive(spec: Spec, id: Id, body: Body): Option<set<Key>> {
    if body.kind != spec.kind then None
    else if Eligible(id, body) then Some(spec.keysOf(body))
    else Some({})
  }

  datatype Coverage = Coverage(generation: nat, ready: bool, cursor: Option<Id>)

  // --- What the index keeps -----------------------------------------------------------------

  /** The stored groups are those of the retained summaries. */
  ghost predicate Entered(entries: set<(Key, Id)>, summaries: map<Id, set<Key>>) {
    forall k: Key, id: Id :: (k, id) in entries <==> id in summaries && k in summaries[id]
  }

  /** A master's summary is the one its current body gives. */
  predicate Fresh(spec: Spec, masters: map<Id, Body>, summaries: map<Id, set<Key>>, id: Id) {
    id in masters ==>
      match Derive(spec, id, masters[id])
      case None => id !in summaries
      case Some(groups) => id in summaries && summaries[id] == groups
  }

  /** At the generation the coverage names, every master the pass has reached is fresh. */
  ghost predicate Covered(spec: Spec, masters: map<Id, Body>, summaries: map<Id, set<Key>>, generation: nat,
                          coverage: Option<Coverage>) {
    coverage.Some? ==>
      && coverage.value.generation <= generation
      && coverage.value.ready == coverage.value.cursor.None?
      && (coverage.value.generation == generation ==>
            forall id :: id in masters && (coverage.value.ready || id <= coverage.value.cursor.value) ==>
              Fresh(spec, masters, summaries, id))
  }

  /** The summaries once these masters' bodies have been derived again. */
  function Resummarized(spec: Spec, summaries: map<Id, set<Key>>, objects: map<Id, Body>): map<Id, set<Key>> {
    map id | id in summaries.Keys + objects.Keys && (id in objects ==> Derive(spec, id, objects[id]).Some?) ::
      if id in objects then Derive(spec, id, objects[id]).value else summaries[id]
  }

  /** Re-deriving a page of the masters carries the pass's coverage to the page's last key. */
  lemma PageCovers(spec: Spec, masters: map<Id, Body>, summaries: map<Id, set<Key>>, cursor: Option<Id>,
                   page: seq<Id>, size: nat, taken: seq<Id>)
    requires KeyPages.PageAfter(masters.Keys, cursor, size + 1, page) && 0 < size
    requires taken == if |page| > size then page[..size] else page
    requires (forall id :: id in taken ==> id in masters) && summaries.Keys <= masters.Keys
    requires cursor.Some? ==> forall id :: id in masters && id <= cursor.value ==> Fresh(spec, masters, summaries, id)
    ensures
      var after := Resummarized(spec, summaries, map id | id in taken :: masters[id]);
      after.Keys <= masters.Keys
      && forall id :: id in masters && (|page| <= size || id <= taken[|taken| - 1]) ==> Fresh(spec, masters, after, id)
  {
    var after := Resummarized(spec, summaries, map id | id in taken :: masters[id]);
    forall id | id in masters && (|page| <= size || id <= taken[|taken| - 1])
      ensures Fresh(spec, masters, after, id)
    {
      if cursor.Some? ==> id > cursor.value {
        PageTakes(masters, cursor, size, page, taken, id);
      }
    }
  }

  /** No master is skipped between the cursor and the page's last key. */
  lemma PageTakes(masters: map<Id, Body>, cursor: Option<Id>, size: nat, page: seq<Id>, taken: seq<Id>, id: Id)
    requires KeyPages.PageAfter(masters.Keys, cursor, size + 1, page) && 0 < size
    requires taken == if |page| > size then page[..size] else page
    requires id in masters && (cursor.Some? ==> id > cursor.value)
    requires |page| <= size || id <= taken[|taken| - 1]
    ensures id in taken
  {
    if |page| > size {
      assert page[size] in page && page[size - 1] in page;
      assert forall i :: 0 <= i < |page| && page[i] <= page[size - 1] ==> i < size;
      assert id in page;
      var i :| 0 <= i < |page| && page[i] == id;
      assert taken[i] == id;
    }
  }

  lemma TakenStored(masters: map<Id, Body>, cursor: Option<Id>, size: nat, page: seq<Id>, taken: seq<Id>)
    requires KeyPages.PageAfter(masters.Keys, cursor, size + 1, page)
    requires taken == if |page| > size then page[..size] else page
    ensures forall id :: id in taken ==> id in masters && (cursor.Some? ==> id > cursor.value)
  {
  }

  lemma ResummarizedStep(spec: Spec, summaries: map<Id, set<Key>>, done: map<Id, Body>, id: Id, body: Body)
    ensures Resummarized(spec, summaries, done[id := body]) ==
            match Derive(spec, id, body)
            case None => Resummarized(spec, summaries, done) - {id}
            case Some(groups) => Resummarized(spec, summaries, done)[id := groups]
  {
  }

  /** The masters after a cursor. */
  function Past(masters: map<Id, Body>, cursor: Option<Id>): set<Id> {
    set id | id in masters && (cursor.Some? ==> id > cursor.value)
  }

  function KeysOf(page: seq<Id>): set<Id> {
    set id | id in page
  }

  lemma {:induction false} AscendingCount(page: seq<Id>)
    requires forall i, j :: 0 <= i < j < |page| ==> page[i] < page[j]
    ensures |KeysOf(page)| == |page|
  {
    if page != [] {
      var last, rest := page[|page| - 1], page[..|page| - 1];
      AscendingCount(rest);
      assert KeysOf(page) == KeysOf(rest) + {last};
      assert last !in KeysOf(rest);
    }
  }

  /** A page one key longer than it takes: it says whether more are left, and what it takes are the first of them. */
  lemma PageLeaves(masters: map<Id, Body>, cursor: Option<Id>, size: nat, page: seq<Id>, taken: seq<Id>)
    requires KeyPages.PageAfter(masters.Keys, cursor, size + 1, page) && 0 < size
    requires taken == if |page| > size then page[..size] else page
    ensures |page| <= size <==> |Past(masters, cursor)| <= size
    ensures |page| > size ==>
              Past(masters, Some(taken[size - 1])) == Past(masters, cursor) - KeysOf(taken)
              && KeysOf(taken) <= Past(masters, cursor) && |KeysOf(taken)| == size
  {
    PageAscends(masters, cursor, size, page);
    AscendingCount(page);
    Within(KeysOf(page), Past(masters, cursor));
    PastTaken(masters, cursor, size, page, taken);
    hide KeyPages.PageAfter, Past;
    if |page| > size {
      FirstTaken(masters, cursor, size, page, taken);
    } else {
      assert KeysOf(page) == Past(masters, cursor);
    }
  }

  lemma PastTaken(masters: map<Id, Body>, cursor: Option<Id>, size: nat, page: seq<Id>, taken: seq<Id>)
    requires KeyPages.PageAfter(masters.Keys, cursor, size + 1, page) && 0 < size
    requires taken == if |page| > size then page[..size] else page
    ensures forall id :: id in Past(masters, cursor) && (|page| <= size || id <= taken[size - 1]) ==> id in taken
  {
    forall id | id in Past(masters, cursor) && (|page| <= size || id <= taken[|taken| - 1]) ensures id in taken {
      PageTakes(masters, cursor, size, page, taken, id);
    }
  }

  lemma FirstTaken(masters: map<Id, Body>, cursor: Option<Id>, size: nat, page: seq<Id>, taken: seq<Id>)
    requires 0 < size < |page| && taken == page[..size] && KeysOf(page) <= Past(masters, cursor)
    requires forall i, j :: 0 <= i < j < |page| ==> page[i] < page[j]
    requires forall id :: id in Past(masters, cursor) && id <= taken[size - 1] ==> id in taken
    ensures Past(masters, Some(taken[size - 1])) == Past(masters, cursor) - KeysOf(taken)
    ensures KeysOf(taken) <= Past(masters, cursor) && |KeysOf(taken)| == size
  {
    AscendingCount(taken);
    forall id | id in taken ensures id in KeysOf(page) && id <= taken[size - 1] {
      var i :| 0 <= i < size && taken[i] == id;
      assert page[i] == id && page[size - 1] == taken[size - 1];
    }
    assert taken[size - 1] in Past(masters, cursor);
  }

  lemma PageAscends(masters: map<Id, Body>, cursor: Option<Id>, size: nat, page: seq<Id>)
    requires KeyPages.PageAfter(masters.Keys, cursor, size + 1, page)
    ensures forall i, j :: 0 <= i < j < |page| ==> page[i] < page[j]
    ensures KeysOf(page) <= Past(masters, cursor)
  {
  }

  /** A page took the first `size` keys of those there were, and these are left. */
  ghost predicate TakesFirst(before: set<Id>, after: set<Id>, size: nat) {
    && after <= before && |before| == |after| + size
    && forall i, j :: i in before && i !in after && j in after ==> i < j
  }

  lemma TakenFirst(masters: map<Id, Body>, cursor: Option<Id>, size: nat, taken: seq<Id>)
    requires |taken| == size > 0
    requires Past(masters, Some(taken[size - 1])) == Past(masters, cursor) - KeysOf(taken)
    requires KeysOf(taken) <= Past(masters, cursor) && |KeysOf(taken)| == size
    requires forall id :: id in taken ==> id <= taken[size - 1]
    ensures TakesFirst(Past(masters, cursor), Past(masters, Some(taken[size - 1])), size)
  {
    Within(KeysOf(taken), Past(masters, cursor));
  }

  lemma TakenCount(before: set<Id>, after: set<Id>, size: nat)
    requires TakesFirst(before, after, size)
    ensures |before| == |after| + size
  {
  }

  lemma TakesOn(a: set<Id>, b: set<Id>, c: set<Id>, m: nat, n: nat)
    requires TakesFirst(a, b, m) && TakesFirst(b, c, n)
    ensures TakesFirst(a, c, m + n)
  {
  }

  lemma Within(part: set<Id>, all: set<Id>)
    requires part <= all
    ensures |part| <= |all| && |all - part| == |all| - |part|
  {
    assert all == part + (all - part);
  }

  /** What changes the masters: a committed batch, or a forced publication page. */
  datatype Event = Batch(objects: map<Id, Body>) | Forced

  /** The generation, the masters stored, and whether the index is complete. */
  datatype Told = Told(generation: nat, masters: map<Id, Body>, complete: bool)

  /** What commits leave: each batch one generation on, with its masters over those before; a forced page one on too,
      with the index left behind, but nothing before the first batch. */
  function After(t: Told, events: seq<Event>): Told
    decreases |events|
  {
    if events == [] then t
    else
      var before := After(t, events[..|events| - 1]);
      match events[|events| - 1]
      case Batch(objects) => before.(generation := before.generation + 1, masters := before.masters + objects)
      case Forced => if before.generation == 0 then before else before.(generation := before.generation + 1, complete := false)
  }

  ghost predicate Wrote(t: Told, events: seq<Event>, u: Told) {
    u.generation == After(t, events).generation && u.masters == After(t, events).masters
  }

  /** What commits write does not depend on the index. */
  lemma {:induction false} SameWrites(t: Told, u: Told, events: seq<Event>)
    requires t.generation == u.generation && t.masters == u.masters
    ensures Wrote(t, events, After(u, events))
    decreases |events|
  {
    if events != [] {
      SameWrites(t, u, events[..|events| - 1]);
    }
  }

  datatype Pass = Ready(generation: nat) | Paged(generation: nat, read: nat) | Overtaken | Stale | NoBatch

  datatype FindError = Incomplete | NoCurrentMaster | DiffersFromMaster

  function Scan(spec: Spec, masters: map<Id, Body>, key: Key): set<Id> {
    set id | id in masters && masters[id].kind == spec.kind && masters[id].canonical == id && !masters[id].retired
             && key in spec.keysOf(masters[id])
  }

  class IndexStore {
    const spec: Spec
    var generation: nat
    var masters: map<Id, Body>
    var entries: set<(Key, Id)>
    var summaries: map<Id, set<Key>>
    var coverage: Option<Coverage>

    ghost predicate Valid()
      reads this
    {
      && Entered(entries, summaries)
      && summaries.Keys <= masters.Keys
      && Covered(spec, masters, summaries, generation, coverage)
      && (generation == 0 ==> masters == map[])
    }

    constructor (spec: Spec)
      ensures Valid() && generation == 0 && masters == map[] && coverage == None && this.spec == spec
    {
      this.spec := spec;
      generation, masters, entries, summaries, coverage := 0, map[], {}, map[], None;
    }

    predicate Complete()
      reads this
    {
      coverage.Some? && coverage.value.ready && coverage.value.generation == generation
    }

    /** One master's groups: those its body no longer gives are removed and those it gives written. */
    method EnterOne(id: Id, body: Body)
      requires Entered(entries, summaries)
      modifies this`entries, this`summaries
      ensures Entered(entries, summaries)
      ensures summaries == match Derive(spec, id, body)
                           case None => old(summaries) - {id}
                           case Some(groups) => old(summaries)[id := groups]
    {
      var prior := if id in summaries then summaries[id] else {};
      var groups := Derive(spec, id, body);
      var now := if groups.Some? then groups.value else {};
      entries := (set e | e in entries && !(e.1 == id && e.0 in prior - now)) + (set k | k in now :: (k, id));
      summaries := if groups.Some? then summaries[id := now] else summaries - {id};
    }

    /** `entries`: each of the masters, by its body. */
    method Enter(objects: map<Id, Body>)
      requires Entered(entries, summaries)
      modifies this`entries, this`summaries
      ensures summaries == Resummarized(spec, old(summaries), objects) && Entered(entries, summaries)
    {
      hide Entered;
      var rest := objects.Keys;
      var done: map<Id, Body> := map[];
      assert summaries == Resummarized(spec, summaries, done);
      while rest != {}
        invariant rest <= objects.Keys && Entered(entries, summaries)
        invariant done.Keys == objects.Keys - rest && forall id :: id in done ==> done[id] == objects[id]
        invariant summaries == Resummarized(spec, old(summaries), done)
      {
        var id :| id in rest;
        rest := rest - {id};
        ResummarizedStep(spec, old(summaries), done, id, objects[id]);
        EnterOne(id, objects[id]);
        done := done[id := objects[id]];
      }
      assert done == objects;
    }

    /** A committed batch: a complete index is kept complete, an incomplete one is left as it is. */
    method CommitBatch(objects: map<Id, Body>)
      requires Valid()
      modifies this
      ensures Valid()
      ensures generation == old(generation) + 1 && masters == old(masters) + objects
      ensures Complete() <==> old(Complete())
      ensures !Complete() ==> entries == old(entries) && summaries == old(summaries) && coverage == old(coverage)
    {
      if Complete() {
        ghost var was, before := masters, summaries;
        Enter(objects);
        coverage := Some(Coverage(generation + 1, true, None));
        BatchKeepsFresh(spec, was, before, objects);
      }
      generation, masters := generation + 1, masters + objects;
    }

    /** A forced publication page: a generation with no index changes, refused before the first batch. */
    method ForcedPage() returns (done: bool)
      requires Valid()
      modifies this`generation
      ensures Valid() && done == (old(generation) > 0)
      ensures if done then generation == old(generation) + 1 && !Complete() else generation == old(generation)
    {
      if generation == 0 {
        return false;
      }
      generation := generation + 1;
      return true;
    }

    /** Progress of an older generation, which a pass without a restart refuses. */
    predicate Outdated()
      reads this
    {
      !Complete() && coverage.Some? && coverage.value.cursor.Some? && coverage.value.generation != generation
    }

    /** The masters a pass has yet to read: those after its cursor, and all of them where it starts again. */
    function ToRead(restart: bool): set<Id>
      reads this
    {
      if Complete() then {}
      else Past(masters, if !restart && coverage.Some? && coverage.value.generation == generation then coverage.value.cursor else None)
    }

    /** One page of the owner pass, in one transaction under the storage gate. */
    method RebuildPage(pinned: Option<nat>, restart: bool, size: nat) returns (r: Pass)
      requires Valid() && size > 0
      modifies this`entries, this`summaries, this`coverage
      ensures Valid()
      ensures r.Ready? ==> r.generation == generation && Complete()
      ensures r.Paged? ==> !Complete() && r.generation == generation && coverage.Some? && coverage.value.generation == generation
                           && r.read == size
      ensures r.Ready? || r.Paged? ==>
                (r.Ready? <==> |old(ToRead(restart))| <= size)
                && (r.Paged? ==> TakesFirst(old(ToRead(restart)), ToRead(false), size))
      ensures r.Overtaken? <==> pinned.Some? && pinned.value != generation
      ensures r.Stale? <==> !r.Overtaken? && !restart && old(Outdated())
      ensures r.NoBatch? <==> !r.Overtaken? && !r.Stale? && generation == 0 && !old(Complete())
      ensures !r.Ready? && !r.Paged? ==> entries == old(entries) && summaries == old(summaries) && coverage == old(coverage)
    {
      hide Entered, Fresh, TakesFirst, Past;
      if pinned.Some? && pinned.value != generation {
        return Overtaken;
      }
      if Complete() {
        return Ready(generation);
      }
      if coverage.Some? && coverage.value.cursor.Some? && coverage.value.generation != generation && !restart {
        return Stale;
      }
      if generation == 0 {
        return NoBatch;
      }
      var cursor := if coverage.Some? && coverage.value.generation == generation && !restart then coverage.value.cursor else None;
      r := ReadPage(cursor, size);
    }

    /** Enter the next masters after the cursor, and the coverage they bring. */
    method ReadPage(cursor: Option<Id>, size: nat) returns (r: Pass)
      requires Valid() && size > 0 && generation > 0
      requires cursor.Some? ==> forall id :: id in masters && id <= cursor.value ==> Fresh(spec, masters, summaries, id)
      modifies this`entries, this`summaries, this`coverage
      ensures Valid()
      ensures coverage.Some? && coverage.value.generation == generation
      ensures r == if coverage.value.ready then Ready(generation) else Paged(generation, size)
      ensures coverage.value.ready <==> |Past(masters, cursor)| <= size
      ensures !coverage.value.ready ==> TakesFirst(Past(masters, cursor), Past(masters, coverage.value.cursor), size)
    {
      hide Entered, KeyPages.PageAfter, Resummarized, Fresh, Past, KeysOf;
      var page := KeyPages.KeysAfter(masters.Keys, cursor, size + 1);
      var more := |page| > size;
      var taken := if more then page[..size] else page;
      TakenStored(masters, cursor, size, page, taken);
      PageCovers(spec, masters, summaries, cursor, page, size, taken);
      PageLeaves(masters, cursor, size, page, taken);
      if more {
        TakenFirst(masters, cursor, size, taken);
      }
      Enter(map id | id in taken :: masters[id]);
      coverage := Some(Coverage(generation, !more, if more then Some(taken[size - 1]) else None));
      r := if more then Paged(generation, size) else Ready(generation);
    }

    ghost function Now(): Told
      reads this
    {
      Told(generation, masters, Complete())
    }

    /** What other writers commit between two pages. */
    method Commit(events: seq<Event>)
      requires Valid()
      modifies this
      ensures Valid() && generation >= old(generation)
      ensures Now() == After(old(Now()), events)
      ensures generation == old(generation) ==> coverage == old(coverage) && masters == old(masters)
      ensures events == [] ==> generation == old(generation)
    {
      for i := 0 to |events|
        invariant Valid() && generation >= old(generation) && (i == 0 ==> generation == old(generation))
        invariant Now() == After(old(Now()), events[..i])
        invariant generation == old(generation) ==> coverage == old(coverage) && masters == old(masters)
      {
        assert events[..i + 1][..i] == events[..i];
        match events[i] {
          case Batch(objects) => CommitBatch(objects);
          case Forced => var _ := ForcedPage();
        }
      }
      assert events[..|events|] == events;
    }

    /** `rebuild`: pages until the index is ready, the limit is reached or another writer overtakes it.
        `meanwhile` gives what others commit after each page. It never reports ready unless it is. */
    method Rebuild(limit: Option<nat>, size: nat, restart: bool, meanwhile: nat -> seq<Event>) returns (r: Pass)
      requires Valid() && size > 0 && (limit.Some? ==> limit.value > 0)
      modifies this
      ensures Valid() && generation >= old(generation)
      ensures r.Ready? ==> Complete() && generation == r.generation == old(generation)
      ensures r.Stale? <==> !restart && old(Outdated())
      ensures r.NoBatch? <==> !r.Stale? && old(generation) == 0 && !old(Complete())
      ensures r.Overtaken? ==> generation > old(generation)
      ensures generation == old(generation) ==> masters == old(masters)
      ensures generation != old(generation) ==> exists n: nat :: Wrote(old(Now()), meanwhile(n), Now())
      ensures (forall n: nat :: meanwhile(n) == []) ==> generation == old(generation)
      ensures r.Paged? ==> limit.Some? && r.read == limit.value
      ensures r.Ready? || r.Paged? ==>
                generation == old(generation)
                && (r.Ready? <==> limit.None? || |old(ToRead(restart))| <= limit.value)
                && (r.Paged? ==> !Complete() && !Outdated() && TakesFirst(old(ToRead(restart)), ToRead(false), limit.value))
    {
      hide TakesFirst, Past, Covered, Entered;
      var processed, pages, again := 0, 0, restart;
      var pinned: Option<nat> := None;
      while true
        invariant Valid() && generation >= old(generation) && processed >= 0
        invariant pinned.Some? ==> pinned.value == old(generation) > 0 && !again
        invariant pinned.Some? ==> !(!restart && old(Outdated())) && !old(Complete())
        invariant pinned.Some? && generation == old(generation) ==>
                    coverage.Some? && coverage.value.generation == generation && !Complete()
        invariant pinned.None? ==> generation == old(generation) && again == restart && coverage == old(coverage) && processed == 0
        invariant generation == old(generation) ==> masters == old(masters)
        invariant (forall n: nat :: meanwhile(n) == []) ==> generation == old(generation)
        invariant generation != old(generation) ==> exists n: nat :: Wrote(old(Now()), meanwhile(n), Now())
        invariant pages >= 0
        invariant pinned.Some? && generation == old(generation) ==> TakesFirst(old(ToRead(restart)), ToRead(false), processed)
        invariant limit.Some? ==> processed < limit.value
        decreases pinned.None?, generation == old(generation), |ToRead(false)|
      {
        var take := if limit.Some? && limit.value - processed < size then limit.value - processed else size;
        ghost var before := ToRead(again);
        var pass := RebuildPage(pinned, again, take);
        if !pass.Paged? {
          if pinned.Some? && pass.Ready? {
            TakenCount(old(ToRead(restart)), before, processed);
          }
          return pass;
        }
        TakenCount(before, ToRead(false), take);
        if pinned.Some? {
          TakesOn(old(ToRead(restart)), before, ToRead(false), processed, take);
        }
        pinned, again := Some(generation), false;
        processed := processed + take;
        if limit.Some? && processed >= limit.value {
          return Paged(generation, processed);
        }
        ghost var here := Now();
        Commit(meanwhile(pages));
        SameWrites(old(Now()), here, meanwhile(pages));
        assert Wrote(old(Now()), meanwhile(pages), Now());
        pages := pages + 1;
      }
    }

    /** `find`: every current master whose details hold the key, once each and in the order of their text, with
        none of the refusals its checks could raise. */
    method Find(key: Key) returns (r: Result<seq<Id>, FindError>)
      requires Valid()
      ensures !Complete() <==> r == Err(Incomplete)
      ensures Complete() ==> r.Ok? && (forall id :: id in r.value <==> id in Scan(spec, masters, key))
                             && forall i, j :: 0 <= i < j < |r.value| ==>
                                  r.value[i] != r.value[j] && spec.textOrder(r.value[i]) <= spec.textOrder(r.value[j])
    {
      if !Complete() {
        return Err(Incomplete);
      }
      var found := set e | e in entries && e.0 == key :: e.1;
      var answer: seq<Id> := [];
      ghost var all := found;
      forall id: Id
        ensures id in found <==> id in Scan(spec, masters, key)
      {
        if id in found {
          assert (key, id) in entries;
        }
        if id in Scan(spec, masters, key) {
          assert Fresh(spec, masters, summaries, id);
          assert (key, id) in entries;
        }
      }
      while found != {}
        invariant found <= all
        invariant forall id :: id in all <==> id in answer || id in found
        invariant forall i, j :: 0 <= i < j < |answer| ==>
                    answer[i] != answer[j] && spec.textOrder(answer[i]) <= spec.textOrder(answer[j])
        invariant forall i, id :: 0 <= i < |answer| && id in found ==>
                    answer[i] != id && spec.textOrder(answer[i]) <= spec.textOrder(id)
      {
        var id := FirstInText(found);
        found := found - {id};
        if id !in masters {
          return Err(NoCurrentMaster);
        }
        if masters[id].canonical != id || masters[id].retired || key !in spec.keysOf(masters[id]) {
          return Err(DiffersFromMaster);
        }
        answer := answer + [id];
      }
      r := Ok(answer);
    }

    method FirstInText(ids: set<Id>) returns (first: Id)
      requires ids != {}
      ensures first in ids && forall id :: id in ids ==> spec.textOrder(first) <= spec.textOrder(id)
    {
      first :| first in ids;
      var rest := ids - {first};
      while rest != {}
        invariant rest <= ids && first in ids
        invariant forall id :: id in ids && id !in rest ==> spec.textOrder(first) <= spec.textOrder(id)
      {
        var id :| id in rest;
        rest := rest - {id};
        first := if spec.textOrder(id) < spec.textOrder(first) then id else first;
      }
    }
  }

  lemma BatchKeepsFresh(spec: Spec, masters: map<Id, Body>, summaries: map<Id, set<Key>>, objects: map<Id, Body>)
    requires forall id :: id in masters ==> Fresh(spec, masters, summaries, id)
    requires summaries.Keys <= masters.Keys
    ensures
      var after := Resummarized(spec, summaries, objects);
      after.Keys <= (masters + objects).Keys
      && forall id :: id in masters + objects ==> Fresh(spec, masters + objects, after, id)
  {
  }

  /** Bounded calls one after another, with no commit between: each goes on where the last one stopped, so as many as
      hold the masters left end with a complete index, and fewer do not. */
  method RebuildByLimit(store: IndexStore, limit: nat, size: nat, calls: nat) returns (ready: bool)
    requires store.Valid() && limit > 0 && size > 0 && store.generation > 0 && !store.Outdated()
    modifies store
    ensures store.Valid() && store.generation == old(store.generation) && store.masters == old(store.masters)
    ensures ready == store.Complete()
    ensures ready <==> old(store.Complete()) || (calls > 0 && |old(store.ToRead(false))| <= calls * limit)
  {
    hide TakesFirst, Past;
    ready := store.Complete();
    for i := 0 to calls
      invariant store.Valid() && store.generation == old(store.generation) && store.masters == old(store.masters)
      invariant ready == store.Complete()
      invariant ready ==> old(store.Complete()) || (calls > 0 && |old(store.ToRead(false))| <= calls * limit)
      invariant !ready ==> !old(store.Complete()) && !store.Outdated()
                           && |old(store.ToRead(false))| == |store.ToRead(false)| + i * limit
      invariant !ready && i > 0 ==> |store.ToRead(false)| > 0
    {
      if ready {
        return;
      }
      ghost var before := store.ToRead(false);
      var r := store.Rebuild(Some(limit), size, false, (page: nat) => []);
      CallsAdd(i, calls, limit);
      if r.Paged? {
        TakenCount(before, store.ToRead(false), limit);
      }
      ready := r.Ready?;
    }
  }

  lemma CallsAdd(i: nat, calls: nat, limit: nat)
    requires i < calls
    ensures (i + 1) * limit == i * limit + limit <= calls * limit
  {
    var left := calls - i - 1;
    assert calls * limit == (i + 1) * limit + left * limit;
  }

  /** One call of any kind on the store. */
  datatype Step = Writes(events: seq<Event>) | Owner(limit: Option<nat>, size: nat, restart: bool, meanwhile: nat -> seq<Event>)

  /** A step's commits are stored; an owner pass stores none but what others commit during it, and one from the start
      that nobody disturbs completes the index. */
  ghost predicate Taken(t: Told, s: Step, u: Told) {
    match s
    case Writes(events) => u == After(t, events)
    case Owner(limit, size, restart, meanwhile) =>
      && ((u.generation == t.generation && u.masters == t.masters) || exists n: nat :: Wrote(t, meanwhile(n), u))
      && ((forall n: nat :: meanwhile(n) == []) ==> u.generation == t.generation && u.masters == t.masters)
      && (limit.None? && restart && (forall n: nat :: meanwhile(n) == []) && t.generation > 0 ==> u.complete)
  }

  ghost predicate TakenAt(trace: seq<Told>, steps: seq<Step>, i: nat)
    requires |trace| == |steps| + 1 && i < |steps|
  {
    Taken(trace[i], steps[i], trace[i + 1])
  }

  /** Over any interleaving of batches, forced pages and owner passes, stopped, resumed or restarted, a key's
      lookup either refuses or answers as a scan of every master. */
  method RunThenFind(store: IndexStore, steps: seq<Step>, key: Key) returns (r: Result<seq<Id>, FindError>, ghost trace: seq<Told>)
    requires store.Valid()
    requires forall s :: s in steps && s.Owner? ==> s.size > 0 && (s.limit.Some? ==> s.limit.value > 0)
    modifies store
    ensures store.Valid() && |trace| == |steps| + 1 && trace[0] == old(store.Now()) && trace[|steps|] == store.Now()
    ensures forall i: nat :: i < |steps| ==> TakenAt(trace, steps, i)
    ensures r.Ok? || r == Err(Incomplete)
    ensures r.Ok? <==> store.Complete()
    ensures r.Ok? ==> forall id :: id in r.value <==> id in Scan(store.spec, store.masters, key)
  {
    hide After;
    trace := [store.Now()];
    for i := 0 to |steps|
      invariant store.Valid() && |trace| == i + 1 && trace[0] == old(store.Now()) && trace[i] == store.Now()
      invariant forall j: nat :: j < i ==> TakenAt(trace, steps[..i], j)
    {
      ghost var was := trace;
      match steps[i] {
        case Writes(events) => store.Commit(events);
        case Owner(limit, size, restart, meanwhile) => var _ := store.Rebuild(limit, size, restart, meanwhile);
      }
      trace := trace + [store.Now()];
      ghost var next := i + 1;
      assert Taken(was[i], steps[i], store.Now());
      forall j: nat | j < next ensures TakenAt(trace, steps[..next], j) {
        if j < i {
          assert TakenAt(was, steps[..i], j);
        }
      }
    }
    assert steps[..|steps|] == steps;
    r := store.Find(key);
  }
}
