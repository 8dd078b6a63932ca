/** The mastering tables, one file's merge into them, and what readers resolve. */
module Mastering {
  import opened Prelude
  import opened Consolidation
  import opened NameMatching

  type Assertion = nat
  type FileKey = nat

  // An identifier's namespace and value.
  datatype Key = Key(namespace: nat, value: nat)
  const LEI := 0

  // A master's stored text: the master it answers as, and the rest of its body.
  datatype Body = Body(canonical: Id, text: int)
  const ALIAS := 0

  datatype Master = Master(body: Body, changedFile: nat, created: nat)

  datatype Record = Record(subject: Subject, entity: Option<Id>, bound: Option<Id>, text: int)

  datatype Staged = Staged(subject: Subject, text: int)

  datatype Tables = Tables(
    masters: map<Id, Master>,
    records: map<Assertion, Record>,
    identifiers: set<(Key, Id)>,
    files: set<FileKey>)

  function Created(masters: map<Id, Master>): map<Id, nat> {
    map e | e in masters :: masters[e].created
  }

  predicate IsAlias(masters: map<Id, Master>, e: Id) {
    e in masters && masters[e].body.canonical != e
  }

  predicate IsCurrent(masters: map<Id, Master>, e: Id) {
    e in masters && masters[e].body.canonical == e
  }

  /** Every alias answers as a stored, older master, so no chain of aliases closes. */
  ghost predicate AliasesAscend(masters: map<Id, Master>) {
    forall a :: IsAlias(masters, a) ==>
      masters[a].body.canonical in masters && Before(Created(masters), masters[a].body.canonical, a)
  }

  ghost predicate OneMasterEach(records: map<Assertion, Record>) {
    forall a, b :: a in records && b in records && records[a].subject == records[b].subject ==>
      records[a].entity == records[b].entity
  }

  /** What every merged file keeps. */
  ghost predicate Sound(t: Tables) {
    && AliasesAscend(t.masters)
    && OneMasterEach(t.records)
    && (forall a :: a in t.records && t.records[a].entity.Some? ==> IsCurrent(t.masters, t.records[a].entity.value))
    && (forall i :: i in t.identifiers ==> IsCurrent(t.masters, i.1))
  }

  // --- Reading a master by any id it ever had ---------------------------------------------

  ghost function Older(masters: map<Id, Master>, e: Id): set<Id> {
    set k | k in masters && Before(Created(masters), k, e)
  }

  lemma AliasStepsBack(masters: map<Id, Master>, a: Id)
    requires AliasesAscend(masters) && IsAlias(masters, a)
    ensures Older(masters, masters[a].body.canonical) < Older(masters, a)
  {
    var c := masters[a].body.canonical;
    assert c in Older(masters, a) && c !in Older(masters, c);
  }

  /** The current master an id answers as. */
  ghost function Resolve(masters: map<Id, Master>, e: Id): (r: Id)
    requires AliasesAscend(masters) && e in masters
    ensures IsCurrent(masters, r)
    ensures r == e || Before(Created(masters), r, e)
    decreases Older(masters, e)
  {
    if IsAlias(masters, e) then
      AliasStepsBack(masters, e);
      Resolve(masters, masters[e].body.canonical)
    else e
  }

  /** A later state of the store: no master is lost, none is created again, no alias changes. */
  ghost predicate Follows(before: map<Id, Master>, after: map<Id, Master>) {
    && before.Keys <= after.Keys
    && (forall e :: e in before ==> after[e].created == before[e].created)
    && (forall e :: IsAlias(before, e) ==> after[e].body == before[e].body)
  }

  lemma FollowsSelf(a: map<Id, Master>)
    ensures Follows(a, a)
  {
  }

  lemma FollowsKeeps(a: map<Id, Master>, b: map<Id, Master>)
    requires Follows(a, b)
    ensures a.Keys <= b.Keys
  {
  }

  lemma FollowsTransitive(a: map<Id, Master>, b: map<Id, Master>, c: map<Id, Master>)
    requires Follows(a, b) && Follows(b, c)
    ensures Follows(a, c)
  {
  }

  /** What an id answered as answers, later, as whatever the id answers as. */
  lemma {:induction false} ResolveFollows(before: map<Id, Master>, after: map<Id, Master>, e: Id)
    requires AliasesAscend(before) && AliasesAscend(after) && Follows(before, after) && e in before
    ensures Resolve(after, e) == Resolve(after, Resolve(before, e))
    decreases Older(before, e)
  {
    if IsAlias(before, e) {
      AliasStepsBack(before, e);
      ResolveFollows(before, after, before[e].body.canonical);
      assert IsAlias(after, e);
    }
  }

  datatype ReadError = UnknownMaster | PointEachOther

  /** `reads.master`: walk the aliases of an id, refusing a cycle. On a sound store it always ends on the
      master the id answers as, and no cycle is ever found. */
  method ReadMaster(masters: map<Id, Master>, requested: Id) returns (r: Result<Body, ReadError>)
    requires AliasesAscend(masters)
    ensures requested !in masters <==> r == Err(UnknownMaster)
    ensures requested in masters ==> r == Ok(masters[Resolve(masters, requested)].body)
  {
    var key: Id, seen: set<Id> := requested, {};
    while key !in seen
      invariant requested !in masters ==> key == requested && seen == {}
      invariant requested in masters ==> key in masters && Resolve(masters, key) == Resolve(masters, requested)
      invariant forall k :: k in seen ==> k in masters && Before(Created(masters), key, k)
      decreases masters.Keys - seen
    {
      seen := seen + {key};
      if key !in masters {
        return Err(UnknownMaster);
      }
      if masters[key].body.canonical == key {
        return Ok(masters[key].body);
      }
      key := masters[key].body.canonical;
    }
    assert false;
  }

  // --- What each statement does to the tables --------------------------------------------

  /** `write_masters`: a changed body takes the file's number; an equal one keeps its own. */
  function Upserted(masters: map<Id, Master>, rows: map<Id, Body>, fileNo: nat, now: nat): map<Id, Master> {
    map e | e in masters.Keys + rows.Keys ::
      if e !in rows then masters[e]
      else if e !in masters then Master(rows[e], fileNo, now)
      else if masters[e].body == rows[e] then masters[e]
      else Master(rows[e], fileNo, masters[e].created)
  }

  function MovedRecord(r: Record, keep: Id, gone: Id): Record {
    if r.entity == Some(gone) then r.(entity := Some(keep)) else r
  }

  /** Two masters as one: the rows of the one that gave way on the other, and it an alias if it is stored. */
  function MergedTwo(t: Tables, keep: Id, gone: Id, fileNo: nat): Tables {
    Tables(Aliased(t.masters, map[gone := keep], fileNo), map a | a in t.records :: MovedRecord(t.records[a], keep, gone),
           set i | i in t.identifiers :: if i.1 == gone then (i.0, keep) else i, t.files)
  }

  /** The rows once every master has given way to the one standing for it. */
  function Rehomed(records: map<Assertion, Record>, rep: Id -> Id): map<Assertion, Record> {
    map a | a in records ::
      if records[a].entity.Some? then records[a].(entity := Some(rep(records[a].entity.value))) else records[a]
  }

  function RehomedIdentifiers(identifiers: set<(Key, Id)>, rep: Id -> Id): set<(Key, Id)> {
    set i | i in identifiers :: (i.0, rep(i.1))
  }

  /** A bound subject's records, old and new, take its master; each keeps the master it was first bound to. */
  function SavedRecord(r: Record, held: map<Subject, Id>): Record {
    if r.subject in held && r.entity != Some(held[r.subject]) then
      r.(entity := Some(held[r.subject]),
         bound := if r.bound.None? then Some(held[r.subject]) else r.bound)
    else r
  }

  function Saved(records: map<Assertion, Record>, staged: map<Assertion, Staged>, held: map<Subject, Id>): map<Assertion, Record> {
    map a | a in records.Keys + staged.Keys ::
      SavedRecord(if a in records then records[a] else Record(staged[a].subject, None, None, staged[a].text), held)
  }

  function Members(records: map<Assertion, Record>, e: Id): map<Assertion, Record> {
    map a | a in records && records[a].entity == Some(e) :: records[a]
  }

  // --- The engine the merge calls ---------------------------------------------------------

  /** What the planner answers: the merges its records call for, in order, and the masters they bind to. */
  datatype Answer = Answer(merges: seq<Decision>, binds: seq<(Subject, Id)>)

  /** A planner names only masters an identifier row or a record holds, or ids not stored yet. */
  ghost predicate Named(t: Tables, e: Id) {
    || (exists k :: (k, e) in t.identifiers)
    || (exists a :: a in t.records && t.records[a].entity == Some(e))
    || e !in t.masters
  }

  ghost predicate Legal(t: Tables, a: Answer) {
    && (forall d :: d in a.merges ==> Named(t, d.0) && Named(t, d.1))
    && (forall b :: b in a.binds ==> Named(t, b.1))
  }

  datatype Composed = Composed(text: int, identifiers: set<Key>)

  /** An exact-name rule and the records under the file's name ids: (name id, subject, source). */
  datatype ExactQuery = ExactQuery(rule: ExactRule, names: seq<(nat, Subject, nat)>)

  /** The pure steps a merge asks for: the planner, the name pairs and their tests, the exact-name rules with
      their members, and the master its member records make. */
  datatype Engine = Engine(
    plan: (Tables, map<Assertion, Staged>) -> Answer,
    rules: (Tables, map<Assertion, Staged>) -> seq<NameRule>,
    exact: (Tables, map<Assertion, Staged>) -> seq<ExactQuery>,
    compose: (Id, map<Assertion, Record>) -> Composed)

  // --- The decision loop ------------------------------------------------------------------

  /** What the loop's `moved` map holds: every master that gave way, to an older member of its class. */
  ghost predicate Tracks(moved: map<Id, Id>, rep: Id -> Id, created: map<Id, nat>) {
    && (forall x: Id :: x in moved <==> rep(x) != x)
    && (forall x :: x in moved ==> rep(moved[x]) == rep(x) && Before(created, moved[x], x))
  }

  ghost function Elders(moved: map<Id, Id>, created: map<Id, nat>, x: Id): set<Id> {
    set k | k in moved && (k == x || Before(created, k, x))
  }

  /** The loop's `live`: the walk through `moved` ends on the master standing for the class. */
  method Live(moved: map<Id, Id>, entity: Id, ghost rep: Id -> Id, ghost created: map<Id, nat>) returns (r: Id)
    requires Tracks(moved, rep, created)
    ensures r == rep(entity)
  {
    r := entity;
    while r in moved
      invariant rep(r) == rep(entity)
      decreases Elders(moved, created, r)
    {
      assert r in Elders(moved, created, r) && r !in Elders(moved, created, moved[r]);
      r := moved[r];
    }
  }

  /** How one decision changes the masters that stand: the younger side's class joins the elder's. */
  ghost predicate Moves(rep: Id -> Id, next: Id -> Id, created: map<Id, nat>, keep: Id, gone: Id) {
    && (forall x: Id :: next(x) == if rep(x) == gone then keep else rep(x))
    && rep(gone) == gone && rep(keep) == keep
    && Before(created, keep, gone)
  }

  /** The same before it is known which side stands: both sides' classes take the elder. */
  ghost predicate Takes(rep: Id -> Id, next: Id -> Id, created: map<Id, nat>, d: Decision) {
    && rep(rep(d.0)) == rep(d.0) && rep(rep(d.1)) == rep(d.1)
    && forall x: Id :: next(x) == if rep(x) == rep(d.0) || rep(x) == rep(d.1) then Elder(created, rep(d.0), rep(d.1)) else rep(x)
  }

  lemma DecisionTakes(ds: seq<Decision>, d: Decision, created: map<Id, nat>)
    ensures Takes(Survivors(ds, created), Survivors(ds + [d], created), created, d)
  {
    SurvivorStable(ds, created, d.0);
    SurvivorStable(ds, created, d.1);
    forall x: Id
      ensures Survivor(ds + [d], created, x) ==
              if Survivor(ds, created, x) == Survivor(ds, created, d.0) || Survivor(ds, created, x) == Survivor(ds, created, d.1)
              then Elder(created, Survivor(ds, created, d.0), Survivor(ds, created, d.1)) else Survivor(ds, created, x)
    {
      SurvivorStep(ds, d, created, x);
    }
  }

  lemma TracksStep(moved: map<Id, Id>, rep: Id -> Id, next: Id -> Id, created: map<Id, nat>, keep: Id, gone: Id)
    requires Tracks(moved, rep, created) && Moves(rep, next, created, keep, gone)
    ensures gone !in moved && keep != gone && Tracks(moved[gone := keep], next, created)
  {
  }

  lemma RehomeStep(records: map<Assertion, Record>, identifiers: set<(Key, Id)>, rep: Id -> Id, next: Id -> Id,
                   created: map<Id, nat>, keep: Id, gone: Id)
    requires Moves(rep, next, created, keep, gone)
    ensures Rehomed(records, next) == map a | a in records :: MovedRecord(Rehomed(records, rep)[a], keep, gone)
    ensures RehomedIdentifiers(identifiers, next) ==
            set i | i in RehomedIdentifiers(identifiers, rep) :: if i.1 == gone then (i.0, keep) else i
  {
    var now := RehomedIdentifiers(identifiers, rep);
    var after := set i | i in now :: if i.1 == gone then (i.0, keep) else i;
    forall i | i in identifiers
      ensures (i.0, next(i.1)) in after
    {
      var j := (i.0, rep(i.1));
      assert j in now;
      assert (if j.1 == gone then (j.0, keep) else j) in after;
    }
  }

  lemma SurvivorsStep(moved: map<Id, Id>, rep: Id -> Id, next: Id -> Id, created: map<Id, nat>, keep: Id, gone: Id)
    requires Tracks(moved, rep, created) && Moves(rep, next, created, keep, gone) && gone !in moved && keep != gone
    ensures (set x | x in moved[gone := keep] :: next(x)) == (set x | x in moved :: rep(x)) - {gone} + {keep}
  {
    var before := set x | x in moved :: rep(x);
    var after := set x | x in moved[gone := keep] :: next(x);
    assert gone in moved[gone := keep] && next(gone) == keep;
    forall y | y in before && y != gone
      ensures y in after
    {
      var x :| x in moved && y == rep(x);
      assert x in moved[gone := keep] && next(x) == y;
    }
    forall y | y in after
      ensures y in before - {gone} + {keep}
    {
      var x :| x in moved[gone := keep] && y == next(x);
      if x != gone {
        assert rep(x) in before;
      }
    }
  }

  /** The masters once those that gave way have been written as aliases. */
  function Aliased(masters: map<Id, Master>, moved: map<Id, Id>, fileNo: nat): map<Id, Master> {
    map e | e in masters ::
      if e in moved then Master(Body(moved[e], ALIAS), fileNo, masters[e].created) else masters[e]
  }

  /** The tables and the loop's variables after some decisions, against the tables before them. */
  ghost predicate Applied(was: Tables, now: Tables, rep: Id -> Id, fileNo: nat, moved: map<Id, Id>, survivors: set<Id>) {
    && Tracks(moved, rep, Created(was.masters))
    && survivors == (set x | x in moved :: rep(x))
    && now == Tables(Aliased(was.masters, moved, fileNo), Rehomed(was.records, rep),
                     RehomedIdentifiers(was.identifiers, rep), was.files)
  }

  lemma AppliedNothing(was: Tables, rep: Id -> Id, fileNo: nat)
    requires forall x: Id :: rep(x) == x
    ensures Applied(was, was, rep, fileNo, map[], {})
  {
    assert Rehomed(was.records, rep) == was.records;
    assert forall i :: i in was.identifiers ==> (i.0, rep(i.1)) == i;
    assert RehomedIdentifiers(was.identifiers, rep) == was.identifiers;
  }

  lemma AppliedStep(was: Tables, now: Tables, after: Tables, rep: Id -> Id, next: Id -> Id, fileNo: nat,
                    moved: map<Id, Id>, survivors: set<Id>, keep: Id, gone: Id)
    requires Applied(was, now, rep, fileNo, moved, survivors)
    requires Moves(rep, next, Created(was.masters), keep, gone)
    requires after.records == map a | a in now.records :: MovedRecord(now.records[a], keep, gone)
    requires after.identifiers == set i | i in now.identifiers :: if i.1 == gone then (i.0, keep) else i
    requires after.masters == Aliased(now.masters, map[gone := keep], fileNo)
    requires after.files == now.files
    ensures gone !in moved
    ensures Applied(was, after, next, fileNo, moved[gone := keep], survivors - {gone} + {keep})
  {
    var created := Created(was.masters);
    TracksStep(moved, rep, next, created, keep, gone);
    RehomeStep(was.records, was.identifiers, rep, next, created, keep, gone);
    SurvivorsStep(moved, rep, next, created, keep, gone);
    assert after.masters == Aliased(was.masters, moved[gone := keep], fileNo);
  }

  lemma TakesMoves(rep: Id -> Id, next: Id -> Id, created: map<Id, nat>, d: Decision, keep: Id, gone: Id)
    requires Takes(rep, next, created, d) && rep(d.0) != rep(d.1)
    requires keep == Elder(created, rep(d.0), rep(d.1)) && gone == if keep == rep(d.0) then rep(d.1) else rep(d.0)
    ensures Moves(rep, next, created, keep, gone)
  {
  }

  lemma AppliedReads(was: Tables, now: Tables, rep: Id -> Id, next: Id -> Id, fileNo: nat, moved: map<Id, Id>,
                     survivors: set<Id>, d: Decision)
    requires Applied(was, now, rep, fileNo, moved, survivors) && Takes(rep, next, Created(was.masters), d)
    requires !IsAlias(was.masters, rep(d.0)) && !IsAlias(was.masters, rep(d.1))
    ensures Tracks(moved, rep, Created(was.masters)) && Created(now.masters) == Created(was.masters)
    ensures !IsAlias(now.masters, rep(d.0)) && !IsAlias(now.masters, rep(d.1))
    ensures rep(d.0) == rep(d.1) ==> forall x: Id :: next(x) == rep(x)
  {
  }

  lemma AppliedAgain(was: Tables, now: Tables, rep: Id -> Id, next: Id -> Id, fileNo: nat, moved: map<Id, Id>, survivors: set<Id>)
    requires Applied(was, now, rep, fileNo, moved, survivors)
    requires forall x: Id :: next(x) == rep(x)
    ensures Applied(was, now, next, fileNo, moved, survivors)
  {
    assert Rehomed(was.records, next) == Rehomed(was.records, rep);
    assert RehomedIdentifiers(was.identifiers, next) == RehomedIdentifiers(was.identifiers, rep);
    assert (set x | x in moved :: next(x)) == (set x | x in moved :: rep(x));
  }

  // --- What a whole file leaves -----------------------------------------------------------

  /** The current masters the file writes: those its records are on, and the survivors of its merges. */
  function Touched(held: map<Subject, Id>, survivors: set<Id>): set<Id> {
    held.Values + survivors
  }

  function Bodies(touched: set<Id>, records: map<Assertion, Record>, compose: (Id, map<Assertion, Record>) -> Composed): map<Id, Body> {
    map e | e in touched :: Body(e, compose(e, Members(records, e)).text)
  }

  function ComposedIdentifiers(touched: set<Id>, records: map<Assertion, Record>,
                               compose: (Id, map<Assertion, Record>) -> Composed): set<(Key, Id)> {
    set e, k | e in touched && k in compose(e, Members(records, e)).identifiers :: (k, e)
  }

  /** The tables after a file: its rows on their classes' survivors, its records saved, and every master it
      touched composed again from its members. */
  ghost function Finished(was: Tables, rep: Id -> Id, moved: map<Id, Id>, survivors: set<Id>, staged: map<Assertion, Staged>,
                          held: map<Subject, Id>, leis: set<(Key, Id)>, engine: Engine, fileNo: nat, now: nat, key: FileKey): Tables {
    var touched := Touched(held, survivors);
    var records := Saved(Rehomed(was.records, rep), staged, held);
    Tables(Upserted(Aliased(was.masters, moved, fileNo), Bodies(touched, records, engine.compose), fileNo, now),
           records,
           RehomedIdentifiers(was.identifiers, rep) + leis + ComposedIdentifiers(touched, records, engine.compose),
           was.files + {key})
  }

  /** What the steps before the writes establish about the masters the file names. */
  ghost predicate Prepared(was: Tables, ds: seq<Decision>, moved: map<Id, Id>, survivors: set<Id>,
                           held: map<Subject, Id>, leis: set<(Key, Id)>) {
    var rep := Survivors(ds, Created(was.masters));
    && Tracks(moved, rep, Created(was.masters))
    && survivors == (set x | x in moved :: rep(x))
    && (forall e :: e in Ends(ds) ==> !IsAlias(was.masters, e))
    && (forall s :: s in held ==> rep(held[s]) == held[s] && !IsAlias(was.masters, held[s]))
    && (forall i :: i in leis ==> i.1 in held.Values)
  }

  /** A current master gives way to a current master; one no decision names, alias or not, stays. */
  lemma StandsFor(masters: map<Id, Master>, ds: seq<Decision>, e: Id)
    requires forall x :: x in Ends(ds) ==> !IsAlias(masters, x)
    ensures IsCurrent(masters, e) ==> IsCurrent(masters, Survivor(ds, Created(masters), e))
    ensures IsAlias(masters, e) ==> Survivor(ds, Created(masters), e) == e
    ensures !IsAlias(masters, e) ==> !IsAlias(masters, Survivor(ds, Created(masters), e))
  {
    SurvivorNamed(ds, Created(masters), e);
    SurvivorNotYounger(ds, Created(masters), e);
    if IsAlias(masters, e) {
      SurvivorOutside(ds, Created(masters), e);
    }
  }

  lemma TouchedStand(was: Tables, ds: seq<Decision>, moved: map<Id, Id>, survivors: set<Id>,
                     held: map<Subject, Id>, leis: set<(Key, Id)>, e: Id)
    requires Prepared(was, ds, moved, survivors, held, leis) && e in Touched(held, survivors)
    ensures Survivor(ds, Created(was.masters), e) == e && !IsAlias(was.masters, e)
  {
    if e in survivors {
      var x :| x in moved && Survivor(ds, Created(was.masters), x) == e;
      SurvivorStable(ds, Created(was.masters), x);
      StandsFor(was.masters, ds, x);
    }
  }

  /** Writing the aliases and then current bodies: what each stored id becomes. */
  lemma WrittenMasters(masters: map<Id, Master>, rep: Id -> Id, moved: map<Id, Id>, rows: map<Id, Body>, fileNo: nat, now: nat)
    requires AliasesAscend(masters) && Tracks(moved, rep, Created(masters))
    requires forall e :: IsAlias(masters, e) ==> rep(e) == e
    requires forall e :: e in rows ==> rep(e) == e && !IsAlias(masters, e) && rows[e].canonical == e
    ensures Written(masters, moved, rows.Keys, Upserted(Aliased(masters, moved, fileNo), rows, fileNo, now))
  {
    var after := Upserted(Aliased(masters, moved, fileNo), rows, fileNo, now);
    WrittenAscend(masters, rep, moved, rows, fileNo, now);
    hide AliasesAscend, Created;
    assert Follows(masters, after);
  }

  lemma WrittenAscend(masters: map<Id, Master>, rep: Id -> Id, moved: map<Id, Id>, rows: map<Id, Body>, fileNo: nat, now: nat)
    requires AliasesAscend(masters) && Tracks(moved, rep, Created(masters))
    requires forall e :: e in rows ==> rep(e) == e && !IsAlias(masters, e) && rows[e].canonical == e
    ensures AliasesAscend(Upserted(Aliased(masters, moved, fileNo), rows, fileNo, now))
    ensures forall e :: e in masters && e in moved ==> moved[e] in masters
  {
    var after := Upserted(Aliased(masters, moved, fileNo), rows, fileNo, now);
    forall a | IsAlias(after, a)
      ensures after[a].body.canonical in after && Before(Created(after), after[a].body.canonical, a)
    {
      assert a in masters && a !in rows;
      if a in moved {
        assert Before(Created(masters), moved[a], a);
      } else {
        assert IsAlias(masters, a);
      }
    }
  }

  ghost predicate Written(masters: map<Id, Master>, moved: map<Id, Id>, touched: set<Id>, after: map<Id, Master>) {
    && Follows(masters, after) && AliasesAscend(after)
    && (forall e :: e in masters && e in moved ==> after[e].body == Body(moved[e], ALIAS) && moved[e] in masters)
    && (forall e :: IsCurrent(masters, e) && e !in moved ==> IsCurrent(after, e))
    && (forall e :: e in touched ==> IsCurrent(after, e))
  }

  lemma FinishedMasters(was: Tables, ds: seq<Decision>, moved: map<Id, Id>, survivors: set<Id>, staged: map<Assertion, Staged>,
                        held: map<Subject, Id>, leis: set<(Key, Id)>, engine: Engine, fileNo: nat, now: nat, key: FileKey)
    requires AliasesAscend(was.masters) && Prepared(was, ds, moved, survivors, held, leis)
    ensures
      var rep := Survivors(ds, Created(was.masters));
      var after := Finished(was, rep, moved, survivors, staged, held, leis, engine, fileNo, now, key).masters;
      Written(was.masters, moved, Touched(held, survivors), after)
  {
    hide Written;
    var rep := Survivors(ds, Created(was.masters));
    forall e | e in Touched(held, survivors)
      ensures rep(e) == e && !IsAlias(was.masters, e)
    {
      TouchedStand(was, ds, moved, survivors, held, leis, e);
    }
    forall e | IsAlias(was.masters, e)
      ensures rep(e) == e
    {
      StandsFor(was.masters, ds, e);
    }
    var records := Saved(Rehomed(was.records, rep), staged, held);
    var rows := Bodies(Touched(held, survivors), records, engine.compose);
    assert rows.Keys == Touched(held, survivors);
    WrittenMasters(was.masters, rep, moved, rows, fileNo, now);
  }

  /** A stored master answers, after the file, as its class's survivor. */
  lemma {:induction false} MovedResolves(masters: map<Id, Master>, rep: Id -> Id, moved: map<Id, Id>, touched: set<Id>,
                                         after: map<Id, Master>, e: Id)
    requires Written(masters, moved, touched, after) && Tracks(moved, rep, Created(masters))
    requires e in masters && !IsAlias(masters, rep(e))
    ensures Resolve(after, e) == rep(e)
    decreases Older(after, e)
  {
    if e in moved {
      assert IsAlias(after, e);
      AliasStepsBack(after, e);
      MovedResolves(masters, rep, moved, touched, after, moved[e]);
    }
  }

  /** Every id ever written answers, after the file, as the survivor of the class of the master it answered as. */
  lemma WrittenResolves(masters: map<Id, Master>, ds: seq<Decision>, moved: map<Id, Id>, touched: set<Id>, after: map<Id, Master>)
    requires AliasesAscend(masters) && Written(masters, moved, touched, after)
    requires Tracks(moved, Survivors(ds, Created(masters)), Created(masters))
    requires forall x :: x in Ends(ds) ==> !IsAlias(masters, x)
    ensures forall e :: e in masters ==> Resolve(after, e) == Survivor(ds, Created(masters), Resolve(masters, e))
  {
    hide Written;
    WrittenFollows(masters, moved, touched, after);
    forall e | e in masters
      ensures Resolve(after, e) == Survivor(ds, Created(masters), Resolve(masters, e))
    {
      var r := Resolve(masters, e);
      StandsFor(masters, ds, r);
      MovedResolves(masters, Survivors(ds, Created(masters)), moved, touched, after, r);
      ResolveFollows(masters, after, e);
    }
  }

  lemma WrittenFollows(masters: map<Id, Master>, moved: map<Id, Id>, touched: set<Id>, after: map<Id, Master>)
    requires Written(masters, moved, touched, after)
    ensures Follows(masters, after) && AliasesAscend(after)
  {
  }

  /** Every current master's survivor, every master held and every one a LEI row names is current once the file is written. */
  lemma CurrentKept(was: Tables, ds: seq<Decision>, moved: map<Id, Id>, survivors: set<Id>, held: map<Subject, Id>,
                    leis: set<(Key, Id)>, after: map<Id, Master>)
    requires Prepared(was, ds, moved, survivors, held, leis)
    requires Written(was.masters, moved, Touched(held, survivors), after)
    ensures AliasesAscend(after)
    ensures forall e :: IsCurrent(was.masters, e) ==> IsCurrent(after, Survivors(ds, Created(was.masters))(e))
    ensures forall s :: s in held ==> IsCurrent(after, held[s])
    ensures forall i :: i in leis ==> IsCurrent(after, i.1)
    ensures forall e :: e in Touched(held, survivors) ==> IsCurrent(after, e)
  {
    hide AliasesAscend, Follows;
    forall e | IsCurrent(was.masters, e)
      ensures IsCurrent(after, Survivors(ds, Created(was.masters))(e))
    {
      StandsFor(was.masters, ds, e);
      SurvivorStable(ds, Created(was.masters), e);
    }
  }

  lemma FinishedRows(was: Tables, ds: seq<Decision>, moved: map<Id, Id>, survivors: set<Id>, staged: map<Assertion, Staged>,
                     held: map<Subject, Id>, leis: set<(Key, Id)>, engine: Engine, fileNo: nat, now: nat, key: FileKey)
    requires Sound(was) && Prepared(was, ds, moved, survivors, held, leis)
    requires forall a :: a in staged ==> SubjectHeld(was, held, staged[a].subject)
    ensures
      var after := Finished(was, Survivors(ds, Created(was.masters)), moved, survivors, staged, held, leis, engine, fileNo, now, key);
      Written(was.masters, moved, Touched(held, survivors), after.masters) ==> Sound(after)
  {
    var rep := Survivors(ds, Created(was.masters));
    var after := Finished(was, rep, moved, survivors, staged, held, leis, engine, fileNo, now, key);
    if Written(was.masters, moved, Touched(held, survivors), after.masters) {
      CurrentKept(was, ds, moved, survivors, held, leis, after.masters);
      hide Prepared, SubjectHeld;
      SavedOnCurrent(was, rep, staged, held, after.masters);
      SavedTogether(was, rep, staged, held);
    }
  }

  /** A merged file leaves the tables sound and no id lost, and every id ever written answers as the survivor
      of the class of the master it answered as before. */
  lemma FinishedSound(was: Tables, ds: seq<Decision>, moved: map<Id, Id>, survivors: set<Id>, staged: map<Assertion, Staged>,
                      held: map<Subject, Id>, leis: set<(Key, Id)>, engine: Engine, fileNo: nat, now: nat, key: FileKey)
    requires Sound(was) && Prepared(was, ds, moved, survivors, held, leis)
    requires forall a :: a in staged ==> SubjectHeld(was, held, staged[a].subject)
    ensures
      var after := Finished(was, Survivors(ds, Created(was.masters)), moved, survivors, staged, held, leis, engine, fileNo, now, key);
      && Sound(after) && Follows(was.masters, after.masters)
      && (forall e :: e in was.masters ==>
            Resolve(after.masters, e) == Survivor(ds, Created(was.masters), Resolve(was.masters, e)))
  {
    hide Finished, Written;
    var after := Finished(was, Survivors(ds, Created(was.masters)), moved, survivors, staged, held, leis, engine, fileNo, now, key);
    FinishedMasters(was, ds, moved, survivors, staged, held, leis, engine, fileNo, now, key);
    FinishedRows(was, ds, moved, survivors, staged, held, leis, engine, fileNo, now, key);
    WrittenFollows(was.masters, moved, Touched(held, survivors), after.masters);
    WrittenResolves(was.masters, ds, moved, Touched(held, survivors), after.masters);
  }

  /** A staged record whose subject the file leaves without a master has no stored version with one. */
  ghost predicate SubjectHeld(was: Tables, held: map<Subject, Id>, s: Subject) {
    s in held || forall a :: a in was.records && was.records[a].subject == s ==> was.records[a].entity == None
  }

  lemma SavedOnCurrent(was: Tables, rep: Id -> Id, staged: map<Assertion, Staged>, held: map<Subject, Id>, after: map<Id, Master>)
    requires Sound(was)
    requires forall e :: IsCurrent(was.masters, e) ==> IsCurrent(after, rep(e))
    requires forall s :: s in held ==> IsCurrent(after, held[s])
    ensures
      var records := Saved(Rehomed(was.records, rep), staged, held);
      forall a :: a in records && records[a].entity.Some? ==> IsCurrent(after, records[a].entity.value)
  {
  }

  /** A subject that is held nowhere has no row on a master. */
  lemma NotHeld(was: Tables, staged: map<Assertion, Staged>, held: map<Subject, Id>, s: Subject)
    requires s !in held && forall a :: a in staged ==> SubjectHeld(was, held, staged[a].subject)
    ensures forall a, b :: a in staged && staged[a].subject == s && b in was.records && was.records[b].subject == s ==>
      was.records[b].entity == None
  {
  }

  lemma SavedTogether(was: Tables, rep: Id -> Id, staged: map<Assertion, Staged>, held: map<Subject, Id>)
    requires OneMasterEach(was.records)
    requires forall a :: a in staged ==> SubjectHeld(was, held, staged[a].subject)
    ensures OneMasterEach(Saved(Rehomed(was.records, rep), staged, held))
  {
    var moved := Rehomed(was.records, rep);
    var records := Saved(moved, staged, held);
    hide SubjectHeld;
    forall a, b | a in records && b in records && records[a].subject == records[b].subject
      ensures records[a].entity == records[b].entity
    {
      var s := records[a].subject;
      if s !in held {
        NotHeld(was, staged, held, s);
        assert a in was.records && b in was.records ==> was.records[a].entity == was.records[b].entity;
      }
    }
  }

  /** `last_file`: the greatest file number of any master. */
  method LastFile(masters: map<Id, Master>) returns (n: nat)
    ensures forall e :: e in masters ==> masters[e].changedFile <= n
    ensures n == 0 || exists e :: e in masters && masters[e].changedFile == n
  {
    n := 0;
    var rest := masters.Keys;
    while rest != {}
      invariant rest <= masters.Keys
      invariant forall e :: e in masters && e !in rest ==> masters[e].changedFile <= n
      invariant n == 0 || exists e :: e in masters && masters[e].changedFile == n
    {
      var e :| e in rest;
      rest := rest - {e};
      if masters[e].changedFile > n {
        n := masters[e].changedFile;
      }
    }
  }

  /** The rows written one at a time are those the whole write gives. */
  lemma WrittenIsUpserted(was: map<Id, Master>, now: map<Id, Master>, rows: map<Id, Body>, fileNo: nat, at: nat)
    requires now.Keys == was.Keys + rows.Keys
    requires forall e :: e in rows ==> now[e].body == rows[e]
    requires forall e :: e in was && (e in rows ==> was[e].body == rows[e]) ==> now[e] == was[e]
    requires forall e :: e in was && e in rows && was[e].body != rows[e] ==>
               now[e].changedFile == fileNo && now[e].created == was[e].created
    requires forall e :: e in rows && e !in was ==> now[e].changedFile == fileNo && now[e].created == at
    ensures now == Upserted(was, rows, fileNo, at)
  {
  }

  /** A stored master made an alias, and nothing else. */
  lemma AliasWritten(was: map<Id, Master>, now: map<Id, Master>, keep: Id, gone: Id, fileNo: nat)
    requires gone in was && now.Keys == was.Keys && keep != gone && was[gone].body.canonical == gone
    requires now[gone].body == Body(keep, ALIAS) && now[gone].changedFile == fileNo && now[gone].created == was[gone].created
    requires forall e :: e in was && e != gone ==> now[e] == was[e]
    ensures now == Aliased(was, map[gone := keep], fileNo)
  {
  }

  class Store {
    var masters: map<Id, Master>
    var records: map<Assertion, Record>
    var identifiers: set<(Key, Id)>
    var files: set<FileKey>
    // Every merge applied, as (kept, gone).
    var decisions: seq<Decision>

    constructor ()
      ensures Now() == Tables(map[], map[], {}, {}) && decisions == []
    {
      masters, records, identifiers, files, decisions := map[], map[], {}, {}, [];
    }

    ghost function Now(): Tables
      reads this
    {
      Tables(masters, records, identifiers, files)
    }

    /** `write_masters`, one row at a time: an equal body leaves the row and its file number alone, a changed one
        takes this file's, and either keeps the time the master was created. */
    method WriteMasters(rows: map<Id, Body>, fileNo: nat, now: nat)
      modifies this`masters
      ensures masters.Keys == old(masters).Keys + rows.Keys
      ensures forall e :: e in rows ==> masters[e].body == rows[e]
      ensures forall e :: e in old(masters) && (e in rows ==> old(masters)[e].body == rows[e]) ==> masters[e] == old(masters)[e]
      ensures forall e :: e in old(masters) && e in rows && old(masters)[e].body != rows[e] ==>
                masters[e].changedFile == fileNo && masters[e].created == old(masters)[e].created
      ensures forall e :: e in rows && e !in old(masters) ==> masters[e].changedFile == fileNo && masters[e].created == now
    {
      var rest := rows.Keys;
      while rest != {}
        invariant rest <= rows.Keys && masters.Keys == old(masters).Keys + (rows.Keys - rest)
        invariant forall e :: e in old(masters) && (e in rest || e !in rows) ==> masters[e] == old(masters)[e]
        invariant forall e :: e in rows && e !in rest ==> masters[e].body == rows[e]
        invariant forall e :: e in rows && e !in rest && e in old(masters) ==>
                    masters[e] == if old(masters)[e].body == rows[e] then old(masters)[e]
                                  else Master(rows[e], fileNo, old(masters)[e].created)
        invariant forall e :: e in rows && e !in rest && e !in old(masters) ==> masters[e] == Master(rows[e], fileNo, now)
      {
        var e :| e in rest;
        rest := rest - {e};
        if e !in masters {
          masters := masters[e := Master(rows[e], fileNo, now)];
        } else if masters[e].body != rows[e] {
          masters := masters[e := Master(rows[e], fileNo, masters[e].created)];
        }
      }
    }

    /** The stored ones of two masters, oldest first. */
    method Oldest(left: Id, right: Id) returns (stored: seq<Id>)
      requires left != right
      ensures forall e :: e in stored <==> (e == left || e == right) && e in masters
      ensures stored != [] ==> stored[0] == Elder(Created(masters), left, right)
    {
      if left in masters && right in masters {
        stored := if masters[right].created < masters[left].created
                     || (masters[right].created == masters[left].created && right < left)
                  then [right, left] else [left, right];
      } else {
        stored := if left in masters then [left] else if right in masters then [right] else [];
      }
    }

    method Repoint(keep: Id, gone: Id)
      modifies this`records, this`identifiers
      ensures records == map a | a in old(records) :: MovedRecord(old(records)[a], keep, gone)
      ensures identifiers == set i | i in old(identifiers) :: if i.1 == gone then (i.0, keep) else i
    {
      var held := set i | i in identifiers && i.1 == gone :: i.0;
      identifiers := (set i | i in identifiers && i.1 != gone) + (set k | k in held :: (k, keep));
      records := map a | a in records :: MovedRecord(records[a], keep, gone);
      ghost var want := set i | i in old(identifiers) :: if i.1 == gone then (i.0, keep) else i;
      forall k | k in held
        ensures (k, keep) in want
      {
        assert (k, gone) in old(identifiers);
      }
      assert forall i :: i in old(identifiers) && i.1 == gone ==> i.0 in held;
    }

    method WriteAlias(keep: Id, gone: Id, fileNo: nat, now: nat)
      requires IsCurrent(masters, gone) && keep != gone
      modifies this`masters
      ensures masters == Aliased(old(masters), map[gone := keep], fileNo)
    {
      WriteMasters(map[gone := Body(keep, ALIAS)], fileNo, now);
      AliasWritten(old(masters), masters, keep, gone, fileNo);
    }

    /** Two current masters become one: every row of the younger moves, and if stored it becomes an alias. */
    method MergeTwo(left: Id, right: Id, fileNo: nat, now: nat) returns (keep: Id, gone: Id)
      requires left != right && !IsAlias(masters, left) && !IsAlias(masters, right)
      modifies this`masters, this`records, this`identifiers, this`decisions
      ensures keep == Elder(Created(old(masters)), left, right) && gone == if keep == left then right else left
      ensures Now() == MergedTwo(old(Now()), keep, gone, fileNo)
      ensures decisions == old(decisions) + [(keep, gone)]
    {
      var stored := Oldest(left, right);
      keep := if stored != [] then stored[0] else if left < right then left else right;
      gone := if keep == left then right else left;
      Repoint(keep, gone);
      if gone in stored {
        WriteAlias(keep, gone, fileNo, now);
      }
      decisions := decisions + [(keep, gone)];
    }

    /** `split`: each record of the kept master first bound to the other returns to it, and the kept master's
        identifier rows are deleted; both masters' records are returned. */
    method Split(keep: Id, gone: Id) returns (rows: set<Assertion>)
      requires keep != gone
      modifies this`records, this`identifiers
      ensures Now() == Parted(old(Now()), keep, gone)
      ensures rows == set a | a in old(records) && old(records)[a].entity in {Some(keep), Some(gone)}
    {
      ghost var was := Now();
      var rest := records.Keys;
      while rest != {}
        invariant rest <= records.Keys == was.records.Keys && identifiers == was.identifiers
        invariant forall a :: a in records ==>
                    records[a] == if a in rest then was.records[a] else SplitRecord(was.records[a], keep, gone)
      {
        var a :| a in rest;
        rest := rest - {a};
        if records[a].entity == Some(keep) && records[a].bound == Some(gone) {
          records := records[a := records[a].(entity := Some(gone))];
        }
      }
      identifiers := set i | i in identifiers && i.1 != keep;
      rows := set a | a in records && records[a].entity in {Some(keep), Some(gone)};
    }

    /** One pass of the decision loop. */
    method ApplyDecision(d: Decision, moved: map<Id, Id>, survivors: set<Id>, fileNo: nat, now: nat,
                         ghost was: Tables, ghost rep: Id -> Id, ghost next: Id -> Id)
      returns (moved': map<Id, Id>, survivors': set<Id>)
      requires Applied(was, Now(), rep, fileNo, moved, survivors) && Takes(rep, next, Created(was.masters), d)
      requires !IsAlias(was.masters, rep(d.0)) && !IsAlias(was.masters, rep(d.1))
      modifies this`masters, this`records, this`identifiers, this`decisions
      ensures Applied(was, Now(), next, fileNo, moved', survivors')
      ensures |decisions| - |moved'| == |old(decisions)| - |moved| && old(decisions) <= decisions
    {
      hide Applied, Takes, Tracks;
      ghost var before := Now();
      AppliedReads(was, before, rep, next, fileNo, moved, survivors, d);
      var left := Live(moved, d.0, rep, Created(was.masters));
      var right := Live(moved, d.1, rep, Created(was.masters));
      moved', survivors' := moved, survivors;
      if left == right {
        AppliedAgain(was, before, rep, next, fileNo, moved, survivors);
      } else {
        var keep, gone := MergeTwo(left, right, fileNo, now);
        TakesMoves(rep, next, Created(was.masters), d, keep, gone);
        AppliedStep(was, before, Now(), rep, next, fileNo, moved, survivors, keep, gone);
        moved' := moved[gone := keep];
        survivors' := survivors - {gone} + {keep};
      }
    }

    /** Apply the file's merge decisions. Afterwards every row is on its class's survivor; a stored master
        that gave way is an alias of an older stored one; the survivors of real merges are returned. */
    method ApplyMerges(ds: seq<Decision>, fileNo: nat, now: nat) returns (moved: map<Id, Id>, survivors: set<Id>)
      requires forall e :: e in Ends(ds) ==> !IsAlias(masters, e)
      modifies this`masters, this`records, this`identifiers, this`decisions
      ensures Applied(old(Now()), Now(), Survivors(ds, Created(old(masters))), fileNo, moved, survivors)
      ensures |decisions| == |old(decisions)| + |moved| && old(decisions) <= decisions
    {
      hide Applied;
      ghost var was := Now();
      ghost var created := Created(was.masters);
      moved, survivors := map[], {};
      AppliedNothing(was, Survivors([], created), fileNo);
      for i := 0 to |ds|
        invariant Applied(was, Now(), Survivors(ds[..i], created), fileNo, moved, survivors)
        invariant |decisions| == |old(decisions)| + |moved| && old(decisions) <= decisions
      {
        ghost var done := ds[..i];
        assert ds[..i + 1] == done + [ds[i]];
        NotAliasBefore(was.masters, ds, done, ds[i], created);
        DecisionTakes(done, ds[i], created);
        moved, survivors := ApplyDecision(ds[i], moved, survivors, fileNo, now, was, Survivors(done, created),
                                          Survivors(ds[..i + 1], created));
      }
      assert ds[..|ds|] == ds;
    }

    /** `bound`: the master each of these subjects is on. */
    method Bound(subjects: set<Subject>) returns (found: map<Subject, Id>)
      requires OneMasterEach(records)
      ensures forall s :: s in found ==> s in subjects && OnMaster(records, s, found[s])
      ensures forall a :: a in records && records[a].entity.Some? && records[a].subject in subjects ==>
                records[a].subject in found && found[records[a].subject] == records[a].entity.value
    {
      found := map[];
      var rest := records.Keys;
      while rest != {}
        invariant rest <= records.Keys
        invariant forall s :: s in found ==> s in subjects && OnMaster(records, s, found[s])
        invariant forall a :: a in records && a !in rest && records[a].entity.Some? && records[a].subject in subjects ==>
                    records[a].subject in found && found[records[a].subject] == records[a].entity.value
      {
        var a :| a in rest;
        rest := rest - {a};
        if records[a].entity.Some? && records[a].subject in subjects {
          found := found[records[a].subject := records[a].entity.value];
        }
      }
    }

    /** Each bound subject's master, once the file's merges have been applied. */
    method LiveBound(bound: map<Subject, Id>, moved: map<Id, Id>, ghost rep: Id -> Id, ghost created: map<Id, nat>)
      returns (live: map<Subject, Id>)
      requires Tracks(moved, rep, created)
      ensures live.Keys == bound.Keys && forall s :: s in bound ==> live[s] == rep(bound[s])
    {
      live := map[];
      var rest := bound.Keys;
      while rest != {}
        invariant rest <= bound.Keys && live.Keys == bound.Keys - rest
        invariant forall s :: s in live ==> live[s] == rep(bound[s])
      {
        var s :| s in rest;
        rest := rest - {s};
        var e := Live(moved, bound[s], rep, created);
        live := live[s := e];
      }
    }

    /** The planner's bindings over the bound subjects, the last for a subject standing. */
    method ApplyBinds(binds: seq<(Subject, Id)>, bound: map<Subject, Id>, moved: map<Id, Id>, ghost rep: Id -> Id,
                      ghost created: map<Id, nat>)
      returns (after: map<Subject, Id>)
      requires Tracks(moved, rep, created)
      ensures forall s :: s in after <==> s in bound || LastBind(binds, s).Some?
      ensures forall s :: s in after ==>
                after[s] == if LastBind(binds, s).Some? then rep(LastBind(binds, s).value) else bound[s]
    {
      after := bound;
      for i := 0 to |binds|
        invariant forall s :: s in after <==> s in bound || LastBind(binds[..i], s).Some?
        invariant forall s :: s in after ==>
                    after[s] == if LastBind(binds[..i], s).Some? then rep(LastBind(binds[..i], s).value) else bound[s]
      {
        assert binds[..i + 1][..i] == binds[..i];
        var e := Live(moved, binds[i].1, rep, created);
        after := after[binds[i].0 := e];
      }
      assert binds[..|binds|] == binds;
    }

    /** One name rule over the records still waiting, with the masters holding LEIs as it starts. */
    method MatchRule(rule: NameRule, bound: map<Subject, Id>, named: map<Subject, Id>)
      returns (after: map<Subject, Id>, found: map<Subject, Id>, stated: map<Subject, Lei>)
      requires OneMasterEach(records)
      ensures forall s :: s in bound ==> s in after && after[s] == bound[s]
      ensures forall s :: s in after && s !in bound ==> OnMaster(records, s, after[s])
      ensures found.Keys == stated.Keys && found.Keys !! after.Keys && found.Keys !! named.Keys
      ensures found.Values <= after.Values
      ensures rule.vetoes ==> HeldLeisAgree(found, stated, LeisHeld(identifiers))
      ensures after == bound + StoredOf(records, Candidates(rule) + PairHolders(rule) - bound.Keys)
      ensures JoinsExactly(rule, after, Candidates(rule) - after.Keys - named.Keys, LeisHeld(identifiers), found, stated)
    {
      hide JoinsOnlyReached, LeavesOnlyAmbiguous, HeldLeisAgree, LeisHeld, JoinsExactly, Candidates, PairHolders;
      var involved := Candidates(rule) + PairHolders(rule);
      var stored := Bound(involved - bound.Keys);
      StoredFound(records, involved - bound.Keys, stored);
      after := bound + stored;
      var waiting := Candidates(rule) - after.Keys - named.Keys;
      found, stated := ApplyRule(rule, after, waiting, LeisHeld(identifiers));
      JoinedFromBound(rule.pairs, after, waiting, found);
    }

    /** The name rules in order; the LEI each joined record states is added to its master at the end. */
    method MatchNames(rules: seq<NameRule>, bound: map<Subject, Id>)
      returns (after: map<Subject, Id>, named: map<Subject, Id>, values: map<Subject, Lei>, ghost stages: seq<Stage>)
      requires OneMasterEach(records)
      modifies this`identifiers
      ensures RulesRun(old(Now()), rules, bound, stages) && stages[|rules|] == Stage(after, named, values)
      ensures forall s :: s in bound ==> s in after && after[s] == bound[s]
      ensures forall s :: s in after && s !in bound ==> OnMaster(records, s, after[s])
      ensures named.Keys == values.Keys && named.Keys !! bound.Keys && named.Values <= after.Values
      ensures identifiers == old(identifiers) + StatedLeis(named, values)
    {
      hide HeldLeisAgree, LeisHeld, OnMaster, OneMasterEach, JoinsExactly, RuleStep, RulesRun;
      after, named, values := bound, map[], map[];
      stages := [Stage(bound, map[], map[])];
      RunBegins(Now(), bound);
      for i := 0 to |rules|
        invariant RulesRun(Now(), rules[..i], bound, stages) && |stages| == i + 1 && stages[i] == Stage(after, named, values)
        invariant Now() == old(Now())
        invariant forall s :: s in bound ==> s in after && after[s] == bound[s]
        invariant forall s :: s in after && s !in bound ==> OnMaster(records, s, after[s])
        invariant named.Keys == values.Keys && named.Keys !! bound.Keys && named.Values <= after.Values
        invariant identifiers == old(identifiers)
      {
        var wider, found, stated := MatchRule(rules[i], after, named);
        ValuesKept(after, wider, named, found);
        StepTaken(Now(), rules[i], stages[i], Stage(wider, named + found, values + stated), found, stated);
        RunGoesOn(Now(), rules[..i], bound, stages, rules[i], Stage(wider, named + found, values + stated), found, stated);
        assert rules[..i + 1] == rules[..i] + [rules[i]];
        after, named, values := wider, named + found, values + stated;
        stages := stages + [Stage(after, named, values)];
      }
      assert rules[..|rules|] == rules;
      identifiers := identifiers + StatedLeis(named, values);
    }

    /** The exact-name rules in order, a later rule standing over an earlier one. */
    method MatchExactNames(queries: seq<ExactQuery>, bound: map<Subject, Id>) returns (named: map<Subject, Id>)
      requires OneMasterEach(records)
      ensures named.Keys !! bound.Keys
      ensures forall s :: s in named ==> named[s] in bound.Values || exists u :: OnMaster(records, u, named[s])
      ensures ExactlyNamed(records, queries, |queries|, bound, named)
    {
      hide ExactlyNamed, HeldAlone, OneHolder, OnMaster, StoredOf, MembersOf, OneMasterEach;
      named := map[];
      ExactBegins(records, queries, bound);
      for i := 0 to |queries|
        invariant ExactlyNamed(records, queries, i, bound, named)
        invariant named.Keys !! bound.Keys
        invariant forall s :: s in named ==> named[s] in bound.Values || exists u :: OnMaster(records, u, named[s])
      {
        var names := queries[i].names;
        var stored := Bound(set n | n in names :: n.1);
        var members := seq(|names|, j requires 0 <= j < |names| =>
          Member(names[j].0, names[j].1, names[j].2, if names[j].1 in stored then Some(stored[names[j].1]) else None));
        StoredFound(records, set n | n in names :: n.1, stored);
        MembersAre(records, names, stored, members);
        var found, reviewed := ApplyExactRule(queries[i].rule, members, bound);
        HeldAloneIs(records, queries[i], bound, members);
        ExactNext(records, queries, i, bound, named, found);
        forall s | s in found
          ensures s !in bound && (found[s] in bound.Values || exists u :: OnMaster(records, u, found[s]))
        {
          ExactComesFrom(queries[i].rule, members, bound, s, found[s]);
        }
        named := named + found;
      }
    }

    /** The file's merges, bindings and name matches: the tables are on the classes' survivors, and the file's
        records have the masters they will be saved on. */
    method MatchRecords(staged: map<Assertion, Staged>, engine: Engine, fileNo: nat, now: nat)
      returns (moved: map<Id, Id>, survivors: set<Id>, held: map<Subject, Id>, leis: set<(Key, Id)>)
      requires Sound(Now())
      requires Legal(Now(), engine.plan(Now(), staged))
      modifies this
      ensures Prepared(old(Now()), engine.plan(old(Now()), staged).merges, moved, survivors, held, leis)
      ensures HeldFrom(old(Now()), staged, engine.plan(old(Now()), staged), held)
      ensures Joined(old(Now()), staged, engine, fileNo, moved, held, leis)
      ensures forall a :: a in staged ==> SubjectHeld(old(Now()), held, staged[a].subject)
      ensures Matched(old(Now()), Now(), Survivors(engine.plan(old(Now()), staged).merges, Created(old(masters))), fileNo, moved, leis)
    {
      ghost var was := Now();
      assert was == Tables(masters, records, identifiers, files);
      hide *;
      var answer := engine.plan(Tables(masters, records, identifiers, files), staged);
      var bound;
      ghost var known;
      moved, survivors, bound, known := MatchBound(staged, answer, fileNo, now);
      ghost var mid := Now();
      assert mid == Tables(masters, records, identifiers, files) by { Fields(); }
      var wider, named, values, stages := MatchNames(engine.rules(Tables(masters, records, identifiers, files), staged), bound);
      ghost var before := Tables(masters, records, identifiers, files);
      var exact := MatchExactNames(engine.exact(Tables(masters, records, identifiers, files), staged), wider + named);
      held := Held(Subjects(staged), wider + named + exact, named + exact);
      leis := StatedLeis(named, values);
      LeisNamed(named, values);
      assert before == mid.(identifiers := mid.identifiers + leis) by { Fields(); }
      JoinedIs(was, staged, engine, answer, mid, fileNo, moved, survivors, bound, wider, named, values, stages, exact, held, leis);
      HeldPrepared(was, answer, moved, survivors, bound, wider, named, exact, leis, Subjects(staged), mid.records);
      HeldKeepsBound(Subjects(staged), bound, wider, named, exact);
      HeldSubjects(was, staged, answer, known, bound, held);
      Fields();
      MatchedIs(was, mid, Now(), Survivors(answer.merges, Created(was.masters)), fileNo, moved, survivors, leis);
    }

    lemma Fields()
      ensures Now() == Tables(masters, records, identifiers, files)
    {
    }

    /** The file's merges and bindings. */
    method MatchBound(staged: map<Assertion, Staged>, answer: Answer, fileNo: nat, now: nat)
      returns (moved: map<Id, Id>, survivors: set<Id>, bound: map<Subject, Id>, ghost known: map<Subject, Id>)
      requires Sound(Now()) && Legal(Now(), answer)
      modifies this
      ensures Applied(old(Now()), Now(), Survivors(answer.merges, Created(old(masters))), fileNo, moved, survivors)
      ensures OneMasterEach(records)
      ensures BoundReady(old(Now()), answer, records, moved, survivors, bound)
      ensures BoundFrom(old(Now()), staged, answer, known, bound)
      ensures PlannedBound(old(Now()), staged, answer, bound)
    {
      ghost var was := Now();
      hide *;
      ghost var created := Created(was.masters);
      ghost var rep := Survivors(answer.merges, created);
      Fields();
      PlanNamesNoAlias(was, answer);
      var stored := Bound(Subjects(staged));
      known := stored;
      StoredFound(was.records, Subjects(staged), stored);
      moved, survivors := ApplyMerges(answer.merges, fileNo, now);
      Fields();
      MergedRows(was, Now(), answer.merges, fileNo, moved, survivors);
      var live := LiveBound(stored, moved, rep, created);
      bound := ApplyBinds(answer.binds, live, moved, rep, created);
      SurvivorsAre(answer.merges, created);
      BindsFrom(answer.binds, live, bound, rep);
      PlannedIs(was, staged, answer, stored, live, bound);
      BoundStand(was, answer, stored, live, bound);
      BoundIsReady(was, answer, records, moved, survivors, bound);
      BoundIsFrom(was, staged, answer, stored, live, bound);
    }

    /** The touched masters composed again from their records, with the identifiers they then hold. */
    method WriteComposed(touched: set<Id>, engine: Engine, fileNo: nat, now: nat)
      modifies this`masters, this`identifiers
      ensures masters == Upserted(old(masters), Bodies(touched, records, engine.compose), fileNo, now)
      ensures identifiers == old(identifiers) + ComposedIdentifiers(touched, records, engine.compose)
    {
      hide Bodies, ComposedIdentifiers, Upserted;
      ghost var was := masters;
      var rows := Bodies(touched, records, engine.compose);
      WriteMasters(rows, fileNo, now);
      WrittenIsUpserted(was, masters, rows, fileNo, now);
      identifiers := identifiers + ComposedIdentifiers(touched, records, engine.compose);
    }

    /** The records of one file: matched, then the file's rows and masters written. */
    method MergeRecords(key: FileKey, staged: map<Assertion, Staged>, engine: Engine, now: nat) returns (r: Outcome)
      requires Sound(Now())
      requires Legal(Now(), engine.plan(Now(), staged))
      modifies this
      ensures r.Merged? && MergedInto(old(Now()), Now(), key, staged, engine, now, r.moved, r.held, r.leis)
      ensures Sound(Now()) && Follows(old(masters), masters)
      ensures
        var ds := engine.plan(old(Now()), staged).merges;
        forall e :: e in old(masters) ==> Resolve(masters, e) == Survivor(ds, Created(old(masters)), Resolve(old(masters), e))
    {
      hide Sound, Legal, Prepared, HeldFrom, SubjectHeld, Finished, Follows, Matched, MergedInto, Joined;
      ghost var was := Now();
      var last := LastFile(masters);
      var fileNo := last + 1;
      ghost var ds := engine.plan(was, staged).merges;
      var moved, survivors, held, leis := MatchRecords(staged, engine, fileNo, now);
      ghost var mid := Now();
      SaveRecords(staged, held);
      var touched := Touched(held, survivors);
      WriteComposed(touched, engine, fileNo, now);
      files := files + {key};
      FinishedIs(was, mid, Now(), ds, moved, survivors, staged, held, leis, engine, fileNo, now, key);
      FinishedSound(was, ds, moved, survivors, staged, held, leis, engine, fileNo, now, key);
      MergedIntoIs(was, Now(), key, staged, engine, fileNo, now, moved, survivors, held, leis);
      r := Merged(moved, held, leis);
    }

    /** Merge one file. `again` delivers a finished file a second time; a file without records that is
        already done cannot be finished twice, and is rolled back. */
    method MergeFile(key: FileKey, staged: map<Assertion, Staged>, engine: Engine, again: bool, now: nat) returns (r: Outcome)
      requires Sound(Now())
      requires forall t, s :: Sound(t) ==> Legal(t, engine.plan(t, s))
      modifies this
      ensures r.Skipped? <==> key in old(files) && !again
      ensures r.RolledBack? <==> key in old(files) && again && staged == map[]
      ensures !r.Merged? ==> Now() == old(Now())
      ensures r.Merged? && staged == map[] ==> Now() == old(Now()).(files := old(files) + {key})
      ensures r.Merged? && staged != map[] ==> MergedInto(old(Now()), Now(), key, staged, engine, now, r.moved, r.held, r.leis)
      ensures Sound(Now()) && Follows(old(masters), masters)
      ensures r.Merged? && staged != map[] ==>
                var ds := engine.plan(old(Now()), staged).merges;
                forall e :: e in old(masters) ==>
                  Resolve(masters, e) == Survivor(ds, Created(old(masters)), Resolve(old(masters), e))
    {
      if key in files && !again {
        return Skipped;
      }
      if staged == map[] {
        if key in files {
          return RolledBack;
        }
        files := files + {key};
        return Merged(map[], map[], {});
      }
      r := MergeRecords(key, staged, engine, now);
    }

    /** The file's records with their masters, in one write; older rows of the same subjects follow. */
    method SaveRecords(staged: map<Assertion, Staged>, held: map<Subject, Id>)
      modifies this`records
      ensures records == Saved(old(records), staged, held)
    {
      var added := map a | a in staged && a !in records ::
        var at := if staged[a].subject in held then Some(held[staged[a].subject]) else None;
        Record(staged[a].subject, at, at, staged[a].text);
      records := records + added;
      records := map a | a in records :: SavedRecord(records[a], held);
    }
  }

  ghost predicate OnMaster(records: map<Assertion, Record>, s: Subject, e: Id) {
    exists a :: a in records && records[a].subject == s && records[a].entity == Some(e)
  }


  /** The master a subject's records are on. */
  ghost function MasterNow(records: map<Assertion, Record>, s: Subject): Option<Id> {
    if exists e :: OnMaster(records, s, e) then
      var e :| OnMaster(records, s, e);
      Some(e)
    else None
  }

  lemma MasterIs(records: map<Assertion, Record>, s: Subject, e: Id)
    requires OneMasterEach(records)
    ensures MasterNow(records, s) == Some(e) <==> OnMaster(records, s, e)
  {
    if OnMaster(records, s, e) {
      var f := MasterNow(records, s).value;
      var a :| a in records && records[a].subject == s && records[a].entity == Some(e);
      var b :| b in records && records[b].subject == s && records[b].entity == Some(f);
    }
  }

  /** The stored masters of some subjects. */
  ghost function StoredOf(records: map<Assertion, Record>, subjects: set<Subject>): map<Subject, Id> {
    map s | s in subjects && MasterNow(records, s).Some? :: MasterNow(records, s).value
  }

  lemma StoredFound(records: map<Assertion, Record>, subjects: set<Subject>, found: map<Subject, Id>)
    requires OneMasterEach(records)
    requires forall s :: s in found ==> s in subjects && OnMaster(records, s, found[s])
    requires forall a :: a in records && records[a].entity.Some? && records[a].subject in subjects ==>
               records[a].subject in found && found[records[a].subject] == records[a].entity.value
    ensures found == StoredOf(records, subjects)
  {
    forall s | s in found ensures MasterNow(records, s) == Some(found[s]) {
      MasterIs(records, s, found[s]);
    }
    forall s | s in StoredOf(records, subjects) ensures s in found {
      var e: Id :| OnMaster(records, s, e);
      var a :| a in records && records[a].subject == s && records[a].entity == Some(e);
    }
  }

  /** The planner's last binding of a subject. */
  function LastBind(binds: seq<(Subject, Id)>, s: Subject): Option<Id>
    decreases |binds|
  {
    if binds == [] then None
    else if binds[|binds| - 1].0 == s then Some(binds[|binds| - 1].1)
    else LastBind(binds[..|binds| - 1], s)
  }

  lemma {:induction false} LastBindIn(binds: seq<(Subject, Id)>, s: Subject)
    ensures LastBind(binds, s).Some? ==> (s, LastBind(binds, s).value) in binds
    ensures LastBind(binds, s).None? ==> forall b :: b in binds ==> b.0 != s
    decreases |binds|
  {
    if binds != [] {
      LastBindIn(binds[..|binds| - 1], s);
    }
  }

  /** Each subject is where it was, or on what a master it is bound to gives way to. */
  lemma BindsFrom(binds: seq<(Subject, Id)>, bound: map<Subject, Id>, after: map<Subject, Id>, rep: Id -> Id)
    requires forall s :: s in after <==> s in bound || LastBind(binds, s).Some?
    requires forall s :: s in after ==>
               after[s] == if LastBind(binds, s).Some? then rep(LastBind(binds, s).value) else bound[s]
    ensures after.Keys == bound.Keys + set b | b in binds :: b.0
    ensures forall s :: s in after ==>
              (s in bound && after[s] == bound[s] && forall b :: b in binds ==> b.0 != s)
              || exists b :: b in binds && b.0 == s && after[s] == rep(b.1)
  {
    hide LastBind;
    forall s ensures LastBind(binds, s).Some? <==> s in (set b | b in binds :: b.0)
             ensures LastBind(binds, s).Some? ==> (s, LastBind(binds, s).value) in binds {
      LastBindIn(binds, s);
    }
    forall s | s in after && !(s in bound && after[s] == bound[s] && forall b :: b in binds ==> b.0 != s)
      ensures exists b :: b in binds && b.0 == s && after[s] == rep(b.1)
    {
      assert LastBind(binds, s).Some?;
      assert (s, LastBind(binds, s).value) in binds;
    }
  }

  /** Where the file's own merges and bindings put a subject: where the planner last binds it, or else, for a
      subject of the file, where it was; in either case on what that master gives way to. */
  ghost function PlannedMaster(was: Tables, staged: map<Assertion, Staged>, answer: Answer, s: Subject): Option<Id> {
    var rep := Survivors(answer.merges, Created(was.masters));
    if LastBind(answer.binds, s).Some? then Some(rep(LastBind(answer.binds, s).value))
    else if s in Subjects(staged) && MasterNow(was.records, s).Some? then Some(rep(MasterNow(was.records, s).value))
    else None
  }

  ghost predicate PlannedBound(was: Tables, staged: map<Assertion, Staged>, answer: Answer, bound: map<Subject, Id>) {
    forall s: Subject ::
      if s in bound then PlannedMaster(was, staged, answer, s) == Some(bound[s]) else PlannedMaster(was, staged, answer, s) == None
  }

  function Candidates(rule: NameRule): set<Subject> {
    set p | p in rule.pairs :: p.candidate
  }

  function PairHolders(rule: NameRule): set<Subject> {
    set p | p in rule.pairs :: p.holder
  }

  // What the name rules have so far: the subjects with a master, and the records joined with the LEIs they state.
  datatype Stage = Stage(bound: map<Subject, Id>, named: map<Subject, Id>, values: map<Subject, Lei>)

  /** The candidates a rule finds waiting: without a master, and joined by no rule before it. */
  function WaitingAt(rule: NameRule, before: Stage, after: Stage): set<Subject> {
    Candidates(rule) - after.bound.Keys - before.named.Keys
  }

  /** What one name rule does: it reads the masters of the records it compares, and joins exactly the waiting
      records its passing pairs and its veto call for. */
  ghost predicate RuleStep(t: Tables, rule: NameRule, before: Stage, after: Stage, found: map<Subject, Id>, stated: map<Subject, Lei>) {
    && after.bound == before.bound + StoredOf(t.records, Candidates(rule) + PairHolders(rule) - before.bound.Keys)
    && JoinsExactly(rule, after.bound, WaitingAt(rule, before, after), LeisHeld(t.identifiers), found, stated)
    && after.named == before.named + found && after.values == before.values + stated
  }

  ghost predicate StepBetween(t: Tables, rule: NameRule, before: Stage, after: Stage) {
    exists found, stated :: RuleStep(t, rule, before, after, found, stated)
  }

  ghost predicate RuleStepAt(t: Tables, rules: seq<NameRule>, stages: seq<Stage>, i: nat)
    requires i < |rules| && |stages| > |rules|
  {
    StepBetween(t, rules[i], stages[i], stages[i + 1])
  }

  /** The name rules in order, from what the merges and bindings left. */
  ghost predicate RulesRun(t: Tables, rules: seq<NameRule>, bound: map<Subject, Id>, stages: seq<Stage>) {
    && |stages| == |rules| + 1 && stages[0] == Stage(bound, map[], map[])
    && (forall i :: 0 <= i < |stages| ==> stages[i].named.Keys == stages[i].values.Keys)
    && forall i :: 0 <= i < |rules| ==> RuleStepAt(t, rules, stages, i)
  }

  ghost function MembersOf(records: map<Assertion, Record>, names: seq<(nat, Subject, nat)>): seq<Member> {
    seq(|names|, j requires 0 <= j < |names| => Member(names[j].0, names[j].1, names[j].2, MasterNow(records, names[j].1)))
  }

  ghost predicate HeldAlone(records: map<Assertion, Record>, query: ExactQuery, bound: map<Subject, Id>, s: Subject, e: Id) {
    OneHolder(MembersOf(records, query.names), query.rule, bound, s, e)
  }

  /** The last of the exact-name rules, of the first `n`, under which one master holds the record's name. */
  ghost predicate NamedExactly(records: map<Assertion, Record>, queries: seq<ExactQuery>, n: nat, bound: map<Subject, Id>,
                               s: Subject, e: Id)
    requires n <= |queries|
  {
    exists i :: 0 <= i < n && HeldAlone(records, queries[i], bound, s, e)
                && forall j, f: Id :: i < j < n ==> !HeldAlone(records, queries[j], bound, s, f)
  }

  ghost predicate ExactlyNamed(records: map<Assertion, Record>, queries: seq<ExactQuery>, n: nat, bound: map<Subject, Id>,
                               named: map<Subject, Id>)
    requires n <= |queries|
  {
    forall s: Subject, e: Id :: s in named && named[s] == e <==> NamedExactly(records, queries, n, bound, s, e)
  }

  lemma RunBegins(t: Tables, bound: map<Subject, Id>)
    ensures RulesRun(t, [], bound, [Stage(bound, map[], map[])])
  {
  }

  lemma StepTaken(t: Tables, rule: NameRule, before: Stage, after: Stage, found: map<Subject, Id>, stated: map<Subject, Lei>)
    requires after.bound == before.bound + StoredOf(t.records, Candidates(rule) + PairHolders(rule) - before.bound.Keys)
    requires JoinsExactly(rule, after.bound, Candidates(rule) - after.bound.Keys - before.named.Keys, LeisHeld(t.identifiers), found, stated)
    requires after.named == before.named + found && after.values == before.values + stated
    ensures RuleStep(t, rule, before, after, found, stated)
  {
    hide JoinsExactly, StoredOf, LeisHeld;
  }

  lemma RunGoesOn(t: Tables, rules: seq<NameRule>, bound: map<Subject, Id>, stages: seq<Stage>, rule: NameRule, after: Stage,
                  found: map<Subject, Id>, stated: map<Subject, Lei>)
    requires RulesRun(t, rules, bound, stages) && RuleStep(t, rule, stages[|rules|], after, found, stated)
    requires after.named.Keys == after.values.Keys
    ensures RulesRun(t, rules + [rule], bound, stages + [after])
  {
    hide RuleStep;
    var more, longer := rules + [rule], stages + [after];
    forall i | 0 <= i < |more| ensures RuleStepAt(t, more, longer, i) {
      if i < |rules| {
        assert RuleStepAt(t, rules, stages, i);
        assert longer[i] == stages[i] && longer[i + 1] == stages[i + 1];
      }
    }
  }

  lemma ExactBegins(records: map<Assertion, Record>, queries: seq<ExactQuery>, bound: map<Subject, Id>)
    ensures ExactlyNamed(records, queries, 0, bound, map[])
  {
  }

  lemma MembersAre(records: map<Assertion, Record>, names: seq<(nat, Subject, nat)>, stored: map<Subject, Id>, members: seq<Member>)
    requires stored == StoredOf(records, set n | n in names :: n.1) && |members| == |names|
    requires
      forall j :: 0 <= j < |names| ==>
        members[j] == Member(names[j].0, names[j].1, names[j].2, if names[j].1 in stored then Some(stored[names[j].1]) else None)
    ensures members == MembersOf(records, names)
  {
    forall j | 0 <= j < |names| ensures members[j] == MembersOf(records, names)[j] {
      assert names[j] in names;
    }
  }

  lemma HeldAloneIs(records: map<Assertion, Record>, query: ExactQuery, bound: map<Subject, Id>, members: seq<Member>)
    requires members == MembersOf(records, query.names)
    ensures forall s: Subject, e: Id :: HeldAlone(records, query, bound, s, e) <==> OneHolder(members, query.rule, bound, s, e)
  {
  }

  lemma NamedExactlyNext(records: map<Assertion, Record>, queries: seq<ExactQuery>, n: nat, bound: map<Subject, Id>, s: Subject, e: Id)
    requires n < |queries|
    ensures NamedExactly(records, queries, n + 1, bound, s, e) <==>
            HeldAlone(records, queries[n], bound, s, e)
            || (NamedExactly(records, queries, n, bound, s, e) && forall f: Id :: !HeldAlone(records, queries[n], bound, s, f))
  {
    hide HeldAlone;
    if NamedExactly(records, queries, n, bound, s, e) && forall f: Id :: !HeldAlone(records, queries[n], bound, s, f) {
      var i :| 0 <= i < n && HeldAlone(records, queries[i], bound, s, e)
               && forall j, f: Id :: i < j < n ==> !HeldAlone(records, queries[j], bound, s, f);
      assert forall j, f: Id :: i < j < n + 1 ==> !HeldAlone(records, queries[j], bound, s, f);
    }
  }

  lemma ExactNext(records: map<Assertion, Record>, queries: seq<ExactQuery>, n: nat, bound: map<Subject, Id>,
                  named: map<Subject, Id>, found: map<Subject, Id>)
    requires n < |queries| && ExactlyNamed(records, queries, n, bound, named)
    requires forall s: Subject, e: Id :: s in found && found[s] == e <==> HeldAlone(records, queries[n], bound, s, e)
    ensures ExactlyNamed(records, queries, n + 1, bound, named + found)
  {
    hide HeldAlone, NamedExactly;
    var next, joined := n + 1, named + found;
    forall s: Subject, e: Id
      ensures s in joined && joined[s] == e <==> NamedExactly(records, queries, next, bound, s, e)
    {
      NamedExactlyNext(records, queries, n, bound, s, e);
      if s in found {
        assert HeldAlone(records, queries[n], bound, s, found[s]);
      }
    }
  }

  /** How a file's records come to their masters: by the planner, the name rules and the exact-name rules in turn,
      with one LEI row for each record a name rule joins. */
  ghost predicate NamesJoined(t: Tables, staged: map<Assertion, Staged>, engine: Engine, bound: map<Subject, Id>,
                              held: map<Subject, Id>, leis: set<(Key, Id)>, stages: seq<Stage>, exact: map<Subject, Id>) {
    && RulesRun(t, engine.rules(t, staged), bound, stages)
    && var last := stages[|stages| - 1];
       var queries := engine.exact(t.(identifiers := t.identifiers + leis), staged);
       && leis == StatedLeis(last.named, last.values)
       && ExactlyNamed(t.records, queries, |queries|, last.bound + last.named, exact)
       && held == Held(Subjects(staged), last.bound + last.named + exact, last.named + exact)
  }

  lemma PlannedIs(was: Tables, staged: map<Assertion, Staged>, answer: Answer, stored: map<Subject, Id>, live: map<Subject, Id>,
                  bound: map<Subject, Id>)
    requires stored == StoredOf(was.records, Subjects(staged))
    requires live.Keys == stored.Keys && forall s :: s in stored ==> live[s] == Survivor(answer.merges, Created(was.masters), stored[s])
    requires forall s :: s in bound <==> s in live || LastBind(answer.binds, s).Some?
    requires forall s :: s in bound ==>
      bound[s] == if LastBind(answer.binds, s).Some?
                  then Survivor(answer.merges, Created(was.masters), LastBind(answer.binds, s).value) else live[s]
    ensures PlannedBound(was, staged, answer, bound)
  {
    hide Survivor, Created, MasterNow, LastBind, Subjects;
    SurvivorsAre(answer.merges, Created(was.masters));
    hide Survivors;
  }

  lemma JoinedIs(was: Tables, staged: map<Assertion, Staged>, engine: Engine, answer: Answer, mid: Tables, fileNo: nat,
                 moved: map<Id, Id>, survivors: set<Id>, bound: map<Subject, Id>, wider: map<Subject, Id>, named: map<Subject, Id>,
                 values: map<Subject, Lei>, stages: seq<Stage>, exact: map<Subject, Id>, held: map<Subject, Id>, leis: set<(Key, Id)>)
    requires answer == engine.plan(was, staged) && PlannedBound(was, staged, answer, bound)
    requires Applied(was, mid, Survivors(answer.merges, Created(was.masters)), fileNo, moved, survivors)
    requires RulesRun(mid, engine.rules(mid, staged), bound, stages)
    requires stages[|engine.rules(mid, staged)|] == Stage(wider, named, values) && named.Keys == values.Keys
    requires leis == StatedLeis(named, values)
    requires
      var queries := engine.exact(mid.(identifiers := mid.identifiers + leis), staged);
      ExactlyNamed(mid.records, queries, |queries|, wider + named, exact)
    requires held == Held(Subjects(staged), wider + named + exact, named + exact)
    ensures Joined(was, staged, engine, fileNo, moved, held, leis)
  {
    hide PlannedBound, ExactlyNamed, Survivors, Tracks, RuleStepAt, StatedLeis, Held, Aliased, Rehomed, RehomedIdentifiers;
    assert mid == Midway(was, Survivors(answer.merges, Created(was.masters)), moved, fileNo);
    assert NamesJoined(mid, staged, engine, bound, held, leis, stages, exact);
  }

  /** The tables once the file's merges are applied. */
  ghost function Midway(was: Tables, rep: Id -> Id, moved: map<Id, Id>, fileNo: nat): Tables {
    Tables(Aliased(was.masters, moved, fileNo), Rehomed(was.records, rep), RehomedIdentifiers(was.identifiers, rep), was.files)
  }

  ghost predicate Joined(was: Tables, staged: map<Assertion, Staged>, engine: Engine, fileNo: nat, moved: map<Id, Id>,
                         held: map<Subject, Id>, leis: set<(Key, Id)>) {
    var answer := engine.plan(was, staged);
    exists bound, stages, exact ::
      PlannedBound(was, staged, answer, bound)
      && NamesJoined(Midway(was, Survivors(answer.merges, Created(was.masters)), moved, fileNo), staged, engine, bound,
                     held, leis, stages, exact)
  }

  datatype Outcome = Skipped | RolledBack | Merged(moved: map<Id, Id>, held: map<Subject, Id>, leis: set<(Key, Id)>)

  function Subjects(staged: map<Assertion, Staged>): set<Subject> {
    set a | a in staged :: staged[a].subject
  }

  function Held(subjects: set<Subject>, bound: map<Subject, Id>, named: map<Subject, Id>): map<Subject, Id> {
    (map s | s in subjects && s in bound :: bound[s]) + named
  }

  ghost predicate NextFile(masters: map<Id, Master>, n: nat) {
    && n > 0
    && (forall e :: e in masters ==> masters[e].changedFile < n)
    && (n == 1 || exists e :: e in masters && masters[e].changedFile == n - 1)
  }

  /** The master each of the file's records is on: where it was, once the file's merges are applied, unless
      the planner binds it; a record the planner binds is where a binding of it puts it. */
  ghost predicate HeldFrom(was: Tables, staged: map<Assertion, Staged>, answer: Answer, held: map<Subject, Id>) {
    var rep := Survivors(answer.merges, Created(was.masters));
    && (forall s, e: Id :: s in Subjects(staged) && OnMaster(was.records, s, e) && (forall b :: b in answer.binds ==> b.0 != s) ==>
          s in held && held[s] == rep(e))
    && (forall b :: b in answer.binds && b.0 in Subjects(staged) ==>
          b.0 in held && exists c :: c in answer.binds && c.0 == b.0 && held[b.0] == rep(c.1))
  }

  /** A file merged: the tables it leaves. */
  ghost predicate MergedInto(was: Tables, now: Tables, key: FileKey, staged: map<Assertion, Staged>, engine: Engine, at: nat,
                             moved: map<Id, Id>, held: map<Subject, Id>, leis: set<(Key, Id)>) {
    var answer := engine.plan(was, staged);
    var rep := Survivors(answer.merges, Created(was.masters));
    && Tracks(moved, rep, Created(was.masters))
    && HeldFrom(was, staged, answer, held)
    && exists n: nat :: NextFile(was.masters, n)
         && Joined(was, staged, engine, n, moved, held, leis)
         && now == Finished(was, rep, moved, set x | x in moved :: rep(x), staged, held, leis, engine, n, at, key)
  }

  lemma MergedFiles(was: Tables, now: Tables, key: FileKey, staged: map<Assertion, Staged>, engine: Engine, at: nat,
                    moved: map<Id, Id>, held: map<Subject, Id>, leis: set<(Key, Id)>)
    requires MergedInto(was, now, key, staged, engine, at, moved, held, leis)
    ensures now.files == was.files + {key}
  {
  }

  /** A master that stands: stored as current or not stored, and given way by no decision of the file. */
  ghost predicate Stands(was: Tables, ds: seq<Decision>, e: Id) {
    Survivor(ds, Created(was.masters), e) == e && !IsAlias(was.masters, e)
  }

  lemma PlanNamesNoAlias(was: Tables, answer: Answer)
    requires Sound(was) && Legal(was, answer)
    ensures OneMasterEach(was.records)
    ensures forall e :: e in Ends(answer.merges) ==> !IsAlias(was.masters, e)
    ensures forall b :: b in answer.binds ==> !IsAlias(was.masters, b.1)
  {
  }

  /** After the merges, every row is on a master that stands. */
  lemma MergedRows(was: Tables, now: Tables, ds: seq<Decision>, fileNo: nat, moved: map<Id, Id>, survivors: set<Id>)
    requires Sound(was) && Applied(was, now, Survivors(ds, Created(was.masters)), fileNo, moved, survivors)
    requires forall e :: e in Ends(ds) ==> !IsAlias(was.masters, e)
    ensures Tracks(moved, Survivors(ds, Created(was.masters)), Created(was.masters))
    ensures survivors == set x | x in moved :: Survivors(ds, Created(was.masters))(x)
    ensures OneMasterEach(now.records)
    ensures forall s, e :: OnMaster(now.records, s, e) ==> Stands(was, ds, e)
  {
    forall s: Subject, e: Id | OnMaster(now.records, s, e)
      ensures Stands(was, ds, e)
    {
      var a :| a in now.records && now.records[a].subject == s && now.records[a].entity == Some(e);
      var before := was.records[a].entity.value;
      SurvivorStable(ds, Created(was.masters), before);
      StandsFor(was.masters, ds, before);
    }
  }

  lemma BoundStand(was: Tables, answer: Answer, known: map<Subject, Id>, live: map<Subject, Id>, bound: map<Subject, Id>)
    requires Sound(was)
    requires forall e :: e in Ends(answer.merges) ==> !IsAlias(was.masters, e)
    requires forall b :: b in answer.binds ==> !IsAlias(was.masters, b.1)
    requires forall s :: s in known ==> OnMaster(was.records, s, known[s])
    requires live.Keys == known.Keys && forall s :: s in live ==> live[s] == Survivor(answer.merges, Created(was.masters), known[s])
    requires forall s :: s in bound ==>
               (s in live && bound[s] == live[s])
               || exists b :: b in answer.binds && b.0 == s && bound[s] == Survivor(answer.merges, Created(was.masters), b.1)
    ensures forall s :: s in bound ==> Stands(was, answer.merges, bound[s])
  {
    forall s | s in bound
      ensures Stands(was, answer.merges, bound[s])
    {
      var e: Id :| !IsAlias(was.masters, e) && bound[s] == Survivor(answer.merges, Created(was.masters), e);
      SurvivorStable(answer.merges, Created(was.masters), e);
      StandsFor(was.masters, answer.merges, e);
    }
  }

  /** The merges and bindings of a file are done: every row and every bound subject is on a master that stands. */
  ghost predicate BoundReady(was: Tables, answer: Answer, records: map<Assertion, Record>, moved: map<Id, Id>, survivors: set<Id>,
                             bound: map<Subject, Id>) {
    && Tracks(moved, Survivors(answer.merges, Created(was.masters)), Created(was.masters))
    && survivors == (set x | x in moved :: Survivors(answer.merges, Created(was.masters))(x))
    && (forall e :: e in Ends(answer.merges) ==> !IsAlias(was.masters, e))
    && (forall s :: s in bound ==> Stands(was, answer.merges, bound[s]))
    && (forall s, e :: OnMaster(records, s, e) ==> Stands(was, answer.merges, e))
  }

  lemma BoundIsReady(was: Tables, answer: Answer, records: map<Assertion, Record>, moved: map<Id, Id>, survivors: set<Id>,
                     bound: map<Subject, Id>)
    requires Tracks(moved, Survivors(answer.merges, Created(was.masters)), Created(was.masters))
    requires survivors == set x | x in moved :: Survivors(answer.merges, Created(was.masters))(x)
    requires forall e :: e in Ends(answer.merges) ==> !IsAlias(was.masters, e)
    requires forall s :: s in bound ==> Stands(was, answer.merges, bound[s])
    requires forall s, e :: OnMaster(records, s, e) ==> Stands(was, answer.merges, e)
    ensures BoundReady(was, answer, records, moved, survivors, bound)
  {
  }

  /** Where a file's bindings come from: the stored master of each subject, and the planner's own bindings over them. */
  ghost predicate BoundFrom(was: Tables, staged: map<Assertion, Staged>, answer: Answer, known: map<Subject, Id>, bound: map<Subject, Id>) {
    && (forall a :: a in was.records && was.records[a].entity.Some? && was.records[a].subject in Subjects(staged) ==>
          was.records[a].subject in known && known[was.records[a].subject] == was.records[a].entity.value)
    && bound.Keys == known.Keys + (set b | b in answer.binds :: b.0)
    && forall s :: s in bound ==>
         (s in known && bound[s] == Survivor(answer.merges, Created(was.masters), known[s]) && forall b :: b in answer.binds ==> b.0 != s)
         || exists b :: b in answer.binds && b.0 == s && bound[s] == Survivor(answer.merges, Created(was.masters), b.1)
  }

  lemma BoundIsFrom(was: Tables, staged: map<Assertion, Staged>, answer: Answer, known: map<Subject, Id>, live: map<Subject, Id>,
                    bound: map<Subject, Id>)
    requires forall a :: a in was.records && was.records[a].entity.Some? && was.records[a].subject in Subjects(staged) ==>
               was.records[a].subject in known && known[was.records[a].subject] == was.records[a].entity.value
    requires live.Keys == known.Keys && forall s :: s in known ==> live[s] == Survivor(answer.merges, Created(was.masters), known[s])
    requires bound.Keys == live.Keys + set b | b in answer.binds :: b.0
    requires forall s :: s in bound ==>
               (s in live && bound[s] == live[s] && forall b :: b in answer.binds ==> b.0 != s)
               || exists b :: b in answer.binds && b.0 == s && bound[s] == Survivor(answer.merges, Created(was.masters), b.1)
    ensures BoundFrom(was, staged, answer, known, bound)
  {
    hide Survivor, Created;
  }

  lemma SurvivorsAre(ds: seq<Decision>, created: map<Id, nat>)
    ensures forall e: Id :: Survivors(ds, created)(e) == Survivor(ds, created, e)
  {
  }

  lemma HeldPrepared(was: Tables, answer: Answer, moved: map<Id, Id>, survivors: set<Id>, bound: map<Subject, Id>,
                     wider: map<Subject, Id>, named: map<Subject, Id>, exact: map<Subject, Id>, leis: set<(Key, Id)>,
                     subjects: set<Subject>, records: map<Assertion, Record>)
    requires BoundReady(was, answer, records, moved, survivors, bound)
    requires forall s :: s in bound ==> s in wider && wider[s] == bound[s]
    requires forall s :: s in wider && s !in bound ==> OnMaster(records, s, wider[s])
    requires named.Values <= wider.Values
    requires forall s :: s in exact ==> exact[s] in (wider + named).Values || exists u :: OnMaster(records, u, exact[s])
    requires forall i :: i in leis ==> i.1 in named.Values
    requires exact.Keys !! named.Keys
    ensures Prepared(was, answer.merges, moved, survivors, Held(subjects, wider + named + exact, named + exact), leis)
  {
    var held := Held(subjects, wider + named + exact, named + exact);
    WiderStands(was, answer, moved, survivors, bound, wider, named, records);
    ExactStands(was, answer, moved, survivors, bound, wider, named, exact, records);
    HeldComesFrom(subjects, wider, named, exact);
    hide *;
    NamedHeld(named, held, leis);
    assert forall s :: s in held ==> Stands(was, answer.merges, held[s]) by {
      forall s | s in held ensures Stands(was, answer.merges, held[s]) {
        assert held[s] in wider.Values + named.Values || held[s] in exact.Values;
      }
    }
    PreparedIs(was, answer, moved, survivors, bound, records, held, leis);
  }

  lemma NamedHeld(named: map<Subject, Id>, held: map<Subject, Id>, leis: set<(Key, Id)>)
    requires forall s :: s in named ==> s in held && held[s] == named[s]
    requires forall i :: i in leis ==> i.1 in named.Values
    ensures forall i :: i in leis ==> i.1 in held.Values
  {
    forall i | i in leis
      ensures i.1 in held.Values
    {
      var s :| s in named && named[s] == i.1;
      assert s in held && held[s] == i.1;
    }
  }

  lemma PreparedIs(was: Tables, answer: Answer, moved: map<Id, Id>, survivors: set<Id>, bound: map<Subject, Id>,
                   records: map<Assertion, Record>, held: map<Subject, Id>, leis: set<(Key, Id)>)
    requires BoundReady(was, answer, records, moved, survivors, bound)
    requires forall s :: s in held ==> Stands(was, answer.merges, held[s])
    requires forall i :: i in leis ==> i.1 in held.Values
    ensures Prepared(was, answer.merges, moved, survivors, held, leis)
  {
    hide OnMaster, Tracks, Ends;
    SurvivorsAre(answer.merges, Created(was.masters));
    hide Survivors, Survivor;
  }

  lemma WiderStands(was: Tables, answer: Answer, moved: map<Id, Id>, survivors: set<Id>, bound: map<Subject, Id>,
                    wider: map<Subject, Id>, named: map<Subject, Id>, records: map<Assertion, Record>)
    requires BoundReady(was, answer, records, moved, survivors, bound)
    requires forall s :: s in bound ==> s in wider && wider[s] == bound[s]
    requires forall s :: s in wider && s !in bound ==> OnMaster(records, s, wider[s])
    requires named.Values <= wider.Values
    ensures forall e :: e in wider.Values + named.Values ==> Stands(was, answer.merges, e)
  {
    hide Stands, OnMaster, Tracks, Ends;
    forall e | e in wider.Values
      ensures Stands(was, answer.merges, e)
    {
      var s :| s in wider && wider[s] == e;
    }
  }

  lemma ExactStands(was: Tables, answer: Answer, moved: map<Id, Id>, survivors: set<Id>, bound: map<Subject, Id>,
                    wider: map<Subject, Id>, named: map<Subject, Id>, exact: map<Subject, Id>, records: map<Assertion, Record>)
    requires BoundReady(was, answer, records, moved, survivors, bound)
    requires forall e :: e in wider.Values + named.Values ==> Stands(was, answer.merges, e)
    requires forall s :: s in exact ==> exact[s] in (wider + named).Values || exists u :: OnMaster(records, u, exact[s])
    ensures forall e :: e in exact.Values ==> Stands(was, answer.merges, e)
  {
    hide Stands, OnMaster, Tracks, Ends;
    forall e | e in exact.Values
      ensures Stands(was, answer.merges, e)
    {
      var s :| s in exact && exact[s] == e;
      if e in (wider + named).Values {
        var u :| u in wider + named && (wider + named)[u] == e;
        assert e in wider.Values || e in named.Values;
      }
    }
  }

  /** What is held is bound, named or matched by exact name, and every named master is held. */
  lemma HeldComesFrom(subjects: set<Subject>, wider: map<Subject, Id>, named: map<Subject, Id>, exact: map<Subject, Id>)
    requires exact.Keys !! named.Keys
    ensures
      var held := Held(subjects, wider + named + exact, named + exact);
      && (forall s :: s in held ==> held[s] in wider.Values || held[s] in named.Values || held[s] in exact.Values)
      && forall s :: s in named ==> s in held && held[s] == named[s]
  {
    var held := Held(subjects, wider + named + exact, named + exact);
    forall s | s in held
      ensures held[s] in wider.Values || held[s] in named.Values || held[s] in exact.Values
    {
      if s in exact {
        assert held[s] == exact[s];
      } else if s in named {
        assert held[s] == named[s];
      } else {
        assert held[s] == wider[s];
      }
    }
  }

  /** The tables once the file's records are matched and before its rows are written. */
  ghost predicate Matched(was: Tables, now: Tables, rep: Id -> Id, fileNo: nat, moved: map<Id, Id>, leis: set<(Key, Id)>) {
    now == Tables(Aliased(was.masters, moved, fileNo), Rehomed(was.records, rep),
                  RehomedIdentifiers(was.identifiers, rep) + leis, was.files)
  }

  lemma MatchedIs(was: Tables, mid: Tables, now: Tables, rep: Id -> Id, fileNo: nat, moved: map<Id, Id>, survivors: set<Id>,
                  leis: set<(Key, Id)>)
    requires Applied(was, mid, rep, fileNo, moved, survivors)
    requires now == mid.(identifiers := mid.identifiers + leis)
    ensures Matched(was, now, rep, fileNo, moved, leis)
  {
  }

  lemma LeisNamed(named: map<Subject, Id>, values: map<Subject, Lei>)
    requires named.Keys == values.Keys
    ensures forall i :: i in StatedLeis(named, values) ==> i.1 in named.Values
  {
  }

  lemma HeldKeepsBound(subjects: set<Subject>, bound: map<Subject, Id>, wider: map<Subject, Id>, named: map<Subject, Id>,
                       exact: map<Subject, Id>)
    requires forall s :: s in bound ==> s in wider && wider[s] == bound[s]
    requires named.Keys !! bound.Keys && exact.Keys !! (wider + named).Keys
    ensures
      var held := Held(subjects, wider + named + exact, named + exact);
      forall s :: s in bound && s in subjects ==> s in held && held[s] == bound[s]
  {
  }

  /** The rows and masters the statements wrote are the ones a finished file leaves. */
  lemma FinishedIs(was: Tables, mid: Tables, now: Tables, ds: seq<Decision>, moved: map<Id, Id>, survivors: set<Id>,
                   staged: map<Assertion, Staged>, held: map<Subject, Id>, leis: set<(Key, Id)>, engine: Engine,
                   fileNo: nat, at: nat, key: FileKey)
    requires Matched(was, mid, Survivors(ds, Created(was.masters)), fileNo, moved, leis)
    requires now.records == Saved(mid.records, staged, held)
    requires now.masters == Upserted(mid.masters, Bodies(Touched(held, survivors), now.records, engine.compose), fileNo, at)
    requires now.identifiers == mid.identifiers + ComposedIdentifiers(Touched(held, survivors), now.records, engine.compose)
    requires now.files == mid.files + {key}
    ensures now == Finished(was, Survivors(ds, Created(was.masters)), moved, survivors, staged, held, leis, engine, fileNo, at, key)
  {
  }

  lemma MergedIntoIs(was: Tables, now: Tables, key: FileKey, staged: map<Assertion, Staged>, engine: Engine, fileNo: nat, at: nat,
                     moved: map<Id, Id>, survivors: set<Id>, held: map<Subject, Id>, leis: set<(Key, Id)>)
    requires
      var ds := engine.plan(was, staged).merges;
      Prepared(was, ds, moved, survivors, held, leis)
      && now == Finished(was, Survivors(ds, Created(was.masters)), moved, survivors, staged, held, leis, engine, fileNo, at, key)
    requires HeldFrom(was, staged, engine.plan(was, staged), held) && NextFile(was.masters, fileNo)
    requires Joined(was, staged, engine, fileNo, moved, held, leis)
    ensures MergedInto(was, now, key, staged, engine, at, moved, held, leis)
  {
    hide Finished, HeldFrom, Joined;
  }

  lemma HeldSubjects(was: Tables, staged: map<Assertion, Staged>, answer: Answer, known: map<Subject, Id>,
                     bound: map<Subject, Id>, held: map<Subject, Id>)
    requires Sound(was) && BoundFrom(was, staged, answer, known, bound)
    requires forall s :: s in bound && s in Subjects(staged) ==> s in held && held[s] == bound[s]
    ensures HeldFrom(was, staged, answer, held)
    ensures forall a :: a in staged ==> SubjectHeld(was, held, staged[a].subject)
  {
    forall a | a in staged
      ensures SubjectHeld(was, held, staged[a].subject)
    {
      assert staged[a].subject in Subjects(staged);
    }
    forall b | b in answer.binds && b.0 in Subjects(staged)
      ensures b.0 in held && exists c :: c in answer.binds && c.0 == b.0 && held[b.0] == Survivor(answer.merges, Created(was.masters), c.1)
    {
      assert b.0 in bound;
    }
  }

  function StatedLeis(named: map<Subject, Id>, values: map<Subject, Lei>): set<(Key, Id)>
    requires named.Keys == values.Keys
  {
    set s | s in named :: (Key(LEI, values[s]), named[s])
  }

  lemma ValuesKept(after: map<Subject, Id>, wider: map<Subject, Id>, named: map<Subject, Id>, found: map<Subject, Id>)
    requires forall s :: s in after ==> s in wider && wider[s] == after[s]
    requires named.Values <= after.Values && found.Values <= wider.Values
    ensures (named + found).Values <= wider.Values
  {
    forall e | e in (named + found).Values
      ensures e in wider.Values
    {
      var s :| s in named + found && (named + found)[s] == e;
      if s !in found {
        assert e in named.Values;
        var u :| u in after && after[u] == e;
        assert wider[u] == e;
      }
    }
  }

  function Holding(identifiers: set<(Key, Id)>): set<Id> {
    set i | i in identifiers :: i.1
  }

  function LeisHeld(identifiers: set<(Key, Id)>): map<Id, set<Lei>> {
    map e | e in Holding(identifiers) ::
      set i | i in identifiers && i.0.namespace == LEI && i.1 == e :: i.0.value
  }

  lemma JoinedFromBound(pairs: seq<Pair>, bound: map<Subject, Id>, waiting: set<Subject>, named: map<Subject, Id>)
    requires JoinsOnlyReached(pairs, bound, waiting, named)
    ensures named.Values <= bound.Values
  {
    forall e | e in named.Values
      ensures e in bound.Values
    {
      var s :| s in named && named[s] == e;
      assert Reaches(pairs, |pairs|, bound, waiting, s, e);
    }
  }

  lemma ExactComesFrom(rule: ExactRule, members: seq<Member>, bound: map<Subject, Id>, s: Subject, e: Id)
    requires OneHolder(members, rule, bound, s, e)
    ensures s !in bound
    ensures exists i :: 0 <= i < |members| && IsOn(members[i], bound, e)
  {
    var v :| WaitsUnder(members, |members|, rule, bound, s, v) && Holds(members, |members|, rule, bound, v, e);
  }

  lemma NotAliasBefore(masters: map<Id, Master>, ds: seq<Decision>, done: seq<Decision>, d: Decision, created: map<Id, nat>)
    requires forall e :: e in Ends(ds) ==> !IsAlias(masters, e)
    requires d in ds && done <= ds
    ensures !IsAlias(masters, Survivor(done, created, d.0)) && !IsAlias(masters, Survivor(done, created, d.1))
  {
    SurvivorNamed(done, created, d.0);
    SurvivorNamed(done, created, d.1);
    assert Ends(done) <= Ends(ds) by {
      assert forall c :: c in done ==> c in ds;
    }
    assert d.0 in Ends(ds) && d.1 in Ends(ds);
  }

  // --- What a file leaves, row by row ------------------------------------------------------

  lemma RecordsLeft(records: map<Assertion, Record>, rep: Id -> Id, staged: map<Assertion, Staged>, held: map<Subject, Id>)
    ensures
      var now := Saved(Rehomed(records, rep), staged, held);
      && now.Keys == records.Keys + staged.Keys
      && (forall a :: a in records ==>
            var r, s := records[a], now[a];
            && s.subject == r.subject && s.text == r.text
            && s.entity == (if r.subject in held then Some(held[r.subject])
                            else if r.entity.Some? then Some(rep(r.entity.value)) else None)
            && (r.bound.Some? || r.subject !in held ==> s.bound == r.bound)
            && (r.bound.None? && r.entity.None? && r.subject in held ==> s.bound == Some(held[r.subject])))
      && (forall a :: a in staged && a !in records ==>
            var s := now[a];
            && s.subject == staged[a].subject && s.text == staged[a].text && s.bound == s.entity
            && s.entity == if staged[a].subject in held then Some(held[staged[a].subject]) else None)
  {
  }

  /** The tables a file leaves, said of each row: whose records go where, which masters are written and with what,
      and where each identifier row comes from. */
  lemma FileLeaves(was: Tables, rep: Id -> Id, moved: map<Id, Id>, survivors: set<Id>, staged: map<Assertion, Staged>,
                   held: map<Subject, Id>, leis: set<(Key, Id)>, engine: Engine, fileNo: nat, at: nat, key: FileKey)
    ensures
      var now := Finished(was, rep, moved, survivors, staged, held, leis, engine, fileNo, at, key);
      && now.files == was.files + {key}
      && now.records.Keys == was.records.Keys + staged.Keys
      && (forall a :: a in was.records ==>
            var r, s := was.records[a], now.records[a];
            && s.subject == r.subject && s.text == r.text
            && s.entity == (if r.subject in held then Some(held[r.subject])
                            else if r.entity.Some? then Some(rep(r.entity.value)) else None)
            && (r.bound.Some? || r.subject !in held ==> s.bound == r.bound)
            && (r.bound.None? && r.entity.None? && r.subject in held ==> s.bound == Some(held[r.subject])))
      && (forall a :: a in staged && a !in was.records ==>
            var s := now.records[a];
            && s.subject == staged[a].subject && s.text == staged[a].text && s.bound == s.entity
            && s.entity == if staged[a].subject in held then Some(held[staged[a].subject]) else None)
  {
    RecordsLeft(was.records, rep, staged, held);
    hide Saved, Rehomed;
  }

  lemma FileWrites(was: Tables, rep: Id -> Id, moved: map<Id, Id>, survivors: set<Id>, staged: map<Assertion, Staged>,
                   held: map<Subject, Id>, leis: set<(Key, Id)>, engine: Engine, fileNo: nat, at: nat, key: FileKey, e: Id)
    ensures
      var now := Finished(was, rep, moved, survivors, staged, held, leis, engine, fileNo, at, key);
      var touched := (exists s :: s in held && held[s] == e) || e in survivors;
      var made := engine.compose(e, map a | a in now.records && now.records[a].entity == Some(e) :: now.records[a]);
      && (touched ==>
            e in now.masters && now.masters[e].body == Body(e, made.text)
            && now.masters[e].created == (if e in was.masters then was.masters[e].created else at)
            && (now.masters[e].changedFile == fileNo || (e in was.masters && now.masters[e] == was.masters[e])))
      && (!touched ==> (e in now.masters <==> e in was.masters))
      && (!touched && e in was.masters ==>
            now.masters[e] == if e in moved then Master(Body(moved[e], ALIAS), fileNo, was.masters[e].created) else was.masters[e])
      && (forall k :: (k, e) in now.identifiers <==>
            (exists x :: (k, x) in was.identifiers && rep(x) == e) || (k, e) in leis || (touched && k in made.identifiers))
  {
    hide Saved, Rehomed;
    var now := Finished(was, rep, moved, survivors, staged, held, leis, engine, fileNo, at, key);
    assert e in Touched(held, survivors) <==> (exists s :: s in held && held[s] == e) || e in survivors;
    forall k ensures (k, e) in RehomedIdentifiers(was.identifiers, rep) <==> exists x :: (k, x) in was.identifiers && rep(x) == e {
    }
    forall k ensures (k, e) in ComposedIdentifiers(Touched(held, survivors), now.records, engine.compose) <==>
                     e in Touched(held, survivors) && k in engine.compose(e, Members(now.records, e)).identifiers {
    }
  }

  lemma FoundKeys(rule: NameRule, bound: map<Subject, Id>, waiting: set<Subject>, leis: map<Id, set<Lei>>,
                  named: map<Subject, Id>, values: map<Subject, Lei>)
    requires JoinsExactly(rule, bound, waiting, leis, named, values)
    ensures named.Keys == values.Keys <= waiting
  {
    hide Vetoed, LastStates;
  }

  /** A rule joins only records no earlier rule joined. */
  lemma StepGrows(t: Tables, rule: NameRule, before: Stage, after: Stage, found: map<Subject, Id>, stated: map<Subject, Lei>)
    requires RuleStep(t, rule, before, after, found, stated) && before.named.Keys == before.values.Keys
    ensures found.Keys == stated.Keys && found.Keys !! before.named.Keys
    ensures found == after.named - before.named.Keys && stated == after.values - before.values.Keys
    ensures forall s :: s in before.named ==>
              s in after.named && s in after.values
              && after.named[s] == before.named[s] && after.values[s] == before.values[s]
  {
    hide JoinsExactly, StoredOf, LeisHeld, Candidates, PairHolders;
    FoundKeys(rule, after.bound, WaitingAt(rule, before, after), LeisHeld(t.identifiers), found, stated);
  }

  /** What a rule joined stays joined to the end of the rules. */
  lemma {:induction false} NamedStays(t: Tables, rules: seq<NameRule>, bound: map<Subject, Id>, stages: seq<Stage>, i: nat, j: nat, s: Subject)
    requires RulesRun(t, rules, bound, stages) && i <= j <= |rules| && s in stages[i].named
    ensures s in stages[j].named && stages[j].named[s] == stages[i].named[s] && stages[j].values[s] == stages[i].values[s]
    decreases j
  {
    hide RuleStep;
    if i < j {
      var k := j - 1;
      NamedStays(t, rules, bound, stages, i, k, s);
      assert RuleStepAt(t, rules, stages, k);
      var found, stated :| RuleStep(t, rules[k], stages[k], stages[k + 1], found, stated);
      StepGrows(t, rules[k], stages[k], stages[k + 1], found, stated);
    }
  }

  /** No record that a name rule joined, or that has a master, is matched by an exact name. */
  lemma ExactElsewhere(records: map<Assertion, Record>, queries: seq<ExactQuery>, n: nat, bound: map<Subject, Id>, exact: map<Subject, Id>)
    requires n <= |queries| && ExactlyNamed(records, queries, n, bound, exact)
    ensures exact.Keys !! bound.Keys
  {
    hide OneHolder;
    forall s | s in exact ensures s !in bound {
      assert NamedExactly(records, queries, n, bound, s, exact[s]);
      var i :| 0 <= i < n && HeldAlone(records, queries[i], bound, s, exact[s]);
      ExactComesFrom(queries[i].rule, MembersOf(records, queries[i].names), bound, s, exact[s]);
    }
  }

  lemma VetoesForHeld(identifiers: set<(Key, Id)>, e: Id, l: Lei)
    ensures (exists v :: v in LeisOf(LeisHeld(identifiers), e) && v != l) <==>
            exists v: Lei :: v != l && (Key(LEI, v), e) in identifiers
  {
    var held := LeisHeld(identifiers);
    if v: Lei :| v != l && (Key(LEI, v), e) in identifiers {
      assert e in held && v in held[e];
    }
    forall v | v in LeisOf(held, e) ensures (Key(LEI, v), e) in identifiers {
      var i :| i in identifiers && i.0.namespace == LEI && i.1 == e && i.0.value == v;
      assert i == (Key(LEI, v), e);
    }
  }

  /** A record that waits when a rule starts, and whose passing pairs reach one master, is saved on that master and
      gives it the LEI it states, unless the rule vetoes the master: it holds another LEI, or an earlier record that
      the rule joined to it states another. Then the rule leaves the record waiting. */
  lemma FileJoinsByName(t: Tables, staged: map<Assertion, Staged>, engine: Engine, bound: map<Subject, Id>, held: map<Subject, Id>,
                        leis: set<(Key, Id)>, stages: seq<Stage>, exact: map<Subject, Id>, i: nat, s: Subject, e: Id, l: Lei)
    requires NamesJoined(t, staged, engine, bound, held, leis, stages, exact) && i < |engine.rules(t, staged)|
    requires
      var rule := engine.rules(t, staged)[i];
      var waiting := WaitingAt(rule, stages[i], stages[i + 1]);
      ReachesOnly(rule.pairs, stages[i + 1].bound, waiting, s, e)
      && LastStates(rule.pairs, |rule.pairs|, stages[i + 1].bound, waiting, s, l)
    ensures
      var rule := engine.rules(t, staged)[i];
      var found, stated := stages[i + 1].named - stages[i].named.Keys, stages[i + 1].values - stages[i].values.Keys;
      var waiting := WaitingAt(rule, stages[i], stages[i + 1]);
      if rule.vetoes
         && ((exists v: Lei :: v != l && (Key(LEI, v), e) in t.identifiers)
             || exists u: Subject :: u in found && found[u] == e && u in stated && stated[u] != l
                                     && ReachedBefore(rule.pairs, stages[i + 1].bound, waiting, u, s))
      then s !in stages[i + 1].named
      else s in held && held[s] == e && (Key(LEI, l), e) in leis
  {
    VetoesForHeld(t.identifiers, e, l);
    hide LeisOf, ReachedBefore;
    hide JoinsExactly, ReachesOnly, LastStates, ExactlyNamed, LeisHeld;
    var rules := engine.rules(t, staged);
    var rule, before, after := rules[i], stages[i], stages[i + 1];
    assert RuleStepAt(t, rules, stages, i);
    var found, stated :| RuleStep(t, rule, before, after, found, stated);
    StepFinds(t, rule, before, after, found, stated, s, e, l);
    if s in found {
      NamedStays(t, rules, bound, stages, i + 1, |rules|, s);
      var last := stages[|stages| - 1];
      var queries := engine.exact(t.(identifiers := t.identifiers + leis), staged);
      ExactElsewhere(t.records, queries, |queries|, last.bound + last.named, exact);
    }
  }

  /** Each record of the file is saved on the master it alone shares its name with, or a name rule joins it to, or it
      had, in that order; and with none of these it is saved waiting. */
  lemma FileHolds(t: Tables, staged: map<Assertion, Staged>, engine: Engine, bound: map<Subject, Id>, held: map<Subject, Id>,
                  leis: set<(Key, Id)>, stages: seq<Stage>, exact: map<Subject, Id>, s: Subject)
    requires NamesJoined(t, staged, engine, bound, held, leis, stages, exact) && s in Subjects(staged)
    ensures
      var last := stages[|stages| - 1];
      var queries := engine.exact(t.(identifiers := t.identifiers + leis), staged);
      var before := last.bound + last.named;
      && (forall e: Id :: NamedExactly(t.records, queries, |queries|, before, s, e) ==> s !in before && s in held && held[s] == e)
      && (s in last.named ==> s in held && held[s] == last.named[s])
      && (s in last.bound && s !in last.named ==> s in held && held[s] == last.bound[s])
      && (s in held ==> s in before || NamedExactly(t.records, queries, |queries|, before, s, held[s]))
  {
    hide RuleStepAt, NamedExactly;
    var last := stages[|stages| - 1];
    var queries := engine.exact(t.(identifiers := t.identifiers + leis), staged);
    ExactElsewhere(t.records, queries, |queries|, last.bound + last.named, exact);
  }

  lemma StepFinds(t: Tables, rule: NameRule, before: Stage, after: Stage, found: map<Subject, Id>, stated: map<Subject, Lei>,
                  s: Subject, e: Id, l: Lei)
    requires RuleStep(t, rule, before, after, found, stated) && before.named.Keys == before.values.Keys
    requires ReachesOnly(rule.pairs, after.bound, WaitingAt(rule, before, after), s, e)
    requires LastStates(rule.pairs, |rule.pairs|, after.bound, WaitingAt(rule, before, after), s, l)
    ensures found.Keys == stated.Keys && found.Keys !! before.named.Keys
    ensures found == after.named - before.named.Keys && stated == after.values - before.values.Keys
    ensures s in found <==>
      !(rule.vetoes && Vetoed(rule.pairs, after.bound, WaitingAt(rule, before, after), LeisHeld(t.identifiers), found, stated, s, e, l))
    ensures s !in before.named && (s in found ==> found[s] == e && stated[s] == l)
  {
    hide StoredOf, LeisHeld, Candidates, PairHolders, WaitingAt;
    var waiting := WaitingAt(rule, before, after);
    StepGrows(t, rule, before, after, found, stated);
    WaitsNow(rule, before, after, s, e);
    FoundIs(rule, after.bound, waiting, LeisHeld(t.identifiers), found, stated, s, e, l);
  }

  lemma WaitsNow(rule: NameRule, before: Stage, after: Stage, s: Subject, e: Id)
    requires ReachesOnly(rule.pairs, after.bound, WaitingAt(rule, before, after), s, e)
    ensures s in WaitingAt(rule, before, after) && s !in before.named
  {
  }

  lemma FoundIs(rule: NameRule, bound: map<Subject, Id>, waiting: set<Subject>, leis: map<Id, set<Lei>>,
                named: map<Subject, Id>, values: map<Subject, Lei>, s: Subject, e: Id, l: Lei)
    requires JoinsExactly(rule, bound, waiting, leis, named, values)
    requires ReachesOnly(rule.pairs, bound, waiting, s, e) && LastStates(rule.pairs, |rule.pairs|, bound, waiting, s, l)
    ensures named.Keys == values.Keys
    ensures s in named <==> !(rule.vetoes && Vetoed(rule.pairs, bound, waiting, leis, named, values, s, e, l))
    ensures s in named ==> named[s] == e && values[s] == l
  {
    hide LastStates, Vetoed;
    if s in named {
      OneLast(rule.pairs, bound, waiting, s, values[s], l);
    }
  }

  lemma NoMerges(created: map<Id, nat>)
    ensures forall x: Id :: Survivors([], created)(x) == x
  {
    forall x: Id ensures Survivor([], created, x) == x {
      SurvivorOutside([], created, x);
    }
    SurvivorsAre([], created);
  }

  /** A whole file with one passing pair: the waiting record it delivers is saved on the master of the pair's holder,
      which takes the LEI the record states. */
  lemma PairJoins(was: Tables, now: Tables, key: FileKey, staged: map<Assertion, Staged>, engine: Engine, at: nat,
                  moved: map<Id, Id>, held: map<Subject, Id>, leis: set<(Key, Id)>, a: Assertion, h: Subject, e: Id, l: Lei)
    requires Sound(was) && MergedInto(was, now, key, staged, engine, at, moved, held, leis)
    requires engine.plan(was, staged) == Answer([], [])
    requires a in staged && a !in was.records
    requires forall t :: engine.rules(t, staged) == [NameRule(false, [Pair(staged[a].subject, h, l, true)])]
    requires OnMaster(was.records, h, e) && h !in Subjects(staged) && MasterNow(was.records, staged[a].subject) == None
    ensures a in now.records && now.records[a].entity == Some(e) && (Key(LEI, l), e) in now.identifiers
  {
    PlansNothing(was);
    hide *;
    var n := MergedAt(was, now, key, staged, engine, at, moved, held, leis);
    PairHeld(was, staged, engine, n, moved, held, leis, staged[a].subject, h, e, l);
    var rep := Survivors([], Created(was.masters));
    var survivors := set x | x in moved :: rep(x);
    FileLeaves(was, rep, moved, survivors, staged, held, leis, engine, n, at, key);
    FileWrites(was, rep, moved, survivors, staged, held, leis, engine, n, at, key, e);
  }

  lemma MergedAt(was: Tables, now: Tables, key: FileKey, staged: map<Assertion, Staged>, engine: Engine, at: nat,
                 moved: map<Id, Id>, held: map<Subject, Id>, leis: set<(Key, Id)>) returns (n: nat)
    requires MergedInto(was, now, key, staged, engine, at, moved, held, leis)
    ensures
      var rep := Survivors(engine.plan(was, staged).merges, Created(was.masters));
      NextFile(was.masters, n) && Joined(was, staged, engine, n, moved, held, leis)
      && now == Finished(was, rep, moved, set x | x in moved :: rep(x), staged, held, leis, engine, n, at, key)
  {
    hide Finished, Joined, NextFile, HeldFrom, Tracks, Survivors;
    var rep := Survivors(engine.plan(was, staged).merges, Created(was.masters));
    n :| NextFile(was.masters, n) && Joined(was, staged, engine, n, moved, held, leis)
         && now == Finished(was, rep, moved, set x | x in moved :: rep(x), staged, held, leis, engine, n, at, key);
  }

  lemma PlansNothing(was: Tables)
    requires Sound(was)
    ensures OneMasterEach(was.records)
  {
  }

  lemma PairHeld(was: Tables, staged: map<Assertion, Staged>, engine: Engine, n: nat, moved: map<Id, Id>, held: map<Subject, Id>,
                 leis: set<(Key, Id)>, s: Subject, h: Subject, e: Id, l: Lei)
    requires OneMasterEach(was.records) && Joined(was, staged, engine, n, moved, held, leis)
    requires engine.plan(was, staged) == Answer([], [])
    requires forall t :: engine.rules(t, staged) == [NameRule(false, [Pair(s, h, l, true)])]
    requires OnMaster(was.records, h, e) && h !in Subjects(staged) && MasterNow(was.records, s) == None
    ensures s in held && held[s] == e && (Key(LEI, l), e) in leis
  {
    hide OnMaster, OneMasterEach, MasterNow, Survivors, PlannedBound, RulesRun, ExactlyNamed, ReachesOnly, LastStates, Vetoed;
    var rule := NameRule(false, [Pair(s, h, l, true)]);
    var mid := Midway(was, Survivors([], Created(was.masters)), moved, n);
    var bound, stages, exact :| PlannedBound(was, staged, Answer([], []), bound)
                                && NamesJoined(mid, staged, engine, bound, held, leis, stages, exact);
    hide Midway;
    PairReaches(was, mid, staged, bound, stages, rule, s, h, e, l);
    FileJoinsByName(mid, staged, engine, bound, held, leis, stages, exact, 0, s, e, l);
  }

  lemma PairReaches(was: Tables, mid: Tables, staged: map<Assertion, Staged>, bound: map<Subject, Id>, stages: seq<Stage>,
                    rule: NameRule, s: Subject, h: Subject, e: Id, l: Lei)
    requires OneMasterEach(was.records) && PlannedBound(was, staged, Answer([], []), bound)
    requires rule == NameRule(false, [Pair(s, h, l, true)]) && RulesRun(mid, [rule], bound, stages)
    requires mid.records == Rehomed(was.records, Survivors([], Created(was.masters)))
    requires OnMaster(was.records, h, e) && h !in Subjects(staged) && MasterNow(was.records, s) == None
    ensures
      var waiting := WaitingAt(rule, stages[0], stages[1]);
      ReachesOnly(rule.pairs, stages[1].bound, waiting, s, e) && LastStates(rule.pairs, 1, stages[1].bound, waiting, s, l)
  {
    hide JoinsExactly, LeisHeld;
    NoMerges(Created(was.masters));
    assert mid.records == was.records;
    assert RuleStepAt(mid, [rule], stages, 0);
    MasterIs(was.records, h, e);
    hide OnMaster, OneMasterEach, MasterNow;
    assert rule.pairs[0] == Pair(s, h, l, true);
    assert LastBind([], s) == None && LastBind([], h) == None;
    assert s in Candidates(rule) && h in PairHolders(rule);
    var after, waiting := stages[1].bound, WaitingAt(rule, stages[0], stages[1]);
    assert s !in bound && h !in bound;
    assert h in after && after[h] == e && s !in after;
    assert Matches(rule.pairs, after, waiting, 0, s);
  }

  // --- Runs of files, and a split ----------------------------------------------------------

  datatype Delivery = Delivery(key: FileKey, staged: map<Assertion, Staged>, engine: Engine, again: bool, now: nat)

  ghost predicate Plans(engine: Engine) {
    forall t, s :: Sound(t) ==> Legal(t, engine.plan(t, s))
  }

  lemma SoundAscends(t: Tables)
    requires Sound(t)
    ensures AliasesAscend(t.masters)
  {
  }

  /** What a delivery does: nothing to a finished file but a second delivery of one with records, a mark for a file
      without records, and else the file's merge. */
  ghost predicate Delivered(t: Tables, d: Delivery, u: Tables) {
    if d.key in t.files && (!d.again || d.staged == map[]) then u == t
    else if d.staged == map[] then u == t.(files := t.files + {d.key})
    else exists moved, held, leis :: MergedInto(t, u, d.key, d.staged, d.engine, d.now, moved, held, leis)
  }

  ghost predicate DeliveredAt(trace: seq<Tables>, deliveries: seq<Delivery>, i: nat)
    requires |trace| == |deliveries| + 1 && i < |deliveries|
  {
    Delivered(trace[i], deliveries[i], trace[i + 1])
  }

  lemma TraceGrows(trace: seq<Tables>, deliveries: seq<Delivery>, d: Delivery, u: Tables)
    requires |trace| == |deliveries| + 1 && Delivered(trace[|deliveries|], d, u)
    requires forall j: nat :: j < |deliveries| ==> DeliveredAt(trace, deliveries, j)
    ensures forall j: nat :: j <= |deliveries| ==> DeliveredAt(trace + [u], deliveries + [d], j)
  {
    hide Delivered;
    forall j: nat | j <= |deliveries| ensures DeliveredAt(trace + [u], deliveries + [d], j) {
      if j < |deliveries| {
        assert DeliveredAt(trace, deliveries, j);
      }
    }
  }

  /** Any run of files keeps the tables sound. No id is lost, and each answers as whatever the master it
      answered as before the run answers as. */
  method Replay(store: Store, deliveries: seq<Delivery>) returns (ghost trace: seq<Tables>)
    requires Sound(store.Now())
    requires forall d :: d in deliveries ==> Plans(d.engine)
    modifies store
    ensures |trace| == |deliveries| + 1 && trace[0] == old(store.Now()) && trace[|deliveries|] == store.Now()
    ensures forall i: nat :: i < |deliveries| ==> DeliveredAt(trace, deliveries, i)
    ensures Sound(store.Now()) && Follows(old(store.masters), store.masters)
    ensures forall e :: e in old(store.masters) ==>
              Resolve(store.masters, e) == Resolve(store.masters, Resolve(old(store.masters), e))
    ensures store.files == old(store.files) + set d | d in deliveries :: d.key
  {
    hide Follows, Legal, Resolve, MergedInto, Sound;
    ghost var was := store.masters;
    FollowsSelf(was);
    SoundAscends(store.Now());
    trace := [store.Now()];
    for i := 0 to |deliveries|
      invariant Sound(store.Now()) && Follows(was, store.masters)
      invariant |trace| == i + 1 && trace[0] == old(store.Now()) && trace[i] == store.Now()
      invariant forall j: nat :: j < i ==> DeliveredAt(trace, deliveries[..i], j)
      invariant store.files == old(store.files) + set d | d in deliveries[..i] :: d.key
    {
      var d := deliveries[i];
      assert deliveries[..i + 1] == deliveries[..i] + [d];
      ghost var before, tables := store.masters, store.Now();
      var r := store.MergeFile(d.key, d.staged, d.engine, d.again, d.now);
      FollowsTransitive(was, before, store.masters);
      if r.Merged? && d.staged != map[] {
        MergedFiles(tables, store.Now(), d.key, d.staged, d.engine, d.now, r.moved, r.held, r.leis);
        assert store.files == old(store.files) + (set d | d in deliveries[..i] :: d.key) + {d.key};
      }
      assert Delivered(tables, d, store.Now());
      TraceGrows(trace, deliveries[..i], d, store.Now());
      trace := trace + [store.Now()];
    }
    assert deliveries[..|deliveries|] == deliveries;
    SoundAscends(store.Now());
    FollowsKeeps(was, store.masters);
    forall e | e in was
      ensures Resolve(store.masters, e) == Resolve(store.masters, Resolve(was, e))
    {
      ResolveFollows(was, store.masters, e);
    }
  }

  // --- Taking a merge back -------------------------------------------------------------------

  function SplitRecord(r: Record, keep: Id, gone: Id): Record {
    if r.entity == Some(keep) && r.bound == Some(gone) then r.(entity := Some(gone)) else r
  }

  /** The tables after a split. */
  function Parted(t: Tables, keep: Id, gone: Id): Tables {
    t.(records := map a | a in t.records :: SplitRecord(t.records[a], keep, gone),
       identifiers := set i | i in t.identifiers && i.1 != keep)
  }

  /** A record that returns: it is on the kept master, and was first bound to the other. */
  predicate Returns(t: Tables, a: Assertion, keep: Id, gone: Id) {
    a in t.records && t.records[a].entity == Some(keep) && t.records[a].bound == Some(gone)
  }

  /** A split right after a merge returns every record to where it was exactly when the returned master had
      taken in no record first bound elsewhere, and the kept one held none first bound to it. Both masters'
      identifier rows are gone, and a stored master stays an alias, so it undoes the whole merge only of a master
      not stored yet where neither held an identifier. */
  lemma SplitUndoesMerge(t: Tables, keep: Id, gone: Id, fileNo: nat)
    requires keep != gone && !IsAlias(t.masters, gone)
    ensures
      var u := Parted(MergedTwo(t, keep, gone, fileNo), keep, gone);
      var returned := forall a :: a in t.records ==>
        (t.records[a].entity == Some(gone) ==> t.records[a].bound == Some(gone))
        && (t.records[a].entity == Some(keep) ==> t.records[a].bound != Some(gone));
      && (u.records == t.records <==> returned)
      && u.identifiers == (set i | i in t.identifiers && i.1 != keep && i.1 != gone)
      && (gone in t.masters ==> IsAlias(u.masters, gone))
      && (u == t <==> returned && gone !in t.masters && forall i :: i in t.identifiers ==> i.1 != keep && i.1 != gone)
  {
  }

  /** The records of each subject on the kept master all return, or none does. */
  ghost predicate WholeSubjects(t: Tables, keep: Id, gone: Id) {
    forall a, b :: Returns(t, a, keep, gone) && b in t.records && t.records[b].subject == t.records[a].subject ==>
      Returns(t, b, keep, gone)
  }

  /** A split leaves the tables sound exactly when it returns nothing: the returned master is still an alias.
      Once its own body is written again they are sound exactly when it parted no subject's records, which
      records added to a subject after the merge do. */
  lemma SplitSoundIff(t: Tables, keep: Id, gone: Id, text: int, fileNo: nat, now: nat)
    requires Sound(t) && IsAlias(t.masters, gone) && keep != gone
    ensures
      var u := Parted(t, keep, gone);
      && (Sound(u) <==> forall a :: !Returns(t, a, keep, gone))
      && (Sound(u.(masters := Upserted(u.masters, map[gone := Body(gone, text)], fileNo, now))) <==> WholeSubjects(t, keep, gone))
  {
    var u := Parted(t, keep, gone);
    var v := u.(masters := Upserted(u.masters, map[gone := Body(gone, text)], fileNo, now));
    if a :| Returns(t, a, keep, gone) {
      assert u.records[a].entity == Some(gone);
    } else {
      forall a | a in t.records ensures u.records[a] == t.records[a] {
        assert !Returns(t, a, keep, gone);
      }
      assert u.records == t.records;
    }
    RewrittenAscends(t.masters, v.masters, gone, text);
    PartedTogether(t, keep, gone);
    assert forall e :: IsCurrent(t.masters, e) || e == gone ==> IsCurrent(v.masters, e);
    assert forall a :: a in v.records && v.records[a].entity.Some? ==> IsCurrent(v.masters, v.records[a].entity.value);
  }

  /** Masters 1 and 2 once merged, and subject 7 with a record from before the merge, first bound to 2, and one that
      came after it. */
  function MergedWithLater(): Tables {
    Tables(map[1 := Master(Body(1, 5), 1, 0), 2 := Master(Body(1, ALIAS), 2, 1)],
           map[10 := Record(7, Some(1), Some(2), 0), 11 := Record(7, Some(1), Some(1), 0)], {}, {})
  }

  /** Taking that merge back parts the subject: its records are on two masters, also once master 2 is written again. */
  lemma SplitPartsSubject(text: int, fileNo: nat, now: nat)
    ensures
      var t := MergedWithLater();
      var u := Parted(t, 1, 2);
      && Sound(t) && u.records[10].entity == Some(2) && u.records[11].entity == Some(1)
      && !Sound(u.(masters := Upserted(u.masters, map[2 := Body(2, text)], fileNo, now)))
  {
    var t := MergedWithLater();
    MergedWithLaterSound();
    SplitSoundIff(t, 1, 2, text, fileNo, now);
    hide Sound, Upserted;
    assert Returns(t, 10, 1, 2) && !Returns(t, 11, 1, 2) && t.records[11].subject == t.records[10].subject;
  }

  lemma MergedWithLaterSound()
    ensures Sound(MergedWithLater()) && IsAlias(MergedWithLater().masters, 2)
  {
  }

  lemma PartedTogether(t: Tables, keep: Id, gone: Id)
    requires OneMasterEach(t.records) && keep != gone
    ensures OneMasterEach(Parted(t, keep, gone).records) <==> WholeSubjects(t, keep, gone)
  {
    var records := Parted(t, keep, gone).records;
    if a, b :| Returns(t, a, keep, gone) && b in t.records && t.records[b].subject == t.records[a].subject
               && !Returns(t, b, keep, gone) {
      assert records[a].entity == Some(gone) && records[b].entity == Some(keep);
      assert records[a].subject == records[b].subject;
    } else {
      forall a, b | a in records && b in records && records[a].subject == records[b].subject
        ensures records[a].entity == records[b].entity
      {
        assert t.records[a].entity == t.records[b].entity;
        assert Returns(t, a, keep, gone) == Returns(t, b, keep, gone);
      }
    }
  }

  /** An alias written as itself again takes no other alias's way. */
  lemma RewrittenAscends(was: map<Id, Master>, now: map<Id, Master>, gone: Id, text: int)
    requires AliasesAscend(was) && gone in was && now.Keys == was.Keys
    requires now[gone].body == Body(gone, text) && now[gone].created == was[gone].created
    requires forall e :: e in was && e != gone ==> now[e] == was[e]
    ensures AliasesAscend(now)
  {
    assert Created(now) == Created(was);
    forall a | IsAlias(now, a)
      ensures now[a].body.canonical in now && Before(Created(now), now[a].body.canonical, a)
    {
      assert IsAlias(was, a);
    }
  }
}
