/** The reference data guards: what the row triggers admit, and what therefore holds of every version after
    any sequence of row changes. */
module Lifecycle {
  import opened Prelude

  type Name = string
  type Time = nat

  datatype Status = Draft | Approved | Published | Retired

  function Rank(s: Status): nat {
    match s case Draft => 1 case Approved => 2 case Published => 3 case Retired => 4
  }

  // A version's row. Its key is its code set and its own name.
  datatype Version = Version(status: Status, createdBy: string, createdAt: Time, supersedes: Option<Name>, evidence: string,
                             approvedBy: Option<string>, approvedWords: Option<string>, approvedAt: Option<Time>,
                             publishedAt: Option<Time>, sha256: Option<string>, validFrom: Option<Time>, validTo: Option<Time>)

  datatype Key = Key(codeSet: Name, version: Name)

  // A content row: its table, its version and the rest of its key.
  datatype Kind = Code | Label | Level | Crosswalk | Usage | Hint
  datatype RowKey = RowKey(kind: Kind, version: Key, name: Name)

  datatype Tables = Tables(versions: map<Key, Version>, content: map<RowKey, string>, paths: map<RowKey, string>)

  predicate Live(v: Version) {
    v.status == Published || v.status == Retired
  }

  predicate Blank(s: Option<string>) {
    s.None? || forall i :: 0 <= i < |s.value| ==> s.value[i] == ' '
  }

  /** A new version is a draft nothing has been decided about. */
  predicate Unapproved(v: Version) {
    && v.status == Draft && v.approvedBy.None? && v.approvedWords.None? && v.approvedAt.None?
    && v.publishedAt.None? && v.sha256.None? && v.validFrom.None? && v.validTo.None?
  }

  // --- What one version's row says in each status ----------------------------------------------------

  predicate ApprovalHeld(v: Version) {
    !Blank(v.approvedBy) && !Blank(v.approvedWords) && v.approvedAt.Some? && v.approvedBy.value != v.createdBy
  }

  predicate PublicationHeld(v: Version) {
    v.sha256.Some? && v.validFrom.Some? && v.publishedAt.Some? && (v.validTo.Some? ==> v.validFrom.value <= v.validTo.value)
  }

  predicate Sane(v: Version) {
    match v.status
    case Draft => Unapproved(v)
    case Approved => ApprovalHeld(v) && v.sha256.None? && v.validFrom.None? && v.publishedAt.None? && v.validTo.None?
    case Published => ApprovalHeld(v) && PublicationHeld(v)
    case Retired => ApprovalHeld(v) && PublicationHeld(v) && v.validTo.Some?
  }

  // --- What a row update may do -------------------------------------------------------------------------

  predicate Redrafts(was: Version, v: Version) {
    was.status == Draft && v == was.(evidence := v.evidence)
  }

  predicate Approves(was: Version, v: Version, now: Time) {
    && was.status == Draft && ApprovalHeld(v)
    && v == was.(status := Approved, evidence := v.evidence, approvedBy := v.approvedBy,
                 approvedWords := v.approvedWords, approvedAt := Some(now))
  }

  /** The other versions of a set that have been published. */
  function Rivals(t: Tables, key: Key): set<Key> {
    set k | k in t.versions && k.codeSet == key.codeSet && k != key && Live(t.versions[k])
  }

  function ValidFrom(versions: map<Key, Version>, k: Key): Time
    requires k in versions
  {
    var from := versions[k].validFrom;
    if from.Some? then from.value else 0
  }

  /** The version a new one replaces: none when it is its set's first, else one no rival is valid after. */
  predicate Replaces(t: Tables, key: Key, supersedes: Option<Name>) {
    match supersedes
    case None => Rivals(t, key) == {}
    case Some(u) => Key(key.codeSet, u) in Rivals(t, key)
                    && forall k :: k in Rivals(t, key) ==> ValidFrom(t.versions, k) <= ValidFrom(t.versions, Key(key.codeSet, u))
  }

  predicate PathForEveryCode(t: Tables, key: Key) {
    forall r :: r in t.content && r.kind == Code && r.version == key ==> r in t.paths
  }

  predicate Publishes(t: Tables, key: Key, was: Version, v: Version, now: Time) {
    && was.status == Approved && v.sha256.Some? && v.validFrom.Some?
    && v == was.(status := Published, sha256 := v.sha256, validFrom := v.validFrom, publishedAt := Some(now))
    && Replaces(t, key, v.supersedes) && PathForEveryCode(t, key)
  }

  predicate Ends(was: Version, v: Version) {
    && v.validTo.Some? && (was.validTo.None? || was.validTo == v.validTo)
    && was.validFrom.Some? && was.validFrom.value <= v.validTo.value
  }

  predicate Closes(was: Version, v: Version) {
    was.status == Published && Ends(was, v) && v == was.(validTo := v.validTo)
  }

  predicate Retires(was: Version, v: Version) {
    was.status == Published && Ends(was, v) && v == was.(status := Retired, validTo := v.validTo)
  }

  /** The six things an admitted update can be. */
  predicate Moves(t: Tables, key: Key, was: Version, v: Version, now: Time) {
    v == was || Redrafts(was, v) || Approves(was, v, now) || Publishes(t, key, was, v, now) || Closes(was, v) || Retires(was, v)
  }

  /** What the trigger writes over what was asked: the times of approval, publication and retirement. */
  function Stamped(was: Version, asked: Version, now: Time): Version {
    var approved := if was.status == Draft && asked.status == Approved then asked.(approvedAt := Some(now)) else asked;
    var published :=
      if was.status == Approved && asked.status == Published then approved.(publishedAt := Some(now)) else approved;
    if was.status == Published && asked.status == Retired && was.validTo.None? && asked.validTo.None?
    then published.(validTo := Some(now))
    else published
  }

  predicate Publishing(was: Version, asked: Version) {
    was.status == Approved && asked.status == Published
  }

  predicate Tied(t: Tables, key: Key) {
    exists a, b :: a in Rivals(t, key) && b in Rivals(t, key) && a != b && ValidFrom(t.versions, a) == ValidFrom(t.versions, b)
  }

  lemma {:induction false} LatestExists(t: Tables, rivals: set<Key>)
    requires rivals != {} && rivals <= t.versions.Keys
    ensures exists u :: u in rivals && forall k :: k in rivals ==> ValidFrom(t.versions, k) <= ValidFrom(t.versions, u)
    decreases |rivals|
  {
    var u :| u in rivals;
    var rest := rivals - {u};
    if rest == {} {
      assert rivals == {u};
    } else {
      LatestExists(t, rest);
      var w :| w in rest && forall k :: k in rest ==> ValidFrom(t.versions, k) <= ValidFrom(t.versions, w);
      var best := if ValidFrom(t.versions, u) <= ValidFrom(t.versions, w) then w else u;
      forall k | k in rivals ensures ValidFrom(t.versions, k) <= ValidFrom(t.versions, best) {
        assert k == u || k in rest;
      }
    }
  }

  lemma SomeReplaced(t: Tables, key: Key) returns (replaced: Option<Name>)
    ensures Replaces(t, key, replaced) && (!Tied(t, key) ==> forall r :: Replaces(t, key, r) ==> r == replaced)
  {
    var rivals := Rivals(t, key);
    if rivals == {} {
      replaced := None;
    } else {
      LatestExists(t, rivals);
      var u :| u in rivals && forall k :: k in rivals ==> ValidFrom(t.versions, k) <= ValidFrom(t.versions, u);
      assert u == Key(key.codeSet, u.version);
      replaced := Some(u.version);
    }
  }

  /** The query for the version replaced: among rivals valid from the same time, any one. */
  method Replaced(t: Tables, key: Key) returns (replaced: Option<Name>)
    ensures Replaces(t, key, replaced)
    ensures !Tied(t, key) ==> forall r :: Replaces(t, key, r) ==> r == replaced
  {
    var rivals := Rivals(t, key);
    if rivals == {} {
      return None;
    }
    LatestExists(t, rivals);
    var u :| u in rivals && forall k :: k in rivals ==> ValidFrom(t.versions, k) <= ValidFrom(t.versions, u);
    assert u == Key(key.codeSet, u.version);
    return Some(u.version);
  }

  /** The update trigger of `code_set_version`, guard by guard: it admits exactly the six moves, a publication
      where it supersedes the version the query gives. */
  method GuardUpdate(t: Tables, key: Key, newKey: Key, was: Version, asked: Version, now: Time)
    returns (admitted: Option<Version>, ghost replaced: Option<Name>)
    requires Sane(was)
    ensures Replaces(t, key, replaced) && (!Tied(t, key) ==> forall r :: Replaces(t, key, r) ==> r == replaced)
    ensures admitted.Some? <==>
            newKey == key && Moves(t, key, was, Stamped(was, asked, now), now)
            && (Publishing(was, asked) ==> asked.supersedes == replaced)
    ensures admitted.Some? ==> admitted.value == Stamped(was, asked, now)
  {
    hide PathForEveryCode, Replaces, Tied, Rivals;
    replaced := SomeReplaced(t, key);
    var v := asked;
    if newKey != key || v.createdBy != was.createdBy || v.createdAt != was.createdAt || v.supersedes != was.supersedes {
      return None, replaced;
    }
    if was.status != Draft && v.evidence != was.evidence {
      return None, replaced;
    }
    if Rank(v.status) < Rank(was.status) || Rank(v.status) > Rank(was.status) + 1 {
      return None, replaced;
    }
    if v.approvedBy != was.approvedBy || v.approvedWords != was.approvedWords || v.approvedAt != was.approvedAt {
      if was.status != Draft || v.status != Approved {
        return None, replaced;
      }
      v := v.(approvedAt := Some(now));
    }
    if v.status == Approved && (Blank(v.approvedBy) || Blank(v.approvedWords)) {
      return None, replaced;
    }
    if v.status == Approved && was.status == Draft && v.approvedBy == Some(v.createdBy) {
      return None, replaced;
    }
    if (v.sha256 != was.sha256 || v.publishedAt != was.publishedAt || v.validFrom != was.validFrom)
       && (was.status != Approved || v.status != Published) {
      return None, replaced;
    }
    if v.status == Published && was.status == Approved {
      if v.sha256.None? || v.validFrom.None? {
        return None, replaced;
      }
      var latest := Replaced(t, key);
      replaced := latest;
      if v.supersedes != latest {
        return None, replaced;
      }
      if !PathForEveryCode(t, key) {
        return None, replaced;
      }
      v := v.(publishedAt := Some(now));
    }
    if v.validTo != was.validTo && (was.validTo.Some? || was.status != Published) {
      return None, replaced;
    }
    if v.status == Retired && was.status == Published && v.validTo.None? {
      v := v.(validTo := Some(now));
    }
    if v.validTo.Some? && v.validFrom.Some? && v.validTo.value < v.validFrom.value {
      return None, replaced;
    }
    return Some(v), replaced;
  }

  /** A move keeps what each status says. */
  lemma MovesKeepSane(t: Tables, key: Key, was: Version, v: Version, now: Time)
    requires Sane(was) && Moves(t, key, was, v, now)
    ensures Sane(v)
  {
  }

  /** A move publishes a version, or leaves alone whether it is published, what it supersedes and, once it is, when
      it is valid from. */
  lemma MovePublishes(t: Tables, key: Key, was: Version, v: Version, now: Time)
    requires Moves(t, key, was, v, now)
    ensures
      if !Live(was) && Live(v) then Publishes(t, key, was, v, now)
      else Live(v) == Live(was) && v.supersedes == was.supersedes && (Live(v) ==> v.validFrom == was.validFrom)
  {
  }

  // --- What holds from one time to a later one ------------------------------------------------------------

  predicate Fixed<T(==)>(was: Option<T>, now: Option<T>) {
    was.Some? ==> now == was
  }

  /** A version's row at some time and at a later one. */
  predicate Later(was: Version, v: Version) {
    && v.createdBy == was.createdBy && v.createdAt == was.createdAt && v.supersedes == was.supersedes
    && Rank(was.status) <= Rank(v.status)
    && (was.status != Draft ==> v.evidence == was.evidence)
    && Fixed(was.approvedBy, v.approvedBy) && Fixed(was.approvedWords, v.approvedWords) && Fixed(was.approvedAt, v.approvedAt)
    && Fixed(was.sha256, v.sha256) && Fixed(was.publishedAt, v.publishedAt)
    && Fixed(was.validFrom, v.validFrom) && Fixed(was.validTo, v.validTo)
  }

  predicate SameContent(t: Tables, u: Tables, key: Key) {
    && (forall r :: r in t.content && r.version == key ==> r in u.content && u.content[r] == t.content[r])
    && (forall r :: r in u.content && r.version == key ==> r in t.content)
  }

  predicate SamePaths(t: Tables, u: Tables, key: Key) {
    && (forall r :: r in t.paths && r.version == key ==> r in u.paths && u.paths[r] == t.paths[r])
    && (forall r :: r in u.paths && r.version == key ==> r in t.paths)
  }

  /** The tables at some time and at a later one: every version is still there and only moved on, what an
      approved one holds has not changed, nor a path of any, and a published one has gained none. */
  predicate Evolved(t: Tables, u: Tables) {
    && (forall k :: k in t.versions ==> k in u.versions && Later(t.versions[k], u.versions[k]))
    && (forall k :: k in t.versions && t.versions[k].status != Draft ==> SameContent(t, u, k))
    && (forall k :: k in t.versions && Live(t.versions[k]) ==> SamePaths(t, u, k))
    && (forall r :: r in t.paths ==> r in u.paths && u.paths[r] == t.paths[r])
  }

  lemma EvolvedOn(t: Tables, u: Tables, w: Tables)
    requires Evolved(t, u) && Evolved(u, w)
    ensures Evolved(t, w)
  {
    forall k | k in t.versions
      ensures k in w.versions && Later(t.versions[k], w.versions[k])
              && (t.versions[k].status != Draft ==> SameContent(t, w, k)) && (Live(t.versions[k]) ==> SamePaths(t, w, k))
    {
      assert Later(t.versions[k], u.versions[k]) && Later(u.versions[k], w.versions[k]);
    }
  }

  // --- What holds at every time ---------------------------------------------------------------------------

  /** Each path is of a code of a version past its draft. */
  predicate PathsPlaced(t: Tables) {
    forall r :: r in t.paths ==> r.kind == Code && r in t.content && r.version in t.versions && t.versions[r.version].status != Draft
  }

  predicate Placed(t: Tables) {
    && (forall k :: k in t.versions ==> Sane(t.versions[k]))
    && (forall r :: r in t.content ==> r.version in t.versions)
    && PathsPlaced(t)
    && (forall k :: k in t.versions && Live(t.versions[k]) ==> PathForEveryCode(t, k))
  }

  predicate Before(order: seq<Key>, i: nat, key: Key)
    requires i <= |order|
  {
    exists j :: 0 <= j < i && order[j] == key
  }

  /** What the version published in place `i` supersedes: nothing when it is its set's first, else one published
      before it that none of the set published before it is valid after. */
  predicate Succeeds(versions: map<Key, Version>, order: seq<Key>, i: nat)
    requires i < |order| && forall j :: 0 <= j <= i ==> order[j] in versions
  {
    match versions[order[i]].supersedes
    case None => forall j :: 0 <= j < i ==> order[j].codeSet != order[i].codeSet
    case Some(u) =>
      && Before(order, i, Key(order[i].codeSet, u))
      && Key(order[i].codeSet, u) in versions
      && forall j :: 0 <= j < i && order[j].codeSet == order[i].codeSet ==>
           ValidFrom(versions, order[j]) <= ValidFrom(versions, Key(order[i].codeSet, u))
  }

  /** `order` lists the published versions, each once, as they were published. */
  ghost predicate Ordered(versions: map<Key, Version>, order: seq<Key>) {
    && (forall k :: k in order <==> k in versions && Live(versions[k]))
    && (forall i :: 0 <= i < |order| ==> order[i] in versions)
    && (forall i, j :: 0 <= i < j < |order| ==> order[i] != order[j])
    && (forall i :: 0 <= i < |order| ==> Succeeds(versions, order, i))
  }

  // One row change, as asked.
  datatype Change =
    | InsertVersion(key: Key, row: Version)
    | UpdateVersion(key: Key, newKey: Key, row: Version, now: Time)
    | DeleteVersion(key: Key)
    | InsertRow(at: RowKey, body: string)
    | UpdateRow(at: RowKey, newAt: RowKey, body: string)
    | DeleteRow(at: RowKey)
    | InsertPath(at: RowKey, path: string)
    | UpdatePath(at: RowKey, path: string)
    | DeletePath(at: RowKey)

  lemma PublishedInOrder(t: Tables, order: seq<Key>, key: Key, v: Version, now: Time)
    requires key in t.versions && Ordered(t.versions, order) && Publishes(t, key, t.versions[key], v, now)
    ensures Ordered(t.versions[key := v], order + [key])
  {
    hide PathForEveryCode;
    var versions, longer := t.versions[key := v], order + [key];
    NewestSucceeds(t, order, key, v);
    forall i | 0 <= i < |order| ensures Succeeds(versions, longer, i) {
      assert order[i] in order;
      SucceedsStill(t.versions, order, key, v, longer, i);
    }
  }

  /** A version published last succeeds as the guard asks of its rivals, which are the set's versions before it. */
  lemma NewestSucceeds(t: Tables, order: seq<Key>, key: Key, v: Version)
    requires key in t.versions && Ordered(t.versions, order) && !Live(t.versions[key]) && Replaces(t, key, v.supersedes)
    ensures Succeeds(t.versions[key := v], order + [key], |order|)
  {
    var longer := order + [key];
    forall j | 0 <= j < |order| ensures order[j] in order && longer[j] == order[j] {
    }
    assert forall j :: 0 <= j < |order| ==> (order[j] in Rivals(t, key) <==> order[j].codeSet == key.codeSet);
    hide Ordered;
    match v.supersedes {
      case None =>
      case Some(u) =>
        assert Key(key.codeSet, u) in order;
        var j :| 0 <= j < |order| && order[j] == Key(key.codeSet, u);
        assert longer[j] == order[j];
    }
  }

  /** A row that changes neither what a version before `i` supersedes nor when it is valid from. */
  lemma SucceedsStill(versions: map<Key, Version>, order: seq<Key>, key: Key, v: Version, longer: seq<Key>, i: nat)
    requires order <= longer && i < |order| && (forall j :: 0 <= j < |order| ==> order[j] in versions)
    requires Succeeds(versions, order, i)
    requires key in order[..i + 1] ==>
      v.supersedes == versions[key].supersedes && v.validFrom == versions[key].validFrom
    ensures Succeeds(versions[key := v], longer, i)
  {
    var after := versions[key := v];
    assert forall j :: 0 <= j <= i ==> longer[j] == order[j] && order[j] == order[..i + 1][j];
    assert forall j :: 0 <= j <= i ==> after[order[j]].validFrom == versions[order[j]].validFrom;
    match versions[order[i]].supersedes {
      case None =>
      case Some(u) =>
        var j :| 0 <= j < i && order[j] == Key(order[i].codeSet, u);
        assert longer[j] == order[j];
    }
  }

  /** The publication order survives every other change of a version that does not change what is published. */
  lemma StillOrdered(versions: map<Key, Version>, order: seq<Key>, key: Key, v: Version)
    requires Ordered(versions, order)
    requires
      if key in versions then Live(v) == Live(versions[key]) && v.supersedes == versions[key].supersedes
                              && (Live(v) ==> v.validFrom == versions[key].validFrom)
      else !Live(v)
    ensures Ordered(versions[key := v], order)
  {
    var after := versions[key := v];
    forall i | 0 <= i < |order| ensures Succeeds(after, order, i) {
      assert key in order[..i + 1] ==> key in order;
      SucceedsStill(versions, order, key, v, order, i);
    }
  }

  /** An update asks for a move that the guard can tell: a publication has one version it can replace. */
  predicate Asks(t: Tables, key: Key, was: Version, asked: Version, now: Time) {
    Moves(t, key, was, Stamped(was, asked, now), now) && (Publishing(was, asked) ==> !Tied(t, key))
  }

  lemma AskedIsAdmitted(t: Tables, key: Key, was: Version, asked: Version, now: Time)
    ensures
      Asks(t, key, was, asked, now) ==>
        Moves(t, key, was, Stamped(was, asked, now), now)
        && (Publishing(was, asked) ==> !Tied(t, key) && Replaces(t, key, asked.supersedes))
  {
    hide Tied, Replaces, PathForEveryCode;
  }

  /** A move keeps the tables valid, and the order of publication with the version it publishes added. */
  lemma MovedValid(t: Tables, order: seq<Key>, key: Key, v: Version, now: Time)
    requires Placed(t) && Ordered(t.versions, order) && key in t.versions && Moves(t, key, t.versions[key], v, now)
    ensures Placed(t.(versions := t.versions[key := v]))
    ensures Ordered(t.versions[key := v], if !Live(t.versions[key]) && Live(v) then order + [key] else order)
  {
    hide Placed, Ordered, Moves, Publishes;
    MovePublishes(t, key, t.versions[key], v, now);
    if !Live(t.versions[key]) && Live(v) {
      PublishedInOrder(t, order, key, v, now);
    } else {
      StillOrdered(t.versions, order, key, v);
    }
    MovedPlaced(t, key, v, now);
  }

  // --- What one row change does --------------------------------------------------------------------------

  ghost predicate HeldAs(t: Tables, key: Key, status: Status) {
    key in t.versions && t.versions[key].status == status
  }

  /** A change is refused, which leaves the tables, or does what it asks: a new draft, one of the six moves, content
      of a draft added, changed or removed, or a path of an approved version added. */
  ghost predicate Changed(t: Tables, c: Change, u: Tables, ok: bool) {
    && (!ok ==> u == t)
    && match c
       case InsertVersion(key, row) =>
         && (ok <==> key !in t.versions && Unapproved(row)
                     && (row.supersedes.Some? ==> Key(key.codeSet, row.supersedes.value) in t.versions))
         && (ok ==> u == t.(versions := t.versions[key := row]))
       case UpdateVersion(key, newKey, row, now) =>
         && (ok ==> key in t.versions && newKey == key
                    && Moves(t, key, t.versions[key], Stamped(t.versions[key], row, now), now)
                    && u == t.(versions := t.versions[key := Stamped(t.versions[key], row, now)]))
         && (key in t.versions && newKey == key && Asks(t, key, t.versions[key], row, now) ==> ok)
       case InsertRow(at, body) =>
         && (ok <==> at !in t.content && HeldAs(t, at.version, Draft))
         && (ok ==> u == t.(content := t.content[at := body]))
       case UpdateRow(at, newAt, body) =>
         && (ok <==> at in t.content && newAt.kind == at.kind && newAt.version == at.version
                     && (newAt == at || newAt !in t.content) && HeldAs(t, at.version, Draft))
         && (ok ==> u == t.(content := (t.content - {at})[newAt := body]))
       case DeleteRow(at) =>
         && (ok <==> at in t.content && HeldAs(t, at.version, Draft))
         && (ok ==> u == t.(content := t.content - {at}))
       case InsertPath(at, path) =>
         && (ok <==> at.kind == Code && at in t.content && at !in t.paths && HeldAs(t, at.version, Approved))
         && (ok ==> u == t.(paths := t.paths[at := path]))
       case DeleteVersion(_) => !ok
       case UpdatePath(_, _) => !ok
       case DeletePath(_) => !ok
  }

  /** What a change does is determined, except where a publication has rivals valid from one time. */
  lemma ChangedOnce(t: Tables, c: Change, u: Tables, ok: bool, u': Tables, ok': bool)
    requires Changed(t, c, u, ok) && Changed(t, c, u', ok')
    requires c.UpdateVersion? && c.key in t.versions && Publishing(t.versions[c.key], c.row) ==> !Tied(t, c.key)
    ensures u == u' && ok == ok'
  {
    hide Moves, Stamped, Tied, Unapproved;
  }

  /** A series of changes, one after the other. */
  ghost predicate ChangedAt(trace: seq<Tables>, changes: seq<Change>, admitted: seq<bool>, i: nat)
    requires |admitted| == |changes| && |trace| == |changes| + 1 && i < |changes|
  {
    Changed(trace[i], changes[i], trace[i + 1], admitted[i])
  }

  class Reference {
    var versions: map<Key, Version>
    var content: map<RowKey, string>
    var paths: map<RowKey, string>
    ghost var order: seq<Key>

    ghost function View(): Tables
      reads this
    {
      Tables(versions, content, paths)
    }

    ghost predicate Valid()
      reads this
    {
      Placed(View()) && Ordered(versions, order)
    }

    constructor ()
      ensures Valid() && View() == Tables(map[], map[], map[])
    {
      versions, content, paths, order := map[], map[], map[], [];
    }

    method InsertVersionRow(key: Key, row: Version) returns (ok: bool)
      requires Valid()
      modifies this
      ensures Valid() && order == old(order)
      ensures ok == (key !in old(versions) && Unapproved(row)
                     && (row.supersedes.Some? ==> Key(key.codeSet, row.supersedes.value) in old(versions)))
      ensures View() == if ok then old(View()).(versions := old(versions)[key := row]) else old(View())
    {
      ok := key !in versions && Unapproved(row) && (row.supersedes.Some? ==> Key(key.codeSet, row.supersedes.value) in versions);
      if ok {
        StillOrdered(versions, order, key, row);
        versions := versions[key := row];
      }
    }

    /** An update is admitted as one of the six moves, or changes nothing; and each move is admitted, a publication
        where no two rivals are valid from one time. */
    method UpdateVersionRow(key: Key, newKey: Key, row: Version, now: Time) returns (ok: bool)
      requires Valid()
      modifies this
      ensures Valid() && content == old(content) && paths == old(paths)
      ensures if ok then key in old(versions) && key in versions && versions == old(versions)[key := versions[key]]
                         && Moves(old(View()), key, old(versions)[key], versions[key], now) else View() == old(View())
      ensures order == if ok && !Live(old(versions)[key]) && Live(versions[key]) then old(order) + [key] else old(order)
      ensures
        key in old(versions) && newKey == key && Asks(old(View()), key, old(versions)[key], row, now) ==> ok
      ensures ok ==> newKey == key && versions[key] == Stamped(old(versions)[key], row, now)
    {
      hide Moves, Sane, Placed, Ordered, Stamped, Tied, Replaces, Live, Publishing, Asks;
      ok := false;
      if key in versions {
        SaneAt(View(), key);
        AskedIsAdmitted(View(), key, versions[key], row, now);
        var admitted, _ := GuardUpdate(Tables(versions, content, paths), key, newKey, versions[key], row, now);
        if admitted.Some? {
          ok := true;
          MovedValid(View(), order, key, admitted.value, now);
          order := if !Live(versions[key]) && Live(admitted.value) then order + [key] else order;
          versions := versions[key := admitted.value];
        }
      }
    }

    predicate Held(key: Key, status: Status)
      reads this
    {
      key in versions && versions[key].status == status
    }

    /** Content is written, moved within its version and removed only while the version is a draft. */
    method InsertContent(at: RowKey, body: string) returns (ok: bool)
      requires Valid()
      modifies this`content
      ensures Valid() && ok == (at !in old(content) && Held(at.version, Draft))
      ensures content == if ok then old(content)[at := body] else old(content)
    {
      ok := at !in content && Held(at.version, Draft);
      if ok {
        DraftHasNoPaths(View(), at.version);
        content := content[at := body];
      }
    }

    method UpdateContent(at: RowKey, newAt: RowKey, body: string) returns (ok: bool)
      requires Valid()
      modifies this`content
      ensures Valid()
      ensures ok == (at in old(content) && newAt.kind == at.kind && newAt.version == at.version
                     && (newAt == at || newAt !in old(content)) && Held(at.version, Draft))
      ensures content == if ok then (old(content) - {at})[newAt := body] else old(content)
    {
      ok := at in content && newAt.kind == at.kind && newAt.version == at.version
            && (newAt == at || newAt !in content) && Held(at.version, Draft);
      if ok {
        DraftHasNoPaths(View(), at.version);
        content := (content - {at})[newAt := body];
      }
    }

    method DeleteContent(at: RowKey) returns (ok: bool)
      requires Valid()
      modifies this`content
      ensures Valid() && ok == (at in old(content) && Held(at.version, Draft))
      ensures content == if ok then old(content) - {at} else old(content)
    {
      ok := at in content && Held(at.version, Draft);
      if ok {
        DraftHasNoPaths(View(), at.version);
        content := content - {at};
      }
    }

    /** Paths are written once, while the version is approved. */
    method InsertCodePath(at: RowKey, path: string) returns (ok: bool)
      requires Valid()
      modifies this`paths
      ensures Valid() && ok == (at.kind == Code && at in content && at !in old(paths) && Held(at.version, Approved))
      ensures paths == if ok then old(paths)[at := path] else old(paths)
    {
      ok := at.kind == Code && at in content && at !in paths && Held(at.version, Approved);
      if ok {
        paths := paths[at := path];
      }
    }

    /** One row change: admitted or refused, the tables only evolve. */
    method Apply(c: Change) returns (ok: bool)
      requires Valid()
      modifies this
      ensures Valid() && Evolved(old(View()), View()) && old(order) <= order
      ensures Changed(old(View()), c, View(), ok)
    {
      hide Placed, Ordered, Moves, Evolved, Later, Unapproved, Stamped, Asks;
      ghost var before := View();
      EvolvedSelf(before);
      ok := false;
      match c {
        case InsertVersion(key, row) =>
          ok := InsertVersionRow(key, row);
          if ok { VersionEvolves(before, key, row); }
        case UpdateVersion(key, newKey, row, now) =>
          ok := UpdateVersionRow(key, newKey, row, now);
          if ok {
            SaneAt(before, key);
            MovesAreLater(before, key, before.versions[key], versions[key], now);
            VersionEvolves(before, key, versions[key]);
          }
        case InsertRow(at, body) =>
          ok := InsertContent(at, body);
          if ok { ContentEvolves(before, at.version, content); }
        case UpdateRow(at, newAt, body) =>
          ok := UpdateContent(at, newAt, body);
          if ok { ContentEvolves(before, at.version, content); }
        case DeleteRow(at) =>
          ok := DeleteContent(at);
          if ok { ContentEvolves(before, at.version, content); }
        case InsertPath(at, path) =>
          ok := InsertCodePath(at, path);
          if ok { PathEvolves(before, at, path); }
        case DeleteVersion(_) =>
        case UpdatePath(_, _) =>
        case DeletePath(_) =>
      }
    }

    /** Any sequence of row changes, each admitted or refused where the ones before it left the tables: everything
        that ever held of a version past its draft still holds. */
    method ApplyAll(changes: seq<Change>) returns (admitted: seq<bool>, ghost trace: seq<Tables>)
      requires Valid()
      modifies this
      ensures Valid() && Evolved(old(View()), View()) && old(order) <= order
      ensures |admitted| == |changes| && |trace| == |changes| + 1 && trace[0] == old(View()) && trace[|changes|] == View()
      ensures forall i: nat :: i < |changes| ==> ChangedAt(trace, changes, admitted, i)
    {
      hide Placed, Ordered, Evolved, Changed;
      EvolvedSelf(View());
      admitted, trace := [], [View()];
      for i := 0 to |changes|
        invariant Valid() && Evolved(old(View()), View()) && old(order) <= order
        invariant |admitted| == i && |trace| == i + 1 && trace[0] == old(View()) && trace[i] == View()
        invariant forall j: nat :: j < i ==> ChangedAt(trace, changes[..i], admitted, j)
      {
        ghost var before, was, done := View(), trace, admitted;
        var ok := Apply(changes[i]);
        EvolvedOn(old(View()), before, View());
        admitted, trace := admitted + [ok], trace + [View()];
        ghost var next := i + 1;
        forall j: nat | j < next ensures ChangedAt(trace, changes[..next], admitted, j) {
          if j < i {
            assert ChangedAt(was, changes[..i], done, j);
          }
        }
      }
      assert changes[..|changes|] == changes;
    }
  }

  lemma VersionEvolves(t: Tables, key: Key, v: Version)
    requires key in t.versions ==> Later(t.versions[key], v)
    ensures Evolved(t, t.(versions := t.versions[key := v]))
  {
  }

  lemma ContentEvolves(t: Tables, key: Key, content: map<RowKey, string>)
    requires key in t.versions && t.versions[key].status == Draft
    requires forall r: RowKey :: r.version != key ==> (r in content <==> r in t.content)
    requires forall r: RowKey :: r.version != key && r in content ==> content[r] == t.content[r]
    ensures Evolved(t, t.(content := content))
  {
  }

  lemma PathEvolves(t: Tables, at: RowKey, path: string)
    requires at !in t.paths && at.version in t.versions && t.versions[at.version].status == Approved
    ensures Evolved(t, t.(paths := t.paths[at := path]))
  {
  }

  lemma EvolvedSelf(t: Tables)
    ensures Evolved(t, t)
  {
  }

  lemma SaneAt(t: Tables, key: Key)
    requires Placed(t) && key in t.versions
    ensures Sane(t.versions[key])
  {
  }

  lemma MovesAreLater(t: Tables, key: Key, was: Version, v: Version, now: Time)
    requires Sane(was) && Moves(t, key, was, v, now)
    ensures Later(was, v) && Rank(v.status) <= Rank(was.status) + 1
  {
  }

  lemma MovedPlaced(t: Tables, key: Key, v: Version, now: Time)
    requires Placed(t) && key in t.versions && Moves(t, key, t.versions[key], v, now)
    ensures Placed(t.(versions := t.versions[key := v]))
  {
    var u := t.(versions := t.versions[key := v]);
    MovesKeepSane(t, key, t.versions[key], v, now);
    hide Sane, Replaces, ApprovalHeld;
    forall k | k in u.versions && Live(u.versions[k]) ensures PathForEveryCode(u, k) {
      assert PathForEveryCode(t, k);
    }
  }

  lemma DraftHasNoPaths(t: Tables, key: Key)
    requires Placed(t) && key in t.versions && t.versions[key].status == Draft
    ensures forall r :: r in t.paths ==> r.version != key
  {
  }

  // --- What a reader of a published version can rely on ----------------------------------------------------

  predicate SaysSomething(text: string) {
    exists i :: 0 <= i < |text| && text[i] != ' '
  }

  function ContentOf(t: Tables, key: Key): map<RowKey, string> {
    map r | r in t.content && r.version == key :: t.content[r]
  }

  function PathsOf(t: Tables, key: Key): map<RowKey, string> {
    map r | r in t.paths && r.version == key :: t.paths[r]
  }

  /** What a reader pinned to a version once it was published finds is the same at every later time: the content,
      a path for each code, the sha256, the start and the approval, in words, of someone other than its
      drafter. Only its end may still be set, once and not before its start, and a retired version has one. */
  lemma PinnedReadsStay(t: Tables, u: Tables, key: Key)
    requires Placed(t) && Placed(u) && Evolved(t, u) && key in t.versions && Live(t.versions[key])
    ensures key in u.versions && Live(u.versions[key])
    ensures ContentOf(u, key) == ContentOf(t, key) && PathsOf(u, key) == PathsOf(t, key)
    ensures forall r :: r in ContentOf(u, key) && r.kind == Code ==> r in PathsOf(u, key)
    ensures
      var was, v := t.versions[key], u.versions[key];
      && v.approvedAt.Some? && v.approvedBy.Some? && v.approvedBy.value != v.createdBy && SaysSomething(v.approvedBy.value)
      && v.approvedWords.Some? && SaysSomething(v.approvedWords.value)
      && v.sha256.Some? && v.validFrom.Some? && v.publishedAt.Some?
      && v == was.(status := v.status, validTo := v.validTo)
      && (v.status == Published ==> was.status == Published)
      && (v.validTo.Some? ==> v.validFrom.value <= v.validTo.value) && (was.validTo.Some? ==> v.validTo == was.validTo)
      && (v.status == Retired ==> v.validTo.Some?)
  {
    assert Later(t.versions[key], u.versions[key]);
    assert SameContent(t, u, key) && SamePaths(t, u, key);
    assert Sane(t.versions[key]) && Sane(u.versions[key]);
    hide Later, Sane, ApprovalHeld, PathsPlaced, SameContent, SamePaths, PathForEveryCode;
    PublishedRowStays(t.versions[key], u.versions[key]);
    PinnedContent(t, u, key);
  }

  lemma PinnedContent(t: Tables, u: Tables, key: Key)
    requires SameContent(t, u, key) && SamePaths(t, u, key) && PathForEveryCode(u, key)
    ensures ContentOf(u, key) == ContentOf(t, key) && PathsOf(u, key) == PathsOf(t, key)
    ensures forall r :: r in ContentOf(u, key) && r.kind == Code ==> r in PathsOf(u, key)
  {
  }

  lemma PublishedRowStays(was: Version, v: Version)
    requires Sane(was) && Sane(v) && Later(was, v) && Live(was)
    ensures Live(v) && v.sha256.Some? && v.validFrom.Some? && v.publishedAt.Some?
    ensures v.approvedAt.Some? && v.approvedBy.Some? && v.approvedBy.value != v.createdBy && SaysSomething(v.approvedBy.value)
    ensures v.approvedWords.Some? && SaysSomething(v.approvedWords.value)
    ensures v == was.(status := v.status, validTo := v.validTo)
    ensures v.status == Published ==> was.status == Published
    ensures v.validTo.Some? ==> v.validFrom.value <= v.validTo.value
    ensures was.validTo.Some? ==> v.validTo == was.validTo
    ensures v.status == Retired ==> v.validTo.Some?
  {
  }

  /** The version in place `p` is the last of its set published before the one in place `i`. */
  predicate LastBefore(order: seq<Key>, p: nat, i: nat) {
    && p < i < |order| && order[p].codeSet == order[i].codeSet
    && forall j :: p < j < i ==> order[j].codeSet != order[i].codeSet
  }

  /** No version of its set published before it is valid from a later time. */
  predicate NotBackdated(versions: map<Key, Version>, order: seq<Key>, p: nat)
    requires p < |order| && forall j :: 0 <= j < |order| ==> order[j] in versions
  {
    forall j :: 0 <= j < p && order[j].codeSet == order[p].codeSet ==> ValidFrom(versions, order[j]) <= ValidFrom(versions, order[p])
  }

  /** No version of its set published before it is valid from the same time. */
  predicate OwnStart(versions: map<Key, Version>, order: seq<Key>, p: nat)
    requires p < |order| && forall j :: 0 <= j < |order| ==> order[j] in versions
  {
    forall j :: 0 <= j < p && order[j].codeSet == order[p].codeSet ==> ValidFrom(versions, order[j]) != ValidFrom(versions, order[p])
  }

  /** A publication supersedes the one published last before it only if that one was not backdated; and where that
      one shares its start with none before it, exactly then. */
  lemma SupersedesLastIff(versions: map<Key, Version>, order: seq<Key>, p: nat, i: nat)
    requires Ordered(versions, order) && LastBefore(order, p, i)
    ensures versions[order[i]].supersedes == Some(order[p].version) ==> NotBackdated(versions, order, p)
    ensures OwnStart(versions, order, p) ==>
      (versions[order[i]].supersedes == Some(order[p].version) <==> NotBackdated(versions, order, p))
  {
    assert Succeeds(versions, order, i);
    assert order[p] == Key(order[i].codeSet, order[p].version);
    if OwnStart(versions, order, p) && NotBackdated(versions, order, p) {
      var u := versions[order[i]].supersedes;
      var j :| 0 <= j < i && order[j] == Key(order[i].codeSet, u.value);
      assert j <= p;
      assert ValidFrom(versions, order[p]) <= ValidFrom(versions, order[j]);
    }
  }

  /** Each publication of a set supersedes the one before it. */
  ghost predicate InLine(versions: map<Key, Version>, order: seq<Key>, codeSet: Name)
    requires forall j :: 0 <= j < |order| ==> order[j] in versions
  {
    forall p: nat, i: nat :: LastBefore(order, p, i) && order[i].codeSet == codeSet ==>
      versions[order[i]].supersedes == Some(order[p].version)
  }

  /** Where no two versions of a set are valid from one time, its succession is a line exactly when none of them but
      the last published was backdated. */
  lemma InLineIff(versions: map<Key, Version>, order: seq<Key>, codeSet: Name)
    requires Ordered(versions, order)
    requires forall p :: 0 <= p < |order| && order[p].codeSet == codeSet ==> OwnStart(versions, order, p)
    ensures InLine(versions, order, codeSet) <==>
      forall p: nat, i: nat :: LastBefore(order, p, i) && order[i].codeSet == codeSet ==> NotBackdated(versions, order, p)
  {
    forall p: nat, i: nat | LastBefore(order, p, i) && order[i].codeSet == codeSet
      ensures versions[order[i]].supersedes == Some(order[p].version) <==> NotBackdated(versions, order, p)
    {
      SupersedesLastIff(versions, order, p, i);
    }
  }

  function Awaiting(supersedes: Option<Name>): Version {
    Version(Approved, "drafter", 0, supersedes, "", Some("steward"), Some("approved"), Some(1), None, None, None, None)
  }

  function Issued(supersedes: Option<Name>, from: Time, now: Time): Version {
    Awaiting(supersedes).(status := Published, sha256 := Some("sum"), validFrom := Some(from), publishedAt := Some(now))
  }

  function Three(one: Version, two: Version, three: Version): Tables {
    Tables(map[Key("set", "1") := one, Key("set", "2") := two, Key("set", "3") := three], map[], map[])
  }

  const FIRST := Issued(None, 100, 2)
  const SECOND := Issued(Some("1"), 50, 3)
  const THIRD := Issued(Some("1"), 150, 4)

  /** Version 1 is valid from 100, version 2 is published after it but valid from 50, and version 3, valid from 150,
      must supersede version 1: version 2 is passed over. */
  lemma BackdatedIsPassedOver()
    ensures
      var one, two, three, held := Key("set", "1"), Key("set", "2"), Key("set", "3"), Awaiting(Some("1"));
      && Placed(Three(FIRST, held, held)) && Ordered(Three(FIRST, held, held).versions, [one])
      && Publishes(Three(FIRST, held, held), two, held, SECOND, 3)
      && Publishes(Three(FIRST, SECOND, held), three, held, THIRD, 4)
      && !Publishes(Three(FIRST, SECOND, held), three, Awaiting(Some("2")), Issued(Some("2"), 150, 4), 4)
      && Ordered(Three(FIRST, SECOND, THIRD).versions, [one, two, three])
      && !InLine(Three(FIRST, SECOND, THIRD).versions, [one, two, three], "set")
  {
    var one, two, three, held := Key("set", "1"), Key("set", "2"), Key("set", "3"), Awaiting(Some("1"));
    hide *;
    FirstAlone(held);
    SecondPublished(held);
    ThirdPublished(held);
    ThreeUpdated(FIRST, held, held, SECOND, held);
    ThreeUpdated(FIRST, SECOND, held, SECOND, THIRD);
    PublishedInOrder(Three(FIRST, held, held), [one], two, SECOND, 3);
    PublishedInOrder(Three(FIRST, SECOND, held), [one] + [two], three, THIRD, 4);
    assert [one] + [two] + [three] == [one, two, three];
    OrderHeld(Three(FIRST, SECOND, THIRD).versions, [one, two, three]);
    PassedOver(Three(FIRST, SECOND, THIRD).versions);
  }

  lemma ThreeUpdated(one: Version, two: Version, three: Version, next: Version, last: Version)
    ensures Three(one, two, three).versions.Keys == {Key("set", "1"), Key("set", "2"), Key("set", "3")}
    ensures Three(one, two, three).versions[Key("set", "2")] == two && Three(one, two, three).versions[Key("set", "3")] == three
    ensures Three(one, two, three).versions[Key("set", "2") := next] == Three(one, next, three).versions
    ensures Three(one, two, three).versions[Key("set", "3") := last] == Three(one, two, last).versions
  {
  }

  lemma OrderHeld(versions: map<Key, Version>, order: seq<Key>)
    requires Ordered(versions, order)
    ensures forall j :: 0 <= j < |order| ==> order[j] in versions
  {
  }

  lemma PassedOver(versions: map<Key, Version>)
    requires forall j :: 0 <= j < 3 ==> [Key("set", "1"), Key("set", "2"), Key("set", "3")][j] in versions
    requires Key("set", "3") in versions && versions[Key("set", "3")].supersedes == Some("1")
    ensures !InLine(versions, [Key("set", "1"), Key("set", "2"), Key("set", "3")], "set")
  {
    var order := [Key("set", "1"), Key("set", "2"), Key("set", "3")];
    assert LastBefore(order, 1, 2) && order[2].codeSet == "set" && order[1].version == "2";
  }

  lemma FirstAlone(held: Version)
    requires held == Awaiting(Some("1"))
    ensures Placed(Three(FIRST, held, held)) && Ordered(Three(FIRST, held, held).versions, [Key("set", "1")])
  {
    assert "steward"[0] == 's' && "approved"[0] == 'a';
  }

  lemma SecondPublished(held: Version)
    requires held == Awaiting(Some("1"))
    ensures Publishes(Three(FIRST, held, held), Key("set", "2"), held, SECOND, 3)
  {
    assert Rivals(Three(FIRST, held, held), Key("set", "2")) == {Key("set", "1")};
  }

  lemma ThirdPublished(held: Version)
    requires held == Awaiting(Some("1"))
    ensures Publishes(Three(FIRST, SECOND, held), Key("set", "3"), held, THIRD, 4)
    ensures !Publishes(Three(FIRST, SECOND, held), Key("set", "3"), Awaiting(Some("2")), Issued(Some("2"), 150, 4), 4)
    ensures
      var versions := Three(FIRST, SECOND, THIRD).versions;
      Key("set", "3") in versions && versions[Key("set", "3")].supersedes == Some("1")
  {
    assert Rivals(Three(FIRST, SECOND, held), Key("set", "3")) == {Key("set", "1"), Key("set", "2")};
  }

  /** Following what each version supersedes from any published one. */
  function Ancestors(versions: map<Key, Version>, order: seq<Key>, i: nat): seq<Key>
    requires i < |order| && (forall j :: 0 <= j < |order| ==> order[j] in versions)
    requires forall j :: 0 <= j < |order| ==> Succeeds(versions, order, j)
    decreases i
  {
    assert Succeeds(versions, order, i);
    match versions[order[i]].supersedes
    case None => [order[i]]
    case Some(u) =>
      var j := Place(order, i, Key(order[i].codeSet, u));
      [order[i]] + Ancestors(versions, order, j)
  }

  function Place(order: seq<Key>, i: nat, key: Key): (j: nat)
    requires i <= |order| && Before(order, i, key)
    ensures j < i && order[j] == key
  {
    if order[i - 1] == key then i - 1 else Place(order, i - 1, key)
  }

  /** Succession never runs in a circle: from every published version it ends at the first one of its set. */
  lemma {:induction false} SuccessionEndsAtFirst(versions: map<Key, Version>, order: seq<Key>, i: nat, f: nat)
    requires Ordered(versions, order) && f <= i < |order|
    requires order[f].codeSet == order[i].codeSet && forall j :: 0 <= j < f ==> order[j].codeSet != order[f].codeSet
    ensures var chain := Ancestors(versions, order, i); chain[0] == order[i] && chain[|chain| - 1] == order[f]
    decreases i
  {
    assert Succeeds(versions, order, i);
    match versions[order[i]].supersedes {
      case None =>
        assert f == i;
      case Some(u) =>
        var j := Place(order, i, Key(order[i].codeSet, u));
        SuccessionEndsAtFirst(versions, order, j, f);
    }
  }
}
