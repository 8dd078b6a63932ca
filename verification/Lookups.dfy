/** The lookup rows built after a load from the masters that changed: what a build leaves wherever it stops,
    whatever files are merged meanwhile, and when a reader may trust it. */
module Lookups {
  import opened Prelude
  import opened Consolidation
  import opened Mastering
  import KeyPages

  type Token = nat

  const PAGE := 1000

  // Where a build has reached: a file, and the last master read of it ("" when none).
  datatype Point = Point(file: int, after: Option<Id>)
  const START := Point(-1, None)

  /** What finds a master; a merged-away one finds nothing. `derive` is the pinned configuration. */
  function TokensOf(derive: Body -> set<Token>, e: Id, body: Body): set<Token> {
    if body.canonical != e then {} else derive(body)
  }

  // --- One page of changes -----------------------------------------------------------------

  predicate Unread(masters: map<Id, Master>, at: Point, e: Id) {
    e in masters
    && (masters[e].changedFile > at.file
        || (masters[e].changedFile == at.file && at.after.Some? && e > at.after.value))
  }

  function UnreadOf(masters: map<Id, Master>, at: Point): set<Id> {
    set e | e in masters && Unread(masters, at, e)
  }

  predicate Precedes(masters: map<Id, Master>, a: Id, b: Id)
    requires a in masters && b in masters
  {
    masters[a].changedFile < masters[b].changedFile || (masters[a].changedFile == masters[b].changedFile && a < b)
  }

  /** `rows` is the first `limit` of `wanted` in the order of their file and id. */
  ghost predicate FirstOf(masters: map<Id, Master>, wanted: set<Id>, limit: nat, rows: seq<Id>)
    requires wanted <= masters.Keys
  {
    && |rows| <= limit
    && (forall i :: 0 <= i < |rows| ==> rows[i] in wanted)
    && (forall i, j :: 0 <= i < j < |rows| ==> rows[i] in wanted && rows[j] in wanted && Precedes(masters, rows[i], rows[j]))
    && (forall e :: e in wanted && e !in rows ==>
          |rows| == limit && forall r :: r in rows ==> r in wanted && Precedes(masters, r, e))
  }

  method First(masters: map<Id, Master>, wanted: set<Id>) returns (least: Id)
    requires wanted != {} && wanted <= masters.Keys
    ensures least in wanted && forall e :: e in wanted && e != least ==> Precedes(masters, least, e)
  {
    least :| least in wanted;
    var rest := wanted - {least};
    while rest != {}
      invariant rest <= wanted && least in wanted
      invariant forall e :: e in wanted && e !in rest && e != least ==> Precedes(masters, least, e)
    {
      var e :| e in rest;
      rest := rest - {e};
      if Precedes(masters, e, least) {
        least := e;
      }
    }
  }

  method Select(masters: map<Id, Master>, wanted: set<Id>, limit: nat) returns (rows: seq<Id>)
    requires wanted <= masters.Keys
    ensures FirstOf(masters, wanted, limit, rows)
  {
    rows := [];
    var rest := wanted;
    while rest != {} && |rows| < limit
      invariant rest <= wanted && |rows| <= limit
      invariant forall e :: e in wanted <==> e in rows || e in rest
      invariant forall i :: 0 <= i < |rows| ==> rows[i] in wanted && rows[i] !in rest
      invariant forall i, j :: 0 <= i < j < |rows| ==> Precedes(masters, rows[i], rows[j])
      invariant forall i, e :: 0 <= i < |rows| && e in rest ==> Precedes(masters, rows[i], e)
    {
      var e := First(masters, rest);
      rows := rows + [e];
      rest := rest - {e};
    }
  }

  /** `changes`: the rest of the file reached, when part of it was read, and then the files after it. */
  method Changes(masters: map<Id, Master>, since: Point, limit: nat) returns (rows: seq<Id>)
    ensures FirstOf(masters, UnreadOf(masters, since), limit, rows)
  {
    var sameFile := if since.after.Some?
                    then set e | e in masters && masters[e].changedFile == since.file && e > since.after.value else {};
    rows := Select(masters, sameFile, limit);
    if |rows| < limit {
      var laterFiles := set e | e in masters && masters[e].changedFile > since.file;
      var more := Select(masters, laterFiles, limit - |rows|);
      rows := rows + more;
    }
  }

  // --- What other writers do meanwhile -----------------------------------------------------

  /** The masters after any number of merged files: each is as it was, or changed in a later file. */
  ghost predicate Later(before: map<Id, Master>, after: map<Id, Master>) {
    && before.Keys <= after.Keys
    && forall e :: e in after ==>
         (e in before && after[e] == before[e])
         || (after[e].changedFile > 0 && forall x :: x in before ==> before[x].changedFile < after[e].changedFile)
  }

  /** A merged file is such a step: its writes carry a file number no master had. */
  lemma MergedFileIsLater(was: Tables, now: Tables, key: FileKey, staged: map<Assertion, Staged>, engine: Engine, at: nat,
                          moved: map<Id, Id>, held: map<NameMatching.Subject, Id>, leis: set<(Key, Id)>)
    requires MergedInto(was, now, key, staged, engine, at, moved, held, leis)
    ensures Later(was.masters, now.masters)
  {
  }

  lemma {:induction false} LaterTransitive(a: map<Id, Master>, b: map<Id, Master>, c: map<Id, Master>)
    requires Later(a, b) && Later(b, c)
    ensures Later(a, c)
  {
    forall e | e in c
      ensures (e in a && c[e] == a[e])
              || (c[e].changedFile > 0 && forall x :: x in a ==> a[x].changedFile < c[e].changedFile)
    {
      if !(e in b && c[e] == b[e]) {
        forall x | x in a
          ensures a[x].changedFile < c[e].changedFile
        {
          assert b[x].changedFile < c[e].changedFile;
        }
      }
    }
  }

  /** The states other writers commit, one after another, from `from` on. */
  ghost predicate History(from: map<Id, Master>, states: seq<map<Id, Master>>)
    decreases |states|
  {
    states == [] || (Later(from, states[0]) && History(states[0], states[1..]))
  }

  // --- What a build keeps ------------------------------------------------------------------

  /** `built` is each master's body as its lookups were last written. The lookups hold those bodies' tokens;
      a master a build has passed has the lookups of its current body. */
  ghost predicate Accurate(derive: Body -> set<Token>, masters: map<Id, Master>, lookups: set<(Token, Id)>, progress: Point,
                           built: map<Id, Body>) {
    && (forall t: Token, e: Id :: (t, e) in lookups <==> e in built && t in TokensOf(derive, e, built[e]))
    && built.Keys <= masters.Keys
    && (forall e :: e in masters && !Unread(masters, progress, e) ==> e in built && built[e] == masters[e].body)
    && (forall e :: e in masters ==> masters[e].changedFile > 0)
    && (progress.file <= 0 || exists e :: e in masters && progress.file <= masters[e].changedFile)
    && (progress.after.None? ==> progress.file <= 0)
  }

  lemma LaterKeepsAccurate(derive: Body -> set<Token>, masters: map<Id, Master>, after: map<Id, Master>,
                           lookups: set<(Token, Id)>, progress: Point, built: map<Id, Body>)
    requires Accurate(derive, masters, lookups, progress, built) && Later(masters, after)
    ensures Accurate(derive, after, lookups, progress, built)
  {
    if progress.file > 0 {
      var x :| x in masters && progress.file <= masters[x].changedFile;
      assert after[x] == masters[x] || masters[x].changedFile < after[x].changedFile;
    }
  }

  function Rows(derive: Body -> set<Token>, bodies: map<Id, Body>): set<(Token, Id)> {
    set e, t | e in bodies && t in TokensOf(derive, e, bodies[e]) :: (t, e)
  }

  /** `save_lookups`: the page's masters' rows, replaced. */
  function SavedRows(derive: Body -> set<Token>, lookups: set<(Token, Id)>, bodies: map<Id, Body>): set<(Token, Id)> {
    (set row | row in lookups && row.1 !in bodies) + Rows(derive, bodies)
  }

  /** A page read from `read` and saved after other writers have reached `masters`. */
  lemma SaveKeepsAccurate(derive: Body -> set<Token>, read: map<Id, Master>, masters: map<Id, Master>, lookups: set<(Token, Id)>,
                          progress: Point, built: map<Id, Body>, rows: seq<Id>, limit: nat, bodies: map<Id, Body>)
    requires Accurate(derive, read, lookups, progress, built) && Later(read, masters)
    requires FirstOf(read, UnreadOf(read, progress), limit, rows) && rows != []
    requires bodies.Keys == (set e | e in rows) && forall e :: e in bodies ==> bodies[e] == read[e].body
    ensures
      var reached := Point(read[rows[|rows| - 1]].changedFile, Some(rows[|rows| - 1]));
      Accurate(derive, masters, SavedRows(derive, lookups, bodies), reached, built + bodies)
  {
    var end := rows[|rows| - 1];
    var reached := Point(read[end].changedFile, Some(end));
    var after := built + bodies;
    forall e | e in masters && !Unread(masters, reached, e)
      ensures e in after && after[e] == masters[e].body
    {
      assert end in read && e in read && masters[e] == read[e];
      assert Unread(read, progress, e) ==> e in UnreadOf(read, progress);
    }
    forall t: Token, e: Id
      ensures (t, e) in SavedRows(derive, lookups, bodies) <==> e in after && t in TokensOf(derive, e, after[e])
    {
    }
    assert masters[end] == read[end] || read[end].changedFile < masters[end].changedFile;
  }

  /** A saved page leaves exactly the masters it did not hold to read, when no one wrote meanwhile. */
  lemma PageShrinksUnread(masters: map<Id, Master>, progress: Point, rows: seq<Id>, limit: nat)
    requires FirstOf(masters, UnreadOf(masters, progress), limit, rows) && rows != []
    ensures
      var end := rows[|rows| - 1];
      UnreadOf(masters, Point(masters[end].changedFile, Some(end))) == UnreadOf(masters, progress) - PageIds(rows)
    ensures PageIds(rows) <= UnreadOf(masters, progress) && |PageIds(rows)| == |rows|
    ensures |rows| == limit || PageIds(rows) == UnreadOf(masters, progress)
  {
    var end := rows[|rows| - 1];
    var unread, after := UnreadOf(masters, progress), UnreadOf(masters, Point(masters[end].changedFile, Some(end)));
    DistinctRows(rows);
    forall e ensures e in after <==> e in unread && e !in rows {
      if e in rows {
        var i :| 0 <= i < |rows| && rows[i] == e;
        assert i < |rows| - 1 ==> Precedes(masters, rows[i], end);
      } else if e in unread {
        assert end in rows && Precedes(masters, end, e);
      } else if e in masters {
        assert end in unread;
      }
    }
    if |rows| != limit {
      assert PageIds(rows) == unread;
    }
  }

  function PageIds(rows: seq<Id>): set<Id> {
    set e | e in rows
  }

  lemma {:induction false} DistinctRows(rows: seq<Id>)
    requires forall i, j :: 0 <= i < j < |rows| ==> rows[i] != rows[j]
    ensures |PageIds(rows)| == |rows|
  {
    if rows != [] {
      var last, rest := rows[|rows| - 1], rows[..|rows| - 1];
      DistinctRows(rest);
      assert PageIds(rows) == PageIds(rest) + {last} && last !in PageIds(rest);
    }
  }

  datatype ReadError = NotBuilt

  class LookupStore {
    var masters: map<Id, Master>
    var lookups: set<(Token, Id)>
    var progress: Point
    ghost var built: map<Id, Body>

    ghost predicate Valid(derive: Body -> set<Token>)
      reads this
    {
      Accurate(derive, masters, lookups, progress, built)
    }

    /** The tables before any file and any build. */
    constructor (derive: Body -> set<Token>)
      ensures Valid(derive) && masters == map[] && lookups == {} && progress == START
    {
      masters, lookups, progress, built := map[], {}, START, map[];
    }

    /** Up to `count` of the states other writers are about to commit. */
    method Meanwhile(states: seq<map<Id, Master>>, count: nat, derive: Body -> set<Token>) returns (rest: seq<map<Id, Master>>)
      requires Valid(derive) && History(masters, states)
      modifies this`masters
      ensures Valid(derive) && History(masters, rest) && Later(old(masters), masters)
      ensures |rest| <= |states| && (|rest| == |states| ==> masters == old(masters))
    {
      rest := states;
      var n := 0;
      while n < count && rest != []
        invariant Valid(derive) && History(masters, rest) && Later(old(masters), masters)
        invariant |rest| <= |states| && (|rest| == |states| ==> masters == old(masters))
      {
        LaterKeepsAccurate(derive, masters, rest[0], lookups, progress, built);
        LaterTransitive(old(masters), masters, rest[0]);
        masters, rest, n := rest[0], rest[1..], n + 1;
      }
    }

    /** One page: its rows were read, and are saved with the point they reach once others have written. */
    method SavePage(derive: Body -> set<Token>, rows: seq<Id>, states: seq<map<Id, Master>>, before: nat, after: nat)
      returns (rest: seq<map<Id, Master>>)
      requires Valid(derive) && History(masters, states)
      requires FirstOf(masters, UnreadOf(masters, progress), PAGE, rows) && rows != []
      modifies this
      ensures Valid(derive) && History(masters, rest) && Later(old(masters), masters)
      ensures |rest| < |states| || (|rest| == |states| && masters == old(masters)
                                    && UnreadOf(masters, progress) == UnreadOf(old(masters), old(progress)) - PageIds(rows))
      ensures PageIds(rows) <= UnreadOf(old(masters), old(progress)) && |PageIds(rows)| == |rows|
      ensures |rows| == PAGE || PageIds(rows) == UnreadOf(old(masters), old(progress))
    {
      hide Accurate, Later, History, FirstOf, UnreadOf, PageIds, SavedRows;
      ghost var read := masters;
      FirstRows(masters, progress, PAGE, rows);
      var bodies := map e | e in rows :: masters[e].body;
      var end := rows[|rows| - 1];
      var reached := Point(masters[end].changedFile, Some(end));
      rest := Meanwhile(states, before, derive);
      SaveKeepsAccurate(derive, read, masters, lookups, progress, built, rows, PAGE, bodies);
      PageShrinksUnread(read, progress, rows, PAGE);
      lookups, progress, built := SavedRows(derive, lookups, bodies), reached, built + bodies;
      ghost var saved := masters;
      rest := Meanwhile(rest, after, derive);
      LaterTransitive(read, saved, masters);
    }

    /** Bring the lookups up to the last file, stopping after `pages` pages. `states` are what other writers
        commit meanwhile, `when` how many of them between each two statements. Wherever it stops, every master
        passed has the lookups of its current body. */
    method Build(derive: Body -> set<Token>, pages: nat, states: seq<map<Id, Master>>, when: nat -> nat)
      returns (finished: bool, rest: seq<map<Id, Master>>)
      requires Valid(derive) && History(masters, states)
      modifies this
      ensures Valid(derive) && History(masters, rest) && Later(old(masters), masters)
      ensures finished ==> forall e :: e in old(masters) ==> old(masters)[e].changedFile <= progress.file
      ensures finished && states == [] ==> masters == old(masters) && UnreadOf(masters, progress) == {}
      ensures states == [] ==> (finished <==> |UnreadOf(old(masters), old(progress))| <= pages * PAGE)
    {
      hide Accurate, Later, History, FirstOf, PageIds;
      var last := LastFile(masters);
      ghost var start := masters;
      LaterReflexive(masters);
      rest := states;
      var step, left := 0, pages;
      var rows := Changes(masters, progress, PAGE);
      while rows != []
        invariant Valid(derive) && History(masters, rest) && Later(start, masters)
        invariant |rest| <= |states| && (states == [] ==> masters == start)
        invariant FirstOf(masters, UnreadOf(masters, progress), PAGE, rows)
        invariant 0 <= left <= pages
        invariant states == [] ==> |UnreadOf(start, old(progress))| <= |UnreadOf(masters, progress)| + (pages - left) * PAGE
        invariant states == [] && UnreadOf(masters, progress) != {} ==>
                    |UnreadOf(start, old(progress))| == |UnreadOf(masters, progress)| + (pages - left) * PAGE
        decreases |rest|, |UnreadOf(masters, progress)|
      {
        SomeUnread(masters, UnreadOf(masters, progress), PAGE, rows);
        if left == 0 {
          return false, rest;
        }
        ghost var read, unread := masters, UnreadOf(masters, progress);
        ghost var was := |rest|;
        rest := SavePage(derive, rows, rest, when(step), when(step + 1));
        LaterTransitive(start, read, masters);
        if |rest| == was {
          Taken(unread, PageIds(rows));
        }
        OnePageMore(pages - left);
        left, step := left - 1, step + 2;
        rows := Changes(masters, progress, PAGE);
      }
      PagesGiven(left, pages);
      ReachedEnd(derive, start, masters, progress, last, lookups, built, rows);
      ghost var read := masters;
      rest := Meanwhile(rest, when(step), derive);
      LaterTransitive(start, read, masters);
      if progress.file < last {
        EmptyStoreMarked(derive, masters, progress, lookups, built);
        progress := Point(last, None);
      }
      finished := true;
    }

    /** `holders_of_detail` and `cross_referencing`: refused until the lookups reach the last file, and then the
        masters with a row for each token, in id order. With nothing unread they are those a scan finds. */
    method HoldersOf(derive: Body -> set<Token>, tokens: set<Token>) returns (r: Result<seq<Id>, ReadError>)
      requires Valid(derive) && tokens != {}
      ensures r.Err? <==> !Ready(masters, progress)
      ensures r.Ok? ==> (forall e :: e in r.value <==> e in HoldingAll(lookups, tokens))
                        && forall i, j :: 0 <= i < j < |r.value| ==> r.value[i] < r.value[j]
      ensures r.Ok? && UnreadOf(masters, progress) == {} ==> forall e :: e in r.value <==> e in Scan(derive, masters, tokens)
    {
      hide Accurate, HoldingAll, Scan;
      var last := LastFile(masters);
      if progress.file < last {
        return Err(NotBuilt);
      }
      var rest := HoldingAll(lookups, tokens);
      var answer: seq<Id> := [];
      while rest != {}
        invariant rest <= HoldingAll(lookups, tokens)
        invariant forall e :: e in HoldingAll(lookups, tokens) <==> e in answer || e in rest
        invariant forall i, j :: 0 <= i < j < |answer| ==> answer[i] < answer[j]
        invariant forall i, e :: 0 <= i < |answer| && e in rest ==> answer[i] < e
      {
        var e := KeyPages.Least(rest);
        rest := rest - {e};
        answer := answer + [e];
      }
      if UnreadOf(masters, progress) == {} {
        BuiltAnswersScan(derive, masters, lookups, progress, built, tokens);
      }
      r := Ok(answer);
    }
  }

  lemma FirstRows(masters: map<Id, Master>, progress: Point, limit: nat, rows: seq<Id>)
    requires FirstOf(masters, UnreadOf(masters, progress), limit, rows)
    ensures forall e :: e in rows ==> e in masters
  {
  }

  lemma SomeUnread(masters: map<Id, Master>, wanted: set<Id>, limit: nat, rows: seq<Id>)
    requires wanted <= masters.Keys && FirstOf(masters, wanted, limit, rows) && rows != []
    ensures |wanted| > 0 && |rows| <= limit
  {
    assert rows[0] in wanted;
  }

  lemma OnePageMore(n: nat)
    ensures (n + 1) * PAGE == n * PAGE + PAGE
  {
  }

  lemma PagesGiven(left: nat, pages: nat)
    requires left <= pages
    ensures (pages - left) * PAGE <= pages * PAGE
  {
  }

  lemma Taken(all: set<Id>, part: set<Id>)
    requires part <= all
    ensures |all - part| == |all| - |part| && (all - part == {} <==> part == all)
  {
    assert all == (all - part) + part;
  }

  lemma LaterReflexive(masters: map<Id, Master>)
    ensures Later(masters, masters)
  {
  }

  /** Where the loop ends nothing is unread, and only an empty store leaves the point before the last file. */
  lemma ReachedEnd(derive: Body -> set<Token>, start: map<Id, Master>, masters: map<Id, Master>, reached: Point, last: nat,
                   lookups: set<(Token, Id)>, built: map<Id, Body>, rows: seq<Id>)
    requires Accurate(derive, masters, lookups, reached, built) && Later(start, masters)
    requires FirstOf(masters, UnreadOf(masters, reached), PAGE, rows) && rows == []
    requires forall e :: e in start ==> start[e].changedFile <= last
    requires last == 0 || exists e :: e in start && start[e].changedFile == last
    ensures UnreadOf(masters, reached) == {}
    ensures reached.file < last ==> masters == map[] && last == 0
    ensures forall e :: e in start ==> start[e].changedFile <= reached.file
  {
    forall e | e in masters
      ensures masters[e].changedFile <= reached.file
    {
      assert e !in UnreadOf(masters, reached);
    }
  }

  /** Marking an empty store as read up to file 0 passes no master, even if a file was merged since. */
  lemma EmptyStoreMarked(derive: Body -> set<Token>, masters: map<Id, Master>, reached: Point,
                         lookups: set<(Token, Id)>, built: map<Id, Body>)
    requires Accurate(derive, masters, lookups, reached, built)
    ensures Accurate(derive, masters, lookups, Point(0, None), built)
  {
  }

  // --- What a reader gets ------------------------------------------------------------------

  function Rowed(lookups: set<(Token, Id)>): set<Id> {
    set row | row in lookups :: row.1
  }

  function TokensHeld(lookups: set<(Token, Id)>, tokens: set<Token>, e: Id): set<Token> {
    set t | t in tokens && (t, e) in lookups
  }

  /** `holding_all`: the masters with as many of the tokens' rows as there are tokens. */
  function HoldingAll(lookups: set<(Token, Id)>, tokens: set<Token>): set<Id> {
    set e | e in Rowed(lookups) && |TokensHeld(lookups, tokens, e)| == |tokens|
  }

  /** What a scan of every master finds. */
  function Scan(derive: Body -> set<Token>, masters: map<Id, Master>, tokens: set<Token>): set<Id> {
    set e | e in masters && masters[e].body.canonical == e && tokens <= derive(masters[e].body)
  }

  /** `_ready`: the lookups have reached the last file, which before the first is file 0. */
  predicate Ready(masters: map<Id, Master>, progress: Point) {
    progress.file >= 0 && forall e :: e in masters ==> masters[e].changedFile <= progress.file
  }

  /** The tokens stored for a master. */
  function Indexed(lookups: set<(Token, Id)>, e: Id): set<Token> {
    set row | row in lookups && row.1 == e :: row.0
  }

  lemma CountedAll(lookups: set<(Token, Id)>, tokens: set<Token>, e: Id)
    requires tokens != {}
    ensures e in HoldingAll(lookups, tokens) <==> forall t :: t in tokens ==> (t, e) in lookups
  {
    var held := TokensHeld(lookups, tokens, e);
    if |held| == |tokens| {
      assert |tokens - held| == 0;
      assert tokens - held == {};
    }
    if forall t :: t in tokens ==> (t, e) in lookups {
      assert held == tokens;
      var t :| t in tokens;
      assert (t, e) in lookups;
    }
  }

  /** With nothing left to read, a lookup answers exactly as a scan of every master would. */
  lemma BuiltAnswersScan(derive: Body -> set<Token>, masters: map<Id, Master>, lookups: set<(Token, Id)>, progress: Point,
                         built: map<Id, Body>, tokens: set<Token>)
    requires Accurate(derive, masters, lookups, progress, built)
    requires UnreadOf(masters, progress) == {} && tokens != {}
    ensures HoldingAll(lookups, tokens) == Scan(derive, masters, tokens)
  {
    forall e: Id
      ensures e in HoldingAll(lookups, tokens) <==> e in Scan(derive, masters, tokens)
    {
      CountedAll(lookups, tokens, e);
      if e in masters {
        assert e !in UnreadOf(masters, progress);
      } else {
        var t :| t in tokens;
        assert (t, e) !in lookups;
      }
    }
  }

  /** Every lookup answers as a scan of every master exactly when each master still unread at the checkpoint has
      stored the tokens of its current body. `_ready` compares file numbers and does not ask. */
  lemma AnswersScanIff(derive: Body -> set<Token>, masters: map<Id, Master>, lookups: set<(Token, Id)>, progress: Point,
                       built: map<Id, Body>)
    requires Accurate(derive, masters, lookups, progress, built)
    ensures (forall tokens: set<Token> :: tokens != {} ==> HoldingAll(lookups, tokens) == Scan(derive, masters, tokens)) <==>
            (forall e :: e in UnreadOf(masters, progress) ==> Indexed(lookups, e) == TokensOf(derive, e, masters[e].body))
  {
    IndexedRows(lookups);
    if forall e :: e in UnreadOf(masters, progress) ==> Indexed(lookups, e) == TokensOf(derive, e, masters[e].body) {
      forall tokens: set<Token> | tokens != {}
        ensures HoldingAll(lookups, tokens) == Scan(derive, masters, tokens)
      {
        IndexedAnswers(derive, masters, lookups, progress, built, tokens);
      }
    } else {
      var e :| e in UnreadOf(masters, progress) && Indexed(lookups, e) != TokensOf(derive, e, masters[e].body);
      var t := Differing(Indexed(lookups, e), TokensOf(derive, e, masters[e].body));
      CountedAll(lookups, {t}, e);
      assert e in HoldingAll(lookups, {t}) <==> e !in Scan(derive, masters, {t});
    }
  }

  lemma IndexedRows(lookups: set<(Token, Id)>)
    ensures forall e: Id, t: Token :: t in Indexed(lookups, e) <==> (t, e) in lookups
  {
  }

  lemma Differing(a: set<Token>, b: set<Token>) returns (t: Token)
    requires a != b
    ensures t in a <==> t !in b
  {
    if x :| x in a && x !in b {
      t := x;
    } else {
      t :| t in b && t !in a;
    }
  }

  lemma IndexedAnswers(derive: Body -> set<Token>, masters: map<Id, Master>, lookups: set<(Token, Id)>, progress: Point,
                       built: map<Id, Body>, tokens: set<Token>)
    requires Accurate(derive, masters, lookups, progress, built) && tokens != {}
    requires forall e :: e in UnreadOf(masters, progress) ==> Indexed(lookups, e) == TokensOf(derive, e, masters[e].body)
    ensures HoldingAll(lookups, tokens) == Scan(derive, masters, tokens)
  {
    IndexedRows(lookups);
    forall e: Id
      ensures e in HoldingAll(lookups, tokens) <==> e in Scan(derive, masters, tokens)
    {
      CountedAll(lookups, tokens, e);
      if e !in masters {
        var t :| t in tokens;
        assert (t, e) !in lookups;
      } else if Unread(masters, progress, e) {
        assert e in UnreadOf(masters, progress);
        assert forall t: Token :: t in Indexed(lookups, e) <==> (t, e) in lookups;
      }
    }
  }

  /** One file that creates 1001 masters, each with one detail. */
  function Crowd(): map<Id, Master> {
    map e: Id | 0 <= e < PAGE + 1 :: Master(Body(e, 1), 1, 0)
  }

  function OneDetail(): Body -> set<Token> {
    (b: Body) => {7}
  }

  /** The first page of a build over it. */
  function FirstPage(): seq<Id> {
    seq(PAGE, i => i)
  }

  function PageBodies(): map<Id, Body> {
    map e | e in FirstPage() && e in Crowd() :: Crowd()[e].body
  }

  lemma FirstPageIs()
    ensures forall e: Id :: e in FirstPage() <==> e < PAGE
    ensures FirstOf(Crowd(), UnreadOf(Crowd(), START), PAGE, FirstPage())
  {
    var rows := FirstPage();
    forall e: Id ensures e in rows <==> e < PAGE {
      if e < PAGE {
        assert rows[e] == e;
      }
    }
    assert forall i :: 0 <= i < PAGE ==> rows[i] == i;
    assert forall e: Id :: e in UnreadOf(Crowd(), START) <==> e <= PAGE;
  }

  lemma LastUnsaved()
    ensures forall row :: row in SavedRows(OneDetail(), {}, PageBodies()) ==> row.1 != PAGE
  {
    FirstPageIs();
    hide FirstPage;
    assert PAGE !in PageBodies();
  }

  /** Such a boundary: one file creates 1001 masters, a build stops after its first page of 1000, the lookups
      count as ready, and the last master cannot be found. */
  lemma ReadyBeforeBuilt()
    ensures
      var lookups := SavedRows(OneDetail(), {}, PageBodies());
      && FirstOf(Crowd(), UnreadOf(Crowd(), START), PAGE, FirstPage())
      && FirstPage()[PAGE - 1] == PAGE - 1
      && (forall e: Id :: e in FirstPage() ==> e in PageBodies() && PageBodies()[e] == Body(e, 1))
      && Ready(Crowd(), Point(1, Some(PAGE - 1)))
      && PAGE in Scan(OneDetail(), Crowd(), {7})
      && PAGE !in HoldingAll(lookups, {7})
  {
    FirstPageIs();
    LastUnsaved();
    var lookups := SavedRows(OneDetail(), {}, PageBodies());
    hide SavedRows, FirstOf, FirstPage;
    CountedAll(lookups, {7}, PAGE);
    assert (7, PAGE) !in lookups;
  }

  /** The second file changes the first 1000 masters and merges the last of them into the first. */
  function MergedCrowd(): map<Id, Master> {
    map e: Id | 0 <= e < PAGE + 1 ::
      if e == PAGE then Master(Body(e, 1), 1, 0)
      else if e == PAGE - 1 then Master(Body(0, ALIAS), 2, 0)
      else Master(Body(e, 2), 2, 0)
  }

  /** The second page: the last master of file 1, and all but one of file 2's. */
  function SecondPage(): seq<Id> {
    seq(PAGE, i => if i == 0 then PAGE else i - 1)
  }

  function SecondBodies(): map<Id, Body> {
    map e | e in SecondPage() && e in MergedCrowd() :: MergedCrowd()[e].body
  }

  lemma SecondPageIs()
    ensures forall e: Id :: e in SecondPage() <==> e == PAGE || e < PAGE - 1
    ensures FirstOf(MergedCrowd(), UnreadOf(MergedCrowd(), Point(1, Some(PAGE - 1))), PAGE, SecondPage())
  {
    var rows := SecondPage();
    assert rows[0] == PAGE;
    forall e: Id ensures e in rows <==> e == PAGE || e < PAGE - 1 {
      if e < PAGE - 1 {
        assert rows[e + 1] == e;
      }
    }
    assert forall i :: 1 <= i < PAGE ==> rows[i] == i - 1;
    var unread := UnreadOf(MergedCrowd(), Point(1, Some(PAGE - 1)));
    assert forall e: Id :: e in unread <==> e <= PAGE;
  }

  /** The rows both pages leave. */
  function TwoPages(): set<(Token, Id)> {
    SavedRows(OneDetail(), SavedRows(OneDetail(), {}, PageBodies()), SecondBodies())
  }

  lemma AliasRowsStay()
    ensures (7, PAGE - 1) in TwoPages()
  {
    FirstPageIs();
    SecondPageIs();
    hide FirstPage, SecondPage;
    var last: Id := PAGE - 1;
    assert last in PageBodies() && PageBodies()[last] == Body(last, 1);
    assert last !in SecondBodies();
    assert (7, last) in Rows(OneDetail(), PageBodies());
  }

  /** The other boundary: a file merges, between two pages of a build, a master already built. The second page
      ends just before it, the lookups count as ready, and the merged-away master still answers. */
  lemma ReadyWithOldRows()
    ensures Later(Crowd(), MergedCrowd())
    ensures FirstOf(MergedCrowd(), UnreadOf(MergedCrowd(), Point(1, Some(PAGE - 1))), PAGE, SecondPage())
    ensures forall e: Id :: e in SecondPage() ==> e in SecondBodies() && SecondBodies()[e] == Body(e, if e == PAGE then 1 else 2)
    ensures SecondPage()[PAGE - 1] == PAGE - 2 && Ready(MergedCrowd(), Point(2, Some(PAGE - 2)))
    ensures forall e :: e in UnreadOf(MergedCrowd(), Point(2, Some(PAGE - 2))) ==> IsAlias(MergedCrowd(), e)
    ensures PAGE - 1 in HoldingAll(TwoPages(), {7}) && PAGE - 1 !in Scan(OneDetail(), MergedCrowd(), {7})
  {
    SecondPageIs();
    AliasRowsStay();
    hide TwoPages, FirstOf;
    CountedAll(TwoPages(), {7}, PAGE - 1);
  }
}
