/** Joining waiting records to masters by name: the Name Count and cascade rules, and the exact-name rules. */
module NameMatching {
  import opened Prelude
  import opened Consolidation

  type Subject = nat
  type Lei = nat

  /** A candidate and a holder the stored name keys bring together, with what the rule's tests said. */
  datatype Pair = Pair(candidate: Subject, holder: Subject, lei: Lei, passed: bool)

  /** One name rule: whether it vetoes a master that holds another LEI, and the pairs it compared. */
  datatype NameRule = NameRule(vetoes: bool, pairs: seq<Pair>)

  /** The passing pairs of a candidate that was waiting, up to the `n`-th. */
  ghost predicate Reaches(pairs: seq<Pair>, n: nat, bound: map<Subject, Id>, waiting: set<Subject>,
                          s: Subject, e: Id)
    requires n <= |pairs|
  {
    exists i :: 0 <= i < n && pairs[i].passed && pairs[i].candidate == s && s in waiting
                && pairs[i].holder in bound && bound[pairs[i].holder] == e
  }

  lemma ReachesNext(pairs: seq<Pair>, n: nat, bound: map<Subject, Id>, waiting: set<Subject>, s: Subject, e: Id)
    requires n < |pairs|
    ensures Reaches(pairs, n + 1, bound, waiting, s, e) <==>
            Reaches(pairs, n, bound, waiting, s, e)
            || (pairs[n].passed && pairs[n].candidate == s && s in waiting
                && pairs[n].holder in bound && bound[pairs[n].holder] == e)
  {
  }

  /** The `i`-th pair passed, its candidate was waiting and its holder has a master. */
  ghost predicate Matches(pairs: seq<Pair>, bound: map<Subject, Id>, waiting: set<Subject>, i: nat, s: Subject) {
    i < |pairs| && pairs[i].passed && pairs[i].candidate == s && s in waiting && pairs[i].holder in bound
  }

  /** The LEI the last of a candidate's matching pairs, up to the `n`-th, states. */
  ghost predicate LastStates(pairs: seq<Pair>, n: nat, bound: map<Subject, Id>, waiting: set<Subject>, s: Subject, lei: Lei)
    requires n <= |pairs|
  {
    exists i :: 0 <= i < n && Matches(pairs, bound, waiting, i, s) && pairs[i].lei == lei
                && forall j :: i < j < n ==> !Matches(pairs, bound, waiting, j, s)
  }

  lemma LastStatesNext(pairs: seq<Pair>, n: nat, bound: map<Subject, Id>, waiting: set<Subject>, s: Subject, lei: Lei)
    requires n < |pairs|
    ensures LastStates(pairs, n + 1, bound, waiting, s, lei) <==>
            if Matches(pairs, bound, waiting, n, s) then pairs[n].lei == lei else LastStates(pairs, n, bound, waiting, s, lei)
  {
    if LastStates(pairs, n, bound, waiting, s, lei) {
      var i :| 0 <= i < n && Matches(pairs, bound, waiting, i, s) && pairs[i].lei == lei
               && forall j :: i < j < n ==> !Matches(pairs, bound, waiting, j, s);
    }
  }

  /** A candidate has a matching pair before any of another's. */
  ghost predicate ReachedBefore(pairs: seq<Pair>, bound: map<Subject, Id>, waiting: set<Subject>, u: Subject, s: Subject) {
    exists i :: 0 <= i < |pairs| && Matches(pairs, bound, waiting, i, u)
                && forall j :: 0 <= j <= i ==> !Matches(pairs, bound, waiting, j, s)
  }

  lemma OneReachedFirst(pairs: seq<Pair>, bound: map<Subject, Id>, waiting: set<Subject>, u: Subject, s: Subject)
    requires ReachedBefore(pairs, bound, waiting, u, s)
    ensures !ReachedBefore(pairs, bound, waiting, s, u)
  {
    var i :| 0 <= i < |pairs| && Matches(pairs, bound, waiting, i, u)
             && forall j :: 0 <= j <= i ==> !Matches(pairs, bound, waiting, j, s);
    forall k | 0 <= k < |pairs| && Matches(pairs, bound, waiting, k, s)
      ensures exists j :: 0 <= j <= k && Matches(pairs, bound, waiting, j, u)
    {
      assert i <= k;
    }
  }

  ghost predicate ReachesAnother(pairs: seq<Pair>, bound: map<Subject, Id>, waiting: set<Subject>, s: Subject, e: Id) {
    exists f: Id :: f != e && Reaches(pairs, |pairs|, bound, waiting, s, f)
  }

  /** The masters each waiting candidate's passing pairs reach, the LEI it states last, and the candidates in
      the order they were first reached. */
  method GatherReach(pairs: seq<Pair>, bound: map<Subject, Id>, waiting: set<Subject>)
    returns (reach: map<Subject, set<Id>>, stated: map<Subject, Lei>, order: seq<Subject>)
    ensures reach.Keys == stated.Keys <= waiting
    ensures forall s :: s in order <==> s in reach
    ensures forall j, k :: 0 <= j < k < |order| ==> ReachedBefore(pairs, bound, waiting, order[j], order[k])
    ensures forall s: Subject, e: Id :: Reaches(pairs, |pairs|, bound, waiting, s, e) <==> s in reach && e in reach[s]
    ensures forall s :: s in reach ==> reach[s] != {}
    ensures forall s: Subject, l: Lei :: LastStates(pairs, |pairs|, bound, waiting, s, l) <==> s in stated && stated[s] == l
  {
    hide Reaches, LastStates, ReachedBefore, MatchedBy, Matches;
    reach, stated, order := map[], map[], [];
    NothingGathered(pairs, bound, waiting);
    for i := 0 to |pairs|
      invariant ReachIs(pairs, i, bound, waiting, reach) && StatedAre(pairs, i, bound, waiting, stated)
      invariant OrderIs(pairs, i, bound, waiting, reach, order)
      invariant reach.Keys == stated.Keys <= waiting
    {
      var p := pairs[i];
      var first := p.passed && p.candidate in waiting && p.holder in bound && p.candidate !in reach;
      ReachNext(pairs, i, bound, waiting, reach);
      StatedNext(pairs, i, bound, waiting, stated);
      OrderNext(pairs, i, bound, waiting, reach, order);
      if p.passed && p.candidate in waiting && p.holder in bound {
        var entities := (if p.candidate in reach then reach[p.candidate] else {}) + {bound[p.holder]};
        reach, stated := reach[p.candidate := entities], stated[p.candidate := p.lei];
        order := if first then order + [p.candidate] else order;
      }
    }
  }

  ghost predicate ReachIs(pairs: seq<Pair>, n: nat, bound: map<Subject, Id>, waiting: set<Subject>, reach: map<Subject, set<Id>>)
    requires n <= |pairs|
  {
    && (forall s: Subject, e: Id :: Reaches(pairs, n, bound, waiting, s, e) <==> s in reach && e in reach[s])
    && forall s :: s in reach ==> reach[s] != {}
  }

  ghost predicate StatedAre(pairs: seq<Pair>, n: nat, bound: map<Subject, Id>, waiting: set<Subject>, stated: map<Subject, Lei>)
    requires n <= |pairs|
  {
    forall s: Subject, l: Lei :: LastStates(pairs, n, bound, waiting, s, l) <==> s in stated && stated[s] == l
  }

  ghost predicate OrderIs(pairs: seq<Pair>, n: nat, bound: map<Subject, Id>, waiting: set<Subject>, reach: map<Subject, set<Id>>,
                          order: seq<Subject>)
    requires n <= |pairs|
  {
    && (forall s :: s in order <==> s in reach)
    && (forall s: Subject :: s in reach <==> MatchedBy(pairs, n, bound, waiting, s))
    && forall j, k :: 0 <= j < k < |order| ==> ReachedBefore(pairs, bound, waiting, order[j], order[k])
  }

  lemma NothingGathered(pairs: seq<Pair>, bound: map<Subject, Id>, waiting: set<Subject>)
    ensures ReachIs(pairs, 0, bound, waiting, map[]) && StatedAre(pairs, 0, bound, waiting, map[])
    ensures OrderIs(pairs, 0, bound, waiting, map[], [])
  {
  }

  /** One pair more: the candidate's masters with its holder's. */
  lemma ReachNext(pairs: seq<Pair>, n: nat, bound: map<Subject, Id>, waiting: set<Subject>, reach: map<Subject, set<Id>>)
    requires n < |pairs| && ReachIs(pairs, n, bound, waiting, reach)
    ensures
      var p := pairs[n];
      ReachIs(pairs, n + 1, bound, waiting,
              if p.passed && p.candidate in waiting && p.holder in bound
              then reach[p.candidate := (if p.candidate in reach then reach[p.candidate] else {}) + {bound[p.holder]}] else reach)
  {
    var next := n + 1;
    forall s: Subject, e: Id
      ensures Reaches(pairs, next, bound, waiting, s, e) <==>
              Reaches(pairs, n, bound, waiting, s, e)
              || (pairs[n].passed && pairs[n].candidate == s && s in waiting
                  && pairs[n].holder in bound && bound[pairs[n].holder] == e)
    {
      ReachesNext(pairs, n, bound, waiting, s, e);
    }
    hide Reaches;
    var p := pairs[n];
    if p.passed && p.candidate in waiting && p.holder in bound {
      var entities := (if p.candidate in reach then reach[p.candidate] else {}) + {bound[p.holder]};
      assert forall e: Id :: e in entities <==> (p.candidate in reach && e in reach[p.candidate]) || e == bound[p.holder];
    }
  }

  lemma StatedNext(pairs: seq<Pair>, n: nat, bound: map<Subject, Id>, waiting: set<Subject>, stated: map<Subject, Lei>)
    requires n < |pairs| && StatedAre(pairs, n, bound, waiting, stated)
    ensures
      var p := pairs[n];
      StatedAre(pairs, n + 1, bound, waiting,
                if p.passed && p.candidate in waiting && p.holder in bound then stated[p.candidate := p.lei] else stated)
  {
    var next := n + 1;
    forall s: Subject, l: Lei
      ensures LastStates(pairs, next, bound, waiting, s, l) <==>
              if Matches(pairs, bound, waiting, n, s) then pairs[n].lei == l else LastStates(pairs, n, bound, waiting, s, l)
    {
      LastStatesNext(pairs, n, bound, waiting, s, l);
    }
    hide LastStates;
  }

  lemma OrderNext(pairs: seq<Pair>, n: nat, bound: map<Subject, Id>, waiting: set<Subject>, reach: map<Subject, set<Id>>,
                  order: seq<Subject>)
    requires n < |pairs| && OrderIs(pairs, n, bound, waiting, reach, order)
    ensures
      var p := pairs[n];
      var hit := p.passed && p.candidate in waiting && p.holder in bound;
      OrderIs(pairs, n + 1, bound, waiting,
              if hit then reach[p.candidate := (if p.candidate in reach then reach[p.candidate] else {}) + {bound[p.holder]}] else reach,
              if hit && p.candidate !in reach then order + [p.candidate] else order)
  {
    var p := pairs[n];
    var next := n + 1;
    forall s ensures MatchedBy(pairs, next, bound, waiting, s) <==>
                     MatchedBy(pairs, n, bound, waiting, s) || Matches(pairs, bound, waiting, n, s) {
    }
    if p.candidate !in reach && Matches(pairs, bound, waiting, n, p.candidate) {
      forall j | 0 <= j < |order| ensures ReachedBefore(pairs, bound, waiting, order[j], p.candidate) {
        assert order[j] in order;
        MatchedFirst(pairs, n, bound, waiting, order[j], p.candidate);
      }
    }
    hide MatchedBy, ReachedBefore;
  }

  ghost predicate MatchedBy(pairs: seq<Pair>, n: nat, bound: map<Subject, Id>, waiting: set<Subject>, s: Subject)
    requires n <= |pairs|
  {
    exists j :: 0 <= j < n && Matches(pairs, bound, waiting, j, s)
  }

  lemma MatchedFirst(pairs: seq<Pair>, n: nat, bound: map<Subject, Id>, waiting: set<Subject>, u: Subject, s: Subject)
    requires n <= |pairs| && MatchedBy(pairs, n, bound, waiting, u)
    requires forall j :: 0 <= j < n ==> !Matches(pairs, bound, waiting, j, s)
    ensures ReachedBefore(pairs, bound, waiting, u, s)
  {
    var i :| 0 <= i < n && Matches(pairs, bound, waiting, i, u);
  }

  /** Each record joined states the one LEI its master holds, before the rule or through another record it joins. */
  ghost predicate HeldLeisAgree(named: map<Subject, Id>, values: map<Subject, Lei>, leis: map<Id, set<Lei>>)
    requires named.Keys == values.Keys
  {
    && (forall s, l :: s in named && l in LeisOf(leis, named[s]) ==> l == values[s])
    && (forall s, u :: s in named && u in named && named[s] == named[u] ==> values[s] == values[u])
  }

  /** A master holds another LEI: before the rule, or stated by a candidate before the `i`-th that joined it. */
  ghost predicate Refused(order: seq<Subject>, i: nat, leis: map<Id, set<Lei>>, named: map<Subject, Id>, values: map<Subject, Lei>,
                          e: Id, lei: Lei)
    requires i <= |order| && named.Keys == values.Keys
  {
    || (exists l :: l in LeisOf(leis, e) && l != lei)
    || exists j :: 0 <= j < i && order[j] in named && named[order[j]] == e && values[order[j]] != lei
  }

  function LeisOf(held: map<Id, set<Lei>>, e: Id): set<Lei> {
    if e in held then held[e] else {}
  }

  /** The LEIs the records joined to a master state. */
  function JoinedLeis(named: map<Subject, Id>, values: map<Subject, Lei>, e: Id): set<Lei>
    requires named.Keys == values.Keys
  {
    set u | u in named && named[u] == e :: values[u]
  }

  /** The LEIs a master holds are those it held and those its joined candidates state. */
  ghost predicate HeldAre(held: map<Id, set<Lei>>, leis: map<Id, set<Lei>>, named: map<Subject, Id>, values: map<Subject, Lei>)
    requires named.Keys == values.Keys
  {
    forall e: Id :: LeisOf(held, e) == LeisOf(leis, e) + JoinedLeis(named, values, e)
  }

  lemma HeldNext(held: map<Id, set<Lei>>, leis: map<Id, set<Lei>>, named: map<Subject, Id>, values: map<Subject, Lei>,
                 s: Subject, e: Id, lei: Lei)
    requires named.Keys == values.Keys && s !in named && HeldAre(held, leis, named, values)
    ensures HeldAre(held[e := LeisOf(held, e) + {lei}], leis, named[s := e], values[s := lei])
  {
    var joined, states := named[s := e], values[s := lei];
    forall f: Id
      ensures JoinedLeis(joined, states, f) == JoinedLeis(named, values, f) + if f == e then {lei} else {}
    {
      forall l | l in JoinedLeis(named, values, f) ensures l in JoinedLeis(joined, states, f) {
        var u :| u in named && named[u] == f && values[u] == l;
        assert u in joined && joined[u] == f && states[u] == l;
      }
      if f == e {
        assert s in joined && joined[s] == f && states[s] == lei;
      }
    }
  }

  /** What the loop's held LEIs refuse is what the rule's veto does. */
  lemma HeldRefuses(order: seq<Subject>, i: nat, held: map<Id, set<Lei>>, leis: map<Id, set<Lei>>, named: map<Subject, Id>,
                    values: map<Subject, Lei>, e: Id, lei: Lei)
    requires i <= |order| && named.Keys == values.Keys && HeldAre(held, leis, named, values)
    requires forall s :: s in named ==> s in order[..i]
    ensures LeisOf(held, e) - {lei} != {} <==> Refused(order, i, leis, named, values, e, lei)
  {
    assert LeisOf(held, e) == LeisOf(leis, e) + JoinedLeis(named, values, e);
    if l :| l in LeisOf(held, e) - {lei} {
      if l !in LeisOf(leis, e) {
        var u :| u in named && named[u] == e && values[u] == l;
        assert u in order[..i];
      }
    }
    if Refused(order, i, leis, named, values, e, lei) {
      if l :| l in LeisOf(leis, e) && l != lei {
        assert l in LeisOf(held, e) - {lei};
      } else {
        var j :| 0 <= j < i && order[j] in named && named[order[j]] == e && values[order[j]] != lei;
        assert values[order[j]] in JoinedLeis(named, values, e);
        assert values[order[j]] in LeisOf(held, e) - {lei};
      }
    }
  }

  lemma RefusedStays(order: seq<Subject>, i: nat, leis: map<Id, set<Lei>>, named: map<Subject, Id>, values: map<Subject, Lei>,
                     s: Subject, f: Id, l: Lei, e: Id, lei: Lei)
    requires i <= |order| && named.Keys == values.Keys && s !in order[..i]
    ensures Refused(order, i, leis, named[s := f], values[s := l], e, lei) <==> Refused(order, i, leis, named, values, e, lei)
  {
    assert forall j :: 0 <= j < i ==> order[j] in order[..i];
  }

  /** What becomes of the `i`-th candidate. */
  ghost predicate Settled(vetoes: bool, reach: map<Subject, set<Id>>, stated: map<Subject, Lei>, order: seq<Subject>,
                          leis: map<Id, set<Lei>>, named: map<Subject, Id>, values: map<Subject, Lei>, i: nat)
    requires i < |order| && order[i] in reach && order[i] in stated && named.Keys == values.Keys
  {
    order[i] in named <==>
      exists e: Id :: reach[order[i]] == {e} && !(vetoes && Refused(order, i, leis, named, values, e, stated[order[i]]))
  }

  /** The candidates, in order, each joined to the one master it reaches, unless the rule vetoes a master that by
      then holds another LEI. */
  method SelectOne(vetoes: bool, reach: map<Subject, set<Id>>, stated: map<Subject, Lei>, order: seq<Subject>,
                   leis: map<Id, set<Lei>>)
    returns (named: map<Subject, Id>, values: map<Subject, Lei>)
    requires reach.Keys == stated.Keys && forall s :: s in order <==> s in reach
    requires forall s :: s in reach ==> reach[s] != {}
    requires forall j, k :: 0 <= j < k < |order| ==> order[j] != order[k]
    ensures named.Keys == values.Keys <= reach.Keys
    ensures forall s :: s in named ==> reach[s] == {named[s]} && values[s] == stated[s]
    ensures vetoes ==> HeldLeisAgree(named, values, leis)
    ensures forall i :: 0 <= i < |order| ==> Settled(vetoes, reach, stated, order, leis, named, values, i)
  {
    hide HeldAre, Refused, Settled, HeldLeisAgree, LeisOf, JoinedLeis;
    named, values := map[], map[];
    var held: map<Id, set<Lei>> := leis;
    HeldAtFirst(leis);
    for i := 0 to |order|
      invariant named.Keys == values.Keys && forall s :: s in named ==> s in order[..i]
      invariant forall s :: s in named ==> reach[s] == {named[s]} && values[s] == stated[s]
      invariant HeldAre(held, leis, named, values)
      invariant vetoes ==> HeldLeisAgree(named, values, leis)
      invariant forall j :: 0 <= j < i ==> Settled(vetoes, reach, stated, order, leis, named, values, j)
    {
      var s := order[i];
      assert s !in order[..i];
      assert s !in named;
      if |reach[s]| > 1 {
        LeftOut(vetoes, reach, stated, order, leis, named, values, i);
        continue;
      }
      var e: Id :| e in reach[s];
      OnlyElement(reach[s], e);
      var others := LeisOf(held, e) - {stated[s]};
      HeldRefuses(order, i, held, leis, named, values, e, stated[s]);
      if vetoes && others != {} {
        LeftOut(vetoes, reach, stated, order, leis, named, values, i);
        continue;
      }
      JoinAgrees(order, i, held, leis, named, values, s, e, stated[s], vetoes);
      HeldNext(held, leis, named, values, s, e, stated[s]);
      SettledStays(vetoes, reach, stated, order, leis, named, values, i, s, e);
      held := held[e := LeisOf(held, e) + {stated[s]}];
      named, values := named[s := e], values[s := stated[s]];
    }
  }

  lemma HeldAtFirst(leis: map<Id, set<Lei>>)
    ensures HeldAre(leis, leis, map[], map[]) && HeldLeisAgree(map[], map[], leis)
  {
  }

  lemma LeftOut(vetoes: bool, reach: map<Subject, set<Id>>, stated: map<Subject, Lei>, order: seq<Subject>,
                leis: map<Id, set<Lei>>, named: map<Subject, Id>, values: map<Subject, Lei>, i: nat)
    requires i < |order| && order[i] in reach && order[i] in stated && named.Keys == values.Keys && order[i] !in named
    requires |reach[order[i]]| > 1
             || (vetoes && exists e: Id :: reach[order[i]] == {e} && Refused(order, i, leis, named, values, e, stated[order[i]]))
    ensures Settled(vetoes, reach, stated, order, leis, named, values, i)
  {
    hide Refused;
    if e: Id :| reach[order[i]] == {e} {
      assert forall f: Id :: reach[order[i]] == {f} ==> e in {f};
    }
  }

  lemma JoinAgrees(order: seq<Subject>, i: nat, held: map<Id, set<Lei>>, leis: map<Id, set<Lei>>, named: map<Subject, Id>,
                   values: map<Subject, Lei>, s: Subject, e: Id, lei: Lei, vetoes: bool)
    requires i <= |order| && named.Keys == values.Keys && s !in named && (forall u :: u in named ==> u in order[..i])
    requires vetoes ==> HeldLeisAgree(named, values, leis) && !Refused(order, i, leis, named, values, e, lei)
    ensures vetoes ==> HeldLeisAgree(named[s := e], values[s := lei], leis)
  {
    if vetoes {
      forall u | u in named && named[u] == e ensures values[u] == lei {
        var j :| 0 <= j < i && order[j] == u;
      }
    }
  }

  /** What became of the candidates before the `i`-th does not change when it joins, and it is settled. */
  lemma SettledStays(vetoes: bool, reach: map<Subject, set<Id>>, stated: map<Subject, Lei>, order: seq<Subject>,
                     leis: map<Id, set<Lei>>, named: map<Subject, Id>, values: map<Subject, Lei>, i: nat, s: Subject, e: Id)
    requires i < |order| && order[i] == s && reach.Keys == stated.Keys && named.Keys == values.Keys
    requires (forall u :: u in order <==> u in reach) && forall j, k :: 0 <= j < k < |order| ==> order[j] != order[k]
    requires reach[s] == {e} && !(vetoes && Refused(order, i, leis, named, values, e, stated[s]))
    requires forall j :: 0 <= j < i ==> Settled(vetoes, reach, stated, order, leis, named, values, j)
    ensures
      var joined, states := named[s := e], values[s := stated[s]];
      forall j :: 0 <= j <= i ==> Settled(vetoes, reach, stated, order, leis, joined, states, j)
  {
    hide Refused;
    var joined, states := named[s := e], values[s := stated[s]];
    forall j | 0 <= j <= i
      ensures Settled(vetoes, reach, stated, order, leis, joined, states, j)
    {
      assert order[j] in reach && s !in order[..j];
      forall f: Id
        ensures Refused(order, j, leis, named[s := e], values[s := stated[s]], f, stated[order[j]]) <==>
                Refused(order, j, leis, named, values, f, stated[order[j]])
      {
        RefusedStays(order, j, leis, named, values, s, e, stated[s], f, stated[order[j]]);
      }
      if j < i {
        assert Settled(vetoes, reach, stated, order, leis, named, values, j);
      }
    }
  }

  /** Each record joined reaches its master through a passing pair, and no other master. */
  ghost predicate JoinsOnlyReached(pairs: seq<Pair>, bound: map<Subject, Id>, waiting: set<Subject>, named: map<Subject, Id>) {
    && (forall s :: s in named ==> Reaches(pairs, |pairs|, bound, waiting, s, named[s]))
    && (forall s: Subject, e: Id :: s in named && Reaches(pairs, |pairs|, bound, waiting, s, e) ==> e == named[s])
  }

  /** A record that reaches a master and is not joined reaches several. */
  ghost predicate LeavesOnlyAmbiguous(pairs: seq<Pair>, bound: map<Subject, Id>, waiting: set<Subject>, named: map<Subject, Id>) {
    forall s: Subject, e: Id :: Reaches(pairs, |pairs|, bound, waiting, s, e) && s !in named ==>
      ReachesAnother(pairs, bound, waiting, s, e)
  }

  ghost predicate ReachesOnly(pairs: seq<Pair>, bound: map<Subject, Id>, waiting: set<Subject>, s: Subject, e: Id) {
    Reaches(pairs, |pairs|, bound, waiting, s, e) && forall f: Id :: Reaches(pairs, |pairs|, bound, waiting, s, f) ==> f == e
  }

  /** A master holds another LEI than a candidate states: before the rule, or through a candidate reached before it
      that the rule joined to the master. */
  ghost predicate Vetoed(pairs: seq<Pair>, bound: map<Subject, Id>, waiting: set<Subject>, leis: map<Id, set<Lei>>,
                         named: map<Subject, Id>, values: map<Subject, Lei>, s: Subject, e: Id, lei: Lei)
    requires named.Keys == values.Keys
  {
    || (exists l :: l in LeisOf(leis, e) && l != lei)
    || exists u :: u in named && named[u] == e && values[u] != lei && ReachedBefore(pairs, bound, waiting, u, s)
  }

  /** The rule's whole outcome: a waiting record joins a master exactly when its passing pairs reach that master
      alone and the rule does not veto it. */
  ghost predicate JoinsExactly(rule: NameRule, bound: map<Subject, Id>, waiting: set<Subject>, leis: map<Id, set<Lei>>,
                               named: map<Subject, Id>, values: map<Subject, Lei>) {
    && named.Keys == values.Keys
    && (forall s :: s in named ==> ReachesOnly(rule.pairs, bound, waiting, s, named[s])
                                   && LastStates(rule.pairs, |rule.pairs|, bound, waiting, s, values[s]))
    && forall s: Subject, e: Id, l: Lei ::
         ReachesOnly(rule.pairs, bound, waiting, s, e) && LastStates(rule.pairs, |rule.pairs|, bound, waiting, s, l) ==>
           (s in named <==> !(rule.vetoes && Vetoed(rule.pairs, bound, waiting, leis, named, values, s, e, l)))
  }

  /** One rule over its pairs: which waiting records join which master. `leis` gives the LEIs each master
      holds as the rule starts. */
  method ApplyRule(rule: NameRule, bound: map<Subject, Id>, waiting: set<Subject>, leis: map<Id, set<Lei>>)
    returns (named: map<Subject, Id>, values: map<Subject, Lei>)
    ensures named.Keys == values.Keys <= waiting
    ensures JoinsExactly(rule, bound, waiting, leis, named, values)
    ensures JoinsOnlyReached(rule.pairs, bound, waiting, named)
    ensures if rule.vetoes then HeldLeisAgree(named, values, leis)
            else LeavesOnlyAmbiguous(rule.pairs, bound, waiting, named)
  {
    hide JoinsExactly, Matches, ReachedBefore, LastStates, Reaches, HeldLeisAgree, Settled;
    var reach, stated, order := GatherReach(rule.pairs, bound, waiting);
    forall j, k | 0 <= j < k < |order| ensures order[j] != order[k] {
      OneReachedFirst(rule.pairs, bound, waiting, order[j], order[k]);
    }
    named, values := SelectOne(rule.vetoes, reach, stated, order, leis);
    SettledJoins(rule, bound, waiting, leis, reach, stated, order, named, values);
    ExactJoins(rule, bound, waiting, leis, named, values);
  }

  /** Refusals by place in the order are refusals by who was reached before. */
  lemma RefusedIsVetoed(pairs: seq<Pair>, bound: map<Subject, Id>, waiting: set<Subject>, order: seq<Subject>, i: nat,
                        leis: map<Id, set<Lei>>, named: map<Subject, Id>, values: map<Subject, Lei>, e: Id, lei: Lei)
    requires i < |order| && named.Keys == values.Keys && forall u :: u in named ==> u in order
    requires forall j, k :: 0 <= j < k < |order| ==> ReachedBefore(pairs, bound, waiting, order[j], order[k])
    ensures Refused(order, i, leis, named, values, e, lei) <==> Vetoed(pairs, bound, waiting, leis, named, values, order[i], e, lei)
  {
    hide ReachedBefore;
    if u :| u in named && named[u] == e && values[u] != lei && ReachedBefore(pairs, bound, waiting, u, order[i]) {
      var j :| 0 <= j < |order| && order[j] == u;
      OneReachedFirst(pairs, bound, waiting, u, order[i]);
      assert j < i;
    }
  }

  lemma SettledJoins(rule: NameRule, bound: map<Subject, Id>, waiting: set<Subject>, leis: map<Id, set<Lei>>,
                     reach: map<Subject, set<Id>>, stated: map<Subject, Lei>, order: seq<Subject>,
                     named: map<Subject, Id>, values: map<Subject, Lei>)
    requires reach.Keys == stated.Keys && forall s :: s in order <==> s in reach
    requires forall j, k :: 0 <= j < k < |order| ==> ReachedBefore(rule.pairs, bound, waiting, order[j], order[k])
    requires forall s: Subject, e: Id :: Reaches(rule.pairs, |rule.pairs|, bound, waiting, s, e) <==> s in reach && e in reach[s]
    requires forall s: Subject, l: Lei :: LastStates(rule.pairs, |rule.pairs|, bound, waiting, s, l) <==> s in stated && stated[s] == l
    requires named.Keys == values.Keys <= reach.Keys
    requires forall s :: s in named ==> reach[s] == {named[s]} && values[s] == stated[s]
    requires forall i :: 0 <= i < |order| ==> Settled(rule.vetoes, reach, stated, order, leis, named, values, i)
    ensures JoinsExactly(rule, bound, waiting, leis, named, values)
  {
    hide Reaches, LastStates, ReachedBefore, Refused, Vetoed;
    forall s: Subject, e: Id, l: Lei |
        ReachesOnly(rule.pairs, bound, waiting, s, e) && LastStates(rule.pairs, |rule.pairs|, bound, waiting, s, l)
      ensures s in named <==> !(rule.vetoes && Vetoed(rule.pairs, bound, waiting, leis, named, values, s, e, l))
    {
      assert reach[s] == {e};
      var i :| 0 <= i < |order| && order[i] == s;
      assert Settled(rule.vetoes, reach, stated, order, leis, named, values, i);
      RefusedIsVetoed(rule.pairs, bound, waiting, order, i, leis, named, values, e, l);
    }
  }

  /** The exact outcome joins only what is reached, and without a veto leaves only the ambiguous. */
  lemma ExactJoins(rule: NameRule, bound: map<Subject, Id>, waiting: set<Subject>, leis: map<Id, set<Lei>>,
                   named: map<Subject, Id>, values: map<Subject, Lei>)
    requires JoinsExactly(rule, bound, waiting, leis, named, values)
    ensures named.Keys <= waiting && JoinsOnlyReached(rule.pairs, bound, waiting, named)
    ensures !rule.vetoes ==> LeavesOnlyAmbiguous(rule.pairs, bound, waiting, named)
  {
    hide Vetoed, LastStates, ReachedBefore;
    forall s: Subject, e: Id | Reaches(rule.pairs, |rule.pairs|, bound, waiting, s, e)
      ensures s in waiting && exists l :: LastStates(rule.pairs, |rule.pairs|, bound, waiting, s, l)
    {
      SomeStated(rule.pairs, bound, waiting, s, e);
    }
    if !rule.vetoes {
      forall s: Subject, e: Id | Reaches(rule.pairs, |rule.pairs|, bound, waiting, s, e) && s !in named
        ensures ReachesAnother(rule.pairs, bound, waiting, s, e)
      {
        var l :| LastStates(rule.pairs, |rule.pairs|, bound, waiting, s, l);
        assert !ReachesOnly(rule.pairs, bound, waiting, s, e);
      }
    }
  }

  /** A candidate that reaches a master states some LEI last. */
  lemma SomeStated(pairs: seq<Pair>, bound: map<Subject, Id>, waiting: set<Subject>, s: Subject, e: Id)
    requires Reaches(pairs, |pairs|, bound, waiting, s, e)
    ensures exists l :: LastStates(pairs, |pairs|, bound, waiting, s, l)
  {
    var i :| 0 <= i < |pairs| && pairs[i].passed && pairs[i].candidate == s && s in waiting
             && pairs[i].holder in bound && bound[pairs[i].holder] == e;
    var last := LastMatch(pairs, bound, waiting, i, s);
    assert LastStates(pairs, |pairs|, bound, waiting, s, pairs[last].lei);
  }

  lemma {:induction false} LastMatch(pairs: seq<Pair>, bound: map<Subject, Id>, waiting: set<Subject>, i: nat, s: Subject)
    returns (last: nat)
    requires Matches(pairs, bound, waiting, i, s)
    ensures Matches(pairs, bound, waiting, last, s) && forall j :: last < j < |pairs| ==> !Matches(pairs, bound, waiting, j, s)
    decreases |pairs| - i
  {
    if j :| i < j < |pairs| && Matches(pairs, bound, waiting, j, s) {
      last := LastMatch(pairs, bound, waiting, j, s);
    } else {
      last := i;
    }
  }

  lemma OneLast(pairs: seq<Pair>, bound: map<Subject, Id>, waiting: set<Subject>, s: Subject, l: Lei, k: Lei)
    requires LastStates(pairs, |pairs|, bound, waiting, s, l) && LastStates(pairs, |pairs|, bound, waiting, s, k)
    ensures l == k
  {
    var i :| 0 <= i < |pairs| && Matches(pairs, bound, waiting, i, s) && pairs[i].lei == l
             && forall j :: i < j < |pairs| ==> !Matches(pairs, bound, waiting, j, s);
    var m :| 0 <= m < |pairs| && Matches(pairs, bound, waiting, m, s) && pairs[m].lei == k
             && forall j :: m < j < |pairs| ==> !Matches(pairs, bound, waiting, j, s);
    assert i == m;
  }

  /** A record in both outcomes is on the same master with the same LEI. */
  lemma SameJoin(rule: NameRule, bound: map<Subject, Id>, waiting: set<Subject>, leis: map<Id, set<Lei>>,
                 named: map<Subject, Id>, values: map<Subject, Lei>, named': map<Subject, Id>, values': map<Subject, Lei>, s: Subject)
    requires JoinsExactly(rule, bound, waiting, leis, named, values) && JoinsExactly(rule, bound, waiting, leis, named', values')
    requires s in named && s in named'
    ensures named[s] == named'[s] && values[s] == values'[s]
  {
    hide LastStates, Vetoed;
    OneLast(rule.pairs, bound, waiting, s, values[s], values'[s]);
  }

  lemma {:induction false} SameJoined(rule: NameRule, bound: map<Subject, Id>, waiting: set<Subject>, leis: map<Id, set<Lei>>,
                                      named: map<Subject, Id>, values: map<Subject, Lei>,
                                      named': map<Subject, Id>, values': map<Subject, Lei>, i: nat, s: Subject)
    requires JoinsExactly(rule, bound, waiting, leis, named, values) && JoinsExactly(rule, bound, waiting, leis, named', values')
    requires Matches(rule.pairs, bound, waiting, i, s)
    ensures s in named <==> s in named'
    decreases i
  {
    hide JoinsExactly, LastStates, Reaches;
    Decided(rule, bound, waiting, leis, named, values, s);
    Decided(rule, bound, waiting, leis, named', values', s);
    forall u | ReachedBefore(rule.pairs, bound, waiting, u, s)
      ensures u in named <==> u in named'
      ensures u in named && u in named' ==> named[u] == named'[u] && values[u] == values'[u]
    {
      var m :| 0 <= m < |rule.pairs| && Matches(rule.pairs, bound, waiting, m, u)
               && forall j :: 0 <= j <= m ==> !Matches(rule.pairs, bound, waiting, j, s);
      SameJoined(rule, bound, waiting, leis, named, values, named', values', m, u);
      if u in named {
        SameJoin(rule, bound, waiting, leis, named, values, named', values', u);
      }
    }
    hide Matches, ReachedBefore, ReachesOnly;
  }

  /** Whether a record joins, said of the master and LEI it would join with. */
  lemma Decided(rule: NameRule, bound: map<Subject, Id>, waiting: set<Subject>, leis: map<Id, set<Lei>>,
                named: map<Subject, Id>, values: map<Subject, Lei>, s: Subject)
    requires JoinsExactly(rule, bound, waiting, leis, named, values)
    ensures named.Keys == values.Keys
    ensures s in named <==>
      exists e: Id, l: Lei :: ReachesOnly(rule.pairs, bound, waiting, s, e) && LastStates(rule.pairs, |rule.pairs|, bound, waiting, s, l)
                              && !(rule.vetoes && Vetoed(rule.pairs, bound, waiting, leis, named, values, s, e, l))
  {
    hide ReachesOnly, LastStates, Vetoed;
  }

  /** A rule's outcome is determined: no other records, masters or LEIs meet what is said of it. */
  lemma OneOutcome(rule: NameRule, bound: map<Subject, Id>, waiting: set<Subject>, leis: map<Id, set<Lei>>,
                   named: map<Subject, Id>, values: map<Subject, Lei>, named': map<Subject, Id>, values': map<Subject, Lei>)
    requires JoinsExactly(rule, bound, waiting, leis, named, values) && JoinsExactly(rule, bound, waiting, leis, named', values')
    ensures named == named' && values == values'
  {
    forall s | s in named || s in named'
      ensures s in named && s in named'
    {
      var i :| 0 <= i < |rule.pairs| && Matches(rule.pairs, bound, waiting, i, s);
      SameJoined(rule, bound, waiting, leis, named, values, named', values', i, s);
    }
    forall s | s in named
      ensures named[s] == named'[s] && values[s] == values'[s]
    {
      SameJoin(rule, bound, waiting, leis, named, values, named', values', s);
    }
  }

  lemma OnlyElement<T>(s: set<T>, e: T)
    requires e in s && |s| <= 1
    ensures s == {e}
  {
    assert |s - {e}| == 0;
  }

  lemma AnotherElement<T>(s: set<T>, e: T)
    requires |s| > 1
    ensures exists f :: f in s && f != e
  {
    if s <= {e} {
      assert |s| <= |{e}| by { assert s == {} || s == {e}; }
    }
  }

  /** A stored or staged record under a name id: its source, and its master once it has one. */
  datatype Member = Member(value: nat, subject: Subject, source: nat, entity: Option<Id>)

  datatype ExactRule = ExactRule(source: nat, holderSources: set<nat>)

  function MasterOf(m: Member, bound: map<Subject, Id>): Option<Id> {
    if m.entity.Some? then m.entity else if m.subject in bound then Some(bound[m.subject]) else None
  }

  /** A record is on the master it has, or without one on the master its subject is bound to. */
  ghost predicate IsOn(m: Member, bound: map<Subject, Id>, e: Id) {
    m.entity == Some(e) || (m.entity.None? && m.subject in bound && bound[m.subject] == e)
  }

  ghost predicate Holds(members: seq<Member>, n: nat, rule: ExactRule, bound: map<Subject, Id>, value: nat, e: Id)
    requires n <= |members|
  {
    exists i :: 0 <= i < n && members[i].value == value && members[i].source in rule.holderSources && IsOn(members[i], bound, e)
  }

  predicate Waits(m: Member, rule: ExactRule, bound: map<Subject, Id>) {
    m.entity.None? && m.subject !in bound && m.source == rule.source
  }

  /** `s` waits under `value`: the name id of the last of its waiting members among the first `n`. */
  ghost predicate WaitsUnder(members: seq<Member>, n: nat, rule: ExactRule, bound: map<Subject, Id>, s: Subject, value: nat)
    requires n <= |members|
  {
    exists i :: 0 <= i < n && Waits(members[i], rule, bound) && members[i].subject == s && members[i].value == value
                && forall j :: i < j < n ==> !(Waits(members[j], rule, bound) && members[j].subject == s)
  }

  lemma HoldsNext(members: seq<Member>, n: nat, rule: ExactRule, bound: map<Subject, Id>, value: nat, e: Id)
    requires n < |members|
    ensures Holds(members, n + 1, rule, bound, value, e) <==>
            Holds(members, n, rule, bound, value, e)
            || (members[n].value == value && members[n].source in rule.holderSources && IsOn(members[n], bound, e))
  {
  }

  lemma WaitsNext(members: seq<Member>, n: nat, rule: ExactRule, bound: map<Subject, Id>, s: Subject, value: nat)
    requires n < |members|
    ensures WaitsUnder(members, n + 1, rule, bound, s, value) <==>
            if Waits(members[n], rule, bound) && members[n].subject == s then members[n].value == value
            else WaitsUnder(members, n, rule, bound, s, value)
  {
    if WaitsUnder(members, n, rule, bound, s, value) {
      var i :| 0 <= i < n && Waits(members[i], rule, bound) && members[i].subject == s && members[i].value == value
               && forall j :: i < j < n ==> !(Waits(members[j], rule, bound) && members[j].subject == s);
    }
  }

  /** The masters holding the name id `s` waits under are `e` alone. */
  ghost predicate OneHolder(members: seq<Member>, rule: ExactRule, bound: map<Subject, Id>, s: Subject, e: Id) {
    exists v :: WaitsUnder(members, |members|, rule, bound, s, v) && Holds(members, |members|, rule, bound, v, e)
                && forall f :: Holds(members, |members|, rule, bound, v, f) ==> f == e
  }

  ghost predicate SeveralHolders(members: seq<Member>, rule: ExactRule, bound: map<Subject, Id>, s: Subject) {
    exists v, e, f :: WaitsUnder(members, |members|, rule, bound, s, v) && e != f
                      && Holds(members, |members|, rule, bound, v, e) && Holds(members, |members|, rule, bound, v, f)
  }

  /** The masters holding each name id, and the name id each waiting record waits under. */
  method GatherHolders(rule: ExactRule, members: seq<Member>, bound: map<Subject, Id>)
    returns (holding: map<nat, set<Id>>, waiting: map<Subject, nat>)
    ensures forall v: nat, e: Id :: Holds(members, |members|, rule, bound, v, e) <==> v in holding && e in holding[v]
    ensures forall s: Subject, v: nat :: WaitsUnder(members, |members|, rule, bound, s, v) <==> s in waiting && waiting[s] == v
  {
    holding, waiting := map[], map[];
    for i := 0 to |members|
      invariant forall v: nat, e: Id :: Holds(members, i, rule, bound, v, e) <==> v in holding && e in holding[v]
      invariant forall s: Subject, v: nat :: WaitsUnder(members, i, rule, bound, s, v) <==> s in waiting && waiting[s] == v
    {
      var m := members[i];
      var entity := MasterOf(m, bound);
      if entity.Some? && m.source in rule.holderSources {
        holding := holding[m.value := (if m.value in holding then holding[m.value] else {}) + {entity.value}];
      } else if entity.None? && m.source == rule.source {
        waiting := waiting[m.subject := m.value];
      }
      ghost var next := i + 1;
      forall v: nat, e: Id
        ensures Holds(members, next, rule, bound, v, e) <==> v in holding && e in holding[v]
      {
        HoldsNext(members, i, rule, bound, v, e);
      }
      forall s: Subject, v: nat
        ensures WaitsUnder(members, next, rule, bound, s, v) <==> s in waiting && waiting[s] == v
      {
        WaitsNext(members, i, rule, bound, s, v);
      }
    }
  }

  /** A waiting record joins the one master holding its name id; where several hold it, it goes to review;
      where none does, it waits on. */
  method ApplyExactRule(rule: ExactRule, members: seq<Member>, bound: map<Subject, Id>)
    returns (named: map<Subject, Id>, reviewed: set<Subject>)
    ensures forall s: Subject, e: Id {:trigger OneHolder(members, rule, bound, s, e)} ::
              s in named && named[s] == e <==> OneHolder(members, rule, bound, s, e)
    ensures forall s :: s in reviewed <==> SeveralHolders(members, rule, bound, s)
  {
    var holding, waiting := GatherHolders(rule, members, bound);
    named, reviewed := map[], {};
    var rest := waiting.Keys;
    while rest != {}
      invariant rest <= waiting.Keys
      invariant forall s :: s in named <==>
                  s in waiting && s !in rest && waiting[s] in holding && |holding[waiting[s]]| == 1
      invariant forall s :: s in named ==> holding[waiting[s]] == {named[s]}
      invariant forall s :: s in reviewed <==>
                  s in waiting && s !in rest && waiting[s] in holding && |holding[waiting[s]]| > 1
    {
      var s :| s in rest;
      rest := rest - {s};
      var found := if waiting[s] in holding then holding[waiting[s]] else {};
      if |found| == 1 {
        var e :| e in found;
        OnlyElement(found, e);
        named := named[s := e];
      } else if found != {} {
        assert |found| > 1;
        reviewed := reviewed + {s};
      }
    }
    forall s: Subject, e: Id
      ensures s in named && named[s] == e <==> OneHolder(members, rule, bound, s, e)
    {
      HolderCounted(rule, members, bound, holding, waiting, s, e);
      if s in waiting && waiting[s] in holding && e in holding[waiting[s]] && |holding[waiting[s]]| == 1 {
        OnlyElement(holding[waiting[s]], e);
      }
    }
    forall s: Subject
      ensures s in reviewed <==> SeveralHolders(members, rule, bound, s)
    {
      SeveralCounted(rule, members, bound, holding, waiting, s);
    }
  }

  lemma HolderCounted(rule: ExactRule, members: seq<Member>, bound: map<Subject, Id>,
                      holding: map<nat, set<Id>>, waiting: map<Subject, nat>, s: Subject, e: Id)
    requires forall v: nat, e: Id :: Holds(members, |members|, rule, bound, v, e) <==> v in holding && e in holding[v]
    requires forall s: Subject, v: nat :: WaitsUnder(members, |members|, rule, bound, s, v) <==> s in waiting && waiting[s] == v
    ensures OneHolder(members, rule, bound, s, e) <==>
            s in waiting && waiting[s] in holding && holding[waiting[s]] == {e}
  {
    if OneHolder(members, rule, bound, s, e) {
      var v :| WaitsUnder(members, |members|, rule, bound, s, v) && Holds(members, |members|, rule, bound, v, e)
               && forall f :: Holds(members, |members|, rule, bound, v, f) ==> f == e;
      assert forall f :: f in holding[v] ==> Holds(members, |members|, rule, bound, v, f);
    }
    if s in waiting && waiting[s] in holding && holding[waiting[s]] == {e} {
      assert WaitsUnder(members, |members|, rule, bound, s, waiting[s]);
      assert Holds(members, |members|, rule, bound, waiting[s], e);
    }
  }

  lemma SeveralCounted(rule: ExactRule, members: seq<Member>, bound: map<Subject, Id>,
                       holding: map<nat, set<Id>>, waiting: map<Subject, nat>, s: Subject)
    requires forall v: nat, e: Id :: Holds(members, |members|, rule, bound, v, e) <==> v in holding && e in holding[v]
    requires forall s: Subject, v: nat :: WaitsUnder(members, |members|, rule, bound, s, v) <==> s in waiting && waiting[s] == v
    ensures SeveralHolders(members, rule, bound, s) <==>
            s in waiting && waiting[s] in holding && |holding[waiting[s]]| > 1
  {
    if SeveralHolders(members, rule, bound, s) {
      var v, e, f :| WaitsUnder(members, |members|, rule, bound, s, v) && e != f
                     && Holds(members, |members|, rule, bound, v, e) && Holds(members, |members|, rule, bound, v, f);
      if |holding[v]| <= 1 {
        OnlyElement(holding[v], e);
      }
    }
    if s in waiting && waiting[s] in holding && |holding[waiting[s]]| > 1 {
      var v := waiting[s];
      var e :| e in holding[v];
      AnotherElement(holding[v], e);
      var f :| f in holding[v] && f != e;
      assert WaitsUnder(members, |members|, rule, bound, s, v);
      assert Holds(members, |members|, rule, bound, v, e) && Holds(members, |members|, rule, bound, v, f);
    }
  }
}
