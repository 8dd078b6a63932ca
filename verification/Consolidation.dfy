/** What a file's merge decisions mean, apart from the loop that applies them: masters joined by a
    chain of decisions are one class, and its eldest stored member (else its least id) survives. */
module Consolidation {
  // Master ids, in the order of their text.
  type Id = nat

  type Decision = (Id, Id)

  /** The order of `oldest`: stored masters first, by creation time and then id; the rest by id. */
  predicate Before(created: map<Id, nat>, a: Id, b: Id) {
    if a in created && b in created then created[a] < created[b] || (created[a] == created[b] && a < b)
    else if a in created || b in created then a in created
    else a < b
  }

  function Elder(created: map<Id, nat>, a: Id, b: Id): Id {
    if Before(created, b, a) then b else a
  }

  /** The master standing for `x` once the decisions have been applied in order. */
  function Survivor(ds: seq<Decision>, created: map<Id, nat>, x: Id): Id
    decreases |ds|
  {
    if ds == [] then x
    else
      var d, rest := ds[|ds| - 1], ds[..|ds| - 1];
      var left, right := Survivor(rest, created, d.0), Survivor(rest, created, d.1);
      var now := Survivor(rest, created, x);
      if now == left || now == right then Elder(created, left, right) else now
  }

  /** The survivors of a list of decisions, as a function of the master. */
  ghost function Survivors(ds: seq<Decision>, created: map<Id, nat>): Id -> Id {
    x => Survivor(ds, created, x)
  }

  // The reference: connection by a path of decisions, read in either direction.

  ghost predicate Linked(ds: seq<Decision>, a: Id, b: Id) {
    (a, b) in ds || (b, a) in ds
  }

  ghost predicate IsPath(ds: seq<Decision>, p: seq<Id>) {
    |p| > 0 && forall i {:trigger p[i + 1]} :: 0 <= i < |p| - 1 ==> Linked(ds, p[i], p[i + 1])
  }

  ghost predicate Joins(ds: seq<Decision>, p: seq<Id>, a: Id, b: Id) {
    IsPath(ds, p) && p[0] == a && p[|p| - 1] == b
  }

  ghost predicate Connected(ds: seq<Decision>, a: Id, b: Id) {
    exists p :: Joins(ds, p, a, b)
  }

  lemma LinkConnects(ds: seq<Decision>, a: Id, b: Id)
    requires a == b || Linked(ds, a, b)
    ensures Connected(ds, a, b)
  {
    if a == b {
      assert Joins(ds, [a], a, b);
    } else {
      assert Joins(ds, [a, b], a, b);
    }
  }

  lemma ConnectedSymmetric(ds: seq<Decision>, a: Id, b: Id)
    requires Connected(ds, a, b)
    ensures Connected(ds, b, a)
  {
    var p :| Joins(ds, p, a, b);
    var q := seq(|p|, i requires 0 <= i < |p| => p[|p| - 1 - i]);
    forall i | 0 <= i < |q| - 1
      ensures Linked(ds, q[i], q[i + 1])
    {
      var j := |p| - 2 - i;
      assert Linked(ds, p[j], p[j + 1]);
    }
    assert Joins(ds, q, b, a);
  }

  lemma ConnectedTransitive(ds: seq<Decision>, a: Id, b: Id, c: Id)
    requires Connected(ds, a, b) && Connected(ds, b, c)
    ensures Connected(ds, a, c)
  {
    var p :| Joins(ds, p, a, b);
    var q :| Joins(ds, q, b, c);
    var r := p + q[1..];
    forall i | 0 <= i < |r| - 1
      ensures Linked(ds, r[i], r[i + 1])
    {
      if i < |p| - 1 {
        assert Linked(ds, p[i], p[i + 1]);
      } else {
        var j := i - (|p| - 1);
        assert Linked(ds, q[j], q[j + 1]);
      }
    }
    assert Joins(ds, r, a, c);
  }

  lemma ConnectedGrows(ds: seq<Decision>, es: seq<Decision>, a: Id, b: Id)
    requires forall x, y :: Linked(ds, x, y) ==> Linked(es, x, y)
    requires Connected(ds, a, b)
    ensures Connected(es, a, b)
  {
    var p :| Joins(ds, p, a, b);
    forall i | 0 <= i < |p| - 1
      ensures Linked(es, p[i], p[i + 1])
    {
      assert Linked(ds, p[i], p[i + 1]);
    }
    assert Joins(es, p, a, b);
  }

  /** A survivor is reached from each master it stands for. */
  lemma {:induction false} SurvivorConnected(ds: seq<Decision>, created: map<Id, nat>, x: Id)
    ensures Connected(ds, x, Survivor(ds, created, x))
    decreases |ds|
  {
    if ds == [] {
      LinkConnects(ds, x, x);
    } else {
      var d, rest := ds[|ds| - 1], ds[..|ds| - 1];
      assert ds == rest + [d];
      assert forall y, z :: Linked(rest, y, z) ==> Linked(ds, y, z);
      var left, right := Survivor(rest, created, d.0), Survivor(rest, created, d.1);
      var now := Survivor(rest, created, x);
      forall y | y == x || y == d.0 || y == d.1
        ensures Connected(ds, y, Survivor(rest, created, y))
        ensures Connected(ds, Survivor(rest, created, y), y)
      {
        SurvivorConnected(rest, created, y);
        ConnectedGrows(rest, ds, y, Survivor(rest, created, y));
        ConnectedSymmetric(ds, y, Survivor(rest, created, y));
      }
      LinkConnects(ds, d.0, d.1);
      ConnectedTransitive(ds, left, d.0, d.1);
      ConnectedTransitive(ds, left, d.1, right);
      ConnectedSymmetric(ds, left, right);
      if now == left {
        ConnectedTransitive(ds, x, left, right);
      } else if now == right {
        ConnectedTransitive(ds, x, right, left);
      }
    }
  }

  lemma {:induction false} LinkedSurvivors(ds: seq<Decision>, created: map<Id, nat>, a: Id, b: Id)
    requires Linked(ds, a, b)
    ensures Survivor(ds, created, a) == Survivor(ds, created, b)
    decreases |ds|
  {
    var d, rest := ds[|ds| - 1], ds[..|ds| - 1];
    assert ds == rest + [d];
    if Linked(rest, a, b) {
      LinkedSurvivors(rest, created, a, b);
    }
  }

  lemma {:induction false} PathSurvivors(ds: seq<Decision>, created: map<Id, nat>, p: seq<Id>)
    requires IsPath(ds, p)
    ensures Survivor(ds, created, p[0]) == Survivor(ds, created, p[|p| - 1])
    decreases |p|
  {
    if |p| > 1 {
      var last := |p| - 2;
      assert Linked(ds, p[last], p[last + 1]);
      LinkedSurvivors(ds, created, p[last], p[last + 1]);
      var front := p[..last + 1];
      forall i | 0 <= i < |front| - 1
        ensures Linked(ds, front[i], front[i + 1])
      {
        assert Linked(ds, p[i], p[i + 1]);
      }
      PathSurvivors(ds, created, front);
    }
  }

  /** Two masters end as one exactly when the file's decisions connect them. */
  lemma SameSurvivorIffConnected(ds: seq<Decision>, created: map<Id, nat>, a: Id, b: Id)
    ensures Survivor(ds, created, a) == Survivor(ds, created, b) <==> Connected(ds, a, b)
  {
    if Connected(ds, a, b) {
      var p :| Joins(ds, p, a, b);
      PathSurvivors(ds, created, p);
    }
    if Survivor(ds, created, a) == Survivor(ds, created, b) {
      SurvivorConnected(ds, created, a);
      SurvivorConnected(ds, created, b);
      ConnectedSymmetric(ds, b, Survivor(ds, created, b));
      ConnectedTransitive(ds, a, Survivor(ds, created, a), b);
    }
  }

  lemma {:induction false} SurvivorNotYounger(ds: seq<Decision>, created: map<Id, nat>, x: Id)
    ensures Survivor(ds, created, x) == x || Before(created, Survivor(ds, created, x), x)
    decreases |ds|
  {
    if ds != [] {
      SurvivorNotYounger(ds[..|ds| - 1], created, x);
    }
  }

  /** A class's survivor is its eldest stored member, or its least id when none is stored. */
  lemma SurvivorIsEldest(ds: seq<Decision>, created: map<Id, nat>, x: Id)
    ensures Connected(ds, x, Survivor(ds, created, x))
    ensures forall y :: Connected(ds, x, y) ==>
                          Survivor(ds, created, x) == y || Before(created, Survivor(ds, created, x), y)
  {
    SurvivorConnected(ds, created, x);
    forall y | Connected(ds, x, y)
      ensures Survivor(ds, created, x) == y || Before(created, Survivor(ds, created, x), y)
    {
      SameSurvivorIffConnected(ds, created, x, y);
      SurvivorNotYounger(ds, created, y);
    }
  }

  /** The order of the decisions, their direction and repeats do not matter. */
  lemma SurvivorIgnoresOrder(ds: seq<Decision>, es: seq<Decision>, created: map<Id, nat>, x: Id)
    requires forall a, b :: Linked(ds, a, b) <==> Linked(es, a, b)
    ensures Survivor(ds, created, x) == Survivor(es, created, x)
  {
    SurvivorIsEldest(ds, created, x);
    SurvivorIsEldest(es, created, x);
    ConnectedGrows(ds, es, x, Survivor(ds, created, x));
    ConnectedGrows(es, ds, x, Survivor(es, created, x));
  }

  /** A survivor stands for itself. */
  lemma SurvivorStable(ds: seq<Decision>, created: map<Id, nat>, x: Id)
    ensures Survivor(ds, created, Survivor(ds, created, x)) == Survivor(ds, created, x)
  {
    SurvivorConnected(ds, created, x);
    SameSurvivorIffConnected(ds, created, x, Survivor(ds, created, x));
  }

  function Ends(ds: seq<Decision>): set<Id> {
    (set d | d in ds :: d.0) + (set d | d in ds :: d.1)
  }

  /** A survivor is the master itself or one the decisions name. */
  lemma {:induction false} SurvivorNamed(ds: seq<Decision>, created: map<Id, nat>, x: Id)
    ensures Survivor(ds, created, x) == x || Survivor(ds, created, x) in Ends(ds)
    decreases |ds|
  {
    if ds != [] {
      var d, rest := ds[|ds| - 1], ds[..|ds| - 1];
      assert ds == rest + [d];
      assert d.0 in Ends(ds) && d.1 in Ends(ds) && Ends(rest) <= Ends(ds);
      SurvivorNamed(rest, created, x);
      SurvivorNamed(rest, created, d.0);
      SurvivorNamed(rest, created, d.1);
    }
  }

  /** A master no decision names is left alone. */
  lemma {:induction false} SurvivorOutside(ds: seq<Decision>, created: map<Id, nat>, x: Id)
    requires x !in Ends(ds)
    ensures Survivor(ds, created, x) == x
    decreases |ds|
  {
    if ds != [] {
      var d, rest := ds[|ds| - 1], ds[..|ds| - 1];
      assert ds == rest + [d];
      assert d.0 in Ends(ds) && d.1 in Ends(ds) && Ends(rest) <= Ends(ds);
      SurvivorOutside(rest, created, x);
      SurvivorNamed(rest, created, d.0);
      SurvivorNamed(rest, created, d.1);
    }
  }

  /** One more decision: both sides' classes take the elder of their survivors, and nothing else moves. */
  lemma SurvivorStep(ds: seq<Decision>, d: Decision, created: map<Id, nat>, x: Id)
    ensures
      var left, right := Survivor(ds, created, d.0), Survivor(ds, created, d.1);
      var now := Survivor(ds, created, x);
      Survivor(ds + [d], created, x) == if now == left || now == right then Elder(created, left, right) else now
  {
    assert (ds + [d])[..|ds + [d]| - 1] == ds;
  }
}
