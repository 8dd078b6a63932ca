/** The cascade: SEC filers matched to GLEIF entities in passes, each binding only the pairs that are one to
    one among what the passes before it left. */
module Cascade {
  import opened Prelude

  type Cik = string
  type Lei = string

  datatype Place = Place(street: set<string>, city: string, postcode: Option<string>, country: Option<string>, key: Option<string>)

  datatype Part = Street | City | Postcode

  // A pass: its name, and the parts it compares, each a list of alternatives; None compares the name alone.
  datatype Pass = Pass(name: string, compare: Option<seq<seq<Part>>>)

  datatype Filer = Filer(cik: Cik, key: string, place: Place, incorporated: Option<string>, businessCountry: Option<string>)

  datatype Entity = Entity(lei: Lei, keys: set<string>, place: Place, jurisdiction: Option<string>, eligible: bool,
                           lastUpdate: string, legal: string)

  datatype Match = Match(lei: Lei, lastUpdate: string, pass: string, conflict: bool, notUnique: bool, key: string, legalName: bool)

  // The two comparisons the rules engine makes, and the address counts of both whole sources.
  datatype Tests = Tests(postcodesAgree: (Place, Place) -> bool, conflict: (Filer, Entity) -> bool,
                         addressCounts: map<string, nat>, overShared: nat)

  function PartAgrees(t: Tests, sec: Place, gleif: Place, part: Part): bool {
    match part
    case Street => sec.street * gleif.street != {}
    case City => sec.city != "" && sec.city == gleif.city
    case Postcode => t.postcodesAgree(sec, gleif)
  }

  predicate AnyAgrees(t: Tests, sec: Place, gleif: Place, alternatives: seq<Part>) {
    exists j :: 0 <= j < |alternatives| && PartAgrees(t, sec, gleif, alternatives[j])
  }

  /** Whether two places agree on a pass's parts: every part, each by any of its alternatives. */
  predicate Agrees(t: Tests, sec: Place, gleif: Place, compare: Option<seq<seq<Part>>>) {
    compare.None?
    || (sec.country.Some? && sec.country.value != "" && sec.country == gleif.country
        && forall i :: 0 <= i < |compare.value| ==> AnyAgrees(t, sec, gleif, compare.value[i]))
  }

  /** An address more than `overShared` entities use is compared by its country only. */
  function Usable(t: Tests, p: Place): Place {
    if p.key.Some? && p.key.value in t.addressCounts && t.addressCounts[p.key.value] > t.overShared
    then Place({}, "", None, p.country, None) else p
  }

  datatype Sides = Sides(filers: map<Cik, Filer>, entities: map<Lei, Entity>)

  // --- What one pass means ------------------------------------------------------------------

  /** A filer and an entity agree in a pass, whoever else does. */
  predicate Fits(t: Tests, s: Sides, p: Pass, c: Cik, l: Lei) {
    && c in s.filers && l in s.entities
    && s.filers[c].key != "" && s.filers[c].key in s.entities[l].keys && s.entities[l].eligible
    && Agrees(t, Usable(t, s.filers[c].place), Usable(t, s.entities[l].place), p.compare)
  }

  ghost predicate Taken(found: map<Cik, Match>, l: Lei) {
    exists c :: c in found && found[c].lei == l
  }

  /** They agree and both were left by the passes before. */
  ghost predicate Open(t: Tests, s: Sides, found: map<Cik, Match>, p: Pass, c: Cik, l: Lei) {
    Fits(t, s, p, c, l) && c !in found && !Taken(found, l)
  }

  /** The filer agrees with exactly this entity left, and the entity with exactly this filer left. */
  ghost predicate OneToOne(t: Tests, s: Sides, found: map<Cik, Match>, p: Pass, c: Cik, l: Lei) {
    && Open(t, s, found, p, c, l)
    && (forall m :: Open(t, s, found, p, c, m) ==> m == l)
    && (forall d :: Open(t, s, found, p, d, l) ==> d == c)
  }

  ghost predicate Bindable(t: Tests, s: Sides, found: map<Cik, Match>, p: Pass, c: Cik) {
    exists l :: OneToOne(t, s, found, p, c, l)
  }

  /** Another filer, or another eligible entity, holds the name. */
  predicate NameShared(s: Sides, c: Cik, l: Lei)
    requires c in s.filers && l in s.entities
  {
    (exists d :: d in s.filers && d != c && s.filers[d].key == s.filers[c].key)
    || (exists m :: m in s.entities && m != l && s.entities[m].eligible && s.filers[c].key in s.entities[m].keys)
  }

  function MatchOf(t: Tests, s: Sides, p: Pass, c: Cik, l: Lei): Match
    requires c in s.filers && l in s.entities
  {
    var f, e := s.filers[c], s.entities[l];
    Match(l, e.lastUpdate, p.name, t.conflict(f, e), NameShared(s, c, l), f.key, e.legal == f.key)
  }

  /** One pass: every pair one to one among what was left is bound. */
  ghost function PassStep(t: Tests, s: Sides, found: map<Cik, Match>, p: Pass): map<Cik, Match> {
    map c | c in found.Keys + s.filers.Keys && (c in found || Bindable(t, s, found, p, c)) ::
      if c in found then found[c]
      else
        var l :| OneToOne(t, s, found, p, c, l);
        MatchOf(t, s, p, c, l)
  }

  /** The passes in order. */
  ghost function Assigned(t: Tests, s: Sides, passes: seq<Pass>): map<Cik, Match>
    decreases |passes|
  {
    if passes == [] then map[]
    else PassStep(t, s, Assigned(t, s, passes[..|passes| - 1]), passes[|passes| - 1])
  }

  // --- What every assignment is -------------------------------------------------------------

  ghost predicate NoEntityTwice(found: map<Cik, Match>) {
    forall c, d :: c in found && d in found && found[c].lei == found[d].lei ==> c == d
  }

  lemma {:induction false} AssignedOneToOne(t: Tests, s: Sides, passes: seq<Pass>)
    ensures NoEntityTwice(Assigned(t, s, passes))
    decreases |passes|
  {
    if passes != [] {
      AssignedOneToOne(t, s, passes[..|passes| - 1]);
    }
  }

  /** The `i`-th pass bound this match: its pair was one to one among what the passes before it had left. */
  ghost predicate BoundBy(t: Tests, s: Sides, passes: seq<Pass>, i: nat, c: Cik, m: Match) {
    && i < |passes| && c in s.filers && m.lei in s.entities
    && OneToOne(t, s, Assigned(t, s, passes[..i]), passes[i], c, m.lei)
    && m == MatchOf(t, s, passes[i], c, m.lei)
  }

  /** Every match was bound by one of the passes. */
  lemma {:induction false} AssignedWasUnique(t: Tests, s: Sides, passes: seq<Pass>, c: Cik)
    requires c in Assigned(t, s, passes)
    ensures exists i: nat :: BoundBy(t, s, passes, i, c, Assigned(t, s, passes)[c])
    decreases |passes|
  {
    hide OneToOne;
    var last := |passes| - 1;
    var rest := passes[..last];
    if c in Assigned(t, s, rest) {
      AssignedWasUnique(t, s, rest, c);
      var i: nat :| BoundBy(t, s, rest, i, c, Assigned(t, s, rest)[c]);
      assert rest[..i] == passes[..i];
      assert BoundBy(t, s, passes, i, c, Assigned(t, s, passes)[c]);
    } else {
      StepBinds(t, s, Assigned(t, s, rest), passes[last], c);
      assert BoundBy(t, s, passes, last, c, Assigned(t, s, passes)[c]);
    }
  }

  lemma StepBinds(t: Tests, s: Sides, found: map<Cik, Match>, p: Pass, c: Cik)
    requires c in PassStep(t, s, found, p) && c !in found
    ensures
      var m := PassStep(t, s, found, p)[c];
      c in s.filers && m.lei in s.entities && OneToOne(t, s, found, p, c, m.lei) && m == MatchOf(t, s, p, c, m.lei)
  {
  }

  /** What a pass takes: the entities of the pairs it binds. */
  lemma TakenByPass(t: Tests, s: Sides, found: map<Cik, Match>, p: Pass, l: Lei)
    ensures Taken(PassStep(t, s, found, p), l) <==> Taken(found, l) || exists d :: OneToOne(t, s, found, p, d, l)
  {
    var once := PassStep(t, s, found, p);
    if Taken(found, l) {
      var c :| c in found && found[c].lei == l;
      assert c in once && once[c].lei == l;
    } else if d :| OneToOne(t, s, found, p, d, l) {
      assert Bindable(t, s, found, p, d);
      assert d in once && OneToOne(t, s, found, p, d, once[d].lei);
    }
  }

  /** A pair one to one after the pass was already one to one before it: a rival bound in the pass would have
      taken the pair's own filer or entity. */
  lemma StillOneToOne(t: Tests, s: Sides, found: map<Cik, Match>, p: Pass, c: Cik, l: Lei)
    requires OneToOne(t, s, PassStep(t, s, found, p), p, c, l)
    ensures OneToOne(t, s, found, p, c, l)
  {
    var once := PassStep(t, s, found, p);
    TakenByPass(t, s, found, p, l);
    forall m | Open(t, s, found, p, c, m)
      ensures Open(t, s, once, p, c, m)
    {
      TakenByPass(t, s, found, p, m);
      assert c !in once ==> !Bindable(t, s, found, p, c);
    }
    forall d | d in once && d !in found
      ensures OneToOne(t, s, found, p, d, once[d].lei) && Taken(once, once[d].lei)
    {
    }
    forall d | Open(t, s, found, p, d, l)
      ensures Open(t, s, once, p, d, l)
    {
    }
  }

  /** Running the pass just run binds nothing more. */
  lemma PassAgainBindsNothing(t: Tests, s: Sides, found: map<Cik, Match>, p: Pass)
    ensures PassStep(t, s, PassStep(t, s, found, p), p) == PassStep(t, s, found, p)
  {
    var once := PassStep(t, s, found, p);
    forall c, l | OneToOne(t, s, once, p, c, l)
      ensures Bindable(t, s, found, p, c)
    {
      StillOneToOne(t, s, found, p, c, l);
    }
  }

  /** Fewer passes give a part of the same assignment. */
  lemma {:induction false} PrefixIsPart(t: Tests, s: Sides, passes: seq<Pass>, n: nat)
    requires n <= |passes|
    ensures forall c :: c in Assigned(t, s, passes[..n]) ==>
              c in Assigned(t, s, passes) && Assigned(t, s, passes)[c] == Assigned(t, s, passes[..n])[c]
    decreases |passes|
  {
    if n < |passes| {
      var rest := passes[..|passes| - 1];
      PrefixIsPart(t, s, rest, n);
      assert rest[..n] == passes[..n];
    } else {
      assert passes[..n] == passes;
    }
  }

  /** More entities use the address than the limit. */
  predicate OverShared(t: Tests, p: Place) {
    p.key.Some? && p.key.value in t.addressCounts && t.addressCounts[p.key.value] > t.overShared
  }

  /** What of an address is compared: all of it, or its country alone. */
  function Reduced(t: Tests, p: Place): Place {
    if OverShared(t, p) then Place({}, "", None, p.country, None) else p
  }

  /** Two places have a street in common, or one city, neither by an over-shared address; or agreeing postcodes. */
  predicate PartShared(t: Tests, sec: Place, gleif: Place, part: Part) {
    || (part.Street? && !OverShared(t, sec) && !OverShared(t, gleif) && exists x :: x in sec.street && x in gleif.street)
    || (part.City? && !OverShared(t, sec) && !OverShared(t, gleif) && sec.city != "" && sec.city == gleif.city)
    || (part.Postcode? && t.postcodesAgree(Reduced(t, sec), Reduced(t, gleif)))
  }

  /** Of a list of alternatives, one part is shared. */
  ghost predicate Shares(t: Tests, sec: Place, gleif: Place, alternatives: seq<Part>) {
    exists part :: part in alternatives && PartShared(t, sec, gleif, part)
  }

  /** A filer and an entity agree in a pass, said of their names and places: the filer's name is one of an eligible
      entity's, and where the pass compares places they have one known country and, of each list of alternatives, a part. */
  ghost predicate Alike(t: Tests, s: Sides, p: Pass, c: Cik, l: Lei) {
    && c in s.filers && l in s.entities
    && s.filers[c].key != "" && s.filers[c].key in s.entities[l].keys && s.entities[l].eligible
    && (p.compare.Some? ==>
          var sec, gleif := s.filers[c].place, s.entities[l].place;
          && sec.country.Some? && gleif.country == sec.country && sec.country.value != ""
          && forall g :: g in p.compare.value ==> Shares(t, sec, gleif, g))
  }

  lemma FitsMeans(t: Tests, s: Sides, p: Pass, c: Cik, l: Lei)
    ensures Fits(t, s, p, c, l) <==> Alike(t, s, p, c, l)
  {
    if c in s.filers && l in s.entities && p.compare.Some? {
      var sec, gleif := s.filers[c].place, s.entities[l].place;
      CountryStays(t, sec);
      CountryStays(t, gleif);
      forall i | 0 <= i < |p.compare.value|
        ensures Shares(t, sec, gleif, p.compare.value[i]) <==> AnyAgrees(t, Usable(t, sec), Usable(t, gleif), p.compare.value[i])
      {
        SharesMeans(t, sec, gleif, p.compare.value[i]);
      }
      hide AnyAgrees, Usable, Shares;
      assert (forall g :: g in p.compare.value ==> Shares(t, sec, gleif, g)) <==>
             forall i :: 0 <= i < |p.compare.value| ==> Shares(t, sec, gleif, p.compare.value[i]);
    }
  }

  lemma SharesMeans(t: Tests, sec: Place, gleif: Place, alternatives: seq<Part>)
    ensures Shares(t, sec, gleif, alternatives) <==> AnyAgrees(t, Usable(t, sec), Usable(t, gleif), alternatives)
  {
    forall part ensures PartAgrees(t, Usable(t, sec), Usable(t, gleif), part) <==> PartShared(t, sec, gleif, part) {
      PartMeans(t, sec, gleif, part);
    }
    hide PartAgrees, PartShared, Usable;
    if part :| part in alternatives && PartShared(t, sec, gleif, part) {
      var j :| 0 <= j < |alternatives| && alternatives[j] == part;
    }
    if j :| 0 <= j < |alternatives| && PartAgrees(t, Usable(t, sec), Usable(t, gleif), alternatives[j]) {
      assert alternatives[j] in alternatives;
    }
  }

  lemma PartMeans(t: Tests, sec: Place, gleif: Place, part: Part)
    ensures PartAgrees(t, Usable(t, sec), Usable(t, gleif), part) <==> PartShared(t, sec, gleif, part)
  {
    if part.Street? {
      assert Usable(t, sec).street * Usable(t, gleif).street != {} <==>
             exists x :: x in Usable(t, sec).street && x in Usable(t, gleif).street by {
        if x :| x in Usable(t, sec).street && x in Usable(t, gleif).street {
          assert x in Usable(t, sec).street * Usable(t, gleif).street;
        }
      }
    }
  }

  lemma CountryStays(t: Tests, p: Place)
    ensures Usable(t, p).country == p.country
  {
  }

  /** A bound pair is alike in the pass its match names, and the match carries what the two sides say. */
  lemma BoundPairFits(t: Tests, s: Sides, passes: seq<Pass>, c: Cik)
    requires c in Assigned(t, s, passes)
    ensures
      var m := Assigned(t, s, passes)[c];
      && c in s.filers && m.lei in s.entities
      && (exists i :: 0 <= i < |passes| && passes[i].name == m.pass && Alike(t, s, passes[i], c, m.lei))
      && m.lastUpdate == s.entities[m.lei].lastUpdate && m.key == s.filers[c].key
      && m.legalName == (s.entities[m.lei].legal == m.key) && m.conflict == t.conflict(s.filers[c], s.entities[m.lei])
      && (m.notUnique <==> (exists d :: d in s.filers && d != c && s.filers[d].key == m.key)
                           || exists l :: l in s.entities && l != m.lei && s.entities[l].eligible && m.key in s.entities[l].keys)
  {
    AssignedWasUnique(t, s, passes, c);
    var m := Assigned(t, s, passes)[c];
    var i: nat :| BoundBy(t, s, passes, i, c, m);
    FitsMeans(t, s, passes[i], c, m.lei);
  }

  /** A pair that is alike in a pass, both sides of it left by the passes before, and all like either taken by those,
      is bound. */
  lemma LonePairIsBound(t: Tests, s: Sides, passes: seq<Pass>, i: nat, c: Cik, l: Lei)
    requires i < |passes| && Alike(t, s, passes[i], c, l)
    requires c !in Assigned(t, s, passes[..i]) && !Taken(Assigned(t, s, passes[..i]), l)
    requires forall m :: m != l && Alike(t, s, passes[i], c, m) ==> Taken(Assigned(t, s, passes[..i]), m)
    requires forall d :: d != c && Alike(t, s, passes[i], d, l) ==> d in Assigned(t, s, passes[..i])
    ensures c in Assigned(t, s, passes) && Assigned(t, s, passes)[c].lei == l && Assigned(t, s, passes)[c].pass == passes[i].name
  {
    var found, p := Assigned(t, s, passes[..i]), passes[i];
    forall d, m ensures Fits(t, s, p, d, m) <==> Alike(t, s, p, d, m) {
      FitsMeans(t, s, p, d, m);
    }
    hide Fits, Alike;
    assert OneToOne(t, s, found, p, c, l);
    assert passes[..i + 1][..i] == passes[..i];
    assert Assigned(t, s, passes[..i + 1]) == PassStep(t, s, found, p);
    StepBinds(t, s, found, p, c);
    PrefixIsPart(t, s, passes, i + 1);
  }

  // --- The loops ----------------------------------------------------------------------------

  /** The dict comprehension over a source: by key, a later row standing over an earlier one. */
  function ByCik(filers: seq<Filer>): map<Cik, Filer> {
    if filers == [] then map[] else ByCik(filers[..|filers| - 1])[filers[|filers| - 1].cik := filers[|filers| - 1]]
  }

  function ByLei(entities: seq<Entity>): map<Lei, Entity> {
    if entities == [] then map[] else ByLei(entities[..|entities| - 1])[entities[|entities| - 1].lei := entities[|entities| - 1]]
  }

  lemma {:induction false} ByCikHolds(filers: seq<Filer>)
    requires forall i, j :: 0 <= i < j < |filers| ==> filers[i].cik != filers[j].cik
    ensures forall c :: c in ByCik(filers) <==> exists i :: 0 <= i < |filers| && filers[i].cik == c
    ensures forall i :: 0 <= i < |filers| ==> filers[i].cik in ByCik(filers) && ByCik(filers)[filers[i].cik] == filers[i]
  {
    if filers != [] {
      ByCikHolds(filers[..|filers| - 1]);
    }
  }

  lemma {:induction false} ByLeiHolds(entities: seq<Entity>)
    requires forall i, j :: 0 <= i < j < |entities| ==> entities[i].lei != entities[j].lei
    ensures forall l :: l in ByLei(entities) <==> exists i :: 0 <= i < |entities| && entities[i].lei == l
    ensures forall i :: 0 <= i < |entities| ==> entities[i].lei in ByLei(entities) && ByLei(entities)[entities[i].lei] == entities[i]
  {
    if entities != [] {
      ByLeiHolds(entities[..|entities| - 1]);
    }
  }

  /** With distinct CIKs and LEIs, the order the sources are read in changes nothing. */
  lemma OrderIrrelevant(t: Tests, filers: seq<Filer>, filers': seq<Filer>, entities: seq<Entity>, entities': seq<Entity>,
                        passes: seq<Pass>)
    requires forall i, j :: 0 <= i < j < |filers| ==> filers[i].cik != filers[j].cik
    requires forall i, j :: 0 <= i < j < |filers'| ==> filers'[i].cik != filers'[j].cik
    requires forall i, j :: 0 <= i < j < |entities| ==> entities[i].lei != entities[j].lei
    requires forall i, j :: 0 <= i < j < |entities'| ==> entities'[i].lei != entities'[j].lei
    requires (forall f :: f in filers <==> f in filers') && (forall e :: e in entities <==> e in entities')
    ensures Assigned(t, Sides(ByCik(filers), ByLei(entities)), passes) == Assigned(t, Sides(ByCik(filers'), ByLei(entities')), passes)
  {
    SameByCik(filers, filers');
    SameByLei(entities, entities');
  }

  lemma SameByCik(one: seq<Filer>, other: seq<Filer>)
    requires forall i, j :: 0 <= i < j < |one| ==> one[i].cik != one[j].cik
    requires forall i, j :: 0 <= i < j < |other| ==> other[i].cik != other[j].cik
    requires forall f :: f in one <==> f in other
    ensures ByCik(one) == ByCik(other)
  {
    hide ByCik;
    ByCikHolds(one);
    ByCikHolds(other);
    assert forall c :: c in ByCik(one) ==> c in ByCik(other) && ByCik(one)[c] == ByCik(other)[c] by {
      forall c | c in ByCik(one) ensures c in ByCik(other) && ByCik(one)[c] == ByCik(other)[c] {
        var i :| 0 <= i < |one| && one[i].cik == c;
        assert one[i] in other;
      }
    }
    forall c | c in ByCik(other) ensures c in ByCik(one) {
      var i :| 0 <= i < |other| && other[i].cik == c;
      assert other[i] in one;
    }
  }

  lemma SameByLei(one: seq<Entity>, other: seq<Entity>)
    requires forall i, j :: 0 <= i < j < |one| ==> one[i].lei != one[j].lei
    requires forall i, j :: 0 <= i < j < |other| ==> other[i].lei != other[j].lei
    requires forall e :: e in one <==> e in other
    ensures ByLei(one) == ByLei(other)
  {
    hide ByLei;
    ByLeiHolds(one);
    ByLeiHolds(other);
    assert forall l :: l in ByLei(one) ==> l in ByLei(other) && ByLei(one)[l] == ByLei(other)[l] by {
      forall l | l in ByLei(one) ensures l in ByLei(other) && ByLei(one)[l] == ByLei(other)[l] {
        var i :| 0 <= i < |one| && one[i].lei == l;
        assert one[i] in other;
      }
    }
    forall l | l in ByLei(other) ensures l in ByLei(one) {
      var i :| 0 <= i < |other| && other[i].lei == l;
      assert other[i] in one;
    }
  }

  /** Whether a map of sets holds a value under a key. */
  predicate Holds<K(==), V(==)>(m: map<K, set<V>>, k: K, v: V) {
    k in m && v in m[k]
  }

  /** A map of sets with one more value under a key. */
  function Add<K(==), V(==)>(m: map<K, set<V>>, k: K, v: V): map<K, set<V>> {
    m[k := (if k in m then m[k] else {}) + {v}]
  }

  lemma AddIs<K, V>(m: map<K, set<V>>, k: K, v: V)
    ensures forall j: K, w: V :: Holds(Add(m, k, v), j, w) <==> Holds(m, j, w) || (j == k && w == v)
  {
    var now := (if k in m then m[k] else {}) + {v};
    PutIs(m, k, now);
    forall j: K, w: V
      ensures Holds(m[k := now], j, w) <==> Holds(m, j, w) || (j == k && w == v)
    {
      assert j == k ==> (w in now <==> Holds(m, k, w) || w == v);
    }
  }

  lemma PutIs<K, V>(m: map<K, set<V>>, k: K, vs: set<V>)
    ensures forall j: K, v: V :: Holds(m[k := vs], j, v) <==> (if j == k then v in vs else Holds(m, j, v))
  {
    var after := m[k := vs];
    forall j: K, v: V
      ensures Holds(after, j, v) <==> (if j == k then v in vs else Holds(m, j, v))
    {
      if j == k {
        assert j in after && after[j] == vs;
      } else {
        assert (j in after <==> j in m) && (j in m ==> after[j] == m[j]);
      }
    }
  }

  /** The filers by name, and the entities by each name they hold. */
  method IndexNames(s: Sides) returns (byKey: map<string, set<Cik>>, holders: map<string, set<Lei>>)
    ensures forall k, c :: k in byKey && c in byKey[k] <==> c in s.filers && s.filers[c].key == k
    ensures forall k, l :: k in holders && l in holders[k] <==> l in s.entities && k in s.entities[l].keys
  {
    byKey, holders := map[], map[];
    assert forall k: string, c: Cik :: !Holds(byKey, k, c) && !Holds(holders, k, c);
    var ciks := s.filers.Keys;
    while ciks != {}
      invariant ciks <= s.filers.Keys
      invariant forall k: string, c: Cik :: Holds(byKey, k, c) <==> c in s.filers && c !in ciks && s.filers[c].key == k
    {
      hide Holds, Add;
      var c :| c in ciks;
      ciks := ciks - {c};
      AddIs(byKey, s.filers[c].key, c);
      byKey := Add(byKey, s.filers[c].key, c);
    }
    var leis := s.entities.Keys;
    while leis != {}
      invariant leis <= s.entities.Keys
      invariant forall k: string, l: Lei :: Holds(holders, k, l) <==> l in s.entities && l !in leis && k in s.entities[l].keys
    {
      hide Holds, Add;
      var l :| l in leis;
      leis := leis - {l};
      holders := IndexEntity(holders, l, s.entities[l].keys);
    }
    forall k, c ensures k in byKey && c in byKey[k] <==> c in s.filers && s.filers[c].key == k {
      assert Holds(byKey, k, c) <==> c in s.filers && s.filers[c].key == k;
    }
    forall k, l ensures k in holders && l in holders[k] <==> l in s.entities && k in s.entities[l].keys {
      assert Holds(holders, k, l) <==> l in s.entities && k in s.entities[l].keys;
    }
  }

  method IndexEntity(was: map<string, set<Lei>>, l: Lei, names: set<string>) returns (holders: map<string, set<Lei>>)
    ensures forall k: string, m: Lei :: Holds(holders, k, m) <==> Holds(was, k, m) || (m == l && k in names)
  {
    hide Holds, Add;
    holders := was;
    var rest := names;
    while rest != {}
      invariant rest <= names
      invariant forall k: string, m: Lei :: Holds(holders, k, m) <==> Holds(was, k, m) || (m == l && k in names && k !in rest)
    {
      var k :| k in rest;
      rest := rest - {k};
      AddIs(holders, k, l);
      holders := Add(holders, k, l);
    }
  }

  /** One filer's proposals: the entities left it agrees with, each claimed by it. */
  method ProposeFor(t: Tests, s: Sides, p: Pass, found: map<Cik, Match>, taken: set<Lei>, holders: map<string, set<Lei>>, c: Cik,
                    claims: map<Lei, set<Cik>>)
    returns (open: set<Lei>, after: map<Lei, set<Cik>>)
    requires c in s.filers && forall k, l :: k in holders && l in holders[k] <==> l in s.entities && k in s.entities[l].keys
    requires forall l :: l in taken <==> Taken(found, l)
    ensures forall l :: l in open <==> Open(t, s, found, p, c, l)
    ensures forall d: Cik, l: Lei :: Holds(after, l, d) <==> Holds(claims, l, d) || (d == c && l in open)
  {
    hide Taken, Agrees, Usable, Holds, Add;
    var f := s.filers[c];
    var leis := if c in found || f.key == "" || f.key !in holders then {} else holders[f.key];
    ghost var candidates := leis;
    open, after := {}, claims;
    while leis != {}
      invariant leis <= candidates
      invariant forall l :: l in open <==> l in candidates && l !in leis && Open(t, s, found, p, c, l)
      invariant forall d: Cik, l: Lei :: Holds(after, l, d) <==> Holds(claims, l, d) || (d == c && l in open)
    {
      var l :| l in leis;
      leis := leis - {l};
      if l !in taken && s.entities[l].eligible && Agrees(t, Usable(t, f.place), Usable(t, s.entities[l].place), p.compare) {
        AddIs(after, l, c);
        open, after := open + {l}, Add(after, l, c);
      }
    }
  }

  /** A pass's first loop: each filer left proposes the entities left it agrees with, and each entity is claimed
      by the filers that propose it. */
  method Propose(t: Tests, s: Sides, p: Pass, found: map<Cik, Match>, taken: set<Lei>, holders: map<string, set<Lei>>)
    returns (proposals: map<Cik, set<Lei>>, claims: map<Lei, set<Cik>>)
    requires forall k, l :: k in holders && l in holders[k] <==> l in s.entities && k in s.entities[l].keys
    requires forall l :: l in taken <==> Taken(found, l)
    ensures forall c, l :: c in proposals && l in proposals[c] <==> Open(t, s, found, p, c, l)
    ensures forall c, l :: l in claims && c in claims[l] <==> Open(t, s, found, p, c, l)
  {
    OpenIsFiled(t, s, found, p);
    hide Open, Taken;
    proposals, claims := map[], map[];
    assert forall c: Cik, l: Lei :: !Holds(proposals, c, l) && !Holds(claims, l, c);
    var ciks := s.filers.Keys;
    while ciks != {}
      invariant ciks <= s.filers.Keys
      invariant forall c: Cik, l: Lei :: Holds(proposals, c, l) <==> c !in ciks && Open(t, s, found, p, c, l)
      invariant forall c: Cik, l: Lei :: Holds(claims, l, c) <==> c !in ciks && Open(t, s, found, p, c, l)
    {
      hide Holds;
      var c :| c in ciks;
      var open, after := ProposeFor(t, s, p, found, taken, holders, c, claims);
      PutIs(proposals, c, open);
      var left := ciks - {c};
      forall d: Cik, l: Lei
        ensures Holds(proposals[c := open], d, l) <==> d !in left && Open(t, s, found, p, d, l)
      {
        if d == c {
          assert Holds(proposals[c := open], d, l) <==> l in open;
        } else {
          assert Holds(proposals[c := open], d, l) <==> Holds(proposals, d, l);
        }
      }
      proposals, claims, ciks := proposals[c := open], after, left;
    }
    forall c, l
      ensures c in proposals && l in proposals[c] <==> Open(t, s, found, p, c, l)
      ensures l in claims && c in claims[l] <==> Open(t, s, found, p, c, l)
    {
      assert Holds(proposals, c, l) <==> Open(t, s, found, p, c, l);
      assert Holds(claims, l, c) <==> Open(t, s, found, p, c, l);
    }
  }

  lemma OpenIsFiled(t: Tests, s: Sides, found: map<Cik, Match>, p: Pass)
    ensures forall c, l :: Open(t, s, found, p, c, l) ==> c in s.filers
  {
  }

  ghost predicate BoundIn(t: Tests, s: Sides, found: map<Cik, Match>, p: Pass, c: Cik, m: Match) {
    c in s.filers && m.lei in s.entities && OneToOne(t, s, found, p, c, m.lei) && m == MatchOf(t, s, p, c, m.lei)
  }

  lemma Single<T>(s: set<T>, x: T)
    requires x in s
    ensures |s| == 1 <==> forall y :: y in s ==> y == x
  {
    if |s| == 1 {
      assert |s - {x}| == 0;
    }
    if forall y :: y in s ==> y == x {
      assert s == {x};
    }
  }

  lemma OnlyProposedBind(t: Tests, s: Sides, found: map<Cik, Match>, p: Pass, proposals: map<Cik, set<Lei>>)
    requires forall c, l :: c in proposals && l in proposals[c] <==> Open(t, s, found, p, c, l)
    ensures forall c, l :: OneToOne(t, s, found, p, c, l) ==> c in proposals && l in proposals[c]
  {
  }

  lemma SinglesAreOneToOne(t: Tests, s: Sides, found: map<Cik, Match>, p: Pass, proposals: map<Cik, set<Lei>>,
                           claims: map<Lei, set<Cik>>, c: Cik)
    requires forall c, l :: c in proposals && l in proposals[c] <==> Open(t, s, found, p, c, l)
    requires forall c, l :: l in claims && c in claims[l] <==> Open(t, s, found, p, c, l)
    requires c in proposals
    ensures forall l :: l in proposals[c] ==> c in s.filers && l in s.entities && l in claims && c !in found
                                              && s.filers[c].key in s.entities[l].keys && s.entities[l].eligible
    ensures forall l :: l in proposals[c] ==>
              (|proposals[c]| == 1 && |claims[l]| == 1 <==> OneToOne(t, s, found, p, c, l))
    ensures forall l :: OneToOne(t, s, found, p, c, l) ==> l in proposals[c]
  {
    forall l | l in proposals[c]
      ensures l in claims && (|proposals[c]| == 1 && |claims[l]| == 1 <==> OneToOne(t, s, found, p, c, l))
    {
      assert Open(t, s, found, p, c, l);
      Single(proposals[c], l);
      Single(claims[l], c);
    }
  }

  lemma SharedCounted(s: Sides, byKey: map<string, set<Cik>>, holders: map<string, set<Lei>>, c: Cik, l: Lei)
    requires forall k, c :: k in byKey && c in byKey[k] <==> c in s.filers && s.filers[c].key == k
    requires forall k, l :: k in holders && l in holders[k] <==> l in s.entities && k in s.entities[l].keys
    requires c in s.filers && l in s.entities && s.entities[l].eligible && s.filers[c].key in s.entities[l].keys
    ensures s.filers[c].key in byKey && s.filers[c].key in holders && c in byKey[s.filers[c].key] && l in holders[s.filers[c].key]
    ensures NameShared(s, c, l) <==>
            |byKey[s.filers[c].key]| > 1 || |set h | h in holders[s.filers[c].key] && h in s.entities && s.entities[h].eligible| > 1
  {
    var k := s.filers[c].key;
    assert k in byKey && c in byKey[k] && k in holders && l in holders[k];
    Single(byKey[k], c);
    assert |byKey[k]| > 1 <==> exists d :: d in s.filers && d != c && s.filers[d].key == k by {
      assert forall d :: d in byKey[k] <==> d in s.filers && s.filers[d].key == k;
    }
    var eligible := set h | h in holders[k] && h in s.entities && s.entities[h].eligible;
    assert l in eligible;
    Single(eligible, l);
    assert |eligible| > 1 <==> exists m :: m in s.entities && m != l && s.entities[m].eligible && k in s.entities[m].keys by {
      assert forall m :: m in eligible <==> m in s.entities && s.entities[m].eligible && k in s.entities[m].keys;
    }
  }

  lemma StepIs(t: Tests, s: Sides, found: map<Cik, Match>, p: Pass, after: map<Cik, Match>)
    requires forall c :: c in after <==> c in found || Bindable(t, s, found, p, c)
    requires forall c :: c in found ==> after[c] == found[c]
    requires forall c :: c in after && c !in found ==> BoundIn(t, s, found, p, c, after[c])
    ensures after == PassStep(t, s, found, p)
  {
    var once := PassStep(t, s, found, p);
    forall c | c in after && c !in found
      ensures after[c] == once[c]
    {
      StepBinds(t, s, found, p, c);
    }
    assert after.Keys == once.Keys;
  }

  /** One filer of a pass's second loop: bound where its proposal and the claim on it are both single. */
  method BindFor(t: Tests, s: Sides, p: Pass, ghost found: map<Cik, Match>, proposals: map<Cik, set<Lei>>, claims: map<Lei, set<Cik>>,
                 byKey: map<string, set<Cik>>, holders: map<string, set<Lei>>, c: Cik)
    returns (bound: Option<Match>)
    requires forall k, c :: k in byKey && c in byKey[k] <==> c in s.filers && s.filers[c].key == k
    requires forall k, l :: k in holders && l in holders[k] <==> l in s.entities && k in s.entities[l].keys
    requires forall c, l :: c in proposals && l in proposals[c] <==> Open(t, s, found, p, c, l)
    requires forall c, l :: l in claims && c in claims[l] <==> Open(t, s, found, p, c, l)
    requires c in proposals
    ensures forall l :: OneToOne(t, s, found, p, c, l) <==> bound.Some? && bound.value.lei == l
    ensures bound.Some? ==> c !in found && BoundIn(t, s, found, p, c, bound.value)
  {
    hide Open, OneToOne, NameShared;
    var leis := proposals[c];
    SinglesAreOneToOne(t, s, found, p, proposals, claims, c);
    bound := None;
    if |leis| == 1 {
      var l :| l in leis;
      Single(leis, l);
      if |claims[l]| == 1 {
        SharedCounted(s, byKey, holders, c, l);
        var f, e := s.filers[c], s.entities[l];
        var shared := |byKey[f.key]| > 1 || |set h | h in holders[f.key] && h in s.entities && s.entities[h].eligible| > 1;
        bound := Some(Match(l, e.lastUpdate, p.name, t.conflict(f, e), shared, f.key, e.legal == f.key));
      }
    }
  }

  /** A pass's second loop: the pairs whose proposal and claim are both single are bound. */
  method BindSingles(t: Tests, s: Sides, p: Pass, found: map<Cik, Match>, proposals: map<Cik, set<Lei>>, claims: map<Lei, set<Cik>>,
                     byKey: map<string, set<Cik>>, holders: map<string, set<Lei>>)
    returns (after: map<Cik, Match>, bound: set<Lei>)
    requires forall k, c :: k in byKey && c in byKey[k] <==> c in s.filers && s.filers[c].key == k
    requires forall k, l :: k in holders && l in holders[k] <==> l in s.entities && k in s.entities[l].keys
    requires forall c, l :: c in proposals && l in proposals[c] <==> Open(t, s, found, p, c, l)
    requires forall c, l :: l in claims && c in claims[l] <==> Open(t, s, found, p, c, l)
    ensures after == PassStep(t, s, found, p)
    ensures forall l :: l in bound <==> exists c :: OneToOne(t, s, found, p, c, l)
  {
    hide Open, OneToOne, NameShared, BoundIn;
    OnlyProposedBind(t, s, found, p, proposals);
    after, bound := found, {};
    var ciks := proposals.Keys;
    while ciks != {}
      invariant ciks <= proposals.Keys
      invariant forall c :: c in after <==> c in found || (c !in ciks && Bindable(t, s, found, p, c))
      invariant forall c :: c in found ==> after[c] == found[c]
      invariant forall c :: c in after && c !in found ==> BoundIn(t, s, found, p, c, after[c])
      invariant forall l :: l in bound <==> exists c :: c !in ciks && OneToOne(t, s, found, p, c, l)
    {
      var c :| c in ciks;
      var one := BindFor(t, s, p, found, proposals, claims, byKey, holders, c);
      BoundMore(t, s, found, p, ciks, c, bound, one);
      assert Bindable(t, s, found, p, c) <==> one.Some? by {
        if one.Some? {
          assert OneToOne(t, s, found, p, c, one.value.lei);
        }
      }
      if one.Some? {
        after, bound := after[c := one.value], bound + {one.value.lei};
      }
      ciks := ciks - {c};
    }
    StepIs(t, s, found, p, after);
  }

  /** The entities bound, once one more filer has been seen to. */
  lemma BoundMore(t: Tests, s: Sides, found: map<Cik, Match>, p: Pass, before: set<Cik>, c: Cik, bound: set<Lei>, one: Option<Match>)
    requires c in before && forall l :: l in bound <==> exists d :: d !in before && OneToOne(t, s, found, p, d, l)
    requires forall l :: OneToOne(t, s, found, p, c, l) <==> one.Some? && one.value.lei == l
    ensures
      var after := if one.Some? then bound + {one.value.lei} else bound;
      forall l :: l in after <==> exists d :: d !in before - {c} && OneToOne(t, s, found, p, d, l)
  {
    hide OneToOne;
    var ciks, after := before - {c}, if one.Some? then bound + {one.value.lei} else bound;
    forall l
      ensures l in after <==> exists d :: d !in ciks && OneToOne(t, s, found, p, d, l)
    {
      if d :| d !in ciks && OneToOne(t, s, found, p, d, l) {
        assert d == c || d !in before;
      }
      if l in bound {
        var d :| d !in before && OneToOne(t, s, found, p, d, l);
        assert d !in ciks;
      } else if l in after {
        assert OneToOne(t, s, found, p, c, l) && c !in ciks;
      }
    }
  }

  /** `assign`: CIK to the entity the passes bind it to. */
  method Assign(t: Tests, filers: seq<Filer>, entities: seq<Entity>, passes: seq<Pass>) returns (found: map<Cik, Match>)
    ensures found == Assigned(t, Sides(ByCik(filers), ByLei(entities)), passes)
  {
    hide Open, OneToOne;
    var s := Sides(ByCik(filers), ByLei(entities));
    var byKey, holders := IndexNames(s);
    found := map[];
    var taken: set<Lei> := {};
    for i := 0 to |passes|
      invariant found == Assigned(t, s, passes[..i])
      invariant forall l :: l in taken <==> Taken(found, l)
    {
      var proposals, claims := Propose(t, s, passes[i], found, taken, holders);
      var after, bound := BindSingles(t, s, passes[i], found, proposals, claims, byKey, holders);
      forall l
        ensures l in taken + bound <==> Taken(after, l)
      {
        TakenByPass(t, s, found, passes[i], l);
      }
      assert passes[..i + 1][..i] == passes[..i];
      found, taken := after, taken + bound;
    }
    assert passes[..|passes|] == passes;
  }
}
