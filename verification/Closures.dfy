/** The fixpoints a batch reads by: the component a stored hierarchy joins, the decisions a merge rests on,
    and the masters whose links a batch reads whole. */
module Closures {
  import opened Prelude

  type Id = string

  // --- The component of a hierarchy -----------------------------------------------------------

  datatype Link = Link(source: Id, target: Id, kind: string, retired: bool, evidence: set<string>)

  /** Whether a stored link counts for the chain: of a type walked whole, and not retired. */
  predicate Walked(whole: set<string>, l: Link) {
    l.kind in whole && !l.retired
  }

  ghost predicate Joined(links: set<Link>, whole: set<string>, a: Id, b: Id) {
    exists l :: l in links && l.kind in whole && !l.retired
                && ((l.source == a && l.target == b) || (l.source == b && l.target == a))
  }

  ghost predicate IsPath(links: set<Link>, whole: set<string>, p: seq<Id>) {
    && |p| > 0
    && (|p| == 1 || (IsPath(links, whole, p[..|p| - 1]) && Joined(links, whole, p[|p| - 2], p[|p| - 1])))
  }

  function Ends(links: set<Link>): set<Id> {
    (set l | l in links :: l.source) + (set l | l in links :: l.target)
  }

  ghost predicate Reached(links: set<Link>, whole: set<string>, seeds: set<Id>, x: Id) {
    exists p :: IsPath(links, whole, p) && p[0] in seeds && p[|p| - 1] == x
  }

  /** Every master a path of counting links, taken in either direction, joins to a seed. */
  ghost function Component(links: set<Link>, whole: set<string>, seeds: set<Id>): set<Id> {
    set x | x in seeds + Ends(links) && Reached(links, whole, seeds, x)
  }

  lemma SeedReached(links: set<Link>, whole: set<string>, seeds: set<Id>, x: Id)
    requires x in seeds
    ensures Reached(links, whole, seeds, x)
  {
    assert IsPath(links, whole, [x]);
  }

  lemma NextReached(links: set<Link>, whole: set<string>, seeds: set<Id>, x: Id, y: Id)
    requires Reached(links, whole, seeds, x) && Joined(links, whole, x, y)
    ensures Reached(links, whole, seeds, y)
  {
    var p :| IsPath(links, whole, p) && p[0] in seeds && p[|p| - 1] == x;
    var q := p + [y];
    assert q[..|q| - 1] == p;
    assert IsPath(links, whole, q);
  }

  /** A set that holds the seeds and every neighbour of its own holds the whole component. */
  lemma {:induction false} ClosedHoldsPath(links: set<Link>, whole: set<string>, found: set<Id>, p: seq<Id>)
    requires forall a, b :: a in found && Joined(links, whole, a, b) ==> b in found
    requires IsPath(links, whole, p) && p[0] in found
    ensures p[|p| - 1] in found
  {
    if |p| > 1 {
      ClosedHoldsPath(links, whole, found, p[..|p| - 1]);
    }
  }

  lemma ClosedHoldsComponent(links: set<Link>, whole: set<string>, seeds: set<Id>, found: set<Id>)
    requires seeds <= found
    requires forall a, b :: a in found && Joined(links, whole, a, b) ==> b in found
    ensures Component(links, whole, seeds) <= found
  {
    forall x | x in Component(links, whole, seeds) ensures x in found {
      var p :| IsPath(links, whole, p) && p[0] in seeds && p[|p| - 1] == x;
      ClosedHoldsPath(links, whole, found, p);
    }
  }

  /** The component of a union is the union of the components, and a component grows with its seeds. */
  lemma ComponentSplits(links: set<Link>, whole: set<string>, a: set<Id>, b: set<Id>)
    ensures Component(links, whole, a + b) == Component(links, whole, a) + Component(links, whole, b)
  {
    forall x ensures Reached(links, whole, a + b, x) <==> Reached(links, whole, a, x) || Reached(links, whole, b, x) {
      if Reached(links, whole, a + b, x) {
        var p :| IsPath(links, whole, p) && p[0] in a + b && p[|p| - 1] == x;
        assert p[0] in a || p[0] in b;
      }
    }
    forall x | Reached(links, whole, a, x) || Reached(links, whole, b, x) ensures x in a + b + Ends(links) {
      var p :| IsPath(links, whole, p) && p[0] in a + b && p[|p| - 1] == x;
    }
    forall x | Reached(links, whole, a, x) ensures x in a + Ends(links) {
      var p :| IsPath(links, whole, p) && p[0] in a && p[|p| - 1] == x;
    }
    forall x | Reached(links, whole, b, x) ensures x in b + Ends(links) {
      var p :| IsPath(links, whole, p) && p[0] in b && p[|p| - 1] == x;
    }
  }

  /** The stored links read for a frontier: those it starts and those into it. */
  function Beside(links: set<Link>, whole: set<string>, frontier: set<Id>): (step: set<Link>) {
    set l | l in links && (l.source in frontier || l.target in frontier) && Walked(whole, l)
  }

  /** `_chain`: the frontier loop finds exactly the component of its seeds. */
  method Chain(links: set<Link>, whole: set<string>, seeds: set<Id>) returns (found: set<Id>)
    ensures found == Component(links, whole, seeds)
  {
    found := seeds;
    var frontier := seeds;
    ghost var all := seeds + Ends(links);
    forall x | x in seeds ensures Reached(links, whole, seeds, x) { SeedReached(links, whole, seeds, x); }
    while frontier != {} && whole != {}
      invariant seeds <= found <= all && frontier <= found
      invariant forall x :: x in found ==> Reached(links, whole, seeds, x)
      invariant forall a, b :: a in found - frontier && Joined(links, whole, a, b) ==> b in found
      decreases all - found, frontier != {}
    {
      var step := Beside(links, whole, frontier);
      var next := Ends(step) - found;
      forall x | x in next ensures Reached(links, whole, seeds, x) {
        NewEnd(links, whole, frontier, x);
        var y :| y in frontier && Joined(links, whole, y, x);
        NextReached(links, whole, seeds, y, x);
      }
      assert forall x :: x in next ==> x in Ends(links);
      forall a, b | a in frontier && Joined(links, whole, a, b) ensures b in found + next {
        NeighbourBeside(links, whole, frontier, a, b);
      }
      frontier := next;
      found := found + frontier;
    }
    ClosedHoldsComponent(links, whole, seeds, found);
  }

  lemma NewEnd(links: set<Link>, whole: set<string>, frontier: set<Id>, x: Id)
    requires x in Ends(Beside(links, whole, frontier)) && x !in frontier
    ensures exists y :: y in frontier && Joined(links, whole, y, x)
  {
    var l :| l in Beside(links, whole, frontier) && (l.source == x || l.target == x);
    if l.source == x {
      assert Joined(links, whole, l.target, x);
    } else {
      assert Joined(links, whole, l.source, x);
    }
  }

  lemma NeighbourBeside(links: set<Link>, whole: set<string>, frontier: set<Id>, a: Id, b: Id)
    requires a in frontier && Joined(links, whole, a, b)
    ensures b in Ends(Beside(links, whole, frontier))
  {
    var l :| l in links && Walked(whole, l) && ((l.source == a && l.target == b) || (l.source == b && l.target == a));
    assert l in Beside(links, whole, frontier);
  }

  // --- The decisions a merge rests on ---------------------------------------------------------

  // A stored decision; Other stands for the operations that join no masters, with everything it names.
  datatype Decision =
    | Merge(id: Id, left: Id, right: Id)
    | Exclude(id: Id, left: Id, right: Id)
    | Reverse(id: Id, target: Id)
    | Revoke(id: Id, target: Id, subject: Option<Id>)
    | Other(id: Id, names: set<Id>)

  /** Everything a decision is indexed by. */
  function Anchors(d: Decision): set<Id> {
    {d.id} + match d
             case Merge(_, left, right) => {left, right}
             case Exclude(_, left, right) => {left, right}
             case Reverse(_, target) => {target}
             case Revoke(_, target, subject) => {target} + (if subject.Some? then {subject.value} else {})
             case Other(_, names) => names
  }

  /** What a decision adds to the keys asked for next. */
  function Adds(d: Decision): set<Id> {
    {d.id} + if d.Merge? || d.Exclude? then {d.left, d.right} else {}
  }

  function Added(found: set<Decision>): set<Id> {
    set d, k | d in found && k in Adds(d) :: k
  }

  /** Closed under the rule: a merge, exclusion, reversal or revocation that names one of `entities`,
      or a key a member adds, is a member. */
  ghost predicate ClosedUnder(stored: set<Decision>, entities: set<Id>, found: set<Decision>) {
    forall d :: d in stored && !d.Other? && Anchors(d) * (entities + Added(found)) != {} ==> d in found
  }

  /** The least closed set: the decisions in every one. */
  ghost function RestsOn(stored: set<Decision>, entities: set<Id>): set<Decision> {
    set d | d in stored && forall found: set<Decision> :: ClosedUnder(stored, entities, found) ==> d in found
  }

  /** A key the search asks for: a master asked about, or the id or an end of a merge or exclusion already found. */
  ghost predicate Asked(entities: set<Id>, found: set<Decision>, k: Id) {
    || k in entities
    || exists d :: d in found && (k == d.id || (d.Merge? && (k == d.left || k == d.right)) || (d.Exclude? && (k == d.left || k == d.right)))
  }

  /** Said of each decision: a set is closed when it holds every stored merge and exclusion with an end that is asked
      for, every reversal and revocation of what is asked for, and what is asked for itself. */
  lemma ClosedMeans(stored: set<Decision>, entities: set<Id>, found: set<Decision>)
    ensures ClosedUnder(stored, entities, found) <==>
      forall d :: d in stored ==>
        match d
        case Merge(id, left, right) =>
          Asked(entities, found, id) || Asked(entities, found, left) || Asked(entities, found, right) ==> d in found
        case Exclude(id, left, right) =>
          Asked(entities, found, id) || Asked(entities, found, left) || Asked(entities, found, right) ==> d in found
        case Reverse(id, target) => Asked(entities, found, id) || Asked(entities, found, target) ==> d in found
        case Revoke(id, target, subject) =>
          (Asked(entities, found, id) || Asked(entities, found, target)
           || (subject.Some? && Asked(entities, found, subject.value))) ==> d in found
        case Other(_, _) => true
  {
    forall k ensures Asked(entities, found, k) <==> k in entities + Added(found) {
      if k in Added(found) {
        var d :| d in found && k in Adds(d);
      }
      if d :| d in found && (k == d.id || (d.Merge? && (k == d.left || k == d.right)) || (d.Exclude? && (k == d.left || k == d.right))) {
        assert k in Adds(d);
      }
    }
    forall d | d in stored && !d.Other?
      ensures Anchors(d) * (entities + Added(found)) != {} <==> exists k :: k in Anchors(d) && Asked(entities, found, k)
    {
      if k :| k in Anchors(d) && Asked(entities, found, k) {
        assert k in Anchors(d) * (entities + Added(found));
      }
      if k :| k in Anchors(d) * (entities + Added(found)) {
        assert Asked(entities, found, k);
      }
    }
    hide Asked, Added;
  }

  /** A stored merge or exclusion of an asked master is found. */
  lemma NamedIsFound(stored: set<Decision>, entities: set<Id>, d: Decision)
    requires d in stored && (d.Merge? || d.Exclude?) && (d.left in entities || d.right in entities)
    ensures d in RestsOn(stored, entities)
  {
    forall found: set<Decision> | ClosedUnder(stored, entities, found) ensures d in found {
      if d.left in entities {
        assert d.left in Anchors(d) * (entities + Added(found));
      } else {
        assert d.right in Anchors(d) * (entities + Added(found));
      }
    }
  }

  /** `consolidations`: the loop over keys not yet asked for finds the least closed set, which is closed. */
  method Consolidations(stored: set<Decision>, entities: set<Id>) returns (found: set<Decision>)
    ensures found == RestsOn(stored, entities)
    ensures ClosedUnder(stored, entities, found)
  {
    found := {};
    var keys, asked := entities, {};
    ghost var all := entities + Added(stored);
    while keys - asked != {}
      invariant keys == entities + Added(found) && asked <= keys <= all
      invariant found <= stored
      invariant forall d :: d in stored && !d.Other? && Anchors(d) * asked != {} ==> d in found
      invariant forall closed: set<Decision> :: ClosedUnder(stored, entities, closed) ==> found <= closed
      decreases all - asked
    {
      var want := keys - asked;
      asked := asked + want;
      var bodies := set d | d in stored && !d.Other? && Anchors(d) * want != {};
      forall closed: set<Decision> | ClosedUnder(stored, entities, closed) ensures bodies <= closed {
        forall d | d in bodies ensures d in closed {
          var k :| k in Anchors(d) * want;
          assert k in entities + Added(closed);
        }
      }
      found := found + bodies;
      keys := keys + Added(bodies);
    }
    assert ClosedUnder(stored, entities, found);
  }

  // --- The links a batch reads whole ----------------------------------------------------------

  // One link a source record states; its start is the record itself unless it names another.
  datatype Stated = Stated(kind: string, start: Id, target: Option<Id>)

  datatype Reading = Reading(id: string, subject: Id, stated: set<Stated>)

  // What is stored: source readings, links, each master's records, and the master of each record (`Scope.master`).
  datatype Store = Store(readings: set<Reading>, links: set<Link>, members: set<(Id, Id)>, master: map<Id, Id>)

  // What a batch brings: its own readings, and the records its decisions re-read as members of a master.
  datatype Batch = Batch(readings: set<Reading>, subjects: set<Id>, replayed: map<Id, Id>, changed: set<Id>, whole: set<string>)

  function Members(st: Store, masters: set<Id>): set<Id> {
    set m | m in st.members && m.0 in masters :: m.1
  }

  /** The readings the stored links starting at `starts` cite. */
  function Cited(st: Store, starts: set<Id>): set<string> {
    set l, e | l in st.links && l.source in starts && e in l.evidence :: e
  }

  /** The records of the masters whose identity changed. */
  function Into(st: Store, b: Batch): set<Id> {
    Members(st, b.changed) + set s | s in b.replayed && b.replayed[s] in b.changed
  }

  predicate Names(r: Reading, keys: set<Id>) {
    exists l :: l in r.stated && (l.start in keys || (l.target.Some? && l.target.value in keys))
  }

  function Found(st: Store, subjects: set<Id>, ids: set<string>): set<Reading> {
    set r | r in st.readings && (r.subject in subjects || r.id in ids)
  }

  function Naming(st: Store, keys: set<Id>): set<Reading> {
    set r | r in st.readings && Names(r, keys)
  }

  function Subjects(readings: set<Reading>): set<Id> {
    set r | r in readings :: r.subject
  }

  function Direct(st: Store, b: Batch, base: set<Reading>, starts: set<Id>): set<Reading> {
    base + Found(st, Members(st, starts), Cited(st, starts)) + Naming(st, Into(st, b))
  }

  /** The source readings that belong to a scope whose whole-link masters are `starts`: those the batch began
      with, its members' records, those its links cite, those naming a changed master, each record whole. */
  function ReadFor(st: Store, b: Batch, base: set<Reading>, starts: set<Id>): set<Reading> {
    var direct := Direct(st, b, base, starts);
    direct + Found(st, Subjects(direct), {})
  }

  function MasterOf(st: Store, subject: Id): set<Id> {
    if subject in st.master then {st.master[subject]} else {}
  }

  function EndsOf(st: Store, l: Stated): set<Id> {
    MasterOf(st, l.start) + if l.target.Some? then MasterOf(st, l.target.value) else {}
  }

  /** First growth rule: the masters a link of the batch's own records starts at. */
  function OwnStarts(st: Store, b: Batch, readings: set<Reading>): set<Id> {
    set a, l, m | a in readings + b.readings && (a.subject in b.subjects || a in b.readings) && l in a.stated
                  && m in MasterOf(st, l.start) :: m
  }

  /** Second growth rule: both ends of a link walked whole that touches a start or a changed master. */
  function Touched(st: Store, b: Batch, readings: set<Reading>, starts: set<Id>): set<Id> {
    set a, l, m | a in readings + b.readings && l in a.stated && l.kind in b.whole
                  && EndsOf(st, l) * (starts + b.changed) != {} && m in EndsOf(st, l) :: m
  }

  /** Closed under both growth rules. */
  ghost predicate Whole(st: Store, b: Batch, base: set<Reading>, starts: set<Id>) {
    var readings := ReadFor(st, b, base, starts);
    && OwnStarts(st, b, readings) <= starts
    && Component(st.links, b.whole, Touched(st, b, readings, starts)) <= starts
  }

  // A master one end of a stated link is on.
  predicate IsEnd(st: Store, l: Stated, m: Id) {
    || (l.start in st.master && st.master[l.start] == m)
    || (l.target.Some? && l.target.value in st.master && st.master[l.target.value] == m)
  }

  /** An end of a stated link of a whole-walked kind that has an end on a start or on a changed master. */
  ghost predicate Pulled(st: Store, b: Batch, readings: set<Reading>, starts: set<Id>, m: Id) {
    exists a, l :: a in readings + b.readings && l in a.stated && l.kind in b.whole && IsEnd(st, l, m)
                   && exists t :: IsEnd(st, l, t) && (t in starts || t in b.changed)
  }

  /** Link by link: either end of a whole-walked link with an end on a start or a changed master, and everything a path
      of stored links joins to it, are starts; and so is the start of each link of the batch's own records. */
  ghost predicate LinkClosed(st: Store, b: Batch, readings: set<Reading>, starts: set<Id>) {
    && (forall p | |p| > 0 && IsPath(st.links, b.whole, p) && Pulled(st, b, readings, starts, p[0]) :: p[|p| - 1] in starts)
    && forall a, l :: (a in b.readings || (a in readings && a.subject in b.subjects)) && l in a.stated && l.start in st.master ==>
         st.master[l.start] in starts
  }

  /** The closure the loop reaches, said of each link. */
  lemma WholeMeans(st: Store, b: Batch, base: set<Reading>, starts: set<Id>)
    ensures Whole(st, b, base, starts) <==> LinkClosed(st, b, ReadFor(st, b, base, starts), starts)
  {
    hide ReadFor;
    var readings := ReadFor(st, b, base, starts);
    var touched := Touched(st, b, readings, starts);
    OwnMeans(st, b, readings, starts);
    TouchedMeans(st, b, readings, starts);
    ComponentInside(st.links, b.whole, touched, starts);
    hide OwnStarts, Touched, Pulled, Component, IsPath;
  }

  /** A component lies within a set exactly when every path from its seeds ends there. */
  lemma ComponentInside(links: set<Link>, whole: set<string>, seeds: set<Id>, found: set<Id>)
    ensures Component(links, whole, seeds) <= found <==>
      forall p :: |p| > 0 && IsPath(links, whole, p) && p[0] in seeds ==> p[|p| - 1] in found
  {
    forall p | |p| > 0 && IsPath(links, whole, p) && p[0] in seeds
      ensures p[|p| - 1] in Component(links, whole, seeds)
    {
      PathInComponent(links, whole, seeds, p);
    }
    forall x | x in Component(links, whole, seeds)
      ensures exists p :: |p| > 0 && IsPath(links, whole, p) && p[0] in seeds && p[|p| - 1] == x
    {
      var p :| IsPath(links, whole, p) && p[0] in seeds && p[|p| - 1] == x;
    }
  }

  lemma PathInComponent(links: set<Link>, whole: set<string>, seeds: set<Id>, p: seq<Id>)
    requires IsPath(links, whole, p) && p[0] in seeds
    ensures p[|p| - 1] in Component(links, whole, seeds)
  {
    if |p| > 1 {
      var l :| l in links && l.kind in whole && !l.retired
               && ((l.source == p[|p| - 2] && l.target == p[|p| - 1]) || (l.source == p[|p| - 1] && l.target == p[|p| - 2]));
    }
    assert Reached(links, whole, seeds, p[|p| - 1]);
  }

  lemma OwnMeans(st: Store, b: Batch, readings: set<Reading>, starts: set<Id>)
    ensures OwnStarts(st, b, readings) <= starts <==>
      forall a, l :: (a in b.readings || (a in readings && a.subject in b.subjects)) && l in a.stated && l.start in st.master ==>
        st.master[l.start] in starts
  {
    forall a, l | (a in b.readings || (a in readings && a.subject in b.subjects)) && l in a.stated && l.start in st.master
      ensures st.master[l.start] in OwnStarts(st, b, readings)
    {
      assert a in readings + b.readings && st.master[l.start] in MasterOf(st, l.start);
    }
  }

  lemma TouchedMeans(st: Store, b: Batch, readings: set<Reading>, starts: set<Id>)
    ensures forall m :: m in Touched(st, b, readings, starts) <==> Pulled(st, b, readings, starts, m)
  {
    forall l ensures EndsOf(st, l) * (starts + b.changed) != {} <==> exists t :: IsEnd(st, l, t) && (t in starts || t in b.changed) {
      if t :| IsEnd(st, l, t) && (t in starts || t in b.changed) {
        assert t in EndsOf(st, l) * (starts + b.changed);
      }
    }
    forall l, m ensures m in EndsOf(st, l) <==> IsEnd(st, l, m) {
    }
    hide IsEnd, EndsOf;
  }

  /** A key that names a record of a master whose identity changed, as stored or as the batch re-reads it. */
  ghost predicate OfChanged(st: Store, b: Batch, k: Id) {
    (exists m :: m in b.changed && (m, k) in st.members) || (k in b.replayed && b.replayed[k] in b.changed)
  }

  /** A reading the scope is given or reads for its own sake: of a member of a start, cited by a link that starts at one,
      or naming, at either end of a link it states, a record of a changed master. */
  ghost predicate ReadDirectly(st: Store, b: Batch, base: set<Reading>, starts: set<Id>, r: Reading) {
    || r in base
    || (r in st.readings
        && ((exists m :: m in starts && (m, r.subject) in st.members)
            || (exists l :: l in st.links && l.source in starts && r.id in l.evidence)
            || (exists l :: l in r.stated && (OfChanged(st, b, l.start) || (l.target.Some? && OfChanged(st, b, l.target.value))))))
  }

  /** The readings a scope calls for, said of each: those read directly, and every version of their records. */
  lemma ReadForMeans(st: Store, b: Batch, base: set<Reading>, starts: set<Id>, r: Reading)
    ensures r in ReadFor(st, b, base, starts) <==>
      ReadDirectly(st, b, base, starts, r)
      || (r in st.readings && exists q :: ReadDirectly(st, b, base, starts, q) && q.subject == r.subject)
  {
    forall k ensures OfChanged(st, b, k) <==> k in Into(st, b) {
    }
    forall q ensures ReadDirectly(st, b, base, starts, q) <==> q in Direct(st, b, base, starts) {
      DirectMeans(st, b, base, starts, q);
    }
    hide Direct, ReadDirectly, OfChanged, Into;
  }

  lemma DirectMeans(st: Store, b: Batch, base: set<Reading>, starts: set<Id>, q: Reading)
    ensures ReadDirectly(st, b, base, starts, q) <==> q in Direct(st, b, base, starts)
  {
    forall k ensures OfChanged(st, b, k) <==> k in Into(st, b) {
    }
    hide OfChanged, Into;
    assert q.subject in Members(st, starts) <==> exists m :: m in starts && (m, q.subject) in st.members;
    assert q.id in Cited(st, starts) <==> exists l :: l in st.links && l.source in starts && q.id in l.evidence;
  }

  lemma ReadForGrows(st: Store, b: Batch, base: set<Reading>, s: set<Id>, t: set<Id>)
    requires s <= t
    ensures ReadFor(st, b, base, s) <= ReadFor(st, b, base, t)
  {
    assert Members(st, s) <= Members(st, t);
    assert Cited(st, s) <= Cited(st, t);
    assert Direct(st, b, base, s) <= Direct(st, b, base, t);
    assert Subjects(Direct(st, b, base, s)) <= Subjects(Direct(st, b, base, t));
  }

  lemma TouchedGrows(st: Store, b: Batch, r: set<Reading>, q: set<Reading>, s: set<Id>, t: set<Id>)
    requires r <= q && s <= t
    ensures Touched(st, b, r, s) <= Touched(st, b, q, t) && OwnStarts(st, b, r) <= OwnStarts(st, b, q)
  {
    forall m | m in Touched(st, b, r, s) ensures m in Touched(st, b, q, t) {
      var a, l :| a in r + b.readings && l in a.stated && l.kind in b.whole
                  && EndsOf(st, l) * (s + b.changed) != {} && m in EndsOf(st, l);
      var e :| e in EndsOf(st, l) * (s + b.changed);
      assert e in EndsOf(st, l) * (t + b.changed);
    }
  }

  lemma ComponentGrows(links: set<Link>, whole: set<string>, a: set<Id>, b: set<Id>)
    requires a <= b
    ensures Component(links, whole, a) <= Component(links, whole, b)
  {
    ComponentSplits(links, whole, a, b);
    assert a + b == b;
  }

  lemma ComponentWithin(links: set<Link>, whole: set<string>, seeds: set<Id>)
    ensures Component(links, whole, seeds) <= seeds + Ends(links)
  {
  }

  /** What a round adds, every closed set that holds the starts so far must hold. */
  lemma GrownCalledFor(st: Store, b: Batch, base: set<Reading>, starts: set<Id>, closed: set<Id>)
    requires starts <= closed && Whole(st, b, base, closed)
    ensures OwnStarts(st, b, ReadFor(st, b, base, starts)) <= closed
    ensures Component(st.links, b.whole, Touched(st, b, ReadFor(st, b, base, starts), starts)) <= closed
  {
    hide ReadFor, Touched, OwnStarts, Component;
    var r, q := ReadFor(st, b, base, starts), ReadFor(st, b, base, closed);
    ReadForGrows(st, b, base, starts, closed);
    TouchedGrows(st, b, r, q, starts, closed);
    ComponentGrows(st.links, b.whole, Touched(st, b, r, starts), Touched(st, b, q, closed));
  }

  lemma NamingSplits(st: Store, a: set<Id>, b: set<Id>)
    ensures Naming(st, a + b) == Naming(st, a) + Naming(st, b)
  {
    forall r | r in st.readings ensures Names(r, a + b) <==> Names(r, a) || Names(r, b) {
    }
  }

  /** One round's readings, each record then read whole, are those the starts call for. */
  lemma RoundReads(st: Store, b: Batch, base: set<Reading>, before: set<Reading>, last: set<Id>, starts: set<Id>, now: set<Reading>)
    requires last <= starts && (before == base || before == ReadFor(st, b, base, last))
    requires Direct(st, b, base, starts) <= now <= before + Direct(st, b, base, starts)
    ensures now + Found(st, Subjects(now), {}) == ReadFor(st, b, base, starts)
  {
    hide Direct, Members, Cited, Naming;
    ReadForGrows(st, b, base, last, starts);
    BaseIsDirect(st, b, base, starts);
    var direct := Direct(st, b, base, starts);
    assert now <= ReadFor(st, b, base, starts);
    assert Subjects(now) == Subjects(direct) by {
      forall r | r in now ensures r.subject in Subjects(direct) {
        if r !in direct {
          assert r in Found(st, Subjects(direct), {});
        }
      }
    }
  }

  lemma BaseIsDirect(st: Store, b: Batch, base: set<Reading>, starts: set<Id>)
    ensures base <= Direct(st, b, base, starts)
  {
  }

  lemma ComponentOfNone(links: set<Link>, whole: set<string>)
    ensures Component(links, whole, {}) == {}
  {
  }

  /** One round's growth: every closed set holds it, it is made of ids that exist, and a round that adds nothing closes. */
  lemma RoundGrows(st: Store, b: Batch, base: set<Reading>, starts: set<Id>, walked: set<Id>)
    requires Component(st.links, b.whole, walked) <= starts
    ensures
      var readings := ReadFor(st, b, base, starts);
      var touched := Touched(st, b, readings, starts);
      var grown := OwnStarts(st, b, readings) + Component(st.links, b.whole, touched - walked);
      && grown <= st.master.Values + Ends(st.links)
      && Component(st.links, b.whole, walked + touched) <= starts + grown
      && (grown <= starts ==> Whole(st, b, base, starts))
      && forall closed: set<Id> :: starts <= closed && Whole(st, b, base, closed) ==> grown <= closed
  {
    hide ReadFor, Touched, OwnStarts, Component;
    var readings := ReadFor(st, b, base, starts);
    var touched := Touched(st, b, readings, starts);
    ComponentSplits(st.links, b.whole, touched - walked, walked);
    assert touched - walked + walked == walked + touched;
    ComponentGrows(st.links, b.whole, touched, walked + touched);
    ComponentWithin(st.links, b.whole, touched - walked);
    GrownExists(st, b, readings, starts);
    forall closed: set<Id> | starts <= closed && Whole(st, b, base, closed)
      ensures OwnStarts(st, b, readings) + Component(st.links, b.whole, touched - walked) <= closed
    {
      GrownCalledFor(st, b, base, starts, closed);
      ComponentGrows(st.links, b.whole, touched - walked, touched);
    }
  }

  lemma GrownExists(st: Store, b: Batch, readings: set<Reading>, starts: set<Id>)
    ensures OwnStarts(st, b, readings) <= st.master.Values && Touched(st, b, readings, starts) <= st.master.Values
  {
  }

  class Scope {
    const st: Store
    const batch: Batch
    ghost const base: set<Reading>
    var readings: set<Reading>
    var readSubjects: set<Id>
    var starts: set<Id>

    /** Every record marked read is held whole, and what is held is stored. */
    ghost predicate Valid()
      reads this
    {
      && base <= readings <= st.readings
      && (forall r :: r in st.readings && r.subject in readSubjects ==> r in readings)
      && (forall r, q :: r in st.readings && q in st.readings && r.id == q.id ==> r == q)
    }

    constructor (st: Store, batch: Batch, readings: set<Reading>, readSubjects: set<Id>)
      requires readings <= st.readings
      requires forall r :: r in st.readings && r.subject in readSubjects ==> r in readings
      requires forall r, q :: r in st.readings && q in st.readings && r.id == q.id ==> r == q
      ensures Valid() && this.st == st && this.batch == batch && base == readings && this.readings == readings
    {
      this.st, this.batch, this.base := st, batch, readings;
      this.readings, this.readSubjects, this.starts := readings, readSubjects, {};
    }

    /** `Scope.read`: what is already held is not read again, and the outcome is as if it were. */
    method Read(subjects: set<Id>, ids: set<string>)
      requires Valid()
      modifies this`readings, this`readSubjects
      ensures Valid() && readings == old(readings) + Found(st, subjects, ids)
    {
      var newSubjects := subjects - readSubjects;
      var newIds := ids - set r | r in readings :: r.id;
      forall r | r in Found(st, subjects, ids) ensures r in readings + Found(st, newSubjects, newIds) {
        if r.subject !in subjects && r.id !in newIds {
          var q :| q in readings && q.id == r.id;
        }
      }
      if newSubjects != {} || newIds != {} {
        readings := readings + Found(st, newSubjects, newIds);
        readSubjects := readSubjects + newSubjects;
      }
    }

    /** One round of reading, with the readings of the round before held already. */
    method ReadRound(namedInto: set<Id>, ghost last: set<Id>) returns (named: set<Id>)
      requires Valid() && last <= starts
      requires readings == base || readings == ReadFor(st, batch, base, last)
      requires namedInto == {} || (namedInto == Into(st, batch) && Naming(st, namedInto) <= readings)
      modifies this`readings, this`readSubjects
      ensures Valid() && readings == ReadFor(st, batch, base, starts)
      ensures named == Into(st, batch) && Naming(st, named) <= readings
    {
      Read(Members(st, starts), Cited(st, starts));
      var want := Into(st, batch) - namedInto;
      readings := readings + Naming(st, want);
      named := namedInto + want;
      assert Naming(st, Into(st, batch)) <= readings by {
        NamingSplits(st, namedInto, want);
        assert namedInto + want == Into(st, batch);
      }
      NamingSplits(st, namedInto, want);
      RoundReads(st, batch, base, old(readings), last, starts, readings);
      Read(Subjects(readings), {});
    }

    /** `links`: the loop ends with `starts` the least set that holds the affected masters and is closed
        under both growth rules, with exactly the readings that set calls for. */
    method Links(affected: set<Id>)
      requires Valid() && readings == base
      modifies this
      ensures Valid()
      ensures affected <= starts && Whole(st, batch, base, starts)
      ensures forall closed: set<Id> :: affected <= closed && Whole(st, batch, base, closed) ==> starts <= closed
      ensures readings == ReadFor(st, batch, base, starts)
      ensures LinkClosed(st, batch, readings, starts)
      ensures forall closed: set<Id> ::
                affected <= closed && LinkClosed(st, batch, ReadFor(st, batch, base, closed), closed) ==> starts <= closed
    {
      hide ReadFor, OwnStarts, Touched, Component, Naming, Into, Whole, LinkClosed;
      starts := affected;
      var namedInto, walked: set<Id> := {}, {};
      ComponentOfNone(st.links, batch.whole);
      ghost var all := affected + st.master.Values + Ends(st.links);
      ghost var last := {};
      var done := false;
      while !done
        invariant Valid()
        invariant affected <= starts <= all
        invariant readings == base || readings == ReadFor(st, batch, base, last)
        invariant last <= starts
        invariant namedInto == {} || (namedInto == Into(st, batch) && Naming(st, namedInto) <= readings)
        invariant Component(st.links, batch.whole, walked) <= starts
        invariant forall closed: set<Id> :: affected <= closed && Whole(st, batch, base, closed) ==> starts <= closed
        invariant done ==> Whole(st, batch, base, starts) && readings == ReadFor(st, batch, base, starts)
        decreases all - starts, !done
      {
        namedInto := ReadRound(namedInto, last);
        last := starts;
        var own := OwnStarts(st, batch, readings);
        var touched := Touched(st, batch, readings, starts);
        var chained := Chain(st.links, batch.whole, touched - walked);
        var grown := own + chained;
        RoundGrows(st, batch, base, starts, walked);
        walked := walked + touched;
        done := grown <= starts;
        if !done {
          starts := starts + grown;
        }
      }
      forall closed: set<Id> ensures Whole(st, batch, base, closed) <==> LinkClosed(st, batch, ReadFor(st, batch, base, closed), closed) {
        WholeMeans(st, batch, base, closed);
      }
    }
  }
}
