/** Line items that read line items: the stages they are worked out in, and the staged query against
    what a line item's list means, the first entry that has a value. */
module LineItems {
  import opened Prelude

  type Code = string

  // --- Stages ----------------------------------------------------------------------------------

  predicate Distinct(codes: seq<Code>) {
    forall i, j :: 0 <= i < j < |codes| ==> codes[i] != codes[j]
  }

  /** The line items not yet done whose reads all are, in their given order. */
  function Ready(codes: seq<Code>, needs: map<Code, set<Code>>, done: set<Code>): (ready: seq<Code>)
    requires forall c :: c in codes ==> c in needs
    ensures forall c :: c in ready <==> c in codes && c !in done && needs[c] <= done
    ensures Distinct(codes) ==> Distinct(ready)
  {
    if codes == [] then []
    else
      var rest, last := Ready(codes[..|codes| - 1], needs, done), codes[|codes| - 1];
      if last !in done && needs[last] <= done then rest + [last] else rest
  }

  function Members(codes: seq<Code>): set<Code> {
    set c | c in codes
  }

  function Placed(stages: seq<seq<Code>>): set<Code> {
    set k, c | 0 <= k < |stages| && c in stages[k] :: c
  }

  /** Each stage holds exactly the line items that read only earlier ones and stand in no earlier one. */
  ghost predicate StageIs(codes: seq<Code>, needs: map<Code, set<Code>>, stages: seq<seq<Code>>, k: nat)
    requires k < |stages|
  {
    && stages[k] != [] && Distinct(stages[k])
    && forall c :: c in stages[k] <==> c in codes && c in needs && c !in Placed(stages[..k]) && needs[c] <= Placed(stages[..k])
  }

  lemma PlacedMore(stages: seq<seq<Code>>, ready: seq<Code>)
    ensures Placed(stages + [ready]) == Placed(stages) + Members(ready)
  {
    var longer := stages + [ready];
    forall c ensures c in Placed(longer) <==> c in Placed(stages) || c in ready {
      if c in Placed(stages) {
        var k :| 0 <= k < |stages| && c in stages[k];
        assert c in longer[k];
      }
      if c in ready {
        assert c in longer[|stages|];
      }
    }
  }

  /** Line items each of which reads another of them, or one that does not exist. */
  predicate LeftOver(needs: map<Code, set<Code>>, left: set<Code>) {
    left != {} && left <= needs.Keys && forall c :: c in left ==> needs[c] * left != {} || !(needs[c] <= needs.Keys)
  }

  lemma NothingReady(codes: seq<Code>, needs: map<Code, set<Code>>, done: set<Code>)
    requires (forall c :: c in codes <==> c in needs) && done <= needs.Keys && done != needs.Keys
    requires Ready(codes, needs, done) == []
    ensures LeftOver(needs, needs.Keys - done)
  {
    var left := needs.Keys - done;
    assert done + left == needs.Keys;
    forall c | c in left && needs[c] <= needs.Keys ensures needs[c] * left != {} {
      assert c !in Ready(codes, needs, done);
      var d :| d in needs[c] && d !in done;
      assert d in needs[c] * left;
    }
  }

  lemma StageAdded(codes: seq<Code>, needs: map<Code, set<Code>>, stages: seq<seq<Code>>, done: set<Code>)
    requires Distinct(codes) && (forall c :: c in codes <==> c in needs) && done == Placed(stages)
    requires (forall k :: 0 <= k < |stages| ==> StageIs(codes, needs, stages, k)) && Ready(codes, needs, done) != []
    ensures forall k :: 0 <= k <= |stages| ==> StageIs(codes, needs, stages + [Ready(codes, needs, done)], k)
  {
    var longer := stages + [Ready(codes, needs, done)];
    forall k | 0 <= k <= |stages| ensures StageIs(codes, needs, longer, k) {
      assert longer[..k] == if k < |stages| then stages[..k] else stages;
      if k < |stages| {
        assert StageIs(codes, needs, stages, k);
      }
    }
  }

  /** `LineItems.stages`: every line item once, at its earliest stage, or the ones left over: each of those
      reads another of them, or one that does not exist. */
  method Stages(codes: seq<Code>, needs: map<Code, set<Code>>) returns (out: Result<seq<seq<Code>>, set<Code>>)
    requires Distinct(codes) && forall c :: c in codes <==> c in needs
    ensures out.Ok? ==> (forall k :: 0 <= k < |out.value| ==> StageIs(codes, needs, out.value, k)) && Placed(out.value) == needs.Keys
    ensures out.Err? ==> LeftOver(needs, out.error)
    ensures Known(needs) ==> (out.Err? <==> Cyclic(needs))
  {
    hide Cyclic, Known, StageIs, LeftOver;
    var done: set<Code>, stages: seq<seq<Code>> := {}, [];
    while done != needs.Keys
      invariant done == Placed(stages) <= needs.Keys
      invariant forall k :: 0 <= k < |stages| ==> StageIs(codes, needs, stages, k)
      decreases needs.Keys - done
    {
      var ready := Ready(codes, needs, done);
      if ready == [] {
        var left := needs.Keys - done;
        NothingReady(codes, needs, done);
        LeftOverDecides(needs, left);
        return Err(left);
      }
      assert ready[0] in ready;
      PlacedMore(stages, ready);
      StageAdded(codes, needs, stages, done);
      stages := stages + [ready];
      done := done + Members(ready);
    }
    StagedHasNoCycle(codes, needs, stages);
    return Ok(stages);
  }

  // --- Cycles ------------------------------------------------------------------------------------

  predicate Walk(needs: map<Code, set<Code>>, p: seq<Code>) {
    && (forall i :: 0 <= i < |p| ==> p[i] in needs)
    && forall i, j :: 0 <= i < |p| && j == i + 1 && j < |p| ==> p[j] in needs[p[i]]
  }

  /** Line items that read each other in a circle. */
  ghost predicate Cyclic(needs: map<Code, set<Code>>) {
    exists p :: |p| > 1 && Walk(needs, p) && p[0] == p[|p| - 1]
  }

  /** No reading of a line item that does not exist. */
  predicate Known(needs: map<Code, set<Code>>) {
    forall c :: c in needs ==> needs[c] <= needs.Keys
  }

  /** Where every member of a set reads a member, there is a walk within it as long as you like. */
  lemma {:induction false} LongWalk(needs: map<Code, set<Code>>, within: set<Code>, n: nat) returns (p: seq<Code>)
    requires within != {} && within <= needs.Keys && forall c :: c in within ==> needs[c] * within != {}
    ensures |p| == n + 1 && Walk(needs, p) && forall i :: 0 <= i < |p| ==> p[i] in within
  {
    if n == 0 {
      var c :| c in within;
      p := [c];
    } else {
      var q := LongWalk(needs, within, n - 1);
      var d :| d in needs[q[n - 1]] * within;
      p := q + [d];
      forall i, j | 0 <= i < |p| && j == i + 1 && j < |p| ensures p[j] in needs[p[i]] {
        if j < n {
          assert q[j] in needs[q[i]];
        }
      }
    }
  }

  /** A sequence longer than the set its members come from repeats one. */
  lemma {:induction false} Repeats(p: seq<Code>, within: set<Code>)
    requires |p| > |within| && forall i :: 0 <= i < |p| ==> p[i] in within
    ensures exists i, j :: 0 <= i < j < |p| && p[i] == p[j]
    decreases |p|
  {
    var n := |p| - 1;
    var last := p[n];
    if i :| 0 <= i < n && p[i] == last {
      assert p[i] == p[n];
    } else {
      Repeats(p[..n], within - {last});
      var i, j :| 0 <= i < j < |p[..n]| && p[..n][i] == p[..n][j];
      assert p[i] == p[j];
    }
  }

  lemma PartIsWalk(needs: map<Code, set<Code>>, p: seq<Code>, i: nat, j: nat)
    requires Walk(needs, p) && i <= j <= |p|
    ensures Walk(needs, p[i..j])
  {
    var q := p[i..j];
    forall a, b | 0 <= a < |q| && b == a + 1 && b < |q| ensures q[a] in needs && q[b] in needs[q[a]] {
      assert q[a] == p[i + a] && q[b] == p[i + b];
    }
  }

  /** A walk that comes back to where it was has gone round a cycle. */
  lemma CycleIn(needs: map<Code, set<Code>>, p: seq<Code>, i: nat, j: nat)
    requires Walk(needs, p) && i < j < |p| && p[i] == p[j]
    ensures Cyclic(needs)
  {
    hide Walk;
    PartIsWalk(needs, p, i, j + 1);
    var cycle := p[i..j + 1];
    assert |cycle| > 1 && cycle[0] == p[i] && cycle[|cycle| - 1] == p[j];
  }

  lemma AllRead(needs: map<Code, set<Code>>, left: set<Code>)
    requires Known(needs) && LeftOver(needs, left)
    ensures left != {} && left <= needs.Keys && forall c :: c in left ==> needs[c] * left != {}
  {
  }

  /** What `stages` refuses, when every read exists, is exactly a map with a cycle. */
  lemma LeftOverIsCyclic(needs: map<Code, set<Code>>, left: set<Code>)
    requires Known(needs) && LeftOver(needs, left)
    ensures Cyclic(needs)
  {
    AllRead(needs, left);
    hide Walk, Cyclic, Known, LeftOver;
    var p := LongWalk(needs, left, |left|);
    Repeats(p, left);
    var i, j :| 0 <= i < j < |p| && p[i] == p[j];
    CycleIn(needs, p, i, j);
  }

  lemma LeftOverDecides(needs: map<Code, set<Code>>, left: set<Code>)
    requires LeftOver(needs, left)
    ensures Known(needs) ==> Cyclic(needs)
  {
    if Known(needs) {
      LeftOverIsCyclic(needs, left);
    }
  }

  /** The stage a line item stands in. */
  function StageOf(stages: seq<seq<Code>>, c: Code): (k: nat)
    ensures c in Placed(stages) ==> k < |stages| && c in stages[k]
    ensures forall j :: 0 <= j < |stages| && c in stages[j] ==> j <= k
    ensures k <= |stages|
  {
    if stages == [] then 0
    else if c in stages[|stages| - 1] then |stages| - 1
    else
      var k := StageOf(stages[..|stages| - 1], c);
      assert forall j :: 0 <= j < |stages| - 1 ==> stages[..|stages| - 1][j] == stages[j];
      assert c in Placed(stages) ==> c in Placed(stages[..|stages| - 1]) by {
        PlacedMore(stages[..|stages| - 1], stages[|stages| - 1]);
        assert stages == stages[..|stages| - 1] + [stages[|stages| - 1]];
      }
      k
  }

  ghost predicate Complete(codes: seq<Code>, needs: map<Code, set<Code>>, stages: seq<seq<Code>>) {
    (forall k :: 0 <= k < |stages| ==> StageIs(codes, needs, stages, k)) && Placed(stages) == needs.Keys
  }

  lemma NotPlacedBefore(stages: seq<seq<Code>>, k: nat, c: Code)
    requires k <= |stages|
    ensures c in Placed(stages[..k]) || forall j :: 0 <= j < k ==> c !in stages[j]
  {
    if j :| 0 <= j < k && c in stages[j] {
      assert c in stages[..k][j];
    }
  }

  /** Every line item stands in one stage, after everything it reads, and right after something it reads
      unless it reads nothing: no order could place it earlier. */
  lemma StageIsEarliest(codes: seq<Code>, needs: map<Code, set<Code>>, stages: seq<seq<Code>>, c: Code, k: nat)
    requires Complete(codes, needs, stages) && k < |stages| && c in stages[k]
    ensures k == StageOf(stages, c) && c in needs
    ensures forall d :: d in needs[c] ==> d in needs && StageOf(stages, d) < k
    ensures k > 0 ==> exists d :: d in needs[c] && StageOf(stages, d) == k - 1
  {
    var top := StageOf(stages, c);
    assert StageIs(codes, needs, stages, k) && StageIs(codes, needs, stages, top);
    OneStage(codes, needs, stages, c, k);
    forall d | d in needs[c] ensures d in needs && StageOf(stages, d) < k {
      EarlierStage(codes, needs, stages, k, d);
    }
    if k > 0 {
      var before := stages[..k - 1];
      assert stages[..k] == before + [stages[k - 1]];
      PlacedMore(before, stages[k - 1]);
      assert StageIs(codes, needs, stages, k - 1);
      assert stages[..k - 1] == before;
      NotPlacedBefore(stages, k, c);
      assert c !in stages[k - 1] && c !in Placed(before);
      var d :| d in needs[c] && d !in Placed(before);
      assert d in stages[k - 1];
      OneStage(codes, needs, stages, d, k - 1);
    }
  }

  lemma OneStage(codes: seq<Code>, needs: map<Code, set<Code>>, stages: seq<seq<Code>>, d: Code, k: nat)
    requires Complete(codes, needs, stages) && k < |stages| && d in stages[k]
    ensures StageOf(stages, d) == k
  {
    var top := StageOf(stages, d);
    assert d in Placed(stages);
    assert StageIs(codes, needs, stages, top);
    NotPlacedBefore(stages, top, d);
  }

  lemma EarlierStage(codes: seq<Code>, needs: map<Code, set<Code>>, stages: seq<seq<Code>>, k: nat, d: Code)
    requires Complete(codes, needs, stages) && k <= |stages| && d in Placed(stages[..k])
    ensures d in needs && StageOf(stages, d) < k
  {
    var j :| 0 <= j < k && d in stages[..k][j];
    assert d in stages[j];
    assert d in Placed(stages);
    OneStage(codes, needs, stages, d, j);
  }

  /** A walk goes to ever earlier stages, so a map that is staged has no cycle. */
  lemma {:induction false} WalkDescends(codes: seq<Code>, needs: map<Code, set<Code>>, stages: seq<seq<Code>>, p: seq<Code>)
    requires Complete(codes, needs, stages) && Walk(needs, p) && |p| > 1
    ensures StageOf(stages, p[|p| - 1]) < StageOf(stages, p[0])
    decreases |p|
  {
    var n := |p| - 1;
    var k := StageOf(stages, p[n - 1]);
    assert p[n - 1] in Placed(stages);
    StageIsEarliest(codes, needs, stages, p[n - 1], k);
    assert p[n] in needs[p[n - 1]];
    if n > 1 {
      WalkDescends(codes, needs, stages, p[..n]);
    }
  }

  lemma StagedHasNoCycle(codes: seq<Code>, needs: map<Code, set<Code>>, stages: seq<seq<Code>>)
    requires Complete(codes, needs, stages)
    ensures !Cyclic(needs) && Known(needs)
  {
    if p :| |p| > 1 && Walk(needs, p) && p[0] == p[|p| - 1] {
      WalkDescends(codes, needs, stages, p);
    }
    forall c | c in needs ensures needs[c] <= needs.Keys {
      assert c in Placed(stages);
      StageIsEarliest(codes, needs, stages, c, StageOf(stages, c));
    }
  }

  // --- What a line item means -----------------------------------------------------------------------

  type Concept = string

  // The first present of some concepts, or another line item's value.
  datatype Term = Facts(concepts: seq<Concept>, optional: bool) | Ref(item: Code, optional: bool)

  datatype Entry = Direct(concept: Concept, asReport: bool) | Computed(difference: bool, terms: seq<Term>)

  datatype Figure = Figure(value: real, unit: string)

  // One company's fiscal year: each concept's latest copy for the year's period, by the kind of period, and its
  // copy in the year's own annual report.
  datatype Year = Year(latest: map<(Concept, string), Figure>, report: map<(Concept, string), Figure>)

  // The lists of the year's taxonomy, and the kind of period of each line item.
  datatype Items = Items(lists: map<Code, seq<Entry>>, kind: map<Code, string>)

  function TermReads(terms: seq<Term>): set<Code> {
    set i | 0 <= i < |terms| && terms[i].Ref? :: terms[i].item
  }

  function EntryReads(list: seq<Entry>): set<Code> {
    set i, c | 0 <= i < |list| && list[i].Computed? && c in TermReads(list[i].terms) :: c
  }

  function Find(m: map<(Concept, string), Figure>, c: Concept, kind: string): Option<Figure> {
    if (c, kind) in m then Some(m[(c, kind)]) else None
  }

  /** The first present of a list of concepts. */
  function FirstFact(y: Year, concepts: seq<Concept>, kind: string): Option<Figure> {
    if concepts == [] then None
    else if Find(y.latest, concepts[0], kind).Some? then Find(y.latest, concepts[0], kind)
    else FirstFact(y, concepts[1..], kind)
  }

  /** A term's figure, when the line items it may read have the figures of `known`. */
  function TermFigure(y: Year, kind: string, known: map<Code, Figure>, t: Term): Option<Figure> {
    match t
    case Facts(concepts, _) => FirstFact(y, concepts, kind)
    case Ref(item, _) => if item in known then Some(known[item]) else None
  }

  /** `sum(sign * value)` over the terms that have a value. */
  function Sum(difference: bool, figures: seq<Option<Figure>>): real {
    if figures == [] then 0.0
    else
      var n := |figures| - 1;
      var sign := if difference && n > 0 then -1.0 else 1.0;
      Sum(difference, figures[..n]) + if figures[n].Some? then sign * figures[n].value.value else 0.0
  }

  function Units(figures: seq<Option<Figure>>): set<string> {
    set i | 0 <= i < |figures| && figures[i].Some? :: figures[i].value.unit
  }

  /** A computed entry's figure: every required term present, and one unit among those present. */
  function Combined(difference: bool, terms: seq<Term>, figures: seq<Option<Figure>>): Option<Figure>
    requires |terms| == |figures|
  {
    if (forall i :: 0 <= i < |terms| ==> figures[i].Some? || terms[i].optional) && |Units(figures)| == 1
    then OneUnit(figures); var unit :| unit in Units(figures); Some(Figure(Sum(difference, figures), unit))
    else None
  }

  lemma OneUnit(figures: seq<Option<Figure>>)
    requires |Units(figures)| == 1
    ensures exists u :: u in Units(figures)
    ensures forall u, w :: u in Units(figures) && w in Units(figures) ==> u == w
  {
    var u :| u in Units(figures);
    OnlyOne(Units(figures), u);
  }

  lemma OnlyOne(s: set<string>, u: string)
    requires |s| == 1 && u in s
    ensures s == {u}
  {
    assert |s - {u}| == 0;
    assert s == (s - {u}) + {u};
  }

  function TermFigures(y: Year, kind: string, known: map<Code, Figure>, terms: seq<Term>): (figures: seq<Option<Figure>>)
    ensures |figures| == |terms|
    ensures forall i :: 0 <= i < |terms| ==> figures[i] == TermFigure(y, kind, known, terms[i])
  {
    seq(|terms|, i requires 0 <= i < |terms| => TermFigure(y, kind, known, terms[i]))
  }

  function EntryFigure(y: Year, kind: string, known: map<Code, Figure>, entry: Entry): Option<Figure> {
    match entry
    case Direct(concept, asReport) => Find(if asReport then y.report else y.latest, concept, kind)
    case Computed(difference, terms) => Combined(difference, terms, TermFigures(y, kind, known, terms))
  }

  /** The first concept of a list that has a copy gives the figure, and none does only when none has a copy. */
  lemma {:induction false} FirstFactIs(y: Year, concepts: seq<Concept>, kind: string)
    ensures
      var figure := FirstFact(y, concepts, kind);
      if figure.Some?
      then exists i :: 0 <= i < |concepts| && (concepts[i], kind) in y.latest && y.latest[(concepts[i], kind)] == figure.value
                       && forall j :: 0 <= j < i ==> (concepts[j], kind) !in y.latest
      else forall i :: 0 <= i < |concepts| ==> (concepts[i], kind) !in y.latest
  {
    if concepts != [] && (concepts[0], kind) !in y.latest {
      var rest := concepts[1..];
      FirstFactIs(y, rest, kind);
      assert forall i :: 0 < i < |concepts| ==> concepts[i] == rest[i - 1];
      if FirstFact(y, rest, kind).Some? {
        var i :| 0 <= i < |rest| && (rest[i], kind) in y.latest && y.latest[(rest[i], kind)] == FirstFact(y, rest, kind).value
                 && forall j :: 0 <= j < i ==> (rest[j], kind) !in y.latest;
        assert concepts[i + 1] == rest[i];
        forall j | 0 <= j < i + 1 ensures (concepts[j], kind) !in y.latest {
          assert j > 0 ==> concepts[j] == rest[j - 1];
        }
      } else {
        forall i | 0 <= i < |concepts| ensures (concepts[i], kind) !in y.latest {
          assert i > 0 ==> concepts[i] == rest[i - 1];
        }
      }
    }
  }

  /** Where an entry's amounts are looked up: a concept in the year's own report or in the latest copies, as it asks; a
      term's concepts in the latest copies; and another line item's own figure. */
  lemma AmountsFrom(y: Year, kind: string, known: map<Code, Figure>, concept: Concept, asReport: bool, difference: bool,
                    terms: seq<Term>, i: nat)
    requires i < |terms|
    ensures
      var table := if asReport then y.report else y.latest;
      EntryFigure(y, kind, known, Direct(concept, asReport)) == if (concept, kind) in table then Some(table[(concept, kind)]) else None
    ensures
      var figures := TermFigures(y, kind, known, terms);
      && EntryFigure(y, kind, known, Computed(difference, terms)) == Combined(difference, terms, figures)
      && figures[i] == if terms[i].Facts? then FirstFact(y, terms[i].concepts, kind)
                       else if terms[i].item in known then Some(known[terms[i].item]) else None
  {
    hide Combined, FirstFact;
  }

  /** All the amounts there are, added. */
  function Total(figures: seq<Option<Figure>>): real {
    if figures == [] then 0.0 else (if figures[0].Some? then figures[0].value.value else 0.0) + Total(figures[1..])
  }

  lemma {:induction false} TotalLast(figures: seq<Option<Figure>>, last: Option<Figure>)
    ensures Total(figures + [last]) == Total(figures) + if last.Some? then last.value.value else 0.0
  {
    if figures == [] {
      assert [last][1..] == [];
    } else {
      assert (figures + [last])[1..] == figures[1..] + [last];
      TotalLast(figures[1..], last);
    }
  }

  /** A sum adds all its terms; a difference takes all but the first from the first. */
  lemma {:induction false} SumIs(difference: bool, figures: seq<Option<Figure>>)
    ensures !difference ==> Sum(difference, figures) == Total(figures)
    ensures difference && figures != [] ==>
              Sum(difference, figures) == (if figures[0].Some? then figures[0].value.value else 0.0) - Total(figures[1..])
    decreases |figures|
  {
    if figures != [] {
      var n := |figures| - 1;
      SumIs(difference, figures[..n]);
      assert figures == figures[..n] + [figures[n]];
      TotalLast(figures[..n], figures[n]);
      if n > 0 {
        assert figures[1..] == figures[..n][1..] + [figures[n]];
        TotalLast(figures[..n][1..], figures[n]);
      }
    }
  }

  /** A computed entry has a figure exactly when every required term has one, some term has one, and those that have
      are in one unit, which is then the figure's. */
  lemma CombinedIff(difference: bool, terms: seq<Term>, figures: seq<Option<Figure>>)
    requires |terms| == |figures|
    ensures Combined(difference, terms, figures).Some? <==>
      && (forall i :: 0 <= i < |terms| ==> figures[i].Some? || terms[i].optional)
      && (exists i :: 0 <= i < |figures| && figures[i].Some?)
      && (forall i, j :: 0 <= i < |figures| && 0 <= j < |figures| && figures[i].Some? && figures[j].Some? ==>
            figures[i].value.unit == figures[j].value.unit)
    ensures Combined(difference, terms, figures).Some? ==>
      && Combined(difference, terms, figures).value.value == Sum(difference, figures)
      && forall i :: 0 <= i < |figures| && figures[i].Some? ==>
           figures[i].value.unit == Combined(difference, terms, figures).value.unit
  {
    hide Sum;
    var units := Units(figures);
    assert forall i :: 0 <= i < |figures| && figures[i].Some? ==> figures[i].value.unit in units;
    if |units| == 1 {
      OneUnit(figures);
      var u :| u in units;
    }
    if i :| 0 <= i < |figures| && figures[i].Some? {
      if forall i, j :: 0 <= i < |figures| && 0 <= j < |figures| && figures[i].Some? && figures[j].Some? ==>
           figures[i].value.unit == figures[j].value.unit {
        assert units == {figures[i].value.unit};
      }
    }
  }

  /** The figure of the first entry that has one. */
  function FirstEntry(y: Year, kind: string, known: map<Code, Figure>, list: seq<Entry>): Option<Figure>
    decreases |list|
  {
    if list == [] then None
    else
      var n := |list| - 1;
      var before := FirstEntry(y, kind, known, list[..n]);
      if before.Some? then before else EntryFigure(y, kind, known, list[n])
  }

  ghost predicate FirstAt(y: Year, kind: string, known: map<Code, Figure>, list: seq<Entry>, i: nat, figure: Option<Figure>) {
    && i < |list| && EntryFigure(y, kind, known, list[i]) == figure
    && forall j :: 0 <= j < i ==> EntryFigure(y, kind, known, list[j]).None?
  }

  /** `DISTINCT ON (...) ORDER BY position`: the entry of least position among those with a figure, if there is one. */
  lemma {:induction false} FirstEntryIsLeast(y: Year, kind: string, known: map<Code, Figure>, list: seq<Entry>)
    ensures
      var figure := FirstEntry(y, kind, known, list);
      if figure.Some? then exists i :: FirstAt(y, kind, known, list, i, figure)
      else forall i :: 0 <= i < |list| ==> EntryFigure(y, kind, known, list[i]).None?
    decreases |list|
  {
    hide EntryFigure;
    if list != [] {
      var n := |list| - 1;
      FirstEntryIsLeast(y, kind, known, list[..n]);
      assert forall j :: 0 <= j < n ==> list[..n][j] == list[j];
      var before := FirstEntry(y, kind, known, list[..n]);
      if before.Some? {
        var i :| FirstAt(y, kind, known, list[..n], i, before);
        assert FirstAt(y, kind, known, list, i, before);
      } else if EntryFigure(y, kind, known, list[n]).Some? {
        assert FirstAt(y, kind, known, list, n, EntryFigure(y, kind, known, list[n]));
      }
    }
  }

  function Lookup(known: map<Code, Figure>, c: Code): Option<Figure> {
    if c in known then Some(known[c]) else None
  }

  /** The meaning of the line items: each is the figure of the first entry of its list that has one, where a
      term that names another line item stands for that one's own meaning. */
  ghost predicate Means(items: Items, y: Year, known: map<Code, Figure>) {
    && known.Keys <= items.lists.Keys && items.kind.Keys == items.lists.Keys
    && forall c :: c in items.lists ==> Lookup(known, c) == FirstEntry(y, items.kind[c], known, items.lists[c])
  }

  predicate Agree(a: map<Code, Figure>, b: map<Code, Figure>, on: set<Code>) {
    forall c :: c in on ==> Lookup(a, c) == Lookup(b, c)
  }

  /** A line item's figure depends on nothing but the line items its list reads. */
  lemma {:induction false} DependsOnReads(y: Year, kind: string, a: map<Code, Figure>, b: map<Code, Figure>, list: seq<Entry>)
    requires Agree(a, b, EntryReads(list))
    ensures FirstEntry(y, kind, a, list) == FirstEntry(y, kind, b, list)
    decreases |list|
  {
    if list != [] {
      var n := |list| - 1;
      assert EntryReads(list[..n]) <= EntryReads(list);
      DependsOnReads(y, kind, a, b, list[..n]);
      match list[n] {
        case Direct(_, _) =>
        case Computed(difference, terms) =>
          assert TermReads(terms) <= EntryReads(list);
          forall i | 0 <= i < |terms| ensures TermFigure(y, kind, a, terms[i]) == TermFigure(y, kind, b, terms[i]) {
            assert terms[i].Ref? ==> terms[i].item in TermReads(terms);
            assert terms[i].Ref? ==> Lookup(a, terms[i].item) == Lookup(b, terms[i].item);
          }
          assert TermFigures(y, kind, a, terms) == TermFigures(y, kind, b, terms);
      }
    }
  }

  /** The rows a stage chooses, from the figures of the stages before it. */
  function Chosen(items: Items, y: Year, known: map<Code, Figure>, stage: seq<Code>): map<Code, Figure>
    requires forall c :: c in stage ==> c in items.lists && c in items.kind
  {
    map c | c in stage && FirstEntry(y, items.kind[c], known, items.lists[c]).Some? ::
      FirstEntry(y, items.kind[c], known, items.lists[c]).value
  }

  /** What the stages are worked out from: the reads of every taxonomy's lists. */
  ghost predicate Covers(items: Items, needs: map<Code, set<Code>>) {
    && needs.Keys == items.lists.Keys == items.kind.Keys
    && forall c :: c in items.lists ==> EntryReads(items.lists[c]) <= needs[c]
  }

  ghost predicate MeansSoFar(items: Items, y: Year, known: map<Code, Figure>, on: set<Code>)
    requires items.kind.Keys == items.lists.Keys
  {
    forall c :: c in on && c in items.lists ==> Lookup(known, c) == FirstEntry(y, items.kind[c], known, items.lists[c])
  }

  lemma StageExtends(items: Items, y: Year, codes: seq<Code>, needs: map<Code, set<Code>>, stages: seq<seq<Code>>, k: nat,
                     known: map<Code, Figure>)
    requires Covers(items, needs) && Complete(codes, needs, stages) && k < |stages|
    requires known.Keys <= Placed(stages[..k]) && MeansSoFar(items, y, known, Placed(stages[..k]))
    ensures (forall c :: c in stages[k] ==> c in items.lists) && Placed(stages[..k]) + Members(stages[k]) == Placed(stages[..k + 1])
    ensures
      var more := known + Chosen(items, y, known, stages[k]);
      more.Keys <= Placed(stages[..k + 1]) && MeansSoFar(items, y, more, Placed(stages[..k + 1]))
  {
    assert StageIs(codes, needs, stages, k);
    assert stages[..k + 1] == stages[..k] + [stages[k]];
    PlacedMore(stages[..k], stages[k]);
    var more := known + Chosen(items, y, known, stages[k]);
    forall c | c in Placed(stages[..k + 1]) && c in items.lists
      ensures Lookup(more, c) == FirstEntry(y, items.kind[c], more, items.lists[c])
    {
      if c in Placed(stages[..k]) {
        EarlierReads(codes, needs, stages, k, c);
      }
      assert EntryReads(items.lists[c]) <= Placed(stages[..k]);
      assert Agree(known, more, Placed(stages[..k]));
      DependsOnReads(y, items.kind[c], known, more, items.lists[c]);
    }
  }

  lemma EarlierReads(codes: seq<Code>, needs: map<Code, set<Code>>, stages: seq<seq<Code>>, k: nat, c: Code)
    requires Complete(codes, needs, stages) && k <= |stages| && c in Placed(stages[..k])
    ensures c in needs && needs[c] <= Placed(stages[..k])
  {
    var j :| 0 <= j < k && c in stages[..k][j];
    assert StageIs(codes, needs, stages, j);
    forall d | d in Placed(stages[..j]) ensures d in Placed(stages[..k]) {
      var i :| 0 <= i < j && d in stages[..j][i];
      assert d in stages[..k][i];
    }
  }

  /** Working the line items out stage by stage gives their meaning. */
  method Evaluate(items: Items, y: Year, ghost codes: seq<Code>, ghost needs: map<Code, set<Code>>, stages: seq<seq<Code>>)
    returns (chosen: map<Code, Figure>)
    requires Covers(items, needs) && Complete(codes, needs, stages)
    ensures Means(items, y, chosen)
  {
    chosen := map[];
    for k := 0 to |stages|
      invariant chosen.Keys <= Placed(stages[..k]) && MeansSoFar(items, y, chosen, Placed(stages[..k]))
    {
      StageExtends(items, y, codes, needs, stages, k, chosen);
      chosen := chosen + Chosen(items, y, chosen, stages[k]);
    }
    assert stages[..|stages|] == stages;
  }

  /** A map without a cycle has one meaning: any two agree, stage by stage. */
  lemma {:induction false} OneMeaning(items: Items, y: Year, codes: seq<Code>, needs: map<Code, set<Code>>, stages: seq<seq<Code>>,
                                      k: nat, a: map<Code, Figure>, b: map<Code, Figure>)
    requires Covers(items, needs) && Complete(codes, needs, stages) && k <= |stages|
    requires Means(items, y, a) && Means(items, y, b)
    ensures Agree(a, b, Placed(stages[..k]))
    ensures k == |stages| ==> a == b
  {
    hide *;
    if k == 0 {
      assert stages[..0] == [];
      AgreeOnNone(a, b);
    } else {
      OneMeaning(items, y, codes, needs, stages, k - 1, a, b);
      AgreeOn(items, y, codes, needs, stages, k - 1, a, b);
    }
    if k == |stages| {
      assert stages[..k] == stages;
      AllPlaced(items, codes, needs, stages);
      SameMeaning(items, y, a, b);
    }
  }

  lemma AgreeOnNone(a: map<Code, Figure>, b: map<Code, Figure>)
    ensures Agree(a, b, Placed([]))
  {
  }

  lemma AllPlaced(items: Items, codes: seq<Code>, needs: map<Code, set<Code>>, stages: seq<seq<Code>>)
    requires Covers(items, needs) && Complete(codes, needs, stages)
    ensures Placed(stages) == items.lists.Keys
  {
  }

  lemma AgreeOn(items: Items, y: Year, codes: seq<Code>, needs: map<Code, set<Code>>, stages: seq<seq<Code>>, k: nat,
                a: map<Code, Figure>, b: map<Code, Figure>)
    requires Covers(items, needs) && Complete(codes, needs, stages) && k < |stages|
    requires Means(items, y, a) && Means(items, y, b) && Agree(a, b, Placed(stages[..k]))
    ensures Agree(a, b, Placed(stages[..k + 1]))
  {
    hide Lookup, FirstEntry, EntryReads;
    assert StageIs(codes, needs, stages, k);
    assert stages[..k + 1] == stages[..k] + [stages[k]];
    PlacedMore(stages[..k], stages[k]);
    forall c | c in stages[k] ensures Lookup(a, c) == Lookup(b, c) {
      assert Agree(a, b, EntryReads(items.lists[c]));
      DependsOnReads(y, items.kind[c], a, b, items.lists[c]);
    }
  }

  lemma SameMeaning(items: Items, y: Year, a: map<Code, Figure>, b: map<Code, Figure>)
    requires Means(items, y, a) && Means(items, y, b) && Agree(a, b, items.lists.Keys)
    ensures a == b
  {
    hide FirstEntry;
    forall c ensures (c in a <==> c in b) && (c in a ==> a[c] == b[c]) {
      if c in items.lists {
        assert Lookup(a, c) == Lookup(b, c);
      }
    }
  }
}
