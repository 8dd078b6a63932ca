/** The optimistic merge commit: any number of workers read, propose and prepare against a store that moves
    under them, and one compare-and-set on its generation decides which prepared batch takes effect. */
module MergeCommit {
  import opened Prelude
  import Closures

  type Id = string
  type Instant = nat

  // An identifier value is its namespace with the contract's normal form.
  type Value = string

  // A record's binding, with the values it holds for its master: those its bind does not withhold.
  datatype Row = Row(master: Id, values: set<Value>)

  // What the reads of the protocol see. `canonical` names the survivor of each merged-away master,
  // `newest` the latest publication time of each kind's identities.
  datatype State = State(rows: map<Id, Row>, canonical: map<Id, Id>, review: set<Id>, issued: set<Id>,
                         decisions: set<Closures.Decision>, newest: map<Id, Instant>)

  datatype Claim = Claim(master: Id, value: Value)

  datatype Identity = Identity(id: Id, kind: Id, publishedAt: Instant)

  // A rule's proposal. `observed` is the generation it was read at, absent from one kept by an old store.
  datatype Plan = Plan(observed: Option<nat>, identities: seq<Identity>, mints: seq<Claim>, joins: seq<Claim>,
                       withheld: seq<Claim>, merged: set<Id>, restsOn: set<Closures.Decision>)

  function Nothing(): Plan {
    Plan(None, [], [], [], [], {}, {})
  }

  // A caller's command: its batch key, the hash of its content, the identities it allocates,
  // the records it unbinds, and the records it binds itself.
  datatype Command = Command(key: Id, hash: Id, identities: seq<Identity>, released: set<Id>, bound: set<Id>)

  // What a prepared batch writes.
  datatype Effects = Effects(rows: map<Id, Row>, unbound: set<Id>, canonical: map<Id, Id>, review: set<Id>,
                             decisions: set<Closures.Decision>)

  // The rules engine and the preparation, as functions of what they read.
  datatype Engine = Engine(plan: (State, Command) -> Plan, prepare: (State, Command, Plan) -> Effects)

  datatype Entry = Entry(command: Command, plan: Plan, effects: Effects)

  // --- What a proposal rests on ----------------------------------------------------------------

  function Answers(canonical: map<Id, Id>, master: Id): Id {
    if master in canonical then canonical[master] else master
  }

  function Root(s: State, master: Id): Id {
    Answers(s.canonical, master)
  }

  /** `holders`: the masters that hold a value through a bound record the batch does not release. */
  function Holders(s: State, released: set<Id>, v: Value): set<Id> {
    set r | r in s.rows && r !in released && v in s.rows[r].values :: Root(s, s.rows[r].master)
  }

  /** A proposal that no longer holds: each disjunct is one thing it rested on that has changed. */
  ghost predicate Stale(s: State, p: Plan, released: set<Id>) {
    || (p.merged != {} && Closures.RestsOn(s.decisions, p.merged) != p.restsOn)
    || (exists i :: 0 <= i < |p.withheld| && Holders(s, released, p.withheld[i].value) <= {p.withheld[i].master})
    || (exists i :: 0 <= i < |p.mints| && !(Holders(s, released, p.mints[i].value) <= {p.mints[i].master}))
    || (exists i :: 0 <= i < |p.joins| && Holders(s, released, p.joins[i].value) != {p.joins[i].master})
    || (exists i :: 0 <= i < |p.joins| && p.joins[i].master in s.review)
    || !Later(s, p.identities)
  }

  /** Every identity is published after the newest stored one of its kind. */
  predicate Later(s: State, identities: seq<Identity>) {
    forall i :: 0 <= i < |identities| && identities[i].kind in s.newest ==>
      s.newest[identities[i].kind] < identities[i].publishedAt
  }

  predicate Unallocated(s: State, identities: seq<Identity>) {
    forall i :: 0 <= i < |identities| ==> identities[i].id !in s.issued
  }

  /** `proposal_is_stale`. */
  method ProposalIsStale(s: State, p: Plan, released: set<Id>) returns (stale: bool)
    ensures stale == Stale(s, p, released)
  {
    if p.merged != {} {
      var rests := Closures.Consolidations(s.decisions, p.merged);
      if rests != p.restsOn {
        return true;
      }
    }
    stale := (exists i :: 0 <= i < |p.withheld| && Holders(s, released, p.withheld[i].value) - {p.withheld[i].master} == {})
             || (exists i :: 0 <= i < |p.mints| && Holders(s, released, p.mints[i].value) - {p.mints[i].master} != {})
             || (exists i :: 0 <= i < |p.joins| && Holders(s, released, p.joins[i].value) != {p.joins[i].master})
             || (exists i :: 0 <= i < |p.joins| && p.joins[i].master in s.review)
             || !Later(s, p.identities);
    forall i | 0 <= i < |p.withheld| { NoneLeft(Holders(s, released, p.withheld[i].value), p.withheld[i].master); }
    forall i | 0 <= i < |p.mints| { NoneLeft(Holders(s, released, p.mints[i].value), p.mints[i].master); }
  }

  lemma NoneLeft(held: set<Id>, m: Id)
    ensures held - {m} == {} <==> held <= {m}
  {
    if held - {m} == {} {
      forall h | h in held ensures h in {m} {
        assert h !in held - {m};
      }
    }
  }

  // --- What a commit does ------------------------------------------------------------------------

  function Identities(c: Command, p: Plan): seq<Identity> {
    c.identities + p.identities
  }

  function Newest(newest: map<Id, Instant>, identities: seq<Identity>): map<Id, Instant>
    decreases |identities|
  {
    if identities == [] then newest
    else
      var last, rest := identities[|identities| - 1], Newest(newest, identities[..|identities| - 1]);
      if last.kind in rest && rest[last.kind] >= last.publishedAt then rest else rest[last.kind := last.publishedAt]
  }

  function Ids(identities: seq<Identity>): set<Id> {
    set i | 0 <= i < |identities| :: identities[i].id
  }

  function After(s: State, entry: Entry): State {
    var e, identities := entry.effects, Identities(entry.command, entry.plan);
    State((s.rows - e.unbound) + e.rows, e.canonical, e.review, s.issued + Ids(identities),
          s.decisions + e.decisions, Newest(s.newest, identities))
  }

  // --- Workers and the store ----------------------------------------------------------------------

  // Where a worker stands between its reads; `since` is the generation it read first.
  datatype Worker =
    | Idle
    | Proposing(command: Command, since: nat)
    | Opened(command: Command, plan: Plan, since: nat)
    | Ready(entry: Entry, since: nat)

  // The store (its committed log, whose length is the generation, its batch table and its state), the
  // proposals kept so far, and where every worker stands.
  datatype World = World(state: State, log: seq<Entry>, batches: map<Id, Id>, kept: set<(Command, Plan)>, workers: map<Id, Worker>)

  // One step of one worker. A read that spans another's commit may see anything: `torn` and `seen` are
  // what then comes of it.
  datatype Event =
    | Start(worker: Id, command: Command)
    | Propose(worker: Id, torn: Plan)
    | Open(worker: Id, command: Command, plan: Plan)
    | Prepare(worker: Id, seen: Option<Effects>)
    | Commit(worker: Id)

  function Observed(p: Plan, generation: nat): Plan {
    p.(observed := Some(generation))
  }

  function Appended(w: World, entry: Entry): World {
    w.(state := After(w.state, entry), log := w.log + [entry], batches := w.batches[entry.command.key := entry.command.hash])
  }

  function WithWorker(w: World, worker: Id, at: Worker): World {
    w.(workers := w.workers[worker := at])
  }

  /** The checks `execute` makes on what it reads, in its order, and what it prepares when all pass. */
  ghost function Prepared(e: Engine, w: World, c: Command, p: Plan, since: nat): Option<Effects> {
    if c.key in w.batches || (p.observed.Some? && p.observed.value != since) || Stale(w.state, p, c.released)
       || !Unallocated(w.state, Identities(c, p)) || !Later(w.state, Identities(c, p)) then None
    else Some(e.prepare(w.state, c, p))
  }

  ghost function Next(e: Engine, w: World, ev: Event): World {
    var now := if ev.worker in w.workers then w.workers[ev.worker] else Idle;
    match ev
    case Start(worker, c) => WithWorker(w, worker, Proposing(c, |w.log|))
    case Propose(worker, torn) =>
      if !now.Proposing? then w
      else
        var p := Observed(if now.since == |w.log| then e.plan(w.state, now.command) else torn, now.since);
        WithWorker(w, worker, Idle).(kept := w.kept + {(now.command, p)})
    case Open(worker, c, p) =>
      if (c, p) in w.kept || p == Nothing() then WithWorker(w, worker, Opened(c, p, |w.log|)) else w
    case Prepare(worker, seen) =>
      if !now.Opened? then w
      else
        var effects := if now.since == |w.log| then Prepared(e, w, now.command, now.plan, now.since) else seen;
        WithWorker(w, worker, if effects.Some? then Ready(Entry(now.command, now.plan, effects.value), now.since) else Idle)
    case Commit(worker) =>
      if !now.Ready? then w
      else if now.since != |w.log| then WithWorker(w, worker, Idle)
      else Appended(WithWorker(w, worker, Idle), now.entry)
  }

  ghost function Run(e: Engine, w: World, events: seq<Event>): World
    decreases |events|
  {
    if events == [] then w else Next(e, Run(e, w, events[..|events| - 1]), events[|events| - 1])
  }

  // --- The serial history --------------------------------------------------------------------------

  /** The state after a history, replayed one batch at a time from the first. */
  function Replayed(first: State, log: seq<Entry>): State
    decreases |log|
  {
    if log == [] then first else After(Replayed(first, log[..|log| - 1]), log[|log| - 1])
  }

  /** A batch that is right about the state it commits on: nothing its proposal rests on has changed, its
      identities are new, its effects are those that state calls for, and so is a proposal that says it was
      read at this generation. */
  ghost predicate Rests(e: Engine, s: State, generation: nat, entry: Entry) {
    var c, p := entry.command, entry.plan;
    && !Stale(s, p, c.released)
    && Unallocated(s, Identities(c, p)) && Later(s, Identities(c, p))
    && entry.effects == e.prepare(s, c, p)
    && (p.observed.Some? ==> p.observed.value == generation && p == Observed(e.plan(s, c), generation))
  }

  ghost predicate RestsAt(e: Engine, first: State, log: seq<Entry>, i: nat)
    requires i < |log|
  {
    Rests(e, Replayed(first, log[..i]), i, log[i])
  }

  /** The committed batches are a serial history: each rests on the state those before it leave, and no two
      have the same key. */
  ghost predicate Serial(e: Engine, first: State, log: seq<Entry>) {
    && (forall i :: 0 <= i < |log| ==> RestsAt(e, first, log, i))
    && (forall i, j :: 0 <= i < j < |log| ==> log[i].command.key != log[j].command.key)
  }

  ghost predicate Recorded(log: seq<Entry>, batches: map<Id, Id>) {
    && (forall i :: 0 <= i < |log| ==> log[i].command.key in batches && batches[log[i].command.key] == log[i].command.hash)
    && (forall k :: k in batches ==> exists i :: 0 <= i < |log| && log[i].command.key == k)
  }

  ghost predicate KeptRight(e: Engine, w: World) {
    forall c, p :: (c, p) in w.kept && p.observed.Some? ==>
      p.observed.value <= |w.log| && (p.observed.value == |w.log| ==> p == Observed(e.plan(w.state, c), |w.log|))
  }

  /** A worker whose first read is still current holds what the current state calls for. */
  ghost predicate StandsRight(e: Engine, w: World, at: Worker) {
    match at
    case Idle => true
    case Proposing(_, since) => since <= |w.log|
    case Opened(c, p, since) => since <= |w.log| && ((c, p) in w.kept || p == Nothing())
    case Ready(entry, since) =>
      since <= |w.log| && (since == |w.log| ==> Rests(e, w.state, since, entry) && entry.command.key !in w.batches)
  }

  ghost predicate Inv(e: Engine, first: State, w: World) {
    && w.state == Replayed(first, w.log)
    && Serial(e, first, w.log)
    && Recorded(w.log, w.batches)
    && KeptRight(e, w)
    && forall k :: k in w.workers ==> StandsRight(e, w, w.workers[k])
  }

  function Empty(first: State): World {
    World(first, [], map[], {}, map[])
  }

  /** Appending a batch that rests on the current state keeps everything true, whoever appends it: a worker
      that read an earlier generation can no longer commit. */
  lemma AppendKeeps(e: Engine, first: State, w: World, entry: Entry)
    requires Inv(e, first, w) && Rests(e, w.state, |w.log|, entry) && entry.command.key !in w.batches
    ensures Inv(e, first, Appended(w, entry))
  {
    SerialAppended(e, first, w, entry);
    RecordedAppended(w, entry);
    StandsAppended(e, w, entry);
  }

  lemma SerialAppended(e: Engine, first: State, w: World, entry: Entry)
    requires w.state == Replayed(first, w.log) && Serial(e, first, w.log) && Recorded(w.log, w.batches)
    requires Rests(e, w.state, |w.log|, entry) && entry.command.key !in w.batches
    ensures Serial(e, first, w.log + [entry]) && After(w.state, entry) == Replayed(first, w.log + [entry])
  {
    hide After, Rests;
    var log := w.log + [entry];
    assert log[..|w.log|] == w.log;
    forall i | 0 <= i < |log| ensures RestsAt(e, first, log, i) {
      if i < |w.log| {
        assert log[..i] == w.log[..i];
        assert RestsAt(e, first, w.log, i);
      }
    }
  }

  lemma RecordedAppended(w: World, entry: Entry)
    requires Recorded(w.log, w.batches) && entry.command.key !in w.batches
    ensures Recorded(w.log + [entry], w.batches[entry.command.key := entry.command.hash])
  {
    var log := w.log + [entry];
    forall k | k in w.batches || k == entry.command.key ensures exists i :: 0 <= i < |log| && log[i].command.key == k {
      if k == entry.command.key {
        assert log[|w.log|].command.key == k;
      } else {
        var i :| 0 <= i < |w.log| && w.log[i].command.key == k;
        assert log[i].command.key == k;
      }
    }
  }

  lemma StandsAppended(e: Engine, w: World, entry: Entry)
    requires KeptRight(e, w) && forall k :: k in w.workers ==> StandsRight(e, w, w.workers[k])
    ensures
      var u := Appended(w, entry);
      KeptRight(e, u) && forall k :: k in u.workers ==> StandsRight(e, u, u.workers[k])
  {
    hide After, Rests;
    var u := Appended(w, entry);
    forall k | k in u.workers ensures StandsRight(e, u, u.workers[k]) {
      assert StandsRight(e, w, w.workers[k]);
    }
  }

  /** What a current check prepares rests on the current state. */
  lemma PreparedRests(e: Engine, first: State, w: World, c: Command, p: Plan)
    requires Inv(e, first, w) && ((c, p) in w.kept || p == Nothing())
    requires Prepared(e, w, c, p, |w.log|).Some?
    ensures Rests(e, w.state, |w.log|, Entry(c, p, Prepared(e, w, c, p, |w.log|).value)) && c.key !in w.batches
  {
    hide Stale, Serial, Recorded;
  }

  /** Every step of every worker keeps the history serial. */
  lemma StepKeeps(e: Engine, first: State, w: World, ev: Event)
    requires Inv(e, first, w)
    ensures Inv(e, first, Next(e, w, ev))
  {
    hide After, Rests, Stale, Prepared, Serial, Recorded;
    var now := if ev.worker in w.workers then w.workers[ev.worker] else Idle;
    assert StandsRight(e, w, now);
    match ev {
      case Start(worker, c) =>
      case Propose(worker, torn) =>
      case Open(worker, c, p) =>
      case Prepare(worker, seen) =>
        if now.Opened? && now.since == |w.log| && Prepared(e, w, now.command, now.plan, now.since).Some? {
          PreparedRests(e, first, w, now.command, now.plan);
        }
      case Commit(worker) =>
        if now.Ready? && now.since == |w.log| {
          var idle := WithWorker(w, worker, Idle);
          assert Inv(e, first, idle);
          AppendKeeps(e, first, idle, now.entry);
        }
    }
  }

  /** Committed merges form a serial history under any interleaving of any number of workers. */
  lemma {:induction false} RunIsSerial(e: Engine, first: State, events: seq<Event>)
    ensures Inv(e, first, Run(e, Empty(first), events))
  {
    if events != [] {
      RunIsSerial(e, first, events[..|events| - 1]);
      StepKeeps(e, first, Run(e, Empty(first), events[..|events| - 1]), events[|events| - 1]);
    }
  }

  // --- What a committed batch does to other proposals ------------------------------------------------

  /** The state after a batch, said of what it holds: the rows it leaves and those it writes, the merges and reviews it
      writes, and the decisions and identities there were with its own. */
  lemma CommitLeaves(s: State, entry: Entry)
    ensures
      var after, e := After(s, entry), entry.effects;
      && (forall r :: r in after.rows <==> r in e.rows || (r in s.rows && r !in e.unbound))
      && (forall r :: r in e.rows ==> after.rows[r] == e.rows[r])
      && (forall r :: r in s.rows && r !in e.unbound && r !in e.rows ==> after.rows[r] == s.rows[r])
      && after.canonical == e.canonical && after.review == e.review
      && (forall d :: d in after.decisions <==> d in s.decisions || d in e.decisions)
      && (forall id :: id in after.issued <==>
            id in s.issued
            || (exists i :: 0 <= i < |entry.command.identities| && entry.command.identities[i].id == id)
            || (exists i :: 0 <= i < |entry.plan.identities| && entry.plan.identities[i].id == id))
  {
    hide Newest;
    var mine, planned := entry.command.identities, entry.plan.identities;
    var all := Identities(entry.command, entry.plan);
    forall id ensures id in Ids(all) <==>
                      (exists i :: 0 <= i < |mine| && mine[i].id == id) || (exists i :: 0 <= i < |planned| && planned[i].id == id) {
      if i :| 0 <= i < |planned| && planned[i].id == id {
        assert all[|mine| + i] == planned[i];
      }
      if i :| 0 <= i < |mine| && mine[i].id == id {
        assert all[i] == mine[i];
      }
    }
  }

  lemma CommitStores(s: State, entry: Entry)
    ensures s.decisions <= After(s, entry).decisions && entry.effects.decisions <= After(s, entry).decisions
  {
    hide Newest;
  }

  /** Every decision a history commits stays stored. */
  lemma {:induction false} DecisionsStay(first: State, log: seq<Entry>, i: nat)
    requires i < |log|
    ensures first.decisions <= Replayed(first, log).decisions && log[i].effects.decisions <= Replayed(first, log).decisions
  {
    hide After;
    var n := |log| - 1;
    CommitStores(Replayed(first, log[..n]), log[n]);
    if n > 0 {
      DecisionsStay(first, log[..n], if i < n then i else 0);
    }
  }

  /** Through a record the proposal does not release, a master holds a value once the batch is in: one whose row the
      batch leaves, or one it writes, on a master that answers, with the batch's merges, as that one. */
  predicate HeldBy(s: State, entry: Entry, released: set<Id>, r: Id, v: Value, m: Id) {
    && r !in released
    && ((Keeps(s, entry, r) && v in s.rows[r].values && Answers(entry.effects.canonical, s.rows[r].master) == m)
        || (r in entry.effects.rows && v in entry.effects.rows[r].values
            && Answers(entry.effects.canonical, entry.effects.rows[r].master) == m))
  }

  lemma HoldersAfter(s: State, entry: Entry, released: set<Id>, v: Value, m: Id)
    ensures m in Holders(After(s, entry), released, v) <==> exists r :: HeldBy(s, entry, released, r, v, m)
  {
    hide Newest;
    var after := After(s, entry);
    if m in Holders(after, released, v) {
      var r :| r in after.rows && r !in released && v in after.rows[r].values && Root(after, after.rows[r].master) == m;
      assert HeldBy(s, entry, released, r, v, m);
    }
    if r :| HeldBy(s, entry, released, r, v, m) {
      assert r in after.rows && v in after.rows[r].values && Root(after, after.rows[r].master) == m;
    }
  }

  /** Some identity of the kind was published no earlier, before the batch or by it. */
  ghost predicate PublishedSince(s: State, entry: Entry, identity: Identity) {
    || (identity.kind in s.newest && s.newest[identity.kind] >= identity.publishedAt)
    || exists i :: 0 <= i < |Published(entry)| && Published(entry)[i].kind == identity.kind
                   && Published(entry)[i].publishedAt >= identity.publishedAt
  }

  lemma {:induction false} NewestIs(newest: map<Id, Instant>, identities: seq<Identity>, kind: Id, at: Instant)
    ensures kind in Newest(newest, identities) && Newest(newest, identities)[kind] >= at <==>
      (kind in newest && newest[kind] >= at)
      || exists i :: 0 <= i < |identities| && identities[i].kind == kind && identities[i].publishedAt >= at
    decreases |identities|
  {
    if identities != [] {
      var n := |identities| - 1;
      var rest := identities[..n];
      NewestIs(newest, rest, kind, at);
      if i :| 0 <= i < |rest| && rest[i].kind == kind && rest[i].publishedAt >= at {
        assert identities[i] == rest[i];
      }
      if i :| 0 <= i < |identities| && identities[i].kind == kind && identities[i].publishedAt >= at {
        assert i < n ==> rest[i] == identities[i];
      }
    }
  }

  /** After the batch no master but this one holds the value. */
  ghost predicate NoOther(s: State, entry: Entry, released: set<Id>, c: Claim) {
    forall r, h :: HeldBy(s, entry, released, r, c.value, h) ==> h == c.master
  }

  /** After the batch this master holds the value, and no other. */
  ghost predicate HeldAlone(s: State, entry: Entry, released: set<Id>, c: Claim) {
    (exists r :: HeldBy(s, entry, released, r, c.value, c.master)) && NoOther(s, entry, released, c)
  }

  /** One value's ground: for a withheld value, a mint or a join. */
  lemma GroundsAfter(s: State, entry: Entry, released: set<Id>, c: Claim)
    ensures
      var held := Holders(After(s, entry), released, c.value);
      && (held <= {c.master} <==> NoOther(s, entry, released, c))
      && (held == {c.master} <==> HeldAlone(s, entry, released, c))
  {
    hide HeldBy, Holders, After;
    var held := Holders(After(s, entry), released, c.value);
    forall h ensures h in held <==> exists r :: HeldBy(s, entry, released, r, c.value, h) {
      HoldersAfter(s, entry, released, c.value, h);
    }
    if held <= {c.master} {
      forall r, h | HeldBy(s, entry, released, r, c.value, h) ensures h == c.master {
        assert h in held;
      }
    }
    if NoOther(s, entry, released, c) {
      forall h | h in held ensures h in {c.master} {
        var r :| HeldBy(s, entry, released, r, c.value, h);
      }
    }
  }

  /** When a proposal is stale on the state a committed batch leaves, said of the proposal and the batch: the decisions
      about the masters it merges are no longer those it rests on; no other master holds a value it withholds; another
      holds one it mints; the holder of one it joins is not its master alone; a master it joins is under review; or an
      identity of a kind it creates has been published since. */
  lemma StaleAfterCommit(s: State, entry: Entry, p: Plan, released: set<Id>)
    ensures Stale(After(s, entry), p, released) <==>
      || (p.merged != {} && Closures.RestsOn(s.decisions + entry.effects.decisions, p.merged) != p.restsOn)
      || (exists i :: 0 <= i < |p.withheld| && NoOther(s, entry, released, p.withheld[i]))
      || (exists i :: 0 <= i < |p.mints| && !NoOther(s, entry, released, p.mints[i]))
      || (exists i :: 0 <= i < |p.joins| && !HeldAlone(s, entry, released, p.joins[i]))
      || (exists i :: 0 <= i < |p.joins| && p.joins[i].master in entry.effects.review)
      || (exists i :: 0 <= i < |p.identities| && PublishedSince(s, entry, p.identities[i]))
  {
    LaterAfter(s, entry, p.identities);
    AfterReads(s, entry);
    hide HeldBy, Holders, After, Later, PublishedSince, NoOther, HeldAlone;
    var after := After(s, entry);
    forall i | 0 <= i < |p.withheld|
      ensures Holders(after, released, p.withheld[i].value) <= {p.withheld[i].master} <==> NoOther(s, entry, released, p.withheld[i])
    {
      GroundsAfter(s, entry, released, p.withheld[i]);
    }
    forall i | 0 <= i < |p.mints|
      ensures Holders(after, released, p.mints[i].value) <= {p.mints[i].master} <==> NoOther(s, entry, released, p.mints[i])
    {
      GroundsAfter(s, entry, released, p.mints[i]);
    }
    forall i | 0 <= i < |p.joins|
      ensures Holders(after, released, p.joins[i].value) == {p.joins[i].master} <==> HeldAlone(s, entry, released, p.joins[i])
    {
      GroundsAfter(s, entry, released, p.joins[i]);
    }
    assert (exists i :: 0 <= i < |p.withheld| && Holders(after, released, p.withheld[i].value) <= {p.withheld[i].master}) <==>
           (exists i :: 0 <= i < |p.withheld| && NoOther(s, entry, released, p.withheld[i]));
    assert (exists i :: 0 <= i < |p.mints| && !(Holders(after, released, p.mints[i].value) <= {p.mints[i].master})) <==>
           (exists i :: 0 <= i < |p.mints| && !NoOther(s, entry, released, p.mints[i]));
    assert (exists i :: 0 <= i < |p.joins| && Holders(after, released, p.joins[i].value) != {p.joins[i].master}) <==>
           (exists i :: 0 <= i < |p.joins| && !HeldAlone(s, entry, released, p.joins[i]));
  }

  lemma AfterReads(s: State, entry: Entry)
    ensures After(s, entry).decisions == s.decisions + entry.effects.decisions && After(s, entry).review == entry.effects.review
  {
    hide Newest;
  }

  lemma LaterAfter(s: State, entry: Entry, identities: seq<Identity>)
    ensures Later(After(s, entry), identities) <==> forall i :: 0 <= i < |identities| ==> !PublishedSince(s, entry, identities[i])
  {
    forall i | 0 <= i < |identities|
      ensures identities[i].kind in After(s, entry).newest && After(s, entry).newest[identities[i].kind] >= identities[i].publishedAt
              <==> PublishedSince(s, entry, identities[i])
    {
      NewestIs(s.newest, Published(entry), identities[i].kind, identities[i].publishedAt);
    }
    hide Newest, PublishedSince;
  }

  /** A proposal that merges masters, fresh on a state, is stale once a batch stores a new merge or exclusion of one
      of them. */
  lemma MergeGoesStale(s: State, entry: Entry, p: Plan, released: set<Id>, d: Closures.Decision)
    requires !Stale(s, p, released) && p.merged != {} && d in entry.effects.decisions && d !in s.decisions
    requires (d.Merge? || d.Exclude?) && (d.left in p.merged || d.right in p.merged)
    ensures Stale(After(s, entry), p, released)
  {
    hide Holders, Later;
    Closures.NamedIsFound(s.decisions + entry.effects.decisions, p.merged, d);
    AfterReads(s, entry);
    hide After;
    assert d !in Closures.RestsOn(s.decisions, p.merged);
  }

  // --- One master for each identifier value ----------------------------------------------------------

  ghost predicate Contested(s: State, v: Value) {
    exists a, b :: a in Holders(s, {}, v) && b in Holders(s, {}, v) && a != b
  }

  /** What preparation owes: a released record is unbound or bound anew. */
  predicate Orderly(entry: Entry) {
    entry.command.released <= entry.effects.unbound + entry.effects.rows.Keys
  }

  /** A stored row the batch leaves as it is. */
  predicate Keeps(s: State, entry: Entry, r: Id) {
    r in s.rows && r !in entry.effects.unbound && r !in entry.effects.rows
  }

  /** A value a written record holds that its own row held for the same master already. */
  predicate HeldBefore(s: State, c: Command, r: Id, row: Row, v: Value) {
    r in s.rows && r !in c.released && s.rows[r].master == row.master && v in s.rows[r].values
  }

  /** A record the batch writes comes to hold a value. */
  predicate Gains(s: State, entry: Entry, r: Id, v: Value) {
    && r in entry.effects.rows && v in entry.effects.rows[r].values
    && !HeldBefore(s, entry.command, r, entry.effects.rows[r], v)
  }

  /** A record goes on holding a value for the same master. */
  predicate StillHolds(s: State, entry: Entry, r: Id, v: Value) {
    || (Keeps(s, entry, r) && v in s.rows[r].values)
    || (r in entry.effects.rows && v in entry.effects.rows[r].values && HeldBefore(s, entry.command, r, entry.effects.rows[r], v))
  }

  /** The batch makes two masters answer as one. */
  predicate Together(entry: Entry, a: Id, b: Id) {
    Answers(entry.effects.canonical, a) == Answers(entry.effects.canonical, b)
  }

  ghost predicate Backed(entry: Entry, claims: seq<Claim>, master: Id, v: Value) {
    exists i :: 0 <= i < |claims| && claims[i].value == v && Together(entry, claims[i].master, master)
  }

  /** A record the batch writes has a value by a claim the staleness check looks at. */
  ghost predicate Claimed(entry: Entry, r: Id, v: Value)
    requires r in entry.effects.rows
  {
    var master := entry.effects.rows[r].master;
    Backed(entry, entry.plan.mints, master, v) || Backed(entry, entry.plan.joins, master, v)
  }

  /** A row the batch leaves, or one it writes, holds the value for another master. */
  ghost predicate OnAnother(s: State, entry: Entry, v: Value, master: Id) {
    || (exists q :: Keeps(s, entry, q) && v in s.rows[q].values && !Together(entry, s.rows[q].master, master))
    || (exists q :: q in entry.effects.rows && v in entry.effects.rows[q].values
                    && !Together(entry, entry.effects.rows[q].master, master))
  }

  /** The caller binds a record that carries a value another master holds. */
  ghost predicate CallerGives(s: State, entry: Entry, v: Value) {
    exists r :: Gains(s, entry, r, v) && r in entry.command.bound && OnAnother(s, entry, v, entry.effects.rows[r].master)
  }

  /** A record comes to hold, without a claim, a value another master holds: one a name rule binds, a record
      delivered again with a value stored for another master, or one with a value no rule reads. */
  ghost predicate UnclaimedGives(s: State, entry: Entry, v: Value) {
    exists r :: Gains(s, entry, r, v) && r !in entry.command.bound && !Claimed(entry, r, v)
                && OnAnother(s, entry, v, entry.effects.rows[r].master)
  }

  /** The proposal mints the value for the masters of two records, and they are not one. */
  ghost predicate MintsTwice(s: State, entry: Entry, v: Value) {
    var rows, mints := entry.effects.rows, entry.plan.mints;
    exists r, q :: Gains(s, entry, r, v) && Gains(s, entry, q, v)
                   && Backed(entry, mints, rows[r].master, v) && Backed(entry, mints, rows[q].master, v)
                   && !Together(entry, rows[r].master, rows[q].master)
  }

  /** A merge is taken back that held one of the value's masters and another master of it together. */
  ghost predicate UnmergeGives(s: State, entry: Entry, v: Value) {
    exists r :: StillHolds(s, entry, r, v) && !Together(entry, s.rows[r].master, Root(s, s.rows[r].master))
                && OnAnother(s, entry, v, s.rows[r].master)
  }

  // A row that holds a value once the batch is in.
  ghost predicate HoldsAfter(s: State, entry: Entry, r: Id, v: Value) {
    r in After(s, entry).rows && v in After(s, entry).rows[r].values
  }

  /** Such a row gained the value or went on holding it. */
  lemma GainedOrStill(s: State, entry: Entry, r: Id, v: Value)
    ensures HoldsAfter(s, entry, r, v) <==> Gains(s, entry, r, v) || StillHolds(s, entry, r, v)
    ensures Gains(s, entry, r, v) ==> After(s, entry).rows[r].master == entry.effects.rows[r].master
    ensures StillHolds(s, entry, r, v) ==> After(s, entry).rows[r].master == s.rows[r].master
  {
    hide Newest;
  }

  /** A row that went on holding the value is on what an earlier holder of it answers as, unless their merge is
      taken back. */
  lemma StillOnHolder(s: State, entry: Entry, r: Id, v: Value)
    requires Orderly(entry) && StillHolds(s, entry, r, v)
    ensures Root(s, s.rows[r].master) in Holders(s, entry.command.released, v)
  {
    assert r !in entry.command.released;
  }

  /** The conditions on the rows kept and written are about the rows there are after. */
  lemma OnAnotherAfter(s: State, entry: Entry, v: Value, master: Id)
    ensures OnAnother(s, entry, v, master) <==>
      exists q :: HoldsAfter(s, entry, q, v) && !Together(entry, After(s, entry).rows[q].master, master)
  {
    hide Newest, Together;
    var rows := After(s, entry).rows;
    forall q ensures Keeps(s, entry, q) ==> q in rows && rows[q] == s.rows[q] {
    }
    forall q ensures q in entry.effects.rows ==> q in rows && rows[q] == entry.effects.rows[q] {
    }
    if q :| HoldsAfter(s, entry, q, v) && !Together(entry, rows[q].master, master) {
      assert Keeps(s, entry, q) || q in entry.effects.rows;
    }
  }

  /** A value a fresh claim gives is on the one master that held it. */
  lemma ClaimIsHolder(s: State, entry: Entry, v: Value, r: Id, only: Id)
    requires !Stale(s, entry.plan, entry.command.released) && only in Holders(s, entry.command.released, v)
    requires r in entry.effects.rows && Claimed(entry, r, v)
    ensures Together(entry, entry.effects.rows[r].master, only)
  {
    hide Root, Later;
    var master, p := entry.effects.rows[r].master, entry.plan;
    if i :| 0 <= i < |p.mints| && p.mints[i].value == v && Together(entry, p.mints[i].master, master) {
      assert Holders(s, entry.command.released, p.mints[i].value) <= {p.mints[i].master};
      assert only in {p.mints[i].master};
    } else {
      var i :| 0 <= i < |p.joins| && p.joins[i].value == v && Together(entry, p.joins[i].master, master);
      assert Holders(s, entry.command.released, p.joins[i].value) == {p.joins[i].master};
      assert only in {p.joins[i].master};
    }
  }

  /** Where no master held a value, a fresh claim on it is a mint. */
  lemma ClaimIsMint(s: State, entry: Entry, v: Value, r: Id)
    requires !Stale(s, entry.plan, entry.command.released) && Holders(s, entry.command.released, v) == {}
    requires r in entry.effects.rows && Claimed(entry, r, v)
    ensures Backed(entry, entry.plan.mints, entry.effects.rows[r].master, v)
  {
    hide Together, Later, Holders;
    var p := entry.plan;
    forall i | 0 <= i < |p.joins| ensures p.joins[i].value != v {
      assert p.joins[i].master in {p.joins[i].master};
    }
  }

  lemma TwoRows(s: State, v: Value)
    ensures Contested(s, v) <==>
      exists r, q :: r in s.rows && q in s.rows && v in s.rows[r].values && v in s.rows[q].values
                     && Root(s, s.rows[r].master) != Root(s, s.rows[q].master)
  {
    hide Root;
    if a, b :| a in Holders(s, {}, v) && b in Holders(s, {}, v) && a != b {
      var r :| r in s.rows && v in s.rows[r].values && a == Root(s, s.rows[r].master);
      var q :| q in s.rows && v in s.rows[q].values && b == Root(s, s.rows[q].master);
    }
    if r, q :| r in s.rows && q in s.rows && v in s.rows[r].values && v in s.rows[q].values
               && Root(s, s.rows[r].master) != Root(s, s.rows[q].master) {
      assert Root(s, s.rows[r].master) in Holders(s, {}, v) && Root(s, s.rows[q].master) in Holders(s, {}, v);
    }
  }

  lemma TwoRowsAfter(s: State, entry: Entry, v: Value)
    ensures Contested(After(s, entry), v) <==>
      exists r, q :: HoldsAfter(s, entry, r, v) && HoldsAfter(s, entry, q, v)
                     && !Together(entry, After(s, entry).rows[r].master, After(s, entry).rows[q].master)
  {
    TwoRows(After(s, entry), v);
    forall a, b ensures Together(entry, a, b) <==> Root(After(s, entry), a) == Root(After(s, entry), b) {
    }
    hide Contested, After, Root, Together;
  }

  lemma OneHolder(s: State, released: set<Id>, v: Value)
    requires !Contested(s, v)
    ensures forall g, h :: g in Holders(s, released, v) && h in Holders(s, released, v) ==> g == h
  {
    assert forall h :: h in Holders(s, released, v) ==> h in Holders(s, {}, v);
  }

  /** A row whose value another master holds after makes the batch the cause, unless it is on the one earlier
      holder, or minted where there was none. */
  lemma RowExplained(s: State, entry: Entry, v: Value, r: Id)
    requires !Stale(s, entry.plan, entry.command.released) && Orderly(entry) && !Contested(s, v)
    requires HoldsAfter(s, entry, r, v) && OnAnother(s, entry, v, After(s, entry).rows[r].master)
    ensures
      var master, held := After(s, entry).rows[r].master, Holders(s, entry.command.released, v);
      || CallerGives(s, entry, v) || UnclaimedGives(s, entry, v) || UnmergeGives(s, entry, v)
      || ((forall h :: h in held ==> held == {h} && Together(entry, master, h))
          && (held == {} ==> Gains(s, entry, r, v) && Backed(entry, entry.plan.mints, master, v)))
  {
    var master, held := After(s, entry).rows[r].master, Holders(s, entry.command.released, v);
    GainedOrStill(s, entry, r, v);
    OneHolder(s, entry.command.released, v);
    hide After, Root, Stale, Contested, Holders, OnAnother, Backed, HeldBefore, Orderly, Together;
    if StillHolds(s, entry, r, v) {
      StillOnHolder(s, entry, r, v);
    } else if r !in entry.command.bound && Claimed(entry, r, v) {
      if held == {} {
        ClaimIsMint(s, entry, v, r);
      }
      forall h | h in held
        ensures held == {h} && Together(entry, master, h)
      {
        ClaimIsHolder(s, entry, v, r, h);
      }
    }
  }

  /** The four ways one batch can leave a value with two masters. */
  ghost predicate Blames(s: State, entry: Entry, v: Value) {
    CallerGives(s, entry, v) || UnclaimedGives(s, entry, v) || MintsTwice(s, entry, v) || UnmergeGives(s, entry, v)
  }

  lemma CauseFound(s: State, entry: Entry, v: Value)
    requires !Stale(s, entry.plan, entry.command.released) && Orderly(entry) && !Contested(s, v) && Contested(After(s, entry), v)
    ensures Blames(s, entry, v)
  {
    hide After, Root, Stale, Contested, Holders, Backed, HeldBefore, Orderly, OnAnother;
    hide StillHolds, CallerGives, UnclaimedGives, UnmergeGives;
    var rows := After(s, entry).rows;
    TwoRowsAfter(s, entry, v);
    var r, q :| HoldsAfter(s, entry, r, v) && HoldsAfter(s, entry, q, v) && !Together(entry, rows[r].master, rows[q].master);
    OnAnotherAfter(s, entry, v, rows[r].master);
    OnAnotherAfter(s, entry, v, rows[q].master);
    RowExplained(s, entry, v, r);
    RowExplained(s, entry, v, q);
    GainedOrStill(s, entry, r, v);
    GainedOrStill(s, entry, q, v);
    if h :| h in Holders(s, entry.command.released, v) {
    } else {
      assert Holders(s, entry.command.released, v) == {};
    }
  }

  /** A row that holds a value another master holds leaves it with two masters. */
  lemma HeldOnBoth(s: State, entry: Entry, v: Value, r: Id)
    requires HoldsAfter(s, entry, r, v) && OnAnother(s, entry, v, After(s, entry).rows[r].master)
    ensures Contested(After(s, entry), v)
  {
    hide After, Contested, Together, OnAnother;
    TwoRowsAfter(s, entry, v);
    OnAnotherAfter(s, entry, v, After(s, entry).rows[r].master);
  }

  lemma BlameContests(s: State, entry: Entry, v: Value)
    requires Blames(s, entry, v)
    ensures Contested(After(s, entry), v)
  {
    hide After, Contested, Together, OnAnother, Backed, HoldsAfter, Claimed;
    if r :| Gains(s, entry, r, v) && OnAnother(s, entry, v, entry.effects.rows[r].master) {
      GainedOrStill(s, entry, r, v);
      HeldOnBoth(s, entry, v, r);
    } else if r :| StillHolds(s, entry, r, v) && OnAnother(s, entry, v, s.rows[r].master) {
      GainedOrStill(s, entry, r, v);
      HeldOnBoth(s, entry, v, r);
    } else {
      var r, q :| Gains(s, entry, r, v) && Gains(s, entry, q, v)
                  && !Together(entry, entry.effects.rows[r].master, entry.effects.rows[q].master);
      GainedOrStill(s, entry, r, v);
      GainedOrStill(s, entry, q, v);
      TwoRowsAfter(s, entry, v);
    }
  }

  /** A batch leaves an uncontested value with two masters exactly when a record comes to hold what another master
      holds, by its caller's bind or without a claim, or the proposal mints it twice, or a merge that held its
      masters together is taken back. Each is a condition on the stored rows and on what the batch would write. */
  lemma ContestedExactly(e: Engine, s: State, generation: nat, entry: Entry, v: Value)
    requires Rests(e, s, generation, entry) && Orderly(entry) && !Contested(s, v)
    ensures Contested(After(s, entry), v) <==> Blames(s, entry, v)
  {
    hide After, Stale, Contested, Blames, Orderly, Later, Unallocated;
    if Contested(After(s, entry), v) {
      CauseFound(s, entry, v);
    }
    if Blames(s, entry, v) {
      BlameContests(s, entry, v);
    }
  }

  /** A batch under which masters that were one stay one takes nothing back, where survivors are not merged away
      themselves. */
  lemma MergesPartNone(s: State, entry: Entry, v: Value)
    requires forall m :: m in s.canonical ==> s.canonical[m] !in s.canonical
    requires forall a, b :: Root(s, a) == Root(s, b) ==> Together(entry, a, b)
    ensures !UnmergeGives(s, entry, v)
  {
    forall r | StillHolds(s, entry, r, v) ensures Together(entry, s.rows[r].master, Root(s, s.rows[r].master)) {
      assert Root(s, Root(s, s.rows[r].master)) == Root(s, s.rows[r].master);
    }
  }

  /** What every preparation of an engine owes. */
  ghost predicate Careful(e: Engine) {
    forall s, c, p :: Orderly(Entry(c, p, e.prepare(s, c, p)))
  }

  ghost predicate BlamedAt(first: State, log: seq<Entry>, i: nat, v: Value)
    requires i < |log|
  {
    Blames(Replayed(first, log[..i]), log[i], v)
  }

  lemma CarefulAt(e: Engine, first: State, log: seq<Entry>, i: nat)
    requires Careful(e) && i < |log| && RestsAt(e, first, log, i)
    ensures Orderly(log[i])
  {
    hide Stale;
    var s := Replayed(first, log[..i]);
    assert Orderly(Entry(log[i].command, log[i].plan, e.prepare(s, log[i].command, log[i].plan)));
  }

  lemma SerialPrefix(e: Engine, first: State, log: seq<Entry>, n: nat)
    requires Serial(e, first, log) && n <= |log|
    ensures Serial(e, first, log[..n])
  {
    hide Rests;
    forall i | 0 <= i < n ensures RestsAt(e, first, log[..n], i) {
      assert log[..n][..i] == log[..i];
      assert RestsAt(e, first, log, i);
    }
  }

  /** Over any history: a value two masters hold was so from the start, or some committed batch is to blame. */
  lemma {:induction false} ContestedInHistory(e: Engine, first: State, log: seq<Entry>, v: Value)
    requires Careful(e) && Serial(e, first, log)
    requires Contested(Replayed(first, log), v)
    ensures Contested(first, v) || exists i :: 0 <= i < |log| && BlamedAt(first, log, i, v)
  {
    hide Careful, Orderly, Blames, Contested, After, Rests;
    if log != [] {
      var n := |log| - 1;
      SerialPrefix(e, first, log, n);
      assert RestsAt(e, first, log, n);
      CarefulAt(e, first, log, n);
      if Contested(Replayed(first, log[..n]), v) {
        ContestedInHistory(e, first, log[..n], v);
        if i :| 0 <= i < n && BlamedAt(first, log[..n], i, v) {
          assert log[..n][..i] == log[..i];
          assert BlamedAt(first, log, i, v);
        }
      } else {
        ContestedExactly(e, Replayed(first, log[..n]), n, log[n], v);
        assert BlamedAt(first, log, n, v);
      }
    }
  }

  /** No identifier value is held by two masters after any interleaving, reversals included, in which no batch is
      to blame: none whose caller binds a record that carries a value another master holds, whose record comes to
      hold one without a claim, that mints one twice, or that takes back a merge of the value's own masters. */
  lemma OneMasterForEachValue(e: Engine, first: State, events: seq<Event>, v: Value)
    requires Careful(e) && !Contested(first, v)
    requires
      var log := Run(e, Empty(first), events).log;
      forall i :: 0 <= i < |log| ==> !BlamedAt(first, log, i, v)
    ensures !Contested(Run(e, Empty(first), events).state, v)
  {
    hide Careful, Contested, Blames, Rests;
    RunIsSerial(e, first, events);
    var w := Run(e, Empty(first), events);
    if Contested(w.state, v) {
      ContestedInHistory(e, first, w.log, v);
    }
  }

  // --- Batches that contest a value, from proposal to commit ---------------------------------------------

  /** One worker's whole run, with nobody beside it. */
  function Alone(c: Command, p: Plan): seq<Event> {
    [Start("w", c), Propose("w", p), Open("w", c, Observed(p, 0)), Event.Prepare("w", None), Commit("w")]
  }

  lemma RunOneMore(e: Engine, w: World, events: seq<Event>, ev: Event)
    ensures Run(e, w, events + [ev]) == Next(e, Run(e, w, events), ev)
  {
    assert (events + [ev])[..|events|] == events;
  }

  /** A free proposal that is not stale where it was read commits, alone. */
  lemma AloneCommits(e: Engine, first: State, c: Command)
    requires !Stale(first, e.plan(first, c), c.released) && Free(first, c, e.plan(first, c))
    ensures
      var p := Observed(e.plan(first, c), 0);
      var w := Run(e, Empty(first), Alone(c, e.plan(first, c)));
      w.log == [Entry(c, p, e.prepare(first, c, p))] && w.state == After(first, w.log[0])
  {
    hide After, Stale, Free, Run, Prepared;
    var plan := e.plan(first, c);
    var p := Observed(plan, 0);
    var none: seq<Event> := [];
    RunNothing(e, Empty(first));
    var one := none + [Start("w", c)];
    RunOneMore(e, Empty(first), none, Start("w", c));
    var two := one + [Propose("w", plan)];
    RunOneMore(e, Empty(first), one, Propose("w", plan));
    var three := two + [Open("w", c, p)];
    RunOneMore(e, Empty(first), two, Open("w", c, p));
    var four := three + [Event.Prepare("w", None)];
    RunOneMore(e, Empty(first), three, Event.Prepare("w", None));
    RunOneMore(e, Empty(first), four, Commit("w"));
    assert four + [Commit("w")] == Alone(c, plan);
    SameGround(first, plan, 0, c.released);
    SameFree(first, c, plan, 0);
    FreePasses(e, Run(e, Empty(first), three), c, p);
  }

  lemma RunNothing(e: Engine, w: World)
    ensures Run(e, w, []) == w
  {
  }

  lemma SameFree(s: State, c: Command, p: Plan, generation: nat)
    ensures Free(s, c, Observed(p, generation)) == Free(s, c, p)
  {
    hide Unallocated, Later;
  }

  lemma FreePasses(e: Engine, w: World, c: Command, p: Plan)
    requires w.log == [] && w.batches == map[] && p.observed == Some(0)
    requires !Stale(w.state, p, c.released) && Free(w.state, c, p)
    ensures Prepared(e, w, c, p, 0) == Some(e.prepare(w.state, c, p))
  {
  }

  /** An engine that answers one plan and writes the same records for it, with those it is asked to release unbound. */
  function Answering(plan: Plan, rows: map<Id, Row>): Engine {
    Engine((s: State, c: Command) => plan, (s: State, c: Command, p: Plan) => Writes(rows, c.released))
  }

  function Delivery(): Command {
    Command("batch", "hash", [], {}, {})
  }

  function Held(rows: map<Id, Row>): State {
    State(rows, map[], {}, {}, {}, map[])
  }

  function Writes(rows: map<Id, Row>, unbound: set<Id>): Effects {
    Effects(rows, unbound, map[], {}, {})
  }

  function Claims(mints: seq<Claim>, joins: seq<Claim>, merged: set<Id>): Plan {
    Plan(None, [], mints, joins, [], merged, {})
  }

  lemma AnsweringIsCareful(plan: Plan, rows: map<Id, Row>)
    ensures Careful(Answering(plan, rows))
  {
  }

  /** What one worker's lone batch leaves: the rows it found under the rows it writes, and no merge. */
  lemma LoneBatch(first: State, plan: Plan, written: map<Id, Row>)
    requires !Stale(first, plan, {}) && plan.identities == []
    ensures
      var w := Run(Answering(plan, written), Empty(first), Alone(Delivery(), plan));
      && w.log == [Entry(Delivery(), Observed(plan, 0), Writes(written, {}))]
      && w.state == After(first, w.log[0])
      && w.state.rows == first.rows + written && w.state.canonical == map[]
  {
    hide Stale, Run;
    AloneCommits(Answering(plan, written), first, Delivery());
    assert first.rows - {} == first.rows;
  }

  lemma HolderOfOne(s: State, r: Id, v: Value)
    requires r in s.rows && v in s.rows[r].values && forall q :: q in s.rows && v in s.rows[q].values ==> q == r
    ensures Holders(s, {}, v) == {Root(s, s.rows[r].master)} && !Contested(s, v)
  {
  }

  /** A batch of the lone worker after which two masters' records hold the same value. */
  lemma LoneBatchContests(first: State, plan: Plan, written: map<Id, Row>, r: Id, q: Id, v: Value)
    requires !Stale(first, plan, {}) && plan.identities == []
    requires r in first.rows + written && q in first.rows + written
    requires v in (first.rows + written)[r].values && v in (first.rows + written)[q].values
    requires (first.rows + written)[r].master != (first.rows + written)[q].master
    ensures
      var w := Run(Answering(plan, written), Empty(first), Alone(Delivery(), plan));
      && Careful(Answering(plan, written)) && Contested(w.state, v)
      && w.log == [Entry(Delivery(), Observed(plan, 0), Writes(written, {}))]
  {
    hide Run, Stale, Careful, Holders, After, Contested, Alone;
    AnsweringIsCareful(plan, written);
    LoneBatch(first, plan, written);
    TwoRows(Run(Answering(plan, written), Empty(first), Alone(Delivery(), plan)).state, v);
  }

  /** Two bound records delivered again with one value that no master held: it is minted for both their masters,
      passes the check, and has two masters. */
  lemma MintedTwiceInOneBatch()
    ensures
      var first := Held(map["r1" := Row("m1", {}), "r2" := Row("m2", {})]);
      var plan := Claims([Claim("m1", "lei 1"), Claim("m2", "lei 1")], [], {});
      var e := Answering(plan, map["r1" := Row("m1", {"lei 1"}), "r2" := Row("m2", {"lei 1"})]);
      var w := Run(e, Empty(first), Alone(Delivery(), plan));
      && Careful(e) && !Contested(first, "lei 1") && Contested(w.state, "lei 1")
      && |w.log| == 1 && MintsTwice(first, w.log[0], "lei 1")
  {
    hide Run, Careful, Contested, MintsTwice, Alone, Stale;
    var rows := map["r1" := Row("m1", {}), "r2" := Row("m2", {})];
    var plan := Claims([Claim("m1", "lei 1"), Claim("m2", "lei 1")], [], {});
    var written := map["r1" := Row("m1", {"lei 1"}), "r2" := Row("m2", {"lei 1"})];
    MintsForBoth();
    LoneBatchContests(Held(rows), plan, written, "r1", "r2", "lei 1");
  }

  lemma MintsForBoth()
    ensures
      var first := Held(map["r1" := Row("m1", {}), "r2" := Row("m2", {})]);
      var plan := Claims([Claim("m1", "lei 1"), Claim("m2", "lei 1")], [], {});
      var written := map["r1" := Row("m1", {"lei 1"}), "r2" := Row("m2", {"lei 1"})];
      && !Contested(first, "lei 1") && !Stale(first, plan, {})
      && MintsTwice(first, Entry(Delivery(), Observed(plan, 0), Writes(written, {})), "lei 1")
  {
    var first := Held(map["r1" := Row("m1", {}), "r2" := Row("m2", {})]);
    var plan := Claims([Claim("m1", "lei 1"), Claim("m2", "lei 1")], [], {});
    var written := map["r1" := Row("m1", {"lei 1"}), "r2" := Row("m2", {"lei 1"})];
    var entry := Entry(Delivery(), Observed(plan, 0), Writes(written, {}));
    assert Holders(first, {}, "lei 1") == {};
    hide Newest, Contested;
    assert entry.plan.mints[0] == Claim("m1", "lei 1") && entry.plan.mints[1] == Claim("m2", "lei 1");
    assert Gains(first, entry, "r1", "lei 1") && Gains(first, entry, "r2", "lei 1");
  }

  /** A record that waits is bound by its name to a master that holds no LEI, while another master holds the
      record's: the name rule claims nothing, the check has nothing to look at, and the LEI has two masters. */
  lemma NameBindContests()
    ensures
      var first := Held(map["custodian" := Row("m", {"lei 1"}), "sec" := Row("c", {"cik 1"})]);
      var plan := Claims([], [], {});
      var e := Answering(plan, map["gleif" := Row("c", {"lei 1"})]);
      var w := Run(e, Empty(first), Alone(Delivery(), plan));
      && Careful(e) && !Contested(first, "lei 1") && Contested(w.state, "lei 1")
      && |w.log| == 1 && UnclaimedGives(first, w.log[0], "lei 1")
  {
    hide Run, Careful, Contested, UnclaimedGives, Alone, Stale;
    var rows := map["custodian" := Row("m", {"lei 1"}), "sec" := Row("c", {"cik 1"})];
    var plan := Claims([], [], {});
    var written := map["gleif" := Row("c", {"lei 1"})];
    BindClaimsNothing();
    LoneBatchContests(Held(rows), plan, written, "custodian", "gleif", "lei 1");
  }

  lemma BindClaimsNothing()
    ensures
      var first := Held(map["custodian" := Row("m", {"lei 1"}), "sec" := Row("c", {"cik 1"})]);
      var plan := Claims([], [], {});
      var written := map["gleif" := Row("c", {"lei 1"})];
      && !Contested(first, "lei 1") && !Stale(first, plan, {})
      && UnclaimedGives(first, Entry(Delivery(), Observed(plan, 0), Writes(written, {})), "lei 1")
  {
    var first := Held(map["custodian" := Row("m", {"lei 1"}), "sec" := Row("c", {"cik 1"})]);
    var plan := Claims([], [], {});
    var entry := Entry(Delivery(), Observed(plan, 0), Writes(map["gleif" := Row("c", {"lei 1"})], {}));
    assert first.rows["sec"].values == {"cik 1"} && "lei 1" !in {"cik 1"};
    HolderOfOne(first, "custodian", "lei 1");
    hide Newest, Contested, Holders;
    assert Keeps(first, entry, "custodian") && first.rows["custodian"] == Row("m", {"lei 1"});
    assert Gains(first, entry, "gleif", "lei 1");
  }

  /** Two masters that were merged and hold one value, with another value that only one of them holds. */
  function MergedPair(): State {
    Held(map["r1" := Row("c", {"lei 1", "cik 1"}), "r2" := Row("d", {"lei 1"})]).(canonical := map["d" := "c"])
  }

  /** A steward takes their merge back: the value both hold has two masters, and the other is not touched. */
  lemma UnmergeContests()
    ensures
      var plan := Claims([], [], {});
      var e := Answering(plan, map[]);
      var w := Run(e, Empty(MergedPair()), Alone(Delivery(), plan));
      && Careful(e) && !Contested(MergedPair(), "lei 1") && Contested(w.state, "lei 1")
      && |w.log| == 1 && UnmergeGives(MergedPair(), w.log[0], "lei 1")
      && !Blames(MergedPair(), w.log[0], "cik 1") && !Contested(w.state, "cik 1")
  {
    hide Run, Careful, Contested, UnmergeGives, Blames, Alone, Stale;
    var plan := Claims([], [], {});
    UnmergeParts();
    UnmergeSpares();
    LoneBatchContests(MergedPair(), plan, map[], "r1", "r2", "lei 1");
    LoneBatch(MergedPair(), plan, map[]);
  }

  lemma UnmergeParts()
    ensures
      var plan := Claims([], [], {});
      var entry := Entry(Delivery(), Observed(plan, 0), Writes(map[], {}));
      && !Stale(MergedPair(), plan, {}) && !Contested(MergedPair(), "lei 1") && UnmergeGives(MergedPair(), entry, "lei 1")
  {
    var s := MergedPair();
    var entry := Entry(Delivery(), Observed(Claims([], [], {}), 0), Writes(map[], {}));
    assert s.rows["r1"] == Row("c", {"lei 1", "cik 1"}) && s.rows["r2"] == Row("d", {"lei 1"});
    assert Holders(s, {}, "lei 1") == {"c"};
    assert StillHolds(s, entry, "r2", "lei 1") && Keeps(s, entry, "r1");
  }

  lemma UnmergeSpares()
    ensures
      var entry := Entry(Delivery(), Observed(Claims([], [], {}), 0), Writes(map[], {}));
      !Blames(MergedPair(), entry, "cik 1") && !Contested(After(MergedPair(), entry), "cik 1")
  {
    var s := MergedPair();
    var entry := Entry(Delivery(), Observed(Claims([], [], {}), 0), Writes(map[], {}));
    assert s.rows["r1"] == Row("c", {"lei 1", "cik 1"}) && s.rows["r2"] == Row("d", {"lei 1"});
    assert "cik 1" !in {"lei 1"};
    HolderOfOne(After(s, entry), "r1", "cik 1");
    hide Blames, After, Contested;
    if Blames(s, entry, "cik 1") {
      BlameContests(s, entry, "cik 1");
    }
  }

  // --- Identities and their publication --------------------------------------------------------------

  function Published(entry: Entry): seq<Identity> {
    Identities(entry.command, entry.plan)
  }

  lemma {:induction false} NewestCovers(newest: map<Id, Instant>, identities: seq<Identity>)
    ensures forall k :: k in newest ==> k in Newest(newest, identities) && newest[k] <= Newest(newest, identities)[k]
    ensures forall i :: 0 <= i < |identities| ==>
      identities[i].kind in Newest(newest, identities) && identities[i].publishedAt <= Newest(newest, identities)[identities[i].kind]
  {
    if identities != [] {
      NewestCovers(newest, identities[..|identities| - 1]);
    }
  }

  /** Everything published by a history is issued, and no later than its kind's newest. */
  lemma {:induction false} HistoryPublished(first: State, log: seq<Entry>, i: nat, k: nat)
    requires i < |log| && k < |Published(log[i])|
    ensures
      var identity, s := Published(log[i])[k], Replayed(first, log);
      identity.id in s.issued && identity.kind in s.newest && identity.publishedAt <= s.newest[identity.kind]
  {
    var n := |log| - 1;
    NewestCovers(Replayed(first, log[..n]).newest, Published(log[n]));
    if i < n {
      assert log[..n][i] == log[i];
      HistoryPublished(first, log[..n], i, k);
    }
  }

  /** Over any history: an identity is allocated once, and each kind's identities are published later, batch by batch. */
  lemma PublishedInOrder(e: Engine, first: State, log: seq<Entry>, i: nat, j: nat, k: nat, m: nat)
    requires Serial(e, first, log) && i < j < |log|
    requires k < |Published(log[i])| && m < |Published(log[j])|
    ensures Published(log[i])[k].id != Published(log[j])[m].id
    ensures Published(log[i])[k].kind == Published(log[j])[m].kind ==>
      Published(log[i])[k].publishedAt < Published(log[j])[m].publishedAt
  {
    hide Stale;
    assert RestsAt(e, first, log, j);
    assert log[..j][i] == log[i];
    HistoryPublished(first, log[..j], i, k);
  }

  // --- One worker's own run ---------------------------------------------------------------------------

  /** The checks and the preparation, on what one read sees. */
  method Prepare(e: Engine, w: World, c: Command, p: Plan, since: nat) returns (effects: Option<Effects>)
    ensures effects == Prepared(e, w, c, p, since)
  {
    hide Stale;
    if c.key in w.batches || (p.observed.Some? && p.observed.value != since) {
      return None;
    }
    var stale := ProposalIsStale(w.state, p, c.released);
    if stale || !Unallocated(w.state, Identities(c, p)) || !Later(w.state, Identities(c, p)) {
      return None;
    }
    return Some(e.prepare(w.state, c, p));
  }

  /** One step of another worker. */
  method Step(e: Engine, w: World, ev: Event) returns (after: World)
    ensures after == Next(e, w, ev)
  {
    hide Prepared;
    var now := if ev.worker in w.workers then w.workers[ev.worker] else Idle;
    match ev {
      case Start(worker, c) => after := WithWorker(w, worker, Proposing(c, |w.log|));
      case Propose(worker, torn) =>
        if !now.Proposing? { return w; }
        var p := Observed(if now.since == |w.log| then e.plan(w.state, now.command) else torn, now.since);
        after := WithWorker(w, worker, Idle).(kept := w.kept + {(now.command, p)});
      case Open(worker, c, p) =>
        after := if (c, p) in w.kept || p == Nothing() then WithWorker(w, worker, Opened(c, p, |w.log|)) else w;
      case Prepare(worker, seen) =>
        if !now.Opened? { return w; }
        var effects := seen;
        if now.since == |w.log| {
          effects := Prepare(e, w, now.command, now.plan, now.since);
        }
        after := WithWorker(w, worker, if effects.Some? then Ready(Entry(now.command, now.plan, effects.value), now.since) else Idle);
      case Commit(worker) =>
        if !now.Ready? { return w; }
        if now.since != |w.log| { return WithWorker(w, worker, Idle); }
        after := Appended(WithWorker(w, worker, Idle), now.entry);
    }
  }

  /** A run never forgets a batch, and one that commits none leaves the store as it was. */
  lemma {:induction false} RunOnlyAppends(e: Engine, w: World, events: seq<Event>)
    ensures w.log <= Run(e, w, events).log
    ensures |Run(e, w, events).log| == |w.log| ==> Run(e, w, events).state == w.state && Run(e, w, events).batches == w.batches
    ensures w.kept <= Run(e, w, events).kept
  {
    hide Prepared, After;
    if events != [] {
      RunOnlyAppends(e, w, events[..|events| - 1]);
    }
  }

  lemma BatchesStay(e: Engine, first: State, w: World, u: World)
    requires Inv(e, first, w) && Inv(e, first, u) && w.log <= u.log
    ensures forall k :: k in w.batches ==> k in u.batches && u.batches[k] == w.batches[k]
  {
    hide Serial, KeptRight, StandsRight, Replayed;
    forall k | k in w.batches ensures k in u.batches && u.batches[k] == w.batches[k] {
      var i :| 0 <= i < |w.log| && w.log[i].command.key == k;
      assert u.log[i] == w.log[i];
    }
  }

  lemma PassesAll(e: Engine, w: World, c: Command, p: Plan)
    requires c.key !in w.batches && (p.observed.Some? ==> p.observed.value == |w.log|) && !Stale(w.state, p, c.released)
    requires Unallocated(w.state, Identities(c, p)) && Later(w.state, Identities(c, p))
    ensures Prepared(e, w, c, p, |w.log|) == Some(e.prepare(w.state, c, p))
  {
  }

  datatype Outcome = Applied | Replay | StaleAssessment | Conflict

  // What the other workers do while one worker reads, checks and prepares, and commits.
  datatype Others = Others(planning: seq<Event>, opening: seq<Event>, committing: seq<Event>)

  ghost predicate Free(s: State, c: Command, p: Plan) {
    Unallocated(s, Identities(c, p)) && Later(s, Identities(c, p))
  }

  /** What comes of a batch whose key is new when no other worker commits meanwhile. */
  ghost function Undisturbed(s: State, c: Command, p: Plan): Outcome {
    if Stale(s, p, c.released) then StaleAssessment else if Free(s, c, p) then Applied else Conflict
  }

  function Nobody(): Others {
    Others([], [], [])
  }

  /** The plan made on the state after so many batches is stale on that same state. */
  ghost predicate StaleWhereRead(e: Engine, first: State, log: seq<Entry>, i: nat, c: Command)
    requires i <= |log|
  {
    var s := Replayed(first, log[..i]);
    Stale(s, e.plan(s, c), c.released)
  }

  /** The Merge Stage of one worker, beside any others. */
  class MergeStage {
    const e: Engine
    ghost const first: State
    var world: World

    ghost predicate Valid()
      reads this
    {
      Inv(e, first, world)
    }

    constructor (e: Engine, first: State)
      ensures Valid() && world == Empty(first) && this.e == e && this.first == first
    {
      this.e, this.first, world := e, first, Empty(first);
    }

    method Meanwhile(events: seq<Event>)
      requires Valid()
      modifies this`world
      ensures Valid() && world == Run(e, old(world), events)
      ensures old(world.log) <= world.log && old(world.kept) <= world.kept
      ensures |world.log| == old(|world.log|) ==> world.state == old(world.state) && world.batches == old(world.batches)
      ensures forall k :: k in old(world.batches) ==> k in world.batches && world.batches[k] == old(world.batches)[k]
      ensures events == [] ==> world == old(world)
    {
      hide Inv, Next;
      ghost var start := world;
      var i := 0;
      while i < |events|
        invariant 0 <= i <= |events| && Valid() && world == Run(e, start, events[..i])
      {
        StepKeeps(e, first, world, events[i]);
        assert events[..i + 1][..i] == events[..i];
        world := Step(e, world, events[i]);
        i := i + 1;
      }
      assert events[..i] == events;
      RunOnlyAppends(e, start, events);
      BatchesStay(e, first, start, world);
    }

    /** `propose_on`: the generation is read first, then all the planner reads. */
    method Propose(c: Command, others: seq<Event>) returns (p: Plan)
      requires Valid()
      modifies this`world
      ensures Valid() && old(world.log) <= world.log
      ensures (c, p) in world.kept && p.observed == Some(old(|world.log|))
      ensures world.batches == old(world.batches) || |world.log| > old(|world.log|)
      ensures |world.log| == old(|world.log|) ==>
        world.state == old(world.state) && p == Observed(e.plan(world.state, c), |world.log|)
      ensures others == [] ==> |world.log| == old(|world.log|)
    {
      hide After, Rests, Stale, Serial, Recorded, Run;
      var generation := |world.log|;
      Meanwhile(others);
      p := Observed(e.plan(world.state, c), generation);
      world := world.(kept := world.kept + {(c, p)});
    }

    /** `execute`: a redelivered batch is replayed, or refused if it is another command's; a proposal whose
        ground has moved is stale; and what is prepared commits only on the generation read first. */
    method Execute(c: Command, p: Plan, others: Others) returns (out: Outcome)
      requires Valid() && ((c, p) in world.kept || p == Nothing())
      modifies this`world
      ensures Valid() && old(world.log) <= world.log
      ensures |world.log| == old(|world.log|) ==> world.state == old(world.state) && world.batches == old(world.batches)
      ensures out.Applied? ==> c.key !in old(world.batches) && |world.log| == old(|world.log|) + 1
      ensures out.Applied? ==>
        var entry := world.log[|world.log| - 1];
        entry.command == c && entry.plan == p && Rests(e, old(world.state), old(|world.log|), entry)
        && world.state == After(old(world.state), entry) && entry.effects.decisions <= world.state.decisions
      ensures out.Replay? ==> c.key in world.batches && world.batches[c.key] == c.hash
      ensures out.Conflict? ==> if c.key in world.batches then world.batches[c.key] != c.hash else !Free(world.state, c, p)
      ensures
        c.key !in old(world.batches) && (p.observed.Some? ==> p.observed.value == old(|world.log|))
        && |world.log| == old(|world.log|) + (if out.Applied? then 1 else 0)
        ==> out == Undisturbed(old(world.state), c, p)
      ensures c.key in old(world.batches) ==> out == if old(world.batches)[c.key] == c.hash then Replay else Conflict
      ensures others.opening == others.committing == [] ==> |world.log| == old(|world.log|) + (if out.Applied? then 1 else 0)
    {
      hide Inv, After, Recorded, Rests, Stale, Serial, Run, Prepared, KeptRight, StandsRight, Replayed, Unallocated, Later;
      var generation := |world.log|;
      Meanwhile(others.opening);
      if c.key in world.batches {
        return if world.batches[c.key] == c.hash then Replay else Conflict;
      }
      if p.observed.Some? && p.observed.value != generation {
        return StaleAssessment;
      }
      var stale := ProposalIsStale(world.state, p, c.released);
      if stale {
        return StaleAssessment;
      }
      if !Unallocated(world.state, Identities(c, p)) || !Later(world.state, Identities(c, p)) {
        assert !Free(world.state, c, p);
        return Conflict;
      }
      var entry := Entry(c, p, e.prepare(world.state, c, p));
      ghost var read := world;
      Meanwhile(others.committing);
      if |world.log| != generation {
        return StaleAssessment;
      }
      PassesAll(e, read, c, p);
      CommitStores(world.state, entry);
      PreparedRests(e, first, read, c, p);
      AppendKeeps(e, first, world, entry);
      world := Appended(world, entry);
      return Applied;
    }

    /** One attempt: propose, then execute. When no other worker commits during it, it is stale exactly when the
        plan is stale on the very state it was read from, and else applied where its identities are free. */
    method Attempt(c: Command, others: Others) returns (out: Outcome)
      requires Valid()
      modifies this`world
      ensures Valid() && old(world.log) <= world.log
      ensures out.Applied? ==> |world.log| > old(|world.log|) && world.log[|world.log| - 1].command == c
      ensures out.Replay? ==> c.key in world.batches && world.batches[c.key] == c.hash
      ensures |world.log| == old(|world.log|) ==> world.state == old(world.state) && world.batches == old(world.batches)
      ensures
        c.key !in old(world.batches) && |world.log| == old(|world.log|) + (if out.Applied? then 1 else 0)
        ==> out == Undisturbed(old(world.state), c, e.plan(old(world.state), c))
      ensures c.key in old(world.batches) && |world.log| == old(|world.log|) ==> !out.StaleAssessment?
      ensures others == Nobody() ==> |world.log| == old(|world.log|) + (if out.Applied? then 1 else 0)
    {
      hide Inv, Stale, Run;
      var p := Propose(c, others.planning);
      out := Execute(c, p, others);
      SameGround(old(world.state), e.plan(old(world.state), c), old(|world.log|), c.released);
      SameFree(old(world.state), c, e.plan(old(world.state), c), old(|world.log|));
    }

    /** `apply`: a batch is proposed and executed at most three times. It ends stale only when other workers
        committed at least three batches meanwhile, or the plan was stale on a state it was read from; and when
        no other worker commits, exactly when it is stale on the state it starts from. */
    method Apply(c: Command, others: seq<Others>) returns (out: Outcome)
      requires Valid() && |others| == 3
      modifies this`world
      ensures Valid() && old(world.log) <= world.log
      ensures c.key in old(world.batches) ==> out == if old(world.batches)[c.key] == c.hash then Replay else Conflict
      ensures out.Applied? || out.Replay? ==> c.key in world.batches && world.batches[c.key] == c.hash
      ensures out.StaleAssessment? ==>
        |world.log| >= old(|world.log|) + 3
        || exists i :: old(|world.log|) <= i <= |world.log| && StaleWhereRead(e, first, world.log, i, c)
      ensures
        c.key !in old(world.batches) && |world.log| == old(|world.log|) + (if out.Applied? then 1 else 0)
        ==> out == Undisturbed(old(world.state), c, e.plan(old(world.state), c))
      ensures others == [Nobody(), Nobody(), Nobody()] ==>
        |world.log| == old(|world.log|) + (if out.Applied? then 1 else 0)
    {
      hide Stale, Run, Serial, KeptRight, StandsRight, Replayed, StaleWhereRead;
      if c.key in world.batches {
        out := Execute(c, Nothing(), others[0]);
        return;
      }
      var attempt := 0;
      out := StaleAssessment;
      while attempt < 3 && out.StaleAssessment?
        invariant 0 <= attempt <= 3 && Valid() && old(world.log) <= world.log
        invariant out.Applied? || out.Replay? ==> c.key in world.batches && world.batches[c.key] == c.hash
        invariant out.Applied? ==> |world.log| > old(|world.log|)
        invariant out.StaleAssessment? ==> attempt == 0 || StaleSince(old(|world.log|), c) || |world.log| >= old(|world.log|) + attempt
        invariant attempt == 0 ==> world == old(world) && out.StaleAssessment?
        invariant |world.log| == old(|world.log|) ==> world.state == old(world.state) && world.batches == old(world.batches)
        invariant
          attempt > 0 && |world.log| == old(|world.log|) + (if out.Applied? then 1 else 0)
          ==> out == Undisturbed(old(world.state), c, e.plan(old(world.state), c))
        invariant others == [Nobody(), Nobody(), Nobody()] ==>
          |world.log| == old(|world.log|) + (if out.Applied? then 1 else 0)
      {
        ghost var before := world;
        out := Attempt(c, others[attempt]);
        StaleOrMoved(old(|world.log|), c, before, out);
        attempt := attempt + 1;
      }
    }

    /** The plan was stale on some state since a generation. */
    ghost predicate StaleSince(start: nat, c: Command)
      reads this
    {
      exists i :: start <= i <= |world.log| && StaleWhereRead(e, first, world.log, i, c)
    }

    lemma StaleOrMoved(start: nat, c: Command, before: World, out: Outcome)
      requires Inv(e, first, before) && Valid() && start <= |before.log| && before.log <= world.log
      ensures
        (exists i :: start <= i <= |before.log| && StaleWhereRead(e, first, before.log, i, c)) ==> StaleSince(start, c)
      ensures
        world.log == before.log && Stale(before.state, e.plan(before.state, c), c.released) ==> StaleSince(start, c)
    {
      hide Stale, Serial, Recorded, KeptRight, StandsRight, Replayed;
      if i :| start <= i <= |before.log| && StaleWhereRead(e, first, before.log, i, c) {
        assert before.log[..i] == world.log[..i];
        assert StaleWhereRead(e, first, world.log, i, c);
      }
      if world.log == before.log && Stale(before.state, e.plan(before.state, c), c.released) {
        assert world.log[..|before.log|] == before.log;
        assert StaleWhereRead(e, first, world.log, |before.log|, c);
      }
    }
  }

  lemma SameGround(s: State, p: Plan, generation: nat, released: set<Id>)
    ensures Stale(s, Observed(p, generation), released) == Stale(s, p, released)
  {
  }

  /** A batch key takes effect at most once, in every run. */
  lemma KeyTakesEffectOnce(e: Engine, first: State, events: seq<Event>, i: nat, j: nat)
    requires
      var log := Run(e, Empty(first), events).log;
      i < |log| && j < |log| && log[i].command.key == log[j].command.key
    ensures i == j
  {
    RunIsSerial(e, first, events);
  }

  /** A batch whose proposal names the generation it was read at commits on exactly that state: everything
      read between proposing and committing, by however many reads, was of the state it changes. */
  lemma CommitsOnWhatItRead(e: Engine, first: State, events: seq<Event>, i: nat)
    requires i < |Run(e, Empty(first), events).log|
    ensures
      var log := Run(e, Empty(first), events).log;
      var s, entry := Replayed(first, log[..i]), log[i];
      && !Stale(s, entry.plan, entry.command.released)
      && entry.effects == e.prepare(s, entry.command, entry.plan)
      && (entry.plan.observed.Some? ==> entry.plan == Observed(e.plan(s, entry.command), i))
      && Replayed(first, log[..i + 1]) == After(s, entry)
  {
    hide Stale, After, Run, Rests, Serial, Replayed;
    RunIsSerial(e, first, events);
    EntryRests(e, first, Run(e, Empty(first), events).log, i);
  }

  lemma EntryRests(e: Engine, first: State, log: seq<Entry>, i: nat)
    requires Serial(e, first, log) && i < |log|
    ensures
      var s, entry := Replayed(first, log[..i]), log[i];
      && !Stale(s, entry.plan, entry.command.released)
      && entry.effects == e.prepare(s, entry.command, entry.plan)
      && (entry.plan.observed.Some? ==> entry.plan == Observed(e.plan(s, entry.command), i))
      && Replayed(first, log[..i + 1]) == After(s, entry)
  {
    hide Stale, After;
    assert RestsAt(e, first, log, i);
    assert log[..i + 1][..i] == log[..i];
  }

  // --- Plans that are stale where they are read -----------------------------------------------------------

  /** Joins of values to masters that hold them are confirmed exactly when each value has one holder. */
  lemma JoinsStandIff(s: State, p: Plan, released: set<Id>)
    requires forall i :: 0 <= i < |p.joins| ==> p.joins[i].master in Holders(s, released, p.joins[i].value)
    ensures (forall i :: 0 <= i < |p.joins| ==> Holders(s, released, p.joins[i].value) == {p.joins[i].master}) <==>
      (forall i :: 0 <= i < |p.joins| ==> |Holders(s, released, p.joins[i].value)| == 1)
  {
    hide Holders;
    forall i | 0 <= i < |p.joins|
      ensures Holders(s, released, p.joins[i].value) == {p.joins[i].master} <==> |Holders(s, released, p.joins[i].value)| == 1
    {
      OnlyMember(Holders(s, released, p.joins[i].value), p.joins[i].master);
    }
  }

  lemma OnlyMember(held: set<Id>, m: Id)
    requires m in held
    ensures held == {m} <==> |held| == 1
  {
    assert |held - {m}| == |held| - 1;
    if |held| == 1 {
      assert held - {m} == {};
    }
  }

  /** No batch that joins one value to two masters ever commits: its plan is stale on every state. */
  lemma TwoJoinsNeverCommit(e: Engine, first: State, events: seq<Event>, c: Command, p: Plan, i: nat, j: nat)
    requires i < |p.joins| && j < |p.joins| && p.joins[i].value == p.joins[j].value && p.joins[i].master != p.joins[j].master
    ensures forall s, released :: Stale(s, p, released)
    ensures forall k :: 0 <= k < |Run(e, Empty(first), events).log| ==> Run(e, Empty(first), events).log[k].plan != p
  {
    forall s, released ensures Stale(s, p, released) {
      if Holders(s, released, p.joins[i].value) == {p.joins[i].master} {
        assert p.joins[i].master !in {p.joins[j].master};
        assert Holders(s, released, p.joins[j].value) != {p.joins[j].master};
      }
    }
    hide Stale, Run, After, Replayed;
    forall k | 0 <= k < |Run(e, Empty(first), events).log| ensures Run(e, Empty(first), events).log[k].plan != p {
      CommitsOnWhatItRead(e, first, events, k);
    }
  }

  /** One listing identifier held by two Securities, whose rule merges what it reaches: the plan joins the value
      to each of them, and is stale on the state it was read from, where with no join it would not be. */
  lemma MergingValueIsStale()
    ensures
      var s := Held(map["r1" := Row("a", {"figi 1"}), "r2" := Row("b", {"figi 1"})]);
      var p := Claims([], [Claim("a", "figi 1"), Claim("b", "figi 1")], {"a", "b"});
      && Holders(s, {}, "figi 1") == {"a", "b"} && Stale(s, p, {}) && !Stale(s, p.(joins := []), {})
  {
    var s := Held(map["r1" := Row("a", {"figi 1"}), "r2" := Row("b", {"figi 1"})]);
    var p := Claims([], [Claim("a", "figi 1"), Claim("b", "figi 1")], {"a", "b"});
    assert s.rows["r1"].master == "a" && s.rows["r2"].master == "b";
    assert p.joins[0] == Claim("a", "figi 1");
    assert "b" in Holders(s, {}, "figi 1");
    assert Closures.RestsOn(s.decisions, p.merged) == {};
  }
}
