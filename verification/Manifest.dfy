/** Executing a manifest over any number of bounded, staged, failing or resumed calls. */
module Manifest {
  import opened Prelude

  type Id = string

  // A manifest batch: its id, its stage, and the record count it costs (at least one).
  datatype Batch = Batch(id: Id, stage: string, size: nat)

  const BATCH_RECORDS: nat := 1000

  // How a call ends.
  datatype Outcome =
    | Ended(handled: nat)
    | BadLimit
    | PrecedingIncomplete
    | LimitTooSmall(needed: nat)
    | ApplyRefused
    | NoProgress

  // What one batch of the loop comes to.
  datatype Step = Passed | Done(spent: nat) | OverLimit | Stopped(outcome: Outcome)

  // One call of `execute_manifest`, with what the Merge Stage refuses and other runs commit during it.
  datatype Call = Call(stage: Option<string>, limit: Option<nat>, refused: set<Id>, others: nat -> seq<Id>) {
    predicate Whole() {
      stage.None? && limit.None? && refused == {}
    }
  }

  function Ids(batches: seq<Batch>): (ids: seq<Id>)
    ensures |ids| == |batches| && forall i :: 0 <= i < |batches| ==> ids[i] == batches[i].id
  {
    seq(|batches|, i requires 0 <= i < |batches| => batches[i].id)
  }

  function IdSet(batches: seq<Batch>): set<Id> {
    set b | b in batches :: b.id
  }

  predicate Unique(batches: seq<Batch>) {
    forall i, j :: 0 <= i < j < |batches| ==> batches[i].id != batches[j].id
  }

  /** A batch no store holds yet costs at least one record; one already held is only replayed. */
  function Cost(b: Batch, retained: set<Id>): nat {
    if b.id in retained then 0 else if b.size < 1 then 1 else b.size
  }

  lemma UniqueIds(batches: seq<Batch>, i: nat)
    requires Unique(batches) && i < |batches|
    ensures batches[i].id !in IdSet(batches[..i])
    ensures IdSet(batches[..i]) + {batches[i].id} == IdSet(batches[..i + 1])
  {
    assert batches[..i + 1] == batches[..i] + [batches[i]];
    forall b | b in batches[..i] ensures b.id != batches[i].id {
      var j :| 0 <= j < i && batches[..i][j] == b;
      assert batches[j] == b;
    }
  }

  lemma IdSetGrows(batches: seq<Batch>, i: nat, j: nat)
    requires i <= j <= |batches|
    ensures IdSet(batches[..i]) <= IdSet(batches[..j])
  {
    forall b | b in batches[..i] ensures b in batches[..j] {
      var k :| 0 <= k < i && batches[..i][k] == b;
      assert batches[..j][k] == b;
    }
  }

  /** What the batches from one place to another cost. */
  function Spent(batches: seq<Batch>, first: nat, end: nat, retained: set<Id>): nat
    requires first <= end <= |batches|
    decreases end
  {
    if first == end then 0 else Spent(batches, first, end - 1, retained) + Cost(batches[end - 1], retained)
  }

  lemma SpentNothing(batches: seq<Batch>, n: nat, retained: set<Id>)
    requires n <= |batches|
    ensures Spent(batches, n, n, retained) == 0
  {
  }

  lemma SpentMore(batches: seq<Batch>, first: nat, i: nat, retained: set<Id>)
    requires first <= i < |batches|
    ensures Spent(batches, first, i + 1, retained) == Spent(batches, first, i, retained) + Cost(batches[i], retained)
  {
  }

  /** What a call has handled, when no other run commits beside it: the cost of what it committed, and no other key is new. */
  ghost predicate Accounted(batches: seq<Batch>, keys: set<Id>, retained: set<Id>, i: nat, handled: nat, first: nat, end: nat) {
    && i <= |batches| && first <= end <= |batches|
    && keys <= retained + IdSet(batches[..i]) && handled == Spent(batches, first, end, retained)
  }

  lemma AccountNothing(batches: seq<Batch>, keys: set<Id>, n: nat)
    requires n <= |batches|
    ensures Accounted(batches, keys, keys, 0, 0, n, n)
  {
  }

  lemma AccountDone(batches: seq<Batch>, held: set<Id>, keys: set<Id>, retained: set<Id>, i: nat, handled: nat, spent: nat, first: nat)
    requires Unique(batches) && i < |batches| && retained <= held && keys <= held + {batches[i].id}
    requires Accounted(batches, held, retained, i, handled, first, i)
    requires spent == if batches[i].id in held then 0 else Cost(batches[i], retained)
    ensures Accounted(batches, keys, retained, i + 1, handled + spent, first, i + 1)
  {
    UniqueIds(batches, i);
    SpentMore(batches, first, i, retained);
    CostHeld(batches[i], retained);
    hide IdSet, Spent, Cost, Unique;
  }

  lemma AccountPassed(batches: seq<Batch>, held: set<Id>, keys: set<Id>, retained: set<Id>, i: nat, handled: nat, first: nat, end: nat)
    requires Unique(batches) && i < |batches| && keys <= held + {batches[i].id}
    requires Accounted(batches, held, retained, i, handled, first, end)
    ensures Accounted(batches, keys, retained, i + 1, handled, first, end)
  {
    UniqueIds(batches, i);
    hide IdSet, Spent, Unique;
  }

  lemma CostHeld(b: Batch, retained: set<Id>)
    ensures b.id in retained ==> Cost(b, retained) == 0
    ensures b.id !in retained ==> Cost(b, retained) == if b.size < 1 then 1 else b.size
  {
  }

  /** One run of a manifest, with the batch keys of the whole store. */
  class Run {
    const manifest: seq<Batch>
    // What the store has observed of this run, and every key it holds, from any run.
    var observed: set<Id>
    var keys: set<Id>
    // The batches that have taken effect in the store, and this run's batches, each as it was observed.
    var effects: seq<Id>
    var committed: seq<Id>

    /** What this run has observed is a prefix of the manifest, in its order, and no key has taken effect twice. */
    ghost predicate Valid()
      reads this
    {
      && Unique(manifest) && |committed| <= |manifest|
      && committed == Ids(manifest[..|committed|])
      && observed == IdSet(manifest[..|committed|]) && observed <= keys
      && (forall i, j :: 0 <= i < j < |effects| ==> effects[i] != effects[j])
      && (forall i :: 0 <= i < |effects| ==> effects[i] in keys)
      && (forall k :: k in keys ==> k in effects)
    }

    constructor (manifest: seq<Batch>)
      requires Unique(manifest)
      ensures Valid() && committed == [] && this.manifest == manifest
    {
      this.manifest := manifest;
      observed, keys, effects, committed := {}, {}, [], [];
    }

    /** Another run's batch takes effect. */
    method OtherRun(id: Id)
      requires Valid()
      modifies this`keys, this`effects
      ensures Valid() && keys == old(keys) + {id} && old(effects) <= effects
    {
      if id !in keys {
        keys, effects := keys + {id}, effects + [id];
      }
    }

    /** One batch through the Merge Stage: applied, or replayed when its key is held; observed either way. */
    method Commit(i: nat) returns (duplicate: bool)
      requires Valid() && i == |committed| < |manifest|
      modifies this`observed, this`keys, this`effects, this`committed
      ensures Valid() && committed == old(committed) + [manifest[i].id]
      ensures observed == old(observed) + {manifest[i].id} && keys == old(keys) + {manifest[i].id} && old(effects) <= effects
      ensures duplicate <==> manifest[i].id in old(keys)
      ensures effects == if duplicate then old(effects) else old(effects) + [manifest[i].id]
    {
      var id := manifest[i].id;
      UniqueIds(manifest, i);
      duplicate := id in keys;
      if !duplicate {
        keys, effects := keys + {id}, effects + [id];
      }
      observed, committed := observed + {id}, committed + [id];
      assert manifest[..i + 1] == manifest[..i] + [manifest[i]];
    }

    predicate Selected(i: nat, stage: Option<string>)
      requires i < |manifest|
    {
      stage.None? || manifest[i].stage == stage.value
    }

    /** One batch of the loop: passed over when it is observed already or not of the stage; refused when a batch
        before it is missing, when the limit does not reach, or by the Merge Stage; else committed. */
    method TryBatch(i: nat, prerequisites: set<Id>, stage: Option<string>, limit: Option<nat>, refused: set<Id>, others: seq<Id>,
                    retained: set<Id>, handled: nat, ghost first: nat)
      returns (step: Step)
      requires retained <= keys
      requires Valid() && i < |manifest| && prerequisites == IdSet(manifest[..i])
      requires limit.Some? ==> handled <= limit.value
      modifies this`observed, this`keys, this`effects, this`committed
      ensures Valid() && old(effects) <= effects
      ensures |committed| == |old(committed)| + if step.Done? then 1 else 0
      ensures step.Passed? <==> i < |old(committed)| || !Selected(i, stage)
      ensures step.Done? ==> i == |old(committed)| && manifest[i].id !in refused
      ensures step.Done? && limit.Some? ==> handled + step.spent <= limit.value
      ensures retained <= keys
      ensures others == [] && Accounted(manifest, old(keys), retained, i, handled, first, |old(committed)|) ==>
        match step
        case Passed => Accounted(manifest, keys, retained, i + 1, handled, first, |committed|)
        case Done(spent) => Accounted(manifest, keys, retained, i + 1, handled + spent, first, |committed|)
        case OverLimit => Accounted(manifest, keys, retained, i, handled, first, |committed|)
        case Stopped(_) => true
      ensures step.OverLimit? ==> i == |committed| && limit.Some? && handled > 0 && Selected(i, stage)
                                  && handled + Cost(manifest[i], retained) > limit.value
      ensures step.Stopped? ==>
        match step.outcome
        case PrecedingIncomplete => |committed| < i
        case LimitTooSmall(needed) => i == |committed| && handled == 0 && limit.Some? && needed == Cost(manifest[i], retained) > limit.value
        case ApplyRefused => i == |committed| && manifest[i].id in refused
        case _ => false
    {
      hide Valid, Unique, IdSet, Cost, Accounted;
      Bounds();
      var batch := manifest[i];
      InPrefix(i);
      ghost var counted := others == [] && Accounted(manifest, keys, retained, i, handled, first, |committed|);
      if batch.id in observed || !Selected(i, stage) {
        if counted {
          AccountPassed(manifest, keys, keys, retained, i, handled, first, |committed|);
        }
        return Passed;
      }
      PrefixIncluded(i);
      if !(prerequisites <= observed) {
        return Stopped(PrecedingIncomplete);
      }
      var cost := Cost(batch, retained);
      if limit.Some? && handled + cost > limit.value {
        return if handled == 0 then Stopped(LimitTooSmall(cost)) else OverLimit;
      }
      Others(others);
      if batch.id in refused {
        return Stopped(ApplyRefused);
      }
      ghost var held := keys;
      var duplicate := Commit(i);
      var spent := if duplicate then 0 else cost;
      if counted {
        AccountDone(manifest, held, keys, retained, i, handled, spent, first);
      }
      return Done(spent);
    }

    /** Where the loop stands before batch `i`: what is committed since the call began was selected and not refused,
        what is still missing before `i` was not of the stage, and what is handled is within the limit. */
    ghost predicate Going(first: nat, i: nat, stage: Option<string>, limit: Option<nat>, refused: set<Id>, retained: set<Id>,
                          handled: nat, quiet: bool)
      reads this
    {
      && Valid() && i <= |manifest| && first <= |committed| && retained <= keys
      && (|committed| == first || |committed| <= i)
      && (|committed| < i ==> !Selected(|committed|, stage))
      && (limit.Some? ==> handled <= limit.value)
      && (|committed| == first ==> handled == 0)
      && (quiet ==> Accounted(manifest, keys, retained, i, handled, first, |committed|))
      && (forall k :: first <= k < |committed| ==> manifest[k].id !in refused && Selected(k, stage))
    }

    /** Why the loop does not go on past batch `i`. */
    ghost predicate Halts(step: Step, i: nat, stage: Option<string>, limit: Option<nat>, refused: set<Id>, retained: set<Id>, handled: nat)
      reads this
      requires i < |manifest| && |committed| <= |manifest|
    {
      match step
      case OverLimit => i == |committed| && limit.Some? && handled > 0 && Selected(i, stage)
                        && handled + Cost(manifest[i], retained) > limit.value
      case Stopped(PrecedingIncomplete) => |committed| < i
      case Stopped(LimitTooSmall(needed)) =>
        i == |committed| && handled == 0 && limit.Some? && needed == Cost(manifest[i], retained) > limit.value
      case Stopped(ApplyRefused) => i == |committed| && manifest[i].id in refused
      case _ => false
    }

    /** One batch of the loop, from where the loop stands to where it stands next. */
    method Advance(i: nat, prerequisites: set<Id>, stage: Option<string>, limit: Option<nat>, refused: set<Id>, others: seq<Id>,
                   retained: set<Id>, handled: nat, ghost first: nat, ghost quiet: bool)
      returns (step: Step, included: set<Id>)
      requires i < |manifest| && Going(first, i, stage, limit, refused, retained, handled, quiet)
      requires prerequisites == IdSet(manifest[..i]) && (quiet ==> others == [])
      modifies this`observed, this`keys, this`effects, this`committed
      ensures Valid() && |old(committed)| <= |committed| <= |manifest| && old(effects) <= effects
      ensures included == IdSet(manifest[..i + 1])
      ensures step.Stopped? || step.OverLimit? ==>
        Halts(step, i, stage, limit, refused, retained, handled) && Going(first, i, stage, limit, refused, retained, handled, quiet && step.OverLimit?)
      ensures step.Passed? ==> Going(first, i + 1, stage, limit, refused, retained, handled, quiet)
      ensures step.Done? ==> Going(first, i + 1, stage, limit, refused, retained, handled + step.spent, quiet)
    {
      hide Unique, IdSet, Cost, Spent, Accounted, Valid;
      Bounds();
      step := TryBatch(i, prerequisites, stage, limit, refused, others, retained, handled, first);
      Bounds();
      NextIds(i);
      included := prerequisites + {manifest[i].id};
    }

    /** The loop over the manifest, from its first batch: what it has committed when it stops, at batch `i`, or ends. */
    method Sweep(stage: Option<string>, limit: Option<nat>, refused: set<Id>, others: nat -> seq<Id>)
      returns (step: Step, handled: nat, i: nat)
      requires Valid()
      modifies this`observed, this`keys, this`effects, this`committed
      ensures Valid() && |old(committed)| <= |committed| <= |manifest| && i <= |manifest| && old(effects) <= effects
      ensures step.Passed? ==> i == |manifest|
      ensures !step.Passed? ==> i < |manifest| && Halts(step, i, stage, limit, refused, old(keys), handled)
      ensures Going(|old(committed)|, i, stage, limit, refused, old(keys), handled, !step.Stopped? && forall n: nat :: others(n) == [])
    {
      Bounds();
      AccountNothing(manifest, keys, |committed|);
      var retained, prerequisites := keys, {};
      ghost var quiet, first := forall n: nat :: others(n) == [], |committed|;
      handled, i, step := 0, 0, Passed;
      assert Going(first, i, stage, limit, refused, retained, handled, quiet);
      hide *;
      while i < |manifest|
        invariant 0 <= i <= |manifest| && Valid() && first <= |committed| <= |manifest|
        invariant old(effects) <= effects
        invariant prerequisites == IdSet(manifest[..i])
        invariant Going(first, i, stage, limit, refused, retained, handled, quiet)
      {
        step, prerequisites := Advance(i, prerequisites, stage, limit, refused, others(i), retained, handled, first, quiet);
        if step.Stopped? || step.OverLimit? {
          return;
        }
        handled, i := handled + if step.Done? then step.spent else 0, i + 1;
      }
      step := Passed;
    }

    /** What a loop that has stopped or ended tells of where it stands. */
    lemma Stands(first: nat, i: nat, stage: Option<string>, limit: Option<nat>, refused: set<Id>, retained: set<Id>, handled: nat, quiet: bool)
      requires Going(first, i, stage, limit, refused, retained, handled, quiet) && |committed| <= |manifest|
      ensures limit.Some? ==> handled <= limit.value
      ensures |committed| == first ==> handled == 0
      ensures |committed| < i ==> !Selected(|committed|, stage)
      ensures quiet ==> first <= |committed| && handled == Spent(manifest, first, |committed|, retained)
      ensures forall k :: first <= k < |committed| ==> manifest[k].id !in refused && Selected(k, stage)
    {
      hide Valid, Unique, IdSet, Cost, Selected, Spent;
    }

    method Loop(stage: Option<string>, limit: Option<nat>, refused: set<Id>, others: nat -> seq<Id>) returns (out: Outcome)
      requires Valid()
      modifies this`observed, this`keys, this`effects, this`committed
      ensures Valid() && |old(committed)| <= |committed| <= |manifest| && old(effects) <= effects
      ensures !out.BadLimit? && (out.NoProgress? <==> limit.None? && !out.PrecedingIncomplete? && !out.ApplyRefused? && |committed| < |manifest|)
      ensures out.Ended? && limit.Some? ==> out.handled <= limit.value
      ensures out.Ended? && limit.None? ==> |committed| == |manifest|
      ensures out.Ended? || out.NoProgress? ==> |committed| < |manifest| ==> limit.Some? || !Selected(|committed|, stage)
      ensures out.PrecedingIncomplete? ==> |committed| < |manifest| && !Selected(|committed|, stage)
      ensures out.ApplyRefused? ==> |committed| < |manifest| && manifest[|committed|].id in refused
      ensures out.LimitTooSmall? ==> limit.Some? && |committed| < |manifest| && limit.value < out.needed
      ensures forall i :: |old(committed)| <= i < |committed| ==> manifest[i].id !in refused && Selected(i, stage)
      ensures |committed| == |old(committed)| < |manifest| ==>
        || manifest[|committed|].id in refused || !Selected(|committed|, stage)
        || (limit.Some? && limit.value < Cost(manifest[|committed|], old(keys)))
      ensures out.Ended? && |committed| < |manifest| && Selected(|committed|, stage) ==>
        limit.Some? && out.handled + Cost(manifest[|committed|], old(keys)) > limit.value
      ensures out.Ended? && (forall n: nat :: others(n) == []) ==>
        out.handled == Spent(manifest, |old(committed)|, |committed|, old(keys))
    {
      hide Valid, Unique, IdSet, Cost, Selected, Spent;
      ghost var held, first := keys, |committed|;
      var step, handled, i := Sweep(stage, limit, refused, others);
      ghost var quiet := !step.Stopped? && forall n: nat :: others(n) == [];
      Stands(first, i, stage, limit, refused, held, handled, quiet);
      hide Going;
      if step.Stopped? {
        return step.outcome;
      }
      if limit.None? && |committed| < |manifest| {
        return NoProgress;
      }
      return Ended(handled);
    }

    /** `execute_manifest`. `refused` are the batches the Merge Stage refuses in this call, `others` what other
        runs commit before each batch. Whatever ends the call, what is committed stays a prefix of the manifest;
        a bounded call handles no more than its limit; a call with neither stage nor limit nor refusal finishes. */
    method Execute(stage: Option<string>, limit: Option<nat>, refused: set<Id>, others: nat -> seq<Id>) returns (out: Outcome)
      requires Valid()
      modifies this`observed, this`keys, this`effects, this`committed
      ensures Valid() && old(committed) <= committed && old(effects) <= effects && |committed| <= |manifest|
      ensures out == BadLimit <==> limit.Some? && !(1 <= limit.value <= BATCH_RECORDS)
      ensures out == BadLimit ==> committed == old(committed)
      ensures out.Ended? && limit.Some? ==> out.handled <= limit.value
      ensures out.Ended? && |committed| < |manifest| && (stage.Some? ==> manifest[|committed|].stage == stage.value) ==>
        limit.Some? && out.handled + Cost(manifest[|committed|], old(keys)) > limit.value
      ensures out.Ended? && (forall n: nat :: others(n) == []) ==>
        out.handled == Spent(manifest, |old(committed)|, |committed|, old(keys))
      ensures limit.None? && out.Ended? ==> |committed| == |manifest|
      ensures stage.None? && limit.None? && refused == {} ==> out.Ended?
      ensures forall i :: |old(committed)| <= i < |committed| ==>
                manifest[i].id !in refused && (stage.Some? ==> manifest[i].stage == stage.value)
      ensures out.ApplyRefused? ==> |committed| < |manifest| && manifest[|committed|].id in refused
      ensures out.PrecedingIncomplete? ==>
                |committed| < |manifest| && stage.Some? && manifest[|committed|].stage != stage.value
      ensures out.LimitTooSmall? ==> limit.Some? && |committed| < |manifest| && limit.value < out.needed
      ensures |old(committed)| < |manifest| && committed == old(committed) ==>
        || out.BadLimit? || manifest[|committed|].id in refused || (stage.Some? && manifest[|committed|].stage != stage.value)
        || (limit.Some? && limit.value < Cost(manifest[|committed|], old(keys)))
    {
      Bounds();
      hide Valid, Unique, IdSet, Cost;
      if limit.Some? && !(1 <= limit.value <= BATCH_RECORDS) {
        return BadLimit;
      }
      Committed();
      ghost var was := committed;
      out := Loop(stage, limit, refused, others);
      Committed();
      IdsGrow(|was|, |committed|);
    }

    lemma Committed()
      requires Valid()
      ensures |committed| <= |manifest| && committed == Ids(manifest[..|committed|])
    {
    }

    lemma IdsGrow(a: nat, b: nat)
      requires a <= b <= |manifest|
      ensures Ids(manifest[..a]) <= Ids(manifest[..b])
    {
    }

    lemma NextIds(i: nat)
      requires Valid() && i < |manifest|
      ensures IdSet(manifest[..i]) + {manifest[i].id} == IdSet(manifest[..i + 1])
    {
      UniqueIds(manifest, i);
    }

    /** Any sequence of calls commits, in manifest order, each batch once; one more call without stage, limit or
        refusal brings it to what a single such call commits from the start: the whole manifest. */
    method Resume(calls: seq<Call>)
      requires Valid()
      modifies this`observed, this`keys, this`effects, this`committed
      ensures Valid() && old(committed) <= committed <= Ids(manifest) && old(effects) <= effects
      ensures calls != [] && calls[|calls| - 1].Whole() ==> committed == Ids(manifest)
    {
      hide Valid;
      for k := 0 to |calls|
        invariant Valid() && old(committed) <= committed && old(effects) <= effects
        invariant k > 0 && calls[k - 1].Whole() ==> |committed| == |manifest|
      {
        var _ := Execute(calls[k].stage, calls[k].limit, calls[k].refused, calls[k].others);
      }
      Prefixed();
    }

    lemma Prefixed()
      requires Valid()
      ensures committed <= Ids(manifest) && (|committed| == |manifest| ==> committed == Ids(manifest))
    {
      assert manifest[..|manifest|] == manifest;
    }

    method Others(ids: seq<Id>)
      requires Valid()
      modifies this`keys, this`effects
      ensures Valid() && old(keys) <= keys && old(effects) <= effects
      ensures ids == [] ==> keys == old(keys)
    {
      for i := 0 to |ids|
        invariant Valid() && old(keys) <= keys && old(effects) <= effects
        invariant i == 0 ==> keys == old(keys)
      {
        OtherRun(ids[i]);
      }
    }

    lemma Bounds()
      requires Valid()
      ensures Unique(manifest) && |committed| <= |manifest| && IdSet(manifest[..0]) == {}
    {
    }

    /** A manifest batch has been observed exactly when it stands in the prefix. */
    lemma InPrefix(i: nat)
      requires Valid() && i < |manifest|
      ensures manifest[i].id in observed <==> i < |committed|
    {
      if i < |committed| {
        assert manifest[..|committed|][i] == manifest[i];
      } else {
        UniqueIds(manifest, i);
        IdSetGrows(manifest, |committed|, i);
      }
    }

    /** Everything before a batch has been observed exactly when the prefix reaches it. */
    lemma PrefixIncluded(i: nat)
      requires Valid() && |committed| <= i < |manifest|
      ensures IdSet(manifest[..i]) <= observed <==> i == |committed|
    {
      if |committed| < i {
        InPrefix(|committed|);
        assert manifest[..i][|committed|] == manifest[|committed|];
        assert manifest[|committed|].id in IdSet(manifest[..i]);
      }
    }
  }
}
