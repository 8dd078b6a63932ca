# A verified model of the master-data platform's logic

Dafny modules that model the parts of the platform whose correctness cannot be read off one function: how files of
records become masters, how indexes keep up with them, how concurrent merges are admitted, how reference data is
frozen, and how derived figures are worked out. `dafny verify dfyconfig.toml` checks the whole project.

| file | what it models |
|---|---|
| `Consolidation.dfy` | what a list of merge decisions means: classes of masters and their survivors |
| `NameMatching.dfy` | joining waiting records to masters by name |
| `Mastering.dfy` | the mastering tables as a `Store`, the merge of one file, and any run of files |
| `Lookups.dfy` | the resumable build of the token lookups, beside writers, and what a lookup then answers |
| `KeyPages.dfy`, `MasterIndex.dfy` | the generation-gated index: batches, forced pages, the owner's rebuild, lookups |
| `Cascade.dfy` | the multi-pass one-to-one assignment of filers to entities |
| `CheckDigits.dfy` | the check-digit families, over values of any length |
| `Closures.dfy` | the component of a hierarchy, the decisions a merge rests on, the links a batch reads whole |
| `MergeCommit.dfy` | propose on a snapshot, commit by compare-and-set, retry, replay |
| `Lifecycle.dfy` | the row triggers that freeze approved reference data |
| `LineItems.dfy` | stages of line items, and the staged query against a line item's meaning |
| `Measures.dfy` | ratios, returns and growth under SQL's three-valued logic |
| `Manifest.dfy` | executing a manifest over bounded, staged, failing and resumed calls |
| `Batches.dfy` | cutting a stream greedily |
| `SnapshotPages.dfy` | pages read at a pinned generation |
| `Wilson.dfy` | the Wilson lower bound |

Where the source updates state, the model is a class whose methods are proved against a specification; where several
writers interleave, what the others commit between two of its statements is a parameter of the method. Ids are
numbers in the order of their text (in `MasterIndex.dfy` of their storage keys, their text having an order of its
own), or strings; digests are taken as injective.

## Where promise and code part, and exact conditions

- **`_ready` in the lookups.** Its refusal promises lookups that have reached the last load. It compares file numbers,
  and a page can end inside a file. `AnswersScanIff` gives the exact condition for any build: each master still unread
  at the checkpoint must have stored the tokens of its current body. `ReadyBeforeBuilt` fails it with a master not
  built at all, `ReadyWithOldRows` with one merged away since it was built, whose old rows still answer.
- **Two masters for one identifier.** The check before a commit is documented as keeping one identifier from being
  minted twice. It looks at a proposal's mints and joins, each against the store alone. A batch leaves a value with two
  masters in exactly four ways (`ContestedExactly`): a caller binds a record that carries what another master holds; a
  record comes to hold such a value without a claim, by a name rule's bind (`NameBindContests`), by being delivered
  again with a value stored for another master, or with a value none of its rules reads; one proposal mints a value for
  two masters, as `link_matching_records` does for two re-delivered records (`MintedTwiceInOneBatch`); or a merge that
  held the value's masters together is taken back (`UnmergeContests`). Taking back any other merge leaves it alone.
- **Retrying a stale batch.** A rule that merges the masters one value reaches is answered with a join of the value to
  each of them, while the check wants each joined value to have one holder. Such a plan is stale on the state it was
  read from and on every other (`TwoJoinsNeverCommit`, `MergingValueIsStale`), so `apply` ends stale after three
  attempts with no other worker at all. Joins are confirmed exactly when each value has one holder (`JoinsStandIff`).
- **Mixed currencies.** The queries refuse figures in two currencies, but operating income after tax divides income tax
  by pretax income without asking for theirs: `MixedIff` gives the exact condition, `TaxRateMixesCurrencies` a case.
- **A split parts a subject.** A record returns by the master it was itself first bound to, so a subject with records
  from before and after the merge is left on two masters (`SplitPartsSubject`). `SplitSoundIff` is exact.
- **MOD 97-10.** A letter in a digit's place lengthens the number and can go unseen: `Mod97DigitForLetter` gives the
  exact condition under which it does. The adjacent swaps it misses are exactly 1B, 2M and 3X. The hybrid systems miss
  exactly the pairs of neighbouring values, and only where what stands before leads them to the two middle states
  (`HybridTransposition`, `HybridMissedPairs`).
- **The name of MOD 11,10.** The source calls `mod11_10` a pure system; it is the hybrid one of ISO/IEC 7064, and so
  it is proved.
- **Succession of code set versions.** The guards ask that a publication supersede the version valid from the latest
  time, not the one published last, so a backdated version is passed over (`BackdatedIsPassedOver`). Succession is a
  tree that leads to the set's first version; a publication supersedes the one published last exactly when that one is
  not backdated, and the whole is a line exactly when none but the last published is (`SupersedesLastIff`,
  `InLineIff`, where no two start at one time). Of several versions valid from one time, which must be named is left
  to the database.
- **A cut's count bound of zero** in `slices` bounds nothing, and is modelled so.

## What the engine calls owe

The rules engine is not part of this model. Its calls are functions of what they read, and the results below rest on
these duties of theirs.

- The mastering planner names only masters that an identifier row or a record holds, or ids not stored yet
  (`Mastering.Legal`).
- Composing a touched master gives a current body, one that answers as the master itself, and the identifiers it then
  holds (`Mastering.Bodies`, `Mastering.ComposedIdentifiers`).
- A preparation unbinds or rebinds each released record (`MergeCommit.Orderly`, in `ContestedExactly` and what uses
  it). Nothing is asked of a proposal.

## Model

| member | source | states |
|---|---|---|
| Consolidation.SameSurvivorIffConnected | edgar_warehouse/mastering/merge.py:142-165 | After a file's merge decisions, two masters resolve to the same survivor exactly when a chain of decisions, read in either direction, joins them. |
| Consolidation.SurvivorIsEldest | edgar_warehouse/mastering/merge.py:154-162 | A class's survivor is the first of its members in the order stored before unstored, then oldest, then least id. |
| Consolidation.SurvivorIgnoresOrder | edgar_warehouse/mastering/merge.py:149-165 | Two lists that hold the same decisions, in any order, give every master the same survivor. |
| Consolidation.SurvivorOutside | edgar_warehouse/mastering/merge.py:144-153 | A master no decision names keeps itself. |
| Mastering.ReadMaster | edgar_warehouse/mastering/reads.py:21-32 | On tables whose aliases ascend, the alias walk ends at a current master and never reports masters that point at each other; it fails only for an id that is not stored. |
| Mastering.ResolveFollows | edgar_warehouse/mastering/reads.py:21-32 | An id answers, after any later change that keeps aliases, as whatever the master it used to answer as now answers as. |
| Mastering.Store.Oldest | edgar_warehouse/mastering/store.py:112-114 | Of two ids, those that are stored, the elder first. |
| Mastering.Store.Repoint | edgar_warehouse/mastering/store.py:116-120 | Every identifier row and record of the merged-away master is on the kept one, and no other row moves. |
| Mastering.Store.WriteMasters | edgar_warehouse/mastering/store.py:217-221 | Written row by row: a master whose body is unchanged keeps its row and file number, a changed or new one takes the file's, and its creation time is kept. |
| Mastering.Store.ApplyDecision | edgar_warehouse/mastering/merge.py:149-165 | One decision takes the tables from the survivors of the decisions before it to the survivors with it, whatever those were. |
| Mastering.Store.ApplyMerges | edgar_warehouse/mastering/merge.py:142-165 | The loop leaves rows and aliases exactly where the order-free survivors put them: `moved` names each master that gave way, `survivors` each class's representative, and as many decisions are stored as masters gave way. |
| Mastering.Store.Bound | edgar_warehouse/mastering/store.py:93-98 | The stored master of each subject, complete and none invented. |
| Mastering.Store.MatchBound | edgar_warehouse/mastering/merge.py:117-176 | Merges and bindings leave every row and every bound subject on a master no decision takes away, a later bind of a subject standing over an earlier one. |
| Mastering.Store.MatchNames | edgar_warehouse/mastering/merge.py:179-211 | The stages of the rules in order: each rule joins, of the records that wait when it starts, exactly those whose passing pairs reach one master it does not veto; no bound record moves, and the LEI rows added are those the joined records state. |
| Mastering.Store.MatchRecords | edgar_warehouse/mastering/merge.py:84-104 | What a file's records will be saved on: the plan's bindings, the name rules' joins and the exact name matches, each with nothing missed, all on masters that stand after the merges. |
| Mastering.Store.SaveRecords | edgar_warehouse/mastering/store.py:158-168 | A subject that is held has all its records on that master, first bindings are never overwritten, and other records are untouched. |
| Mastering.Store.MergeRecords | edgar_warehouse/mastering/merge.py:84-110 | A file's tables, and that every id already stored resolves to the survivor of the class of the master it resolved to before. |
| Mastering.Store.MergeFile | edgar_warehouse/mastering/merge.py:64-81 | A finished file is skipped and an empty one delivered again is rolled back, both leaving the tables alone; otherwise the tables are those the merge, the name rules and the exact names call for, and stay sound. |
| Mastering.FileJoinsByName | edgar_warehouse/mastering/merge.py:179-211 | A record that waits when a name rule starts, and whose passing pairs reach one master, is saved on that master, which takes the LEI it states; the one exception is a veto, for another LEI the master holds or an earlier record the rule joined states. |
| Mastering.FileHolds | edgar_warehouse/mastering/merge.py:84-104 | Each record of a file is saved on the master it alone shares its name with, else the one a name rule joins it to, else the one it had, and otherwise waiting. |
| Mastering.PairJoins | edgar_warehouse/mastering/merge.py:190-211 | A whole file with one passing pair: the waiting record is saved on the master of the pair's holder, and its LEI row is written. |
| Mastering.FileLeaves | edgar_warehouse/mastering/merge.py:84-110 | Each record row after a file: none is lost, stored ones follow their survivors unless the file holds them elsewhere, new ones stand on what they are held by, and first bindings are kept. |
| Mastering.FileWrites | edgar_warehouse/mastering/merge.py:84-110 | Each master and identifier row after a file: which masters are written, with what body, file number and creation time, which become aliases, and where every identifier row comes from. |
| Mastering.FinishedSound | edgar_warehouse/mastering/merge.py:84-176 | A merged file leaves no row or record on an alias, every alias on a stored older master, one master for each subject, no id lost, and every old id answering as its class's survivor. |
| Mastering.Replay | edgar_warehouse/mastering/merge.py:64-110 | Over any run of deliveries, first or repeated, each of which does what one delivery does to the tables before it: the tables stay sound, no id is lost, every id ever written resolves without a cycle, and the files done are those delivered. |
| Mastering.Store.Split | edgar_warehouse/mastering/store.py:131-135 | The kept master's records first bound to the other return to it, the kept master's identifier rows are deleted, and both masters' records are returned. |
| Mastering.SplitUndoesMerge | edgar_warehouse/mastering/store.py:116-135 | A split right after a merge puts every record back exactly when the returned master's records were all first bound to it and none of the kept master's were; it drops both masters' identifier rows and leaves the alias, so it undoes the whole merge only of a master not stored where neither held an identifier. |
| Mastering.SplitSoundIff | edgar_warehouse/mastering/store.py:131-135 | A split leaves the tables sound exactly when it returns nothing; once the returned master's own body is written again, exactly when each subject's records on the kept master all return or none does. |
| Mastering.SplitPartsSubject | edgar_warehouse/mastering/store.py:131-135 | A failing case: a subject with one record from before a merge and one from after it is left on two masters by the split. |
| Mastering.LastFile | edgar_warehouse/mastering/store.py:73-74 | The greatest file number of any master, so the next file's number is above every one before it. |
| NameMatching.GatherReach | edgar_warehouse/mastering/merge.py:190-200 | The masters each waiting candidate's passing pairs reach, with nothing added or missed. |
| NameMatching.SelectOne | edgar_warehouse/mastering/merge.py:201-210 | In order, each candidate joins exactly when it reaches one master and, where the rule vetoes, that master holds no other LEI, before the rule or through an earlier candidate. |
| NameMatching.ApplyRule | edgar_warehouse/mastering/merge.py:183-210 | Of the waiting records a rule joins exactly those whose passing pairs reach one master that is not vetoed, each with the LEI its last passing pair states. |
| NameMatching.OneOutcome | edgar_warehouse/mastering/merge.py:183-210 | What is said of a rule's outcome leaves one outcome: no other records, masters or LEIs meet it. |
| NameMatching.ApplyExactRule | edgar_warehouse/mastering/merge.py:226-238 | A waiting record joins a master exactly when that master alone holds its name id, and is sent to review exactly when several do. |
| Lookups.Changes | edgar_warehouse/mastering/store.py:223-229 | The two queries give the first changes after a checkpoint in (file, master) order and skip none. |
| Lookups.LookupStore.SavePage | edgar_warehouse/mastering/store.py:255-261 | A page's lookups and its checkpoint are saved together; other writers may commit before and between. |
| Lookups.MergedFileIsLater | edgar_warehouse/mastering/merge.py:84-110 | A merged file keeps or changes each master, and every master it changes takes a file number above all there were. |
| Lookups.LaterKeepsAccurate | edgar_warehouse/mastering/store.py:73-74 | What a checkpoint says it has covered stays covered when later files merge. |
| Lookups.SaveKeepsAccurate | edgar_warehouse/mastering/lookups.py:56-64 | Saving a page read before other writers committed leaves every master at or before the new checkpoint with the lookups of its current body. |
| Lookups.LookupStore.Build | edgar_warehouse/mastering/lookups.py:50-69 | Stopped, resumed and overtaken at any point, a build keeps every covered master's lookups current; undisturbed it finishes exactly when its pages hold the unread masters, and then leaves nothing unread. |
| Lookups.CountedAll | edgar_warehouse/mastering/store.py:269-274 | The grouped count finds exactly the masters holding every token. |
| Lookups.BuiltAnswersScan | edgar_warehouse/mastering/lookups.py:50-76 | With nothing left unread, every lookup finds exactly the masters whose tokens include all those asked for. |
| Lookups.LookupStore.HoldersOf | edgar_warehouse/mastering/lookups.py:117-126 | Refused before the lookups reach the last file, also on a store with no build; then the masters with a row for each token, in id order, which with nothing unread are those a scan finds. |
| Lookups.AnswersScanIff | edgar_warehouse/mastering/lookups.py:50-76 | Whatever builds, stops and later files came before: every lookup answers as a scan exactly when each master unread at the checkpoint has stored the tokens of its current body, which `_ready` does not ask. |
| Lookups.ReadyBeforeBuilt | edgar_warehouse/mastering/lookups.py:72-76 | A failing case: a build stopped after its first page of a file of 1001 masters passes `_ready` and cannot find the last one. |
| Lookups.ReadyWithOldRows | edgar_warehouse/mastering/lookups.py:56-76 | Another: a file merges, between two pages of a build, a master already built; the second page ends just before it, `_ready` passes, and the merged-away master still answers. |
| KeyPages.KeysAfter | skills/mdm-engineering/scripts/database_adapter.py:1186-1208 | A bounded page is the first keys after a cursor, in order, none skipped. |
| MasterIndex.IndexStore.Enter | edgar_warehouse/mdm/master_index.py:60-84 | Each given master's entries become those its body gives; no other master's entries change. |
| MasterIndex.IndexStore.CommitBatch | edgar_warehouse/mdm/master_index.py:87-98 | A merge carries a complete index to the next generation and leaves an incomplete one visibly behind. |
| MasterIndex.IndexStore.ForcedPage | edgar_warehouse/mdm/forced_publication.py:38-75 | A forced page is refused before the first batch; any other moves the generation without touching the index, which is then incomplete. |
| MasterIndex.IndexStore.RebuildPage | edgar_warehouse/mdm/master_index.py:114-143 | One page of the owner pass: overtaken or stale progress is refused, else every master up to the new cursor is current. |
| MasterIndex.PageCovers | edgar_warehouse/mdm/master_index.py:125-141 | Re-deriving a page extends the covered masters to the page's last key, skipping none. |
| MasterIndex.IndexStore.Rebuild | edgar_warehouse/mdm/master_index.py:101-146 | The whole pass against any interleaved commits: refused exactly for no batch or progress of an older generation; with none committed, ready exactly when the masters past its cursor are within its limit, and otherwise as many of the first of them as the limit are done. |
| MasterIndex.RebuildByLimit | edgar_warehouse/mdm/master_index.py:101-146 | A series of bounded calls with no commit between goes on where each stopped: it ends with a complete index exactly when the index was complete or calls times limit hold the masters left. |
| MasterIndex.PageLeaves | edgar_warehouse/mdm/master_index.py:114-131 | A page read one key longer than it takes tells whether more are left, and leaves exactly the keys past its last. |
| MasterIndex.IndexStore.Find | edgar_warehouse/mdm/detail_lookups.py:63-92 | With a complete index a lookup returns exactly the current masters a full scan would, once each and in the order of their id text, which is not the storage-key order they are rebuilt in, and never refuses a candidate of its own. |
| MasterIndex.RunThenFind | edgar_warehouse/mdm/master_index.py:34-146 | From any store, also one before its first batch, and over any interleaving of merges, forced pages, rebuild calls, stops and restarts, each of which does its own to the state before it: a lookup is refused exactly for an incomplete index and otherwise answers as a scan. |
| Cascade.AssignedOneToOne | edgar_warehouse/mdm/cascade.py:242-273 | No entity is bound to two filers. |
| Cascade.AssignedWasUnique | edgar_warehouse/mdm/cascade.py:247-273 | Every bound pair was bound by some pass in which, among what the passes before it left, the filer agreed with that entity alone and the entity with that filer alone. |
| Cascade.StillOneToOne | edgar_warehouse/mdm/cascade.py:242-273 | A pair a pass left unbound though it agreed has a rival that the pass did not remove. |
| Cascade.PassAgainBindsNothing | edgar_warehouse/mdm/cascade.py:247-273 | Repeating a pass binds nothing more. |
| Cascade.PrefixIsPart | edgar_warehouse/mdm/cascade.py:247-273 | The first passes alone give a part of what all of them give, with the same pass and flags. |
| Cascade.OrderIrrelevant | edgar_warehouse/mdm/cascade.py:236-241 | With distinct CIKs and LEIs the order of the two sources changes nothing. |
| Cascade.BoundPairFits | edgar_warehouse/mdm/cascade.py:198-273 | A bound pair shares the filer's name, is eligible and, for every compared part list of the pass the match names, shares a street, a non-empty city or an agreeing postcode among its alternatives, in one known country; an over-shared address gives only its country. The match carries what the two sides say. |
| Cascade.FitsMeans | edgar_warehouse/mdm/cascade.py:198-224 | A pass takes a pair exactly when the two are alike in those plain terms. |
| Cascade.LonePairIsBound | edgar_warehouse/mdm/cascade.py:247-273 | The converse: a pair alike in a pass, left by the passes before and with every rival on either side taken by them, is bound in it. |
| Cascade.IndexNames | edgar_warehouse/mdm/cascade.py:238-242 | The filers by name and the entities by each name they hold, exactly. |
| Cascade.Propose | edgar_warehouse/mdm/cascade.py:248-259 | Proposals and claims are the same relation read both ways: the pairs still open that agree. |
| Cascade.BindSingles | edgar_warehouse/mdm/cascade.py:260-273 | The second loop of a pass binds exactly the pairs single on both sides, with their pass, flags and update, and no other. |
| Cascade.Assign | edgar_warehouse/mdm/cascade.py:226-274 | The loops compute the assignment the properties above are about. |
| CheckDigits.SpelledRuns | edgar_warehouse/mdm/identifier_types.py:81-83 | The number the letters spell, mod 97, is where a step for each character arrives. |
| CheckDigits.Mod97DetectsSubstitution | edgar_warehouse/mdm/identifier_types.py:81-83 | A digit for a digit or a letter for a letter, anywhere in a value of any length, is detected. |
| CheckDigits.Mod97DigitForLetter | edgar_warehouse/mdm/identifier_types.py:81-83 | A digit replaced by a letter passes exactly when 90 times the number before it plus the difference of the two values is a multiple of 97. |
| CheckDigits.Mod97Transposition | edgar_warehouse/mdm/identifier_types.py:81-83 | Two unequal neighbours that change places pass exactly when they are 1B, 2M or 3X, either way round. |
| CheckDigits.Mod11_2 | edgar_warehouse/mdm/identifier_types.py:86-91 | The loop accepts exactly the values whose characters, weighted by powers of two, sum to 1 mod 11. |
| CheckDigits.Mod11DetectsSubstitution | edgar_warehouse/mdm/identifier_types.py:86-91 | Every substitution is detected. |
| CheckDigits.Mod11Swap | edgar_warehouse/mdm/identifier_types.py:86-91 | Two unequal characters that change places pass exactly when their distance is a multiple of ten. |
| CheckDigits.Mod11_10 | edgar_warehouse/mdm/identifier_types.py:94-99 | The loop, which starts from 5, accepts exactly the values ISO/IEC 7064 MOD 11,10 accepts by its own recursion from the modulus. |
| CheckDigits.Mod37_36 | edgar_warehouse/mdm/identifier_types.py:102-107 | The same for ISO/IEC 7064 MOD 37,36, which starts from 18. |
| CheckDigits.HybridDetectsSubstitution | edgar_warehouse/mdm/identifier_types.py:94-107 | In both hybrid systems every substitution is detected, at any length. |
| CheckDigits.HybridCheckCharacter | edgar_warehouse/mdm/identifier_types.py:94-107 | In both, every payload has exactly one check character. |
| CheckDigits.HybridTransposition | edgar_warehouse/mdm/identifier_types.py:94-107 | In both, two unequal neighbours that change places leave the check as it was exactly when, after what stands before them, the one and the other lead to the states M/2 and M/2 + 1. |
| CheckDigits.HybridMissedPairs | edgar_warehouse/mdm/identifier_types.py:94-107 | The pairs that some place misses are exactly those of neighbouring values, the last counting as next to 0. |
| CheckDigits.Damm | edgar_warehouse/mdm/identifier_types.py:110-122 | The loop accepts exactly the values that run through the table to 0. |
| CheckDigits.DammDetects | edgar_warehouse/mdm/identifier_types.py:110-122 | Every substitution and every adjacent transposition of unequal digits is detected, at any length. |
| CheckDigits.LuhnDigits | edgar_warehouse/mdm/identifier_types.py:29-34 | The loop over the reversed digits computes the sum the properties are about. |
| CheckDigits.LuhnDetectsSubstitution | edgar_warehouse/mdm/identifier_types.py:29-34 | Every substitution of a digit is detected, at any length. |
| CheckDigits.LuhnTransposition | edgar_warehouse/mdm/identifier_types.py:29-34 | Two unequal neighbours that change places pass exactly when they are 0 and 9. |
| CheckDigits.SedolSubstitution | edgar_warehouse/mdm/identifier_types.py:70-78 | A character replaced by another passes exactly when the two values agree mod 10. |
| CheckDigits.SedolSumIs | edgar_warehouse/mdm/identifier_types.py:70-78 | The weights are 1, 3, 1, 7, 3, 9, 1 in that order. |
| CheckDigits.ValueIsPlace | edgar_warehouse/mdm/identifier_types.py:81-107 | A character's value is its place among the digits followed by the letters. |
| CheckDigits.Value11IsPlace | edgar_warehouse/mdm/identifier_types.py:86-91 | In MOD 11-2 a character's value is its place among the digits followed by X. |
| CheckDigits.DammTable | edgar_warehouse/mdm/identifier_types.py:110-122 | The table is the published one, row by row. |
| MergeCommit.ProposalIsStale | edgar_warehouse/mdm/binding.py:239-302 | A proposal is stale exactly when something it rested on has changed: the decisions about the masters it merges, a value withheld or minted, a join's only holder, a review, or a later publication. |
| MergeCommit.CommitLeaves | edgar_warehouse/mdm/prepared.py:160-239 | The state a batch leaves, said of each row, decision, review and identity: its own are stored with it, and the rest stay. |
| MergeCommit.StaleAfterCommit | edgar_warehouse/mdm/binding.py:239-302 | Exactly when a proposal is stale on the state a committed batch leaves, said of the batch's decisions, rows, reviews and identities: every ground, each in plain terms. |
| MergeCommit.MergeGoesStale | edgar_warehouse/mdm/binding.py:266-272 | A proposal that merges masters and was fresh is stale once a batch stores a new merge or exclusion of one of them. |
| MergeCommit.DecisionsStay | edgar_warehouse/mdm/prepared.py:177-227 | Every decision a history commits stays stored. |
| MergeCommit.RunIsSerial | edgar_warehouse/mdm/prepared.py:138-246 | Under any interleaving of any number of workers, and whatever a read that spans a commit sees, the committed batches are a serial history, each resting on the state those before it leave. |
| MergeCommit.CommitsOnWhatItRead | edgar_warehouse/mdm/prepared.py:142-239 | A committed batch's effects are those the state it changes calls for, and a proposal that names its generation is the one that state calls for, however many reads made it. |
| MergeCommit.KeyTakesEffectOnce | edgar_warehouse/mdm/prepared.py:143-149 | In every run a batch key takes effect at most once. |
| MergeCommit.ContestedExactly | edgar_warehouse/mdm/binding.py:239-302 | Any batch leaves an uncontested value with two masters exactly when its caller binds a record that carries what another master holds, a record comes to hold such a value without a mint or join, its own proposal mints it for the records of two masters, or it takes back a merge that held the value's masters together: conditions on the stored rows and on what it would write. |
| MergeCommit.ContestedInHistory | edgar_warehouse/mdm/binding.py:239-302 | A value two masters hold after any history was so at the start, or one of its batches did one of those four for that very value. |
| MergeCommit.MergesPartNone | edgar_warehouse/mdm/prepared.py:138-246 | A batch under which masters that were one stay one takes nothing back, whatever it merges. |
| MergeCommit.UnmergeContests | edgar_warehouse/mdm/prepared.py:138-246 | A committed reversal of a merge of two masters that hold one value: that value then has two masters, while a value only one of them holds is neither contested nor blamed on the batch. |
| MergeCommit.OneMasterForEachValue | edgar_warehouse/mdm/binding.py:239-302 | Over any interleaving, reversals of other merges included, a value none of the committed batches is to blame for in one of those four ways has one master. |
| MergeCommit.MintedTwiceInOneBatch | crates/source-contract/src/record_matches.rs:569-585 | Two records bound to two masters and delivered again with one value no master held: it is minted for both, the batch passes the check and commits, and the value has two masters. |
| MergeCommit.NameBindContests | edgar_warehouse/mdm/merge.py:184-207 | A waiting record bound by its name to a master without an identifier, which another master holds: a name bind claims nothing, the batch passes the check and commits, and the identifier has two masters. |
| MergeCommit.JoinsStandIff | edgar_warehouse/mdm/binding.py:261-290 | Joins to masters that hold the values are confirmed exactly when each value has one holder. |
| MergeCommit.TwoJoinsNeverCommit | edgar_warehouse/mdm/binding.py:261-290 | A plan that joins one value to two masters is stale on every state, and no run ever commits it. |
| MergeCommit.MergingValueIsStale | crates/source-contract/src/record_matches.rs:695-712 | One listing identifier held by two Securities, under a rule that merges what it reaches: one join for each makes the plan stale on the state it was read from; without joins it would not be. |
| MergeCommit.PublishedInOrder | edgar_warehouse/mdm/prepared.py:156-164 | Over any history an identity is allocated once, and each kind's identities are published later, batch by batch. |
| MergeCommit.MergeStage.Propose | edgar_warehouse/mdm/merge.py:157-212 | A proposal names the generation read first, and is the planner's answer for the current state if none committed meanwhile. |
| MergeCommit.MergeStage.Execute | edgar_warehouse/mdm/prepared.py:130-246 | A redelivered batch is replayed and another command under its key refused; an applied batch is the only one committed since its first read, and rests on the state read; when no other worker commits, a new batch is stale, applied or in conflict exactly as its proposal is stale and its identities free there. |
| MergeCommit.MergeStage.Attempt | edgar_warehouse/mdm/merge.py:119-150 | When no other worker commits during it, an attempt is stale exactly when the plan is stale on the very state it was read from, and otherwise applied exactly where its identities are free. |
| MergeCommit.MergeStage.Apply | edgar_warehouse/mdm/merge.py:119-150 | Three attempts; the call ends stale only when other workers committed at least three batches meanwhile or a plan was stale where it was read, and, when none committed, exactly when the first one was. |
| Closures.Chain | edgar_warehouse/mdm/scope.py:242-254 | The frontier loop finds exactly the undirected component of its seeds over unretired links of types walked whole. |
| Closures.ComponentSplits | edgar_warehouse/mdm/scope.py:201-209 | The component of a union is the union of the components, which is why only new seeds are walked. |
| Closures.Consolidations | edgar_warehouse/mdm/binding.py:122-140 | The loop over keys not asked for yet finds the least set of decisions closed under: one that names an asked master, or a key a member adds, is a member. |
| Closures.ClosedMeans | edgar_warehouse/mdm/binding.py:122-140 | The closure, said of each kind of decision: every merge and exclusion with an end asked for, every reversal and revocation of what is asked for. |
| Closures.NamedIsFound | edgar_warehouse/mdm/binding.py:122-140 | A stored merge or exclusion of an asked master is found. |
| Closures.Scope.Read | edgar_warehouse/mdm/scope.py:122-132 | Reading only what is not held yet leaves what reading everything would. |
| Closures.Scope.Links | edgar_warehouse/mdm/scope.py:159-213 | The loop ends, with `starts` the least set holding the affected masters and closed, link by link: for each whole-walked link read or delivered with an end in `starts` or changed, both ends' masters and all that stored links join to them, and likewise the starts of the batch's own; and with exactly the source readings that set calls for. |
| Closures.WholeMeans | edgar_warehouse/mdm/scope.py:201-213 | The closure under the growth rules, said of each link. |
| Closures.ReadForMeans | edgar_warehouse/mdm/scope.py:159-200 | The readings a scope calls for: those read directly, and every version of their records. |
| Lifecycle.GuardUpdate | edgar_warehouse/rdm/schema.py:87-115 | The update guards admit exactly six moves of a version's row (redrafting, approval, publication, an end date, retirement, or none), a publication exactly where it supersedes the version the query gives, which is one of the latest and without a tie the only one. |
| Lifecycle.Replaced | edgar_warehouse/rdm/schema.py:106-107 | The version a publication replaces is none for a set's first, else one no rival is valid after. |
| Lifecycle.MovesAreLater | edgar_warehouse/rdm/schema.py:91-114 | A move never takes a status back or past the next one, and keeps identity, and everything decided, as it was. |
| Lifecycle.Reference.UpdateVersionRow | edgar_warehouse/rdm/schema.py:135-136 | An update is one of the six moves, written as stamped, or changes nothing; and each move is admitted, a publication where no two rivals are valid from one time. |
| Lifecycle.Reference.InsertContent | edgar_warehouse/rdm/schema.py:146-151 | A content row is added only to a draft. |
| Lifecycle.Reference.InsertCodePath | edgar_warehouse/rdm/schema.py:147-149 | A path is added only while its version is approved. |
| Lifecycle.Reference.ApplyAll | edgar_warehouse/rdm/schema.py:84-153 | Any sequence of row changes, each admitted or refused, and done, where the ones before it left the tables: no version is lost, statuses only rise, content past a draft and paths past publication are unchanged, approval, sha256, publication and dates are fixed once set, and every status says what it should. |
| Lifecycle.ChangedOnce | edgar_warehouse/rdm/schema.py:84-153 | What one row change does is determined, except where a publication has rivals valid from one time. |
| Lifecycle.PinnedReadsStay | edgar_warehouse/rdm/schema.py:84-153 | What a reader pinned to a published version finds is the same at every later time: its content, a path for each code, its sha256, start and approval by someone other than its drafter; only its end may still be set, once and not before its start. |
| Lifecycle.SuccessionEndsAtFirst | edgar_warehouse/rdm/schema.py:104-107 | From every published version, what each supersedes leads without a circle to the first published of its set. |
| Lifecycle.SupersedesLastIff | edgar_warehouse/rdm/schema.py:104-107 | A publication supersedes the version published last before it only if that one is valid from no earlier than those before it; where it shares its start with none of them, exactly then. |
| Lifecycle.InLineIff | edgar_warehouse/rdm/schema.py:104-107 | Where no two published versions of a set are valid from one time, each supersedes the one before it exactly when none but the last published was backdated. |
| Lifecycle.BackdatedIsPassedOver | edgar_warehouse/rdm/schema.py:104-107 | A failing case: version 1 valid from 100, version 2 published next but valid from 50, version 3 valid from 150 is admitted superseding version 1 and not version 2. |
| LineItems.Stages | edgar_warehouse/financials/line_items.py:76-88 | Every line item once, in the stage after all it reads; where every read exists, the map is refused exactly when it has a cycle. |
| LineItems.StageIsEarliest | edgar_warehouse/financials/line_items.py:76-88 | A line item stands right after something it reads, or first if it reads nothing: nowhere earlier would do. |
| LineItems.LeftOverIsCyclic | edgar_warehouse/financials/line_items.py:83-85 | The line items a refusal names include a circle of reads. |
| LineItems.StagedHasNoCycle | edgar_warehouse/financials/line_items.py:76-88 | A map that can be staged has no cycle and reads nothing unknown. |
| LineItems.FirstEntryIsLeast | edgar_warehouse/financials/line_items.py:361-365 | The chosen row is the entry of least position among those that have a figure. |
| LineItems.FirstFactIs | edgar_warehouse/financials/line_items.py:321-329 | The first concept of a term's list that has a copy gives the figure, and none does only when none has one. |
| LineItems.SumIs | edgar_warehouse/financials/line_items.py:347-358 | A sum adds its terms; a difference takes all but the first from the first. |
| LineItems.CombinedIff | edgar_warehouse/financials/line_items.py:345-360 | A computed entry has a figure exactly when every required term has one, some term has one, and all that have agree in their unit. |
| LineItems.DependsOnReads | edgar_warehouse/financials/line_items.py:335-360 | A line item's figure depends on nothing but the line items its list reads. |
| LineItems.Evaluate | edgar_warehouse/financials/line_items.py:330-367 | Worked out stage by stage, each line item has the figure of the first entry of its list that has one, where a term naming another line item stands for that one's own figure. |
| LineItems.OneMeaning | edgar_warehouse/financials/line_items.py:330-367 | That meaning is unique for a map without a cycle. |
| Measures.GapCovers | edgar_warehouse/financials/measures.py:269-284 | There is a reason for every earlier year a measure of a fiscal year reads. |
| Measures.GapMeans | edgar_warehouse/financials/measures.py:265-284 | The reason is a changed fiscal year exactly when the year has no annual period and the year end moved between its nearest neighbours. |
| Measures.ReasonIff | edgar_warehouse/financials/measures.py:286-349 | A null reason is given exactly when the measure lacks something it needs. |
| Measures.ReasonIsFirst | edgar_warehouse/financials/measures.py:286-349 | Which reason is given: the first that applies, in the order format, filed years, numerator, denominator or capital, currencies, sign. |
| Measures.FcfFigure | edgar_warehouse/financials/measures.py:209-216 | Free cash flow is operating cash flow less capital expenditure where both are filed in one currency, and mixed where they are filed in two. |
| Measures.InvestedFigure | edgar_warehouse/financials/measures.py:244-256 | Invested capital is debt and equity less cash where the three are filed in one currency, and mixed where they are not. |
| Measures.AfterTaxFigure | edgar_warehouse/financials/measures.py:219-243 | Operating income less its share by the rate filed, or else the country's rate at the year's end, and which reason stands for a missing one. |
| Measures.ExactlyOne | edgar_warehouse/financials/measures.py:286-349 | Every ratio, return and growth row has exactly one of a value and a reason, for every mix of missing inputs, years, currencies, formats and signs; the value is the measure's figure, and there is one exactly when all it needs is there. |
| Measures.AfterTaxExplained | edgar_warehouse/financials/measures.py:219-243 | Operating income after tax has exactly one of a value and a reason. |
| Measures.ReasonMeansNoValue | edgar_warehouse/financials/measures.py:206-261 | A computed series with a reason has no value, so the reason reaches what reads it. |
| Measures.MissingTopExplained | edgar_warehouse/financials/measures.py:286-327 | A missing numerator is explained by its own reason, or else as not filed, once the format allows the measure. |
| Measures.NoMixedCurrencies | edgar_warehouse/financials/measures.py:209-349 | Amounts in two known currencies, however deep in the computed series they lie, are never added, subtracted or divided into a value, but for those that only make its tax rate. |
| Measures.MixedIff | edgar_warehouse/financials/measures.py:209-349 | A value mixes currencies exactly when an amount behind a tax rate it uses is in another known currency than some amount it reads; where operating income's currency is known, exactly when a year read after tax by its own filed rate has operating income, pretax income and tax in more than one. |
| Measures.TaxRateMixesCurrencies | edgar_warehouse/financials/measures.py:219-243 | A failing case: a company whose pretax income alone is in euros has a return on invested capital and no reason. |
| Manifest.Run.TryBatch | edgar_warehouse/mdm/execution.py:302-376 | One batch is passed over, refused, over the limit or committed, and why. |
| Manifest.Run.Execute | edgar_warehouse/mdm/execution.py:291-380 | Whatever stage, limit, refusals and other runs: what a run has committed is a prefix of the manifest, each key takes effect once in the store, a bounded call handles no more than its limit and stops at a selected batch only where the next would pass it, what it reports is the cost of what it committed, and a call that commits nothing has a stated cause. |
| Manifest.Run.Resume | edgar_warehouse/mdm/execution.py:261-380 | Any sequence of calls commits in manifest order and, ended by one unbounded call nothing refuses, commits what that call alone would. |
| Batches.Groups | edgar_warehouse/mdm/limits.py:23-36 | Every item once and in order, each group within bounds or one item alone, and none able to take the item after it. |
| Batches.GreedyLeads | edgar_warehouse/mdm/limits.py:23-36 | Any cut's first groups hold no more than the greedy cut's first groups. |
| Batches.GreedyIsFewest | edgar_warehouse/mdm/raw_capture.py:78-87 | No cut of the same items within the same bounds has fewer groups. |
| SnapshotPages.CommitKeepsPast | edgar_warehouse/mdm/master_reads.py:33-39 | No later commit changes what existed at an earlier generation, or its body. |
| SnapshotPages.CommitIsSeen | edgar_warehouse/mdm/master_reads.py:33-39 | A commit is seen at its own generation: each object it writes has its new body, each other what it had. |
| SnapshotPages.MasterReads.SnapshotPage | edgar_warehouse/mdm/master_reads.py:33-68 | A page is the next objects of its generation after the cursor, none skipped though the keys of later objects lie among them, and names where to go on exactly when there are more. |
| SnapshotPages.MasterReads.Follow | edgar_warehouse/mdm/master_reads.py:33-68 | Following `next_after` at the first page's generation, whatever commits between pages, ends with every object that existed then, once, in key order, with its body then. |
| Wilson.BoundIsSmallerRoot | edgar_warehouse/mdm/activation.py:50-58 | The bound is the smaller root of n(p - x)^2 = z^2 x(1 - x) and lies between 0 and the sample's share. |
| Wilson.ClearsBar | edgar_warehouse/mdm/activation.py:263-268 | A bar below one is cleared exactly when the share reaches it and lies at least z deviations from what a true share at the bar would give. |
| Wilson.NeverFalls | edgar_warehouse/mdm/activation.py:50-58 | More correct answers of the same number never lower the bound. |
| Wilson.AcceptedShowsBar | edgar_warehouse/mdm/activation.py:249-268 | An accepted stated bound is at most the share and at least the bar less the tolerance, and the sample itself rejects a true share at the bar. |

## Left out

- MergeCommit.ContestedExactly: what a proposal holds is taken as given; of `link_matching_records` only the mints and joins of the two failing cases are followed, and its choice of masters, reviews and withheld values is left out.
- MergeCommit.OneMasterForEachValue: excludes the four ways rather than the batches that could take them, since each is something the code does.
- MergeCommit.MergeStage.Apply: previews, kept assessments applied later and superseded ones are left out of the retry call; a kept proposal of any age is in the interleavings `RunIsSerial` covers.
- Lookups.AnswersScanIff: under one pin; rows of another pin are other tokens.
- Lookups.LookupStore.Build: one build at a time and one pin for a run; two builds at once can move the checkpoint back. A master's body is taken to change whenever its cross-references do.
- NameMatching.ApplyRule: the held-LEI agreement is claimed within one rule: what its joins state is stored only after the last rule, so two rules can give one master two LEIs.
- Mastering.Replay: runs with a split among the files. Nothing in the source calls `split` but a test, which then reverses the decision, returns identifiers and delivers the files again; `SplitSoundIff` says when the tables can go on.
- Lifecycle.Reference.UpdateVersionRow: which of several rivals valid from one time the query gives is the database's choice, so a publication's admission is not claimed there; `GuardUpdate` states it for whichever it gives.
- Cascade.Assign: the address, postcode and jurisdiction comparisons are functions given to it.
- CheckDigits.LuhnDigits: the variants over letter values and from the left are left out, as is the length and alphabet parsing that comes before every family.
- Closures.Scope.Links: a record's master is a fixed function of what is stored; reading it in rounds, and which stored rows a batch may then write (`owns`, `owns_link`), are left out.
- Lifecycle.Reference.ApplyAll: the field formats, the code set's own row and the foreign keys among content rows are left out; each only refuses more.
- LineItems.Evaluate: for one company and year, from the copies chosen for it; how the latest copy, the fiscal year and its taxonomy are chosen is left out, and so are the flags and the trace of inputs.
- Measures.ExactlyOne: one row a join finds at most; the trace of inputs is left out, and the root and the rounding of a figure are functions given to it.
- Manifest.Run.Execute: reading and hashing the manifest, its pins and quality counts, and previews are left out.
- Wilson.BoundIsSmallerRoot: over real numbers; rounding of floating point, and how z follows from a confidence, are left out.
- SnapshotPages.MasterReads.SnapshotPage: the projection's provenance and the business hash are left out.
- The storage adapter, its leases, authority proofs and SQL dialects: a keyed store with a generation counter and atomic transactions stands for it.
- Deferred records, review rows and counts of the mastering file, and withheld values there.
- The diff of a batch's projections in `_prepare`, versioned lookup changes and source pins in `prepared.py`.
- `forced_publication.page` beyond the generation it moves: the chain of pages and their retries.
- Fitting an answer to a size and walking links in `context.py`, data quality reports in `quality.py`, the one-bind rule of `matching.propose`, and policy checks in `activation.py` other than a sample's.
- Migrations, roles, the command line, capture reading and field mapping.
