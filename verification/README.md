# itaruby, modelled and proved in Dafny

itaruby is a Ruby type checker whose contract is to accuse only when a fault is proven. This project models the parts
of it whose correctness is not visible from any single function, and proves what they promise:

- **The type lattice and `compatible`** (`Types`, `Compat`, `Fillings`, `Ancestors`): types denote sets of Ruby values.
  `Ty::union` is set union, and `compatible` is set inclusion; a rejection always comes with one value outside every
  member of the union. With unknowns inside, an argument is accepted exactly when some reading of the unknowns is. The
  ancestry walk behind it lists exactly the reachable classes, each once, on any graph.
- **Flow-sensitive inference** (`Ruby`, `Flow`, `FlowSound`, `Precision`, `SkippedOperands`, `WhenConditions`,
  `Locals`): a small Ruby with a concrete semantics, the environment-threading inference of `infer_expr_inner`, and the
  theorem that every run stays inside what is inferred. It is also tight: every store that fits a narrowed environment
  satisfies the fact it was narrowed by, and joins hold nothing their branches do not. Where the code is unsound, a
  concrete program shows it and a condition says when it is sound, an exact one wherever what is skipped does not depend
  on the run.
- **The checker as a stateful walker** (`Project`, `Census`, `Verdicts`, `Typing`, `Walker`, `Faults`, `Footprint`,
  `Meaning`, `Accusations`, `Reported`, `Runs`, `Bridge`): the mutually recursive walk with its memo tables, in-progress
  sets, saved fields and census counters, as one class over an AST. The code the walker cannot see (the project index,
  name and method resolution) is an `Oracle`: any function at all. `Typing` says, as a relation without state, which
  types, environments, returns, tracked calls and diagnostics a node may have. Every method of the walker yields a
  derivation in that relation and changes bindings, instance variables and diagnostics exactly as the derivation says.
  What is proved of derivations by induction then holds of every run: each diagnostic of a whole file speaks of the
  receiver type and the arguments the very call has in the derivation of the file, follows from what the oracle answers
  about it, and is spared by none of the guards around it; every fault the lookups prove and nothing spares is reported;
  what is memoised is what the flow analysis proves sound.
- **E0107, E0108, suggestions, `find_def_at`** (`Constraints`, `OperandScan`, `EditDistance`, `FindDef`, with the string
  order in `Strings`).
- **The Sorbet type-expression scanner** (`SorbetSig`, `SorbetProofs`, `SorbetRoundTrip`).
- **Tooling**: the RBS stack parser (`RbsPack`, `RbsRoundTrip`), the replay judge (`Judge`), the miner's dedupe and line
  split (`Mine`), and the worker pool of `ita check` (`ParallelCheck`).

`dafny verify dfyconfig.toml` verifies everything.

## Where the code and its promises part

- `is_a?(TrueClass)` and `is_a?(FalseClass)` both test for `Bool`; dropping `Bool` in the false branch is sound exactly
  for the other classes (`EliminationSoundIff`).
- The right side of `&&` and `||` writes straight into the environment even when it is skipped. It is covered exactly
  when every run that skips it leaves a store its walk still fits (`SkippedSoundIff`); for a left operand that always
  skips, that is when its walk only widens the environment, which `compatible` decides name by name
  (`SkippedSoundByName`, `WidensByCompatible`). `||=` and `&&=` have the same kind of exact condition
  (`OpAssignSoundIff`).
- A `when` condition after the one that matches is walked but not run (`SkippedConditionUnsound`). A `case` is covered,
  writes and all, when its conditions after the first only widen the environment and no clause narrows the subject
  variable after a condition that may have rebound it (`WideningConditionsSound`); the second half is needed
  (`ReboundSubjectUnsound`). Where the first condition is always met and what runs writes nothing, the `case` is sound
  exactly when all that is walked only widens the environment (`SkippedConditionsSoundIff`).
- `compatible` on `Hash` is exact exactly for key types with unboundedly many values (`HashExactIffWideKey`).
- `.new` answers an instance even where the class has a `self.new` of its own (check.rs:3413-3436), which may return
  anything; the answer is right exactly for classes that leave `new` alone (`NewAnswerRightIff`).
- check.rs:1888-1890 calls the type of an instance variable the union of its writes; two different types collapse to
  `Unknown` instead (`IvarExact`).
- The comment on the ancestry counters says they sum to `inconclusive`; they do exactly when no `.new` took the arm
  without `initialize` (`CallStatsOf`, `NewBreaksAncestrySum`).
- The comment on `edit_distance` says distant pairs report 3; they report up to 6, and 6 is reached (`AtMostSix`,
  `SixIsReached`).
- types.rs:1-3 and README.md:71-79 say `Unknown` never produces a diagnostic. E0107 is collected in the
  unknown-receiver arm alone (check.rs:3638-3642): a diagnostic rests on a receiver of unknown type exactly when it is
  an E0107 (`UnknownReceiverIff`, with a run in `ContradictionOnUnknown`).
- Constraints and returns of the enclosing method are documented as untouched by a nested walk, but keyword defaults
  are walked at check.rs:1505-1508, before the saves at check.rs:1562-1566. A default that assigns ends the caller's
  constraint of that name, and one that returns adds its type to the caller's returns
  (`KeywordDefaultEndsConstraint`, `KeywordDefaultReturns`). All walks a project can open leave constraints (returns)
  as found exactly when no keyword default they reach assigns (returns), down to the depth cut-off
  (`WalksLeaveBindings`).
- The miner's guard `return nil if mid_a == mid_b` can never fire (`MiddlesDiffer`).

## Model

| member | source | states |
|---|---|---|
| `Types.UnionTypes` | crates/itaruby_semantic/src/types.rs:38-66 | the extend, dedup and keep-once loops compute the join: `Unknown` absorbs, members flatten one level, each is kept once |
| `Types.DedupIsRedundant` | crates/itaruby_semantic/src/types.rs:38-66 | the adjacent dedup pass never changes what the keep-once pass yields |
| `Types.JoinMeaning` | crates/itaruby_semantic/src/types.rs:38-66 | a value has the union of two types exactly when it has one of them |
| `Types.JoinInhabited` | crates/itaruby_semantic/src/types.rs:38-66 | union never builds an empty union |
| `Compat.AtomOutside` | crates/itaruby_semantic/src/check.rs:4892-4910 | a rejected scalar, instance or class type has a value outside every member of the parameter at once |
| `Compat.ArrayWitness` | crates/itaruby_semantic/src/check.rs:4892-4910 | for a rejected array type, one list of elements defeats every array member of the parameter together |
| `Compat.HashWitness` | crates/itaruby_semantic/src/check.rs:4892-4910 | for a wide key type, any partial map extends to one that the parameter does not admit |
| `Compat.Refute` | crates/itaruby_semantic/src/check.rs:4892-4910 | no false accusation: a rejection yields a value of the argument type outside the parameter type, for any ancestry, known or not |
| `Compat.AcceptIncludes` | crates/itaruby_semantic/src/check.rs:4892-4910 | with complete, transitive ancestry, acceptance implies inclusion, hashes included |
| `Compat.CompatibleIsInclusion` | crates/itaruby_semantic/src/check.rs:4892-4910 | acceptance holds exactly when every argument value is a parameter value |
| `Compat.FreshValue` | crates/itaruby_semantic/src/check.rs:4892-4910 | a wide type, hashes with wide keys or values included, has a value outside any finite set |
| `Compat.FiniteValuesComplete` | crates/itaruby_semantic/src/check.rs:4892-4910 | a type that is not wide, hashes included, has finitely many values, all listed |
| `Compat.NarrowKeyRejectsInclusion` | crates/itaruby_semantic/src/check.rs:4892-4910 | for every key type with finitely many values some included hash type is rejected |
| `Compat.HashExactIffWideKey` | crates/itaruby_semantic/src/check.rs:4892-4910 | a hash key type, hashes included, is free of such rejections exactly when it has unboundedly many values |
| `Fillings.RejectionStands` | crates/itaruby_semantic/src/check.rs:4892-4910 | a rejection stands whatever the unknowns inside the two types, at any depth, stand for |
| `Fillings.AcceptedIffSomeReading` | crates/itaruby_semantic/src/check.rs:4892-4910 | an argument is accepted exactly when the unknowns of both types can be filled in so that it is |
| `Ancestors.Linearizer.Linearize` | crates/itaruby_semantic/src/index.rs:7859-7890 | the walk ends on cyclic mixins, lists what is new once, keeps `complete` exactly while every class met is clean, and puts prepends before the class, includes and then the superclass after it, later names nearer |
| `Ancestors.WentThrough` | crates/itaruby_semantic/src/index.rs:7859-7890 | prepends, self, includes and superclass together list the class and all it reaches |
| `Ancestors.AncestorsOf` | crates/itaruby_semantic/src/index.rs:7754-7760 | the chain is exactly the reachable classes, each once; prepends, self, includes, superclass in that order with later mixins nearer; it is complete exactly when each class names only what resolves and is unambiguous |
| `Ancestors.WalksDescribe` | crates/itaruby_semantic/src/index.rs:7754-7760 | where index classes name only real ancestors, and clean ones all their direct ones, what the walks list is true and a complete list misses nothing: all `compatible` assumes of the index |
| `FlowSound.StripNilKeeps` | crates/itaruby_semantic/src/check.rs:5229-5251 | stripping nil loses no value but nil |
| `FlowSound.EliminateKeeps` | crates/itaruby_semantic/src/check.rs:5180-5227 | a value failing the class test survives the dropped union member |
| `FlowSound.HalfOfBoolDropsTooMuch` | crates/itaruby_semantic/src/core.rs:828-840 | `false` fails `is_a?(TrueClass)` yet is lost from `bool \| String` |
| `FlowSound.EliminationSoundIff` | crates/itaruby_semantic/src/check.rs:5207-5227 | the false-branch elimination is sound for all types and values exactly when the class is not half of `Bool` |
| `FlowSound.PredicateDecides` | crates/itaruby_semantic/src/check.rs:2748-2845 | the fact read off a predicate holds in the store when it is truthy, its negation when falsy |
| `FlowSound.NarrowTrueFits` | crates/itaruby_semantic/src/check.rs:5121-5154 | narrowing by a fact that holds keeps the store fitting |
| `FlowSound.NarrowFalseFits` | crates/itaruby_semantic/src/check.rs:5156-5178 | narrowing by a fact that fails keeps the store fitting |
| `Precision.StripNilExact` | crates/itaruby_semantic/src/check.rs:5229-5251 | stripping nil takes away nil and nothing else, wherever more than nil is there |
| `Precision.EliminateExact` | crates/itaruby_semantic/src/check.rs:5180-5227 | a member is dropped exactly from unions of known members of which some are of the tested class and some not, and exactly the others stay |
| `Precision.BranchesKnow` | crates/itaruby_semantic/src/check.rs:1958-2100 | both branches of `if` and `unless` start where every store satisfies how the predicate came out, other locals untouched, and after a guard clause the walk goes on there |
| `Precision.ClausesKnow` | crates/itaruby_semantic/src/check.rs:2118-2135 | each clause of class constants starts where the subject variable is of one of the classes |
| `Precision.JoinExact` | crates/itaruby_semantic/src/check.rs:5095-5116 | the join allows exactly the values some branch allows |
| `Precision.MergeLoopExact` | crates/itaruby_semantic/src/check.rs:5282-5291 | the loop merge allows exactly the values from before the loop and after one pass |
| `Precision.WriteExact` | crates/itaruby_semantic/src/check.rs:1829-1878 | `=`, `\|\|=`, `&&=` and `op=` bind exactly the value, the value or what was there, or anything, and touch no other local |
| `Precision.BranchedExact` | crates/itaruby_semantic/src/check.rs:1958-2100 | `if` and `unless` have exactly the values of their branches |
| `Precision.CaseExact` | crates/itaruby_semantic/src/check.rs:2102-2149 | `case` has exactly the values of its clauses and its else |
| `Precision.ArrayExact` | crates/itaruby_semantic/src/check.rs:1755-1778 | an array literal has exactly the arrays of its items' values |
| `Precision.HashExact` | crates/itaruby_semantic/src/check.rs:1779-1812 | a hash literal has exactly the hashes from its keys' values to its values' |
| `Precision.MethodReturnExact` | crates/itaruby_semantic/src/check.rs:1567-1576 | the folded return type has exactly the values of the last expression and of the returns |
| `FlowSound.DivergingBodyLeaves` | crates/itaruby_semantic/src/check.rs:5253-5272 | a body judged diverging never falls through |
| `FlowSound.JoinFits` | crates/itaruby_semantic/src/check.rs:5095-5116 | a store fitting one branch fits the joined environment; names a branch lacks are nil |
| `FlowSound.MergeLoopFits` | crates/itaruby_semantic/src/check.rs:5282-5291 | the loop merge covers a body that ran not at all or once |
| `FlowSound.PassiveWidens` | crates/itaruby_semantic/src/check.rs:2189-2218 | code the run skips leaves an environment that still covers the store |
| `FlowSound.SoundIf` | crates/itaruby_semantic/src/check.rs:1958-2017 | every run of an `if`, with narrowing and the diverging-branch shortcut, is covered |
| `FlowSound.SoundUnless` | crates/itaruby_semantic/src/check.rs:2018-2100 | every run of an `unless`, with the mirrored shortcut, is covered |
| `FlowSound.SoundWhens` | crates/itaruby_semantic/src/check.rs:2102-2149 | every run through the `when` clauses, class-narrowed subject included, is covered |
| `FlowSound.SoundCase` | crates/itaruby_semantic/src/check.rs:2102-2149 | every run of a `case`, taken clause or else, fits the joined type and environment |
| `FlowSound.SoundOrWrite` | crates/itaruby_semantic/src/check.rs:1853-1880 | `\|\|=` on a set, unset or nil local is covered |
| `FlowSound.Sound` | crates/itaruby_semantic/src/check.rs:1707-2305 | every run of every covered program: final store fits the inferred environment, the value has the inferred type, a returned value has a recorded return type |
| `FlowSound.MethodReturnSound` | crates/itaruby_semantic/src/check.rs:1567-1576 | however a body ends, its value lies in the type folded from the last value and the returns |
| `FlowSound.SkippedWriteUnsound` | crates/itaruby_semantic/src/check.rs:2213-2218 | `true \|\| (x = 1)` leaves `x: Integer` behind although `x` is nil |
| `FlowSound.SkippedGuardUnsound` | crates/itaruby_semantic/src/check.rs:2189-2212 | a guard clause inside a skipped right operand leaves its fact behind |
| `SkippedOperands.WidensIff` | crates/itaruby_semantic/src/check.rs:2189-2218 | every store that fits one environment fits another exactly when each name's type is included |
| `SkippedOperands.SkippedSoundIff` | crates/itaruby_semantic/src/check.rs:2189-2218 | for every left operand, `&&` and `\|\|` are sound in every run exactly when each run that skips the right side leaves a store its walk still fits |
| `SkippedOperands.SkippedSoundByName` | crates/itaruby_semantic/src/check.rs:2189-2218 | for a left operand that always skips, that is when walking the right side only widens the environment |
| `SkippedOperands.WideningOperandSound` | crates/itaruby_semantic/src/check.rs:2189-2218 | with any left operand, a widening right operand is covered whether it runs or not, writes included |
| `SkippedOperands.OpAssignSoundIff` | crates/itaruby_semantic/src/check.rs:1853-1869 | `\|\|=` and `&&=` are sound in every run exactly when the environment left allows, name by name, the stores that leave the right side alone |
| `SkippedOperands.WidensByCompatible` | crates/itaruby_semantic/src/check.rs:4892-4910 | the widening condition is decided by `compatible`, name by name |
| `WhenConditions.WideningConditionsSound` | crates/itaruby_semantic/src/check.rs:2102-2149 | a `case` with conditions that write is covered when each condition after the first, of any clause, only widens the environment and class narrowing never meets a rebound subject |
| `WhenConditions.SkippedConditionsSoundIff` | crates/itaruby_semantic/src/check.rs:2118-2149 | where the first condition is met in every store and what runs changes none, the `case` is sound in every run exactly when its walk only widens the environment |
| `WhenConditions.SkippedConditionUnsound` | crates/itaruby_semantic/src/check.rs:2118-2124 | `when true, (x = 1)` leaves `x: Integer` behind although `x` is nil |
| `WhenConditions.ReboundSubjectUnsound` | crates/itaruby_semantic/src/check.rs:2118-2135 | a condition that assigns the subject variable makes a later clause narrow it to the class of a value it no longer holds |
| `Locals.LocalEnv.JoinOne` | crates/itaruby_semantic/src/check.rs:5095-5116 | the inner loop joins one name across branches with the base or nil for a missing one |
| `Locals.LocalEnv.JoinBranches` | crates/itaruby_semantic/src/check.rs:5095-5116 | the in-place join gives the same environment in whatever order names come up |
| `Locals.LocalEnv.MergeLoopBody` | crates/itaruby_semantic/src/check.rs:5282-5291 | the in-place loop merge gives the same environment in whatever order names come up |
| `Walker.PlainTally` | crates/itaruby_semantic/src/check.rs:1103-1118 | one bucket up by one keeps every census equation |
| `Walker.UnknownTally` | crates/itaruby_semantic/src/check.rs:3732-3781 | an unknown receiver is counted with exactly one origin, and one cause when it came from a project return |
| `Walker.BlockedTally` | crates/itaruby_semantic/src/check.rs:3783-3872 | an inconclusive call is counted with exactly one ancestry reason; the Active Record count stays within the declared ones |
| `Walker.AccusedTally` | crates/itaruby_semantic/src/check.rs:1103-1132 | `diagnosed` and the E0101s emitted move together |
| `Walker.NewTally` | crates/itaruby_semantic/src/check.rs:3443-3464 | the `.new` arm without `initialize` is inconclusive with no ancestry reason |
| `Footprint.LessDeep` | crates/itaruby_semantic/src/check.rs:1655-1664 | a deeper start sees no more assignments and returns than a shallower one |
| `Footprint.DerivFoot` | crates/itaruby_semantic/src/check.rs:1655-1672 | every derivation ends at least the names a node assigns and records at least its returns, and without assigning (returning) keyword defaults exactly those |
| `Walker.Checker.InferExpr` | crates/itaruby_semantic/src/check.rs:1655-1672 | any node: its type and environment, the returns it records, the calls it tracks, the instance variables it writes and the diagnostics it raises are exactly those of a derivation of the node; all saved fields, stacks and in-progress sets are as found, memo entries never change and are derived, every counted call lands in one bucket; terminates |
| `Walker.Checker.InferLeaf` | crates/itaruby_semantic/src/check.rs:1715-1828 | literals, `self`, constants and local reads have the derived type, and a missing constant is reported |
| `Walker.Checker.InferWrite` | crates/itaruby_semantic/src/check.rs:1829-1878 | an assignment ends the tracked calls of the names it binds after its value is walked, and binds them to the cast, joined or unknown type |
| `Meaning.CastExact` | crates/itaruby_semantic/src/check.rs:1842-1843 | the first cast comment over a place strips nil, lets everything through or replaces the type |
| `Meaning.WriteCast` | crates/itaruby_semantic/src/check.rs:1829-1852 | the first cast comment over the value of an assignment decides what the local holds |
| `Walker.Checker.InferBranch` | crates/itaruby_semantic/src/check.rs:1958-2067 | the branch is derived in the narrowed environment, under the `defined?` and `respond_to?` guards where they hold, which are popped after it |
| `Walker.Checker.InferRight` | crates/itaruby_semantic/src/check.rs:2189-2212 | the right operand of `&&` is derived with what a left `is_a?(Class)` proved, and that dies with it |
| `Walker.Checker.InferClosure` | crates/itaruby_semantic/src/check.rs:3128-3155 | a block is derived under its asserted subjects and, where `self` may be rebound, one level deeper; its writes spill as widenings, and all is restored after it |
| `Meaning.SpillExact` | crates/itaruby_semantic/src/check.rs:5293-5305 | spilling keeps the outer names, each with exactly the values from before the block and those the block may leave |
| `Meaning.BlockCovers` | crates/itaruby_semantic/src/check.rs:5293-5305 | what held before a block and what holds after a pass of it both fit the environment it leaves |
| `Walker.Checker.InferReceiver` | crates/itaruby_semantic/src/check.rs:3012-3086 | the receiver type is the derived one, or `self`, or what an enclosing `&&` proved; `extend` makes it unknown from there on; the asserted subjects end with it |
| `Walker.Checker.InferRecvArgs` | crates/itaruby_semantic/src/check.rs:3089-3126 | the argument list is exactly the arguments that are no spread, in order, each with its span and its derived type under the casts in force |
| `Meaning.ArgumentAt` | crates/itaruby_semantic/src/check.rs:3089-3126 | each argument that is no spread stands at its position with its own span and its type under the cast there |
| `Walker.Checker.CheckCall` | crates/itaruby_semantic/src/check.rs:3000-3648 | receiver, arguments and block are derived, then exactly one verdict follows from them; one execution that counts adds exactly one to the total |
| `Walker.Checker.Dispatch` | crates/itaruby_semantic/src/check.rs:3156-3648 | the answer, the diagnostics and the bucket are exactly those the lookups give for this site; none of them when silent; an unknown receiver's use is tracked |
| `Faults.RaisesExactly` | crates/itaruby_semantic/src/check.rs:3156-3648 | a call that is not spared raises exactly what its lookups prove: E0101 where none finds the method and none is inconclusive, E0102 where the arguments written are too few or too many for the method reached, E0103 for each argument its parameter rejects; a spared call raises nothing |
| `Faults.BucketMeans` | crates/itaruby_semantic/src/check.rs:3156-3648 | a call counts as resolved, core, diagnosed, on an unknown receiver or declared elsewhere exactly when the lookups say so |
| `Faults.AnswersByReturn` | crates/itaruby_semantic/src/check.rs:3156-3648 | the type is a method's return exactly where the call reaches that method other than through `.new` |
| `Faults.AnswerHolds` | crates/itaruby_semantic/src/check.rs:3156-3648 | any other answer holds every value the call can yield, but where a class has its own `self.new` |
| `Faults.NewAnswer` | crates/itaruby_semantic/src/check.rs:3405-3476 | `.new` answers exactly the objects of the class, or anything for a class not known by name |
| `Faults.NewAnswerRightIff` | crates/itaruby_semantic/src/check.rs:3405-3476 | that answer is right in every honest run exactly for classes without an own `self.new` |
| `Walker.Checker.CheckArity` | crates/itaruby_semantic/src/check.rs:4403-4419 | E0102 only against the signature the call reaches, when the count is exact and outside its bounds |
| `Walker.Checker.CheckSigArgs` | crates/itaruby_semantic/src/check.rs:4446-4492 | E0103 only for a positional argument the reached signature's parameter rejects |
| `Walker.Checker.Accuse` | crates/itaruby_semantic/src/check.rs:3284-3303 | E0101 for a call no lookup finds and nothing spares, counted as diagnosed |
| `Walker.Checker.DispatchNew` | crates/itaruby_semantic/src/check.rs:3413-3476 | the `.new` arm, own `self.new`, `initialize` or none, tallies once |
| `Walker.Checker.CheckConstRef` | crates/itaruby_semantic/src/check.rs:2692-2724 | E0104 only for a constant nothing proves to exist, `defined?` included |
| `Walker.Checker.Emit` | crates/itaruby_semantic/src/check.rs:1120-1154 | the log grows by exactly the given diagnostic, by none when silent, and no counter moves |
| `Walker.Checker.MethodReturn` | crates/itaruby_semantic/src/check.rs:4529-4645 | the type is the signature's, the fallback of a call in progress, or that of a derivation of the body, memoised once; a nested return walk does to the walk in hand exactly what its keyword defaults do |
| `Meaning.CallAnswers` | crates/itaruby_semantic/src/check.rs:4529-4645 | a call that reaches a method answers its declared return type, or exactly what the body it was walked by can end with, or for an unknown body what the sorbet signature says |
| `Walker.Checker.FreshReturn` | crates/itaruby_semantic/src/check.rs:4560-4645 | a key neither memoised nor in progress is walked and memoised with the type of that walk; both in-progress sets are as found |
| `Walker.Checker.WalkForeign` | crates/itaruby_semantic/src/check.rs:4571-4621 | a foreign body is derived in silence under the casts of its own file; silence, hover, dark census and casts are as found after it |
| `Walker.Checker.CheckMethodBody` | crates/itaruby_semantic/src/check.rs:1437-1652 | the return type is the last value's joined with every `return`'s; parameters, block depth, operand proofs and method name are restored; of its bindings only what the keyword defaults do gets out |
| `Walker.Checker.WalkBody` | crates/itaruby_semantic/src/check.rs:1561-1573 | returns and constraints of the enclosing body come back exactly; what the body raises is what is raised in it and, after that, about its own bindings |
| `Walker.Checker.BindParams` | crates/itaruby_semantic/src/check.rs:1452-1560 | each parameter has its declared type or its default's; the defaults end, track and record exactly what their derivations say |
| `Meaning.ParamExact` | crates/itaruby_semantic/src/check.rs:1452-1560 | a parameter has its declared type, else its default's, else any |
| `Walker.Checker.FlushConstraints` | crates/itaruby_semantic/src/check.rs:4047-4059 | each binding is classified once, each contradictory one is reported under its own name with exactly its calls, and nothing else is |
| `Walker.Checker.IvarTy` | crates/itaruby_semantic/src/check.rs:4716-4734 | one isolated silent walk per class answers every instance variable of it with the fold of exactly the writes that walk derives |
| `Walker.Checker.WalkClassIvars` | crates/itaruby_semantic/src/check.rs:4736-4777 | every method of the class is derived under its own casts, and what is collected folds to exactly their writes to the class; silence, hover, casts and the capture are restored |
| `Meaning.IvarExact` | crates/itaruby_semantic/src/check.rs:4831-4846 | an instance variable has a known type exactly when the class writes it and always with that type |
| `Reported.IvarWritesAgree` | crates/itaruby_semantic/src/check.rs:4736-4846 | every write in the methods of the class, however deep, has the type its walk gives the variable |
| `Reported.IvarReadSound` | crates/itaruby_semantic/src/check.rs:1894-1906 | a read of known type has the type of every write its class walk meets |
| `Walker.Checker.WalkItems` | crates/itaruby_semantic/src/check.rs:1312-1421 | the statements of a file or class body are derived in order, a class body in a scope of its own; every saved field is as found |
| `Runs.CallStatsOf` | crates/itaruby_semantic/src/check.rs:507-566 | over a whole file: the diagnostics are exactly those of a derivation of the file and each is proven of one of its steps; total equals the calls counted, origins sum to unknown receivers, causes to unknown project returns, diagnosed equals the E0101s, inconclusive equals the ancestry sum plus the `.new` arm, and nothing is walked twice |
| `Runs.CheckFile` | crates/itaruby_semantic/src/check.rs:186-239 | over a whole file the diagnostics are exactly those of a derivation of the file and each is proven of one of its steps; every memoised method and class has the type of a derivation, and was walked exactly once |
| `Runs.NewBreaksAncestrySum` | crates/itaruby_semantic/src/check.rs:3443-3464 | one such `.new` makes the ancestry counters fall short of `inconclusive` |
| `Runs.ReturnWalk` | crates/itaruby_semantic/src/check.rs:1502-1573 | from any bindings, a walk opened for a method ends all names its keyword defaults assign, adds their returns, and leaves the rest when no default in the project does either |
| `Runs.IvarWalk` | crates/itaruby_semantic/src/check.rs:4736-4777 | the same for the walk opened for a class |
| `Runs.KeywordDefaultEndsConstraint` | crates/itaruby_semantic/src/check.rs:1505-1508 | a nested walk into a method one of whose keyword defaults assigns `x` ends the caller's constraint on `x` |
| `Runs.KeywordDefaultReturns` | crates/itaruby_semantic/src/check.rs:1505-1508 | a nested walk into a method one of whose keyword defaults returns adds to the caller's returns |
| `Runs.WalksLeaveBindings` | crates/itaruby_semantic/src/check.rs:1505-1566 | opening every walk of a project leaves constraints (returns) as found exactly when no keyword default a walk reaches assigns (returns) |
| `Runs.ContradictionOnUnknown` | crates/itaruby_semantic/src/check.rs:3638-3642 | a run that emits an E0107 on a receiver of unknown type |
| `Accusations.UnknownReceiverIff` | crates/itaruby_semantic/src/check.rs:3638-3642 | the type derived for the receiver of an accused call is unknown exactly for an E0107, and then for all its calls |
| `Accusations.GoodExpr` | crates/itaruby_semantic/src/check.rs:3000-3648 | every diagnostic a derivation raises is proven: receiver and arguments are those the very call has at a step of that derivation, the lookups answer for the fault, no guard spares it, and a contradiction names the calls of one body of it on one local since its last reassignment |
| `Accusations.GoodItems` | crates/itaruby_semantic/src/check.rs:1312-1421 | the same for the statements of a whole file |
| `Accusations.GuardsSpare` | crates/itaruby_semantic/src/check.rs:3156-3278 | no derivation under guards accuses what they proved: the answered name, the defined constant, the asserted subject, a class object proved by `&&`, and no self-send under a block that may rebind `self` |
| `Meaning.GuardedBranchSpares` | crates/itaruby_semantic/src/check.rs:1958-2067 | in a branch guarded by `defined?` or `respond_to?` nothing the guard proved is accused |
| `Meaning.BlockSpares` | crates/itaruby_semantic/src/check.rs:3128-3155 | in a block nothing is said of the calls it asserts to raise, nor, where `self` may be rebound, of sends to `self` |
| `Meaning.CallBlockSpares` | crates/itaruby_semantic/src/check.rs:3127-3155 | the block of a call not known to keep `self` is such a block |
| `Meaning.RightOperandSpares` | crates/itaruby_semantic/src/check.rs:2189-2212 | right of `x.is_a?(Class) &&` nothing is said of calls on `x` |
| `Meaning.ReceiverSpares` | crates/itaruby_semantic/src/check.rs:3006-3087 | in the receiver of an asserted raise nothing is said of its subjects |
| `Accusations.WrongCountIsReal` | crates/itaruby_semantic/src/check.rs:4403-4419 | for every E0102 the call is written with no spread, as many arguments as the diagnostic counts, and too few or too many for the project or core method it reaches |
| `Accusations.BadArgumentIsReal` | crates/itaruby_semantic/src/check.rs:4446-4492 | an E0103 rests on no unknown at any depth: however those of the argument's and the parameter's types are filled in it is rejected, and with wide hash keys some value of the argument's type is no value of the parameter's, in every world the index describes |
| `Accusations.ContradictionIsReal` | crates/itaruby_semantic/src/check.rs:4047-4059 | for every E0107 no type defines all the methods called, and the calls are those on one local of one body since its last reassignment |
| `Reported.CallReported` | crates/itaruby_semantic/src/check.rs:3156-3648 | whatever the lookups prove of a call walked live anywhere in the file, and nothing spares, is among the diagnostics of the file |
| `Reported.MissReported` | crates/itaruby_semantic/src/check.rs:3284-3303 | so every call on a known receiver that no lookup finds has its E0101 |
| `Reported.ConstantReported` | crates/itaruby_semantic/src/check.rs:2692-2724 | every constant read that nothing proves to exist has its E0104 |
| `Reported.UseTracked` | crates/itaruby_semantic/src/check.rs:3979-4000 | every live call on a plain local of unknown type counts as a use in the body it stands in |
| `Reported.ContradictionReported` | crates/itaruby_semantic/src/check.rs:4047-4135 | every body of the file whose uses of a local since its last reassignment no type answers has its E0107 |
| `Bridge.Bridged` | crates/itaruby_semantic/src/check.rs:1707-2305 | on the forms they share, the type, environment and returns of any derivation of the walker are those the flow analysis infers |
| `Bridge.MemoIsInferred` | crates/itaruby_semantic/src/check.rs:4560-4645 | a memoised return type is the one the flow analysis folds from the body, or the sorbet signature's for unknown |
| `Bridge.MemoIsSound` | crates/itaruby_semantic/src/check.rs:4560-4645 | every value a run of the body ends with has the memoised type |
| `Constraints.OnlyCallsSinceRebinding` | crates/itaruby_semantic/src/check.rs:3979-4000 | after a reassignment followed by none, what is kept for a name is exactly its calls since |
| `Constraints.CollectedSinceRebound` | crates/itaruby_semantic/src/check.rs:3979-4000 | at the end of any scope, what is kept for a name is exactly its calls since its last reassignment there |
| `Constraints.ContradictionIff` | crates/itaruby_semantic/src/check.rs:4061-4135 | a contradiction holds exactly when two distinct methods were called, each has a candidate type, and no type has them all |
| `Constraints.AnswersListed` | crates/itaruby_semantic/src/check.rs:4854-4875 | a binding with fewer than two methods, or one nothing defines, stays quiet; otherwise the verdict is decided by the sorted list of exactly the answering types: none, one, two to four, or quiet |
| `Constraints.VerdictByMethodSet` | crates/itaruby_semantic/src/check.rs:4061-4135 | reordering or repeating calls changes no verdict |
| `Constraints.ClassifyBinding` | crates/itaruby_semantic/src/check.rs:4061-4135 | the dedupe, lookup and intersection loops compute that verdict |
| `OperandScan.OperandLocalScan.Visit` | crates/itaruby_semantic/src/check.rs:5481-5614 | the visitor records exactly the scope's events, skipping nested scopes |
| `OperandScan.ProveOperandLocals` | crates/itaruby_semantic/src/check.rs:5417-5456 | a local is proven of a type exactly when some run of the nodes sets it and every run, whatever they do in any order and number, keeps it unset or of that type |
| `OperandScan.ProvenIff` | crates/itaruby_semantic/src/check.rs:5388-5479 | a local is proven `T` exactly when it has a write, all its events are literal writes of `T`, and nothing evals |
| `OperandScan.ProvenByEventSet` | crates/itaruby_semantic/src/check.rs:5417-5479 | visit order and repetition do not matter |
| `OperandScan.ProvenHoldsInEveryRun` | crates/itaruby_semantic/src/check.rs:5388-5573 | in every run of the scope's nodes, parameters, targets, block-locals, numbered parameters and evals included, a proven local is unset or holds its type |
| `OperandScan.ProvenExactly` | crates/itaruby_semantic/src/check.rs:5388-5573 | the converse too: what every run keeps, and some run sets, is proven |
| `EditDistance.ScriptsCostAtLeast` | crates/itaruby_semantic/src/check.rs:5684-5716 | no edit script is cheaper than the table's recurrence |
| `EditDistance.BestScript` | crates/itaruby_semantic/src/check.rs:5684-5716 | some edit script costs exactly that |
| `EditDistance.LengthGap` | crates/itaruby_semantic/src/check.rs:5684-5692 | the length-gap exit never hides a near pair |
| `EditDistance.RowsStayAbove` | crates/itaruby_semantic/src/check.rs:5693-5716 | once a whole row exceeds the bound every later row does, so abandoning is exact |
| `EditDistance.Distance` | crates/itaruby_semantic/src/check.rs:5684-5716 | the result is at most 2 exactly when the true distance is, and then equals it |
| `EditDistance.AtMostSix` | crates/itaruby_semantic/src/check.rs:5684-5716 | the result never exceeds 6, and exceeds 3 exactly when neither exit is taken and the true distance does |
| `EditDistance.SixIsReached` | crates/itaruby_semantic/src/check.rs:5684-5716 | pairs such as "aabb" and "bbccaa" report 6 |
| `EditDistance.ClosestKey` | crates/itaruby_semantic/src/check.rs:5731-5766 | the answer is a least eligible candidate by distance then key, or none is eligible |
| `EditDistance.AnswerByCandidateSet` | crates/itaruby_semantic/src/check.rs:5731-5766 | the answer is the same for every order and repetition of the candidates |
| `FindDef.DefsWithin` | crates/itaruby_semantic/src/check.rs:5623-5668 | on well-nested spans every reachable `def` lies in its container |
| `FindDef.PrunedIsFirst` | crates/itaruby_semantic/src/check.rs:5623-5668 | the pruned search returns the first `def` of that span in document order |
| `FindDef.DefsReached` | crates/itaruby_semantic/src/check.rs:5623-5668 | the defs searched are exactly those reached through the containers the index walks, and through no other def |
| `FindDef.FailsIff` | crates/itaruby_semantic/src/check.rs:5623-5668 | it fails exactly when no reachable `def` has that span |
| `SorbetSig.SplitLoop` | crates/itaruby_semantic/src/sorbet_sig.rs:147-164 | the one-pass splitter yields the trimmed, non-empty pieces between depth-0 commas |
| `SorbetProofs.BlindIsCoreOnly` | crates/itaruby_semantic/src/sorbet_sig.rs:39-56 | on any text the index-blind type holds no instance or class type at any depth |
| `SorbetProofs.ResolvingRefines` | crates/itaruby_semantic/src/sorbet_sig.rs:70-126 | for any text and resolver the resolved type is contained in the index-blind one |
| `SorbetProofs.ResolveRetTyRefines` | crates/itaruby_semantic/src/sorbet_sig.rs:57-68 | the same for the public entry point |
| `SorbetProofs.MissAgrees` | crates/itaruby_semantic/src/sorbet_sig.rs:57-126 | a resolver that always misses gives the index-blind type |
| `SorbetRoundTrip.SplitPrinted` | crates/itaruby_semantic/src/sorbet_sig.rs:147-164 | splitting printed arguments gives back each argument, whatever commas they nest |
| `SorbetRoundTrip.RoundTrip` | crates/itaruby_semantic/src/sorbet_sig.rs:70-164 | printing any type term, with optional `::` and free spacing, and parsing it gives its denotation |
| `SorbetRoundTrip.ReadsMeaning` | crates/itaruby_semantic/src/sorbet_sig.rs:70-164 | the type read has exactly the values the term speaks of, name by name and form by form |
| `SorbetRoundTrip.HashNeedsTwo` | crates/itaruby_semantic/src/sorbet_sig.rs:113-120 | a `T::Hash` of other than two parts is read as unknown |
| `RbsPack.StepKeepsListed` | scripts/gen-rbs-collection-pack.rb:148-209 | after any line `order` is duplicate-free and lists exactly the keys of `entries` |
| `RbsPack.Pack.ParseText` | scripts/gen-rbs-collection-pack.rb:148-209 | the line loop over one text merges into the shared tables and keeps that |
| `RbsRoundTrip.OtherIsSkipped` | scripts/gen-rbs-collection-pack.rb:148-158 | a line whose first word is no keyword and not capitalised changes nothing |
| `RbsRoundTrip.OpenReads` | scripts/gen-rbs-collection-pack.rb:82-88 | a header line matches with its keyword and whole name; it is an alias exactly when `=` follows |
| `RbsRoundTrip.ValueReads` | scripts/gen-rbs-collection-pack.rb:90-99 | a constant line matches with its whole qualified name |
| `RbsRoundTrip.RoundTrip` | scripts/gen-rbs-collection-pack.rb:159-209 | parsing a rendered forest under any scope restores the stack and records exactly the qualified paths in document order |
| `RbsRoundTrip.FirstKindWins` | scripts/gen-rbs-collection-pack.rb:181-186 | each new path carries the kind of its first occurrence; old entries stay |
| `RbsRoundTrip.OrderOfFirsts` | scripts/gen-rbs-collection-pack.rb:181-186 | new paths are listed by first occurrence |
| `RbsRoundTrip.ParsedFile` | scripts/gen-rbs-collection-pack.rb:159-209 | one rendered file: stack empty, tables consistent, keys exactly the old ones and the declared ones |
| `Judge.MinBy` | scripts/bug-replay/judge.rb:100-102 | the scan picks what `min_by` picks |
| `Judge.PickLeast` | scripts/bug-replay/judge.rb:100-102 | the pick is the first index of least line gap among equal keys |
| `Judge.PairFile` | scripts/bug-replay/judge.rb:96-110 | the pairing loop files each parent diagnostic in turn |
| `Judge.FiledReports` | scripts/bug-replay/judge.rb:88-113 | nothing is lost on either side; per key survivors are the minimum, silenced and new the surpluses; each pair was nearest against all later and left-over ones; line order is kept |
| `Judge.Judge` | scripts/bug-replay/judge.rb:115-146 | counts are sums of key-multiset sizes; each label holds exactly when a key surplus or overlap exists |
| `Judge.VerdictByKeys` | scripts/bug-replay/judge.rb:115-146 | moving or reordering diagnostics changes no count |
| `Mine.Dedupe` | scripts/bug-replay/mine.rb:289-308 | one record per key in order of first appearance; its sha and `also` are exactly the shas of the key, without repeats; it is the first non-merge record, else the first |
| `Mine.TakesOver` | scripts/bug-replay/mine.rb:300-303 | a non-merge replacing a merge stands for everything the merge stood for |
| `Mine.StaysKept` | scripts/bug-replay/mine.rb:304-306 | a later twin is folded into the kept record |
| `Mine.ChangePoint` | scripts/bug-replay/mine.rb:134-139 | prefix and suffix agree, do not overlap, and no other split leaves a shorter middle |
| `Mine.MiddlesDiffer` | scripts/bug-replay/mine.rb:137-140 | distinct lines always have distinct middles |
| `ParallelCheck.WorkerCount` | crates/itaruby/src/main.rs:550-557 | at least one worker and at most one per file |
| `ParallelCheck.AtMostJobs` | crates/itaruby/src/main.rs:474-475 | chunking by the rounded-up size makes at most `jobs` chunks |
| `ParallelCheck.FlattenChunks` | crates/itaruby/src/main.rs:475-500 | the chunks joined are the file list |
| `ParallelCheck.TurnsCount` | crates/itaruby/src/main.rs:484-500 | a worker advances one file a turn until its chunk is done, whatever the others do |
| `ParallelCheck.JoinedIsSequential` | crates/itaruby/src/main.rs:476-505 | for every worker count, a schedule finishes exactly when it gives each worker enough turns, and then the joined results are the sequential map in order |
| `ParallelCheck.JoinWorkers` | crates/itaruby/src/main.rs:501-505 | joining in spawn order, waiting for each worker, yields the sequential map from any state of the workers |
| `ParallelCheck.RunCheck` | crates/itaruby/src/main.rs:473-517 | exit flag, block count, printed text and dark lines are those of the sequential loop for every worker setting and every interleaving |
| `ParallelCheck.ReportMeans` | crates/itaruby/src/main.rs:505-530 | the check fails exactly when some file does, counts all blocks, and prints and records everything in file order |

## Left out

- Name, method and RBI resolution (`ProjectIndex`, `lookup_*`): an arbitrary oracle in `Project`; `Ancestors` takes
  resolved names as given.
- Prism parsing, salsa, the LSP server, `goto`, file discovery, rendering and exit codes.
- `FlowSound.Sound`: `Covered` leaves out loops over many passes, `rescue`, block and lambda writes, pattern matching
  and cast comments, because the code gives no guarantee there, and writes in skipped operands and `when` conditions,
  which `SkippedOperands` and `WhenConditions` take up.
- `FlowSound.SoundWhens`, `FlowSound.SoundCase`: conditions that write are `WhenConditions.WideningConditionsSound`.
- `WhenConditions.WideningConditionsSound`: sufficient, not necessary: which condition a run skips depends on the run,
  and a later clause may make good what an earlier one got wrong. `WhenConditions.SkippedConditionsSoundIff` is exact
  where the first condition is always met.
- `FlowSound.SoundOrWrite`: asks for a right side without writes; `SkippedOperands.OpAssignSoundIff` is exact for all.
- `Compat.Refute`: asks for wide hash keys, since for narrow ones a rejection can be false
  (`Compat.NarrowKeyRejectsInclusion`).
- `Compat.HashExactIffWideKey`: a wide key type is taken to hold no narrow-keyed hash itself; with one inside, whether
  some inclusion is rejected depends on how many values the types inside it have.
- `Accusations.BadArgumentIsReal`: for the same reason speaks of argument types whose hash keys are wide.
- Call results in `FlowSound` are taken to lie in the type the call site is given (`Honest`), since the core return
  table is not a sound fact about Ruby; nesting is taken to stay below the depth-200 cut-off, which skips updates.
- Projects that reopen core classes, so that `is_a?` on a core class would answer differently.
- `Walker.Checker.InferExpr`: the walker's fields are grouped into records; `case`, loops, `rescue`, collection
  literals and `super` are forms that walk their parts in order and have a type given with the node.
- `Bridge.Bridged`: the forms shared with the flow analysis leave out collection literals, `case` and blocks; the
  answers of calls are those the context gives (`Honest`, where soundness is claimed).
- `Runs.CheckFile`: diagnostics come in the order they are raised; the final sort of the source is not modelled, and
  the order in which the bindings of one body are flushed is left open, as in the source.
- `Runs.WalksLeaveBindings`: a project whose classes are all listed in `classMethods`; which walk a given call opens
  depends on the memo.
- `Walker.Checker.WalkClassIvars`: the dark-singleton census is claimed untouched only outside a dark walk, as the
  source does not clear the flag there.
- `Walker.Checker.Dispatch`: E0105, E0106 and E0108 are not emitted; E0101 to E0104 and E0107 are. Which origin, cause
  or ancestry reason a count is given is not constrained beyond the sums.
- Independence of memoised return types from entry order: cycles fall back at whichever method was entered first.
- `Constraints.OnlyCallsSinceRebinding`: straight-line code; branches collect in walk order.
- `SorbetSig.SplitLoop`: the depth counter is unbounded, the source's is an `i32`.
- `EditDistance.ClosestKey`: covers `closest_name` as the case where every key is its own spelling.
- `RbsRoundTrip.RoundTrip`: names are well-formed paths of identifiers; texts the patterns accept beyond that (a stray
  `:` inside a class name) are covered only by `RbsPack.StepKeepsListed`. Choosing versions and writing the result
  are not modelled.
- `Judge.PairFile`: `sort_by` line is not modelled, since Ruby leaves ties open; the results hold for every order of the
  parent diagnostics. Reading diagnostics, `line_match` and `class_match` are not modelled.
- `Mine.Dedupe`: the hunk key is a given string. The classification of a change point as rename or argument change is a
  list of regular expressions and is not modelled.
- `ParallelCheck.RunCheck`: `check` is a pure function of the file; a panicking worker is not modelled.
- Core inventories, gem allowlists, harvest scripts, benches and fixtures: data.
