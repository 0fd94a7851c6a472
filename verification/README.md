# Verified core of dae

This project models the decision-making core of dae, a transparent proxy, and
proves what that core promises. It covers the routing compiler with its bytecode
interpreter, the domain registry with its bounded kernel projection and its
reloads, the plan that keeps or repeats a kernel decision, the UDP scheduler, the
key locker, device-route epochs and the UDP checksum.

`dafny verify dfyconfig.toml` checks all of it. `Common` holds the few definitions
that several parts use.

## The routing compiler and its interpreter

A policy is a list of rules and of `use` references to shared rule sets, each
under a condition. The compiler emits match instructions into one pool, shares
fragments, and describes each policy as a list of spans over that pool.

- `RoutingInstructions`, `RoutingSpans`, `RoutingMachine`: instructions, spans and
  the meaning of a flattened program, one instruction at a time.
- `RoutingCursor`, `RoutingMatcher`: the interpreter as the source runs it, a loop
  over spans, proved equal to that meaning.
- `RoutingRules`: the reference. A policy is a flat list of rules in which every
  `use` is replaced by what it reaches, with its condition ANDed, three-valued,
  into each rule. There are no jumps, spans or positions in it.
- `RoutingMeaning`, `RoutingDecisions`, `RoutingWritten`: what a policy decides, told
  from the flow and from the rules as they are written: when a condition holds or
  may hold, which route stops a flow, what forces `must`, asks for a bump or
  captures. Compiled profiles are proved to decide exactly that, so nothing rests
  on the functions that the compiler, the interpreter and the reference share.
- `RoutingJumps`, `RoutingEmission`, `RoutingSimulation`: linking of jumps in
  place, and the proof that linked code decides as the reference does.
- `RoutingBlocks`, `RoutingScopes`, `RoutingShapes`, `RoutingStages`: the block
  validator, why one position replaces a stack of scopes, and why skipping the
  ingress phase is deleting its spans.
- `RoutingPolicies`, `RoutingFragments`, `RoutingBuilder`, `RoutingCompiler`,
  `RoutingProfiles`, `RoutingFinish`, `RoutingGraph`, `RoutingCompilation`,
  `RoutingKernelTable`: the compiler itself, from reference validation to the
  kernel's step table.
- `RoutingDemand`, `RoutingAcceptance`: what a configuration asks for before
  anything is compiled: whether it is well-formed, and how many match sets and
  rule-set variants it takes. Everything that the compiler shares is counted once:
  a variant, however many policies use it, equal fallbacks, and the flow end. The
  compiler is proved to take exactly that much, so a configuration is accepted if
  and only if it is well-formed and fits. Only the exact destination predicates,
  which lie behind the kernel pool, are counted without sharing, and the
  equivalence is stated for configurations in which they fit when counted so.
- `RoutingWellFormed`: which configurations are well-formed, statement by statement
  along every chain of references.
- `RoutingAmbiguity`, `RoutingTheorems`: what compiled profiles guarantee.

Predicates other than domain predicates are facts about the flow. A domain
predicate reads two bitmaps: `routing` is the AND over the names behind an address
(or the bitmap of one exact name), `bump` the OR. Kernel evaluation is the same
interpreter with `kernel` set.

## The domain registry

- `DomainView`, `DomainEvidence`: evidence as a map from name-address pairs to
  deadlines, its folds, priorities and ranking, and each operation as a function.
- `DomainAccount`: what every pair lives on. Deadlines it had, activity that named
  it and responses that contained it each claim it until their own time; an
  operation leaves exactly the pairs that something claims, until the latest claim.
- `DomainIndex`: the two lookup directions over shared pair objects, cached folds
  and the lazy collection bound.
- `DomainProjection`: desired, resident and pending kernel entries. Every write
  may fail: an operation takes the set of addresses, and the set of batches, whose
  writes fail while it runs.
- `DomainSelection`, `DomainSync`, `DomainDrift`: choosing the kernel entries
  incrementally, against choosing anew.
- `DomainRegistry`, `DomainReload`: the registry's operations, and reloads over
  whole runs.
- `DomainRun`, `DomainScenario`: runs of registry objects from an empty one,
  through any deliveries, activity, flushes, sweeps, retries and reloads with any
  writes failing, and one run that loses the best choice.

Times are integers; zero is the unset time, and `now` is a parameter. Names of an
address record are kept by name instead of by record pointer.

## Results that differ from the obvious claim

- The choice of kernel entries is not always the best one, even if no removal ever
  fails. A failed update gives an address a retry time; if the address then loses
  its place, its removal inherits that time and is put off, so the address stays
  installed without being chosen. Renewing it gives no notice.
  `DomainScenario.UnnoticedRenewal` drives an empty registry there in four
  deliveries. `DomainDrift.NoticesSufficeIffSettled` is the exact condition: every
  resident candidate is chosen. `DomainSync.SettledIff` says when a publication
  leaves that condition true, and `DomainRun.Serve` that the choice is the best
  one after every run in which no removal failed or was put off since the last
  accepted reload.
- A reload is not invisible. The successor collects at its own time, so it can
  drop pairs that an untouched registry still holds. `DomainReload.ReloadCollects`
  is a run from an empty registry in which an accepted reload drops a pair and a
  rejected one keeps it, `DomainReload.ReloadKeepsEvidenceIff` the exact condition,
  and `DomainReload.ReloadsAreTransparent` proves that over any run a reload is
  exactly a sweep.
- A device-route change whose restoring swap fails leaves the gate published, and
  one whose callback succeeds without committing moves the devices and leaves the
  gate up; `DeviceRoutes.DeviceRoutes.Change` states which table remains in each
  case. `DeviceRoutes.Run` gives the exact condition over any run for the table to
  agree with userspace: the last change that left one of its own tables published
  succeeded with a commit, or concerned no device.
- The checksum of sufficiently long data is not its one's complement sum, because
  the 32-bit sum can wrap; no packet is that long. It cannot wrap up to 131074
  bytes. `UdpChecksum.OnesWrap` shows that the value is lost on 131075 bytes of all
  ones, and `UdpChecksum.WrapKeepsValueIff` is the exact condition for a sum to
  keep its value.

## Model

| member | source | states |
|---|---|---|
| RoutingSpans.AppendSpanFlattens | control/routing_profile.go:42-51 | appending a span, merged into its predecessor or not, appends exactly its instructions to the execution order |
| RoutingSpans.FlattenLength | control/routing_profile.go:53-59 | the execution length is the number of instructions executed in order |
| RoutingCursor.FlattenAt | control/routing_cursor.go:7-11 | the instruction at offset k of a span is the one at that execution position of the flattened profile |
| RoutingCursor.Cursor.constructor | control/routing_cursor.go:13-17 | the cursor starts at position zero, on the first executable instruction or at the end |
| RoutingCursor.Cursor.Seek | control/routing_cursor.go:24-37 | the scan stops at the span and instruction of the wanted position |
| RoutingCursor.Cursor.Advance | control/routing_cursor.go:19-39 | an advance succeeds exactly within the remaining length, moves by exactly the distance, and changes nothing otherwise |
| RoutingMachine.RunSkipsIngress | control/routing_matcher_userspace.go:176-179 | passing over ingress instructions changes neither state nor outcome |
| RoutingMatcher.Act | control/routing_matcher_userspace.go:229-266 | the action of a rule whose clauses hold or may hold: must, bump, captures, flow end, predicate results and routes |
| RoutingMatcher.Execute | control/routing_matcher_userspace.go:188-228 | one instruction: clause value, negation, miss jumps, conditional jumps and the uncertainty position, as the machine takes it; RoutingMeaning.ClauseMeans and RoutingWritten.DecidesAsWritten say what that value and the whole decision are |
| RoutingMatcher.Turn | control/routing_matcher_userspace.go:174-276 | one turn of the loop keeps what the program is going to decide, or reports it |
| RoutingMatcher.Skip | control/routing_matcher_userspace.go:176-179 | skipping the rest of an ingress span keeps what the program is going to decide |
| RoutingMatcher.EvaluateSpans | control/routing_matcher_userspace.go:163-278 | the loop over spans decides exactly what the flattened program means, including every error; for a compiled profile that is what its policy says as written (RoutingWritten.DecidesAsWritten) |
| RoutingJumps.LinkOne | control/routing_instruction.go:119-142 | one backward step writes the distance to the rule end or to the clause tail, or rejects |
| RoutingJumps.EncodeRoutingJumps | control/routing_instruction.go:114-144 | linking in place succeeds exactly for encodable pools and writes every OR and AND distance |
| RoutingJumps.EncodeConcat | control/routing_instruction.go:111-113 | linking two rule sequences separately or together is the same |
| RoutingJumps.EncodeFlatten | control/routing_instruction.go:111-113 | distances stay right when fragments are shared, moved or repeated: splicing and linking commute |
| RoutingRules.ExecConcat | control/routing_matcher_userspace.go:163-278 | first-match evaluation of a list is that of its front, then of its rest |
| RoutingRules.AllOfConcat | config/config.go:180-181 | a condition ANDed in front of a rule takes the three-valued minimum |
| RoutingMeaning.ClauseMeans | control/routing_matcher_userspace.go:188-207 | a plain clause matches exactly if one of its tests holds and misses exactly if none can; a negated one the other way round; tests are read off the facts and bitmaps of the flow |
| RoutingMeaning.RuleMeans | control/routing_matcher_userspace.go:205-217 | a rule matches exactly if all its clauses surely hold, and misses exactly if one of them cannot |
| RoutingMeaning.DefiniteMeans | control/routing_matcher_userspace.go:188-217 | for one exact name a rule matches exactly if every clause is negated or has a test that holds, and not both; nothing is left open |
| RoutingEmission.EncodeNodes | control/routing_instruction.go:94-144 | linking emitted rules and conditional blocks gives exactly the intended jump distances |
| RoutingEmission.EmptyEmission | control/routing_conditional.go:16-21 | a block emits nothing exactly when no rule is reached through it |
| RoutingSimulation.RunTests | control/routing_matcher_userspace.go:188-203 | a clause's tests, with jumps on a hit, arrive at its tail with their three-valued OR |
| RoutingSimulation.RunClauses | control/routing_matcher_userspace.go:188-217 | a rule's clauses arrive at its tail with their three-valued AND, or leave the rule on a miss |
| RoutingSimulation.PerformIsApply | control/routing_matcher_userspace.go:229-266 | every tail action is the reference effect |
| RoutingSimulation.RunNodes | control/routing_conditional.go:15-37 | code of nested conditional blocks decides as the rules reached through them with all conditions ANDed in |
| RoutingSimulation.RunProgram | control/routing_matcher_userspace.go:163-278 | a whole program of phases decides what first match over its inlined rules decides |
| RoutingBlocks.CloseScopes | control/routing_conditional.go:56-61 | scopes that end here are closed, unless one ends inside a rule |
| RoutingBlocks.CheckPosition | control/routing_conditional.go:56-78 | one position of the scan extends the validated prefix or finds a violation |
| RoutingBlocks.ValidateRoutingBlocks | control/routing_conditional.go:44-84 | the scan accepts exactly the programs whose jumps fit and whose conditional blocks are nested or disjoint, in one phase and between rules |
| RoutingScopes.BoundaryIsStack | control/routing_conditional.go:44-45 | a position lies before the uncertainty position exactly when some enclosing scope was entered with an unknown condition |
| RoutingScopes.OnePositionSuffices | control/routing_matcher_userspace.go:219-228 | for every accepted program the single position decides as a full stack of scopes does |
| RoutingStages.FlattenWithoutIngress | control/routing_profile.go:24-28 | deleting ingress spans deletes exactly the ingress instructions |
| RoutingStages.StageSkipIsSpanFilter | control/routing_matcher_userspace.go:176-179 | after target selection, evaluation equals evaluation without ingress spans, although jumps keep unfiltered coordinates |
| RoutingAmbiguity.AllOfApproximates | control/routing_predicate.go:58-72 | a definite folded value of a condition is its value for every folded name |
| RoutingAmbiguity.ExecApproximates | control/routing_matcher_userspace.go:189-266 | for programs that settle `must` before routing, a definite folded decision is the decision of every folded name |
| RoutingFragments.AppendBlock | control/routing_profile_compiler.go:36-45 | a block is appended span by span if the execution length fits |
| RoutingFragments.AppendMeans | control/routing_profile_compiler.go:24-45 | appending blocks appends the rules they stand for |
| RoutingBuilder.Builder.AddMatches | control/routing_instruction.go:94-109 | a clause's values become OR instructions and one tail |
| RoutingBuilder.Builder.ApplyPredicate | control/routing_flow_compiler.go:107-117 | a filter emits its clauses with the given tail, and fails exactly for an empty clause or filter |
| RoutingBuilder.Builder.ConditionalBlock | control/routing_conditional.go:15-37 | the result means the body under the condition; an empty condition or body adds nothing |
| RoutingBuilder.Builder.EnterBlock | control/routing_conditional.go:22-36 | the entry jumps over exactly the shared body |
| RoutingBuilder.Builder.AddFallback | control/routing_matcher_builder.go:302-315 | the returned span means that fallback and is recorded for it; an equal fallback returns the recorded span and emits nothing, a new one emits exactly one match set; it is refused exactly for an undefined outbound, a target that may not be a fallback, or a full pool that holds no equal one |
| RoutingCompiler.AppendBlocks | control/routing_flow_compiler.go:28-37 | appending two resolved blocks means one followed by the other, in each program |
| RoutingCompiler.Compiler.EmitBatch | control/routing_profile_compiler.go:243-254 | a batch emits exactly the rules of its program, in order; RoutingWritten.ResolvedAsWritten and RoutingWritten.ControlsRun say what those rules do |
| RoutingCompiler.Compiler.CompileBatch | control/routing_flow_compiler.go:138-159 | a batch of rules means its captures, controls and destinations, or its routes, and takes exactly the match sets they ask for; it is refused only if they are malformed or do not fit |
| RoutingCompiler.Compiler.CompileParts | control/routing_flow_compiler.go:138-159 | captures and controls of a batch become two span lists, one per phase; both are emitted if and only if every rule is accepted and the pool has room |
| RoutingCompiler.Compiler.EmitBlock | control/routing_profile_compiler.go:243-254 | the rules of one phase become one span list of exactly their match sets, if and only if each of them is accepted |
| RoutingCompiler.Compiler.Condition | control/routing_flow_compiler.go:204-224 | a conditioned block means the block under the condition in each phase, with the condition in front of every destination filter; it takes exactly the entry tests of the phases that have a body, and is refused only for an ill-formed condition or a block that becomes too long |
| RoutingCompiler.Compiler.ResolveRuleSet | control/routing_rule_set_compiler.go:23-50 | a memoized or fresh block means the rule set with every reference resolved, under the condition; it takes exactly the variants not compiled before and their match sets, and a defined, well-formed use that fits is accepted |
| RoutingCompiler.Compiler.ResolveStatements | control/routing_rule_set_compiler.go:52-93 | the compiled block means the statement list with every reference resolved; it takes exactly its own rules and the variants not compiled before, and is refused only if it is malformed or does not fit |
| RoutingCompiler.Compiler.ResolveStatement | control/routing_rule_set_compiler.go:73-89 | one statement extends the pending batch, or closes it and appends what the use refers to |
| RoutingCompiler.Compiler.ResolveUse | control/routing_rule_set_compiler.go:77-87 | a use contributes the pending batch followed by the referenced rule set under its condition |
| RoutingCompiler.Compiler.Flush | control/routing_rule_set_compiler.go:61-72 | the pending batch is appended in order |
| RoutingProfiles.ProfileCompiler.CompileHttpCapture | control/routing_flow_compiler.go:83-105 | HTTP captures form one block behind client admission |
| RoutingProfiles.ProfileCompiler.CompileBypass | control/routing_flow_compiler.go:47-57 | bypass routes are laid out with the bypass mark on every route |
| RoutingProfiles.ProfileCompiler.CompileShared | control/routing_flow_compiler.go:46-81 | all shared programs are laid out in their phases |
| RoutingProfiles.ProfileCompiler.CompileSharedDestinations | control/routing_flow_compiler.go:119-136 | shared destination rules are laid out as captures |
| RoutingProfiles.ProfileCompiler.CompileRouteBatch | control/routing_profile_compiler.go:243-254 | early and late plugin routes are laid out as routes |
| RoutingProfiles.ProfileCompiler.AppendFlowEnd | control/routing_profile_compiler.go:165-174 | a flow end follows controls and HTTP captures exactly when there are any |
| RoutingProfiles.ProfileCompiler.EnsureFlowEnd | control/routing_profile_compiler.go:166-170 | the flow end is emitted once: if it is there, it is kept and nothing is emitted |
| RoutingProfiles.ProfileCompiler.SplicePolicy | control/routing_profile_compiler.go:153-190 | the spliced spans execute the policy's program in order within the length limit |
| RoutingProfiles.ProfileCompiler.AddProfile | control/routing_profile_compiler.go:137-194 | the recorded profile executes its policy's program and keeps its destination rules in order; the pool grows by exactly the policy's rules, new variants, and a fallback and a flow end where there was none, and a well-formed policy that fits is accepted |
| RoutingFinish.AddDestinationPredicates | control/routing_capture.go:100-117 | each exact predicate's code is its filter followed by an unconditional miss |
| RoutingFinish.CompileDestinations | control/routing_flow_compiler.go:184-198 | a profile's predicates follow its destination rules in order; what is compiled is kept, and fragments compiled before emit nothing |
| RoutingFinish.CompileFragment | control/routing_flow_compiler.go:186-193 | a fragment compiles unless it is known, and a known one appends nothing |
| RoutingFinish.LinkedProfile | control/routing_flow_compiler.go:176-202 | one linking pass over the whole pool gives every profile its linked program |
| RoutingFinish.Finish | control/routing_flow_compiler.go:178-202 | the finished matcher holds a compiled profile for every policy, and exactly the pool before the exact predicates goes to the kernel; it exists only if both parts fit, and always if they fit without sharing |
| RoutingFinish.CompiledNests | control/routing_conditional.go:44-84 | every compiled profile has nested blocks and jumps that stay in their phase |
| RoutingFinish.ValidateProfiles | control/routing_matcher_builder.go:71-100 | validation never rejects a compiled profile |
| RoutingShapes.ProgramWellNested | control/routing_conditional.go:44-84 | linked programs satisfy the block rules by construction |
| RoutingGraph.Resolve | config/routing_parser.go:337-369 | the memoized search returns the exact depth, or a block that is undefined, cyclic or too deep is reachable from its start |
| RoutingGraph.Validate | config/routing_parser.go:333-383 | validation succeeds exactly when no chain from any block repeats a set, refers to an undefined one or has more than 64 blocks, and then references go down in depth |
| RoutingGraph.RepeatsGrow | config/routing_parser.go:349-351 | a chain that repeats a set extends to chains of every length |
| RoutingCompilation.CompileRouting | control/routing_profile_compiler.go:65-92 | the reference graph is accepted exactly if it is sound; then a successful compilation gives every selected policy a profile that always decides, and decides exactly what the policy says as written; a configuration compiles only if it is well-formed statement by statement and fits every limit with all sharing counted, and, if its exact destination predicates fit counted one by one, it compiles exactly then; the kernel gets exactly the counted match sets |
| RoutingCompilation.CheckPolicy | control/routing_profile_compiler.go:118-131 | a policy that nothing selects is compiled alone: it passes only if it is well-formed and fits with all sharing counted, and exactly then if its exact predicates fit |
| RoutingCompilation.CheckSet | control/routing_profile_compiler.go:256-287 | a rule set passes alone if and only if it is well-formed, its program is short enough, and its variants and their match sets fit |
| RoutingCompilation.CheckSets | control/routing_profile_compiler.go:256-287 | the rule sets pass if and only if each was reached by a selected policy or is acceptable by itself |
| RoutingCompilation.SaneDestinations | control/routing_capture.go:100-117 | destination filters of well-formed statements are well-formed, so finishing never finds an empty one |
| RoutingWellFormed.StatementsIff | control/routing_rule_set_compiler.go:52-93 | statements are acceptable if and only if every statement reached along any chain of references is: no empty filter or clause, routes to defined outbounds in route sets and other actions in flow sets, no undefined set, no connectivity check of a built-in outbound |
| RoutingWellFormed.AcceptableIff | control/routing_profile_compiler.go:65-92 | what the compiler accepts is what is well-formed in that sense, with fallbacks that may be one, and within the limits |
| RoutingDemand.VariantsBelow | control/routing_rule_set_compiler.go:23-50 | the rule-set variants a statement list asks for lie below it in the reference graph |
| RoutingDemand.EmittedLength | control/routing_conditional.go:15-37 | nested conditional rules emit one instruction per test of each rule and per test of the condition of each block that is not empty |
| RoutingDemand.CostMore | control/routing_rule_set_compiler.go:23-50 | variants asked for again cost nothing: two sets of variants cost the first and what the second adds |
| RoutingDemand.MetBoth | control/routing_rule_set_compiler.go:52-93 | taking exactly one demand and then exactly another takes exactly both, what they share counted once |
| RoutingDemand.MetAfresh | control/routing_rule_set_compiler.go:23-50 | a fresh variant takes its own match sets once and joins those that cost nothing from then on |
| RoutingAcceptance.TakenIsPool | control/routing_profile_compiler.go:137-194 | what policies take one after the other is what they take together with everything shared counted once |
| RoutingAcceptance.AcceptableFirst | control/routing_profile_compiler.go:65-92 | if all policies are acceptable, so are the first ones, so none fails on the way |
| RoutingAcceptance.TalliedIff | control/routing_profile_compiler.go:65-92 | a compiler that holds the profiles of the policies has a pool of exactly the counted size, within the limit if and only if the policies are acceptable |
| RoutingKernelTable.EncodeProfile | control/routing_matcher_kernspace.go:68-74 | the step table is the execution order as indices inside the kernel pool |
| RoutingKernelTable.EncodeRoutingProfiles | control/routing_matcher_kernspace.go:63-77 | every profile's table has its execution length, fits, and runs the same instructions |
| RoutingTheorems.CompilerCorrect | control/routing_matcher_userspace.go:163-278 | evaluating a compiled profile is first-match evaluation of its policy with every use inlined |
| RoutingTheorems.CompiledScopes | control/routing_matcher_userspace.go:219-228 | compiled profiles evaluate as with a stack of scopes |
| RoutingTheorems.CompiledStages | control/routing_matcher_userspace.go:176-179 | after target selection compiled profiles evaluate as without ingress spans |
| RoutingTheorems.CompiledDecides | control/routing_matcher_builder.go:294-315 | a compiled profile reports a decision exactly for valid addresses, never a missing match or a bad jump |
| RoutingTheorems.NeverLost | control/routing_conditional.go:44-84 | no evaluation of a program that the validator accepts ever jumps out of it |
| RoutingDecisions.DecreedOnce | control/routing_matcher_userspace.go:163-278 | the rules as written determine one decision for every flow |
| RoutingWritten.ResolvedAsWritten | control/routing_rule_set_compiler.go:23-93 | each program of a statement list is made of its rules as written, each under the conditions of the uses on the way, in order |
| RoutingWritten.RoutesRun | control/routing_matcher_userspace.go:244-266 | of a list of routes the first that may hold and is not passed over decides: its outbound, mark, `must` and DNS capture if it surely holds, a hand-over otherwise |
| RoutingWritten.ControlsRun | config/rules.go:39-50 | controls never decide; `must` is forced exactly if a must rule surely holds, open exactly if one only may hold, and a bump is asked exactly if a bump rule may hold |
| RoutingWritten.CapturesRun | control/routing_matcher_userspace.go:238-243 | captures of one kind act together: if one of them may hold its flags are set, and a kernel hands over for destinations and HTTP requests |
| RoutingWritten.DecidesAsWritten | control/routing_matcher_userspace.go:163-278 | a compiled profile gives a decision if and only if it is the one its policy says as written: bypass routes, rewriting and HTTP requests, controls and HTTP captures, then the first route |
| RoutingWritten.FirstRouteTaken | control/routing_matcher_userspace.go:188-266 | matched by one name in userspace, a flow goes where the first route whose clauses hold sends it, with that route's mark, and with `must` exactly if the route or a must rule that holds says so |
| RoutingWritten.MustFollows | control/routing_flow_compiler.go:138-159 | whatever route of the policy decides a flow, `must` is exactly what the route or a must rule that surely holds says, and neither an open must rule nor, in a kernel, a bump rule was passed |
| RoutingWritten.BumpHandsOver | control/routing_flow_compiler.go:138-159 | a bump rule that may hold keeps a kernel from deciding by the routes |
| RoutingTheorems.PolicyClosed | control/routing_profile_compiler.go:165-174 | every policy's program settles `must` before it routes |
| RoutingTheorems.CompiledApproximates | control/routing_matcher_userspace.go:189-266 | a definite decision under an address's folded bitmaps is that of every name folded into it, with no more captures |
| RoutingTheorems.ResolvedCaptures | control/routing_flow_compiler.go:204-224 | the generated captures test exactly the filters of the exact destination rules |
| RoutingTheorems.ExactDecides | control/routing_capture.go:100-117 | an exact predicate matches exactly when its rule's filter holds |
| RoutingWritten.DestinationsAsWritten | control/routing_flow_compiler.go:138-159 | the exact destination rules of a policy are its dnat rules in the order they are written, each under the conditions of its uses |
| RoutingTheorems.NoMissedDestination | control/routing_matcher_userspace.go:238-243 | if an exact predicate matches some folded name, the kernel ends in a bypass rule or hands over with the destination flag |
| RoutingTheorems.MatchDestination | control/destination_matcher.go:42-87 | the first destination rule that may hold rewrites the flow, to one of its addresses and to its port or the old one; without a name, rules with a domain test are passed over; an unknown profile is an error and profile zero is the default |
| DomainView.RenewedPriority | control/domain_registry.go:130-141 | a later deadline raises an address's priority exactly if the name matters to a rule and the deadline exceeds it |
| DomainView.PriorityMeans | control/domain_projection.go:77-92 | the priority of an address is the latest deadline of a name that some rule mentions, and zero without one |
| DomainView.TopIsUnique | control/domain_projection.go:126-137 | there is one best choice of candidates by priority and address |
| DomainView.ExactIsUnique | control/domain_projection.go:117-150 | so there is one exact choice of kernel entries |
| DomainEvidence.DrainedStep | control/domain_activity.go:124-138 | applying a batch event by event, in any order, extends each pair to its latest event |
| DomainAccount.ExtendedIsLatest | control/domain_activity.go:140-161 | activity leaves a pair at the latest of its deadline and the window after every event of its address that names it or no name |
| DomainAccount.ObservedIsMerged | control/domain_registry.go:98-126 | responses leave a pair at the latest of what was known, the lifetime of every observation of it and the window; an observation is dropped exactly if both have passed |
| DomainAccount.ObserveExplained | control/domain_registry.go:88-128 | after a response a pair is known if and only if something claims it, until the latest claim: old deadline and activity if one of them reaches beyond the cutoff, and observations that still count; a name that stays known keeps its bitmap, a new one has that of the first observation that counts |
| DomainAccount.ForkInherits | control/domain_registry_lifecycle.go:120-169 | a successor knows exactly the pairs that a sweep at its time would leave, with their deadlines, and every name has the bitmap of the new matcher |
| DomainIndex.DomainIndex.Extend | control/domain_registry.go:130-141 | the shared pair moves to the later deadline, and a rise is reported exactly when the address's priority rose |
| DomainIndex.DomainIndex.Pair | control/domain_registry.go:103-124 | a known pair is extended, a new one joins both directions; a known name keeps its bitmap |
| DomainIndex.DomainIndex.AddPair | control/domain_registry.go:143-151 | both directions gain the same fresh pair object |
| DomainIndex.DomainIndex.RemovePair | control/domain_registry.go:153-160 | both directions lose the pair, and an address without names goes |
| DomainIndex.DomainIndex.Touch | control/domain_activity.go:140-161 | activity extends exactly the pairs it concerns and never creates evidence |
| DomainIndex.DomainIndex.Rebuild | control/domain_projection.go:77-92 | the cached bitmaps and priority become the fold of the address's names |
| DomainIndex.DomainIndex.CollectName | control/domain_registry.go:216-232 | all due pairs of a name go, the rest enter the bound, and a name without pairs is forgotten |
| DomainIndex.DomainIndex.Gc | control/domain_registry.go:206-235 | collection, with its early exit, removes exactly the pairs due at the cutoff and reports their addresses |
| DomainIndex.DomainIndex.Install | control/domain_registry_lifecycle.go:107-115 | the copy holds fresh pairs with all deadlines, under the new matcher's bitmaps |
| DomainProjection.QueueIsBounded | control/domain_projection.go:40-44 | the queue never exceeds twice the capacity |
| DomainProjection.Projection.Want | control/domain_projection.go:158-177 | the choice changes at one address, differences stay queued, and a request keeps its retry time |
| DomainProjection.Projection.Attempt | control/domain_projection.go:187-220 | one request is skipped, put off for a second, or written, within capacity |
| DomainProjection.Projection.Pass | control/domain_projection.go:183-222 | one pass over the queue takes up exactly the due requests of its direction |
| DomainProjection.RoomToFill | control/domain_projection.go:193-196 | once superfluous entries are gone, the capacity guard never blocks |
| DomainProjection.CrowdedIsComplete | control/domain_projection.go:187-220 | after a publication a chosen entry whose request was due and did not fail is missing only if the map is full |
| DomainProjection.Projection.PublishBatch | control/domain_projection.go:227-261 | each entry is confirmed exactly as chosen or left alone; batches are written until one is refused or nothing that could be written is left, and they account for all that left the queue |
| DomainProjection.Projection.Publish | control/domain_projection.go:182-226 | capacity and queueing hold under any failures; exactly the failed and not yet due requests remain, with their retry times, and of the others only missing entries of a full map; without failures and deferrals the kernel holds the choice |
| DomainSelection.SortOrdered | control/domain_projection.go:126-133 | sorting puts candidates in strict rank order |
| DomainSelection.SelectTop | control/domain_projection.go:119-137 | the selection is the best candidates, as many as fit |
| DomainSync.Patch | control/domain_projection.go:105-115 | the fast path enters or drops exactly the changed addresses |
| DomainSync.Reselect | control/domain_projection.go:117-150 | the slow path gives the best candidates with current folds |
| DomainSync.SyncProjection | control/domain_projection.go:97-156 | by either path the choice stays exact if it was exact and every resident candidate was chosen, and becomes exact whenever the slow path is taken, which too many changes or a notice force; what is published is stated address by address |
| DomainSync.CleanSettles | control/domain_projection.go:182-226 | a publication in which no removal failed or was put off leaves nothing unchosen installed |
| DomainSync.SettledIff | control/domain_projection.go:182-226 | after any publication, every resident candidate is chosen if and only if no removal of a candidate failed or was put off |
| DomainDrift.FastIsExact | control/domain_projection.go:105-115 | without notice and with room for all changes, patching the old choice is choosing anew |
| DomainDrift.NoticesSufficeIffSettled | control/domain_registry.go:111-115 | renewals without notice keep the choice exact if and only if every resident candidate is chosen |
| DomainRegistry.Activity.Enqueue | control/domain_activity.go:69-90 | the queue keeps the latest time per key: an entry only ever moves forward, to the time of the event; nothing is kept after terminal closure |
| DomainRegistry.DomainRegistry.constructor | control/domain_registry.go:61-69 | a registry starts empty, owns its queue, and its choice is exact and settled |
| DomainRegistry.DomainRegistry.Clock | control/domain_registry.go:71-76 | the clock never goes back |
| DomainRegistry.DomainRegistry.ApplyActivity | control/domain_activity.go:124-138 | a batch extends pairs to their latest event and gives notice of every rise of an address that is not resident |
| DomainRegistry.DomainRegistry.DrainActivity | control/domain_activity.go:112-122 | only the owner takes the queue, and takes all of it |
| DomainRegistry.DomainRegistry.FlushActivity | control/domain_activity.go:100-107 | a flush applies the queue and collects by the clock, leaving exactly the pairs that something claims; all consistency is kept |
| DomainRegistry.DomainRegistry.Sweep | control/domain_registry.go:237-246 | a sweep applies the queue, advances the clock and collects, leaving exactly the pairs that something claims |
| DomainRegistry.DomainRegistry.Record | control/domain_registry.go:98-126 | observations add or extend pairs until their lifetime or the window, whichever is later (DomainAccount.ObservedIsMerged), and are dropped when both have passed |
| DomainRegistry.DomainRegistry.ObserveDNS | control/domain_registry.go:88-128 | a response is recorded after the queue and collection: exactly the pairs that something claims are known, each until its latest claim, the response's own lifetime among them; the projection follows, and renewals of installed addresses alone change nothing in the choice |
| DomainRegistry.DomainRegistry.RetryProjection | control/domain_projection.go:276-282 | a retry publishes what is due, with the same account of what remains as any publication; a closed registry does nothing |
| DomainRegistry.DomainRegistry.Verify | control/domain_registry.go:183-204 | registration, pairing and kernel coverage of a name at an address, both ways |
| DomainRegistry.DomainRegistry.RebuildProjection | control/domain_projection.go:263-274 | a fresh registry publishes the best candidates, completely if nothing fails |
| DomainRegistry.DomainRegistry.ForkFrom | control/domain_registry_lifecycle.go:120-169 | a successor starts from the flushed evidence and the queued activity, knowing exactly what a sweep would leave, with an exact choice, completely installed, and takes the queue over; it fails only if a write fails, and then the predecessor keeps queue and evidence |
| DomainRegistry.DomainRegistry.Close | control/domain_registry_lifecycle.go:71-93 | the owner applies a last batch, collects and publishes, and nobody owns the queue; closing a predecessor leaves its successor's queue alone, and closing twice changes nothing |
| DomainReload.DrainAlike | control/domain_registry_lifecycle.go:146-155 | activity seen again by a successor has no further effect |
| DomainReload.ReloadsAreTransparent | control/runtime.go:31-42 | over any run of deliveries, activity, flushes, sweeps and accepted or rejected reloads, the owner holds the pairs and deadlines of one registry that sweeps where the owner reloads |
| DomainReload.ReloadKeepsEvidenceIff | control/domain_registry_lifecycle.go:156-158 | an accepted reload keeps all evidence if and only if nothing has come due by its time |
| DomainReload.ReloadCollects | control/domain_registry_lifecycle.go:156-158 | from an empty registry, a delivered pair survives a flush; the reload that follows drops it if it is accepted and keeps it if it is rejected |
| DomainRun.Advance | control/domain_registry.go:71-246 | one operation on the serving registry, or a reload to a new object: the evidence moves as the reference run does, and the choice stays exact and settled where the step allows it |
| DomainRun.Run | control/runtime.go:31-42 | after any sequence of operations and reloads the serving registry holds the evidence of the reference run, and every step between, with its effect and the states before and after, is one the operations allow |
| DomainRun.TrackKept | control/domain_projection.go:97-156 | over any such run the choice is the best one and settled if every publication since the last accepted reload was clean |
| DomainRun.ObeyedKept | control/domain_projection.go:182-226 | if every write of the run succeeds the choice is also installed |
| DomainRun.Serve | control/domain_projection.go:97-156 | the same from an empty registry: the choice is the best one as long as no removal failed or was put off; if every write succeeds it is also installed; and the pairs and deadlines are those of one registry that sweeps at each reload |
| DomainScenario.UnnoticedRenewal | control/domain_registry.go:111-115 | a run of four deliveries from an empty registry, each step with its effect as the operations allow it, after which the choice is not the best one although no removal ever failed |
| RoutePlan.PlanIsSafe | control/route_plan.go:43-73 | every action of a plan, the terminal shortcut and the override, each if and only if the facts say so: a captured flow to direct or block without a target is kept, a target is always routed, a captured flow is matched again by a verified name only, and a usable decision that nothing asks to repeat is kept |
| RoutePlan.SniffMeans | control/route.go:136-189 | when a sniffed name is trusted, mode by mode, and that a kernel decision is to be repeated exactly if there is a name that is not registered or was not covered |
| RoutePlan.OpenIffUndecided | control/route_plan.go:17-18 | a plan is left open if and only if unknown facts can still change what becomes of the flow; an early plan agrees with every outcome |
| RoutePlan.CoveredIsNameOf | control/domain_registry.go:188-196 | coverage means that the name is one of those the kernel's bitmaps stand for, also when nothing is installed |
| RoutePlan.KeptDecisionIsExact | control/route.go:142-155 | a definite uncaptured decision is kept under `while_needed` if there is no name or the kernel was covered; in the second case it is what matching by the name gives |
| UdpTaskPool.UdpTaskPool.Emit | control/udp_task_pool.go:71-123 | a packet is accepted exactly if no limit is reached, in the source's order of reasons; it joins the end of its source's queue, and a drop changes nothing |
| UdpTaskPool.UdpTaskPool.Append | control/udp_task_pool.go:102-113 | the packet joins the end of its source's queue; a new source joins the end of the ready list, and nobody else moves |
| UdpTaskPool.UdpTaskPool.Grow | control/udp_task_pool.go:114-119 | one waiting worker is added exactly if there are fewer than sources and than the bound |
| UdpTaskPool.UdpTaskPool.Take | control/udp_task_pool.go:145-156 | a worker takes the oldest packet of the first ready source, and the list moves up |
| UdpTaskPool.UdpTaskPool.Finish | control/udp_task_pool.go:160-172 | the packet is released; its source goes to the end of the list exactly if packets of it wait, and away otherwise, and nobody else moves |
| UdpTaskPool.UdpTaskPool.Exit | control/udp_task_pool.go:139-144 | a worker may return only when the pool is closed and nothing is ready |
| UdpTaskPool.UdpTaskPool.Exclusive | control/udp_task_pool.go:28-29 | packets of one source never execute concurrently |
| UdpTaskPool.UdpTaskPool.AllReleased | control/udp_task_pool.go:175-184 | without workers every accepted packet has been released, in its source's order |
| UdpTaskPool.TurnsTaken | control/udp_task_pool.go:125-173 | if the list only grows at its end and turns are only taken from its front, turns follow the list, and before its next turn a source has let all others pass |
| UdpTaskPool.Run | control/udp_task_pool.go:71-184 | every interleaving keeps order, ownership and limits, and releases every accepted packet once; sources that wait take their turns in the order of the list, and between two turns of one source every source that waited at the first has had a turn |
| KeyLocker.KeyLocker.Register | common/keylocker.go:17-29 | a goroutine shares the mapped locker or creates it, and it is new exactly if nobody used the key |
| KeyLocker.KeyLocker.Acquire | common/keylocker.go:31-32 | the lock passes to one waiter |
| KeyLocker.KeyLocker.Release | common/keylocker.go:35-36 | the lock is free while its releaser is still counted |
| KeyLocker.KeyLocker.Deregister | common/keylocker.go:38-43 | the entry disappears exactly with its last user |
| KeyLocker.KeyLocker.Exclusive | common/keylocker.go:17-44 | at most one goroutine holds a key |
| KeyLocker.KeyLocker.NoDeadlock | common/keylocker.go:17-44 | whoever uses a key, some user of that key can take its next step |
| KeyLocker.KeyLocker.NothingKept | common/keylocker.go:38-43 | without users the table is empty |
| KeyLocker.Run | common/keylocker.go:17-44 | every interleaving runs as with one lock per key, where a goroutine enters exactly if it waits and nobody is inside; at most one goroutine holds a key, all users of a key share one locker, and nothing is kept for unused keys |
| DeviceRoutes.BuildTable | control/route_change.go:57-80 | the replacement shows every device at its epoch, and the changed ones updating at theirs or one further |
| DeviceRoutes.DeviceRoutes.Acquire | control/route_change.go:38-52 | stale epochs are refused, exactly; a granted lease is live and belongs to the current epoch |
| DeviceRoutes.DeviceRoutes.Bump | control/route_change.go:112-116 | a device moves one epoch and its lease is aborted |
| DeviceRoutes.DeviceRoutes.Change | control/route_change.go:85-120 | a change moves exactly the affected devices in userspace and in the table, and aborts exactly their leases; a failure, before or after committing, moves nothing and restores the table unless the restoring swap fails; success without a commit leaves the gate up |
| DeviceRoutes.Run | control/route_change.go:38-120 | over every sequence of leases and changes epochs only grow, and every lease ever granted is aborted exactly when its device has moved on; the table agrees with userspace if and only if the last change that left one of its own tables published succeeded with a commit or concerned no device |
| DeviceRoutes.WrongTable | control/route_change.go:57-120 | a gate left up, or a table for epochs that userspace did not take, agrees with userspace if and only if it concerns no device |
| DeviceRoutes.OrderlyStaySynced | control/route_change.go:85-120 | a run without stuck or uncommitted changes keeps the table right |
| UdpChecksum.CarryKeepsValue | control/raw_udp_linux.go:285-287 | an end-around carry keeps the one's complement value |
| UdpChecksum.FoldMeans | control/raw_udp_linux.go:285-287 | the folded value is the sum modulo 65535, and zero only for the sum zero |
| UdpChecksum.SumByColumns | control/raw_udp_linux.go:277-284 | the sum counts bytes at even places 256 times and bytes at odd places once, an odd last byte included |
| UdpChecksum.CompletedIsAllOnes | control/raw_udp_linux.go:84-87 | a sum with its checksum is all ones, also after zero was replaced |
| UdpChecksum.InternetChecksum | control/raw_udp_linux.go:277-289 | the result is the complement of the folded 32-bit sum for any data; it is the complement of the exact folded sum if and only if that sum keeps its value in 32 bits, as any sum of at most 131074 bytes does |
| UdpChecksum.WrapKeepsValueIff | control/raw_udp_linux.go:277-289 | a sum cut to 32 bits keeps its one's complement value if and only if what it loses is a multiple of 65535 and it is not cut to zero |
| UdpChecksum.OnesWrap | control/raw_udp_linux.go:277-289 | 131075 bytes of all ones are data whose sum loses its value |
| UdpChecksum.HeadReads | control/raw_udp_linux.go:79-81 | ports and length are read back from the header in network byte order |
| UdpChecksum.PseudoReads | control/raw_udp_linux.go:68-89 | the pseudo-headers hold both addresses, zero bytes, protocol 17 and the length, each at its place |
| UdpChecksum.BuildUdpV4 | control/raw_udp_linux.go:68-89 | a packet is built exactly for IPv4 endpoints and payloads within the limit, and sums to all ones with its pseudo-header |
| UdpChecksum.BuildUdpV6 | control/raw_udp_linux.go:161-181 | the same for IPv6 |

## Left out

- The eBPF programs: kernel evaluation is the interpreter with the `kernel` input set.
- Rule optimizers, geodata, the domain matcher, prefix tries and the configuration parser: predicates and a name's bitmap are given.
- Unknown instruction types and actions: instructions are of the modelled kinds only.
- RoutingCompilation.CompileRouting: the kind of each rule set, inferred from its actions, is a parameter, and so are the selected policies; predicates of checked-only rules are not compiled into domain sets; that an acceptable configuration compiles is stated for those whose exact destination predicates fit when counted for every policy, because which policies share a destination fragment depends on pointers that are not modelled.
- RoutingTheorems.MatchDestination: the number that picks one of several addresses, a hash or a random number, is a parameter.
- Diagnostics, traces and rule metadata: they never change a decision.
- The configurable size of the match-set table: the default of 1024 is used.
- RoutingFinish.CompileDestinations: shared destination fragments are recognized by value, not by pointer, because equal rules compile to equal predicates.
- DomainRegistry.DomainRegistry.ObserveDNS: one registry; the loop that hands a response to every serving generation adds nothing to it.
- DomainRegistry.Activity.Enqueue: the queue is one map; its 32 shards only divide the lock.
- DomainProjection.Projection.PublishBatch: entries count as installed once their write is confirmed; a prefix of a refused batch that the kernel kept is not seen.
- DomainIndex.DomainIndex.AddPair: name and address records are entries of maps that are reassigned; only pairs are shared objects.
- Generation counters, warnings, usage figures and saving to disk: bookkeeping beside the evidence.
- Unmapping of IPv4-mapped addresses and canonical names: keys arrive in canonical form.
- RoutePlan.KeptDecisionIsExact: the kernel's decision and the verification look at the same registry state.
- The existence check of a sniffed name: its answer is a parameter.
- UdpTaskPool.UdpTaskPool.Take: condition-variable wakeups are left out, so the model states safety and what remains at the end, not progress.
- KeyLocker.KeyLocker.Acquire: which waiter gets a free lock is left open.
- DeviceRoutes.DeviceRoutes.Change: epochs do not wrap around at 64 bits.
- UdpChecksum.BuildPacket: the packet is put together as a value instead of being written into a buffer in place.
- MITM, HTTP planning, plugins, outbound groups, sockets, relays, netlink and the command line: plumbing around code that is not modelled here.
