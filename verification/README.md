# A verified model of the adaptive honeynet

The honeynet lures an attacker with assets that it reveals one by one. Telemetry becomes evidence
and a profile; a controller picks the next reveals from the profile; an adaptive loop holds them
back until the attacker has answered the last ones; an orchestrator turns them into bindings,
running backends and routes; and a gateway sends each client to a backend by its address and the
port it asks for. This project models that pipeline, together with the Sigma rule compiler and the
JSON file store that the services share, in Dafny, and proves what holds over every run.

Code that only computes is a function here. Code that changes state, or computes in a loop, is a
class or a method whose contract equates its result with a specification function; the lemmas are
about those functions and about the state machines built from them.

| file | what it models |
|---|---|
| `StoreProtocol`, `ListStore`, `Iterables`, `Sorting`, `Rounding`, `Wrappers` | the locked store as a protocol of processes; its list operations; order-preserving de-duplication; `sorted`; `round` |
| `SigmaPlans`, `SigmaExactness`, `SigmaMatching`, `SigmaTerms` | a Sigma condition expanded to plans, when that is exact, a rule evaluated by its plans, and what the words of a condition stand for |
| `SigmaParentheses`, `SigmaErasure`, `ErasedPlans` | conditions with parentheses, which of them survive when these are erased, and which have only plans that are right |
| `Regexes`, `CommandMatching`, `Exclusions`, `ExclusionTests`, `CowrieSigma`, `RuleResults` | regular expressions with lookahead, command rules, merged exclusions, the translation of plans, and what compiled rules report |
| `Bindings`, `BindingResults`, `RouteTable`, `Runtime`, `StartResults`, `TemplateRuntime` | bindings, the gateway's routes, runtime records and the three runtimes, and what resolving and starting come to, field by field |
| `ControlPlane`, `Reachability`, `Stickiness`, `UnlockResults`, `ConfigureResults`, `RequestResults`, `Orchestrator`, `RouteLog` | the honeynet as a state machine, what its runs guarantee, what unlocks, configurations and requests bring about, the orchestrator as events of it, and the log texts |
| `Scoring`, `Controller`, `ControllerProperties`, `Prior` | the two-pass choice of reveals and the technique prior |
| `OptionResults`, `ScoreResults`, `TickResults`, `PriorResults` | which options there are, what they score, which come first, and what the prior recommends, in terms of the catalogue, the profile and the groups |
| `DependencyClosure`, `TargetGates`, `TargetTicks` | dependencies, the gates that configuration targets pass by, and exactly when no tick does harm by it |
| `Feedback`, `ActionLimit`, `AdaptiveLoop`, `LoopInvariant`, `LoopProperties`, `LoopClosure`, `LoopCap`, `LoopTargets`, `LoopRunner` | the feedback ledger and response gate, the limiter, the loop as a state machine around the honeynet, its invariant, its guarantees, and one pass as steps |
| `FeedbackResults`, `VisitResults` | how rows are resolved and when the gate is open, when a visit reveals, and what it sends and records |
| `Confidence`, `Profiler`, `ProfileResults` | confidence from fingerprints, tag mappings, profiles, and what a profile says about the stored evidence |

The methods are proved equal to specification functions. What these functions come to is said by the modules
whose names end in `Results`, and by `SigmaTerms`: over the fields of requests, records, evidence and catalogue
entries, and over the words of conditions.

Main results:

- `Reachability.OnlyUnlockedAssetsAreReachable`, `Reachability.LastRevealOwnsPort`,
  `Reachability.OnlyUnlockedAssetsAreExposed`, `Reachability.RecyclingRequestExposesNothing`,
  `Stickiness.BindingSticks`: over every run of resolving, heartbeats, recycling, orchestration actions, gateway
  syncs and prewarming.
- `UnlockResults.NewAssetIsExposed`, `UnlockResults.NewAssetIsReached`, `UnlockResults.RunningAssetIsShown`,
  `StartResults.NewBackend`, `BindingResults.RecycledIsReplacedIff`, `ConfigureResults.ConfigurationIsAttached`: what
  an unlock, a recycle and a configuration lead to.
- `LoopProperties.DependenciesComeFirst`, `LoopClosure.UnlockedStaysClosed`, `LoopCap.UnlockedStaysWithinCap`,
  `LoopProperties.FurtherRevealsAreAnswered`, `LoopProperties.NoRevealWithoutResponse`,
  `LoopProperties.EvidenceTriggersOnce`, `LoopProperties.LedgerIsConserved`: over every run of the adaptive loop,
  whose passes interleave with any other events of the honeynet and any change of profiles.
- `SigmaExactness.BranchFiresIff`, `SigmaExactness.ExpansionIsSoundIff`, `SigmaExactness.ExpansionIsExactIff`,
  `SigmaErasure.ErasureIsExactIff`, `ErasedPlans.PlansNeverWeakenIff`, `CowrieSigma.MergeIsExact`,
  `ExclusionTests.MergeOrIsExactIffOnTests`, `CowrieSigma.PlanRuleIsRightIff`,
  `CowrieSigma.CommandRulesMeanCondition`: translations that keep the meaning, with the exact condition under
  which they do.
- `SigmaTerms.ConditionFiresIff`, `RuleResults.WrittenRuleReportsIff`, `RuleResults.WrittenCommandRulesFireIff`: from
  the words of a condition to what a rule reports.
- `StoreProtocol.StoreIsLinearizable`, `StoreProtocol.ReadIsFresh`,
  `StoreProtocol.CommittedWorkSurvivesIffFileExists`: over every interleaving of processes.
- `TickResults.MainComesFirst`, `TickResults.ExploreComesFirst`, `OptionResults.UnlockIsOptionIff`,
  `OptionResults.ConfigurationIsOptionIff`, `ScoreResults.CandidateIsScored`, `PriorResults.RecommendedIff`,
  `FeedbackResults.LedgerAfterUpdate`, `FeedbackResults.GateIff`, `VisitResults.VisitRevealsIff`,
  `VisitResults.VisitRecords`, `ProfileResults.TechniqueConfidence`, `ProfileResults.MappingsIff`: what is chosen,
  recommended, recorded and believed, and why.
- `ControllerProperties.CatalogueOrderDoesNotMatter`, `TargetTicks.TicksKeepClosedIff`,
  `TargetTicks.TicksKeepCapIff`, `LoopTargets.VisitsKeepClosedIff`, `LoopTargets.VisitsKeepCapIff`,
  `Prior.WeightOfGroup`, `Confidence.ScoreGrowsByExcess`.

Where the code does not do what one might expect, the model follows the code:

- A term that names no selection drops out of its conjunction, so a condition with a typing error matches more
  than it says (`SigmaMatching.UnknownNameWeakens`; the exact condition is `SigmaExactness.ExpansionIsSoundIff`).
- Parentheses in conditions are erased before anything else. So `a and (b or c)` is not skipped as unsupported
  but fires on `c` alone (`ErasedPlans.OrBelowAndWeakens`), and `a and not (b or c)` fires although `c` matches
  (`ErasedPlans.NegatedOrWeakens`). The exact condition for any condition over different names is
  `ErasedPlans.PlansNeverWeakenIff`; where only names are negated, it comes down to the shape
  (`ErasedPlans.PlansForceIffShape`).
- Merged exclusions of different kinds exclude only what one of each kind matches: `curl` and `localhost` merged exclude
  neither alone (`Exclusions.MergeOrOfTwoKinds`). Those of one kind exclude what any of them matches
  (`Exclusions.MergeOrIsExact`); the exact conditions are `Exclusions.MergeOrIsExactIff` and
  `ExclusionTests.MergeOrIsExactIffOnTests`.
- Merged command rules compare within one line (`CowrieSigma.MergeMissesSeveralLines`; the exact condition is
  `CowrieSigma.MergeOnSeveralLines`).
- The existence check of the store runs outside its lock and can undo a committed update
  (`StoreProtocol.LostUpdate`; the exact condition is `StoreProtocol.CommittedWorkSurvivesIffFileExists`).
- A limit of zero or less drops also the actions that are no reveals (`ActionLimit.ZeroDropsOthers`; the exact
  condition is `ActionLimit.LimitKeepsOthersIff`).
- A batch of reveals that was ignored blocks its binding for good, whatever evidence arrives later; only a
  touch of one of its assets opens the gate (`LoopProperties.IgnoredBatchBlocksForGood`).
- Asset ids are read back out of log texts, which fails for ids such as those of `RouteLog.ExposedIdsNotReadBack`
  and `RouteLog.RoutedIdsNotReadBack` (the exact conditions are `RouteLog.ExposedIsReadBack` and
  `RouteLog.RoutedIsReadBack`).
- A configuration that starts its own asset without bringing a runtime is not attached to the backend that it
  starts: it is applied before there is one (`ConfigureResults.ConfigurationIsAttached` says when it is).
- A hard recycle takes effect only after its own instant: a resolution at the same time still gets the binding
  back (`BindingResults.RecycledIsReplacedIff`).
- Configuration targets bypass the dependency and the cap gate (`TargetTicks.TargetsBypassGates`). For the
  dependencies this is harmless exactly when every target needs only what its source needs
  (`TargetTicks.TicksKeepClosedIff`); for the cap it is exactly when every target is its own source
  (`TargetTicks.TicksKeepCapIff`). `TargetTicks.CoveredTargetPassesCap` has a catalogue that is harmless for the
  one and not for the other.

## Model

| member | source | states |
|---|---|---|
| `StoreProtocol.StoreIsLinearizable` | libs/common/json_store.py:36-76 | in every interleaving of locked updates, unconditional writes, lock-free reads and crashes, the file is what the committed operations produce in lock order, and each read returned the value of a settled prefix, never going back for one reader |
| `StoreProtocol.LogIsAcquisitionOrder` | libs/common/json_store.py:206-217 | the order of that replay is the order in which the lock was taken |
| `StoreProtocol.LogOnlyExtends` | libs/common/json_store.py:206-227 | settled operations are never reordered or revised later in the run |
| `StoreProtocol.ReadIsFresh` | libs/common/json_store.py:36-44 | a lock-free read returns the document as it was when the read started, with everything settled by then |
| `StoreProtocol.CommittedIsReadLater` | libs/common/json_store.py:206-227 | what has committed, by whatever process, is part of every read that starts later |
| `StoreProtocol.OnlyRenameChangesFile` | libs/common/json_store.py:60-76 | nothing but the atomic rename changes the file; a mutator that raises leaves it alone and is recorded as aborted |
| `StoreProtocol.MutualExclusion` | libs/common/json_store.py:206-227 | at most one process is between lock and unlock |
| `StoreProtocol.LostUpdate` | libs/common/json_store.py:199-203 | a run in which the existence check overwrites a committed update with the default document |
| `StoreProtocol.ExistingFileIsNeverCreated` | libs/common/json_store.py:199-203 | if the file exists at the start, no default document is ever written |
| `StoreProtocol.CommittedWorkSurvivesIffFileExists` | libs/common/json_store.py:199-203 | committed work is safe from the existence check in every run exactly when the file exists at the start |
| `StoreProtocol.AloneTakesEffect` | libs/common/json_store.py:206-227 | an operation with which nobody interferes makes of the file what it promises: the default document, the document written, or what the mutator makes of the one there is; one that raises leaves it alone |
| `StoreProtocol.NoIncrementIsLost` | libs/common/json_store.py:162-166 | in every run of concurrent increments of the counters in an existing file, every counter grows by the number of its own committed increments, and so no other one changes |
| `ListStore.UpsertListItem` | libs/common/json_store.py:114-139 | the loop computes replace-in-place-or-append by key |
| `ListStore.UpsertFrame` | libs/common/json_store.py:114-139 | an upsert puts the item in, keeps every other key where it was and adds nothing else |
| `ListStore.ReplaceListItems` | libs/common/json_store.py:141-160 | the loop drops everything with a replaced key and appends the replacements |
| `ListStore.WithoutKeysMembers` | libs/common/json_store.py:141-160 | exactly the items whose key is not replaced survive |
| `Iterables.DedupePreserve` | libs/common/iterables.py:12-18 | same elements, each once, in the order of first occurrence |
| `Iterables.DedupePreserveBy` | libs/common/iterables.py:21-31 | the loop computes de-duplication by key |
| `Iterables.DedupeByKeys` | libs/common/iterables.py:21-31 | no key is lost or kept twice |
| `Iterables.DedupeByKeepsFirst` | libs/common/iterables.py:21-31 | the kept value of a key is its first one |
| `SigmaPlans.SplitIsExact` | libs/common/sigma.py:35-52 | splitting at a connective loses and adds no token and splits completely |
| `SigmaPlans.ProductMembers` | libs/common/sigma.py:123-166 | the cross product holds exactly the groups that take one option of each positive term |
| `SigmaPlans.PositiveTerm` | libs/common/sigma.py:169-180 | a positive term holds exactly when it resolves and all names of one of its options match |
| `SigmaPlans.NegatedTerm` | libs/common/sigma.py:145-155 | a negated term that stands for one selection is that selection's match |
| `SigmaPlans.ExpansionIsSound` | libs/common/sigma.py:123-166 | with resolving terms, a firing plan implies its branch |
| `SigmaExactness.NoPlanIff` | libs/common/sigma.py:123-166 | a branch has no plan exactly when a negation is not about one selection, a `1 of` term finds none, or no positive term resolves |
| `SigmaExactness.BranchFiresIff` | libs/common/sigma.py:123-166 | for every branch, exactly when some plan of it fires: it has one, every positive term has an option whose names all match, and no negated name matches |
| `SigmaExactness.ExpansionIsSoundIff` | libs/common/sigma.py:123-166 | a plan of a branch never fires wrongly, whatever matches, exactly when every positive term resolves, or the branch has no plan for one of these reasons, or a positive term asks for what is negated |
| `SigmaExactness.ExpansionIsExactIff` | libs/common/sigma.py:123-219 | under the naming convention for filters, plans and branch agree on all inputs exactly when the branch is supported (terms resolve, negations stand for one selection, some term is positive), or a term does not resolve and the branch has no plan for one of the reasons above |
| `SigmaPlans.PlansMeanCondition` | libs/common/sigma.py:35-52 | for a condition of supported branches, some plan fires exactly when the condition holds |
| `SigmaPlans.PlansImplyCondition` | libs/common/sigma.py:35-52 | with resolving terms alone, a firing plan still implies the condition |
| `SigmaTerms.ConditionFiresIff` | libs/common/sigma.py:35-219 | for every condition made of `1 of`, `all of` and bare terms over `them`, names and beginnings of names, possibly negated and joined by `and` and `or`: some plan fires exactly when in some branch each `1 of` term has a match, all that any other positive term stands for matches, each negation is about one selection that does not match, and some positive term stands for something |
| `SigmaTerms.BeginningsFire` | libs/common/sigma.py:169-219 | `1 of text*` fires exactly when some selection matches that begins with the text and is no filter, `all of text*` when there is one and all such match |
| `SigmaTerms.ThemFire` | libs/common/sigma.py:169-219 | `1 of them` and `all of them` say the same of all selections that are no filters |
| `SigmaTerms.NameAndSomeFire` | libs/common/sigma.py:123-219 | `name and 1 of text*` fires exactly when the quantified term does and the name, if it is a selection and no filter, matches |
| `SigmaTerms.NothingWrittenFires` | libs/common/sigma.py:35-52 | without a condition any selection that is no filter fires |
| `SigmaParentheses.ErasureKeepsShape` | libs/common/sigma.py:230-231 | an `or` of `and`s of possibly negated terms means the same without its parentheses, whatever the terms stand for |
| `SigmaParentheses.ErasedSplits` | libs/common/sigma.py:230-231 | which branches and terms are left of any condition when its parentheses are erased |
| `SigmaErasure.ErasureIsExactIff` | libs/common/sigma.py:230-231 | over different names, with filters below negations only, exactly the conditions of that shape keep their meaning |
| `SigmaErasure.ErasureNeverWeakensIff` | libs/common/sigma.py:35-52 | with negations of names only, any other condition is weakened: it is read as one that holds where it does not |
| `ErasedPlans.ErasedPlansFire` | libs/common/sigma.py:35-52 | which plans a condition over different names has once its parentheses are erased, filters and double negations included |
| `ErasedPlans.PlansNeverWeakenIff` | libs/common/sigma.py:35-52 | for every condition over different names, no plan ever fires wrongly, as the source promises, exactly when what each plan asks for and forbids decides the condition as it was written, whatever else matches |
| `ErasedPlans.PlansForceIffShape` | libs/common/sigma.py:35-52 | where only names are negated, filters are negated, and every branch has a plan, these are the conditions that are an `or` of `and`s |
| `ErasedPlans.OrBelowAndWeakens` | libs/common/sigma.py:230-231 | `a and (b or c)` has a plan that fires on the last name alone |
| `ErasedPlans.NegatedOrWeakens` | libs/common/sigma.py:230-231 | `a and not (b or c)` has a plan that fires although the second filter matches, whatever the names are |
| `ErasedPlans.NegatedAndIsSafe` | libs/common/sigma.py:230-231 | no plan of `a and not (b and c)` ever fires wrongly |
| `SigmaMatching.CollectTerms` | libs/common/sigma.py:123-155 | the loop over the terms of a branch collects its options and negations, or gives up |
| `SigmaMatching.PlansFromAndBranch` | libs/common/sigma.py:123-166 | the loop computes the plans of a branch |
| `SigmaMatching.PlansFromOptions` | libs/common/sigma.py:123-166 | the inner loop computes one plan for each non-empty group of the cross product |
| `SigmaMatching.SigmaSelectionPlans` | libs/common/sigma.py:35-52 | the loop over the branches computes the plans of the condition over known selections |
| `SigmaMatching.RuleIndicators` | services/entrypoint/sigma_mapping.py:183-198 | the loop with its breaks collects the indicators of all plans that apply |
| `SigmaMatching.RuleMatchesIffConditionHolds` | services/entrypoint/sigma_mapping.py:183-219 | a rule with a supported condition reports indicators exactly when its condition holds of the event |
| `RuleResults.ReportedIff` | services/entrypoint/sigma_mapping.py:183-198 | what is reported for an event is exactly what the positive selections of the plans that hold of it find in it |
| `RuleResults.WrittenRuleReportsIff` | services/entrypoint/sigma_mapping.py:183-219 | a rule whose condition is made of written terms reports something exactly when its words allow the selections that find something |
| `SigmaMatching.UnknownNameWeakens` | libs/common/sigma.py:169-180 | a concrete condition with an unknown name that fires although it does not hold |
| `Regexes.SearchText` | services/cowrie/sigma_mapping.py:411-415 | searching an escaped text is searching for the text |
| `Regexes.IgnoredCaseMatches` | services/cowrie/sigma_mapping.py:411-415 | a text matched regardless of case is matched letter by letter, upper and lower case of a letter being the same |
| `Regexes.AllAheadSearch` | services/cowrie/sigma_mapping.py:394-408 | a chain of lookaheads is found exactly when all groups are found ahead of one line start |
| `Regexes.AllAheadOnOneLine` | services/cowrie/sigma_mapping.py:394-408 | on one line, it is found exactly when every group is found |
| `CowrieSigma.MergeMatchPayloads` | services/cowrie/sigma_mapping.py:330-367 | the loop with its early exit computes the merged match |
| `CowrieSigma.CombinedCommandLineRegex` | services/cowrie/sigma_mapping.py:394-408 | the loop over the groups builds the lookahead expression |
| `CowrieSigma.TokenGroupIsExactIff` | services/cowrie/sigma_mapping.py:394-415 | turning a group of lower-case tokens into options keeps its meaning exactly when empty and non-empty tokens are not mixed |
| `CowrieSigma.MergeIsExact` | services/cowrie/sigma_mapping.py:330-408 | the merged match implies all merged ones, agrees with them on one-line commands, and is empty only when no command matches all |
| `CowrieSigma.MergeOnSeveralLines` | services/cowrie/command_mapping.py:230-249 | on several lines, the merged match asks for one line start ahead of which all groups are found |
| `CowrieSigma.MergeMissesSeveralLines` | services/cowrie/sigma_mapping.py:394-408 | two selections that a command of two lines matches and their merged match does not |
| `Exclusions.MergeOrIsExact` | services/cowrie/sigma_mapping.py:370-391 | any number of exclusions that vary in names, tokens or expressions only are merged without loss |
| `Exclusions.MergeOrIsExactIff` | services/cowrie/sigma_mapping.py:370-391 | exclusions of a single kind each are merged without loss exactly when all are of one kind, or none is about names and tokens and expressions accept the same lines |
| `ExclusionTests.MergeOrIsExactIffOnTests` | services/cowrie/sigma_mapping.py:370-391 | exclusions of names, tokens and plain texts in any combination are merged without loss exactly when they are for the finitely many commands made of listed names, tokens and texts |
| `CowrieSigma.SigmaRuleToCommandRules` | services/cowrie/sigma_mapping.py:147-196 | the loop computes the rules of all plans, one for each technique |
| `CowrieSigma.RulesForPlan` | services/cowrie/sigma_mapping.py:170-194 | a plan yields one rule for each technique or none at all, and none when a selection cannot be translated |
| `CowrieSigma.PlanMatchesMeaning` | services/cowrie/sigma_mapping.py:170-194 | on a command for which its exclusions are merged without loss, the rule of a plan implies the plan, agrees with it on one line, and is missing only when the plan cannot hold |
| `CowrieSigma.PlanRuleIsRightIff` | services/cowrie/sigma_mapping.py:170-194 | for any exclusions, the rule of a plan is right on a one-line command exactly when the positive selections do not all match it or the exclusions are merged without loss for it |
| `CowrieSigma.CommandRulesMeanCondition` | services/cowrie/sigma_mapping.py:147-196 | on a command for which the exclusions of each plan are merged without loss, the rules of a supported condition fire only when it holds, and always then for convertible selections and one line |
| `CowrieSigma.CommandRulesOfOneKind` | services/cowrie/sigma_mapping.py:147-196 | so they do for every command when the exclusions of each plan vary in names, tokens or expressions only |
| `RuleResults.WrittenCommandRulesFireIff` | services/cowrie/sigma_mapping.py:147-196 | from the words of a condition over process names and texts to the command: every technique of the rule is reported for a command of one line exactly when the words allow the selections that fit it, if the exclusions of each plan are merged without loss |
| `RuleResults.SomeRuleIsReported` | services/cowrie/sigma_mapping.py:185-194 | some rule matches a command exactly when one does for each of the techniques |
| `Bindings.ResolveIsSticky` | services/binding_service/domain.py:46-84 | resolving reuses the latest binding of the attacker until it expires and else creates exactly one; the result is the one in use from then on and nothing else changes |
| `BindingResults.ResolveReuses` | services/binding_service/domain.py:46-84 | the record in use, when it has not expired, is renewed in place, as recovered if it was recycled, and no other record changes |
| `BindingResults.ResolveCreates` | services/binding_service/domain.py:46-84 | otherwise a fresh record is added behind the others |
| `BindingResults.RecycledIsReplacedIff` | services/binding_service/domain.py:101-121 | after recycling, the attacker's next resolution gets the same binding back, with all its reveals, exactly when it comes within the lifetime that is left: none beyond its own instant for a hard recycle, else a new one |
| `BindingResults.BeatenIsReplacedIff` | services/binding_service/domain.py:86-99 | after a heartbeat, exactly when it comes within the lifetime counted from its time stamp |
| `BindingResults.UnlockIsRecorded` | services/binding_service/domain.py:130-148 | an unlock adds the asset to the one record unless it is there, and leaves its lifetime alone |
| `BindingResults.ConfigurationIsRecorded` | services/binding_service/domain.py:150-182 | a configuration is added for its asset unless it is there, its target is unlocked, and nothing else in the list changes |
| `BindingResults.AllAreRevealed` | services/binding_service/domain.py:150-182 | when configurations of several assets are revealed at once, exactly those are added |
| `Bindings.SaveGrows` | services/binding_service/repository.py:54-61 | saving an update keeps ids unique and only grows reveals, in place |
| `Bindings.LatestIsLast` | services/binding_service/repository.py:73-77 | the binding found for an attacker is the one created last |
| `Bindings.BindingRepository.Upsert` | services/binding_service/repository.py:54-61 | the list is upserted by binding id |
| `Bindings.BindingService.Resolve` | services/binding_service/domain.py:46-84 | returned record and new list as functions of the old list |
| `Bindings.BindingService.Heartbeat` | services/binding_service/domain.py:86-99 | renews the lifetime from the given time stamp; nothing for an unknown id |
| `Bindings.BindingService.Recycle` | services/binding_service/domain.py:101-121 | marks the record, expiring it at once when hard; nothing for an unknown id |
| `Bindings.BindingService.UnlockAssets` | services/binding_service/domain.py:130-148 | appends the assets that are new, in order |
| `Bindings.BindingService.RevealConfigurations` | services/binding_service/domain.py:150-182 | appends the new configurations of every asset named, in order; ids stay unique, and reveals only grow |
| `RouteTable.SelectIsLastRoute` | services/asset_gateway/app.py:86-102 | on a table in update order the chosen route is the last of the client and port |
| `RouteTable.SelectedRouteIsClients` | services/asset_gateway/app.py:86-102 | without the fallback, a route is chosen exactly when the client has one on the port, and it is the client's |
| `RouteTable.FallbackLeaksIff` | services/asset_gateway/app.py:100-101 | with the fallback, a stranger's route is chosen exactly when the client has none and the port has a single one |
| `RouteTable.PublishInOrder` | services/orchestrator/runtime_routes.py:88-145 | publishing at a later time keeps the table in update order and adds routes of the asset only |
| `RouteTable.PublishOverwrites` | services/orchestrator/runtime_routes.py:88-145 | it makes the asset own the published ports for its attacker and changes nothing for any other client or port |
| `Runtime.StartAssetOk` | services/orchestrator/template_runtime.py:810-871 | however a start goes, ids stay unique, at most one backend of an asset runs, only this asset's records change, and routes are published exactly for a running managed backend of an attacker |
| `Runtime.StartDockerOk` | services/orchestrator/template_runtime.py:201-308 | the same of the Docker runtime, also when a backend is swapped |
| `Runtime.StartComposeOk` | services/orchestrator/template_runtime.py:658-756 | the same of the Compose runtime |
| `StartResults.NewBackend` | services/orchestrator/template_runtime.py:201-308 | a start that finds nothing to show, for any adapter: exactly when it fails (Docker is given another runtime, or nothing comes up), and otherwise a running record, hidden only for a warm start, on the ports of the mappings (override, else requested, else container), managed and published as the adapter says |
| `StartResults.OthersStay` | services/orchestrator/template_runtime.py:201-260 | the new record is added behind all others, which stay as they are, but for a backend that a Docker replacement stops |
| `StartResults.RunningBackend` | services/orchestrator/template_runtime.py:967-987 | a backend that runs already is kept, and shown and published once there is an attacker and the gateway manages it; mocked ones are not |
| `StartResults.PublishedAreRouted` | services/orchestrator/runtime_routes.py:88-145 | what a start publishes stands last in the route table, port by port, in place of what the asset had published there before |
| `Runtime.AttachOk` | services/orchestrator/template_runtime.py:967-987 | showing a running or hidden backend keeps all that |
| `Runtime.AccessibleIsVisible` | services/orchestrator/template_runtime.py:910-917 | what is listed as accessible runs and is no hidden standby |
| `StartResults.AccessibleIff` | services/orchestrator/template_runtime.py:910-917 | listed as accessible is exactly what runs for the binding and is no hidden standby, and of Docker backends what is up |
| `Runtime.StopIsComplete` | services/orchestrator/template_runtime.py:900-908 | stopping leaves nothing of the binding running or accessible and touches no other binding |
| `TemplateRuntime.HybridRuntime.Start` | services/orchestrator/template_runtime.py:810-871 | the dispatching method computes the specified start |
| `TemplateRuntime.HybridRuntime.StartWithDocker` | services/orchestrator/template_runtime.py:201-308 | the early exits, the swap and the recording compute the specified Docker start |
| `TemplateRuntime.HybridRuntime.StartWithCompose` | services/orchestrator/template_runtime.py:658-756 | the same for Compose |
| `TemplateRuntime.HybridRuntime.StartWithMock` | services/orchestrator/template_runtime.py:90-114 | the same for the mock runtime |
| `TemplateRuntime.HybridRuntime.UpsertAssetGatewayRoutes` | services/orchestrator/runtime_routes.py:88-145 | the loop and the table update publish the routes |
| `TemplateRuntime.HybridRuntime.ResolvePortMappings` | services/orchestrator/runtime_routes.py:23-67 | the loop computes the mapped ports |
| `TemplateRuntime.HybridRuntime.Configure` | services/orchestrator/template_runtime.py:885-898 | a configuration is attached to the running record, if there is one |
| `TemplateRuntime.HybridRuntime.StopBindingAssets` | services/orchestrator/template_runtime.py:314-321 | the loop stops and returns the binding's running records |
| `TemplateRuntime.HybridRuntime.StopBindingRuntimes` | services/orchestrator/template_runtime.py:900-908 | the three passes over one store stop the binding and return what they stopped without repetition |
| `TemplateRuntime.StoppedRecordsOnce` | services/orchestrator/template_runtime.py:900-908 | each record that ran is returned exactly once |
| `TemplateRuntime.PassesStopBinding` | services/orchestrator/template_runtime.py:762-778 | the Compose pass and the two others together are one stop of everything, and repeating it changes nothing |
| `ControlPlane.NextOk` | services/orchestrator/domain.py:48-150 | every event keeps unique ids, one running backend per asset, visible backends and routes of unlocked assets only, truthful exposure and a route table in update order |
| `ControlPlane.RunOk` | services/orchestrator/domain.py:48-230 | so does every run, and bindings only grow |
| `ControlPlane.ActOnOk` | services/orchestrator/domain.py:60-133 | one action keeps it and leaves exactly the specified binding |
| `Reachability.OnlyUnlockedAssetsAreReachable` | services/asset_gateway/app.py:86-102 | in every run, a client is only ever sent to an asset unlocked for a binding of its own |
| `Reachability.OnlyUnlockedAssetsAreExposed` | services/gateway/domain.py:34-54 | in every run, exposed assets are unlocked and no asset has two running backends |
| `Reachability.RevealsOnlyGrow` | services/binding_service/domain.py:130-182 | between any two states of a run a binding keeps its owner and its reveals only grow by appending |
| `Reachability.LastRevealOwnsPort` | services/orchestrator/domain.py:84-112 | in every run, the route of a client on a port is that of the last reveal that published the port for it, and there is one exactly when there was such a reveal |
| `Reachability.StepRoutes` | services/orchestrator/domain.py:56-112 | an event changes the route table only by publishing what it reveals, and only for the binding's owner |
| `Reachability.RefreshTakesPortBack` | services/orchestrator/domain.py:175-210 | unlocking an unlocked asset again sends its attacker back to it, after a same-port upgrade too |
| `UnlockResults.NewAssetIsExposed` | services/orchestrator/domain.py:60-73 | an asset that comes up when it is unlocked is in the exposed list after the next sync that finds it up |
| `UnlockResults.NewAssetIsReached` | services/orchestrator/domain.py:175-230 | and from the unlock on its attacker is sent, on every port that it maps, to the container port of the last mapping for it |
| `UnlockResults.RunningAssetIsShown` | services/orchestrator/domain.py:175-230 | a managed backend that runs already, as a standby or exposed before, is exposed and reached in the same way |
| `ConfigureResults.ConfigurationIsAttached` | services/orchestrator/domain.py:75-118 | whatever runs of an asset after its configuration was revealed carries the configuration, unless the configuration starts its own asset without bringing a runtime |
| `ConfigureResults.ConfigurationIsAdded` | services/orchestrator/template_runtime.py:885-898 | a configuration without runtime and target is put behind those its running backend has, once, and nothing else changes in the records |
| `Reachability.PrewarmShowsNothing` | services/orchestrator/domain.py:152-173 | prewarming changes no binding, route or exposure and makes nothing accessible, whatever containers are up |
| `Reachability.RecycleStopsBinding` | services/orchestrator/domain.py:125-133 | recycling stops all the binding runs, nothing else, and leaves the routes |
| `Reachability.RecyclingRequestExposesNothing` | services/orchestrator/domain.py:125-150 | a request that ends in a recycle, made in any state, leaves nothing of the binding running and nothing exposed for it, and keeps the routes |
| `Stickiness.BindingSticks` | services/binding_service/domain.py:46-84 | every later resolution within the lifetime gives the same binding, whatever happens but a hard recycle or a back-dated heartbeat |
| `Orchestrator.OrchestratorService.Apply` | services/orchestrator/domain.py:48-150 | a request is the run of its actions followed by a sync with their notes; an unknown binding changes nothing |
| `Orchestrator.OrchestratorService.ApplyAll` | services/orchestrator/domain.py:56-133 | the loop over the actions, each seeing what earlier ones did, is that run |
| `Orchestrator.OrchestratorService.ApplyConfigure` | services/orchestrator/domain.py:75-118 | order of recording, swapping and attaching a configuration |
| `Orchestrator.OrchestratorService.ApplyUnlock` | services/orchestrator/domain.py:175-210 | a new asset is exposed, an old one has its route refreshed |
| `Orchestrator.OrchestratorService.Prewarm` | services/orchestrator/domain.py:152-173 | the loop over the catalogue is the run of the warm starts it wants |
| `Orchestrator.GatewayService.Sync` | services/gateway/domain.py:34-54 | replaces what is exposed and appends to the route log |
| `RequestResults.SyncAppends` | services/gateway/domain.py:34-54 | the notes of a request stand behind those the binding has already, with its attacker and status |
| `RequestResults.ActionsAreLogged` | services/orchestrator/domain.py:56-133 | each action of a request is logged behind those before it, by the binding as it finds it: new assets as exposed, open ones as routed |
| `RequestResults.WarmedIff` | services/orchestrator/domain.py:256-276 | prewarming starts exactly the assets that the catalogue wants warm, that the request does not rule out and that are not open |
| `RequestResults.WarmedIsHidden` | services/orchestrator/template_runtime.py:873-879 | a warmed asset gets a backend behind all others, running on its ports unless the start fails, hidden and without a route |
| `RouteLog.NewAssetIds` | services/orchestrator/domain.py:307-315 | the loop reads an id out of every update that names one |
| `RouteLog.ExposedIsReadBack` | services/orchestrator/domain.py:307-315 | the id of an exposed asset is read back exactly when the word for exposing does not occur in it |
| `RouteLog.RoutedIsReadBack` | services/orchestrator/domain.py:307-315 | that of a refreshed one exactly when the update says nothing of exposing and the id nothing of routing |
| `RouteLog.ExposedIdsNotReadBack` | services/orchestrator/domain.py:307-315 | ids that hold the word for exposing are not read back, whatever stands around it |
| `RouteLog.RoutedIdsNotReadBack` | services/orchestrator/domain.py:307-315 | nor are refreshed ids that hold the word for routing |
| `RouteLog.RoutedBindingsHideIds` | services/orchestrator/domain.py:307-315 | nor is any refreshed id when the id of the binding holds the word for exposing |
| `Controller.ComputeRevealOptions` | services/controller/domain.py:251-285 | the loop computes the options of a pass and the rejections |
| `Controller.ComputeConfigurationOptions` | services/controller/domain.py:315-403 | the nested loops compute the follow-on configurations |
| `Controller.Tick` | services/controller/domain.py:163-249 | the two passes compute the main and the explore decision |
| `Controller.PassIsBest` | services/controller/domain.py:197-226 | a pass chooses an eligible candidate that no other one precedes, and none exactly when there is none |
| `OptionResults.UnlockIsOptionIff` | services/controller/domain.py:251-313 | an asset can be chosen for an unlock exactly if it is internal, ready, runnable, not open, within the cap, with its dependencies open, called for by a signal of the profile or the portal, and covers something; the option carries its matched markers, each once, and whether it is an upgrade of an open asset |
| `OptionResults.RejectedAre` | services/controller/domain.py:251-285 | an asset that is not eligible is rejected for the first gate it does not pass, and earlier rejections of others stay |
| `OptionResults.ConfigurationIsOptionIff` | services/controller/domain.py:315-403 | a variant of an open asset can be chosen exactly if it has an id that is not revealed yet, lies on the active path, has a required marker if there are any, and shows something that can run and is not open |
| `OptionResults.ConfigurationIsOf` | services/controller/domain.py:315-403 | and the option has the variant's techniques, telemetry and group, or those of what it shows, and its exact markers |
| `ScoreResults.CandidateIsScored` | services/controller/domain.py:405-532 | the gain of a candidate is the sum, over the different techniques that count for it, of prior support times what is not yet known, to four decimals; it is explained by the technique of largest gain, then strongest signal, then last name |
| `ScoreResults.IsCandidateIff` | services/controller/domain.py:405-470 | an option becomes a candidate exactly if some technique counts and, for a second reveal, there is a concrete reason |
| `ScoreResults.MattersIff` | services/controller/domain.py:534-606 | which techniques count: known ones of an observed family, all without a prior, recommended ones, and weakly known ones with a concrete marker |
| `TickResults.MainComesFirst` | services/controller/domain.py:1030-1060 | of every option that scores, none comes before the main reveal: the portal first, then configurations, then by gain, markers, telemetry and name; there is a main reveal unless the profile just scans or nothing scores |
| `TickResults.MainIsOption` | services/controller/domain.py:163-249 | the main reveal is itself an option that scores, and a profile that just scans gets none |
| `TickResults.ExploreComesFirst` | services/controller/domain.py:1030-1060 | the same of the explore reveal, among the options for new families with a concrete reason, with the main reveal open |
| `TickResults.ExploreIsOption` | services/controller/domain.py:163-249 | the explore reveal is one of these options |
| `Scoring.PrecedesIsStrictOrder` | services/controller/domain.py:1030-1054 | the ordering key gives a strict weak order |
| `ControllerProperties.RevealsAreGated` | services/controller/domain.py:615-645 | both reveals pass the cap, dependency, readiness and runtime gates, the second against what the first exposes as well |
| `ControllerProperties.RevealsAreJustified` | services/controller/domain.py:615-688 | nothing is revealed without a matched signal or, for a configuration, presence on its path and one of its markers, no target that cannot run is, and a mere scanner gets nothing |
| `ControllerProperties.BestTechniqueIsBest` | services/controller/domain.py:470-485 | the technique that explains a reveal is the best of those that count |
| `ControllerProperties.MainIsBest` | services/controller/domain.py:197-226 | the main reveal is the best candidate there is, and it is missing only when there is none |
| `ControllerProperties.ExploreTakesNewDirection` | services/controller/domain.py:898-928 | the explore reveal is chosen for a technique whose family the main reveal does not cover, after two observed families and for a concrete marker or an upgrade |
| `ControllerProperties.NoActionTwice` | services/controller/domain.py:196-242 | a tick never issues the same unlock or the same variant of an asset twice, nor the same configuration when the catalogue gives different ids to the assets and to the variants of one |
| `ControllerProperties.NoAssetExposedTwice` | services/controller/domain.py:237-240 | nor does it expose a newly exposed asset twice |
| `TargetTicks.TicksKeepClosedIff` | services/controller/domain.py:315-403 | whatever the configuration of the controller, every tick keeps a dependency-closed set of assets closed, in every situation, exactly when each target that can be revealed needs only what its source needs |
| `TargetTicks.TicksKeepCapIff` | services/controller/domain.py:315-403 | and it stays within the cap, in every situation, exactly when there is no room at all or each target that can be revealed is its own source |
| `TargetTicks.TargetTick` | services/controller/domain.py:315-403 | for every target, whatever is unlocked once the cap is reached, there is a tick that exposes it |
| `TargetTicks.TargetsBypassGates` | services/controller/domain.py:353-364 | a tick that exposes an asset with a missing dependency beyond the cap |
| `TargetTicks.CoveredTargetPassesCap` | services/controller/domain.py:353-364 | a catalogue whose targets keep dependencies closed and exceed the cap |
| `ControllerProperties.CatalogueOrderDoesNotMatter` | services/controller/domain.py:197-242 | reordering the catalogue changes neither reveal when no two candidates of a pass tie |
| `ControllerProperties.KnowingMoreLowersGain` | services/controller/domain.py:931-1006 | expected gain falls as confidence rises and vanishes for certain techniques |
| `Prior.LoadedIsNormal` | services/controller/repository.py:163-178 | a loaded group has its non-empty techniques, each once |
| `Prior.Recommend` | services/controller/repository.py:92-145 | the loops return exactly the unobserved techniques with enough support, each once with the rounded sum of neighbour weights, the strongest first |
| `PriorResults.RecommendedIff` | services/controller/repository.py:92-145 | a technique is recommended exactly when it was not observed and what the nearest groups count for it, over `top_k` (at least one), is positive and reaches the threshold; with that average to six decimals, the strongest first and then by name; and which groups are nearest |
| `Prior.SumWeights` | services/controller/repository.py:123-131 | the nested loops add up the weights of the neighbours that use a technique |
| `Prior.NearestGroups` | services/controller/repository.py:113-121 | the loop, the sort and the cut give the nearest groups |
| `Prior.NeighboursAreNearest` | services/controller/repository.py:113-121 | a group is left out only when as many as allowed are taken and none of these is farther |
| `Prior.WeightOfGroup` | services/controller/repository.py:181-203 | a weight is the total size over the size of the symmetric difference, above one and at most the total; an exact or a disjoint match weighs nothing |
| `Prior.SupportIsAtMostLargestWeight` | services/controller/repository.py:123-138 | no support exceeds the largest neighbour weight |
| `Prior.RecommendedAreEarned` | services/controller/repository.py:123-145 | what is recommended was not observed and is used by a group that shares an observed technique |
| `Prior.RecommendationIsUnique` | services/controller/repository.py:133-145 | the contract of `Prior.Recommend` leaves one possible list |
| `Prior.DisjointGroupChangesNothing` | services/controller/repository.py:113-121 | adding a group without an observed technique anywhere changes nothing |
| `Feedback.FeedbackRepository.RecordReveal` | services/controller/repository.py:222-256 | counts a reveal and appends its pending row |
| `Feedback.FeedbackRepository.UpdateFromEvidence` | scripts/runtime/adaptive_controller_loop.py:512-563 | the loop resolves the pending rows and counts the outcomes |
| `Feedback.UpdatedRows` | scripts/runtime/adaptive_controller_loop.py:534-557 | exactly the pending rows with an outcome change, and only in status |
| `Feedback.OutcomesAreEarned` | scripts/runtime/adaptive_controller_loop.py:572-641 | a row is ignored exactly when its window passed without any sign of its asset, left pending exactly when there is no sign and time is left, and useful only with mapped evidence |
| `FeedbackResults.OutcomeIff` | scripts/runtime/adaptive_controller_loop.py:572-641 | exactly when a pending row becomes useful, shallow, ignored or stays: the first evidence of its attacker about its asset that is not older, or has no time, decides; else such a touch; else the window |
| `FeedbackResults.LedgerAfterUpdate` | scripts/runtime/adaptive_controller_loop.py:512-563 | after an update every pending row has the status that this gives it, and every other row is as it was |
| `Feedback.UpdateConserves` | scripts/runtime/adaptive_controller_loop.py:534-557 | resolving keeps every counter equal to the number of its rows |
| `Feedback.RecordConserves` | services/controller/repository.py:222-256 | so does recording |
| `Feedback.GateIsExact` | scripts/runtime/adaptive_controller_loop.py:279-336 | when no asset of a binding was recorded twice, the gate is open exactly when there is no row, a row of the newest batch was answered, or an asset of it was touched |
| `FeedbackResults.GateIff` | scripts/runtime/adaptive_controller_loop.py:279-406 | the gate is open exactly if a row with the same assets as the newest one, at most five seconds apart, is useful or shallow, or an asset that the newest one shows is among the profile's recent ones |
| `FeedbackResults.GateOpensFirst` | scripts/runtime/adaptive_controller_loop.py:279-336 | and it is open before anything was revealed |
| `Feedback.UnansweredBatchBlocks` | scripts/runtime/adaptive_controller_loop.py:279-336 | a batch that is all pending or ignored, and untouched, shuts the gate, without any assumption on the rows |
| `Feedback.LatestIsNewest` | scripts/runtime/adaptive_controller_loop.py:380-384 | the latest row is one of the newest |
| `Feedback.BatchIsNotEmpty` | scripts/runtime/adaptive_controller_loop.py:387-406 | the batch always holds the latest row |
| `Feedback.NewestBatchStays` | scripts/runtime/adaptive_controller_loop.py:362-406 | resolving rows and recording for others leaves the newest batch of a binding the same rows |
| `ActionLimit.LimitReveals` | scripts/runtime/adaptive_controller_loop.py:678-696 | the loop computes the limited list |
| `ActionLimit.LimitKeepsFirstReveals` | scripts/runtime/adaptive_controller_loop.py:678-696 | the first reveals up to the limit survive in order, and so do all other actions when it is positive |
| `ActionLimit.LimitKeepsOthersIff` | scripts/runtime/adaptive_controller_loop.py:678-696 | other actions are all kept exactly when the limit is positive or there are none |
| `LoopInvariant.RowsMatchSentUnlocks` | scripts/runtime/adaptive_controller_loop.py:447-509 | matching decisions by exposed asset records exactly the unlocks that were sent, in order, each under its own decision |
| `VisitResults.VisitRevealsIff` | scripts/runtime/adaptive_controller_loop.py:113-200 | a visit reveals exactly if there is unseen evidence and the gate is open, as far as state and feedback are kept, and the controller has a main reveal for the binding in use |
| `VisitResults.NoBindingNoReveal` | scripts/runtime/adaptive_controller_loop.py:127-133 | nobody without a binding is revealed anything |
| `VisitResults.PassBegins` | scripts/runtime/adaptive_controller_loop.py:89-112 | a pass begins with the bindings and profiles as they are, and first settles the pending rows by what was seen meanwhile |
| `VisitResults.VisitMarks` | scripts/runtime/adaptive_controller_loop.py:113-232 | a visit leaves everything alone when there is nothing new or no binding, else marks the evidence of its profile, and only a reveal changes the honeynet and the ledger |
| `VisitResults.MarkingIs` | scripts/runtime/adaptive_controller_loop.py:666-675 | marking puts the ids behind those the attacker has, each once, and leaves other attackers alone |
| `VisitResults.SceneIsAsked` | services/controller/domain.py:163-196 | what the controller is asked: the binding's reveals as the pass read them, the techniques known well enough, and the prior's advice on these |
| `VisitResults.SentAreDecided` | scripts/runtime/adaptive_controller_loop.py:195-204 | what is sent is the main reveal and, if the limit allows two, the explore reveal, each as the unlock or the configuration decided on |
| `VisitResults.VisitRecords` | scripts/runtime/adaptive_controller_loop.py:447-509 | a visit appends one pending row for each unlock it sends and for nothing else, with its time, asset, group and context, and the list of assets unlocked together |
| `LoopInvariant.LoopOk` | scripts/runtime/adaptive_controller_loop.py:89-234 | every run keeps the honeynet's invariant, one row per binding and asset, batches that are equal or disjoint, rows of unlocked assets in order of time, and conserved counters |
| `LoopRunner.AdaptiveLoopService.TickOnce` | scripts/runtime/adaptive_controller_loop.py:89-234 | one pass over all profiles is one run of the loop's steps, and the count it returns is that of the reveals sent along it |
| `LoopRunner.AdaptiveLoopService.LookAt` | scripts/runtime/adaptive_controller_loop.py:113-232 | the branches for one profile, each with what it marks as processed |
| `LoopRunner.AdaptiveLoopService.Consult` | scripts/runtime/adaptive_controller_loop.py:113-200 | the early exits compute what a visit decides to do |
| `LoopRunner.AdaptiveLoopService.RecordRevealFeedback` | scripts/runtime/adaptive_controller_loop.py:447-509 | the loops record the specified rows |
| `LoopRunner.AdaptiveLoopService.MarkEvidenceProcessed` | scripts/runtime/adaptive_controller_loop.py:666-675 | appends the new evidence ids of the attacker |
| `LoopProperties.OnlyUnlockedAssetsAreReachableInLoop` | scripts/runtime/adaptive_controller_loop.py:89-234 | the reachability guarantee holds in every state of the running loop |
| `LoopProperties.DependenciesComeFirst` | scripts/runtime/adaptive_controller_loop.py:195-204 | in every run, an asset the loop unlocks has all its dependencies unlocked for the binding at the moment the action is applied, though the loop works on a snapshot and may cut reveals off |
| `LoopClosure.UnlockedStaysClosed` | scripts/runtime/adaptive_controller_loop.py:89-234 | with catalogues whose targets need only what their source needs, and no unlocks from outside, what any binding has unlocked is closed under dependencies in every reachable state |
| `LoopCap.UnlockedStaysWithinCap` | scripts/runtime/adaptive_controller_loop.py:89-234 | with catalogues whose targets are their own sources, and no unlocks from outside, no binding has more assets unlocked than the cap allows in any reachable state, though both reveals of a tick are chosen before either is applied and the loop works on a snapshot |
| `LoopTargets.VisitsKeepClosedIff` | scripts/runtime/adaptive_controller_loop.py:113-232 | with any settings under which reveals are sent, every visit of the loop keeps what is unlocked closed exactly when each target that can be revealed needs only what its source needs |
| `LoopTargets.VisitsKeepCapIff` | scripts/runtime/adaptive_controller_loop.py:113-232 | and every visit stays within the cap exactly when there is no room at all or each target that can be revealed is its own source |
| `LoopProperties.LedgerIsConserved` | scripts/runtime/adaptive_controller_loop.py:512-563 | in every run, revealed is the number of rows and the sum of pending, useful, shallow and ignored, and each counter is the number of rows of its status |
| `LoopProperties.ResolvedRowsStay` | scripts/runtime/adaptive_controller_loop.py:534-557 | in every run, rows keep their place and a resolved row never changes |
| `LoopProperties.FurtherRevealsAreAnswered` | scripts/runtime/adaptive_controller_loop.py:137-160 | in every run, a further reveal is sent only after an answer to, or a touch of, the batch that was recorded last |
| `LoopProperties.NoRevealWithoutResponse` | scripts/runtime/adaptive_controller_loop.py:137-160 | along any run in which a newest batch is neither answered nor touched, nothing more is recorded for the binding, no visit sends a reveal of any kind to it, and the gate stays shut |
| `LoopProperties.IgnoredBatchBlocksForGood` | scripts/runtime/adaptive_controller_loop.py:279-336 | after an ignored batch the gate is open exactly for a profile that touches it, ever after |
| `LoopProperties.RevealCanHappen` | scripts/runtime/adaptive_controller_loop.py:89-234 | for every attacker, catalogue and profile with a candidate, whatever the limit, there is a run from the start to a visit that decides to reveal, and sends it when the limit is positive |
| `LoopProperties.EvidenceTriggersOnce` | scripts/runtime/adaptive_controller_loop.py:117-126 | evidence that a visit has looked at, also at a shut gate, never triggers another one |
| `Confidence.SummarizeDimension` | services/profiler/domain.py:206-230 | the nested loops compute the confidence of every key in order of first occurrence |
| `Confidence.SumOfBest` | services/profiler/domain.py:216-227 | the loop computes the sum over different fingerprints of their largest weight |
| `Confidence.SameFingerprintIff` | services/profiler/domain.py:232-272 | two pieces of evidence have the same fingerprint exactly when they agree on every key it looks at, and on reason and success when none is there |
| `Confidence.SameFingerprint` | services/profiler/domain.py:232-272 | in particular for the keys the profiler uses |
| `Confidence.ScoreDependsOnEvidenceOnly` | services/profiler/domain.py:206-230 | order and repetition of evidence do not matter |
| `Confidence.SummaryIgnoresOrder` | services/profiler/domain.py:206-230 | a summary has the same entries whatever the order of the evidence |
| `Confidence.ScoreGrowsByExcess` | services/profiler/domain.py:216-227 | one more piece adds exactly what it surpasses the best of its fingerprint by |
| `Confidence.MoreEvidenceNeverLowers` | services/profiler/domain.py:226-228 | for an increasing curve, more evidence never lowers a rounded confidence |
| `ProfileResults.TechniqueConfidence` | services/profiler/domain.py:206-230 | the confidence of every technique of a profile is the curve at the sum, over the different fingerprints of the recent evidence of it, of their largest weights, to four decimals |
| `ProfileResults.TacticConfidence` | services/profiler/domain.py:206-230 | and that of every tactic likewise |
| `Rounding.HalvesGoToEven` | services/profiler/domain.py:226-228 | rounding goes to the nearest, from the middle to the even one |
| `ProfileResults.ConfidencesIff` | services/profiler/domain.py:122-170 | exactly the techniques and tactics of recent evidence have a confidence |
| `ProfileResults.SameMarkIff` | services/profiler/domain.py:232-272 | two pieces of evidence have the same fingerprint exactly when they agree on the twenty-four fields it looks at, and on reason and success when none is there |
| `ProfileResults.RecentIff` | services/profiler/domain.py:122-140 | recent is what is stored and no older than the window counted from the newest |
| `ProfileResults.NewestFive` | services/profiler/domain.py:122-171 | the ids of a profile are those of the up to five newest pieces of recent evidence, in the order of time |
| `ProfileResults.BreadcrumbsIff` | services/profiler/domain.py:396-456 | paths, rules and indicators of a surface are exactly what recent evidence from there says in these fields |
| `Profiler.MappingsFromTags` | services/profiler/domain.py:278-336 | the loop pairs every technique with the nearest tactic before it, falling back to bare tactics and to one empty mapping |
| `ProfileResults.MappingsIff` | services/profiler/domain.py:278-336 | an event is mapped exactly to its techniques, each with what the nearest tactic tag before it names or else the catalogue's tactic; without one to the tactics named; without either to nothing, once |
| `Profiler.EvidenceFor` | services/profiler/domain.py:85-120 | an event gives one piece of evidence for each mapping, with its own time, weight, outcome and fields, and the catalogue's tactic where the mapping names none |
| `Profiler.RecentAreThoseWithConfidence` | services/profiler/domain.py:122-170 | the recent techniques are those with a confidence, in order, and those of recent evidence |
| `Profiler.LatestIsListed` | services/profiler/domain.py:122-171 | evidence that is not older than the rest ends the list of recent ids |
| `Profiler.CollectValues` | services/profiler/domain.py:396-456 | the loop collects the values of a key, from one surface or from all, each once |
| `Profiler.BreadcrumbsAreObserved` | services/profiler/domain.py:122-204 | paths, rules and indicators of a surface are exactly those of recent evidence from there, and the assets those of any |
| `Profiler.UpdatedWithNewest` | services/profiler/domain.py:122-204 | a profile carries the time of the newest evidence that is stored |
| `Profiler.TouchOpensGate` | services/profiler/domain.py:66-80 | ingesting an event about an asset of the newest batch opens the response gate |
| `Profiler.IngestIsNoticed` | services/profiler/domain.py:66-80 | an event that is not older than what is stored is new to the next pass of the loop |
| `Profiler.ProfilerService.Ingest` | services/profiler/domain.py:66-120 | stores the mapped evidence with the reasons of the event and rebuilds the profile from all that is stored |
| `Profiler.ProfilerService.RebuildProfile` | services/profiler/domain.py:122-204 | the profile as a function of the stored evidence |

## Left out

- Docker and Compose calls, networks, volumes, artifacts: how a start goes and which containers are up are parameters.
- Requests over HTTP, the traces and the printed summaries.
- Interleaving inside one orchestration request sent by the loop: in `AdaptiveLoop` other events happen between visits, in `ControlPlane` between single actions.
- Bindings: the services read a record and write it back later, under the store's lock only for the write; here both are one step, so two updates of the same binding that overlap are not modelled.
- Reading the text of Sigma conditions: a condition is a tree, or a list of lower-case tokens; patterns are tokens joined by blanks.
- SigmaErasure.ErasureIsExactIff: is about conditions over different plain names, because a repeated name can make any shape exact by accident; so is `ErasedPlans.PlansNeverWeakenIff`.
- SigmaTerms.ConditionFiresIff: is about terms that are one word each; names that are words of the condition language or end in an asterisk are not plain names.
- RuleResults.WrittenCommandRulesFireIff: is about selections of process names and texts; selections with other expressions have `CowrieSigma.CommandRulesMeanCondition`.
- Field-level translation of a selection to a command match; `convert` is a parameter.
- CowrieSigma.SigmaRuleToCommandRules: names, levels, confidences and source references of the generated rules are not produced.
- Regular expressions other than the ones generated (text, case-insensitive text, options, lookahead); the order of alternatives in a merged list is not modelled.
- The evaluator of the high-interaction service, which repeats the entrypoint's.
- Exclusions.MergeOrIsExactIff: is for exclusions of a single kind each, with any expressions; mixed exclusions are characterised for plain texts (`ExclusionTests.MergeOrIsExactIffOnTests`), not for other expressions.
- CowrieSigma.PlanMatchesMeaning: is about commands for which the exclusions are merged without loss; for the others that the positive selections match, the rule is wrong (`CowrieSigma.PlanRuleIsRightIff`).
- CowrieSigma.CommandRulesMeanCondition: asks the same of each plan; completeness is claimed for one-line commands only, because lookahead stops at line ends.
- StoreProtocol.LostUpdate: the lock file, the temporary file and parsing errors are not modelled; a crash between rename and release counts as committed.
- Asset ids that are not read back from the route log (`RouteLog.ExposedIsReadBack`): `ControlPlane` takes log entries apart without going through text.
- Unknown bindings: the source raises, the services here return nothing and change nothing.
- BindingResults.RecycledIsReplacedIff: is about the resolution that follows at once; over whole runs there is `Stickiness.BindingSticks`.
- Backend instance ids, volumes and metadata of bindings; an attacker key that is empty stands for none.
- TemplateRuntime.HybridRuntime.StartWithMock: without the runtime override of the mock adapter, because the runtime that dispatches sends overridden starts to Docker.
- TemplateRuntime.HybridRuntime.ResolvePortMappings: for the list of mappings of a gateway-managed backend, not for the old format nor for published ports.
- Reachability.OnlyUnlockedAssetsAreReachable: is about the default without the single-route fallback; what the fallback does is `RouteTable.FallbackLeaksIff`.
- Reachability.LastRevealOwnsPort: counts as reveals the starts that published routes; a backend outside the gateway's management publishes none.
- ConfigureResults.ConfigurationIsAdded: is about configurations that bring no runtime and show nothing else; of the others `ConfigureResults.ConfigurationIsAttached` says what ends up on the backend.
- Orchestrator.OrchestratorService.Prewarm: does not return the lists of warmed and failed assets.
- Orchestrator.GatewayService.Sync: does not keep the list of failed assets, which may overlap with the accessible ones; nor is the mode without any runtime modelled.
- Controller.Tick: returns the two reveals, without the decision events, the rejections and the ids of the candidates; the contents of an upgrade context beyond whether there is one are not modelled.
- Floating point: scores are exact reals, rounded half to even where the source rounds; the curve `1 - exp(-x)` is a parameter.
- ControllerProperties.CatalogueOrderDoesNotMatter: asks that no two different candidates of a pass have the same ordering key, because the source breaks ties by catalogue order.
- ControllerProperties.NoActionTwice: configurations are told apart by id only in catalogues with different ids, which the source does not check.
- LoopProperties.DependenciesComeFirst: asset and configuration names are taken to be non-empty, as the catalogue's parser makes them for configurations.
- LoopClosure.UnlockedStaysClosed: says nothing of unlocks that somebody else than the loop sends; nor does `LoopCap.UnlockedStaysWithinCap`.
- LoopTargets.VisitsKeepClosedIff: the visit that does harm starts in a state of the invariant that every run keeps, not at the end of a run that is given.
- TargetTicks.TicksKeepClosedIff: is about catalogues with different ids for different assets and for different configurations of an asset; with repeated ids one variant can hide another, so that fewer targets can do harm.
- LoopRunner.AdaptiveLoopService.TickOnce: a request that fails ends a pass in the source.
- Feedback.FeedbackRepository.RecordReveal: the list of available assets, which nothing reads, is not kept; `record_outcome`, which the loop does not call, is not modelled.
- Feedback.FeedbackRepository.UpdateFromEvidence: the time at which a row was resolved is not recorded.
- How an event is parsed: `Profiler` starts from the tags and fields of an event and from the reasons given for its mappings.
- Dashboards, forwarders, dataset fetchers, report scripts and offline metrics.
