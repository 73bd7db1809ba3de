# Rule layer of the AI training-plan recommender

This project models the deterministic rule layer of a service. The service turns a child's cognitive-assessment profile and training history into a training plan. The model covers three Python files and proves properties of the model.

- **plan_rule_engine.py** holds two functions. `calc_user_type` classifies a profile into one of four user types with an ordered cascade over the positive level-1 scores. `get_fixed_templates` looks up the fixed plan text of a user type and falls back to the Potential entry.
- **modules_processor.py** holds `fetch_tasks_by_ability` and three text helpers. `fetch_tasks_by_ability` scans the missed tasks, keeps those matching an ability, groups their names by paradigm (at most two per paradigm, stopping the whole scan at a third), and renders `paradigm（a、b）、…`. The helpers are `calc_difficulty`, `fetch_frequency` and `generate_goal_by_llm`.
- **task_processor.py** holds `process_task_info`, which buckets catalog tasks by ability into four fixed lists.

The modules follow the program:

| file | module | form |
|---|---|---|
| options.dfy | `Options` | the optional value for keys that may be absent |
| constants.dfy | `Constants` | the user types and their strings (`app/core/constants.py`); the four ability keys, which the services write as literals (`app/services/task_processor.py`, `app/services/plan_rule_engine.py`) |
| schemas.dfy | `Schemas` | the missed-task record (`app/schemas/common.py`) |
| plan_rule_engine.dfy | `PlanRuleEngine` | functions and lemmas: the source is pure |
| modules_processor.dfy | `ModulesProcessor` | a method with two loops for the matcher, functions for the helpers |
| task_processor.dfy | `TaskProcessor` | a method with a loop over the catalog |

Each method is proved against a specification function: `Render(MatchedGroups(...))` for the matcher and `Bucket` for the catalog grouping. The properties are lemmas about those functions. `MatchedGroups` is the skip/stop/append scan exactly as written. It also has an independent reference definition, proved equal to it by `MatchedGroupsReference`: group every kept entry before the first entry that is the third of its paradigm.

Facts about the code that the model follows:

- The cascade in `calc_user_type` is Special, then Advantage, then Potential, then Growth, then Potential by default. Its thresholds are 110/20, 150, 80–110/120 and 80/60. The thresholds at app/core/constants.py:26-27 are not used.
- `home_advice` has 3, 3, 2 and 3 items for Advantage, Potential, Special and Growth.
- The matcher compares `level2_brain` to the key by plain equality.

Where the program's docstrings and its code disagree, the code is followed:

- app/services/modules_processor.py:12 describes a cap of two tasks per paradigm. The `break` at app/services/modules_processor.py:38 ends the whole scan at the first kept task whose paradigm already holds two names, so later tasks of every paradigm are dropped.
- app/services/modules_processor.py:67 says the goal text comes from a language model. Line 69 returns a fixed template around the ability name.
- app/services/modules_processor.py:53 describes a computed training difficulty. Line 55 returns one fixed text whatever the ability and score.

## Model

| member | source | states |
|---|---|---|
| Constants.Parse | app/core/constants.py:5-9 | a string is recognised as a user type only if it is that type's own string |
| Constants.Label | app/core/constants.py:5-9 | each user type carries its own enum string; `ParseLabel` shows the four strings are pairwise distinct |
| Constants.ParseLabel | app/core/constants.py:5-9 | every user type's string reads back as that type, so the four strings are pairwise distinct |
| PlanRuleEngine.Max | app/services/plan_rule_engine.py:28-29 | the maximum is one of the scores and no score exceeds it |
| PlanRuleEngine.Min | app/services/plan_rule_engine.py:30 | the minimum is one of the scores and no score is below it |
| PlanRuleEngine.Positive | app/services/plan_rule_engine.py:24 | the kept scores are positive, and each positive value is kept exactly as often as it occurs |
| PlanRuleEngine.ScoreOf | app/services/plan_rule_engine.py:12-15 | a missing profile key reads as 0, a present one as its value |
| PlanRuleEngine.AverageBelow | app/services/plan_rule_engine.py:31 | comparing `sum < c * n` is the same as comparing the real average `sum / n < c`, for every positive count |
| PlanRuleEngine.GapAtLeast | app/services/plan_rule_engine.py:31-35 | comparing `n * max - sum >= 20 * n` is the same as comparing `max - sum / n >= 20` on reals, for every positive count |
| PlanRuleEngine.Classify | app/services/plan_rule_engine.py:25-56 | the cascade is total over the four types; no scores give Growth, and each result is justified by its own rule (Advantage also by rule 1 failing) |
| PlanRuleEngine.CalcUserType | app/services/plan_rule_engine.py:3-56 | every profile gets exactly one of the four types; no positive score gives Growth, and Special implies rule 1 |
| PlanRuleEngine.NoDataIsGrowth | app/services/plan_rule_engine.py:12-26 | when all four scores are missing or at most 0 the result is Growth |
| PlanRuleEngine.NonPositiveIsInvisible | app/services/plan_rule_engine.py:24 | setting one score to another non-positive value, or removing its key, does not change the type when it was non-positive |
| PlanRuleEngine.SumPermutation | app/services/plan_rule_engine.py:31 | the sum depends only on the multiset of scores |
| PlanRuleEngine.CountPermutation | app/services/plan_rule_engine.py:40-46 | the threshold counts depend only on the multiset of scores |
| PlanRuleEngine.ExtremaPermutation | app/services/plan_rule_engine.py:28-30 | the maximum and the minimum depend only on the multiset of scores |
| PlanRuleEngine.ClassifyPermutation | app/services/plan_rule_engine.py:28-56 | the cascade gives the same type for any two orderings of the same scores |
| PlanRuleEngine.CalcUserTypeSymmetric | app/services/plan_rule_engine.py:28-52 | two profiles with the same multiset of positive scores get the same type, whichever abilities hold them |
| PlanRuleEngine.PermutedScoresSameType | app/services/plan_rule_engine.py:12-52 | permuting the four scores among perception, exec, attention and memory does not change the type |
| PlanRuleEngine.SpecialHasPrecedence | app/services/plan_rule_engine.py:35-42 | when the top score is at least 110 and at least 20 above the average, the type is Special even if two scores are 150 or more |
| PlanRuleEngine.SpecialExactly | app/services/plan_rule_engine.py:35-36 | the type is Special if and only if rule 1 holds |
| PlanRuleEngine.AdvantageExactly | app/services/plan_rule_engine.py:35-42 | the type is Advantage if and only if rule 1 fails and at least two positive scores are 150 or more |
| PlanRuleEngine.PotentialExactly | app/services/plan_rule_engine.py:44-56 | the type is Potential if and only if there is a positive score, rules 1 and 2 fail, and rule 3 holds or rule 4 fails (the default return) |
| PlanRuleEngine.GrowthExactly | app/services/plan_rule_engine.py:24-53 | the type is Growth if and only if there is no positive score, or rules 1 to 3 fail and the average is below 80 or the minimum below 60 |
| PlanRuleEngine.SpecialNeedsTwoScores | app/services/plan_rule_engine.py:35-36 | Special needs at least two positive scores, because one score equals its own average |
| PlanRuleEngine.DefaultPotentialBounds | app/services/plan_rule_engine.py:52-56 | a Potential result from the default return has every positive score at least 60 and an average of at least 80 |
| PlanRuleEngine.GetFixedTemplates | app/services/plan_rule_engine.py:60-144 | a user-type string gets its own entry, any other string the Potential entry, and every result has two tracking items and two or three home-advice items |
| PlanRuleEngine.Templates | app/services/plan_rule_engine.py:61-143 | the table is keyed by exactly the four user-type strings; every entry has two tracking items, the second the shared iteration rule, and two or three home-advice items |
| PlanRuleEngine.TemplatesDistinct | app/services/plan_rule_engine.py:61-143 | the entries of two different user types differ |
| PlanRuleEngine.TemplateShape | app/services/plan_rule_engine.py:72-141 | Special has two home-advice items and the other types three; each type has two tracking items, the second being the same iteration rule |
| PlanRuleEngine.TemplateForProfile | app/services/plan_rule_engine.py:144 | the entry chosen for a classified profile is its own type's entry, never the fallback |
| ModulesProcessor.MissedTasks | app/services/modules_processor.py:17 | a missing `weekly_missed_task_infos` key reads as the empty list, a present one as its stored list |
| ModulesProcessor.Eligible | app/services/modules_processor.py:23-34 | the filter: paradigm and name present and non-empty, and the level-1 or level-2 tag equal to the key; `SkipIneligible` and `Provenance` state its effect |
| ModulesProcessor.Scan | app/services/modules_processor.py:20-40 | groups already collected keep their place, new paradigms come after them, and no paradigm gets a second group |
| ModulesProcessor.MatchedGroups | app/services/modules_processor.py:20-40 | the groups collected from an empty start have pairwise distinct paradigms |
| ModulesProcessor.FetchTasksByAbility | app/services/modules_processor.py:5-48 | the result is the rendering of the groups the scan collects: kept tasks grouped by paradigm, stopped at the first kept task whose paradigm already has two names |
| ModulesProcessor.IndexOf | app/services/modules_processor.py:20-37 | the lookup finds a paradigm's group at its first position, or reports that there is none |
| ModulesProcessor.Append | app/services/modules_processor.py:40 | appending a name extends that paradigm's group in place, or opens a new last group; paradigms stay distinct |
| ModulesProcessor.MatchedGroupsReference | app/services/modules_processor.py:22-40 | the scan equals grouping every kept task before the first kept task that is the third of its paradigm |
| ModulesProcessor.FetchEmptyExactly | app/services/modules_processor.py:17-48 | the result is "" if and only if no missed task is complete and matching; it is "" when the missed-task key is absent |
| ModulesProcessor.SkipIneligible | app/services/modules_processor.py:23-34 | removing a task with no paradigm, an empty paradigm or name, or non-matching brain tags leaves the groups unchanged |
| ModulesProcessor.Provenance | app/services/modules_processor.py:23-40 | every name shown belongs to a complete missed task whose level-1 or level-2 tag equals the key, under that task's paradigm |
| ModulesProcessor.GroupCap | app/services/modules_processor.py:20-40 | each paradigm has at most one group and each group holds one or two names |
| ModulesProcessor.EarlyStop | app/services/modules_processor.py:37-38 | after a kept task whose paradigm already holds two names, no later task of any paradigm changes the result |
| ModulesProcessor.StopMeansThird | app/services/modules_processor.py:37-38 | the scan stops only at a kept task that has at least two earlier kept tasks of its paradigm |
| ModulesProcessor.NothingDroppedBelowCap | app/services/modules_processor.py:22-40 | when no paradigm has more than two kept tasks, every kept task is shown |
| ModulesProcessor.GroupOrder | app/services/modules_processor.py:20-46 | groups appear in first-occurrence order of their paradigms, and each group's names keep input order |
| ModulesProcessor.Render | app/services/modules_processor.py:43-48 | the rendering is empty if and only if there are no groups |
| ModulesProcessor.RenderGroupsAt | app/services/modules_processor.py:44-46 | the i-th rendered piece is `paradigm（names joined by 、）` of the i-th group |
| ModulesProcessor.ExampleEarlyStop | app/services/modules_processor.py:22-48 | on a concrete list the third P1 task ends the scan: the output is `P1（A、B）、P2（C）` and a later P2 task is not shown |
| ModulesProcessor.CalcDifficulty | app/services/modules_processor.py:51-55 | the difficulty text is the fixed `当前能力层级+0.5~1级` |
| ModulesProcessor.FetchFrequency | app/services/modules_processor.py:58-62 | the frequency text is the fixed `每日1次，每次4-8分钟` |
| ModulesProcessor.GenerateGoalByLlm | app/services/modules_processor.py:65-69 | the goal text is the ability name between the fixed prefix `强化` and the fixed suffix, with nothing else |
| ModulesProcessor.GoalSubject | app/services/modules_processor.py:65-69 | reading an ability name out of a text succeeds only on a text that the goal template produces for that name |
| ModulesProcessor.GoalRoundTrip | app/services/modules_processor.py:65-69 | the ability name is read back from its goal text |
| ModulesProcessor.GoalInjective | app/services/modules_processor.py:65-69 | distinct ability names give distinct goal texts |
| TaskProcessor.TasksOf | app/services/task_processor.py:4 | a missing `tasks` key reads as the empty list, a present one as its stored list |
| TaskProcessor.Bucket | app/services/task_processor.py:13-16 | a bucket is no longer than the input and holds only input tasks of its ability |
| TaskProcessor.ProcessTaskInfo | app/services/task_processor.py:3-18 | the result has exactly the four ability keys; each bucket is the input filtered to that ability in input order; a missing `tasks` key gives four empty buckets |
| TaskProcessor.BucketMultiplicity | app/services/task_processor.py:13-16 | a task occurs in a bucket as often as in the input when its ability is that key, and otherwise not at all |
| TaskProcessor.Partition | app/services/task_processor.py:13-16 | a task is in a bucket if and only if it is in the input with that ability |
| TaskProcessor.MatchingIndices | app/services/task_processor.py:13-16 | the input positions of one ability's tasks, increasing and complete |
| TaskProcessor.BucketInOrder | app/services/task_processor.py:13-16 | the bucket lists exactly the tasks at those positions, in increasing order |
| TaskProcessor.BucketSizes | app/services/task_processor.py:13-16 | the four bucket sizes add up to the number of tasks with a recognised ability, which is at most the input length |

## Left out

- Floating point: the average is a float division at app/services/plan_rule_engine.py:31. The model keeps scores as integers and states each average comparison exactly by multiplying through by the count. `AverageBelow` (rules 3 and 4) and `GapAtLeast` (rule 1) relate these to real division. Float rounding is not modelled.
- Profile values are modelled as integers. A float, `None` or non-numeric score in the profile record is not modelled.
- A `weekly_missed_task_infos` or `tasks` key present with the value `None` makes the source raise a `TypeError` at the `for` loop (app/services/modules_processor.py:22, app/services/task_processor.py:13). The optional encoding cannot express that case; it reads such a record as a missing key and returns the empty result.
- Template prose: each passage of `get_fixed_templates` is a short tag. Passages that are identical in the source share a tag. The record shape, the list lengths and the lookup are kept.
- `level2_brain` is declared a list at app/schemas/common.py:15. The matcher compares the raw value to the key with `!=`, so it is modelled as one optional string compared by equality. A list-valued field would never match by that comparison; the model does not represent list values.
- Task records carry only the fields the matcher reads: name, paradigm, level-1 and level-2 brain tags. A record with a missing `name` key is modelled as an empty name, which the matcher treats the same way.
- The rendered string is not parsed back into groups. Paradigm or task names may themselves contain `、`, `（` or `）`, so the rendering is not injective in general.
- app/services/chat_service.py is not part of this model. It loads configuration, calls the profile and task services and a language model, and calls `process_task_info` with two arguments against its one-parameter definition.
- Network clients, language-model wrappers, FastAPI routing, transport schemas and YAML configuration loading are I/O and are not part of this model.
