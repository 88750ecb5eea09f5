# Invigilation scheduling, modelled in Dafny

This project models the core of a web application that plans exam
invigilation. Teachers are assigned to exam rooms, each room in a session
needing a set number of invigilators. The model covers:

- **Basic engine.** Pinned tasks come first, designated then forced. A
  clashing pin is written as a conflict marker. Every remaining seat then
  goes to the eligible teacher with the lightest (count, minutes)
  workload, or to the unassignable marker. The result is sorted by start
  time, then room.
- **Scored engine.** A base score of 100 is adjusted for history and
  experience. Per-seat bonuses and maluses are added. Each pick lowers
  the picked teacher's score by 10.
- **Conflict detector.** It reports markers, time overlaps between a
  teacher's consecutive duties, repeated rooms and excluded duties.
- **Scheduling hook.** It covers swapping and re-assigning entries,
  editing exclusions and the validation gate before generation.
- **Data checks.** Input validation, CSV and cell parsing, and the
  teacher and schedule import rules.
- **Outputs.** The pivoted spreadsheet export and the statistics ranking
  with its duration text and badges.
- **Application glue.** Session grouping, the cumulative history export,
  the application store's wizard step and persisted slice, the rule-panel
  list updaters, and the virtual-scroll window.

Each module follows one source file:

- `scheduling.dfy`: `project/src/utils/schedulingAlgorithm.ts`
- `advanced_scheduling.dfy`: `src/utils/advancedSchedulingAlgorithm.ts`
- `conflict_detection.dfy`: `src/utils/conflictDetection.ts`
- `scheduling_hook.dfy`: `src/hooks/useScheduling.ts`
- `validation.dfy`: `project/src/utils/validation.ts`
- `file_processing.dfy`: `project/src/utils/fileProcessing.ts`
- `export.dfy`: `src/utils/export.ts`
- `statistics.dfy`: `src/components/StatisticsPanel.tsx`
- `app.dfy`: `src/App.tsx`
- `rules_panel.dfy`: `src/components/RulesPanel.tsx`
- `store.dfy`: `src/store/index.ts`
- `virtualization.dfy`: `src/hooks/useVirtualization.ts`

`src/hooks/useScheduling.ts:3-4` imports the basic engine and validation
from `src/utils`, where no copy of those files is part of this model; the
hook's model uses the `project/src/utils` versions of both.

Four modules are shared:

- `domain.dfy`: records, markers, clock and date keys.
- `common.dfy`: sequence helpers.
- `sorting.dfy`: a stable insertion sort with its permutation,
  sortedness and stability lemmas.
- `text.dfy`: trimming, splitting, number text.

Code that mutates state is modelled as methods with loops:

- the engines' placement loops;
- the conflict scan;
- the CSV character loop;
- the import loops;
- the pivot `forEach`;
- the session grouping.

Each such method is proved equal to a fold written as a function, and
the source's promises are proved about that function. The store and the
hook are classes whose setters state their whole new state. The history
export is modelled with record objects, so that the sharing created by
its shallow copy can be stated (see Findings).

The two engines place pins in opposite orders. The basic engine places
all designated pins before all forced pins
(`project/src/utils/schedulingAlgorithm.ts:25-36`). The scored engine
runs the forced loop first and the designated loop after it
(`src/utils/advancedSchedulingAlgorithm.ts:90-137`). The model keeps
each engine's own order.

## Model

| member | source | states |
|---|---|---|
| Scheduling.Record | project/src/utils/schedulingAlgorithm.ts:128-140 | recording a duty adds one duty of the schedule's length to that teacher and leaves every other teacher's load unchanged |
| Scheduling.InitWorkload | project/src/utils/schedulingAlgorithm.ts:16-20 | the seeding loop builds exactly the seed map of the teacher list |
| Scheduling.SeedLoad | project/src/utils/schedulingAlgorithm.ts:17-19 | a listed teacher starts from their history, or (0, 0) without one; an unlisted name reads as (0, 0) |
| Scheduling.DesignatedPins | project/src/utils/schedulingAlgorithm.ts:26-29 | definition: the designated tasks as pins, in task order; what the pin list promises is stated by Scheduling.PreAssigned and Scheduling.DesignatedBeforeForced |
| Scheduling.ForcedPins | project/src/utils/schedulingAlgorithm.ts:30-33 | definition: the forced tasks as pins, in task order; what the pin list promises is stated by Scheduling.PreAssigned and Scheduling.DesignatedBeforeForced |
| Scheduling.PreAssigned | project/src/utils/schedulingAlgorithm.ts:25-34 | the pin list holds every designated pin before every forced pin |
| Scheduling.FindPinSchedule | project/src/utils/schedulingAlgorithm.ts:37-40 | the index found is the first schedule whose id starts with the pin key and whose room matches; none exactly when no schedule matches |
| Scheduling.PinPhaseAppend | project/src/utils/schedulingAlgorithm.ts:36-61 | the pin loop over a concatenation runs the first part, then the second |
| Scheduling.DesignatedBeforeForced | project/src/utils/schedulingAlgorithm.ts:25-36 | all designated pins are placed before any forced pin |
| Scheduling.PinStep | project/src/utils/schedulingAlgorithm.ts:37-60 | definition: one pin placed, or its conflict marker written; promises in Scheduling.PinStepEffect and Scheduling.PinStepBooked |
| Scheduling.PinStepEffect | project/src/utils/schedulingAlgorithm.ts:37-60 | a pin without a matching schedule adds nothing; otherwise it appends the first matching schedule with the pin's source, carrying the conflict marker and leaving the workload alone when the teacher overlaps that day, else carrying the teacher and recording the duty |
| Scheduling.ConflictMarkerIsMarker | project/src/utils/schedulingAlgorithm.ts:51 | both conflict texts start with `!!`; for a teacher name without a line break the seat check reads back from them the text after the name's last `: `, the whole name when it has none |
| Scheduling.GetRemainingSlots | project/src/utils/schedulingAlgorithm.ts:148-167 | the loop builds exactly the demand list |
| Scheduling.DemandsShape | project/src/utils/schedulingAlgorithm.ts:151-163 | each schedule yields max(0, required minus seats held by people) demands: every demand is such a copy with id `<id>_auto_<i>`, and every copy of every schedule is among them |
| Scheduling.AssignmentOrder | project/src/utils/schedulingAlgorithm.ts:121-125 | the final order compares start instants first and rooms only at the same instant |
| Scheduling.FillStep | project/src/utils/schedulingAlgorithm.ts:74-118 | one fill appends exactly one entry and keeps the list before it |
| Scheduling.FillPhase | project/src/utils/schedulingAlgorithm.ts:74-118 | the fill loop appends one entry per demand |
| Scheduling.InSlot | project/src/utils/schedulingAlgorithm.ts:75-77 | definition: `assignedTeachersInSlot`, the unwrapped teachers already on the seat; promises in Scheduling.InSlotHolds and Scheduling.SeatMarkerBarsLastPart |
| Scheduling.EligibleFor | project/src/utils/schedulingAlgorithm.ts:169-206 | definition: the test of `getEligibleTeachers`; promises in Scheduling.FillStepChoice and Scheduling.FillNeverDoubleBooks |
| Scheduling.FillStepChoice | project/src/utils/schedulingAlgorithm.ts:88-117 | a fill either finds nobody eligible and writes the unassignable marker without touching the workload, or picks the eligible teacher with the least (count, minutes), earliest in the teacher list among equals, and records the duty |
| Scheduling.FillNeverDoubleBooks | project/src/utils/schedulingAlgorithm.ts:176-206 | when anyone is eligible, the seat goes to a listed teacher who is not in `assignedTeachersInSlot` (so a person whose name has no `!!` and who already holds the seat is never chosen again), has no overlapping duty that day, is not excluded and has not served in this room |
| Scheduling.InSlotHolds | project/src/utils/schedulingAlgorithm.ts:75-77 | every assignment on the seat puts its unwrapped teacher into `assignedTeachersInSlot` |
| Scheduling.SeatMarkerBarsLastPart | project/src/utils/schedulingAlgorithm.ts:75-77 | a seat holding the lock-conflict marker of the name `A: B` puts `B` into `assignedTeachersInSlot`, so `B` is barred from that seat |
| Scheduling.FillPhasePrefix | project/src/utils/schedulingAlgorithm.ts:74-118 | the list after the first j demands is the first part of the final list |
| Scheduling.FillPhaseChoices | project/src/utils/schedulingAlgorithm.ts:74-118 | every demand is filled as a single fill promises, judged against the state after the demands before it |
| Scheduling.PinStepBooked | project/src/utils/schedulingAlgorithm.ts:42-60 | a pin keeps every person's workload equal to seed plus duties held |
| Scheduling.FillStepBooked | project/src/utils/schedulingAlgorithm.ts:100-116 | a fill keeps every person's workload equal to seed plus duties held |
| Scheduling.PinPhaseBooked | project/src/utils/schedulingAlgorithm.ts:36-61 | the pin loop preserves the workload bookkeeping |
| Scheduling.FillPhaseBooked | project/src/utils/schedulingAlgorithm.ts:74-118 | the fill loop preserves the workload bookkeeping |
| Scheduling.Engine | project/src/utils/schedulingAlgorithm.ts:12-126 | definition: the whole run before the final sort; promises in Scheduling.GenerateOptimalAssignments, Scheduling.EngineWorkload, Scheduling.EngineAutoCount and Scheduling.FillPhaseChoices |
| Scheduling.GenerateOptimalAssignments | project/src/utils/schedulingAlgorithm.ts:12-126 | the result is a permutation of the pin and fill entries, sorted by start instant then room, with placement order kept among equal keys |
| Scheduling.RunPins | project/src/utils/schedulingAlgorithm.ts:36-61 | the pin loop computes the pin phase |
| Scheduling.RunFills | project/src/utils/schedulingAlgorithm.ts:74-118 | the fill loop computes the fill phase |
| Scheduling.PlacePin | project/src/utils/schedulingAlgorithm.ts:37-60 | the pin loop body computes one pin step |
| Scheduling.FillSlot | project/src/utils/schedulingAlgorithm.ts:75-117 | the fill loop body computes one fill step |
| Scheduling.EngineWorkload | project/src/utils/schedulingAlgorithm.ts:15-118 | after the run every listed teacher's workload is their history plus the duties they hold in the returned list |
| Scheduling.PinPhaseNotAuto | project/src/utils/schedulingAlgorithm.ts:49-53 | pins never produce `auto` entries |
| Scheduling.FillPhaseAuto | project/src/utils/schedulingAlgorithm.ts:101-116 | every demand produces exactly one `auto` entry |
| Scheduling.EngineAutoCount | project/src/utils/schedulingAlgorithm.ts:63-118 | the `auto` entries number exactly the demands left after the pins |
| AdvancedScheduling.KeysOf | src/utils/advancedSchedulingAlgorithm.ts:55-87 | definition: the names of the score table in entry order; its promises are stated by AdvancedScheduling.Put, AdvancedScheduling.InitialScoresKeys and AdvancedScheduling.AdvEngineScores |
| AdvancedScheduling.FindEntry | src/utils/advancedSchedulingAlgorithm.ts:110-113 | the position found holds the name and no earlier entry does; none exactly when no entry has the name |
| AdvancedScheduling.Put | src/utils/advancedSchedulingAlgorithm.ts:80-84 | setting a known key keeps the key order; a new key goes last; distinct keys stay distinct |
| AdvancedScheduling.Adjust | src/utils/advancedSchedulingAlgorithm.ts:110-113 | adjusting a name moves only that entry's score by the delta and keeps every entry's teacher |
| AdvancedScheduling.Candidates | src/utils/advancedSchedulingAlgorithm.ts:157 | definition: the teachers of the score entries, in key order; what the fill does with them is stated by AdvancedScheduling.AdvFillStepChoice and AdvancedScheduling.AdvFillPhaseChoices |
| AdvancedScheduling.TotalDurationRemove | src/utils/advancedSchedulingAlgorithm.ts:64 | the total of the recorded minutes does not depend on the order the entries are summed in |
| AdvancedScheduling.SumHistory | src/utils/advancedSchedulingAlgorithm.ts:64 | the reduce loop computes the total of the recorded minutes |
| AdvancedScheduling.AverageComparisons | src/utils/advancedSchedulingAlgorithm.ts:64-71 | the cross-multiplied tests are exactly `duration < avg` and `duration > avg * 1.5` over the reals |
| AdvancedScheduling.BaseScore | src/utils/advancedSchedulingAlgorithm.ts:59-78 | definition: the starting score of a teacher; promises in AdvancedScheduling.BaseScoreCases and AdvancedScheduling.AverageComparisons |
| AdvancedScheduling.BaseScoreCases | src/utils/advancedSchedulingAlgorithm.ts:59-78 | the base score is 100 with balancing and experience off; 120 below the average and 85 above one and a half times it, plus 10 for more than ten duties when experience counts |
| AdvancedScheduling.InitialScoresKeys | src/utils/advancedSchedulingAlgorithm.ts:55-87 | the score table's keys are the distinct teacher names in order of first appearance |
| AdvancedScheduling.InitialScoresEntries | src/utils/advancedSchedulingAlgorithm.ts:57-85 | each entry holds the last listed teacher of that name with the base score of that name's history |
| AdvancedScheduling.FindContaining | src/utils/advancedSchedulingAlgorithm.ts:98-100 | the schedule found is the first whose id contains the key and whose room matches; none exactly when there is no such schedule |
| AdvancedScheduling.ForcedPhasePlaces | src/utils/advancedSchedulingAlgorithm.ts:97-115 | the forced loop keeps the list before it and appends one `forced` entry for each task whose session occurs in a schedule id of its room |
| AdvancedScheduling.MorningStartClock | src/utils/advancedSchedulingAlgorithm.ts:239-242 | for a zero-padded start time the morning bonus applies exactly from 08:00 to 10:59 |
| AdvancedScheduling.ClockHourField | src/utils/advancedSchedulingAlgorithm.ts:239 | the text before the colon of `HH:MM` is its two hour digits |
| AdvancedScheduling.TwoDigitsParse | src/utils/advancedSchedulingAlgorithm.ts:239 | `parseInt` reads two digits as their decimal value |
| AdvancedScheduling.SlotScore | src/utils/advancedSchedulingAlgorithm.ts:206-245 | definition: the per-seat bonus and malus; promises in AdvancedScheduling.SlotScoreRange and AdvancedScheduling.MorningStartClock |
| AdvancedScheduling.SlotScoreRange | src/utils/advancedSchedulingAlgorithm.ts:206-245 | the slot score lies between -20 and 10, and is only the morning bonus when the consecutive and department switches are off |
| AdvancedScheduling.AdvFillStep | src/utils/advancedSchedulingAlgorithm.ts:155-203 | one fill appends exactly one `auto` entry and keeps the list before it |
| AdvancedScheduling.AdvFillPhase | src/utils/advancedSchedulingAlgorithm.ts:155-203 | the fill loop appends one entry per demand |
| AdvancedScheduling.AdvEligible | src/utils/advancedSchedulingAlgorithm.ts:247-285 | definition: the test of `getEligibleTeachersAdvanced`; promises in AdvancedScheduling.AdvFillStepChoice |
| AdvancedScheduling.AdvFillStepChoice | src/utils/advancedSchedulingAlgorithm.ts:164-202 | a fill either finds nobody eligible, writes the unassignable marker and changes no score, or picks the eligible candidate with the highest base plus slot score, earliest in table order among equals, and lowers that teacher's score by 10 |
| AdvancedScheduling.TotalKeyOrder | src/utils/advancedSchedulingAlgorithm.ts:181 | the ascending key orders candidates by descending total score |
| AdvancedScheduling.AdvFillPhaseChoices | src/utils/advancedSchedulingAlgorithm.ts:155-203 | every automatic placement is the choice one fill promises, made against the state before it |
| AdvancedScheduling.SnocAdjustBooked | src/utils/advancedSchedulingAlgorithm.ts:190-194 | a placement moves the placed teacher's score by its delta and keeps the score book |
| AdvancedScheduling.ForcedPhaseBooked | src/utils/advancedSchedulingAlgorithm.ts:97-115 | the forced loop keeps every score equal to start plus the deltas of the entries so far |
| AdvancedScheduling.DesignatedPhaseBooked | src/utils/advancedSchedulingAlgorithm.ts:118-136 | the designated loop keeps the score book |
| AdvancedScheduling.AdvFillPhaseBooked | src/utils/advancedSchedulingAlgorithm.ts:155-203 | the fill loop keeps the score book |
| AdvancedScheduling.BalanceWorkloadOptimization | src/utils/advancedSchedulingAlgorithm.ts:319-340 | the ranking lists each person of the assignments with their minutes, heaviest first, markers left out; the assignments are not changed |
| AdvancedScheduling.RankByMinutes | src/utils/advancedSchedulingAlgorithm.ts:335-336 | the sorted entries are every name with its minutes, in descending order of minutes |
| AdvancedScheduling.SumMinutes | src/utils/advancedSchedulingAlgorithm.ts:324-332 | the loop collects exactly the people with a duty, each with their total minutes |
| AdvancedScheduling.AddMinutes | src/utils/advancedSchedulingAlgorithm.ts:326-331 | one step of the loop keeps that description for one more assignment |
| AdvancedScheduling.DutyCounted | src/utils/advancedSchedulingAlgorithm.ts:327-330 | every person named in the assignments has at least one duty |
| AdvancedScheduling.InitializeTeacherScores | src/utils/advancedSchedulingAlgorithm.ts:50-88 | the method builds exactly the initial score table |
| AdvancedScheduling.HandleMandatoryAssignments | src/utils/advancedSchedulingAlgorithm.ts:90-137 | the mandatory phase runs the forced loop, then the designated loop |
| AdvancedScheduling.OptimizeAssignments | src/utils/advancedSchedulingAlgorithm.ts:139-204 | the fill phase runs over the open demands sorted by start instant |
| AdvancedScheduling.AdvEngine | src/utils/advancedSchedulingAlgorithm.ts:27-48 | definition: the scored run before the final sort; promises in AdvancedScheduling.GenerateAdvancedAssignments, AdvancedScheduling.AdvEngineShape and AdvancedScheduling.AdvEngineScores |
| AdvancedScheduling.GenerateAdvancedAssignments | src/utils/advancedSchedulingAlgorithm.ts:27-48 | the result is a permutation of both phases' entries, sorted by start instant only, with placement order kept among equal instants |
| AdvancedScheduling.AdvEngineScores | src/utils/advancedSchedulingAlgorithm.ts:31-38 | at the end each teacher's score is the base score minus 5 per forced, plus 5 per designated and minus 10 per automatic placement of theirs |
| AdvancedScheduling.DesignatedPhasePlaces | src/utils/advancedSchedulingAlgorithm.ts:118-136 | the designated loop keeps the list before it and appends only `designated` entries |
| AdvancedScheduling.AdvFillPhaseAuto | src/utils/advancedSchedulingAlgorithm.ts:184-201 | the fill loop keeps the list before it and appends only `auto` entries |
| AdvancedScheduling.AdvEngineShape | src/utils/advancedSchedulingAlgorithm.ts:27-41 | before the final sort the list is the matched forced tasks, then the matched designated tasks, then one automatic entry per open demand |
| ConflictDetection.LocationConflictInjective | src/utils/conflictDetection.ts:63-67 | two room conflicts of one teacher with equal text name the same room |
| ConflictDetection.AllocationConflicts | src/utils/conflictDetection.ts:11-20 | the first pass yields only allocation conflicts |
| ConflictDetection.TeacherNames | src/utils/conflictDetection.ts:24-31 | the grouping pass sees only non-marker teachers |
| ConflictDetection.TimeConflicts | src/utils/conflictDetection.ts:37-53 | the overlap pass yields only time conflicts |
| ConflictDetection.RepeatedConflicts | src/utils/conflictDetection.ts:61-69 | the room pass yields only room conflicts |
| ConflictDetection.RuleConflicts | src/utils/conflictDetection.ts:72-84 | the exclusion pass yields only rule conflicts |
| ConflictDetection.PerTeacher | src/utils/conflictDetection.ts:34-85 | the per-teacher part never yields an allocation conflict |
| ConflictDetection.PerTeacherKinds | src/utils/conflictDetection.ts:34-85 | one teacher's conflicts are never allocation conflicts |
| ConflictDetection.Detect | src/utils/conflictDetection.ts:3-88 | definition: the conflict report; promises in ConflictDetection.DetectConflicts, ConflictDetection.DetectAllocationsFirst, ConflictDetection.OwnersAreTeachers and ConflictDetection.TeacherConflictsOrder |
| ConflictDetection.DetectConflicts | src/utils/conflictDetection.ts:3-88 | the method computes exactly the report: the allocation pass, then each teacher's checks in first-appearance order |
| ConflictDetection.CollectAllocationConflicts | src/utils/conflictDetection.ts:11-20 | the first loop emits one allocation conflict per marker, in input order |
| ConflictDetection.GroupByTeacher | src/utils/conflictDetection.ts:23-31 | the grouping loop keys exactly the non-marker teachers, in first-seen order, each with their own assignments in input order |
| ConflictDetection.AddToGroup | src/utils/conflictDetection.ts:25-30 | one step of the grouping loop keeps that description for one more assignment |
| ConflictDetection.AbsentGroup | src/utils/conflictDetection.ts:26-28 | a teacher not seen yet has an empty group |
| ConflictDetection.CheckTeacher | src/utils/conflictDetection.ts:35-84 | one teacher's checks run on their list sorted by start: overlaps, then rooms, then exclusions |
| ConflictDetection.CheckTimes | src/utils/conflictDetection.ts:37-53 | the loop over neighbours computes the time conflicts |
| ConflictDetection.CheckLocations | src/utils/conflictDetection.ts:56-69 | the counting map and its pass compute the room conflicts |
| ConflictDetection.CheckRules | src/utils/conflictDetection.ts:72-84 | the exclusion pass computes the rule conflicts |
| ConflictDetection.NoRulesWithoutSet | src/utils/conflictDetection.ts:72-73 | a teacher without an exclusion set has no rule conflicts |
| ConflictDetection.DetectAllocationsFirst | src/utils/conflictDetection.ts:8-20 | the report opens with one allocation conflict per marker assignment, in input order, and has none after them; an empty list gives an empty report |
| ConflictDetection.AllocationConflictsAre | src/utils/conflictDetection.ts:11-20 | the allocation conflicts correspond one to one, in order, to the marker assignments |
| ConflictDetection.AllocationSeverities | src/utils/conflictDetection.ts:13 | the two conflict markers (containing `冲突`) are `high`, the unassignable marker is `medium` |
| ConflictDetection.OwnersAreTeachers | src/utils/conflictDetection.ts:23-34 | the per-teacher part visits each non-marker teacher exactly once, in order of first appearance, and no marker |
| ConflictDetection.TimeConflictsAdjacent | src/utils/conflictDetection.ts:37-53 | time conflicts are reported exactly for the neighbouring pairs of the sorted list that share a date and overlap |
| ConflictDetection.TouchingNeverClashes | src/utils/conflictDetection.ts:41-45 | an entry ending when the next starts never clashes |
| ConflictDetection.LocationConflictsExact | src/utils/conflictDetection.ts:56-69 | exactly one room conflict for each room used more than once, none for the others, no repeats |
| ConflictDetection.RepeatedConflictsExact | src/utils/conflictDetection.ts:61-69 | the pass over the distinct rooms reports exactly the repeated ones, once each |
| ConflictDetection.RuleConflictsAre | src/utils/conflictDetection.ts:74-83 | one rule conflict per assignment that falls under the teacher's exclusions, in list order |
| ConflictDetection.TeacherConflictsOrder | src/utils/conflictDetection.ts:37-84 | within one teacher, time conflicts come first, then room conflicts, then rule conflicts |
| SchedulingHook.FindIndex | src/hooks/useScheduling.ts:63-64 | the position is the first entry with the id, or -1 exactly when no entry has it |
| SchedulingHook.Relabelled | src/hooks/useScheduling.ts:53-57 | every entry with the id takes the new teacher and becomes `manual`; every other entry is kept |
| SchedulingHook.RelabelledIdempotent | src/hooks/useScheduling.ts:52-58 | re-assigning twice to the same teacher equals doing it once, and ids never change |
| SchedulingHook.Swapped | src/hooks/useScheduling.ts:61-81 | a swap keeps the list's length |
| SchedulingHook.SwappedExchanges | src/hooks/useScheduling.ts:66-78 | with both ids found at different places the two entries exchange teachers and become `manual`; all else is kept |
| SchedulingHook.SwappedMissing | src/hooks/useScheduling.ts:66 | an id that is not found leaves the list unchanged |
| SchedulingHook.SwappedSelf | src/hooks/useScheduling.ts:66-78 | swapping an entry with itself keeps its teacher and marks it `manual` |
| SchedulingHook.SwappedTwice | src/hooks/useScheduling.ts:60-82 | swapping the same pair twice gives every entry its original teacher back |
| SchedulingHook.SwappedTeacherAt | src/hooks/useScheduling.ts:66-78 | after a swap the two found places hold each other's teacher, and every other place its own |
| SchedulingHook.SwappedKeepsIds | src/hooks/useScheduling.ts:62-80 | a swap never changes an id |
| SchedulingHook.WithExclusion | src/hooks/useScheduling.ts:88-100 | adding a key leaves the teacher's set as its old keys plus that key, and leaves every other teacher's set alone |
| SchedulingHook.WithoutExclusion | src/hooks/useScheduling.ts:102-116 | removing a key leaves the teacher's other keys, drops the teacher exactly when no key remains, and leaves every other teacher alone; an unknown teacher changes nothing |
| SchedulingHook.ExclusionsKeepNoEmptySets | src/hooks/useScheduling.ts:88-116 | adding and removing never leave an empty set in the map |
| SchedulingHook.RemoveUndoesAdd | src/hooks/useScheduling.ts:88-116 | removing a key just added, when it was new, restores the map |
| SchedulingHook.ValidateThenGenerate | src/hooks/useScheduling.ts:24-43 | the issues are those of validation; any error gives the blocking failure, otherwise the engine's entries sorted by start and room, with entries of equal key in the engine's order |
| SchedulingHook.SchedulingState.constructor | src/hooks/useScheduling.ts:8-19 | every piece of state starts empty, not loading, with no issues |
| SchedulingHook.SchedulingState.GenerateAssignments | src/hooks/useScheduling.ts:21-50 | the issues are stored; any error fails with the blocking message and keeps the old assignments; otherwise the stored assignments are the engine's result sorted by start and room, entries of equal key in the engine's order; loading ends false in both cases |
| SchedulingHook.SchedulingState.UpdateAssignment | src/hooks/useScheduling.ts:52-58 | the stored list is re-assigned for that id; nothing else changes |
| SchedulingHook.SchedulingState.SwapAssignments | src/hooks/useScheduling.ts:60-82 | the stored list becomes the swapped copy; nothing else changes |
| SchedulingHook.SchedulingState.GetConflicts | src/hooks/useScheduling.ts:84-86 | the report is the conflict report of the stored assignments and exclusions |
| SchedulingHook.SchedulingState.AddTeacherExclusion | src/hooks/useScheduling.ts:88-100 | the map gains the key `<session>_<room>` or `<session>_all`; nothing else changes |
| SchedulingHook.SchedulingState.RemoveTeacherExclusion | src/hooks/useScheduling.ts:102-116 | the map loses that key; nothing else changes |
| Domain.NamesOf | project/src/utils/validation.ts:49 | definition: the names of a teacher list, in order; the properties built on it are stated by Validation.DuplicateNamesExact, FileProcessing.ScanTeachersShape, AdvancedScheduling.InitialScoresKeys and App.AccumulatedValue |
| Validation.FindDuplicateNames | project/src/utils/validation.ts:74-84 | the method returns exactly the repeated names in first-occurrence order |
| Validation.RepeatedKeys | project/src/utils/validation.ts:81-83 | the pass over the counted keys keeps exactly those counted more than once |
| Validation.KeepIfRepeated | project/src/utils/validation.ts:82 | one step of that pass keeps a key exactly when it is repeated |
| Validation.DuplicateNamesExact | project/src/utils/validation.ts:74-84 | the result holds exactly the names occurring more than once, each once |
| Validation.Validate | project/src/utils/validation.ts:3-72 | definition: the issue list; promises in Validation.ValidateSchedulingData, Validation.HasErrorExactly and Validation.TeacherIssuesShape |
| Validation.ValidateSchedulingData | project/src/utils/validation.ts:3-72 | the method computes the issue list: teacher part, schedule part, designated warnings, forced warnings |
| Validation.CheckTeachers | project/src/utils/validation.ts:11-27 | the teacher part of the method |
| Validation.CheckSchedules | project/src/utils/validation.ts:29-46 | the schedule part of the method |
| Validation.CheckRows | project/src/utils/validation.ts:37-45 | the row loop emits one error per incomplete row |
| Validation.CheckDesignated | project/src/utils/validation.ts:51-59 | the designated loop emits one warning per task with an unknown teacher |
| Validation.CheckForced | project/src/utils/validation.ts:61-69 | the forced loop emits one warning per task with an unknown teacher |
| Validation.TeacherIssuesShape | project/src/utils/validation.ts:11-27 | an empty teacher list gives exactly the one error and skips the duplicate check; otherwise at most one warning, present exactly when a name is repeated |
| Validation.AnyDuplicate | project/src/utils/validation.ts:19-20 | the duplicate list is non-empty exactly when some name is repeated |
| Validation.RowIssuesAre | project/src/utils/validation.ts:37-45 | one error per incomplete row, naming its 1-based row number, and no others |
| Validation.TaskIssuesAreWarnings | project/src/utils/validation.ts:49-69 | the pin issues are warnings on their own field, one per pin whose teacher is not listed |
| Validation.HasErrorExactly | project/src/utils/validation.ts:3-72 | some issue is an error exactly when there are no teachers, no schedules, or an incomplete row; pins never add an error |
| FileProcessing.ReplaceCrLf | project/src/utils/fileProcessing.ts:176 | replacing CR LF pairs never lengthens the text |
| FileProcessing.ReplaceCr | project/src/utils/fileProcessing.ts:176 | replacing lone CRs keeps the length and leaves no CR |
| FileProcessing.NormalizeNewlinesExact | project/src/utils/fileProcessing.ts:176 | after both replacements no CR remains, and text without CRs is unchanged |
| FileProcessing.NoCrUnchanged | project/src/utils/fileProcessing.ts:176 | both replacements leave CR-free text as it is |
| FileProcessing.SplitCells | project/src/utils/fileProcessing.ts:177-194 | the character loop of one line yields the cells of the line scan |
| FileProcessing.InQuotesParity | project/src/utils/fileProcessing.ts:180-185 | the quote flag is set exactly when an odd number of quotes has been read |
| FileProcessing.ScanLineCount | project/src/utils/fileProcessing.ts:182-193 | the scan pushes one cell per comma outside quotes and ends with the quote parity |
| FileProcessing.ScanLineClean | project/src/utils/fileProcessing.ts:182-193 | every pushed cell is trimmed and holds no quote, and the pending cell holds no quote |
| FileProcessing.CellsShape | project/src/utils/fileProcessing.ts:177-194 | a line gives one cell more than it has commas outside quotes; every cell is trimmed and quote-free |
| FileProcessing.CleanIsTrimmed | project/src/utils/fileProcessing.ts:187 | trimming a clean cell changes nothing |
| FileProcessing.TrimAll | project/src/utils/fileProcessing.ts:187 | each piece, trimmed, in the same order |
| FileProcessing.ScanLineUnquoted | project/src/utils/fileProcessing.ts:182-192 | on a line without quotes the scan state is the trimmed pieces between commas plus the last piece |
| FileProcessing.UnquotedStep | project/src/utils/fileProcessing.ts:186-191 | one non-quote character extends the scan as comma splitting extends its pieces |
| FileProcessing.CellsUnquoted | project/src/utils/fileProcessing.ts:177-194 | without quotes, the cells are the trimmed pieces between commas |
| FileProcessing.AllCells | project/src/utils/fileProcessing.ts:177 | the cells of each line, line by line |
| FileProcessing.ParseCsv | project/src/utils/fileProcessing.ts:164-201 | definition: the header and rows of a CSV text; promises in FileProcessing.ParseCsvShape and FileProcessing.CellsShape |
| FileProcessing.ParseCsvShape | project/src/utils/fileProcessing.ts:164-201 | the header is the first line with a non-empty cell, the rows the later such lines in order; no content gives an empty table |
| FileProcessing.TableOfShape | project/src/utils/fileProcessing.ts:195-200 | the header and rows together are the content lines, first line as header |
| FileProcessing.FindHeaderIndex | project/src/utils/fileProcessing.ts:221-225 | the first header whose trim is a candidate, or -1 exactly when there is none |
| FileProcessing.FindHeaderFrom | project/src/utils/fileProcessing.ts:221-225 | the first candidate position at or after k, or -1 when there is none from k on |
| FileProcessing.CellAt | project/src/utils/fileProcessing.ts:227-230 | a present cell reads trimmed, a missing one as the empty string |
| FileProcessing.ParseTime | project/src/utils/fileProcessing.ts:257-278 | definition: `parseTime`; promises in FileProcessing.ParseTimeClock, FileProcessing.ParseTimeIgnoresTail and FileProcessing.ParseTimeIdempotent |
| FileProcessing.ParseTimeClock | project/src/utils/fileProcessing.ts:257-266 | a matched H:MM or HH:MM becomes zero-padded HH:MM text with the same minutes since midnight |
| FileProcessing.ParseTimeIgnoresTail | project/src/utils/fileProcessing.ts:261 | text after the matched time does not change the result |
| FileProcessing.TwoDigits | project/src/utils/fileProcessing.ts:265 | two digits padded back to width two read as themselves |
| FileProcessing.ParseTimeIdempotent | project/src/utils/fileProcessing.ts:257-266 | a normalised time parses to itself |
| FileProcessing.ParseDate | project/src/utils/fileProcessing.ts:232-255 | definition: `parseDate`; promises in FileProcessing.ParseDateParts |
| FileProcessing.ParseDateParts | project/src/utils/fileProcessing.ts:232-242 | a matched date becomes Y/M/D without leading zeros, and its calendar key reads back those three numbers |
| FileProcessing.DateTextParts | project/src/utils/fileProcessing.ts:241 | the Y/M/D text reads back the same year, month and day |
| FileProcessing.ScanTeacherRows | project/src/utils/fileProcessing.ts:39-59 | the loop over the rows yields the scan of the teacher rows |
| FileProcessing.TeacherRow | project/src/utils/fileProcessing.ts:40-58 | one row: an empty-name warning with the line number, or a teacher plus the name sets updated |
| FileProcessing.ProcessTeacherFile | project/src/utils/fileProcessing.ts:10-72 | the method yields the teacher-file result |
| FileProcessing.ScanTeachersShape | project/src/utils/fileProcessing.ts:35-63 | each row gives a teacher or a warning; teachers carry the non-empty names in row order; the seen set is those names; duplicates lists, once each, exactly the repeated names |
| FileProcessing.ScanTeachersKeep | project/src/utils/fileProcessing.ts:39-59 | the scan keeps the teacher-shape invariant over all the rows |
| FileProcessing.ShapeStep | project/src/utils/fileProcessing.ts:40-58 | one row keeps the teacher-shape invariant |
| FileProcessing.NamedStep | project/src/utils/fileProcessing.ts:46-58 | adding a named teacher keeps the teacher-shape invariant |
| FileProcessing.TeacherFileOutcome | project/src/utils/fileProcessing.ts:17-71 | an error exactly when there are no rows or no name column, then one error and no data; else the data are the named rows and at most one extra warning |
| FileProcessing.ScanScheduleRows | project/src/utils/fileProcessing.ts:110-134 | the loop over the rows yields the scan of the schedule rows |
| FileProcessing.ProcessScheduleFile | project/src/utils/fileProcessing.ts:74-143 | the method yields the schedule-file result |
| FileProcessing.RequiredCount | project/src/utils/fileProcessing.ts:116 | definition: `parseInt(cell || '1') || 1`, or 1 without a column; promises in FileProcessing.RowScheduleShape |
| FileProcessing.RowSchedule | project/src/utils/fileProcessing.ts:111-130 | definition: one schedule row, or none when a field is empty; promises in FileProcessing.RowScheduleShape and FileProcessing.ScanSchedulesAccepted |
| FileProcessing.RowScheduleShape | project/src/utils/fileProcessing.ts:111-130 | an accepted row has non-empty fields, at least one invigilator (one without a count column) and its room key as id |
| FileProcessing.ScanSchedulesCount | project/src/utils/fileProcessing.ts:110-134 | every row gives either a schedule or a warning |
| FileProcessing.ScanSchedulesAccepted | project/src/utils/fileProcessing.ts:110-134 | every accepted schedule satisfies the row rules |
| FileProcessing.ScanAccepted | project/src/utils/fileProcessing.ts:110-134 | a parser whose results keep the row rules gives only schedules that keep them |
| FileProcessing.Rejected | project/src/utils/fileProcessing.ts:118-120 | the rejected row positions, in increasing order, each rejected by the parser |
| FileProcessing.ScanSchedulesWarnings | project/src/utils/fileProcessing.ts:118-120 | the warnings name, in order, the line numbers of exactly the rejected rows |
| FileProcessing.ScheduleFileOutcome | project/src/utils/fileProcessing.ts:81-142 | an error exactly when there are no rows or a required column is missing, then one error alone; else every row is accepted or warned about |
| Export.Pivot | src/utils/export.ts:14-55 | definition: the pivot of the assignments; promises in Export.TransformAssignmentsToPivot, Export.PivotLocations, Export.PivotSlots and Export.PivotScanCells |
| Export.TransformAssignmentsToPivot | src/utils/export.ts:14-55 | the method yields the pivot of the assignments |
| Export.AddAssignment | src/utils/export.ts:23-41 | one assignment: its location and slot key recorded, its teacher appended to its cell |
| Domain.LocationsOf | src/utils/export.ts:24 | definition: the room of each assignment, in order; its promises are stated by Export.PivotLocations and ConflictDetection.LocationConflictsExact |
| Export.SlotIdsOf | src/utils/export.ts:25 | definition: the slot key of each assignment, in order; its promises are stated by Export.PivotScanKeys and Export.PivotSlots |
| Export.TeachersOf | src/utils/export.ts:40 | definition: the teacher of each assignment, in order; its promises are stated by Export.TeachersOfSnoc and Export.PivotScanCells |
| Export.TeachersOfSnoc | src/utils/export.ts:40 | one more assignment appends its teacher |
| Export.StepKeys | src/utils/export.ts:23-34 | one step keeps the keys invariant: distinct locations and slot keys in first-seen order, each slot carrying its key's date and times |
| Export.StepLocations | src/utils/export.ts:24 | the location set gains the assignment's location once |
| Export.StepSlotIds | src/utils/export.ts:27-34 | the slot map gains the assignment's key once |
| Export.PivotScanKeys | src/utils/export.ts:23-41 | the locations and slot keys are the distinct ones in first-seen order, and each slot carries the date and times of its key |
| Export.NoCellYet | src/utils/export.ts:27-34 | a slot key not yet seen has no assignments in any of its cells |
| Export.StepCells | src/utils/export.ts:36-40 | one step keeps every cell equal to the teachers of the assignments read so far in it |
| Export.StepCell | src/utils/export.ts:36-40 | one cell after a step lists the teachers of the assignments read so far in it |
| Export.StepListAt | src/utils/export.ts:36-40 | a step appends the teacher to the assignment's own cell and leaves every other cell as it was |
| Export.PivotScanCells | src/utils/export.ts:23-41 | each cell lists in input order the teachers of exactly the assignments of that slot and room |
| Export.PivotLocations | src/utils/export.ts:43-48 | the pivot's locations are a permutation of the distinct locations, and exactly the locations that occur |
| Export.PivotSlots | src/utils/export.ts:50-52 | one time slot per distinct slot key, a permutation of the map's values, ordered by date and start time with ties kept in first-seen order |
| Export.LocationLe | src/utils/export.ts:43-48 | definition: the room comparator; promises in Export.LocationsNumeric and Export.LocationsText |
| Export.LocationsNumeric | src/utils/export.ts:43-48 | locations that all start with a number come out in ascending numeric order |
| Export.LocationsText | src/utils/export.ts:43-48 | locations none of which starts with a number come out in text order |
| Export.SlotRow | src/utils/export.ts:81-88 | definition: one data row: the date, `start-end`, then each room's teachers joined with `、`; what the rows of the sheet are is stated by Export.RowsOfSlots and Export.SheetShape |
| Export.RowsOf | src/utils/export.ts:80-90 | one row per slot of the date |
| Export.Sheet | src/utils/export.ts:57-91 | definition: the sheet rows or the empty-list error; promises in Export.ExportToExcel and Export.SheetShape |
| Export.ExportToExcel | src/utils/export.ts:57-91 | the method yields the sheet rows or the empty-list error |
| Export.WriteRows | src/utils/export.ts:77-91 | the outer loop appends the rows of each date in order after the header |
| Export.DataRowsPrefix | src/utils/export.ts:79-91 | writing one more date extends the rows by that date's rows |
| Export.AppendRows | src/utils/export.ts:80-90 | the inner loop appends one row per slot of the date |
| Export.SheetShape | src/utils/export.ts:57-91 | the export fails exactly on an empty list; otherwise the header names the two fixed columns and the rooms, there is one data row per time slot of the pivot, and each data row is the row of one of those slots, with its own date and one cell per column |
| Export.RowsOfSlots | src/utils/export.ts:80-90 | the rows of one date are the rows of its slots, in slot order |
| Export.DataRowsOfSlots | src/utils/export.ts:77-91 | writing the groups of some dates gives as many rows as those groups hold slots, each the row of one slot with its own date |
| Export.DataRowsCover | src/utils/export.ts:70-91 | the groups of the row dates together hold every time slot once, so there is one data row per slot |
| Export.RowsOfWidth | src/utils/export.ts:80-90 | every row of one date has one cell per column |
| Export.DataRowsWidth | src/utils/export.ts:77-91 | every data row has one cell per column |
| Statistics.DurationAdds | src/components/StatisticsPanel.tsx:26-30 | durations between clock times add up across a middle time, are zero from a time to itself and change sign when reversed |
| Statistics.AccumulateDuties | src/components/StatisticsPanel.tsx:42-51 | the fold over the teacher's non-conflict duties gives their count and minutes, the teacher's current load |
| Statistics.StatOf | src/components/StatisticsPanel.tsx:40-64 | a stat carries the teacher's name and department, the current load, and the current load plus the stored history (zero when absent) |
| Statistics.Stats | src/components/StatisticsPanel.tsx:39-66 | definition: the ranked statistics; promises in Statistics.StatsInOrder, Statistics.StatsRanking and Statistics.StatOf |
| Statistics.StatsInOrder | src/components/StatisticsPanel.tsx:40-64 | one stat per teacher-list entry, in list order |
| Statistics.StatsRanking | src/components/StatisticsPanel.tsx:39-66 | one stat per teacher-list entry, a permutation of the unsorted stats, highest total minutes first, equal totals in teacher-list order |
| Statistics.SortedDescending | src/components/StatisticsPanel.tsx:65 | ascending by the sort key is descending by total minutes |
| Statistics.FormatDuration | src/components/StatisticsPanel.tsx:32-37 | definition: the duration text; promises in Statistics.FormatParts, Statistics.ReadFormatted, Statistics.FormatWholeHours and Statistics.FormatNegative |
| Statistics.JsRem60 | src/components/StatisticsPanel.tsx:35 | JavaScript's remainder by 60: the usual remainder for non-negative minutes, a non-positive one otherwise |
| Statistics.MinuteTextTrimmed | src/components/StatisticsPanel.tsx:36 | trimming the minute part changes nothing |
| Statistics.FormatWholeHours | src/components/StatisticsPanel.tsx:32-37 | whole hours show only the hour part, trailing space kept |
| Statistics.FormatOneHour | src/components/StatisticsPanel.tsx:32-37 | sixty minutes show as `1小时 ` |
| Statistics.OneHourText | src/components/StatisticsPanel.tsx:36 | the hour part of one hour is `1小时 ` |
| Statistics.FormatNegative | src/components/StatisticsPanel.tsx:32-37 | a negative number of minutes shows as the empty text |
| Statistics.PrefixOfDigits | src/components/StatisticsPanel.tsx:36 | a digit run followed by a non-digit is the whole digit prefix |
| Statistics.LeadingNumberOf | src/components/StatisticsPanel.tsx:36 | a number's decimal text before a non-digit reads back as the number |
| Statistics.ReadHourPart | src/components/StatisticsPanel.tsx:36 | text starting with the hour part reads as those hours plus the number after it |
| Statistics.ReadDigitsHour | src/components/StatisticsPanel.tsx:36 | a digit run, the hour unit and a tail read as the run's hours plus the tail's number |
| Statistics.NotZeroMinutes | src/components/StatisticsPanel.tsx:33 | text starting with an hour part is not the special `0分钟` |
| Statistics.ReadMinutePart | src/components/StatisticsPanel.tsx:36 | the minute part alone reads back as its number |
| Statistics.ReadFormatted | src/components/StatisticsPanel.tsx:32-37 | the text shown for a non-negative number of minutes reads back as that number, so no two durations share a text |
| Statistics.FormatParts | src/components/StatisticsPanel.tsx:32-37 | a positive duration shows as its hour part followed by its minute part |
| Statistics.ReadParts | src/components/StatisticsPanel.tsx:36 | an hour part followed by a minute part reads back as the minutes they stand for |
| Statistics.GetStatsBadge | src/components/StatisticsPanel.tsx:68-75 | definition: the badge of a rank; promises in Statistics.SeedlingCount and Statistics.MedalCount |
| Statistics.SeedlingCount | src/components/StatisticsPanel.tsx:68-75 | 🌱 goes to the ranks at or after both rank 5 and three before the end: the last three of eight or more, every rank after the fifth in a shorter ranking |
| Statistics.MedalCount | src/components/StatisticsPanel.tsx:68-75 | each medal goes to exactly one rank when there are enough ranks, 📊 to ranks 4 and 5, and the top five never get 🌱 |
| App.GroupScheduleIntoSessions | src/App.tsx:53-81 | the loop yields the sessions of the schedule rows |
| App.SlotsOf | src/App.tsx:69-72 | definition: the `{location, required}` slot of each row, in order; its promises are stated by App.SessionsContents and App.GroupSlotCounts |
| App.NoRowsYet | src/App.tsx:59-67 | a key not yet seen has no rows |
| App.GroupStepKeys | src/App.tsx:57-67 | one row keeps the keys invariant: the distinct keys in first-seen order, each with its session |
| App.GroupStepSessions | src/App.tsx:56-73 | one row keeps every session made of the rows of its key read so far |
| App.GroupStepKeeps | src/App.tsx:56-73 | one row keeps the whole grouping invariant |
| App.GroupScanKeeps | src/App.tsx:56-73 | the grouping invariant holds after all the rows |
| App.ValuesHaveIds | src/App.tsx:75 | summing over the sessions in key order counts each key's session once per occurrence of the key |
| App.ValuesSlotCount | src/App.tsx:75 | the slot counts in key order add up to the rows of those keys |
| App.GroupIds | src/App.tsx:57-67 | the kept keys are the distinct session keys in first-seen order, and each session carries its key |
| App.GroupSlotCounts | src/App.tsx:69-72 | each session has one slot per row of its key |
| App.Sessions | src/App.tsx:53-77 | definition: the sessions of the schedule rows; promises in App.SessionsContents, App.SessionsOrder, App.SessionsCount and App.SessionsPerKey |
| App.SessionsContents | src/App.tsx:53-77 | each session is made of the rows of its key, slots in input order, and carries its key's date and times |
| App.ValuesAreSessions | src/App.tsx:75 | every map value taken in key order is such a session |
| App.SessionsOrder | src/App.tsx:75-77 | the sessions are ordered by date and start time, ties kept in first-seen order |
| App.SessionsCount | src/App.tsx:53-77 | exactly one session per distinct key, and the slot counts add up to the number of rows |
| App.SessionsPerKey | src/App.tsx:57-67 | a key that occurs has exactly one session, any other none |
| App.SessionsSlotTotal | src/App.tsx:69-72 | the total slot count equals the number of rows |
| App.LoadEntry.constructor | src/App.tsx:158 | a fresh record holds the given count and minutes |
| App.RepeatPositive | src/App.tsx:161 | a positive count added a positive number of times stays positive |
| App.NamesSnoc | src/App.tsx:146 | one more teacher appends its name |
| App.NamesOccurrencesSnoc | src/App.tsx:146 | one more teacher adds one occurrence of its own name only |
| App.AccumulatedStep | src/App.tsx:146-163 | one more teacher-list entry adds its load to its own name and changes no other |
| App.AccumulatedPrefix | src/App.tsx:146-163 | the loop after entry i is the previous state with that entry's name raised |
| App.Accumulated | src/App.tsx:144-163 | definition: the exported history; promises in App.AccumulatedKeys, App.AccumulatedValue and App.ExportMatchesPanel |
| App.AccumulatedKeys | src/App.tsx:144-163 | the exported names are the old names and the teachers' names |
| App.AccumulatedValue | src/App.tsx:144-163 | each name holds its old figures (zero when new) plus the current load once per listing: a name listed twice is added twice |
| App.AccumulatedValueStep | src/App.tsx:157-162 | one more entry keeps the per-name value formula |
| App.AddStep | src/App.tsx:161-162 | adding the load once more raises the repetition count by one |
| App.ExportMatchesPanel | src/App.tsx:146-163 | for a name listed once the exported total is the statistics panel's total |
| App.OnceAdded | src/App.tsx:157-162 | a name listed once gets its load added exactly once |
| App.AddCurrentLoads | src/App.tsx:146-163 | the loop adds every entry's current load in place: the old records stay the same objects, new names get fresh records, and the values are the accumulation |
| App.AddLoadTo | src/App.tsx:157-162 | a missing record is created, then the name's record is raised in place, and no other record changes |
| App.RaisedOne | src/App.tsx:157-162 | a record set differing only at one name is the old set with that name updated |
| App.ExportHistoryShared | src/App.tsx:142-163 | as written: the export holds the accumulation, and the stored history of every name it already held is raised to the exported figures |
| App.ExportTwiceAsWritten | src/App.tsx:144-162 | after the shared export, exporting again counts the current term twice for a teacher with history and a current duty |
| App.ExportHistory | src/App.tsx:142-163 | with the records copied too: the export holds the accumulation and the stored history is untouched |
| App.CanGenerate | src/App.tsx:191 | definition: whether the generate button is enabled; promise in App.CanGenerateGate |
| App.CanGenerateGate | src/App.tsx:191 | the button is disabled only when validation also reports an error |
| RulesPanel.FilterNarrow | src/components/RulesPanel.tsx:69 | filtering by a narrower condition after a wider one is filtering by the narrower one |
| RulesPanel.FilterDisjoint | src/components/RulesPanel.tsx:69 | a filter finds nothing in what a disjoint filter kept |
| RulesPanel.DropIndexSpec | src/components/RulesPanel.tsx:80 | dropping a valid position removes exactly that entry and keeps the rest in order; any other index changes nothing |
| RulesPanel.DropIndexOutside | src/components/RulesPanel.tsx:80 | an index outside the list drops nothing |
| RulesPanel.DropIndexInside | src/components/RulesPanel.tsx:80 | an index inside the list drops exactly that entry |
| RulesPanel.NewDesignated | src/components/RulesPanel.tsx:58-63 | definition: one task per checked cell for the selected teacher; its promises are stated by RulesPanel.AddDesignatedReplaces and RulesPanel.AddDesignatedIdempotent |
| RulesPanel.AddDesignatedTask | src/components/RulesPanel.tsx:53-75 | definition: the lists sent by `addDesignatedTask`; promises in RulesPanel.AddDesignatedReplaces and RulesPanel.AddDesignatedIdempotent |
| RulesPanel.AddDesignatedReplaces | src/components/RulesPanel.tsx:53-75 | nothing is sent exactly when no teacher is selected; otherwise the forced list is untouched, the selected teacher's tasks become exactly the checked cells, and every other teacher keeps their tasks in order |
| RulesPanel.AddDesignatedIdempotent | src/components/RulesPanel.tsx:53-75 | adding twice with the same cells sends the same lists as adding once |
| RulesPanel.RemoveDesignatedTask | src/components/RulesPanel.tsx:77-83 | definition: the lists sent by `removeDesignatedTask`; promise in RulesPanel.RemoveDesignatedDrops |
| RulesPanel.RemoveDesignatedDrops | src/components/RulesPanel.tsx:77-83 | the entry at the index is dropped, the rest keep their order, and the forced list is untouched |
| RulesPanel.MapSelects | src/components/RulesPanel.tsx:93-98 | definition: one pin of the session per select; its promise is stated by RulesPanel.SetForcedReplaces |
| RulesPanel.SetForcedAssignments | src/components/RulesPanel.tsx:85-111 | definition: the lists sent by `setForcedAssignments`; promise in RulesPanel.SetForcedReplaces |
| RulesPanel.SetForcedReplaces | src/components/RulesPanel.tsx:85-111 | nothing is sent exactly when no known session is selected; otherwise the designated list is untouched, the session's pins become exactly the selects naming a teacher and a room, and every other session keeps its pins in order |
| RulesPanel.RemoveForcedTask | src/components/RulesPanel.tsx:113-119 | definition: the lists sent by `removeForcedTask`; promise in RulesPanel.RemoveForcedDrops |
| RulesPanel.RemoveForcedDrops | src/components/RulesPanel.tsx:113-119 | the pin at the index is dropped, the rest keep their order, and the designated list is untouched |
| RulesPanel.HandleExclusionChange | src/components/RulesPanel.tsx:43-51 | definition: the exclusion change sent by a checkbox; promise in RulesPanel.ExclusionChangeEffect |
| RulesPanel.ExclusionChangeEffect | src/components/RulesPanel.tsx:43-51 | nothing changes without a selected teacher; otherwise the key is excluded exactly when the box is checked, the teacher's other keys stay, and no other teacher is affected |
| RulesPanel.ToggleSection | src/components/RulesPanel.tsx:31-39 | the section flips membership and every other section keeps it |
| RulesPanel.ToggleTwice | src/components/RulesPanel.tsx:31-39 | toggling twice restores the expanded set |
| Store.RaiseStep | src/store/index.ts:48-51 | `Math.max`: at least both arguments and equal to one of them |
| Store.Run | src/store/index.ts:48-55 | definition: the wizard step after a run of setters; promises in Store.DataSettersNeverLower and Store.StepFromInitial |
| Store.StepAfter | src/store/index.ts:48-55 | `setCurrentStep` sets the step outright; a data setter raises it to at least its floor and never lowers it; every other setter leaves it |
| Store.DataSettersNeverLower | src/store/index.ts:48-55 | without `setCurrentStep` the step never goes down and ends at least at the floor of every data setter that ran |
| Store.StepFromInitial | src/store/index.ts:44-55 | from the initial state, without `setCurrentStep`, the step is 1 or the floor of some data setter that ran |
| Store.Partialize | src/store/index.ts:59-64 | definition: the stored slice; promise in Store.PersistRoundTrip |
| Store.Rehydrate | src/store/index.ts:59-64 | definition: the stored slice read back over a state; promise in Store.PersistRoundTrip |
| Store.PersistRoundTrip | src/store/index.ts:59-64 | exactly teachers, schedules, historical stats and special tasks are stored and read back; every other field is that of the state loaded into |
| Store.AppStore.constructor | src/store/index.ts:36-45 | the initial state: step 1, not loading, every collection empty |
| Store.AppStore.SetTeachers | src/store/index.ts:48 | the teachers are replaced and the step raised to at least 2; nothing else changes |
| Store.AppStore.SetSchedules | src/store/index.ts:49 | the schedules are replaced and the step raised to at least 3; nothing else changes |
| Store.AppStore.SetSessions | src/store/index.ts:50 | only the sessions change |
| Store.AppStore.SetAssignments | src/store/index.ts:51 | the assignments are replaced and the step raised to at least 4; nothing else changes |
| Store.AppStore.SetSpecialTasks | src/store/index.ts:52 | only the special tasks change |
| Store.AppStore.SetHistoricalStats | src/store/index.ts:53 | only the historical stats change |
| Store.AppStore.SetCurrentStep | src/store/index.ts:54 | only the step changes, and it may go down |
| Store.AppStore.SetLoading | src/store/index.ts:55 | only the loading flag changes |
| Virtualization.FloorDiv | src/hooks/useVirtualization.ts:18 | `Math.floor(x / h)`: the largest q with q·h ≤ x |
| Virtualization.CeilDiv | src/hooks/useVirtualization.ts:21 | `Math.ceil(x / h)`: the smallest q with x ≤ q·h |
| Virtualization.SliceBound | src/hooks/useVirtualization.ts:27 | a slice index clamped into the list, negative ones counted from the end; in-range indices unchanged |
| Virtualization.JsSlice | src/hooks/useVirtualization.ts:27 | `slice` with in-range bounds is the subsequence; with the end at or before the start it is empty |
| Virtualization.VisibleItems | src/hooks/useVirtualization.ts:17-31 | definition: the `visibleItems` memo; promises in Virtualization.WindowShape, Virtualization.WindowCoversViewport and Virtualization.DefaultOverscanIsFive |
| Virtualization.WindowShape | src/hooks/useVirtualization.ts:17-31 | start ≥ 0, end ≤ len − 1, offset and total height as row multiples; from end −1 up, the rows are exactly start..end inclusive (none when end < start); end ≥ −1 once the viewport's bottom and the overscan are not negative |
| Virtualization.ScrolledAboveTop | src/hooks/useVirtualization.ts:18-27 | above the top of the list the window can report end < start yet hold rows, because `slice` counts a negative end from the back |
| Virtualization.WindowCoversViewport | src/hooks/useVirtualization.ts:17-31 | every row showing a pixel in the viewport lies between start and end |
| Virtualization.DefaultOverscanIsFive | src/hooks/useVirtualization.ts:13 | no overscan option behaves as overscan 5 |
| Common.Tally | project/src/utils/validation.ts:75-79 | the counting loop over a fresh `Map` leaves the distinct keys in insertion order, each with its number of occurrences |
| Common.Distinct | project/src/utils/validation.ts:81 | the same members as the input, each once |
| Common.DistinctAppendOne | src/utils/export.ts:24 | adding an element to a set keeps the insertion order and appends only a new element |
| Common.OccurrencesIsMultiplicity | project/src/utils/validation.ts:78 | the occurrence count is the multiset multiplicity |
| Common.PartitionCount | src/App.tsx:56-73 | grouping by a key puts every element in exactly one group |
| Sorting.SortByPermutation | src/App.tsx:75-77 | `sort` by a key returns a permutation of its input |
| Sorting.SortBySorted | src/App.tsx:75-77 | `sort` by a key returns its input in ascending key order |
| Sorting.SortByStable | src/App.tsx:75-77 | `sort` is stable: elements with equal keys keep their input order |
| Sorting.SortBySum | src/App.tsx:75-77 | sorting does not change a sum over the elements |
| Sorting.LexLeTotal | src/App.tsx:76 | the order on date-and-time keys is total |
| Sorting.LexLeTrans | src/App.tsx:76 | the order on date-and-time keys is transitive |
| Sorting.LexLeAntisym | src/App.tsx:76 | the order on date-and-time keys is antisymmetric |
| Sorting.SortWithSorted | src/utils/export.ts:43-48 | `sort` with a total preorder as comparator returns its input ordered by it |
| Sorting.SortWithByKey | src/utils/export.ts:46 | a comparator that compares an integer key sorts by that key |
| Text.Trim | project/src/utils/fileProcessing.ts:229 | `trim` returns the slice of the text left after dropping the white space at both ends, ending in no white space at either end |
| Text.TrimIdempotent | project/src/utils/fileProcessing.ts:229 | trimming twice is trimming once |
| Text.TrimmedIsTrim | project/src/utils/fileProcessing.ts:229 | text with no white space at either end is its own trim |
| Text.Split | project/src/utils/fileProcessing.ts:176 | `split` gives at least one piece and no piece holds the separator |
| Text.JoinSplit | project/src/utils/fileProcessing.ts:176 | joining the pieces with the separator restores the text |
| Text.SplitJoin | project/src/utils/fileProcessing.ts:176 | joining pieces free of the separator and splitting again gives back the pieces |
| Text.SplitNoSep | project/src/utils/fileProcessing.ts:176 | text without the separator splits into itself |
| Text.NatToStringValue | project/src/utils/fileProcessing.ts:241 | the decimal text of a number reads back as the number |
| Text.ParseIntAutoDigits | project/src/utils/fileProcessing.ts:116 | `parseInt` with no radix reads a string of digits as its decimal value |
| Text.StrLeTotal | project/src/utils/schedulingAlgorithm.ts:46 | the text order is total |
| Text.StrLeTrans | project/src/utils/schedulingAlgorithm.ts:46 | the text order is transitive |
| Domain.Place | project/src/utils/schedulingAlgorithm.ts:50-51 | definition: `{ ...schedule, teacher, assignedBy }`; what a placement means is stated by Scheduling.PinStepEffect, Scheduling.FillStepChoice and AdvancedScheduling.AdvFillStepChoice |
| Domain.HistoryOf | src/components/StatisticsPanel.tsx:53 | definition: `historicalStats[name] || { count: 0, duration: 0 }`; the promises built on it are stated by Scheduling.SeedLoad, Statistics.StatOf and App.AccumulatedValue |
| Domain.CurrentLoadSnoc | src/components/StatisticsPanel.tsx:42-51 | one more assignment adds one duty of its length to its own teacher, if a person, and to nobody else |
| Domain.MarkerClassification | project/src/utils/schedulingAlgorithm.ts:51 | the three markers start with `!!`; the two conflict markers contain `冲突` and the unassignable one does not |
| Domain.UnwrapMarkers | project/src/utils/schedulingAlgorithm.ts:77 | for a name without a line break, either conflict marker unwraps to the text after the name's last `: `, or to the whole name when it has none |
| Domain.Unwrap | project/src/utils/schedulingAlgorithm.ts:77 | definition: the first match of `/!!.*: (.*)!!/` replaced by its group, text without a match unchanged; promises in Domain.RegexFind, Domain.UnwrapUnmatched and Domain.UnwrapMarkers |
| Domain.RegexFind | project/src/utils/schedulingAlgorithm.ts:77 | the match `replace` acts on: none exactly when the pattern has no match (with no line break inside it); otherwise the leftmost start, then the longest first `.*`, then the longest second `.*` |
| Domain.MatchFrom | project/src/utils/schedulingAlgorithm.ts:77 | from a `!!` at a given place a match exists exactly when one is found; the one found uses the last `: ` and the last closing `!!` any match from there can use |
| Domain.UnwrapUnmatched | project/src/utils/schedulingAlgorithm.ts:77 | text holding no `: `, or no `!!`, is left unchanged |
| Domain.UnwrapUnassignable | project/src/utils/schedulingAlgorithm.ts:77 | the unassignable marker is left unchanged |
| Domain.AfterLastColonSpace | project/src/utils/schedulingAlgorithm.ts:77 | definition: what `$1` keeps of a conflict marker: the text after the name's last `: `; a name without `: ` is kept whole |
| Domain.UnwrapKeepsLastPart | project/src/utils/schedulingAlgorithm.ts:77 | either conflict marker for the name `A: B` unwraps to `B` |
| Domain.ClockOrderAgrees | project/src/utils/schedulingAlgorithm.ts:46 | for zero-padded times, comparing the texts agrees with comparing the clock values |
| Domain.BackToBackDoNotOverlap | project/src/utils/schedulingAlgorithm.ts:46 | intervals that only touch do not overlap |
| Domain.OverlapSymmetric | project/src/utils/schedulingAlgorithm.ts:46 | overlap is symmetric in its two intervals |

## Left out

- **File and browser I/O.** Reading files, XLSX reading and writing,
  text decoding, JSON parsing of imported history, Blob and anchor
  downloads, DOM queries and `localStorage` are not modelled. The parsed
  rows, the checked cells and the selects of the rule panel are inputs.
- **Excel serial dates and time fractions.** These branches of the date
  and time parsers use floats and JavaScript `Date`. They are the
  function parameters `excelDate` and `excelTime`.
- **Date parsing.** `new Date(...)` becomes an abstract key:
  - the calendar date of the canonical `Y/M/D` text and the minutes of
    `HH:MM`;
  - any other text reads as zero, so JavaScript's NaN ordering is not
    modelled.
- Domain.ClockMinutes and Domain.DateParts: fields are not range-checked.
  The parsers keep out-of-range text of the right shape: `9:75` becomes
  `09:75` and `25:00` stays (`project/src/utils/fileProcessing.ts:257-266`),
  and `2024/13/1` stays (`project/src/utils/fileProcessing.ts:232-242`).
  In JavaScript, `new Date` on such text is an Invalid Date or rolls over
  to another day, and durations and sort comparisons become NaN. The model
  reads the fields as plain numbers: 615 minutes, 1500 minutes and
  `[2024, 13, 1]`.
- **Pixel values, durations, hours and `maxDailyHours`** are whole
  numbers (minutes for durations). The average in the scored engine is
  compared by cross-multiplying rather than with reals.
- **String comparison.** `localeCompare` and string `<=` are code-point
  lexicographic order. Locale collation is not modelled.
- **`Date.now()`** in teacher ids is a `stamp` parameter. The clock is
  not modelled.
- **React state.** `useState`, `useCallback` and `useMemo` plumbing, the
  `async` wrappers and zustand's `devtools` middleware are not modelled.
  The engines run as plain sequential methods.
- **Rendering and interaction.** `completionRate` and all rendering and
  drag-and-drop code are not modelled.
- **Other application files.** `src/utils/storage.ts`, `src/utils/pwa.ts`
  and `src/hooks/useSchedulingActions.ts` are not part of this model.
  `project/src/App.tsx` is a copy of the modelled `src/App.tsx` logic.
- **Exclusion sets.** Exclusions are values, a map from teacher to a set
  of keys. The hook's copy of the outer `Map` shares the inner `Set`
  objects, and that aliasing is not modelled.
- **Post-processing in the scored engine.** The source computes and ranks
  the workloads but never swaps anything, so its planned rebalancing does
  not exist to model. The model computes the ranking and discards it, as
  the source does.
- Store.PersistRoundTrip: reading back assumes zustand's default
  shallow merge of the stored slice over the current state, as
  `Rehydrate` writes it. The storage layer is not modelled.
- App.ExportHistoryShared and App.AddCurrentLoads: both require that no
  two names share a record object (`Unshared`). That is how the history
  is built from parsed JSON, but the source does not check it.
- **A zero `itemHeight`** in the virtual-scroll window is excluded by a
  precondition. JavaScript would divide into Infinity or NaN, and that is
  not modelled.
- SchedulingHook.SchedulingState.GenerateAssignments: the validate-then-run
  part is factored into `ValidateThenGenerate`, which returns the issues
  and a `Result`. The thrown error is the `Failure` value.

- Domain.UnwrapMarkers and Scheduling.ConflictMarkerIsMarker: the text a
  conflict marker unwraps to is stated only for teacher names without a
  line break. `Unwrap` itself follows the regular expression on every
  text, but across a line break its result is not characterised.

## Findings

| source | as written | input that shows it | evidently intended | confidence | as-written member | corrected member |
|---|---|---|---|---|---|---|
| src/App.tsx:144, 161-162 | `{ ...historicalStats }` copies the record but not its `{count, duration}` entries, so `+=` raises the stored history in place | a teacher with stored history and one current duty: after one export, a second export adds the current term again | exporting leaves the stored history untouched, so repeated exports write the same totals | medium, not executed | App.ExportHistoryShared, App.ExportTwiceAsWritten | App.ExportHistory |
