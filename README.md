# Student shift scheduler: a verified model of the model builder

The scheduler reads every student's class timetable. It builds a
0/1 integer linear program, with one-hour work blocks on Monday to Friday
between 07:30 and 17:30. A MILP solver answers the program, and the scheduler
turns the answer into two tables: the blocks each student works, and the
blocks nobody covers. The program asks for the following:

- Every block is staffed or flagged uncovered.
- At most `maxovl` students work the same block.
- Each student works between `minh` and `maxh` blocks a week.
- The average number of blocks worked lies between `avg_low` and `avg_high`.
- Nobody works a block that overlaps one of their classes.
- A student's working day is empty or a single shift of 2, 3 or 4
  consecutive blocks.
- The objective weighs an uncovered block at 1000, an assigned block at 1,
  and a day worked at `day_cost`.

The Dafny project models four parts of `main.py`:

- `genblocks`: cutting the window into blocks.
- `freeblk`: the free-block test.
- `build_model`: which variables exist, the objective, and every
  constraint family in the order it is emitted.
- The decoding part of `solve_and_extract`.

Times are whole minutes after midnight. The solver's answer is a status
string plus a map from variable keys to integers; a key that is absent
reads as 0. A constraint is data: a tagged linear expression, a relation
and a bound. `Satisfies` gives its meaning.

Modules:

- `Common`: sequence utilities (`ConcatMap`, `Sum`, 0/1 sums).
- `Blocks`: `genblocks` and the `day_blocks` grouping.
- `Availability`: `freeblk`.
- `LinearModel`: variable keys, constraints, evaluation, and the
  `Problem` class that `prob += ...` grows.
- `ModelSpec`: the specification functions of every variable loop and
  constraint loop.
- `ModelBuilder`: the imperative `build_model`, one method per loop, each
  proved equal to its specification function.
- `ShiftShape`: the soundness and completeness of the shift-shape block.
- `ModelProperties`: what a 0/1 answer satisfying the built model means.
- `RowOrder`: the sort key of the schedule.
- `Decode`: the post-solve decoding and the finding below.

In the source, `stmap`, `stus` and `ds` come from pandas (`groupby`,
`sorted(unique())`). Here they are inputs, and the lemmas that rely on
uniqueness require `NoDup` of days or students, which those pandas calls
guarantee.

## Model

| member | source | states |
|---|---|---|
| Blocks.GenBlocks | main.py:25-50 | The blocks produced are AllBlocks: the days in input order, each cut into NumBlocks consecutive one-hour blocks. |
| Blocks.NumBlocksFits | main.py:42-47 | Block i gets emitted exactly when a block starting at winStart + 60·i ends no later than winEnd. |
| Blocks.NumBlocksIsFloor | main.py:42-49 | The block count is ⌊(winEnd − winStart)/60⌋, so a trailing partial hour is dropped rather than shortened. |
| Blocks.DayBlocksShape | main.py:38-49 | The blocks of one day carry indices 0..n-1 in order. Block i starts at winStart + 60·i and lasts 60 minutes, each block starts where the previous one ended, and every end is at most winEnd. |
| Blocks.AllBlocksMember | main.py:38-49 | A block is generated iff its day is listed, its index is below NumBlocks, and its times are those of that index. |
| Blocks.AllBlocksUnique | main.py:38-49 | For distinct days, no two generated blocks share a (day, index) pair. |
| Blocks.GroupByDay | main.py:104-107 | day_blocks has exactly the listed days as keys, and each day maps to that day's (index, start, end) entries in block order. |
| Blocks.SlotsOfAllBlocks | main.py:104-107 | For distinct days, every listed day receives the full day's slots and an unlisted day receives none. |
| Blocks.DaySlotsIndices | main.py:119 | The block_indices of a day are exactly 0..NumBlocks-1. |
| Availability.FreeBlk | main.py:52-65 | freeblk answers true iff no class on the same day has cs < e and ce > s. |
| Availability.IrrelevantClass | main.py:57-63 | Adding a class on another day, or one that only touches the block or lies outside it, leaves the answer unchanged. |
| Availability.FreeDependsOnSetOnly | main.py:57-65 | The answer depends only on which classes are listed, not on their order or repetition. |
| LinearModel.Problem.SetObjective | main.py:133-137 | Setting the objective leaves the constraints unchanged. |
| LinearModel.Problem.Add | main.py:141 | Each `prob +=` appends exactly one constraint and keeps the objective. |
| ModelBuilder.AddStartVarsAt | main.py:120-126 | The start2/3/4 keys for one block are added exactly when index i+1, i+2 or i+3 is in block_indices. |
| ModelBuilder.AddXVars | main.py:115-116 | One x key is added per slot of the day. |
| ModelBuilder.AddStartVars | main.py:118-126 | The start keys of the whole day are added, block by block. |
| ModelBuilder.AddDayVars | main.py:112-126 | y, then the x keys, then the start keys of one student and day. |
| ModelBuilder.AddStudentVars | main.py:111-126 | The keys of one student, day by day. |
| ModelBuilder.AddUVars | main.py:128-129 | One u key per block. |
| ModelBuilder.CreateVariables | main.py:109-129 | The keys are created in the order of the variable loops (VarSpec). |
| ModelProperties.VarsMember | main.py:109-129 | For distinct days, a key exists iff it is one of these: an x or y of a listed student and day with a valid index; a start\<k\> (k = 2, 3, 4) exactly where i + k ≤ blocks per day; a u of a listed day's block. |
| ModelProperties.LinkTargetsExist | main.py:119-126 | Every x key that a link constraint of an existing start variable refers to exists. The constraint emission at main.py:187-199 relies on this. |
| ModelProperties.ObjectiveValue | main.py:131-137 | The objective evaluates to 1000·Σu + Σx + day_cost·Σy over the variables it lists. |
| ModelBuilder.EmitCoverage | main.py:139-141 | One cover_d_i constraint Σ_s x + u ≥ 1 is appended per block, in block order. |
| ModelProperties.OnePerBlock | main.py:139-145 | The coverage family and the overlap family each hold exactly one constraint per block, the j-th for the j-th block. |
| ModelProperties.OneCoverPerSlot | main.py:139-145 | For distinct days, no two coverage constraints, and no two overlap constraints, belong to the same (day, index). |
| ModelProperties.CoverMeaning | main.py:141 | For a 0/1 answer, cover_d_i holds iff u(d,i) = 1 or some student works the block. |
| ModelProperties.ModelCoverage | main.py:139-141 | In every 0/1 answer satisfying the whole model, every block of a listed day is flagged uncovered or worked by someone. |
| ModelBuilder.EmitOverlap | main.py:143-145 | One ovl_d_i constraint Σ_s x ≤ maxovl is appended per block. |
| ModelProperties.OverlapMeaning | main.py:145 | ovl_d_i holds iff the block's staffing is at most maxovl. |
| ModelProperties.ModelOverlap | main.py:143-145 | In every solution, every block has at most maxovl students. |
| ModelBuilder.EmitHours | main.py:147-151 | minH_s and maxH_s are appended for each student. |
| ModelProperties.HoursMeaning | main.py:149-151 | The two hours constraints of s hold iff minh ≤ (blocks s works in the week) ≤ maxh. |
| ModelProperties.ModelHours | main.py:147-151 | Every student of a solution works between minh and maxh blocks. |
| ModelBuilder.EmitFleet | main.py:153-157 | AvgLow and AvgHigh are appended once. |
| ModelProperties.FleetMeaning | main.py:154-157 | The fleet constraints hold iff avg_low·N ≤ total blocks worked ≤ avg_high·N, with N the number of students. |
| ModelProperties.TotalIsSumOfHours | main.py:155 | The fleet total is the sum of the students' weekly hours. |
| ModelProperties.ModelFleet | main.py:153-157 | In a solution, the average weekly hours lie in [avg_low, avg_high], stated multiplied by N. |
| ModelBuilder.EmitBusyDay | main.py:162-164 | busy_s_d_i (x = 0) is appended for exactly the day's slots that are not free. |
| ModelBuilder.EmitBusyStudent | main.py:161-164 | The busy constraints of one student, day by day. |
| ModelBuilder.EmitBusy | main.py:159-164 | The busy constraints of every student, in loop order. |
| ModelProperties.BusyPresent | main.py:159-164 | For distinct days, busy_s_d_i is emitted iff s is a student, d a listed day, i a valid index and the block is not free for s. |
| ModelProperties.ModelBusy | main.py:159-164 | In a solution, a student never works a block that overlaps one of their classes. |
| ModelBuilder.EmitLinksAt | main.py:187-199 | For each existing start\<k\>(s,d,i), the k links x(s,d,i+j) ≥ start\<k\>, j < k, are appended in source order. |
| ModelBuilder.EmitShiftDay | main.py:169-199 | shifts_s_d, then sumx_s_d, then the links of one student and day are appended. |
| ModelBuilder.EmitShifts | main.py:166-199 | The shift-shape block for every student and day, in loop order. |
| ShiftShape.ShiftShapeSound | main.py:166-199 | Take a 0/1 answer satisfying Σstart = y, Σx = 2Σs2 + 3Σs3 + 4Σs4 and the links, where every start variable's run fits in the day. Then either y = 0 and every x of that day is 0, or y = 1 and x is 1 on exactly one run of 2, 3 or 4 consecutive blocks. |
| ModelProperties.ModelShifts | main.py:166-199 | In every solution of the built model, every student's day is empty or a single shift of 2–4 consecutive blocks. |
| ShiftShape.ShiftShapeComplete | main.py:166-199 | The converse of ShiftShapeSound. Take a 0/1 answer with every start at 0 and the day empty (y = 0), or with x = 1 on exactly one run of k0 blocks (2 to 4) from i0, y = 1, and start<k0> at i0 existing as the only start at 1. That answer satisfies every shift-shape constraint of the day. |
| ModelProperties.ModelShiftsComplete | main.py:166-199 | Every allowed shape satisfies the shift-shape constraints the built model emits for that student and day: an empty day, or one run of 2–4 blocks inside the day with its start variable at 1. The model has a start variable for every run that fits. |
| ModelBuilder.EmitConstraints | main.py:139-199 | The six families are appended in source order: coverage, overlap, hours, fleet, busy, shifts. |
| ModelBuilder.BuildModel | main.py:67-201 | build_model returns the default-window blocks, the variables in creation order, the objective, and the six constraint families in order. |
| ModelProperties.AllUncoveredSolves | main.py:139-199 | With minh ≤ 0 ≤ maxh, avg_low ≤ 0 ≤ avg_high and maxovl ≥ 0, giving nobody a block and flagging every block uncovered satisfies every constraint. |
| Decode.CollectStudentRows | main.py:219-227 | One row is appended per block where the student's x is 1, in block order. |
| Decode.CollectRows | main.py:216-227 | The rows are built student by student (RowsSpec). |
| Decode.RowsMember | main.py:218-227 | A row is present iff its student is listed, its block is generated and that x is 1. |
| Decode.RowsDistinct | main.py:218-227 | For distinct students and generated blocks, no (student, day, index) appears twice. |
| Decode.CountIsHours | main.py:230-233 | For a 0/1 answer, the number of rows of a student equals their weekly hours, or 0 for an unlisted name. |
| Decode.TotalsAreHours | main.py:230-233 | Every row's TotalHrs is the weekly hours of that row's student. |
| RowOrder.DayNumInjective | main.py:238-239 | daymap gives the five days distinct numbers 1..5. |
| RowOrder.KeyLessTotal | main.py:240 | The (daynum, BlockIdx, Student) order is total. |
| RowOrder.KeyLessTransitive | main.py:240 | The sort order is transitive. |
| RowOrder.KeyLeAntisymmetric | main.py:240 | Rows with equal keys are not distinguished by the order. |
| Decode.SortRows | main.py:237-241 | The sort yields rows ordered by (day number, block index, student), and they are a permutation of its input. |
| Decode.SortRowsDistinct | main.py:240 | Sorting a table whose keys are distinct keeps them distinct. |
| Decode.SortedUnique | main.py:240 | Two sorted permutations of rows with distinct keys are equal: the sorted table does not depend on how it was sorted. |
| Decode.ScheduleDetermined | main.py:216-241 | For distinct students and days, any sorted arrangement of the decoded rows is exactly the schedule the model returns. |
| Decode.CollectUncovered | main.py:243-254 | One "Uncovered" row is emitted per block whose u is 1, in block order. |
| Decode.UncoveredMember | main.py:244-253 | An uncovered row is present iff its status is "Uncovered", its block is generated and u is 1. |
| Decode.UncoveredInBlockOrder | main.py:245 | The uncovered table of a block list splits at any point into the tables of the two parts, so it follows block order. |
| Decode.SolveAndExtract | main.py:212-256 | The decoding returns None for a status other than Optimal/Feasible, and otherwise the sorted schedule with totals and the uncovered table. |
| Decode.ExtractMeaning | main.py:212-256 | None iff the status is rejected. For an accepted status, the schedule is sorted; it holds exactly the rows whose x is 1, each with its student's weekly total; the uncovered table holds exactly the blocks whose u is 1. |
| Decode.AsWrittenCrashes | main.py:228-239 | The code as written raises KeyError exactly for accepted answers that give nobody a block, and otherwise agrees with ExtractSpec. |
| Decode.BusyRosterCrashes | main.py:159-164 | If every block overlaps a class of every student, every accepted solution crashes the code as written. The cited lines are the busy constraints behind this; the crash is at main.py:228-239. |
| Decode.CrashExample | main.py:228-239 | A concrete input on which the model is solvable and the code as written raises KeyError, while the intended result is an empty schedule plus ten uncovered rows. |

## Left out

- `loaddata` and `merger.py` are not part of this model: they read Excel files and list directories, with nothing to verify.
- The PuLP/CBC solve call is outside the model. Its result is taken as a status string plus a valuation. Optimality of the answer is not modelled; the lemmas speak of any 0/1 answer satisfying the constraints.
- `main()` is not modelled: it only prints and writes Excel files. The `print` of the status inside `solve_and_extract` is left out too.
- `strftime` formatting is not modelled: rows carry start and end as minutes after midnight, not "HH:MM" strings.
- `varValue == 1` is a float comparison in the source. Here values are exact integers, and the lemmas that depend on 0/1 require `Binary`.
- Blocks.GenBlocks: requires a window inside one day that ends at least an hour before midnight (`ValidWindow`), so the wrap-around of `.time()` after 23:00 is not modelled.
- The pandas `groupby`, `unique()` and `sorted()` that produce students, days and class lists happen before the model. The model takes their results as inputs. Lemmas needing uniqueness require `NoDup`, which those calls guarantee. The alphabetical order of days (main.py:84) is simply the order of the input `ds`.
- Days outside Monday–Friday are not modelled: daymap would send them to NaN. `Day` has exactly the five week days.
- The in-place `sort_values` is modelled as a value-level sort (`SortRows`). Decode.SortedUnique and Decode.ScheduleDetermined show that any sorted order of the rows is the same table, so the sort algorithm pandas uses makes no difference.
- The `daynum` helper column, added and dropped at main.py:239-241, does not appear in the model.
- ModelBuilder.BuildModel: fixes the block window to the default 07:30–17:30, as build_model does by calling `genblocks(ds)`.

## Findings

| source | as written | input that shows it | evidently intended | confidence | as-written member | corrected member |
|---|---|---|---|---|---|---|
| main.py:228-239 | When the accepted answer gives nobody a block, `pd.DataFrame([])` has no columns. The `else` branch adds only `TotalHrs`, and `sol_df["Day"]` at line 239 then raises KeyError. The empty-schedule branch at line 235 never yields a result. | One student "ana" with a Monday class 07:30–17:30; days [Monday]; minh = 0, maxh = 20, avg_low = 0, avg_high = 12, maxovl = 3, day_cost = 1; the answer with every x, y and start at 0 and every u at 1. This answer satisfies the model, and every solution of this model has no x equal to 1 (Decode.CrashExample, Decode.BusyRosterCrashes). | An empty schedule table together with the uncovered table, the intent of the `else` branch at main.py:234-235. | not executed | Decode.ExtractAsWritten (Decode.AsWrittenCrashes, Decode.CrashExample) | Decode.ExtractSpec (Decode.SolveAndExtract, Decode.ExtractMeaning) |
