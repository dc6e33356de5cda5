# Evidence-ready AI systems: synthetic tables and their quality checks

This project models the two pieces of logic in the repository.

The first is the synthetic data generator. `gen_users`, `gen_teams` and `gen_tasks` build linked tables:
- `dim_users` and `dim_teams`;
- `fact_tasks`, the support tasks;
- `fact_interactions`, one row per AI call within a task.

`gen_tasks` updates a call counter, an escalation counter and a running timestamp for every interaction of a task. Afterwards it writes the task row from those values. `gen_experiments` is the fixed two-arm experiment `exp_001`.

The second is the data-quality script. It does four things:
- reports the shape of each table;
- counts nulls in the key columns of `fact_interactions` that are present;
- counts interactions whose `user_id` is not among the users' ids, using `isin`;
- summarises `outcome_quality_score` when that column exists.

The random draws of the generator become inputs. The draws of `gen_users` and `gen_tasks` are one record per loop iteration (`UserDraw`, `TaskDraw`, and `InteractionDraw` for each interaction). The queue types `gen_teams` draws are a plain sequence of `QueueType`, one per team. The `creator` draw of `gen_tasks` is not modelled, since nothing uses it. A predicate states the range Python's `random` gives each draw:
- day offset 0..60;
- 1..4 interactions per task;
- minute steps 1..30;
- resolution delay 5..60;
- latency 200..1500 ms;
- response 50..200 tokens;
- a choice from each fixed list.

The categorical lists are enumerated datatypes whose `Name()` is the text written to the file.

Time is modelled in integer seconds after the base date 2025-01-01T00:00:00:
- a task created on day `d` starts at `d·86400`;
- each interaction adds `60·minutes`;
- `period_start` and `period_end` are the day numbers of the two instants.

The quality score is an integer number of thousandths from 400 to 950, which is what its three-decimal rendering writes.

The model follows the source's structure:
- `Schema` holds the rows, the constants and the identifier formats (`user_{i}`, `task_{t}`, `task_{t}_req_{k}`, …).
- `Text` holds decimal numerals, their round trip, and what makes the identifiers distinct.
- `Generator` holds `GenUsers`, `GenTeams` and `GenTasks`. These are methods with the source's `for` loops. `GenUsers` and `GenTasks` are proved against specification functions (`AllUsers`, and `AllTasks` with `AllInteractions`). `GenTeams` states its rows directly, one per team id. The inner loop of `gen_tasks` is the method `AppendTaskInteractions`.
- `Validator` holds the checks as pure functions over tables as pandas holds them. A cell is `Null` (NaN) or text. A missing `user_id` column makes the run fail with `MissingColumn`, pandas' KeyError.
- `Pipeline` connects the two. Each generated row is rendered as its CSV record and read back by `ReadCsv`, which stands in for `pd.read_csv`: a field becomes a cell, and a field equal to one of pandas' default NA tokens becomes NaN. The checks then run on the result.

Three behaviours of the code are worth stating plainly:
- **Teams.** A row is written for each of the five ids, whether or not a user references it (synthetic_data/generate_synthetic_data.py:26,143).
- **Missing `user_id`.** The referential check is not guarded, so a missing `user_id` column in either table stops the run (notebooks/check_data_quality.py:35).
- **Dangling count.** Rows are counted, not distinct ids: one unknown id repeated in three rows counts three.

Reading the users file back shows one quirk the checks never see. The region `NA` is one of pandas' NA tokens, so every North American user's region reads back as missing (`Pipeline.RegionCells`).

## Model

| member | source | states |
|---|---|---|
| Generator.GenUsers | synthetic_data/generate_synthetic_data.py:25-40 | returns the team ids `team_1..team_5`, which are distinct, and exactly `NUM_USERS` users. User `i+1` is built from draw `i` with id `user_{i+1}`, in order; the ids are distinct and every user's `team_id` is one of the returned team ids |
| Generator.TeamIdsDistinct | synthetic_data/generate_synthetic_data.py:26 | the comprehension gives `NUM_TEAMS` distinct team ids |
| Generator.GenTeams | synthetic_data/generate_synthetic_data.py:42-51 | one team row per given id, in the same order. Each row has function `internal_support`, the drawn queue type and lead name `Lead_{tid}` |
| Generator.GenExperiments | synthetic_data/generate_synthetic_data.py:53-73 | the two arms of `exp_001`, `control` and `explanation`. Every treatment arm an interaction can carry is one of them; both run 2025-01-01 to 2025-12-31; the (experiment, arm) keys are distinct |
| Generator.AppendTaskInteractions | synthetic_data/generate_synthetic_data.py:86-116 | the inner loop appends exactly the task's interaction rows. `ai_calls` ends at the number of draws, `escalations` at the number of escalate draws, and `last_time` at the creation instant plus 60 s times the sum of the minute steps |
| Generator.GenTasks | synthetic_data/generate_synthetic_data.py:75-133 | the task and interaction tables. Exactly `NUM_TASKS` tasks with distinct ids; between `NUM_TASKS` and `4·NUM_TASKS` interactions with distinct request ids. The counters match the rows, the timestamps increase within a task, rows sit inside their task's time window, and every foreign key resolves |
| Generator.StepRowFields | synthetic_data/generate_synthetic_data.py:91-116 | interaction `k` of task `t` has request id `task_{t}_req_{k}`, task id `task_{t}`, the drawn user and arm, and the task's score. It is created at the task's start plus 60 s times the minute steps so far |
| Generator.CallsPerTask | synthetic_data/generate_synthetic_data.py:84-99 | the number of interaction rows carrying `task_{t}` equals task `t`'s drawn interaction count |
| Generator.EscalationsPerTask | synthetic_data/generate_synthetic_data.py:96-99 | the number of escalating rows carrying `task_{t}` equals the number of escalate draws of task `t` |
| Generator.TaskRowFacts | synthetic_data/generate_synthetic_data.py:118-131 | one task row. `num_ai_calls` is in 1..4 and `num_escalations` is at most `num_ai_calls`. `resolution_time_sec` equals `resolution_at - first_ai_request_at` and is at least `60·num_ai_calls + 300`. The start day is the drawn day and is not after the end day |
| Generator.TimesIncrease | synthetic_data/generate_synthetic_data.py:88-115 | of two interaction rows of the same task, the later row has the strictly later `created_at` |
| Generator.RowsInWindows | synthetic_data/generate_synthetic_data.py:88-118 | every interaction of task `t` is at least a minute after the task's creation and no later than its last interaction, and carries the task's score |
| Generator.RequestIdsUnique | synthetic_data/generate_synthetic_data.py:93-103 | no two interaction rows share a request id |
| Generator.RowsReferenceUsers | synthetic_data/generate_synthetic_data.py:92-104 | every interaction's `user_id` is the id of a generated user |
| Generator.RowsHaveTaskIds | synthetic_data/generate_synthetic_data.py:80-105 | every interaction's `task_id` is `task_{t}` for one of the generated tasks |
| Generator.TotalStepsBounds | synthetic_data/generate_synthetic_data.py:80-84 | the total number of interactions lies between the number of tasks and four times it |
| Generator.RowKeysEndInDigit | synthetic_data/generate_synthetic_data.py:93-105 | every request id, user id and task id of an interaction row ends in a digit |
| Generator.GeneratedTablesConsistent | synthetic_data/generate_synthetic_data.py:75-133 | the task and interaction tables for any valid draws have all of the properties above at once |
| Generator.Generate | synthetic_data/generate_synthetic_data.py:141-145 | `main` without its file writes. All tables with their sizes and distinct keys; every user's team exists; every interaction's user, task and treatment arm exists (an arm as an `arm_id` of exp_001); the task properties above hold |
| Schema.UserIdInjective | synthetic_data/generate_synthetic_data.py:33 | `user_{i}` determines `i` |
| Schema.TaskIdInjective | synthetic_data/generate_synthetic_data.py:81 | `task_{t}` determines `t` |
| Schema.RequestIdInjective | synthetic_data/generate_synthetic_data.py:93 | `task_{t}_req_{k}` determines both `t` and `k`, for numerals of any length |
| Text.NatToString | synthetic_data/generate_synthetic_data.py:33 | `{i}` writes a non-empty digit string with no leading zero |
| Text.ParseNatToString | synthetic_data/generate_synthetic_data.py:33 | reading back the numeral `{i}` gives `i` |
| Validator.NullCountIsSize | notebooks/check_data_quality.py:30 | `isna().sum()` is the number of row positions holding a null |
| Validator.NullCountZero | notebooks/check_data_quality.py:30 | the null count is zero if and only if no cell is null |
| Validator.MissingKeyCountsExact | notebooks/check_data_quality.py:28-31 | every reported entry is a key column that is present, with that column's null count. Every present key column is reported |
| Validator.MissingKeyCountsSkipAbsent | notebooks/check_data_quality.py:29 | a key column missing from the table gets no entry |
| Validator.MissingKeyCountsOrdered | notebooks/check_data_quality.py:28 | the entries follow the order of the key list |
| Validator.DanglingIsSize | notebooks/check_data_quality.py:35-36 | `(~col.isin(known)).sum()` is the number of rows whose cell matches no known cell |
| Validator.DanglingZero | notebooks/check_data_quality.py:35-36 | the dangling count is zero if and only if every cell is among the known cells |
| Validator.NullsDangle | notebooks/check_data_quality.py:35 | when the users' `user_id` column holds no null, every row whose `user_id` is null is among the dangling rows, so the dangling count is at least the null count |
| Validator.ReferentialCheck | notebooks/check_data_quality.py:35-36 | fails if and only if `user_id` is missing from either table, naming the interactions table when that one lacks it and the users table otherwise. When it succeeds, it returns the number of dangling rows, at most the number of interaction rows |
| Validator.ScoreSummary | notebooks/check_data_quality.py:40-41 | absent exactly when `outcome_quality_score` is missing. Otherwise its count plus the number of null scores is the number of rows |
| Validator.RunChecks | notebooks/check_data_quality.py:16-43 | the whole run. The three shapes, then the missing-key report as above. It fails exactly when the referential lookup has no `user_id` column. Otherwise it completes with the dangling count and the score summary, which is absent exactly when the score column is missing |
| Pipeline.DigitFieldIsText | notebooks/check_data_quality.py:17-19 | a field ending in a digit is never an NA token, so `read_csv` reads it as text |
| Pipeline.CsvFieldsReadBack | notebooks/check_data_quality.py:17-19 | a file read back under a header without repeated names is a well-formed table. Cell `i` of `frame[name]` is null exactly when field `i` at the name's position is one of pandas' default NA tokens; otherwise it is that field's own text |
| Pipeline.CsvColumn | notebooks/check_data_quality.py:17-19 | `frame[name]` of a file read back holds, row by row, the field at the name's position in the header |
| Pipeline.RegionCells | synthetic_data/generate_synthetic_data.py:28-37 | a user's region reads back as missing when it is `NA`, and as its text otherwise |
| Pipeline.KeysPresent | notebooks/check_data_quality.py:28-31 | for interaction rows whose keys end in digits, all four key columns are reported with zero nulls |
| Pipeline.ScoresPresent | notebooks/check_data_quality.py:40-41 | the score summary of interaction rows read back counts every row |
| Pipeline.NoDanglingUsers | notebooks/check_data_quality.py:35-36 | interaction rows whose user ids are ids of the users leave no dangling reference |
| Pipeline.ChecksPass | notebooks/check_data_quality.py:16-43 | rows with such keys and known user ids pass every check. The run completes with the three shapes, four zero missing-key counts, no dangling reference and a summary counting every interaction |
| Pipeline.GenerateAndCheck | notebooks/check_data_quality.py:16-43 | running the checks on the generator's own output completes with no missing key, a dangling count of 0 and a score count between `NUM_TASKS` and `4·NUM_TASKS` |

## Left out

- File output is not modelled at all: `write_csv` and the write calls of `main` (synthetic_data/generate_synthetic_data.py:135-171). The line format is not modelled when reading either: `read_csv`'s file access, quoting and delimiters. What is modelled is the field text of each row and how pandas turns a field into a cell.
- The `print` output of both scripts: the checks return their findings as a `Report`/`Outcome` value instead.
- `random.seed(42)` and Python's Mersenne Twister: the draws are inputs, constrained only by their ranges, so the model covers every seed.
- The floating-point score `random.uniform(0.4, 0.95)`: scores are integer thousandths, as the `.3f` rendering writes them.
- `datetime` and `isoformat`: instants are seconds after the base date, and the `created_at`, `first_ai_request_at` and `resolution_at` fields are written as their decimal numerals rather than ISO text. The NA check treats the two renderings alike, since neither is ever an NA token. `period_start` and `period_end` are day numbers, not calendar dates.
- pandas' dtype inference: cells are compared as the text read; every column the checks touch holds the same kind of value in both tables.
- The unused `creator` draw and the unused `NUM_PERIODS` constant (synthetic_data/generate_synthetic_data.py:21,82).
- Validator.ScoreSummary: models only the `count` row of `describe()`; mean, deviation and quantiles are floating-point statistics.
- Validator.NullsDangle: a null `user_id` counts as dangling only when the users' `user_id` column holds no null, because pandas' `isin` matches NaN with NaN. The generated users never have a null id.
- Validator.RunChecks: there is no separate statement that the checks leave the tables unchanged. That holds by construction: every check is a function of table values and returns a new value.
