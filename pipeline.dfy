/** The generated tables as the quality checks read them back: each row is
    written as text in its CSV column order and each field is read as pandas
    reads it, and the checks are run on what comes back. */
module Pipeline {
  import opened Text
  import opened Schema
  import opened Generator
  import opened Validator

  /** The fields pandas' read_csv reads as NaN by default. */
  predicate IsNaToken(field: string) {
    field in [
      "", "#N/A", "#N/A N/A", "#NA", "-1.#IND", "-1.#QNAN", "-NaN", "-nan", "1.#IND", "1.#QNAN",
      "<NA>", "N/A", "NA", "NULL", "NaN", "None", "n/a", "nan", "null"]
  }

  function ReadCell(field: string): Cell {
    if IsNaToken(field) then Null else Text(field)
  }

  /** No NA token ends in a digit, so a field that does is read as text. */
  lemma {:induction false} DigitFieldIsText(field: string)
    requires EndsInDigit(field)
    ensures ReadCell(field) == Text(field)
  {
    assert !IsNaToken(field);
  }

  /** A score in thousandths as `f"{quality:.3f}"` writes it. */
  function QualityText(milli: nat): (s: string)
    ensures EndsInDigit(s)
  {
    NatToString(milli / 1000) + "." + [DigitChar(milli / 100 % 10), DigitChar(milli / 10 % 10), DigitChar(milli % 10)]
  }

  function IntToString(x: int): string {
    if x < 0 then "-" + NatToString(-x) else NatToString(x)
  }

  // ---------------------------------------------------------------- the three tables the checks read

  const INTERACTION_COLUMNS: seq<ColumnName> := [
    RequestIdColumn, UserIdColumn, TaskIdColumn, SessionIdColumn, TaskTypeColumn, ModelVersionColumn,
    PromptTemplateIdColumn, TreatmentArmColumn, ResponseTokensColumn, LatencyMsColumn, ActionTypeColumn,
    OutcomeQualityScoreColumn, CreatedAtColumn]

  const TASK_COLUMNS: seq<ColumnName> := [
    TaskIdColumn, PeriodStartColumn, PeriodEndColumn, FirstAiRequestAtColumn, ResolutionAtColumn,
    NumAiCallsColumn, NumEscalationsColumn, ResolutionTimeSecColumn, OutcomeQualityScoreColumn]

  const USER_COLUMNS: seq<ColumnName> := [UserIdColumn, RoleColumn, TenureBandColumn, TeamIdColumn, RegionColumn, IsSyntheticColumn]

  /** `pd.read_csv` of a file whose first line is `header` and whose other
      lines are `records`: each field read as a cell, column by column. */
  function ReadCsv(header: seq<ColumnName>, records: seq<seq<string>>): (f: Frame)
    requires forall i :: 0 <= i < |records| ==> |records[i]| == |header|
    ensures f.columns == header && f.height == |records| && |f.data| == |header|
    ensures forall j :: 0 <= j < |header| ==> |f.data[j]| == |records|
    ensures forall j, i :: 0 <= j < |header| && 0 <= i < |records| ==> f.data[j][i] == ReadCell(records[i][j])
  {
    Frame(header, seq(|header|, j requires 0 <= j < |header| =>
      seq(|records|, i requires 0 <= i < |records| => ReadCell(records[i][j]))), |records|)
  }

  /** A file read back under a header without repeated names is a table. */
  lemma {:induction false} ReadCsvWellFormed(header: seq<ColumnName>, records: seq<seq<string>>)
    requires forall i :: 0 <= i < |records| ==> |records[i]| == |header|
    requires DistinctNames(header)
    ensures WellFormed(ReadCsv(header, records))
  {
  }

  /** The `j`-th field of one line of each file, in column order. */
  function InteractionField(r: Interaction, j: nat): string
    requires j < |INTERACTION_COLUMNS|
  {
    match j
    case 0 => r.requestId
    case 1 => r.userId
    case 2 => r.taskId
    case 3 => r.sessionId
    case 4 => r.taskType.Name()
    case 5 => r.modelVersion
    case 6 => r.promptTemplateId
    case 7 => r.treatmentArm.Name()
    case 8 => NatToString(r.responseTokens)
    case 9 => NatToString(r.latencyMs)
    case 10 => r.actionType.Name()
    case 11 => QualityText(r.qualityMilli)
    case _ => NatToString(r.createdAt)
  }

  function TaskField(t: Task, j: nat): string
    requires j < |TASK_COLUMNS|
  {
    match j
    case 0 => t.taskId
    case 1 => NatToString(t.periodStartDay)
    case 2 => NatToString(t.periodEndDay)
    case 3 => NatToString(t.firstAiRequestAt)
    case 4 => NatToString(t.resolutionAt)
    case 5 => NatToString(t.numAiCalls)
    case 6 => NatToString(t.numEscalations)
    case 7 => IntToString(t.resolutionTimeSec)
    case _ => QualityText(t.qualityMilli)
  }

  function UserField(u: User, j: nat): string
    requires j < |USER_COLUMNS|
  {
    match j
    case 0 => u.userId
    case 1 => u.role.Name()
    case 2 => u.tenureBand.Name()
    case 3 => u.teamId
    case 4 => u.region.Name()
    case _ => u.isSynthetic
  }

  /** One line of each file: its fields in column order. */
  function InteractionRecord(r: Interaction): (fields: seq<string>)
    ensures |fields| == |INTERACTION_COLUMNS|
  {
    seq(|INTERACTION_COLUMNS|, j requires 0 <= j < |INTERACTION_COLUMNS| => InteractionField(r, j))
  }

  function TaskRecord(t: Task): (fields: seq<string>)
    ensures |fields| == |TASK_COLUMNS|
  {
    seq(|TASK_COLUMNS|, j requires 0 <= j < |TASK_COLUMNS| => TaskField(t, j))
  }

  function UserRecord(u: User): (fields: seq<string>)
    ensures |fields| == |USER_COLUMNS|
  {
    seq(|USER_COLUMNS|, j requires 0 <= j < |USER_COLUMNS| => UserField(u, j))
  }

  function InteractionsFrame(rows: seq<Interaction>): Frame {
    ReadCsv(INTERACTION_COLUMNS, seq(|rows|, i requires 0 <= i < |rows| => InteractionRecord(rows[i])))
  }

  function TasksFrame(tasks: seq<Task>): Frame {
    ReadCsv(TASK_COLUMNS, seq(|tasks|, i requires 0 <= i < |tasks| => TaskRecord(tasks[i])))
  }

  function UsersFrame(users: seq<User>): Frame {
    ReadCsv(USER_COLUMNS, seq(|users|, i requires 0 <= i < |users| => UserRecord(users[i])))
  }

  /** Column `name` of a file read back holds, row by row, the field at the
      name's position in the header. */
  lemma {:induction false} CsvColumn(header: seq<ColumnName>, records: seq<seq<string>>, name: ColumnName, j: nat)
    requires forall i :: 0 <= i < |records| ==> |records[i]| == |header|
    requires DistinctNames(header)
    requires j < |header| && header[j] == name
    ensures WellFormed(ReadCsv(header, records)) && name in header
    ensures forall i :: 0 <= i < |records| ==> Column(ReadCsv(header, records), name)[i] == ReadCell(records[i][j])
  {
    ReadCsvWellFormed(header, records);
    forall i | 0 <= i < j ensures header[i] != name {
      assert header[..j][i] == header[i];
    }
    IndexOfAt(header, name, j);
  }

  /** Reading a field back: `frame[name]` is null exactly where the field at
      the name's position is one of the NA tokens, and elsewhere holds that
      field's own text, so every other field survives the round trip. */
  lemma {:induction false} CsvFieldsReadBack(header: seq<ColumnName>, records: seq<seq<string>>, name: ColumnName, j: nat)
    requires forall i :: 0 <= i < |records| ==> |records[i]| == |header|
    requires DistinctNames(header)
    requires j < |header| && header[j] == name
    ensures WellFormed(ReadCsv(header, records)) && name in header
    ensures forall i :: 0 <= i < |records| ==>
      (Column(ReadCsv(header, records), name)[i] == Null <==> IsNaToken(records[i][j]))
    ensures forall i :: 0 <= i < |records| && !IsNaToken(records[i][j]) ==>
      Column(ReadCsv(header, records), name)[i] == Text(records[i][j])
  {
    CsvColumn(header, records, name, j);
  }

  lemma {:induction false} InteractionColumnsDistinct()
    ensures DistinctNames(INTERACTION_COLUMNS)
  {
  }

  lemma {:induction false} TaskColumnsDistinct()
    ensures DistinctNames(TASK_COLUMNS)
  {
  }

  lemma {:induction false} UserColumnsDistinct()
    ensures DistinctNames(USER_COLUMNS)
  {
  }

  lemma {:induction false} InteractionColumn(rows: seq<Interaction>, name: ColumnName, j: nat)
    requires j < |INTERACTION_COLUMNS| && INTERACTION_COLUMNS[j] == name
    ensures WellFormed(InteractionsFrame(rows)) && name in InteractionsFrame(rows).columns
    ensures forall i :: 0 <= i < |rows| ==> Column(InteractionsFrame(rows), name)[i] == ReadCell(InteractionField(rows[i], j))
  {
    InteractionColumnsDistinct();
    var records := seq(|rows|, i requires 0 <= i < |rows| => InteractionRecord(rows[i]));
    CsvColumn(INTERACTION_COLUMNS, records, name, j);
  }

  lemma {:induction false} InteractionsFrameWellFormed(rows: seq<Interaction>)
    ensures WellFormed(InteractionsFrame(rows))
  {
    InteractionColumnsDistinct();
    ReadCsvWellFormed(INTERACTION_COLUMNS, seq(|rows|, i requires 0 <= i < |rows| => InteractionRecord(rows[i])));
  }

  lemma {:induction false} TasksFrameWellFormed(tasks: seq<Task>)
    ensures WellFormed(TasksFrame(tasks))
  {
    TaskColumnsDistinct();
    ReadCsvWellFormed(TASK_COLUMNS, seq(|tasks|, i requires 0 <= i < |tasks| => TaskRecord(tasks[i])));
  }

  lemma {:induction false} UsersFrameWellFormed(users: seq<User>)
    ensures WellFormed(UsersFrame(users))
  {
    UserColumnsDistinct();
    ReadCsvWellFormed(USER_COLUMNS, seq(|users|, i requires 0 <= i < |users| => UserRecord(users[i])));
  }

  lemma {:induction false} UserIdCells(users: seq<User>)
    ensures WellFormed(UsersFrame(users)) && USER_ID in UsersFrame(users).columns
    ensures forall j :: 0 <= j < |users| ==> Column(UsersFrame(users), USER_ID)[j] == ReadCell(users[j].userId)
  {
    UserColumnsDistinct();
    var records := seq(|users|, i requires 0 <= i < |users| => UserRecord(users[i]));
    CsvColumn(USER_COLUMNS, records, USER_ID, 0);
  }

  /** The region of the North American users, `NA`, is one of the NA tokens,
      so it is read back as missing; the other regions are read as written. */
  lemma {:induction false} RegionCells(users: seq<User>, j: nat)
    requires j < |users|
    ensures WellFormed(UsersFrame(users)) && RegionColumn in UsersFrame(users).columns
    ensures Column(UsersFrame(users), RegionColumn)[j] == (if users[j].region == NA then Null else Text(users[j].region.Name()))
  {
    UserColumnsDistinct();
    var records := seq(|users|, i requires 0 <= i < |users| => UserRecord(users[i]));
    CsvColumn(USER_COLUMNS, records, RegionColumn, 4);
    assert records[j][4] == users[j].region.Name();
    RegionRead(users[j].region);
  }

  lemma {:induction false} RegionRead(r: Region)
    ensures ReadCell(r.Name()) == (if r == NA then Null else Text(r.Name()))
  {
    assert IsNaToken("NA");
    assert !IsNaToken("EU") && !IsNaToken("APAC");
  }

  /** The interaction cells the checks look at are read as text. */
  lemma {:induction false} CheckedCellsText(rows: seq<Interaction>, name: ColumnName, j: nat)
    requires j < |INTERACTION_COLUMNS| && INTERACTION_COLUMNS[j] == name
    requires forall i :: 0 <= i < |rows| ==> EndsInDigit(InteractionField(rows[i], j))
    ensures WellFormed(InteractionsFrame(rows)) && name in InteractionsFrame(rows).columns
    ensures NullCount(Column(InteractionsFrame(rows), name)) == 0
  {
    InteractionColumn(rows, name, j);
    var col := Column(InteractionsFrame(rows), name);
    forall i | 0 <= i < |rows| ensures col[i] != Null {
      DigitFieldIsText(InteractionField(rows[i], j));
    }
    NullCountZero(col);
  }

  /** With no null in any key column, the missing-key report is four zeros. */
  lemma {:induction false} NoMissingKeys(f: Frame)
    requires WellFormed(f)
    requires RequestIdColumn in f.columns && NullCount(Column(f, RequestIdColumn)) == 0
    requires UserIdColumn in f.columns && NullCount(Column(f, UserIdColumn)) == 0
    requires TaskIdColumn in f.columns && NullCount(Column(f, TaskIdColumn)) == 0
    requires CreatedAtColumn in f.columns && NullCount(Column(f, CreatedAtColumn)) == 0
    ensures MissingKeyCounts(f, KEY_COLUMNS) == [(RequestIdColumn, 0), (UserIdColumn, 0), (TaskIdColumn, 0), (CreatedAtColumn, 0)]
  {
    var keys := KEY_COLUMNS;
    assert keys[1..][1..][1..][1..] == [];
    assert MissingKeyCounts(f, keys[1..][1..][1..]) == [(CreatedAtColumn, 0)];
    assert MissingKeyCounts(f, keys[1..][1..]) == [(TaskIdColumn, 0), (CreatedAtColumn, 0)];
    assert MissingKeyCounts(f, keys[1..]) == [(UserIdColumn, 0), (TaskIdColumn, 0), (CreatedAtColumn, 0)];
  }

  /** The outcome of checks that find nothing: the three shapes, no missing key,
      no dangling user id and every score counted. */
  function CleanOutcome(numInteractions: nat, numTasks: nat, numUsers: nat): Outcome {
    Completed(
      Report([(numInteractions, 13), (numTasks, 9), (numUsers, 6)],
             [(RequestIdColumn, 0), (UserIdColumn, 0), (TaskIdColumn, 0), (CreatedAtColumn, 0)]),
      0, Some(Summary(numInteractions)))
  }

  /** Interaction rows whose keys end in a digit have no null key. */
  lemma {:induction false} KeysPresent(rows: seq<Interaction>)
    requires forall i :: 0 <= i < |rows| ==>
               EndsInDigit(rows[i].requestId) && EndsInDigit(rows[i].userId) && EndsInDigit(rows[i].taskId)
    ensures WellFormed(InteractionsFrame(rows))
    ensures MissingKeyCounts(InteractionsFrame(rows), KEY_COLUMNS)
              == [(RequestIdColumn, 0), (UserIdColumn, 0), (TaskIdColumn, 0), (CreatedAtColumn, 0)]
  {
    RequestIdsPresent(rows);
    UserIdsPresent(rows);
    TaskIdsPresent(rows);
    CreationTimesPresent(rows);
    NoMissingKeys(InteractionsFrame(rows));
  }

  lemma {:induction false} RequestIdsPresent(rows: seq<Interaction>)
    requires forall i :: 0 <= i < |rows| ==> EndsInDigit(rows[i].requestId)
    ensures WellFormed(InteractionsFrame(rows)) && RequestIdColumn in InteractionsFrame(rows).columns
    ensures NullCount(Column(InteractionsFrame(rows), RequestIdColumn)) == 0
  {
    CheckedCellsText(rows, RequestIdColumn, 0);
  }

  lemma {:induction false} UserIdsPresent(rows: seq<Interaction>)
    requires forall i :: 0 <= i < |rows| ==> EndsInDigit(rows[i].userId)
    ensures WellFormed(InteractionsFrame(rows)) && UserIdColumn in InteractionsFrame(rows).columns
    ensures NullCount(Column(InteractionsFrame(rows), UserIdColumn)) == 0
  {
    CheckedCellsText(rows, UserIdColumn, 1);
  }

  lemma {:induction false} TaskIdsPresent(rows: seq<Interaction>)
    requires forall i :: 0 <= i < |rows| ==> EndsInDigit(rows[i].taskId)
    ensures WellFormed(InteractionsFrame(rows)) && TaskIdColumn in InteractionsFrame(rows).columns
    ensures NullCount(Column(InteractionsFrame(rows), TaskIdColumn)) == 0
  {
    CheckedCellsText(rows, TaskIdColumn, 2);
  }

  /** Creation times are numerals, so none is read as missing. */
  lemma {:induction false} CreationTimesPresent(rows: seq<Interaction>)
    ensures WellFormed(InteractionsFrame(rows)) && CreatedAtColumn in InteractionsFrame(rows).columns
    ensures NullCount(Column(InteractionsFrame(rows), CreatedAtColumn)) == 0
  {
    forall i | 0 <= i < |rows| ensures EndsInDigit(InteractionField(rows[i], 12)) {
      var s := NatToString(rows[i].createdAt);
      assert IsDigit(s[|s| - 1]);
    }
    CheckedCellsText(rows, CreatedAtColumn, 12);
  }

  /** Every score is read as a number, so the summary counts every row. */
  lemma {:induction false} ScoresPresent(rows: seq<Interaction>)
    ensures WellFormed(InteractionsFrame(rows))
    ensures ScoreSummary(InteractionsFrame(rows)) == Some(Summary(|rows|))
  {
    CheckedCellsText(rows, SCORE_COLUMN, 11);
    var col := Column(InteractionsFrame(rows), SCORE_COLUMN);
    assert |col| == |rows|;
  }

  /** A user id that is one of the users' ids is found among the user cells. */
  lemma {:induction false} KnownUserCell(users: seq<User>, id: string)
    requires id in UserIds(users) && EndsInDigit(id)
    requires forall j :: 0 <= j < |users| ==> EndsInDigit(users[j].userId)
    ensures WellFormed(UsersFrame(users)) && USER_ID in UsersFrame(users).columns
    ensures Text(id) in Column(UsersFrame(users), USER_ID)
  {
    UserIdCells(users);
    var j :| 0 <= j < |users| && UserIds(users)[j] == id;
    DigitFieldIsText(users[j].userId);
    assert Column(UsersFrame(users), USER_ID)[j] == Text(id);
  }

  /** Interaction rows whose user ids are ids of the users leave no user id
      dangling. */
  lemma {:induction false} NoDanglingUsers(rows: seq<Interaction>, users: seq<User>)
    requires forall i :: 0 <= i < |rows| ==> EndsInDigit(rows[i].userId) && rows[i].userId in UserIds(users)
    requires forall j :: 0 <= j < |users| ==> EndsInDigit(users[j].userId)
    ensures WellFormed(InteractionsFrame(rows)) && WellFormed(UsersFrame(users))
    ensures ReferentialCheck(InteractionsFrame(rows), UsersFrame(users)) == Success(0)
  {
    InteractionColumn(rows, USER_ID, 1);
    UserIdCells(users);
    var userIds, known := Column(InteractionsFrame(rows), USER_ID), Column(UsersFrame(users), USER_ID);
    forall i | 0 <= i < |rows| ensures userIds[i] in known {
      DigitFieldIsText(rows[i].userId);
      KnownUserCell(users, rows[i].userId);
    }
    DanglingZero(userIds, known);
  }

  /** Interaction rows whose keys end in a digit and whose user ids are ids of
      the users pass every check. */
  lemma {:induction false} ChecksPass(rows: seq<Interaction>, tasks: seq<Task>, users: seq<User>)
    requires forall i :: 0 <= i < |rows| ==>
               && EndsInDigit(rows[i].requestId) && EndsInDigit(rows[i].userId) && EndsInDigit(rows[i].taskId)
               && rows[i].userId in UserIds(users)
    requires forall j :: 0 <= j < |users| ==> EndsInDigit(users[j].userId)
    ensures WellFormed(InteractionsFrame(rows)) && WellFormed(TasksFrame(tasks)) && WellFormed(UsersFrame(users))
    ensures RunChecks(InteractionsFrame(rows), TasksFrame(tasks), UsersFrame(users)) == CleanOutcome(|rows|, |tasks|, |users|)
  {
    TasksFrameWellFormed(tasks);
    KeysPresent(rows);
    ScoresPresent(rows);
    NoDanglingUsers(rows, users);
  }

  /** The generator followed by the checks: the checks find nothing. */
  method GenerateAndCheck(userDraws: seq<UserDraw>, queueDraws: seq<QueueType>, taskDraws: seq<TaskDraw>)
    returns (outcome: Outcome)
    requires |userDraws| == NUM_USERS && forall i :: 0 <= i < |userDraws| ==> ValidUserDraw(userDraws[i])
    requires |queueDraws| == NUM_TEAMS
    requires |taskDraws| == NUM_TASKS && ValidTaskDraws(taskDraws, NUM_USERS)
    ensures outcome.Completed? && outcome.dangling == 0
    ensures outcome.report.missing == [(RequestIdColumn, 0), (UserIdColumn, 0), (TaskIdColumn, 0), (CreatedAtColumn, 0)]
    ensures outcome.summary.Some? && NUM_TASKS <= outcome.summary.value.count <= 4 * NUM_TASKS
  {
    var users, teams, arms, tasks, interactions := Generate(userDraws, queueDraws, taskDraws);
    InteractionsFrameWellFormed(interactions);
    TasksFrameWellFormed(tasks);
    UsersFrameWellFormed(users);
    outcome := RunChecks(InteractionsFrame(interactions), TasksFrame(tasks), UsersFrame(users));
    forall j | 0 <= j < |users| ensures EndsInDigit(users[j].userId) {
      EndsInNumeral("user_", j + 1);
    }
    RowKeysEndInDigit(users, taskDraws);
    ChecksPass(interactions, tasks, users);
  }
}
