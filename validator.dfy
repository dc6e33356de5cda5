/** The data-quality checks run over the three tables as pandas reads them:
    shapes, null counts in the key columns that are present, the user_id
    referential check and the presence-guarded score summary. */
module Validator {

  datatype Option<T> = None | Some(value: T)

  /** A cell of a read table: missing (pandas NaN) or text. */
  datatype Cell = Null | Text(value: string)

  /** The column headers of the three tables; `Other` is any header the
      generator does not write. `Header` is the text in the CSV's first line. */
  datatype ColumnName =
    | RequestIdColumn | UserIdColumn | TaskIdColumn | SessionIdColumn | TaskTypeColumn
    | ModelVersionColumn | PromptTemplateIdColumn | TreatmentArmColumn | ResponseTokensColumn
    | LatencyMsColumn | ActionTypeColumn | OutcomeQualityScoreColumn | CreatedAtColumn
    | PeriodStartColumn | PeriodEndColumn | FirstAiRequestAtColumn | ResolutionAtColumn
    | NumAiCallsColumn | NumEscalationsColumn | ResolutionTimeSecColumn
    | RoleColumn | TenureBandColumn | TeamIdColumn | RegionColumn | IsSyntheticColumn
    | Other(header: string)
  {
    function Header(): string {
      match this
      case RequestIdColumn => "request_id"
      case UserIdColumn => "user_id"
      case TaskIdColumn => "task_id"
      case SessionIdColumn => "session_id"
      case TaskTypeColumn => "task_type"
      case ModelVersionColumn => "model_version"
      case PromptTemplateIdColumn => "prompt_template_id"
      case TreatmentArmColumn => "treatment_arm"
      case ResponseTokensColumn => "response_tokens"
      case LatencyMsColumn => "latency_ms"
      case ActionTypeColumn => "action_type"
      case OutcomeQualityScoreColumn => "outcome_quality_score"
      case CreatedAtColumn => "created_at"
      case PeriodStartColumn => "period_start"
      case PeriodEndColumn => "period_end"
      case FirstAiRequestAtColumn => "first_ai_request_at"
      case ResolutionAtColumn => "resolution_at"
      case NumAiCallsColumn => "num_ai_calls"
      case NumEscalationsColumn => "num_escalations"
      case ResolutionTimeSecColumn => "resolution_time_sec"
      case RoleColumn => "role"
      case TenureBandColumn => "tenure_band"
      case TeamIdColumn => "team_id"
      case RegionColumn => "region"
      case IsSyntheticColumn => "is_synthetic"
      case Other(h) => h
    }
  }

  /** A table as pandas holds it: column names, the cells column by column,
      and the number of rows. */
  datatype Frame = Frame(columns: seq<ColumnName>, data: seq<seq<Cell>>, height: nat)

  /** No name occurs twice: none repeats one before it. */
  predicate DistinctNames(names: seq<ColumnName>) {
    forall i :: 0 <= i < |names| ==> names[i] !in names[..i]
  }

  lemma {:induction false} DistinctNamesPairwise(names: seq<ColumnName>)
    requires DistinctNames(names)
    ensures forall i, j :: 0 <= i < j < |names| ==> names[i] != names[j]
  {
    forall i, j | 0 <= i < j < |names| ensures names[i] != names[j] {
      assert names[..j][i] == names[i];
    }
  }

  /** One column of cells per name, all of the table's height; pandas keeps
      column names unique. */
  predicate WellFormed(f: Frame) {
    && |f.data| == |f.columns|
    && (forall j :: 0 <= j < |f.data| ==> |f.data[j]| == f.height)
    && DistinctNames(f.columns)
  }

  /** The position of the first occurrence of `name`. */
  function IndexOf(names: seq<ColumnName>, name: ColumnName): (j: nat)
    requires name in names
    ensures j < |names| && names[j] == name
    ensures forall i :: 0 <= i < j ==> names[i] != name
  {
    if names[0] == name then 0 else 1 + IndexOf(names[1..], name)
  }

  lemma {:induction false} IndexOfAt(names: seq<ColumnName>, name: ColumnName, j: nat)
    requires j < |names| && names[j] == name
    requires forall i :: 0 <= i < j ==> names[i] != name
    ensures IndexOf(names, name) == j
  {
    if j > 0 {
      assert names[1..][j - 1] == name;
      IndexOfAt(names[1..], name, j - 1);
    }
  }

  /** `frame[name]`; only defined for a present column. */
  function Column(f: Frame, name: ColumnName): (col: seq<Cell>)
    requires WellFormed(f) && name in f.columns
    ensures |col| == f.height
  {
    f.data[IndexOf(f.columns, name)]
  }

  /** `frame.shape`: (rows, columns). */
  function Shape(f: Frame): (nat, nat) {
    (f.height, |f.columns|)
  }

  // ---------------------------------------------------------------- nulls

  /** `column.isna().sum()`. */
  function NullCount(col: seq<Cell>): (n: nat)
    ensures n <= |col|
  {
    if col == [] then 0
    else NullCount(col[..|col| - 1]) + (if col[|col| - 1] == Null then 1 else 0)
  }

  function NullPositions(col: seq<Cell>): set<nat> {
    set i: nat | i < |col| && col[i] == Null
  }

  /** The null count is the number of row positions holding a null. */
  lemma {:induction false} NullCountIsSize(col: seq<Cell>)
    ensures NullCount(col) == |NullPositions(col)|
  {
    if col != [] {
      var n := |col| - 1;
      var init := col[..n];
      NullCountIsSize(init);
      if col[n] == Null {
        assert NullPositions(col) == NullPositions(init) + {n};
      } else {
        assert NullPositions(col) == NullPositions(init);
      }
    }
  }

  lemma {:induction false} NullCountZero(col: seq<Cell>)
    ensures NullCount(col) == 0 <==> forall i :: 0 <= i < |col| ==> col[i] != Null
  {
    if col != [] {
      NullCountZero(col[..|col| - 1]);
      assert forall i :: 0 <= i < |col| - 1 ==> col[..|col| - 1][i] == col[i];
    }
  }

  // ---------------------------------------------------------------- missing key checks

  /** The key columns the null check looks at, in its order. */
  const KEY_COLUMNS: seq<ColumnName> := [RequestIdColumn, UserIdColumn, TaskIdColumn, CreatedAtColumn]
  const USER_ID: ColumnName := UserIdColumn
  const SCORE_COLUMN: ColumnName := OutcomeQualityScoreColumn

  /** One (column, null count) entry per key column that is present, in the
      order of `keys`; absent columns are skipped. */
  function MissingKeyCounts(f: Frame, keys: seq<ColumnName>): (r: seq<(ColumnName, nat)>)
    requires WellFormed(f)
    ensures |r| <= |keys|
  {
    if keys == [] then []
    else
      var rest := MissingKeyCounts(f, keys[1..]);
      if keys[0] in f.columns then [(keys[0], NullCount(Column(f, keys[0])))] + rest else rest
  }

  /** Every entry names a present key column and carries its null count, and
      every present key column has its entry. */
  lemma {:induction false} MissingKeyCountsExact(f: Frame, keys: seq<ColumnName>)
    requires WellFormed(f)
    ensures var r := MissingKeyCounts(f, keys);
      && (forall e :: e in r ==> e.0 in keys && e.0 in f.columns && e.1 == NullCount(Column(f, e.0)))
      && (forall k :: k in keys && k in f.columns ==> (k, NullCount(Column(f, k))) in r)
  {
    if keys != [] {
      MissingKeyCountsExact(f, keys[1..]);
      assert forall k :: k in keys[1..] ==> k in keys;
      assert forall k :: k in keys ==> k == keys[0] || k in keys[1..];
    }
  }

  /** A key column that is absent gets no entry. */
  lemma {:induction false} MissingKeyCountsSkipAbsent(f: Frame, keys: seq<ColumnName>, k: ColumnName)
    requires WellFormed(f)
    requires k !in f.columns
    ensures forall e :: e in MissingKeyCounts(f, keys) ==> e.0 != k
  {
    MissingKeyCountsExact(f, keys);
  }

  /** Past a head that occurs nowhere else, positions shift by one. */
  lemma {:induction false} IndexOfTail(keys: seq<ColumnName>, k: ColumnName)
    requires DistinctNames(keys) && keys != [] && k in keys[1..]
    ensures k in keys && IndexOf(keys, k) == IndexOf(keys[1..], k) + 1
  {
    var m := IndexOf(keys[1..], k);
    assert keys[m + 1] == k;
    assert keys[0] != k by {
      assert keys[..m + 1][0] == keys[0];
    }
    forall i | 0 <= i < m + 1 ensures keys[i] != k {
      if i > 0 {
        assert keys[i] == keys[1..][i - 1];
      }
    }
    IndexOfAt(keys, k, m + 1);
  }

  /** The entries follow the order of distinct `keys`. */
  lemma {:induction false} MissingKeyCountsOrdered(f: Frame, keys: seq<ColumnName>)
    requires WellFormed(f) && DistinctNames(keys)
    ensures var r := MissingKeyCounts(f, keys);
      forall i, j :: 0 <= i < j < |r| ==> r[i].0 in keys && r[j].0 in keys && IndexOf(keys, r[i].0) < IndexOf(keys, r[j].0)
  {
    if keys != [] {
      var rest := MissingKeyCounts(f, keys[1..]);
      var tail := keys[1..];
      assert DistinctNames(tail) by {
        forall i | 0 <= i < |tail| ensures tail[i] !in tail[..i] {
          assert keys[..i + 1] == [keys[0]] + tail[..i];
        }
      }
      MissingKeyCountsOrdered(f, tail);
      MissingKeyCountsExact(f, tail);
      forall e | e in rest ensures e.0 in keys && IndexOf(keys, e.0) == IndexOf(tail, e.0) + 1 {
        IndexOfTail(keys, e.0);
      }
      assert keys[0] in keys && IndexOf(keys, keys[0]) == 0;
    }
  }

  // ---------------------------------------------------------------- referential integrity

  /** `~col.isin(known)`, summed: the cells of `col` that match no cell of
      `known`; a null matches a null, as pandas' isin matches NaN with NaN. */
  function Dangling(col: seq<Cell>, known: seq<Cell>): (n: nat)
    ensures n <= |col|
  {
    if col == [] then 0
    else Dangling(col[..|col| - 1], known) + (if col[|col| - 1] in known then 0 else 1)
  }

  function DanglingPositions(col: seq<Cell>, known: seq<Cell>): set<nat> {
    set i: nat | i < |col| && col[i] !in known
  }

  /** The dangling count is the number of row positions whose cell is not
      among the known cells. */
  lemma {:induction false} DanglingIsSize(col: seq<Cell>, known: seq<Cell>)
    ensures Dangling(col, known) == |DanglingPositions(col, known)|
  {
    if col != [] {
      var n := |col| - 1;
      var init := col[..n];
      DanglingIsSize(init, known);
      if col[n] in known {
        assert DanglingPositions(col, known) == DanglingPositions(init, known);
      } else {
        assert DanglingPositions(col, known) == DanglingPositions(init, known) + {n};
      }
    }
  }

  lemma {:induction false} DanglingZero(col: seq<Cell>, known: seq<Cell>)
    ensures Dangling(col, known) == 0 <==> forall i :: 0 <= i < |col| ==> col[i] in known
  {
    if col != [] {
      DanglingZero(col[..|col| - 1], known);
      assert forall i :: 0 <= i < |col| - 1 ==> col[..|col| - 1][i] == col[i];
    }
  }

  /** When the user table has no null id, every null id of an interaction is
      dangling. */
  lemma {:induction false} NullsDangle(col: seq<Cell>, known: seq<Cell>)
    requires Null !in known
    ensures NullPositions(col) <= DanglingPositions(col, known)
    ensures NullCount(col) <= Dangling(col, known)
  {
    if col != [] {
      NullsDangle(col[..|col| - 1], known);
    }
  }

  /** The column lookups raise KeyError('user_id'). */
  datatype CheckError = MissingColumn(table: string, column: ColumnName)

  datatype Result<T> = Success(value: T) | Failure(error: CheckError)

  /** `(~interactions["user_id"].isin(users["user_id"])).sum()`; the lookups
      are not guarded, so a missing column fails the check. */
  function ReferentialCheck(interactions: Frame, users: Frame): (r: Result<nat>)
    requires WellFormed(interactions) && WellFormed(users)
    ensures r.Failure? <==> USER_ID !in interactions.columns || USER_ID !in users.columns
    ensures r.Failure? && USER_ID !in interactions.columns ==> r.error == MissingColumn("fact_interactions", USER_ID)
    ensures r.Failure? && USER_ID in interactions.columns ==> r.error == MissingColumn("dim_users", USER_ID)
    ensures r.Success? ==>
      r.value == |DanglingPositions(Column(interactions, USER_ID), Column(users, USER_ID))| <= interactions.height
  {
    if USER_ID !in interactions.columns then Failure(MissingColumn("fact_interactions", USER_ID))
    else if USER_ID !in users.columns then Failure(MissingColumn("dim_users", USER_ID))
    else
      var col, known := Column(interactions, USER_ID), Column(users, USER_ID);
      DanglingIsSize(col, known);
      Success(Dangling(col, known))
  }

  // ---------------------------------------------------------------- score summary

  /** What the summary starts with: `describe()`'s count of non-null cells. */
  datatype Summary = Summary(count: nat)

  function ScoreSummary(f: Frame): (s: Option<Summary>)
    requires WellFormed(f)
    ensures s.None? <==> SCORE_COLUMN !in f.columns
    ensures s.Some? ==> s.value.count + |NullPositions(Column(f, SCORE_COLUMN))| == f.height
  {
    if SCORE_COLUMN in f.columns then
      var col := Column(f, SCORE_COLUMN);
      NullCountIsSize(col);
      Some(Summary(|col| - NullCount(col)))
    else None
  }

  // ---------------------------------------------------------------- the whole run

  /** What the run reports before the referential check: the three shapes and
      the missing-key counts. */
  datatype Report = Report(shapes: seq<(nat, nat)>, missing: seq<(ColumnName, nat)>)

  /** The run either completes, or stops at the referential check. */
  datatype Outcome =
    | Completed(report: Report, dangling: nat, summary: Option<Summary>)
    | Failed(report: Report, error: CheckError)

  function RunChecks(interactions: Frame, tasks: Frame, users: Frame): (o: Outcome)
    requires WellFormed(interactions) && WellFormed(tasks) && WellFormed(users)
    ensures o.report.shapes == [Shape(interactions), Shape(tasks), Shape(users)]
    ensures forall e :: e in o.report.missing ==>
              e.0 in KEY_COLUMNS && e.0 in interactions.columns && e.1 == |NullPositions(Column(interactions, e.0))|
    ensures forall k :: k in KEY_COLUMNS && k in interactions.columns ==>
              (k, |NullPositions(Column(interactions, k))|) in o.report.missing
    ensures o.Failed? <==> USER_ID !in interactions.columns || USER_ID !in users.columns
    ensures o.Completed? ==>
              && o.dangling == |DanglingPositions(Column(interactions, USER_ID), Column(users, USER_ID))|
              && (o.summary.None? <==> SCORE_COLUMN !in interactions.columns)
  {
    MissingKeyCountsExact(interactions, KEY_COLUMNS);
    forall col | col in interactions.columns ensures NullCount(Column(interactions, col)) == |NullPositions(Column(interactions, col))| {
      NullCountIsSize(Column(interactions, col));
    }
    var report := Report([Shape(interactions), Shape(tasks), Shape(users)], MissingKeyCounts(interactions, KEY_COLUMNS));
    match ReferentialCheck(interactions, users)
    case Failure(e) => Failed(report, e)
    case Success(n) => Completed(report, n, ScoreSummary(interactions))
  }
}
