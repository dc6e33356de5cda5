/** The rows of the five synthetic tables, the generator's constants and the
    identifier formats that tie the tables together. */
module Schema {
  import opened Text

  const NUM_USERS: nat := 50
  const NUM_TEAMS: nat := 5
  const NUM_TASKS: nat := 200

  const SECONDS_PER_MINUTE: nat := 60
  const SECONDS_PER_DAY: nat := 86400

  /** The categorical columns; `Name` is the text the generator writes. */
  datatype Role = Agent | SeniorAgent | Manager {
    function Name(): string {
      match this
      case Agent => "agent"
      case SeniorAgent => "senior_agent"
      case Manager => "manager"
    }
  }

  datatype TenureBand = UpToSixMonths | SixToTwelveMonths | OneToThreeYears | OverThreeYears {
    function Name(): string {
      match this
      case UpToSixMonths => "0-6m"
      case SixToTwelveMonths => "6-12m"
      case OneToThreeYears => "1-3y"
      case OverThreeYears => "3y+"
    }
  }

  datatype Region = NA | EU | APAC {
    function Name(): string {
      match this
      case NA => "NA"
      case EU => "EU"
      case APAC => "APAC"
    }
  }

  datatype QueueType = TriageQueue | SpecialisedQueue {
    function Name(): string {
      match this
      case TriageQueue => "triage"
      case SpecialisedQueue => "specialised"
    }
  }

  datatype TreatmentArm = Control | Explanation {
    function Name(): string {
      match this
      case Control => "control"
      case Explanation => "explanation"
    }
  }

  datatype ActionType = Accept | Edit | Ignore | Escalate {
    function Name(): string {
      match this
      case Accept => "accept"
      case Edit => "edit"
      case Ignore => "ignore"
      case Escalate => "escalate"
    }
  }

  datatype TaskType = TriageTask | DraftingTask | SummarisationTask {
    function Name(): string {
      match this
      case TriageTask => "triage"
      case DraftingTask => "drafting"
      case SummarisationTask => "summarisation"
    }
  }

  const TEAM_FUNCTION: string := "internal_support"
  const MODEL_VERSION: string := "gpt-x.y"
  const PROMPT_TEMPLATE_ID: string := "triage_v1"
  const SYNTHETIC_FLAG: string := "true"

  /** A row of dim_users. */
  datatype User = User(
    userId: string,
    role: Role,
    tenureBand: TenureBand,
    teamId: string,
    region: Region,
    isSynthetic: string)

  /** A row of dim_teams; `teamFunction` is the `function` column. */
  datatype Team = Team(
    teamId: string,
    teamFunction: string,
    queueType: QueueType,
    leadName: string)

  /** A row of dim_experiments; (experimentId, armId) is the key. */
  datatype ExperimentArm = ExperimentArm(
    experimentId: string,
    armId: string,
    armName: string,
    description: string,
    startDate: string,
    endDate: string,
    targetingRules: string)

  /** A row of fact_tasks. Instants are seconds after the base date
      (2025-01-01T00:00:00); period bounds are day numbers after it; the
      quality score is in thousandths, as its three-decimal rendering gives it. */
  datatype Task = Task(
    taskId: string,
    periodStartDay: nat,
    periodEndDay: nat,
    firstAiRequestAt: nat,
    resolutionAt: nat,
    numAiCalls: nat,
    numEscalations: nat,
    resolutionTimeSec: int,
    qualityMilli: nat)

  /** A row of fact_interactions, with the same conventions as Task. */
  datatype Interaction = Interaction(
    requestId: string,
    userId: string,
    taskId: string,
    sessionId: string,
    taskType: TaskType,
    modelVersion: string,
    promptTemplateId: string,
    treatmentArm: TreatmentArm,
    responseTokens: nat,
    latencyMs: nat,
    actionType: ActionType,
    qualityMilli: nat,
    createdAt: nat)

  function UserId(i: nat): string { "user_" + NatToString(i) }
  function TeamId(i: nat): string { "team_" + NatToString(i) }
  function TaskId(t: nat): string { "task_" + NatToString(t) }
  function SessionId(t: nat): string { "session_" + NatToString(t) }
  function RequestId(t: nat, k: nat): string { TaskId(t) + "_req_" + NatToString(k) }
  function LeadName(teamId: string): string { "Lead_" + teamId }

  lemma {:induction false} UserIdInjective(i: nat, j: nat)
    ensures UserId(i) == UserId(j) ==> i == j
  {
    PrefixedNatInjective("user_", i, j);
  }

  lemma {:induction false} TeamIdInjective(i: nat, j: nat)
    ensures TeamId(i) == TeamId(j) ==> i == j
  {
    PrefixedNatInjective("team_", i, j);
  }

  lemma {:induction false} TaskIdInjective(t: nat, u: nat)
    ensures TaskId(t) == TaskId(u) ==> t == u
  {
    PrefixedNatInjective("task_", t, u);
  }

  /** `task_{t}_req_{k}` determines both t and k, although t and k are
      numerals of any length: the numeral of t stops at the first `_`. */
  lemma {:induction false} RequestIdInjective(t: nat, k: nat, u: nat, m: nat)
    ensures RequestId(t, k) == RequestId(u, m) ==> t == u && k == m
  {
    if RequestId(t, k) == RequestId(u, m) {
      var p := "task_";
      var a, b := NatToString(t), NatToString(u);
      var x, y := "req_" + NatToString(k), "req_" + NatToString(m);
      assert RequestId(t, k) == p + (a + ['_'] + x);
      assert RequestId(u, m) == p + (b + ['_'] + y);
      assert (p + (a + ['_'] + x))[|p|..] == a + ['_'] + x;
      assert (p + (b + ['_'] + y))[|p|..] == b + ['_'] + y;
      SplitAtSeparator(a, b, '_', x, y);
      NatToStringInjective(t, u);
      PrefixedNatInjective("req_", k, m);
    }
  }
}
