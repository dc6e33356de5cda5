/** The row generator: users, teams, the experiment arms, tasks and their
    interactions. Every random draw of the generator is an input here, one
    record per loop iteration, with the range its draw has. */
module Generator {
  import opened Text
  import opened Schema

  // ---------------------------------------------------------------- draws

  /** The draws for one user: its role, its tenure band, an index into the
      team list and its region. */
  datatype UserDraw = UserDraw(role: Role, tenureBand: TenureBand, team: nat, region: Region)

  predicate ValidUserDraw(d: UserDraw) {
    d.team < NUM_TEAMS
  }

  /** The draws for one interaction: the user (an index into the user list),
      the treatment arm, the latency, the action, the minutes since the
      previous event of the task, the task type and the response size. */
  datatype InteractionDraw = InteractionDraw(
    user: nat,
    treatmentArm: TreatmentArm,
    latencyMs: nat,
    actionType: ActionType,
    minutes: nat,
    taskType: TaskType,
    responseTokens: nat)

  predicate ValidInteractionDraw(d: InteractionDraw, numUsers: nat) {
    && d.user < numUsers
    && 200 <= d.latencyMs <= 1500
    && 1 <= d.minutes <= 30
    && 50 <= d.responseTokens <= 200
  }

  predicate ValidSteps(steps: seq<InteractionDraw>, numUsers: nat) {
    forall k :: 0 <= k < |steps| ==> ValidInteractionDraw(steps[k], numUsers)
  }

  /** The draws for one task: the day offset of its creation, its quality
      score in thousandths, one record per interaction (so the interaction
      count is |steps|) and the minutes from the last interaction to the
      resolution. */
  datatype TaskDraw = TaskDraw(day: nat, qualityMilli: nat, steps: seq<InteractionDraw>, delayMinutes: nat)

  predicate ValidTaskDraw(d: TaskDraw, numUsers: nat) {
    && d.day <= 60
    && 400 <= d.qualityMilli <= 950
    && 1 <= |d.steps| <= 4
    && ValidSteps(d.steps, numUsers)
    && 5 <= d.delayMinutes <= 60
  }

  predicate ValidTaskDraws(ds: seq<TaskDraw>, numUsers: nat) {
    forall i :: 0 <= i < |ds| ==> ValidTaskDraw(ds[i], numUsers)
  }

  // ---------------------------------------------------------------- keys

  function UserIds(users: seq<User>): seq<string> {
    seq(|users|, i requires 0 <= i < |users| => users[i].userId)
  }

  function TeamIdsOf(teams: seq<Team>): seq<string> {
    seq(|teams|, i requires 0 <= i < |teams| => teams[i].teamId)
  }

  function TaskIdsOf(tasks: seq<Task>): seq<string> {
    seq(|tasks|, i requires 0 <= i < |tasks| => tasks[i].taskId)
  }

  function ArmIds(arms: seq<ExperimentArm>): seq<string> {
    seq(|arms|, i requires 0 <= i < |arms| => arms[i].armId)
  }

  predicate Distinct(s: seq<string>) {
    forall i, j :: 0 <= i < j < |s| ==> s[i] != s[j]
  }

  // ---------------------------------------------------------------- users and teams

  /** `team_1` .. `team_{NUM_TEAMS}`. */
  function TeamIds(): seq<string> {
    seq(NUM_TEAMS, i requires 0 <= i => TeamId(i + 1))
  }

  lemma {:induction false} TeamIdsDistinct()
    ensures |TeamIds()| == NUM_TEAMS && Distinct(TeamIds())
  {
    forall i, j | 0 <= i < j < NUM_TEAMS ensures TeamIds()[i] != TeamIds()[j] {
      TeamIdInjective(i + 1, j + 1);
    }
  }

  /** The user row the generator builds for user number i from its draws. */
  function UserRow(i: nat, d: UserDraw): User
    requires ValidUserDraw(d)
  {
    User(UserId(i), d.role, d.tenureBand, TeamIds()[d.team], d.region, SYNTHETIC_FLAG)
  }

  /** The user rows for the given draws, user number i + 1 from draws[i]. */
  function AllUsers(draws: seq<UserDraw>): seq<User>
    requires forall i :: 0 <= i < |draws| ==> ValidUserDraw(draws[i])
  {
    seq(|draws|, i requires 0 <= i < |draws| => UserRow(i + 1, draws[i]))
  }

  method GenUsers(draws: seq<UserDraw>) returns (users: seq<User>, teams: seq<string>)
    requires |draws| == NUM_USERS
    requires forall i :: 0 <= i < |draws| ==> ValidUserDraw(draws[i])
    ensures teams == TeamIds() && Distinct(teams)
    ensures users == AllUsers(draws) && |users| == NUM_USERS
    ensures forall i :: 0 <= i < |users| ==> users[i].userId == UserId(i + 1)
    ensures Distinct(UserIds(users))
    ensures forall i :: 0 <= i < |users| ==> users[i].teamId in teams
  {
    teams := TeamIds();
    users := [];
    for i := 1 to NUM_USERS + 1
      invariant |users| == i - 1
      invariant forall j :: 0 <= j < i - 1 ==> users[j] == UserRow(j + 1, draws[j])
    {
      var d := draws[i - 1];
      users := users + [User(UserId(i), d.role, d.tenureBand, teams[d.team], d.region, SYNTHETIC_FLAG)];
    }
    TeamIdsDistinct();
    forall i, j | 0 <= i < j < |users| ensures UserIds(users)[i] != UserIds(users)[j] {
      UserIdInjective(i + 1, j + 1);
    }
  }

  /** One team row per given team id, in the given order, with the drawn
      queue types. */
  method GenTeams(teamIds: seq<string>, queueDraws: seq<QueueType>) returns (teams: seq<Team>)
    requires |queueDraws| == |teamIds|
    ensures TeamIdsOf(teams) == teamIds
    ensures forall i :: 0 <= i < |teams| ==>
              && teams[i].teamFunction == TEAM_FUNCTION
              && teams[i].queueType == queueDraws[i]
              && teams[i].leadName == LeadName(teamIds[i])
  {
    teams := [];
    for i := 0 to |teamIds|
      invariant |teams| == i
      invariant forall j :: 0 <= j < i ==>
                  teams[j] == Team(teamIds[j], TEAM_FUNCTION, queueDraws[j], LeadName(teamIds[j]))
    {
      var tid := teamIds[i];
      teams := teams + [Team(tid, TEAM_FUNCTION, queueDraws[i], "Lead_" + tid)];
    }
  }

  /** The fixed two-arm experiment exp_001. */
  function GenExperiments(): (arms: seq<ExperimentArm>)
    ensures ArmIds(arms) == [Control.Name(), Explanation.Name()]
    ensures forall a: TreatmentArm :: a.Name() in ArmIds(arms)
    ensures forall i :: 0 <= i < |arms| ==>
              arms[i].experimentId == "exp_001" && arms[i].startDate == "2025-01-01" && arms[i].endDate == "2025-12-31"
    ensures forall i, j :: 0 <= i < j < |arms| ==>
              (arms[i].experimentId, arms[i].armId) != (arms[j].experimentId, arms[j].armId)
  {
    [ ExperimentArm("exp_001", "control", "Control", "No explanation", "2025-01-01", "2025-12-31", "all_agents"),
      ExperimentArm("exp_001", "explanation", "Explanation", "Show model rationale", "2025-01-01", "2025-12-31", "all_agents") ]
  }

  // ---------------------------------------------------------------- tasks and interactions

  /** Minutes from the task's creation to its last interaction. */
  function Elapsed(steps: seq<InteractionDraw>): nat {
    if steps == [] then 0 else Elapsed(steps[..|steps| - 1]) + steps[|steps| - 1].minutes
  }

  function IsEscalation(s: InteractionDraw): bool {
    s.actionType == Escalate
  }

  /** The number of escalating interaction draws. */
  function Escalations(steps: seq<InteractionDraw>): (n: nat)
    ensures n <= |steps|
  {
    if steps == [] then 0
    else Escalations(steps[..|steps| - 1]) + (if IsEscalation(steps[|steps| - 1]) then 1 else 0)
  }

  function CreatedAt(d: TaskDraw): nat {
    d.day * SECONDS_PER_DAY
  }

  function LastTime(d: TaskDraw): nat {
    CreatedAt(d) + SECONDS_PER_MINUTE * Elapsed(d.steps)
  }

  function ResolutionAt(d: TaskDraw): nat {
    LastTime(d) + SECONDS_PER_MINUTE * d.delayMinutes
  }

  /** Interaction number k of task t, created at instant `at`. */
  function InteractionRow(users: seq<User>, t: nat, k: nat, s: InteractionDraw, at: nat, qualityMilli: nat): Interaction
    requires ValidInteractionDraw(s, |users|)
  {
    Interaction(
      RequestId(t, k), users[s.user].userId, TaskId(t), SessionId(t), s.taskType,
      MODEL_VERSION, PROMPT_TEMPLATE_ID, s.treatmentArm, s.responseTokens,
      s.latencyMs, s.actionType, qualityMilli, at)
  }

  /** The interaction rows of task t, created at `start`, for the given draws. */
  function StepRows(users: seq<User>, t: nat, start: nat, qualityMilli: nat, steps: seq<InteractionDraw>): (rows: seq<Interaction>)
    requires ValidSteps(steps, |users|)
    ensures |rows| == |steps|
  {
    if steps == [] then []
    else
      var k := |steps| - 1;
      StepRows(users, t, start, qualityMilli, steps[..k])
        + [InteractionRow(users, t, k, steps[k], start + SECONDS_PER_MINUTE * Elapsed(steps), qualityMilli)]
  }

  /** The task row of task number t. */
  function TaskRow(t: nat, d: TaskDraw): Task {
    Task(
      TaskId(t), CreatedAt(d) / SECONDS_PER_DAY, ResolutionAt(d) / SECONDS_PER_DAY,
      CreatedAt(d), ResolutionAt(d), |d.steps|, Escalations(d.steps),
      ResolutionAt(d) - CreatedAt(d), d.qualityMilli)
  }

  function AllTasks(ds: seq<TaskDraw>): seq<Task> {
    seq(|ds|, i requires 0 <= i < |ds| => TaskRow(i + 1, ds[i]))
  }

  function TotalSteps(ds: seq<TaskDraw>): nat {
    if ds == [] then 0 else TotalSteps(ds[..|ds| - 1]) + |ds[|ds| - 1].steps|
  }

  /** All interaction rows, task by task; task number t uses ds[t - 1]. */
  function AllInteractions(users: seq<User>, ds: seq<TaskDraw>): (rows: seq<Interaction>)
    requires ValidTaskDraws(ds, |users|)
    ensures |rows| == TotalSteps(ds)
  {
    if ds == [] then []
    else
      var n := |ds|;
      var d := ds[n - 1];
      AllInteractions(users, ds[..n - 1]) + StepRows(users, n, CreatedAt(d), d.qualityMilli, d.steps)
  }

  // ---------------------------------------------------------------- counting interaction rows

  /** The number of rows with the given task id. */
  function CountTask(rows: seq<Interaction>, taskId: string): (n: nat)
    ensures n <= |rows|
  {
    if rows == [] then 0
    else CountTask(rows[..|rows| - 1], taskId) + (if rows[|rows| - 1].taskId == taskId then 1 else 0)
  }

  /** The number of rows with the given task id whose action is an escalation. */
  function CountEscalated(rows: seq<Interaction>, taskId: string): (n: nat)
    ensures n <= CountTask(rows, taskId)
  {
    if rows == [] then 0
    else
      var r := rows[|rows| - 1];
      CountEscalated(rows[..|rows| - 1], taskId) + (if r.taskId == taskId && r.actionType == Escalate then 1 else 0)
  }

  lemma {:induction false} CountTaskAppend(a: seq<Interaction>, b: seq<Interaction>, taskId: string)
    ensures CountTask(a + b, taskId) == CountTask(a, taskId) + CountTask(b, taskId)
    decreases |b|
  {
    if b != [] {
      var b' := b[..|b| - 1];
      assert (a + b)[..|a + b| - 1] == a + b';
      CountTaskAppend(a, b', taskId);
    } else {
      assert a + b == a;
    }
  }

  lemma {:induction false} CountEscalatedAppend(a: seq<Interaction>, b: seq<Interaction>, taskId: string)
    ensures CountEscalated(a + b, taskId) == CountEscalated(a, taskId) + CountEscalated(b, taskId)
    decreases |b|
  {
    if b != [] {
      var b' := b[..|b| - 1];
      assert (a + b)[..|a + b| - 1] == a + b';
      CountEscalatedAppend(a, b', taskId);
    } else {
      assert a + b == a;
    }
  }

  /** Rows of other tasks count for neither counter; CountEscalated is bounded
      by CountTask, so it suffices to show the first is 0. */
  lemma {:induction false} CountAbsent(rows: seq<Interaction>, taskId: string)
    requires forall i :: 0 <= i < |rows| ==> rows[i].taskId != taskId
    ensures CountTask(rows, taskId) == 0 && CountEscalated(rows, taskId) == 0
  {
    if rows != [] {
      CountAbsent(rows[..|rows| - 1], taskId);
    }
  }

  // ---------------------------------------------------------------- one task's rows

  lemma {:induction false} ElapsedGrowth(steps: seq<InteractionDraw>, i: nat, j: nat)
    requires forall k :: 0 <= k < |steps| ==> steps[k].minutes >= 1
    requires i <= j <= |steps|
    ensures Elapsed(steps[..j]) >= Elapsed(steps[..i]) + (j - i)
    decreases j
  {
    if i < j {
      assert steps[..j][..j - 1] == steps[..j - 1];
      ElapsedGrowth(steps, i, j - 1);
    }
  }

  lemma {:induction false} StepRowsAt(users: seq<User>, t: nat, start: nat, q: nat, steps: seq<InteractionDraw>, k: nat)
    requires ValidSteps(steps, |users|)
    requires k < |steps|
    ensures StepRows(users, t, start, q, steps)[k]
         == InteractionRow(users, t, k, steps[k], start + SECONDS_PER_MINUTE * Elapsed(steps[..k + 1]), q)
  {
    var n := |steps|;
    if k < n - 1 {
      assert steps[..n - 1][..k + 1] == steps[..k + 1];
      StepRowsAt(users, t, start, q, steps[..n - 1], k);
    } else {
      assert steps[..k + 1] == steps;
    }
  }

  /** Interaction k of task t is keyed `task_{t}_req_{k}`, refers to the
      drawn user and arm, carries the task's score and lies Elapsed minutes
      after the task's creation. */
  lemma {:induction false} StepRowFields(users: seq<User>, t: nat, start: nat, q: nat, steps: seq<InteractionDraw>, k: nat)
    requires ValidSteps(steps, |users|)
    requires k < |steps|
    ensures var r := StepRows(users, t, start, q, steps)[k];
      && r.requestId == RequestId(t, k)
      && r.taskId == TaskId(t)
      && r.userId == users[steps[k].user].userId
      && r.treatmentArm == steps[k].treatmentArm
      && r.qualityMilli == q
      && r.createdAt == start + SECONDS_PER_MINUTE * Elapsed(steps[..k + 1])
  {
    StepRowsAt(users, t, start, q, steps, k);
  }

  /** Interaction k of a task lies at least k + 1 minutes after its creation
      and no later than its last interaction. */
  lemma {:induction false} StepTimeBounds(users: seq<User>, t: nat, start: nat, q: nat, steps: seq<InteractionDraw>, k: nat)
    requires ValidSteps(steps, |users|)
    requires k < |steps|
    ensures var r := StepRows(users, t, start, q, steps)[k];
      start + SECONDS_PER_MINUTE * (k + 1) <= r.createdAt <= start + SECONDS_PER_MINUTE * Elapsed(steps)
  {
    StepRowFields(users, t, start, q, steps, k);
    ElapsedGrowth(steps, 0, k + 1);
    ElapsedGrowth(steps, k + 1, |steps|);
    assert steps[..|steps|] == steps;
  }

  /** Row k of task t carries the task id and the request id `task_{t}_req_{k}`. */
  lemma {:induction false} BlockKeys(users: seq<User>, t: nat, start: nat, q: nat, steps: seq<InteractionDraw>)
    requires ValidSteps(steps, |users|)
    ensures var rows := StepRows(users, t, start, q, steps);
      forall k :: 0 <= k < |rows| ==> rows[k].taskId == TaskId(t) && rows[k].requestId == RequestId(t, k)
  {
    forall k | 0 <= k < |steps|
      ensures StepRows(users, t, start, q, steps)[k].taskId == TaskId(t)
      ensures StepRows(users, t, start, q, steps)[k].requestId == RequestId(t, k)
    {
      StepRowFields(users, t, start, q, steps, k);
    }
  }

  lemma {:induction false} BlockRequestIdsDistinct(users: seq<User>, t: nat, start: nat, q: nat, steps: seq<InteractionDraw>)
    requires ValidSteps(steps, |users|)
    ensures RequestIdsDistinct(StepRows(users, t, start, q, steps))
  {
    var rows := StepRows(users, t, start, q, steps);
    BlockKeys(users, t, start, q, steps);
    forall i, j | 0 <= i < j < |rows| ensures rows[i].requestId != rows[j].requestId {
      RequestIdInjective(t, i, t, j);
    }
  }

  /** The timestamps of one task's rows strictly increase. */
  lemma {:induction false} BlockTimesIncrease(users: seq<User>, t: nat, start: nat, q: nat, steps: seq<InteractionDraw>)
    requires ValidSteps(steps, |users|)
    ensures TimesIncreaseWithinTasks(StepRows(users, t, start, q, steps))
  {
    var rows := StepRows(users, t, start, q, steps);
    forall i, j | 0 <= i < j < |rows| && rows[i].taskId == rows[j].taskId ensures rows[i].createdAt < rows[j].createdAt {
      StepRowFields(users, t, start, q, steps, i);
      StepRowFields(users, t, start, q, steps, j);
      ElapsedGrowth(steps, i + 1, j + 1);
    }
  }

  // ---------------------------------------------------------------- joining row sequences

  lemma {:induction false} RequestIdsDistinctAppend(a: seq<Interaction>, b: seq<Interaction>)
    requires RequestIdsDistinct(a) && RequestIdsDistinct(b)
    requires forall i, j :: 0 <= i < |a| && 0 <= j < |b| ==> a[i].requestId != b[j].requestId
    ensures RequestIdsDistinct(a + b)
  {
    var rows := a + b;
    forall i, j | 0 <= i < j < |rows| ensures rows[i].requestId != rows[j].requestId {
      if j < |a| {
        assert rows[i] == a[i] && rows[j] == a[j];
      } else if i < |a| {
        assert rows[i] == a[i] && rows[j] == b[j - |a|];
      } else {
        assert rows[i] == b[i - |a|] && rows[j] == b[j - |a|];
      }
    }
  }

  lemma {:induction false} TimesIncreaseAppend(a: seq<Interaction>, b: seq<Interaction>)
    requires TimesIncreaseWithinTasks(a) && TimesIncreaseWithinTasks(b)
    requires forall i, j :: 0 <= i < |a| && 0 <= j < |b| ==> a[i].taskId != b[j].taskId
    ensures TimesIncreaseWithinTasks(a + b)
  {
    var rows := a + b;
    forall i, j | 0 <= i < j < |rows| && rows[i].taskId == rows[j].taskId ensures rows[i].createdAt < rows[j].createdAt {
      if j < |a| {
        assert rows[i] == a[i] && rows[j] == a[j];
      } else if |a| <= i {
        assert rows[i] == b[i - |a|] && rows[j] == b[j - |a|];
      }
    }
  }

  /** The counters of one task agree with its rows. */
  lemma {:induction false} BlockCounts(users: seq<User>, t: nat, start: nat, q: nat, steps: seq<InteractionDraw>)
    requires ValidSteps(steps, |users|)
    ensures CountTask(StepRows(users, t, start, q, steps), TaskId(t)) == |steps|
    ensures CountEscalated(StepRows(users, t, start, q, steps), TaskId(t)) == Escalations(steps)
  {
    if steps != [] {
      var k := |steps| - 1;
      var rows := StepRows(users, t, start, q, steps);
      assert rows[..k] == StepRows(users, t, start, q, steps[..k]);
      BlockCounts(users, t, start, q, steps[..k]);
    }
  }

  // ---------------------------------------------------------------- all tasks' rows

  /** The rows of the first |ds| tasks are those of the first |ds| - 1 tasks
      followed by the rows of the last one. */
  lemma {:induction false} AllInteractionsSplit(users: seq<User>, ds: seq<TaskDraw>)
    requires ValidTaskDraws(ds, |users|)
    requires ds != []
    ensures var d := ds[|ds| - 1];
      AllInteractions(users, ds)
        == AllInteractions(users, ds[..|ds| - 1]) + StepRows(users, |ds|, CreatedAt(d), d.qualityMilli, d.steps)
  {
  }

  /** Row i of the first |ds| tasks is a row of the first |ds| - 1 tasks or
      one of the last task's rows. */
  lemma {:induction false} AllInteractionsAt(users: seq<User>, ds: seq<TaskDraw>, i: nat)
    requires ValidTaskDraws(ds, |users|)
    requires ds != [] && i < |AllInteractions(users, ds)|
    ensures var n := |ds|;
      var d := ds[n - 1];
      var a := AllInteractions(users, ds[..n - 1]);
      if i < |a| then AllInteractions(users, ds)[i] == a[i]
      else AllInteractions(users, ds)[i] == StepRows(users, n, CreatedAt(d), d.qualityMilli, d.steps)[i - |a|]
  {
    AllInteractionsSplit(users, ds);
  }

  /** No row of the first |ds| tasks carries the task id or a request id of a later task. */
  lemma {:induction false} LaterKeysAbsent(users: seq<User>, ds: seq<TaskDraw>, m: nat)
    requires ValidTaskDraws(ds, |users|)
    requires m > |ds|
    ensures forall i :: 0 <= i < |AllInteractions(users, ds)| ==> AllInteractions(users, ds)[i].taskId != TaskId(m)
    ensures forall i, k :: 0 <= i < |AllInteractions(users, ds)| ==> AllInteractions(users, ds)[i].requestId != RequestId(m, k)
  {
    var rows := AllInteractions(users, ds);
    forall i | 0 <= i < |rows|
      ensures rows[i].taskId != TaskId(m)
      ensures forall k :: rows[i].requestId != RequestId(m, k)
    {
      var n := |ds|;
      var d := ds[n - 1];
      var a := AllInteractions(users, ds[..n - 1]);
      AllInteractionsAt(users, ds, i);
      if i < |a| {
        LaterKeysAbsent(users, ds[..n - 1], m);
      } else {
        StepRowFields(users, n, CreatedAt(d), d.qualityMilli, d.steps, i - |a|);
        TaskIdInjective(n, m);
        forall k: nat ensures RequestId(n, i - |a|) != RequestId(m, k) {
          RequestIdInjective(n, i - |a|, m, k);
        }
      }
    }
  }

  /** The rows of task n count for neither counter of another task m. */
  lemma {:induction false} BlockOtherTask(users: seq<User>, n: nat, start: nat, q: nat, steps: seq<InteractionDraw>, m: nat)
    requires ValidSteps(steps, |users|)
    requires m != n
    ensures CountTask(StepRows(users, n, start, q, steps), TaskId(m)) == 0
    ensures CountEscalated(StepRows(users, n, start, q, steps), TaskId(m)) == 0
  {
    var rows := StepRows(users, n, start, q, steps);
    BlockKeys(users, n, start, q, steps);
    TaskIdInjective(n, m);
    assert forall k :: 0 <= k < |rows| ==> rows[k].taskId != TaskId(m);
    CountAbsent(rows, TaskId(m));
  }

  /** The rows of the first |ds| tasks count for neither counter of a later task m. */
  lemma {:induction false} PriorTasksOtherTask(users: seq<User>, ds: seq<TaskDraw>, m: nat)
    requires ValidTaskDraws(ds, |users|)
    requires m > |ds|
    ensures CountTask(AllInteractions(users, ds), TaskId(m)) == 0
    ensures CountEscalated(AllInteractions(users, ds), TaskId(m)) == 0
  {
    LaterKeysAbsent(users, ds, m);
    CountAbsent(AllInteractions(users, ds), TaskId(m));
  }

  /** num_ai_calls of task t counts the interaction rows with its id. */
  lemma {:induction false} CallsPerTask(users: seq<User>, ds: seq<TaskDraw>, t: nat)
    requires ValidTaskDraws(ds, |users|)
    requires 1 <= t <= |ds|
    ensures CountTask(AllInteractions(users, ds), TaskId(t)) == |ds[t - 1].steps|
  {
    var n := |ds|;
    var d := ds[n - 1];
    var a := AllInteractions(users, ds[..n - 1]);
    var b := StepRows(users, n, CreatedAt(d), d.qualityMilli, d.steps);
    assert CountTask(AllInteractions(users, ds), TaskId(t)) == CountTask(a, TaskId(t)) + CountTask(b, TaskId(t)) by {
      AllInteractionsSplit(users, ds);
      CountTaskAppend(a, b, TaskId(t));
    }
    if t == n {
      assert CountTask(a, TaskId(t)) == 0 by { PriorTasksOtherTask(users, ds[..n - 1], n); }
      assert CountTask(b, TaskId(t)) == |d.steps| by { BlockCounts(users, n, CreatedAt(d), d.qualityMilli, d.steps); }
    } else {
      assert CountTask(a, TaskId(t)) == |ds[t - 1].steps| by { CallsPerTask(users, ds[..n - 1], t); }
      assert CountTask(b, TaskId(t)) == 0 by { BlockOtherTask(users, n, CreatedAt(d), d.qualityMilli, d.steps, t); }
    }
  }

  /** num_escalations of task t counts its escalating interaction rows. */
  lemma {:induction false} EscalationsPerTask(users: seq<User>, ds: seq<TaskDraw>, t: nat)
    requires ValidTaskDraws(ds, |users|)
    requires 1 <= t <= |ds|
    ensures CountEscalated(AllInteractions(users, ds), TaskId(t)) == Escalations(ds[t - 1].steps)
  {
    var n := |ds|;
    var d := ds[n - 1];
    var a := AllInteractions(users, ds[..n - 1]);
    var b := StepRows(users, n, CreatedAt(d), d.qualityMilli, d.steps);
    assert CountEscalated(AllInteractions(users, ds), TaskId(t)) == CountEscalated(a, TaskId(t)) + CountEscalated(b, TaskId(t)) by {
      AllInteractionsSplit(users, ds);
      CountEscalatedAppend(a, b, TaskId(t));
    }
    if t == n {
      assert CountEscalated(a, TaskId(t)) == 0 by { PriorTasksOtherTask(users, ds[..n - 1], n); }
      assert CountEscalated(b, TaskId(t)) == Escalations(d.steps) by { BlockCounts(users, n, CreatedAt(d), d.qualityMilli, d.steps); }
    } else {
      assert CountEscalated(a, TaskId(t)) == Escalations(ds[t - 1].steps) by { EscalationsPerTask(users, ds[..n - 1], t); }
      assert CountEscalated(b, TaskId(t)) == 0 by { BlockOtherTask(users, n, CreatedAt(d), d.qualityMilli, d.steps, t); }
    }
  }

  /** Every interaction row refers to a generated user. */
  lemma {:induction false} RowsReferenceUsers(users: seq<User>, ds: seq<TaskDraw>)
    requires ValidTaskDraws(ds, |users|)
    ensures forall i :: 0 <= i < |AllInteractions(users, ds)| ==>
              AllInteractions(users, ds)[i].userId in UserIds(users)
  {
    var rows := AllInteractions(users, ds);
    forall i | 0 <= i < |rows| ensures rows[i].userId in UserIds(users) {
      var n := |ds|;
      var d := ds[n - 1];
      var a := AllInteractions(users, ds[..n - 1]);
      AllInteractionsAt(users, ds, i);
      if i < |a| {
        RowsReferenceUsers(users, ds[..n - 1]);
      } else {
        var k := i - |a|;
        StepRowFields(users, n, CreatedAt(d), d.qualityMilli, d.steps, k);
        assert rows[i].userId == UserIds(users)[d.steps[k].user];
      }
    }
  }

  /** The row belongs to one of the tasks 1 .. n. */
  ghost predicate OfSomeTask(r: Interaction, n: nat) {
    exists t :: 1 <= t <= n && r.taskId == TaskId(t)
  }

  /** Every interaction row carries the id of one of the tasks. */
  lemma {:induction false} RowsHaveTaskIds(users: seq<User>, ds: seq<TaskDraw>)
    requires ValidTaskDraws(ds, |users|)
    ensures forall i :: 0 <= i < |AllInteractions(users, ds)| ==> OfSomeTask(AllInteractions(users, ds)[i], |ds|)
  {
    var rows := AllInteractions(users, ds);
    forall i | 0 <= i < |rows| ensures OfSomeTask(rows[i], |ds|) {
      var n := |ds|;
      var d := ds[n - 1];
      var a := AllInteractions(users, ds[..n - 1]);
      AllInteractionsAt(users, ds, i);
      if i < |a| {
        RowsHaveTaskIds(users, ds[..n - 1]);
        assert OfSomeTask(a[i], n - 1);
        var t :| 1 <= t <= n - 1 && a[i].taskId == TaskId(t);
      } else {
        StepRowFields(users, n, CreatedAt(d), d.qualityMilli, d.steps, i - |a|);
        assert rows[i].taskId == TaskId(n);
      }
    }
  }

  /** The request ids `task_{t}_req_{k}` of all interaction rows are distinct. */
  lemma {:induction false} RequestIdsUnique(users: seq<User>, ds: seq<TaskDraw>)
    requires ValidTaskDraws(ds, |users|)
    ensures RequestIdsDistinct(AllInteractions(users, ds))
  {
    if ds != [] {
      var n := |ds|;
      var d := ds[n - 1];
      var a := AllInteractions(users, ds[..n - 1]);
      var b := StepRows(users, n, CreatedAt(d), d.qualityMilli, d.steps);
      RequestIdsUnique(users, ds[..n - 1]);
      BlockRequestIdsDistinct(users, n, CreatedAt(d), d.qualityMilli, d.steps);
      LaterKeysAbsent(users, ds[..n - 1], n);
      BlockKeys(users, n, CreatedAt(d), d.qualityMilli, d.steps);
      RequestIdsDistinctAppend(a, b);
      AllInteractionsSplit(users, ds);
    }
  }

  /** Within each task, the interaction timestamps strictly increase. */
  lemma {:induction false} TimesIncrease(users: seq<User>, ds: seq<TaskDraw>)
    requires ValidTaskDraws(ds, |users|)
    ensures TimesIncreaseWithinTasks(AllInteractions(users, ds))
  {
    if ds != [] {
      var n := |ds|;
      var d := ds[n - 1];
      var a := AllInteractions(users, ds[..n - 1]);
      var b := StepRows(users, n, CreatedAt(d), d.qualityMilli, d.steps);
      TimesIncrease(users, ds[..n - 1]);
      BlockTimesIncrease(users, n, CreatedAt(d), d.qualityMilli, d.steps);
      LaterKeysAbsent(users, ds[..n - 1], n);
      BlockKeys(users, n, CreatedAt(d), d.qualityMilli, d.steps);
      TimesIncreaseAppend(a, b);
      AllInteractionsSplit(users, ds);
    }
  }

  /** Every interaction row of task t lies a minute or more after the task's
      creation and no later than its last interaction, and carries its score. */
  lemma {:induction false} RowsInWindows(users: seq<User>, ds: seq<TaskDraw>)
    requires ValidTaskDraws(ds, |users|)
    ensures forall i, t :: 0 <= i < |AllInteractions(users, ds)| && 1 <= t <= |ds| && AllInteractions(users, ds)[i].taskId == TaskId(t) ==>
              && CreatedAt(ds[t - 1]) + SECONDS_PER_MINUTE <= AllInteractions(users, ds)[i].createdAt
              && AllInteractions(users, ds)[i].createdAt <= LastTime(ds[t - 1])
              && AllInteractions(users, ds)[i].qualityMilli == ds[t - 1].qualityMilli
  {
    var rows := AllInteractions(users, ds);
    forall i, t | 0 <= i < |rows| && 1 <= t <= |ds| && rows[i].taskId == TaskId(t)
      ensures CreatedAt(ds[t - 1]) + SECONDS_PER_MINUTE <= rows[i].createdAt <= LastTime(ds[t - 1])
      ensures rows[i].qualityMilli == ds[t - 1].qualityMilli
    {
      var n := |ds|;
      var d := ds[n - 1];
      var a := AllInteractions(users, ds[..n - 1]);
      AllInteractionsAt(users, ds, i);
      if i < |a| {
        LaterKeysAbsent(users, ds[..n - 1], n);
        assert t != n;
        RowsInWindows(users, ds[..n - 1]);
        assert ds[..n - 1][t - 1] == ds[t - 1];
      } else {
        var k := i - |a|;
        StepRowFields(users, n, CreatedAt(d), d.qualityMilli, d.steps, k);
        TaskIdInjective(n, t);
        StepTimeBounds(users, n, CreatedAt(d), d.qualityMilli, d.steps, k);
      }
    }
  }

  /** Given users whose ids end in a digit, every key of every interaction row
      ends in a digit. */
  lemma {:induction false} RowKeysEndInDigit(users: seq<User>, ds: seq<TaskDraw>)
    requires ValidTaskDraws(ds, |users|)
    requires forall j :: 0 <= j < |users| ==> EndsInDigit(users[j].userId)
    ensures forall i :: 0 <= i < |AllInteractions(users, ds)| ==>
              && EndsInDigit(AllInteractions(users, ds)[i].requestId)
              && EndsInDigit(AllInteractions(users, ds)[i].userId)
              && EndsInDigit(AllInteractions(users, ds)[i].taskId)
  {
    var rows := AllInteractions(users, ds);
    forall i | 0 <= i < |rows|
      ensures EndsInDigit(rows[i].requestId) && EndsInDigit(rows[i].userId) && EndsInDigit(rows[i].taskId)
    {
      var n := |ds|;
      var d := ds[n - 1];
      var a := AllInteractions(users, ds[..n - 1]);
      AllInteractionsAt(users, ds, i);
      if i < |a| {
        RowKeysEndInDigit(users, ds[..n - 1]);
      } else {
        var k := i - |a|;
        StepRowFields(users, n, CreatedAt(d), d.qualityMilli, d.steps, k);
        EndsInNumeral(TaskId(n) + "_req_", k);
        EndsInNumeral("task_", n);
      }
    }
  }

  lemma {:induction false} TotalStepsBounds(ds: seq<TaskDraw>, numUsers: nat)
    requires ValidTaskDraws(ds, numUsers)
    ensures |ds| <= TotalSteps(ds) <= 4 * |ds|
  {
    if ds != [] {
      TotalStepsBounds(ds[..|ds| - 1], numUsers);
    }
  }

  // ---------------------------------------------------------------- properties of the generated tables

  /** Each task's counters agree with the interaction rows that carry its id. */
  predicate CountersAgree(tasks: seq<Task>, interactions: seq<Interaction>) {
    forall t :: 0 <= t < |tasks| ==>
      && CountTask(interactions, tasks[t].taskId) == tasks[t].numAiCalls
      && CountEscalated(interactions, tasks[t].taskId) == tasks[t].numEscalations
  }

  /** Counters in range and the resolution time derived from the two instants. */
  predicate TasksWellFormed(tasks: seq<Task>) {
    forall t :: 0 <= t < |tasks| ==>
      && 1 <= tasks[t].numAiCalls <= 4
      && tasks[t].numEscalations <= tasks[t].numAiCalls
      && tasks[t].resolutionTimeSec == tasks[t].resolutionAt - tasks[t].firstAiRequestAt
      && tasks[t].resolutionTimeSec >= SECONDS_PER_MINUTE * tasks[t].numAiCalls + 5 * SECONDS_PER_MINUTE
      && tasks[t].periodStartDay <= tasks[t].periodEndDay
  }

  /** Every interaction of a task lies between a minute after the task's first
      request and five minutes before its resolution, and carries its score. */
  predicate InteractionsInTaskWindows(tasks: seq<Task>, interactions: seq<Interaction>) {
    forall t, i :: 0 <= t < |tasks| && 0 <= i < |interactions| && interactions[i].taskId == tasks[t].taskId ==>
      && tasks[t].firstAiRequestAt + SECONDS_PER_MINUTE <= interactions[i].createdAt
      && interactions[i].createdAt + 5 * SECONDS_PER_MINUTE <= tasks[t].resolutionAt
      && interactions[i].qualityMilli == tasks[t].qualityMilli
  }

  predicate TimesIncreaseWithinTasks(interactions: seq<Interaction>) {
    forall i, j :: 0 <= i < j < |interactions| && interactions[i].taskId == interactions[j].taskId ==>
      interactions[i].createdAt < interactions[j].createdAt
  }

  predicate RequestIdsDistinct(interactions: seq<Interaction>) {
    forall i, j :: 0 <= i < j < |interactions| ==> interactions[i].requestId != interactions[j].requestId
  }

  predicate KeysResolve(users: seq<User>, tasks: seq<Task>, interactions: seq<Interaction>) {
    forall i :: 0 <= i < |interactions| ==>
      && interactions[i].userId in UserIds(users)
      && interactions[i].taskId in TaskIdsOf(tasks)
  }

  lemma {:induction false} TaskRowFacts(t: nat, d: TaskDraw, numUsers: nat)
    requires ValidTaskDraw(d, numUsers)
    ensures var row := TaskRow(t, d);
      && 1 <= row.numAiCalls <= 4
      && row.numEscalations <= row.numAiCalls
      && row.resolutionTimeSec == row.resolutionAt - row.firstAiRequestAt
      && row.resolutionTimeSec >= SECONDS_PER_MINUTE * row.numAiCalls + 5 * SECONDS_PER_MINUTE
      && row.periodStartDay == d.day <= row.periodEndDay
  {
    ElapsedGrowth(d.steps, 0, |d.steps|);
    assert d.steps[..|d.steps|] == d.steps;
  }

  lemma {:induction false} TaskTableFacts(ds: seq<TaskDraw>, numUsers: nat)
    requires ValidTaskDraws(ds, numUsers)
    ensures Distinct(TaskIdsOf(AllTasks(ds))) && TasksWellFormed(AllTasks(ds))
  {
    var tasks := AllTasks(ds);
    forall i, j | 0 <= i < j < |tasks| ensures TaskIdsOf(tasks)[i] != TaskIdsOf(tasks)[j] {
      TaskIdInjective(i + 1, j + 1);
    }
    forall t | 0 <= t < |tasks|
      ensures 1 <= tasks[t].numAiCalls <= 4 && tasks[t].numEscalations <= tasks[t].numAiCalls
      ensures tasks[t].resolutionTimeSec == tasks[t].resolutionAt - tasks[t].firstAiRequestAt
      ensures tasks[t].resolutionTimeSec >= SECONDS_PER_MINUTE * tasks[t].numAiCalls + 5 * SECONDS_PER_MINUTE
      ensures tasks[t].periodStartDay <= tasks[t].periodEndDay
    {
      TaskRowFacts(t + 1, ds[t], numUsers);
    }
  }

  lemma {:induction false} CountersAgreeOnGenerated(users: seq<User>, ds: seq<TaskDraw>)
    requires ValidTaskDraws(ds, |users|)
    ensures CountersAgree(AllTasks(ds), AllInteractions(users, ds))
  {
    var tasks, rows := AllTasks(ds), AllInteractions(users, ds);
    forall t | 0 <= t < |tasks|
      ensures CountTask(rows, tasks[t].taskId) == tasks[t].numAiCalls
      ensures CountEscalated(rows, tasks[t].taskId) == tasks[t].numEscalations
    {
      CallsPerTask(users, ds, t + 1);
      EscalationsPerTask(users, ds, t + 1);
    }
  }

  lemma {:induction false} WindowsOnGenerated(users: seq<User>, ds: seq<TaskDraw>)
    requires ValidTaskDraws(ds, |users|)
    ensures InteractionsInTaskWindows(AllTasks(ds), AllInteractions(users, ds))
  {
    var tasks, rows := AllTasks(ds), AllInteractions(users, ds);
    RowsInWindows(users, ds);
    forall t, i | 0 <= t < |tasks| && 0 <= i < |rows| && rows[i].taskId == tasks[t].taskId
      ensures tasks[t].firstAiRequestAt + SECONDS_PER_MINUTE <= rows[i].createdAt
      ensures rows[i].createdAt + 5 * SECONDS_PER_MINUTE <= tasks[t].resolutionAt
      ensures rows[i].qualityMilli == tasks[t].qualityMilli
    {
      assert rows[i].taskId == TaskId(t + 1);
    }
  }

  lemma {:induction false} KeysOnGenerated(users: seq<User>, ds: seq<TaskDraw>)
    requires ValidTaskDraws(ds, |users|)
    ensures KeysResolve(users, AllTasks(ds), AllInteractions(users, ds))
  {
    var tasks, rows := AllTasks(ds), AllInteractions(users, ds);
    RowsReferenceUsers(users, ds);
    RowsHaveTaskIds(users, ds);
    forall i | 0 <= i < |rows| ensures rows[i].taskId in TaskIdsOf(tasks) {
      assert OfSomeTask(rows[i], |ds|);
      var t :| 1 <= t <= |ds| && rows[i].taskId == TaskId(t);
      assert TaskIdsOf(tasks)[t - 1] == rows[i].taskId;
    }
  }

  /** The tables that AllTasks and AllInteractions describe have every
      property listed above. */
  lemma {:induction false} GeneratedTablesConsistent(users: seq<User>, ds: seq<TaskDraw>)
    requires ValidTaskDraws(ds, |users|)
    ensures var tasks, rows := AllTasks(ds), AllInteractions(users, ds);
      && |tasks| == |ds|
      && |ds| <= |rows| <= 4 * |ds|
      && Distinct(TaskIdsOf(tasks))
      && RequestIdsDistinct(rows)
      && CountersAgree(tasks, rows)
      && TasksWellFormed(tasks)
      && InteractionsInTaskWindows(tasks, rows)
      && TimesIncreaseWithinTasks(rows)
      && KeysResolve(users, tasks, rows)
  {
    TotalStepsBounds(ds, |users|);
    TaskTableFacts(ds, |users|);
    RequestIdsUnique(users, ds);
    TimesIncrease(users, ds);
    CountersAgreeOnGenerated(users, ds);
    WindowsOnGenerated(users, ds);
    KeysOnGenerated(users, ds);
  }

  /** One more interaction draw: what the inner loop of the generator adds. */
  lemma {:induction false} StepSnoc(users: seq<User>, t: nat, start: nat, q: nat, steps: seq<InteractionDraw>, k: nat)
    requires ValidSteps(steps, |users|)
    requires k < |steps|
    ensures Elapsed(steps[..k + 1]) == Elapsed(steps[..k]) + steps[k].minutes
    ensures Escalations(steps[..k + 1]) == Escalations(steps[..k]) + (if IsEscalation(steps[k]) then 1 else 0)
    ensures StepRows(users, t, start, q, steps[..k + 1])
         == StepRows(users, t, start, q, steps[..k])
            + [InteractionRow(users, t, k, steps[k], start + SECONDS_PER_MINUTE * Elapsed(steps[..k + 1]), q)]
  {
    assert steps[..k + 1][..k] == steps[..k];
  }

  /** One more task draw adds one task row. */
  lemma {:induction false} AllTasksSnoc(ds: seq<TaskDraw>, t: nat)
    requires 1 <= t <= |ds|
    ensures AllTasks(ds[..t]) == AllTasks(ds[..t - 1]) + [TaskRow(t, ds[t - 1])]
  {
    assert forall i :: 0 <= i < t ==> AllTasks(ds[..t])[i] == (AllTasks(ds[..t - 1]) + [TaskRow(t, ds[t - 1])])[i];
  }

  /** One more task draw: what the outer loop of the generator adds. */
  lemma {:induction false} TaskSnoc(users: seq<User>, ds: seq<TaskDraw>, t: nat)
    requires ValidTaskDraws(ds, |users|)
    requires 1 <= t <= |ds|
    ensures var d := ds[t - 1];
      AllInteractions(users, ds[..t])
        == AllInteractions(users, ds[..t - 1]) + StepRows(users, t, CreatedAt(d), d.qualityMilli, d.steps)
  {
    assert ds[..t][..t - 1] == ds[..t - 1];
    AllInteractionsSplit(users, ds[..t]);
  }

  /** The generator's inner loop for task t, created at `start`: per
      interaction draw it updates the call and escalation counters and the
      running timestamp and appends one interaction row to `rows`. */
  method AppendTaskInteractions(users: seq<User>, t: nat, start: nat, d: TaskDraw, rows: seq<Interaction>)
    returns (interactions: seq<Interaction>, aiCalls: nat, escalations: nat, lastTime: nat)
    requires ValidTaskDraw(d, |users|)
    ensures interactions == rows + StepRows(users, t, start, d.qualityMilli, d.steps)
    ensures aiCalls == |d.steps| && escalations == Escalations(d.steps)
    ensures lastTime == start + SECONDS_PER_MINUTE * Elapsed(d.steps)
  {
    var taskId := TaskId(t);
    var numInteractions := |d.steps|;
    interactions := rows;
    aiCalls := 0;
    escalations := 0;
    lastTime := start;
    for k := 0 to numInteractions
      invariant aiCalls == k
      invariant escalations == Escalations(d.steps[..k])
      invariant lastTime == start + SECONDS_PER_MINUTE * Elapsed(d.steps[..k])
      invariant interactions == rows + StepRows(users, t, start, d.qualityMilli, d.steps[..k])
    {
      var s := d.steps[k];
      var user := users[s.user];
      var requestId := taskId + "_req_" + NatToString(k);
      var treatmentArm := s.treatmentArm;
      var actionType := s.actionType;
      if actionType == Escalate {
        escalations := escalations + 1;
      }
      aiCalls := aiCalls + 1;
      lastTime := lastTime + SECONDS_PER_MINUTE * s.minutes;
      var row := Interaction(
        requestId, user.userId, taskId, SessionId(t), s.taskType, MODEL_VERSION,
        PROMPT_TEMPLATE_ID, treatmentArm, s.responseTokens, s.latencyMs, actionType,
        d.qualityMilli, lastTime);
      assert lastTime == start + SECONDS_PER_MINUTE * Elapsed(d.steps[..k + 1])
          && escalations == Escalations(d.steps[..k + 1]) by {
        StepSnoc(users, t, start, d.qualityMilli, d.steps, k);
      }
      ghost var rowsSoFar := StepRows(users, t, start, d.qualityMilli, d.steps[..k]);
      assert StepRows(users, t, start, d.qualityMilli, d.steps[..k + 1]) == rowsSoFar + [row] by {
        StepSnoc(users, t, start, d.qualityMilli, d.steps, k);
        assert row == InteractionRow(users, t, k, s, lastTime, d.qualityMilli);
      }
      interactions := interactions + [row];
    }
    assert d.steps[..numInteractions] == d.steps;
  }

  /** The generator's task loop: per task, the inner loop above appends its
      interaction rows, then the task row is appended with the counters, the
      last timestamp plus the resolution delay, and their difference. */
  method GenTasks(users: seq<User>, draws: seq<TaskDraw>) returns (tasks: seq<Task>, interactions: seq<Interaction>)
    requires |draws| == NUM_TASKS
    requires ValidTaskDraws(draws, |users|)
    ensures tasks == AllTasks(draws) && interactions == AllInteractions(users, draws)
    ensures |tasks| == NUM_TASKS && NUM_TASKS <= |interactions| <= 4 * NUM_TASKS
    ensures Distinct(TaskIdsOf(tasks)) && RequestIdsDistinct(interactions)
    ensures CountersAgree(tasks, interactions) && TasksWellFormed(tasks)
    ensures InteractionsInTaskWindows(tasks, interactions) && TimesIncreaseWithinTasks(interactions)
    ensures KeysResolve(users, tasks, interactions)
  {
    tasks := [];
    interactions := [];
    for t := 1 to NUM_TASKS + 1
      invariant tasks == AllTasks(draws[..t - 1])
      invariant interactions == AllInteractions(users, draws[..t - 1])
    {
      var d := draws[t - 1];
      var taskId := TaskId(t);
      var createdAt := d.day * SECONDS_PER_DAY;
      var aiCalls, escalations, lastTime;
      interactions, aiCalls, escalations, lastTime := AppendTaskInteractions(users, t, createdAt, d, interactions);
      var resolutionAt := lastTime + SECONDS_PER_MINUTE * d.delayMinutes;
      var resolutionTimeSec := resolutionAt - createdAt;
      var task := Task(
        taskId, createdAt / SECONDS_PER_DAY, resolutionAt / SECONDS_PER_DAY, createdAt, resolutionAt,
        aiCalls, escalations, resolutionTimeSec, d.qualityMilli);
      assert task == TaskRow(t, d);
      AllTasksSnoc(draws, t);
      tasks := tasks + [task];
      TaskSnoc(users, draws, t);
    }
    assert draws[..NUM_TASKS] == draws;
    GeneratedTablesConsistent(users, draws);
  }

  /** The generator's entry point without its file writes. */
  method Generate(userDraws: seq<UserDraw>, queueDraws: seq<QueueType>, taskDraws: seq<TaskDraw>)
    returns (users: seq<User>, teams: seq<Team>, arms: seq<ExperimentArm>, tasks: seq<Task>, interactions: seq<Interaction>)
    requires |userDraws| == NUM_USERS && forall i :: 0 <= i < |userDraws| ==> ValidUserDraw(userDraws[i])
    requires |queueDraws| == NUM_TEAMS
    requires |taskDraws| == NUM_TASKS && ValidTaskDraws(taskDraws, NUM_USERS)
    ensures users == AllUsers(userDraws) && tasks == AllTasks(taskDraws) && interactions == AllInteractions(users, taskDraws)
    ensures |users| == NUM_USERS && |teams| == NUM_TEAMS && |tasks| == NUM_TASKS
    ensures forall i :: 0 <= i < |users| ==> users[i].userId == UserId(i + 1)
    ensures NUM_TASKS <= |interactions| <= 4 * NUM_TASKS
    ensures Distinct(UserIds(users)) && Distinct(TeamIdsOf(teams)) && Distinct(TaskIdsOf(tasks))
    ensures RequestIdsDistinct(interactions)
    ensures forall i :: 0 <= i < |users| ==> users[i].teamId in TeamIdsOf(teams)
    ensures KeysResolve(users, tasks, interactions)
    ensures forall i :: 0 <= i < |interactions| ==> interactions[i].treatmentArm.Name() in ArmIds(arms)
    ensures CountersAgree(tasks, interactions) && TasksWellFormed(tasks)
    ensures InteractionsInTaskWindows(tasks, interactions) && TimesIncreaseWithinTasks(interactions)
  {
    var teamIds;
    users, teamIds := GenUsers(userDraws);
    teams := GenTeams(teamIds, queueDraws);
    arms := GenExperiments();
    tasks, interactions := GenTasks(users, taskDraws);
  }
}
