/** Task bookkeeping of the agent-mode orchestrator: the queue of waiting
    sessions, the status of each task of the current session, retries of
    failed sub-agents and failed tests, user interrupts, and completion of a
    session. Launching sub-agents, running tests, creating pull requests and
    talking to the master agent are outside calls: where their outcome
    matters it is a parameter. */
module Orchestrator {
  import opened Common

  type SessionId = string
  type TaskId = string

  // ---------------------------------------------------------------------
  // The session queue
  // ---------------------------------------------------------------------

  /** `SessionQueue`: the session being worked on and those waiting, in
      arrival order. */
  class SessionQueue {
    var active: Option<SessionId>
    var pending: seq<SessionId>

    /** `SessionQueue::new`. */
    constructor ()
      ensures active.None? && pending == []
    {
      active := None;
      pending := [];
    }

    /** `enqueue`: joins at the back. */
    method Enqueue(id: SessionId)
      modifies this`pending
      ensures pending == old(pending) + [id]
    {
      pending := pending + [id];
    }

    /** `dequeue`: the session at the front leaves the queue and becomes
        the active one; with nothing waiting, no session is active. */
    method Dequeue() returns (next: Option<SessionId>)
      modifies this
      ensures old(pending) == [] ==> next.None? && pending == []
      ensures old(pending) != [] ==> next == Some(old(pending)[0]) && pending == old(pending)[1..]
      ensures active == next
    {
      if pending == [] {
        next := None;
      } else {
        next := Some(pending[0]);
        pending := pending[1..];
      }
      active := next;
    }

    /** `pending_count`. */
    function PendingCount(): (n: nat)
      reads this`pending
      ensures n == 0 <==> pending == []
    {
      |pending|
    }
  }

  // ---------------------------------------------------------------------
  // Tasks
  // ---------------------------------------------------------------------

  datatype TaskStatus = Pending | Ready | Running | Completed | Failed | Cancelled | Paused
  datatype TestStatus = TestPassed | TestFailed
  datatype SessionStatus = Active | SessionPaused | SessionCompleted

  /** The outcome of a task's test run and how many runs there were. */
  datatype TestVerification = TestVerification(status: TestStatus, output: Option<string>, attempt: nat)

  datatype Task = Task(
    id: TaskId,
    name: string,
    status: TaskStatus,
    retryCount: nat,
    testStatus: Option<TestVerification>,
    pullRequest: Option<string>,
    dependencies: seq<TaskId>)

  datatype Session = Session(id: SessionId, status: SessionStatus, tasks: seq<Task>)

  /** Retries allowed for a failed sub-agent, and test runs for a task. */
  const MAX_RETRIES: nat := 3
  const MAX_TEST_ATTEMPTS: nat := 3

  /** `Task::new`: pending, never retried, untested, without dependencies. */
  function NewTask(id: TaskId, name: string): (t: Task)
    ensures t.id == id && t.name == name && t.status == Pending && t.retryCount == 0
    ensures t.testStatus.None? && t.pullRequest.None? && t.dependencies == []
  {
    Task(id, name, Pending, 0, None, None, [])
  }

  /** A task that will not run again. */
  predicate Finished(s: TaskStatus)
  {
    s == Completed || s == Failed || s == Cancelled
  }

  /** `check_session_completion`'s test: there are tasks and every one has
      finished. */
  predicate AllDone(tasks: seq<Task>)
  {
    |tasks| > 0 && forall i :: 0 <= i < |tasks| ==> Finished(tasks[i].status)
  }

  /** The first task with this id. */
  function FindTask(tasks: seq<Task>, id: TaskId): (r: Option<nat>)
    ensures r.Some? ==> r.value < |tasks| && tasks[r.value].id == id
                        && forall k :: 0 <= k < r.value ==> tasks[k].id != id
    ensures r.None? ==> forall k :: 0 <= k < |tasks| ==> tasks[k].id != id
  {
    if tasks == [] then None
    else if tasks[0].id == id then Some(0)
    else
      var rest := FindTask(tasks[1..], id);
      if rest.Some? then Some(rest.value + 1) else None
  }

  /** The first task with this status. */
  function FirstWithStatus(tasks: seq<Task>, s: TaskStatus): (r: Option<nat>)
    ensures r.Some? ==> r.value < |tasks| && tasks[r.value].status == s
                        && forall k :: 0 <= k < r.value ==> tasks[k].status != s
    ensures r.None? ==> forall k :: 0 <= k < |tasks| ==> tasks[k].status != s
  {
    if tasks == [] then None
    else if tasks[0].status == s then Some(0)
    else
      var rest := FirstWithStatus(tasks[1..], s);
      if rest.Some? then Some(rest.value + 1) else None
  }

  /** The task with this id set to `status`; nothing else changes. */
  function SetStatus(tasks: seq<Task>, id: TaskId, status: TaskStatus): (r: seq<Task>)
    ensures |r| == |tasks|
    ensures FindTask(tasks, id).None? ==> r == tasks
    ensures FindTask(tasks, id).Some? ==>
      var k := FindTask(tasks, id).value; r == tasks[k := tasks[k].(status := status)]
  {
    match FindTask(tasks, id)
    case None => tasks
    case Some(k) => tasks[k := tasks[k].(status := status)]
  }

  /** `launch_ready_tasks`: the first Ready task starts running. */
  function LaunchReady(tasks: seq<Task>): (r: seq<Task>)
    ensures |r| == |tasks|
    ensures FirstWithStatus(tasks, Ready).None? ==> r == tasks
    ensures FirstWithStatus(tasks, Ready).Some? ==>
      var k := FirstWithStatus(tasks, Ready).value;
      r[k] == tasks[k].(status := Running) && forall j :: 0 <= j < |tasks| && j != k ==> r[j] == tasks[j]
  {
    match FirstWithStatus(tasks, Ready)
    case None => tasks
    case Some(k) => tasks[k := tasks[k].(status := Running)]
  }

  /** Launching moves at most one task, and only from Ready to Running. */
  lemma LaunchMovesAtMostOne(tasks: seq<Task>)
    ensures forall i, j :: 0 <= i < j < |tasks| && LaunchReady(tasks)[i] != tasks[i] ==> LaunchReady(tasks)[j] == tasks[j]
    ensures forall i :: 0 <= i < |tasks| && LaunchReady(tasks)[i] != tasks[i] ==>
      tasks[i].status == Ready && LaunchReady(tasks)[i] == tasks[i].(status := Running)
    ensures Count(StatusesOf(LaunchReady(tasks)), Running) <= Count(StatusesOf(tasks), Running) + 1
  {
    var r := LaunchReady(tasks);
    match FirstWithStatus(tasks, Ready)
    case None =>
    case Some(k) =>
      var before, after := StatusesOf(tasks), StatusesOf(r);
      assert after == before[k := Running];
      CountUpdate(before, k, Running, Running);
  }

  /** The statuses of the tasks, in order. */
  function StatusesOf(tasks: seq<Task>): (r: seq<TaskStatus>)
    ensures |r| == |tasks| && forall i :: 0 <= i < |tasks| ==> r[i] == tasks[i].status
  {
    seq(|tasks|, i requires 0 <= i < |tasks| => tasks[i].status)
  }

  /** Overwriting one element changes a count by at most one. */
  lemma {:induction false} CountUpdate<T>(s: seq<T>, k: nat, v: T, x: T)
    requires k < |s|
    ensures Count(s[k := v], x) <= Count(s, x) + 1
    ensures Count(s[k := v], x) + 1 >= Count(s, x)
  {
    if k > 0 {
      assert s[k := v][1..] == s[1..][k - 1 := v];
      CountUpdate(s[1..], k - 1, v, x);
    } else {
      assert s[k := v][1..] == s[1..];
    }
  }

  /** `retry_task` on one task: under three retries it is counted and made
      Ready again, otherwise it has failed for good. */
  function AfterRetry(t: Task): (r: Task)
    ensures r.id == t.id && r.testStatus == t.testStatus
    ensures r.status == Ready <==> t.retryCount < MAX_RETRIES
    ensures r.status != Ready ==> r.status == Failed && r.retryCount == t.retryCount
    ensures r.status == Ready ==> r.retryCount == t.retryCount + 1 <= MAX_RETRIES
  {
    if t.retryCount < MAX_RETRIES then t.(retryCount := t.retryCount + 1, status := Ready)
    else t.(status := Failed)
  }

  /** `n` retries in a row. */
  function RetryN(t: Task, n: nat): Task
  {
    if n == 0 then t else AfterRetry(RetryN(t, n - 1))
  }

  /** A fresh task survives three retries, each counted, and the fourth
      fails it for good without raising the count. */
  lemma {:induction false} RetriesAreBounded(t: Task, n: nat)
    requires t.retryCount == 0 && t.status != Failed
    ensures n <= MAX_RETRIES ==> RetryN(t, n).retryCount == n && (n > 0 ==> RetryN(t, n).status == Ready)
    ensures n > MAX_RETRIES ==> RetryN(t, n).retryCount == MAX_RETRIES && RetryN(t, n).status == Failed
  {
    if n > 0 {
      RetriesAreBounded(t, n - 1);
    }
  }

  /** `handle_test_failed` on one task: the attempt after the recorded
      one is stored as failed with the output; a retry follows while fewer
      than three attempts were made, otherwise the task has failed. */
  function AfterTestFailed(t: Task, output: string): (r: (Task, bool))
    ensures var attempt := (if t.testStatus.Some? then t.testStatus.value.attempt else 0) + 1;
      r.0.testStatus == Some(TestVerification(TestFailed, Some(output), attempt))
      && (r.1 <==> attempt < MAX_TEST_ATTEMPTS)
    ensures r.1 ==> r.0.status == t.status
    ensures !r.1 ==> r.0.status == Failed
    ensures r.0.id == t.id && r.0.retryCount == t.retryCount
  {
    var attempt := (if t.testStatus.Some? then t.testStatus.value.attempt else 0) + 1;
    var t1 := t.(testStatus := Some(TestVerification(TestFailed, Some(output), attempt)));
    if attempt < MAX_TEST_ATTEMPTS then (t1, true) else (t1.(status := Failed), false)
  }

  /** An untested task is retried after its first and second failed test
      run and fails on the third. */
  lemma TestFailuresGiveUpOnThird(t: Task, o1: string, o2: string, o3: string)
    requires t.testStatus.None?
    ensures var (t1, retry1) := AfterTestFailed(t, o1);
      var (t2, retry2) := AfterTestFailed(t1, o2);
      var (t3, retry3) := AfterTestFailed(t2, o3);
      retry1 && retry2 && !retry3 && t3.status == Failed && t3.testStatus.value.attempt == 3
  {
  }

  /** `handle_test_passed` on one task: the test status becomes passed,
      keeping a recorded attempt, or attempt 1 when there was none. */
  function AfterTestPassed(t: Task): (r: Task)
    ensures r.testStatus.Some? && r.testStatus.value.status == TestPassed
    ensures t.testStatus.Some? ==> r.testStatus.value.attempt == t.testStatus.value.attempt
                                   && r.testStatus.value.output == t.testStatus.value.output
    ensures t.testStatus.None? ==> r.testStatus.value.attempt == 1
    ensures r.status == t.status && r.id == t.id
  {
    match t.testStatus
    case Some(tv) => t.(testStatus := Some(tv.(status := TestPassed)))
    case None => t.(testStatus := Some(TestVerification(TestPassed, None, 1)))
  }

  /** `retry_task` on a session's tasks: the task is retried or fails for
      good; unless it failed for good (an unknown task included), the next
      Ready task is then launched. */
  function Retried(tasks: seq<Task>, id: TaskId): (r: seq<Task>)
    ensures |r| == |tasks|
    ensures FindTask(tasks, id).None? ==> r == LaunchReady(tasks)
    ensures FindTask(tasks, id).Some? ==>
      var k := FindTask(tasks, id).value;
      var updated := tasks[k := AfterRetry(tasks[k])];
      r == if tasks[k].retryCount < MAX_RETRIES then LaunchReady(updated) else updated
  {
    match FindTask(tasks, id)
    case None => LaunchReady(tasks)
    case Some(k) =>
      var updated := tasks[k := AfterRetry(tasks[k])];
      if tasks[k].retryCount < MAX_RETRIES then LaunchReady(updated) else updated
  }

  /** A retried task under the limit is counted and is Ready, or Running
      when it was the first Ready task; at the limit it has failed and no
      other task moves. Apart from it, at most one task changes, from Ready
      to Running. */
  lemma RetryOutcome(tasks: seq<Task>, id: TaskId, k: nat)
    requires FindTask(tasks, id) == Some(k)
    ensures tasks[k].retryCount < MAX_RETRIES ==>
      Retried(tasks, id)[k].retryCount == tasks[k].retryCount + 1
      && (Retried(tasks, id)[k].status == Ready || Retried(tasks, id)[k].status == Running)
    ensures tasks[k].retryCount >= MAX_RETRIES ==>
      Retried(tasks, id)[k] == tasks[k].(status := Failed)
      && forall j :: 0 <= j < |tasks| && j != k ==> Retried(tasks, id)[j] == tasks[j]
    ensures forall i, j :: 0 <= i < j < |tasks| && i != k && j != k && Retried(tasks, id)[i] != tasks[i] ==>
      Retried(tasks, id)[j] == tasks[j]
    ensures forall j :: 0 <= j < |tasks| && j != k && Retried(tasks, id)[j] != tasks[j] ==>
      tasks[j].status == Ready && Retried(tasks, id)[j] == tasks[j].(status := Running)
  {
    var updated := tasks[k := AfterRetry(tasks[k])];
    if tasks[k].retryCount < MAX_RETRIES {
      LaunchMovesAtMostOne(updated);
    }
  }

  /** `handle_test_passed`'s update of the task list: the task's test
      status becomes passed and a created pull request is recorded on it;
      an unknown task changes nothing. */
  function RecordTestPassed(tasks: seq<Task>, id: TaskId, pr: Result<string, string>): (r: seq<Task>)
    ensures |r| == |tasks|
    ensures FindTask(tasks, id).None? ==> r == tasks
    ensures FindTask(tasks, id).Some? ==>
      var k := FindTask(tasks, id).value;
      r[k].testStatus == AfterTestPassed(tasks[k]).testStatus
      && r[k].pullRequest == (if pr.Ok? then Some(pr.value) else tasks[k].pullRequest)
      && r[k].(testStatus := tasks[k].testStatus, pullRequest := tasks[k].pullRequest) == tasks[k]
      && forall j :: 0 <= j < |tasks| && j != k ==> r[j] == tasks[j]
  {
    match FindTask(tasks, id)
    case None => tasks
    case Some(k) =>
      var t := AfterTestPassed(tasks[k]);
      tasks[k := if pr.Ok? then t.(pullRequest := Some(pr.value)) else t]
  }

  /** A passed test changes no task's status, so on its own it neither
      finishes a session nor reopens one. */
  lemma TestPassKeepsStatuses(tasks: seq<Task>, id: TaskId, pr: Result<string, string>)
    ensures StatusesOf(RecordTestPassed(tasks, id, pr)) == StatusesOf(tasks)
    ensures AllDone(RecordTestPassed(tasks, id, pr)) <==> AllDone(tasks)
  {
    var r := RecordTestPassed(tasks, id, pr);
    assert forall i :: 0 <= i < |tasks| ==> r[i].status == tasks[i].status;
  }

  /** The status a task has after an interrupt. */
  function AfterInterrupt(s: TaskStatus): (r: TaskStatus)
    ensures r != Running
    ensures s != Running ==> r == s
  {
    if s == Running then Paused else s
  }

  /** An interrupt leaves nothing running and finishes nothing: a session
      whose tasks had all finished still has, and one that had not still
      has not. */
  lemma InterruptKeepsFinished(tasks: seq<Task>, after: seq<Task>)
    requires |after| == |tasks|
    requires forall i :: 0 <= i < |tasks| ==> after[i] == tasks[i].(status := AfterInterrupt(tasks[i].status))
    ensures forall i :: 0 <= i < |after| ==> after[i].status != Running
    ensures AllDone(after) <==> AllDone(tasks)
  {
    if AllDone(tasks) {
      assert forall i :: 0 <= i < |tasks| ==> Finished(after[i].status);
    }
    if AllDone(after) {
      forall i | 0 <= i < |tasks|
        ensures Finished(tasks[i].status)
      {
        assert after[i].status == AfterInterrupt(tasks[i].status);
      }
    }
  }

  // ---------------------------------------------------------------------
  // Pure predicates on texts
  // ---------------------------------------------------------------------

  /** `is_retryable_error`: the lowercased reason mentions a transient
      failure. */
  predicate IsRetryableError(reason: string)
  {
    var lower := ToLower(reason);
    Contains(lower, "timeout") || Contains(lower, "connection") || Contains(lower, "rate limit")
    || Contains(lower, "temporary") || Contains(lower, "503") || Contains(lower, "429")
    || Contains(lower, "econnreset")
  }

  /** The retry decision ignores letter case. */
  lemma RetryableIgnoresCase(reason: string)
    ensures IsRetryableError(ToLower(reason)) <==> IsRetryableError(reason)
  {
    ToLowerIdempotent(reason);
  }

  /** The dry-run request test of `handle_session_start`. */
  predicate IsDryRunRequest(request: string)
  {
    Contains(ToLower(request), "dry run") || Contains(request, "計画だけ")
  }

  function Reverse<T>(s: seq<T>): (r: seq<T>)
    ensures |r| == |s| && forall i :: 0 <= i < |s| ==> r[i] == s[|s| - 1 - i]
  {
    if s == [] then [] else Reverse(s[1..]) + [s[0]]
  }

  /** The last ten lines of an output, last first, joined and lowercased. */
  function TailText(output: string): string
  {
    var lines := Reverse(Lines(output));
    ToLower(Join(lines[..Min(10, |lines|)], "\n"))
  }

  /** `is_test_output_passing`: a cargo success line, an npm summary with
      passes and no failures, or no failure or error in the last ten
      lines. */
  predicate IsTestOutputPassing(output: string)
  {
    Contains(output, "test result: ok.")
    || (Contains(output, "Tests:") && Contains(output, "passed") && !Contains(output, "failed"))
    || (!Contains(TailText(output), "failed") && !Contains(TailText(output), "error"))
  }

  lemma ContainsInside(a: string, s: string, b: string, sub: string)
    requires Contains(s, sub)
    ensures Contains(a + s + b, sub)
  {
    var i :| 0 <= i <= |s| - |sub| && OccursAt(s, sub, i);
    assert (a + s + b)[|a| + i..|a| + i + |sub|] == s[i..i + |sub|];
    assert OccursAt(a + s + b, sub, |a| + i);
  }

  /** A lowercased first piece shows through the lowercased join. */
  lemma ToLowerJoinContainsFirst(parts: seq<string>, sep: string, sub: string)
    requires |parts| > 0 && Contains(ToLower(parts[0]), sub)
    ensures Contains(ToLower(Join(parts, sep)), sub)
  {
    var lp := ToLower(parts[0]);
    var i :| 0 <= i <= |lp| - |sub| && OccursAt(lp, sub, i);
    var j := Join(parts, sep);
    if |parts| > 1 {
      assert j == parts[0] + (sep + Join(parts[1..], sep));
    }
    assert j[..|parts[0]|] == parts[0];
    var low := ToLower(j);
    assert forall q :: 0 <= q < |lp| ==> low[q] == lp[q];
    assert low[i..i + |sub|] == lp[i..i + |sub|];
    assert OccursAt(low, sub, i);
  }

  lemma ToLowerAppend(a: string, b: string)
    ensures ToLower(a + b) == ToLower(a) + ToLower(b)
  {
    assert forall i :: 0 <= i < |a + b| ==> ToLower(a + b)[i] == (ToLower(a) + ToLower(b))[i];
  }

  /** Without a cargo or npm success marker, output whose last line
      mentions an error or a failure in any letter case is not passing. */
  lemma ErrorOnLastLineFails(output: string, sub: string)
    requires sub == "error" || sub == "failed"
    requires !Contains(output, "test result: ok.") && !Contains(output, "Tests:")
    requires |Lines(output)| > 0 && Contains(ToLower(Lines(output)[|Lines(output)| - 1]), sub)
    ensures !IsTestOutputPassing(output)
  {
    var lines := Reverse(Lines(output));
    ToLowerJoinContainsFirst(lines[..Min(10, |lines|)], "\n", sub);
  }

  /** The first loop of `create_tasks_from_parsed`: a new task per
      parsed (name, description), with the given ids, after the existing
      tasks. */
  method AppendParsed(tasks: seq<Task>, parsed: seq<(string, string)>, ids: seq<TaskId>) returns (r: seq<Task>)
    requires |ids| == |parsed|
    ensures |r| == |tasks| + |parsed| && r[..|tasks|] == tasks
    ensures forall m :: |tasks| <= m < |r| ==> r[m] == NewTask(ids[m - |tasks|], parsed[m - |tasks|].0)
  {
    r := tasks;
    var j := 0;
    while j < |parsed|
      invariant 0 <= j <= |parsed| && |r| == |tasks| + j
      invariant r[..|tasks|] == tasks
      invariant forall m :: |tasks| <= m < |r| ==> r[m] == NewTask(ids[m - |tasks|], parsed[m - |tasks|].0)
    {
      r := r + [NewTask(ids[j], parsed[j].0)];
      j := j + 1;
    }
  }

  /** The second loop of `create_tasks_from_parsed`: every task without
      dependencies becomes Ready, whatever its status was. */
  method ReadyWithoutDependencies(tasks: seq<Task>) returns (r: seq<Task>)
    ensures |r| == |tasks|
    ensures forall m :: 0 <= m < |r| ==>
      r[m] == (if tasks[m].dependencies == [] then tasks[m].(status := Ready) else tasks[m])
  {
    r := tasks;
    var i := 0;
    while i < |r|
      invariant 0 <= i <= |r| && |r| == |tasks|
      invariant forall m :: 0 <= m < i ==>
        r[m] == (if tasks[m].dependencies == [] then tasks[m].(status := Ready) else tasks[m])
      invariant forall m :: i <= m < |r| ==> r[m] == tasks[m]
    {
      if r[i].dependencies == [] {
        r := r[i := r[i].(status := Ready)];
      }
      i := i + 1;
    }
  }

  // ---------------------------------------------------------------------
  // The orchestrator's bookkeeping
  // ---------------------------------------------------------------------

  /** The task-keeping part of `OrchestratorLoop`. */
  class OrchestratorLoop {
    var session: Option<Session>
    var queue: SessionQueue
    var dryRun: bool

    /** `OrchestratorLoop::new`, as far as bookkeeping goes. */
    constructor ()
      ensures session.None? && fresh(queue) && queue.active.None? && queue.pending == [] && !dryRun
    {
      session := None;
      queue := new SessionQueue();
      dryRun := false;
    }

    /** The current session's tasks, none without a session. */
    function Tasks(): (r: seq<Task>)
      reads this`session
      ensures session.None? ==> r == []
    {
      if session.Some? then session.value.tasks else []
    }

    /** `launch_ready_tasks`. */
    method LaunchReadyTasks()
      modifies this`session
      ensures session.None? <==> old(session).None?
      ensures session.Some? ==> session == Some(old(session).value.(tasks := LaunchReady(old(session).value.tasks)))
    {
      if session.Some? {
        session := Some(session.value.(tasks := LaunchReady(session.value.tasks)));
      }
    }

    /** `retry_task`: the task is retried or fails for good; a retry, an
        unknown task or a missing session then launches the next Ready
        task. */
    method RetryTask(id: TaskId)
      modifies this`session
      ensures old(session).None? ==> session.None?
      ensures old(session).Some? ==>
        session == Some(old(session).value.(tasks := Retried(old(session).value.tasks, id)))
    {
      if session.Some? {
        var ts := session.value.tasks;
        var found := FindTask(ts, id);
        if found.Some? {
          var k := found.value;
          var t := ts[k];
          session := Some(session.value.(tasks := ts[k := AfterRetry(t)]));
          if t.retryCount >= MAX_RETRIES {
            return;
          }
        }
      }
      LaunchReadyTasks();
    }

    /** `handle_sub_agent_failed`: a transient reason retries the task,
        any other fails it; the queue is untouched. */
    method HandleSubAgentFailed(id: TaskId, reason: string)
      modifies this`session
      ensures old(session).None? ==> session.None?
      ensures !IsRetryableError(reason) && old(session).Some? ==>
        session == Some(old(session).value.(tasks := SetStatus(old(session).value.tasks, id, Failed)))
      ensures IsRetryableError(reason) && old(session).Some? ==>
        session == Some(old(session).value.(tasks := Retried(old(session).value.tasks, id)))
      ensures queue == old(queue) && unchanged(queue)
    {
      if IsRetryableError(reason) {
        RetryTask(id);
      } else if session.Some? {
        session := Some(session.value.(tasks := SetStatus(session.value.tasks, id, Failed)));
      }
    }

    /** `handle_sub_agent_completed`: the task is marked completed. */
    method HandleSubAgentCompleted(id: TaskId)
      modifies this`session
      ensures old(session).None? ==> session.None?
      ensures old(session).Some? ==>
        session == Some(old(session).value.(tasks := SetStatus(old(session).value.tasks, id, Completed)))
    {
      if session.Some? {
        session := Some(session.value.(tasks := SetStatus(session.value.tasks, id, Completed)));
      }
    }

    /** `handle_test_failed`: records the failed run and reports whether
        the task is retried; otherwise the task has failed. */
    method HandleTestFailed(id: TaskId, output: string) returns (retry: bool)
      modifies this`session
      ensures old(session).None? ==> session.None? && !retry
      ensures old(session).Some? && FindTask(old(session).value.tasks, id).None? ==>
        session == old(session) && !retry
      ensures old(session).Some? && FindTask(old(session).value.tasks, id).Some? ==>
        var ts := old(session).value.tasks;
        var k := FindTask(ts, id).value;
        session == Some(old(session).value.(tasks := ts[k := AfterTestFailed(ts[k], output).0]))
        && retry == AfterTestFailed(ts[k], output).1
    {
      retry := false;
      if session.Some? {
        var ts := session.value.tasks;
        var found := FindTask(ts, id);
        if found.Some? {
          var k := found.value;
          var (t, again) := AfterTestFailed(ts[k], output);
          session := Some(session.value.(tasks := ts[k := t]));
          retry := again;
        }
      }
    }

    /** `handle_interrupt`: every running task is paused and so is the
        session. */
    method HandleInterrupt()
      modifies this`session
      ensures old(session).None? ==> session.None?
      ensures old(session).Some? ==>
        session.Some? && session.value.status == SessionPaused && session.value.id == old(session).value.id
        && |session.value.tasks| == |old(session).value.tasks|
        && forall i :: 0 <= i < |session.value.tasks| ==>
             session.value.tasks[i] == old(session).value.tasks[i].(status := AfterInterrupt(old(session).value.tasks[i].status))
    {
      if session.Some? {
        var ts := session.value.tasks;
        var i := 0;
        while i < |ts|
          invariant 0 <= i <= |ts| && |ts| == |old(session).value.tasks|
          invariant forall j :: 0 <= j < i ==>
            ts[j] == old(session).value.tasks[j].(status := AfterInterrupt(old(session).value.tasks[j].status))
          invariant forall j :: i <= j < |ts| ==> ts[j] == old(session).value.tasks[j]
        {
          if ts[i].status == Running {
            ts := ts[i := ts[i].(status := Paused)];
          }
          i := i + 1;
        }
        session := Some(session.value.(status := SessionPaused, tasks := ts));
      }
    }

    /** `run_cleanup`: when every task has finished the session is
        completed (an empty session included). */
    method RunCleanup()
      modifies this`session
      ensures old(session).None? ==> session.None?
      ensures old(session).Some? && (forall i :: 0 <= i < |old(session).value.tasks| ==> Finished(old(session).value.tasks[i].status)) ==>
        session == Some(old(session).value.(status := SessionCompleted))
      ensures old(session).Some? && !(forall i :: 0 <= i < |old(session).value.tasks| ==> Finished(old(session).value.tasks[i].status)) ==>
        session == old(session)
    {
      if session.Some? {
        if forall i :: 0 <= i < |session.value.tasks| ==> Finished(session.value.tasks[i].status) {
          session := Some(session.value.(status := SessionCompleted));
        }
      }
    }

    /** `check_session_completion`: a session whose tasks have all
        finished is completed and the next waiting session becomes active;
        otherwise the next Ready task is launched. */
    method CheckSessionCompletion()
      modifies this`session, queue
      ensures old(session).Some? && AllDone(old(session).value.tasks) ==>
        session == Some(old(session).value.(status := SessionCompleted))
        && (old(queue.pending) == [] ==> queue.active.None? && queue.pending == [])
        && (old(queue.pending) != [] ==> queue.active == Some(old(queue.pending)[0]) && queue.pending == old(queue.pending)[1..])
      ensures !(old(session).Some? && AllDone(old(session).value.tasks)) ==>
        queue.active == old(queue.active) && queue.pending == old(queue.pending)
        && (old(session).None? ==> session.None?)
        && (old(session).Some? ==> session == Some(old(session).value.(tasks := LaunchReady(old(session).value.tasks))))
    {
      if session.Some? && AllDone(session.value.tasks) {
        RunCleanup();
        var _ := queue.Dequeue();
      } else {
        LaunchReadyTasks();
      }
    }

    /** `handle_test_passed`, given the pull-request outcome: the test
        status becomes passed and a created pull request is recorded (an
        unknown task changes nothing), then completion is checked: a
        session whose tasks have all finished is completed and the next
        waiting session becomes active, otherwise the next Ready task is
        launched and the queue is untouched. */
    method HandleTestPassed(id: TaskId, pr: Result<string, string>)
      modifies this`session, queue
      ensures old(session).None? ==>
        session.None? && queue.active == old(queue.active) && queue.pending == old(queue.pending)
      ensures old(session).Some? ==>
        var s1 := old(session).value.(tasks := RecordTestPassed(old(session).value.tasks, id, pr));
        if AllDone(s1.tasks) then
          session == Some(s1.(status := SessionCompleted))
          && (old(queue.pending) == [] ==> queue.active.None? && queue.pending == [])
          && (old(queue.pending) != [] ==> queue.active == Some(old(queue.pending)[0]) && queue.pending == old(queue.pending)[1..])
        else
          session == Some(s1.(tasks := LaunchReady(s1.tasks)))
          && queue.active == old(queue.active) && queue.pending == old(queue.pending)
      ensures queue == old(queue)
    {
      if session.Some? {
        session := Some(session.value.(tasks := RecordTestPassed(session.value.tasks, id, pr)));
      }
      CheckSessionCompletion();
    }

    /** `create_tasks_from_parsed`, with the ids the new tasks receive:
        the parsed tasks are appended as new tasks, then every task
        without dependencies is made Ready. */
    method CreateTasksFromParsed(parsed: seq<(string, string)>, ids: seq<TaskId>)
      requires |ids| == |parsed|
      modifies this`session
      ensures old(session).None? ==> session.None?
      ensures old(session).Some? ==>
        var before := old(session).value.tasks;
        session.Some? && session.value.id == old(session).value.id && session.value.status == old(session).value.status
        && |session.value.tasks| == |before| + |parsed|
        && (forall j :: 0 <= j < |parsed| ==>
              session.value.tasks[|before| + j].id == ids[j] && session.value.tasks[|before| + j].name == parsed[j].0
              && session.value.tasks[|before| + j].status == Ready)
        && (forall j :: 0 <= j < |before| ==>
              session.value.tasks[j] == (if before[j].dependencies == [] then before[j].(status := Ready) else before[j]))
    {
      if session.Some? {
        var ts := AppendParsed(session.value.tasks, parsed, ids);
        ts := ReadyWithoutDependencies(ts);
        session := Some(session.value.(tasks := ts));
      }
    }
  }
}
