/**
 * The orchestrator (agent/agent_graph.py): dispatching one task to its runner, and the
 * run over a task list that grows while it is being walked, with results collected
 * under each task's tool name.
 *
 * The runners see the outside world through probes: the task at position `j` of the
 * queue is run against `probes(j)`.
 */
module AgentGraph {
  import opened Wrappers
  import opened PyStr
  import opened TaskManager
  import opened TaskExecutor

  /** The results dict: tool name to what its runner returned (`None` included). */
  type Results = map<string, Option<ToolResult>>

  /** The message of the dict returned when no task was generated. */
  const OutOfScopeMessage := "Target is out of scope or no valid tasks were generated."

  /** The tools that have a runner. */
  predicate KnownTool(tool: string) {
    tool == "nmap" || tool == "gobuster" || tool == "ffuf" || tool == "sqlmap"
  }

  /**
   * `execute_task(task)`: the runner named by the task's tool, on the task's target. Only
   * ffuf can raise, and then with `AttributeError`; with a positive retry count every
   * task, known tool or not, answers with a dict.
   */
  function ExecuteTask(task: Task, env: Env, probe: Probe): (outcome: Outcome<Option<ToolResult>>)
    ensures outcome.Raised? ==> task.tool == "ffuf" && outcome.exception == "AttributeError"
    ensures env.maxRetries > 0 ==> outcome.Returned? && outcome.value.Some?
  {
    if task.tool == "nmap" then Returned(RunNmap(task.target, env, probe))
    else if task.tool == "gobuster" then Returned(RunGobuster(task.target, env, probe))
    else if task.tool == "ffuf" then RunFfuf(task.target, env, probe)
    else if task.tool == "sqlmap" then Returned(RunSqlmap(task.target, env, probe))
    else Returned(Some(Failed("Unknown tool specified: " + task.tool)))
  }

  /**
   * Dispatch: each known tool runs its own command line on the task's target (ffuf's
   * with its output file); any other tool name is a failed result naming it, and no
   * command is run.
   */
  lemma Dispatch(task: Task, env: Env, probe: Probe)
    ensures task.tool == "nmap" ==>
      ExecuteTask(task, env, probe) == Returned(CommandResult("nmap -Pn " + task.target, env.maxRetries, probe.attempts))
    ensures task.tool == "gobuster" ==>
      ExecuteTask(task, env, probe) == Returned(CommandResult(
        "gobuster dir -u " + GobusterTarget(task.target) + " -w " + env.wordlist + " -t 50", env.maxRetries, probe.attempts))
    ensures task.tool == "sqlmap" ==>
      ExecuteTask(task, env, probe) == Returned(CommandResult(
        "sqlmap -u " + task.target + SqlmapOptions,
        env.maxRetries, probe.attempts))
    ensures task.tool == "ffuf" ==> ExecuteTask(task, env, probe) == RunFfuf(task.target, env, probe)
    ensures !KnownTool(task.tool) ==>
      ExecuteTask(task, env, probe) == Returned(Some(ToolResult("failed", None, Some("Unknown tool specified: " + task.tool))))
  {
  }

  /** Only the tool and the target reach the runner; a task's `protocol` changes nothing. */
  lemma ProtocolIgnored(task: Task, protocol: Option<string>, env: Env, probe: Probe)
    ensures ExecuteTask(task.(protocol := protocol), env, probe) == ExecuteTask(task, env, probe)
  {
  }

  /** A timed-out nmap run names its command line, and so the target, in its error. */
  lemma NmapTimeoutNamesTarget(target: string, env: Env, probe: Probe)
    requires env.maxRetries > 0
    requires forall k :: 0 <= k < env.maxRetries ==> probe.attempts(k) == Timeout
    ensures ExecuteTask(Task("nmap", target, None), env, probe)
      == Returned(Some(Failed("Command timed out after 300 seconds: nmap -Pn " + target)))
  {
    AllAttemptsFail(NmapCommand(target), env.maxRetries, probe.attempts);
    assert FailureText(NmapCommand(target), Timeout) == "Command timed out after 300 seconds: nmap -Pn " + target;
  }

  /**
   * The follow-up scans for an nmap output text: only when it holds `open`, a gobuster
   * task on `http://` + target if it holds `80/tcp`, then one on `https://` + target
   * if it holds `443/tcp`; `target` is the argument of `run_agent`, as given.
   */
  function FollowUps(target: string, text: string): (tasks: seq<Task>)
    ensures |tasks| <= 2
    ensures forall k :: 0 <= k < |tasks| ==> tasks[k].tool == "gobuster"
  {
    if Contains(text, "open") then
      (if Contains(text, "80/tcp") then [Task("gobuster", "http://" + target, None)] else [])
      + (if Contains(text, "443/tcp") then [Task("gobuster", "https://" + target, None)] else [])
    else []
  }

  /** `output.get("output", "")`: the text the expansion rule looks at. */
  function OutputText(result: ToolResult): string {
    result.output.GetOr("")
  }

  /** The number of nmap tasks in a queue. */
  function NmapCount(queue: seq<Task>): nat {
    if queue == [] then 0 else (if queue[0].tool == "nmap" then 1 else 0) + NmapCount(queue[1..])
  }

  lemma {:induction false} NmapCountAppend(a: seq<Task>, b: seq<Task>)
    ensures NmapCount(a + b) == NmapCount(a) + NmapCount(b)
    decreases |a|
  {
    if a == [] {
      assert a + b == b;
    } else {
      assert (a + b)[1..] == a[1..] + b;
      NmapCountAppend(a[1..], b);
    }
  }

  lemma {:induction false} NoNmapCounted(queue: seq<Task>)
    requires forall k :: 0 <= k < |queue| ==> queue[k].tool != "nmap"
    ensures NmapCount(queue) == 0
    decreases |queue|
  {
    if queue != [] {
      NoNmapCounted(queue[1..]);
    }
  }

  /** The measure of the rest of a run drops with every step: only nmap adds work, and what it adds is not nmap. */
  lemma StepMeasure(queue: seq<Task>, i: nat, added: seq<Task>)
    requires i < |queue|
    requires queue[i].tool != "nmap" ==> added == []
    requires |added| <= 2 && forall k :: 0 <= k < |added| ==> added[k].tool != "nmap"
    ensures 3 * NmapCount((queue + added)[i + 1..]) + |queue + added| - (i + 1)
          < 3 * NmapCount(queue[i..]) + |queue| - i
  {
    assert (queue + added)[i + 1..] == queue[i + 1..] + added;
    assert queue[i..][1..] == queue[i + 1..];
    NmapCountAppend(queue[i + 1..], added);
    NoNmapCounted(added);
  }

  /** The state at the end of a run: the final queue, what each of its tasks returned, and the results dict. */
  datatype RunState = RunState(queue: seq<Task>, outputs: seq<Option<ToolResult>>, results: Results)

  /** How a run executes its tasks: `exec(task, j)` is what running `task` at queue position `j` gives. */
  type Exec = (Task, nat) -> Outcome<Option<ToolResult>>

  /** `execute_task`, with the task at position `j` meeting the outside world as `probes(j)`. */
  function Executor(env: Env, probes: nat -> Probe): Exec {
    (task: Task, j: nat) => ExecuteTask(task, env, probes(j))
  }

  /**
   * The rest of `run_agent`'s loop from queue position `i`: run the task there, store
   * its result under its tool, extend the queue after an nmap task, go on while the
   * position is inside the queue as it now stands. `None.get` on an nmap result
   * raises `AttributeError`; an exception from a runner ends the run as well. A finished
   * run only appends to the queue, keeps the outputs so far, and has one output per task.
   */
  function Drain(target: string, exec: Exec, queue: seq<Task>, i: nat,
                 outputs: seq<Option<ToolResult>>, results: Results): (run: Outcome<RunState>)
    requires i <= |queue| && |outputs| == i
    ensures run.Returned? ==>
      |queue| <= |run.value.queue| && run.value.queue[..|queue|] == queue
      && |run.value.outputs| == |run.value.queue| && run.value.outputs[..i] == outputs
    decreases 3 * NmapCount(queue[i..]) + |queue| - i
  {
    if i == |queue| then Returned(RunState(queue, outputs, results))
    else
      var task := queue[i];
      var output := exec(task, i);
      if output.Raised? then Raised(output.exception)
      else if task.tool == "nmap" && output.value.None? then Raised("AttributeError")
      else
        var added := if task.tool == "nmap" then FollowUps(target, OutputText(output.value.value)) else [];
        StepMeasure(queue, i, added);
        var run := Drain(target, exec, queue + added, i + 1, outputs + [output.value], results[task.tool := output.value]);
        if run.Raised? then run
        else
          PrefixOfPrefix(run.value.queue, queue, added);
          PrefixOfPrefix(run.value.outputs, outputs, [output.value]);
          run
  }

  /** A prefix of a prefix is a prefix. */
  lemma PrefixOfPrefix<T>(whole: seq<T>, front: seq<T>, more: seq<T>)
    requires |front + more| <= |whole| && whole[..|front + more|] == front + more
    ensures whole[..|front|] == front
  {
    assert whole[..|front|] == whole[..|front + more|][..|front|];
  }

  /** What `run_agent` returns or raises. */
  datatype AgentReport = ScopeError(error: string) | Report(results: Results) | Crashed(exception: string)

  /** `run_agent(target)` as a value. */
  function AgentRun(target: string, scope: Scope, env: Env, probes: nat -> Probe): AgentReport {
    var tasks := GenerateTasks(target, scope);
    if tasks == [] then ScopeError(OutOfScopeMessage)
    else
      match Drain(target, Executor(env, probes), tasks, 0, [], map[])
      case Raised(e) => Crashed(e)
      case Returned(state) => Report(state.results)
  }

  /**
   * `run_agent(target)`: the scope error when no task was generated, else the report
   * of the run over the generated tasks, or the exception that ended it.
   */
  method RunAgent(target: string, scope: Scope, env: Env, probes: nat -> Probe) returns (report: AgentReport)
    ensures report == AgentRun(target, scope, env, probes)
  {
    var tasks := GenerateTasks(target, scope);
    if tasks == [] {
      return ScopeError(OutOfScopeMessage);
    }
    var outcome := RunTasks(target, tasks, env, probes);
    if outcome.Raised? {
      return Crashed(outcome.exception);
    }
    return Report(outcome.value);
  }

  /**
   * The loop of `run_agent`: the tasks are walked by position while the list grows,
   * each result is stored under its tool name, and follow-up gobuster tasks are
   * appended after an nmap result that reports open web ports.
   */
  method RunTasks(target: string, initial: seq<Task>, env: Env, probes: nat -> Probe) returns (outcome: Outcome<Results>)
    ensures var run := Drain(target, Executor(env, probes), initial, 0, [], map[]);
      outcome == if run.Raised? then Raised(run.exception) else Returned(run.value.results)
  {
    ghost var exec := Executor(env, probes);
    var tasks := initial;
    var results: Results := map[];
    ghost var outputs: seq<Option<ToolResult>> := [];
    var i := 0;
    while i < |tasks|
      invariant i <= |tasks| && |outputs| == i
      invariant Drain(target, exec, tasks, i, outputs, results) == Drain(target, exec, initial, 0, [], map[])
      decreases 3 * NmapCount(tasks[i..]) + |tasks| - i
    {
      ghost var before := tasks;
      ghost var results0 := results;
      var task := tasks[i];
      var output := ExecuteTask(task, env, probes(i));
      assert output == exec(task, i);
      if output.Raised? {
        return Raised(output.exception);
      }
      results := results[task.tool := output.value];
      if task.tool == "nmap" {
        if output.value.None? {
          return Raised("AttributeError");
        }
        var text := output.value.value.output.GetOr("");
        tasks := QueueFollowUps(target, text, tasks);
      }
      ghost var added := if task.tool == "nmap" then FollowUps(target, OutputText(output.value.value)) else [];
      assert tasks == before + added;
      DrainStep(target, exec, before, i, outputs, results0);
      outputs := outputs + [output.value];
      i := i + 1;
    }
    return Returned(results);
  }

  /**
   * The expansion rule of `run_agent` after an nmap task: a gobuster task on `http://`
   * and then one on `https://` + the raw target are appended to the queue when the
   * output mentions `open` and the port.
   */
  method QueueFollowUps(target: string, text: string, tasks: seq<Task>) returns (queue: seq<Task>)
    ensures queue == tasks + FollowUps(target, text)
  {
    queue := tasks;
    if Contains(text, "open") {
      if Contains(text, "80/tcp") {
        queue := queue + [Task("gobuster", "http://" + target, None)];
      }
      if Contains(text, "443/tcp") {
        queue := queue + [Task("gobuster", "https://" + target, None)];
      }
    }
  }

  /** One step of a run that stores a dict: the run goes on from the next position with the follow-ups appended. */
  lemma DrainStep(target: string, exec: Exec, queue: seq<Task>, i: nat,
                  outputs: seq<Option<ToolResult>>, results: Results)
    requires i < |queue| && |outputs| == i
    requires exec(queue[i], i).Returned?
    requires queue[i].tool == "nmap" ==> exec(queue[i], i).value.Some?
    ensures var output := exec(queue[i], i).value;
      var added := if queue[i].tool == "nmap" then FollowUps(target, OutputText(output.value)) else [];
      3 * NmapCount((queue + added)[i + 1..]) + |queue + added| - (i + 1) < 3 * NmapCount(queue[i..]) + |queue| - i
      && Drain(target, exec, queue, i, outputs, results)
         == Drain(target, exec, queue + added, i + 1, outputs + [output], results[queue[i].tool := output])
  {
    var output := exec(queue[i], i).value;
    var added := if queue[i].tool == "nmap" then FollowUps(target, OutputText(output.value)) else [];
    StepMeasure(queue, i, added);
  }

  /** `run_agent` returns the scope error, having run nothing, exactly when the target is out of scope. */
  lemma OutOfScopeRunsNothing(target: string, scope: Scope, env: Env, probes: nat -> Probe)
    ensures AgentRun(target, scope, env, probes) == ScopeError(OutOfScopeMessage) <==> !IsWithinScope(target, scope)
  {
  }

  /**
   * `results` after storing each output of `queue` under its tool, in order: a later result
   * for a tool overwrites an earlier one, and the keys added are exactly the queue's tools.
   */
  function Collect(results: Results, queue: seq<Task>, outputs: seq<Option<ToolResult>>): (collected: Results)
    requires |queue| == |outputs|
    ensures collected.Keys == results.Keys + Tools(queue)
    decreases |queue|
  {
    if queue == [] then results
    else
      ToolsCons(queue);
      Collect(results[queue[0].tool := outputs[0]], queue[1..], outputs[1..])
  }

  /** The tools named in a queue. */
  function Tools(queue: seq<Task>): set<string> {
    set k | 0 <= k < |queue| :: queue[k].tool
  }

  /** The tools of a non-empty queue: its first task's and those of the rest. */
  lemma ToolsCons(queue: seq<Task>)
    requires queue != []
    ensures Tools(queue) == {queue[0].tool} + Tools(queue[1..])
  {
    forall t | t in Tools(queue) ensures t in {queue[0].tool} + Tools(queue[1..]) {
      var k :| 0 <= k < |queue| && queue[k].tool == t;
      if k > 0 { assert queue[1..][k - 1].tool == t; }
    }
    forall t | t in Tools(queue[1..]) ensures t in Tools(queue) {
      var k :| 0 <= k < |queue[1..]| && queue[1..][k].tool == t;
      assert queue[k + 1].tool == t;
    }
  }

  /** Task `j` is the last task of the queue with its tool. */
  predicate LastOfItsTool(queue: seq<Task>, j: nat) {
    j < |queue| && forall k :: j < k < |queue| ==> queue[k].tool != queue[j].tool
  }

  /** Under each tool the result stored last wins. */
  lemma {:induction false} CollectLastWins(results: Results, queue: seq<Task>, outputs: seq<Option<ToolResult>>, j: nat)
    requires |queue| == |outputs| && LastOfItsTool(queue, j)
    ensures queue[j].tool in Collect(results, queue, outputs)
    ensures Collect(results, queue, outputs)[queue[j].tool] == outputs[j]
    decreases |queue|
  {
    var next := results[queue[0].tool := outputs[0]];
    if j == 0 {
      CollectUntouched(next, queue[1..], outputs[1..], queue[0].tool);
    } else {
      assert queue[1..][j - 1] == queue[j];
      CollectLastWins(next, queue[1..], outputs[1..], j - 1);
    }
  }

  /** A key that no task of the queue names keeps its value. */
  lemma {:induction false} CollectUntouched(results: Results, queue: seq<Task>, outputs: seq<Option<ToolResult>>, t: string)
    requires |queue| == |outputs| && t in results
    requires forall k :: 0 <= k < |queue| ==> queue[k].tool != t
    ensures t in Collect(results, queue, outputs) && Collect(results, queue, outputs)[t] == results[t]
    decreases |queue|
  {
    if queue != [] {
      CollectUntouched(results[queue[0].tool := outputs[0]], queue[1..], outputs[1..], t);
    }
  }

  /**
   * A finished run from position `i` keeps the queue so far as its prefix and the
   * outputs so far; it ran every later task once, in order, task `j` as `exec(task, j)`;
   * its results dict is the outputs collected in that order; and all it appended is
   * gobuster tasks.
   */
  lemma {:induction false} DrainTrace(target: string, exec: Exec, queue: seq<Task>, i: nat,
                                      outputs: seq<Option<ToolResult>>, results: Results)
    requires i <= |queue| && |outputs| == i
    requires Drain(target, exec, queue, i, outputs, results).Returned?
    ensures var st := Drain(target, exec, queue, i, outputs, results).value;
      |queue| <= |st.queue| && st.queue[..|queue|] == queue
      && |st.outputs| == |st.queue| && st.outputs[..i] == outputs
      && (forall j :: i <= j < |st.queue| ==> exec(st.queue[j], j) == Returned(st.outputs[j]))
      && st.results == Collect(results, st.queue[i..], st.outputs[i..])
      && (forall j :: |queue| <= j < |st.queue| ==> st.queue[j].tool == "gobuster")
    decreases 3 * NmapCount(queue[i..]) + |queue| - i
  {
    var st := Drain(target, exec, queue, i, outputs, results).value;
    if i < |queue| {
      var task := queue[i];
      var output := exec(task, i);
      var added := if task.tool == "nmap" then FollowUps(target, OutputText(output.value.value)) else [];
      var queue' := queue + added;
      var outputs' := outputs + [output.value];
      var results' := results[task.tool := output.value];
      StepMeasure(queue, i, added);
      assert st == Drain(target, exec, queue', i + 1, outputs', results').value;
      DrainTrace(target, exec, queue', i + 1, outputs', results');
      StepFacts(queue, added, st.queue, outputs, output.value, st.outputs, i);
    }
  }

  /** A finished run from position `i` appends at most two tasks per nmap task it still has to run. */
  lemma {:induction false} DrainBound(target: string, exec: Exec, queue: seq<Task>, i: nat,
                                      outputs: seq<Option<ToolResult>>, results: Results)
    requires i <= |queue| && |outputs| == i
    requires Drain(target, exec, queue, i, outputs, results).Returned?
    ensures |Drain(target, exec, queue, i, outputs, results).value.queue| <= |queue| + 2 * NmapCount(queue[i..])
    decreases 3 * NmapCount(queue[i..]) + |queue| - i
  {
    if i < |queue| {
      var task := queue[i];
      var output := exec(task, i);
      var added := if task.tool == "nmap" then FollowUps(target, OutputText(output.value.value)) else [];
      var queue' := queue + added;
      var outputs' := outputs + [output.value];
      var results' := results[task.tool := output.value];
      StepMeasure(queue, i, added);
      assert Drain(target, exec, queue, i, outputs, results) == Drain(target, exec, queue', i + 1, outputs', results');
      DrainBound(target, exec, queue', i + 1, outputs', results');
      assert queue[i..][1..] == queue[i + 1..];
      assert queue'[i + 1..] == queue[i + 1..] + added;
      NmapCountAppend(queue[i + 1..], added);
      NoNmapCounted(added);
    }
  }

  /** Bookkeeping for one step of `DrainTrace`: prefixes of the final queue and outputs. */
  lemma StepFacts(queue: seq<Task>, added: seq<Task>, final: seq<Task>,
                  outputs: seq<Option<ToolResult>>, output: Option<ToolResult>, finalOutputs: seq<Option<ToolResult>>, i: nat)
    requires i < |queue| && |outputs| == i
    requires |queue + added| <= |final| && final[..|queue + added|] == queue + added
    requires |finalOutputs| == |final| && finalOutputs[..i + 1] == outputs + [output]
    requires forall j :: |queue + added| <= j < |final| ==> final[j].tool == "gobuster"
    requires forall k :: 0 <= k < |added| ==> added[k].tool == "gobuster"
    ensures final[..|queue|] == queue && finalOutputs[..i] == outputs
    ensures final[i] == queue[i] && finalOutputs[i] == output
    ensures final[i..][1..] == final[i + 1..] && finalOutputs[i..][1..] == finalOutputs[i + 1..]
    ensures forall j :: |queue| <= j < |final| ==> final[j].tool == "gobuster"
  {
    assert final[..|queue|] == (queue + added)[..|queue|];
    assert finalOutputs[..i] == (outputs + [output])[..i];
    assert final[i] == (queue + added)[i];
    assert finalOutputs[i] == (outputs + [output])[i];
    forall j | |queue| <= j < |final| ensures final[j].tool == "gobuster" {
      if j < |queue + added| { assert final[j] == (queue + added)[j] == added[j - |queue|]; }
    }
  }

  /** A run over a queue with no nmap task left appends nothing. */
  lemma {:induction false} NoNmapNoGrowth(target: string, exec: Exec, queue: seq<Task>, i: nat,
                                          outputs: seq<Option<ToolResult>>, results: Results)
    requires i <= |queue| && |outputs| == i
    requires forall k :: i <= k < |queue| ==> queue[k].tool != "nmap"
    requires Drain(target, exec, queue, i, outputs, results).Returned?
    ensures Drain(target, exec, queue, i, outputs, results).value.queue == queue
    decreases |queue| - i
  {
    if i < |queue| {
      var output := exec(queue[i], i);
      assert queue + [] == queue;
      NoNmapNoGrowth(target, exec, queue, i + 1, outputs + [output.value], results[queue[i].tool := output.value]);
    }
  }

  /** A run whose every execution returns a dict finishes. */
  lemma {:induction false} DrainFinishes(target: string, exec: Exec, queue: seq<Task>, i: nat,
                                         outputs: seq<Option<ToolResult>>, results: Results)
    requires i <= |queue| && |outputs| == i
    requires forall t, j :: exec(t, j).Returned? && exec(t, j).value.Some?
    ensures Drain(target, exec, queue, i, outputs, results).Returned?
    decreases 3 * NmapCount(queue[i..]) + |queue| - i
  {
    if i < |queue| {
      var task := queue[i];
      var output := exec(task, i);
      var added := if task.tool == "nmap" then FollowUps(target, OutputText(output.value.value)) else [];
      StepMeasure(queue, i, added);
      DrainFinishes(target, exec, queue + added, i + 1, outputs + [output.value], results[task.tool := output.value]);
    }
  }

  /**
   * A finished run over the four scans of a base target holds those four tasks
   * followed by the follow-ups of the nmap output, so the queue never exceeds six
   * tasks; the results dict has exactly the four tools as keys.
   */
  lemma ScanRun(target: string, base: string, exec: Exec)
    requires Drain(target, exec, ScanTasks(base), 0, [], map[]).Returned?
    ensures var st := Drain(target, exec, ScanTasks(base), 0, [], map[]).value;
      4 <= |st.queue| == |st.outputs|
      && exec(ScanTasks(base)[0], 0) == Returned(st.outputs[0]) && st.outputs[0].Some?
      && st.queue == ScanTasks(base) + FollowUps(target, OutputText(st.outputs[0].value))
      && |st.queue| <= 6
      && st.results == Collect(map[], st.queue, st.outputs)
      && st.results.Keys == {"nmap", "gobuster", "ffuf", "sqlmap"}
  {
    var tasks := ScanTasks(base);
    ScanTasksOrder(base);
    var st := Drain(target, exec, tasks, 0, [], map[]).value;
    var output := exec(tasks[0], 0);
    assert tasks[0].tool == "nmap";
    assert output.Returned? && output.value.Some?;
    var added := FollowUps(target, OutputText(output.value.value));
    assert st.queue == tasks + added by {
      var queue' := tasks + added;
      StepMeasure(tasks, 0, added);
      assert [] + [output.value] == [output.value];
      assert Drain(target, exec, tasks, 0, [], map[]) == Drain(target, exec, queue', 1, [output.value], map[][tasks[0].tool := output.value]);
      assert forall k :: 1 <= k < |queue'| ==> queue'[k].tool != "nmap";
      NoNmapNoGrowth(target, exec, queue', 1, [output.value], map[][tasks[0].tool := output.value]);
    }
    assert exec(tasks[0], 0) == Returned(st.outputs[0]) && st.results == Collect(map[], st.queue, st.outputs) by {
      DrainTrace(target, exec, tasks, 0, [], map[]);
      assert st.queue[0..] == st.queue && st.outputs[0..] == st.outputs;
    }
    ScanTools(base, added);
  }

  /** The four scans followed by gobuster follow-ups name exactly the four tools. */
  lemma ScanTools(base: string, added: seq<Task>)
    requires forall k :: 0 <= k < |added| ==> added[k].tool == "gobuster"
    ensures Tools(ScanTasks(base) + added) == {"nmap", "gobuster", "ffuf", "sqlmap"}
  {
    var queue := ScanTasks(base) + added;
    ScanTasksOrder(base);
    assert queue[0].tool == "nmap" && queue[1].tool == "gobuster";
    assert queue[2].tool == "ffuf" && queue[3].tool == "sqlmap";
    forall k | 0 <= k < |queue| ensures queue[k].tool in {"nmap", "gobuster", "ffuf", "sqlmap"} {
      if k >= 4 { assert queue[k] == added[k - 4]; }
    }
  }

  /** Every `execute_task` call returns a dict when the retry count is positive. */
  lemma ExecutorAnswers(env: Env, probes: nat -> Probe)
    requires env.maxRetries > 0
    ensures forall t, j :: Executor(env, probes)(t, j).Returned? && Executor(env, probes)(t, j).value.Some?
  {
    forall t, j ensures Executor(env, probes)(t, j).Returned? && Executor(env, probes)(t, j).value.Some? {
      assert Executor(env, probes)(t, j) == ExecuteTask(t, env, probes(j));
    }
  }

  /**
   * `run_agent` on an in-scope target with a positive retry count returns a report
   * whose keys are exactly the four tools.
   */
  lemma InScopeReportKeys(target: string, scope: Scope, env: Env, probes: nat -> Probe)
    requires IsWithinScope(target, scope) && env.maxRetries > 0
    ensures AgentRun(target, scope, env, probes).Report?
    ensures AgentRun(target, scope, env, probes).results.Keys == {"nmap", "gobuster", "ffuf", "sqlmap"}
  {
    var exec := Executor(env, probes);
    var base := CheckTarget(target);
    InScopeTasksAre(target, scope);
    ExecutorAnswers(env, probes);
    DrainFinishes(target, exec, ScanTasks(base), 0, [], map[]);
    ScanRun(target, base, exec);
    RunOfScanTasks(target, scope, env, probes);
  }

  /** For an in-scope target the generated tasks are the four scans of the base target. */
  lemma InScopeTasksAre(target: string, scope: Scope)
    requires IsWithinScope(target, scope)
    ensures GenerateTasks(target, scope) == ScanTasks(CheckTarget(target))
  {
    CheckTargetSameScope(target, scope);
    InScopeTasks(target, scope);
  }

  /** For an in-scope target `run_agent` is the run over the four scans of the base target. */
  lemma RunOfScanTasks(target: string, scope: Scope, env: Env, probes: nat -> Probe)
    requires IsWithinScope(target, scope)
    ensures var run := Drain(target, Executor(env, probes), ScanTasks(CheckTarget(target)), 0, [], map[]);
      AgentRun(target, scope, env, probes) == if run.Raised? then Crashed(run.exception) else Report(run.value.results)
  {
    InScopeTasksAre(target, scope);
  }

  /** Without `open` in the nmap output nothing is appended. */
  lemma NoOpenNoFollowUps(target: string, text: string)
    requires !Contains(text, "open")
    ensures FollowUps(target, text) == []
  {
  }

  /** A result without an output key, as every failed run is, never adds work. */
  lemma FailedRunNoFollowUps(target: string, error: string)
    ensures FollowUps(target, OutputText(Failed(error))) == []
  {
    ShortNoContains("", "open");
  }

  /**
   * An nmap output reporting an open port 80 and no port 443: exactly one gobuster task
   * on `http://` + the raw target is appended as fifth task, it is run at position 4,
   * and its result is what the results dict holds under `gobuster`.
   */
  lemma Port80FollowUpReported(target: string, base: string, exec: Exec)
    requires forall t, j :: exec(t, j).Returned? && exec(t, j).value.Some?
    requires var nmap := exec(Task("nmap", base, None), 0).value.value;
      Contains(OutputText(nmap), "open") && Contains(OutputText(nmap), "80/tcp") && !Contains(OutputText(nmap), "443/tcp")
    ensures Drain(target, exec, ScanTasks(base), 0, [], map[]).Returned?
    ensures var st := Drain(target, exec, ScanTasks(base), 0, [], map[]).value;
      st.queue == ScanTasks(base) + [Task("gobuster", "http://" + target, None)]
      && "gobuster" in st.results
      && exec(Task("gobuster", "http://" + target, None), 4) == Returned(st.results["gobuster"])
  {
    var tasks := ScanTasks(base);
    var follow := Task("gobuster", "http://" + target, None);
    DrainFinishes(target, exec, tasks, 0, [], map[]);
    var st := Drain(target, exec, tasks, 0, [], map[]).value;
    assert st.queue == tasks + [follow] by {
      ScanRun(target, base, exec);
      assert tasks[0] == Task("nmap", base, None);
    }
    assert st.results == Collect(map[], st.queue, st.outputs)
      && exec(st.queue[4], 4) == Returned(st.outputs[4]) by {
      DrainTrace(target, exec, tasks, 0, [], map[]);
      assert st.queue[0..] == st.queue && st.outputs[0..] == st.outputs;
    }
    LastTaskWins(st.queue, st.outputs, tasks, follow);
  }

  /** The result of a last task whose tool no earlier task names is what the results dict holds under it. */
  lemma LastTaskWins(queue: seq<Task>, outputs: seq<Option<ToolResult>>, first: seq<Task>, last: Task)
    requires queue == first + [last] && |outputs| == |queue|
    ensures last.tool in Collect(map[], queue, outputs)
    ensures Collect(map[], queue, outputs)[last.tool] == outputs[|first|]
  {
    assert queue[|first|] == last;
    CollectLastWins(map[], queue, outputs, |first|);
  }

  /** With `MAX_RETRIES` at 0 or below nmap returns `None`, and reading its output raises. */
  lemma NoRetriesCrash(target: string, scope: Scope, env: Env, probes: nat -> Probe)
    requires IsWithinScope(target, scope) && env.maxRetries <= 0
    ensures AgentRun(target, scope, env, probes) == Crashed("AttributeError")
  {
    var base := CheckTarget(target);
    RunOfScanTasks(target, scope, env, probes);
    NmapWithoutRetries(base, env, probes(0));
    NmapNoneCrashes(target, base, Executor(env, probes));
  }

  /** An nmap result of `None` ends the run with `AttributeError`. */
  lemma NmapNoneCrashes(target: string, base: string, exec: Exec)
    requires exec(Task("nmap", base, None), 0) == Returned(None)
    ensures Drain(target, exec, ScanTasks(base), 0, [], map[]) == Raised("AttributeError")
  {
    ScanTasksOrder(base);
  }

  /** With `MAX_RETRIES` at 0 or below `run_nmap` returns `None`. */
  lemma NmapWithoutRetries(base: string, env: Env, probe: Probe)
    requires env.maxRetries <= 0
    ensures ExecuteTask(Task("nmap", base, None), env, probe) == Returned(None)
  {
  }
}
