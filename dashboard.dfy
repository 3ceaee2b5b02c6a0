/**
 * The data logic of the scan dashboard (streamlit_app.py): the target clean-up, the
 * list of tools a scan type selects, the loop that runs them one by one through
 * `execute_task`, and the formatting of the results dict for display. Widgets, the
 * progress bar and the report download are left out; what the user picked arrives
 * as parameters.
 */
module Dashboard {
  import opened Wrappers
  import opened PyStr
  import opened TaskManager
  import opened TaskExecutor
  import opened AgentGraph

  // ---------------------------------------------------------------------------
  // Cleaning the target
  // ---------------------------------------------------------------------------

  /** `target.replace('http://', '').replace('https://', '').strip()` */
  function CleanTarget(target: string): (clean: string)
    ensures clean == [] || (!IsSpace(clean[0]) && !IsSpace(clean[|clean| - 1]))
  {
    Strip(Replace(Replace(target, "http://", ""), "https://", ""))
  }

  /** A text with no `/` holds no scheme, so neither replacement touches it. */
  lemma NoSlashUnreplaced(h: string, pat: string)
    requires '/' !in h && (pat == "http://" || pat == "https://")
    ensures Replace(h, pat, "") == h
  {
    if Contains(h, pat) {
      ContainsHasChar(h, pat, |pat| - 1);
      assert false;
    }
    ReplaceWithout(h, pat, "");
  }

  /**
   * A host without `/` and without surrounding blanks comes out of the clean-up as it
   * is, whether it was typed bare, after `http://` or after `https://`.
   */
  lemma CleanTargetOfHost(h: string)
    requires '/' !in h && (h == [] || (!IsSpace(h[0]) && !IsSpace(h[|h| - 1])))
    ensures CleanTarget(h) == h
    ensures CleanTarget("http://" + h) == h
    ensures CleanTarget("https://" + h) == h
  {
    CleanBareHost(h);
    CleanHttpHost(h);
    CleanHttpsHost(h);
  }

  lemma CleanBareHost(h: string)
    requires '/' !in h && (h == [] || (!IsSpace(h[0]) && !IsSpace(h[|h| - 1])))
    ensures CleanTarget(h) == h
  {
    NoSlashUnreplaced(h, "http://");
    NoSlashUnreplaced(h, "https://");
    StripUnpadded(h);
  }

  lemma CleanHttpHost(h: string)
    requires '/' !in h && (h == [] || (!IsSpace(h[0]) && !IsSpace(h[|h| - 1])))
    ensures CleanTarget("http://" + h) == h
  {
    ReplaceAtFront("http://", h, "");
    NoSlashUnreplaced(h, "http://");
    assert Replace("http://" + h, "http://", "") == h;
    CleanBareHost(h);
  }

  /** The `http://` pass finds nothing in `https://` + h; the `https://` pass strips the front. */
  lemma CleanHttpsHost(h: string)
    requires '/' !in h && (h == [] || (!IsSpace(h[0]) && !IsSpace(h[|h| - 1])))
    ensures CleanTarget("https://" + h) == h
  {
    HttpPassSkipsHttps(h);
    ReplaceAtFront("https://", h, "");
    NoSlashUnreplaced(h, "https://");
    assert Replace("https://" + h, "https://", "") == h;
    StripUnpadded(h);
  }

  lemma HttpPassSkipsHttps(h: string)
    requires '/' !in h
    ensures Replace("https://" + h, "http://", "") == "https://" + h
  {
    var s := "https://" + h;
    assert s[..7] != "http://" by { assert s[4] == 's'; }
    assert s[1..] == "ttps://" + h;
    ReplaceSkip("ttps://", h, "http://", "");
    NoSlashUnreplaced(h, "http://");
    assert Replace(s, "http://", "") == [s[0]] + "ttps://" + h;
    assert [s[0]] + "ttps://" + h == s;
  }

  /** Text made of `tp://` and a slash-free tail holds no scheme to remove. */
  lemma TailUnreplaced(x: string, pat: string)
    requires '/' !in x && (pat == "http://" || pat == "https://")
    ensures Replace("tp://" + x, pat, "") == "tp://" + x
  {
    ReplaceSkip("tp://", x, pat, "");
    NoSlashUnreplaced(x, pat);
  }

  /** Inside `thttp://tp://` + x the `http://` pass removes the scheme after the first letter. */
  lemma InnerSchemeRemoved(x: string)
    requires '/' !in x
    ensures Replace("thttp://tp://" + x, "http://", "") == "ttp://" + x
  {
    ReplaceSkip("t", "http://" + ("tp://" + x), "http://", "");
    ReplaceAtFront("http://", "tp://" + x, "");
    TailUnreplaced(x, "http://");
    assert "t" + ("http://" + ("tp://" + x)) == "thttp://tp://" + x;
    assert "t" + ("" + ("tp://" + x)) == "ttp://" + x;
  }

  /** The `http://` pass on `hthttp://tp://` + x removes the inner scheme and joins the halves. */
  lemma FirstPassJoins(x: string)
    requires '/' !in x
    ensures Replace("hthttp://tp://" + x, "http://", "") == "http://" + x
  {
    var s := "hthttp://tp://" + x;
    assert s[..7] != "http://" by { assert s[2] == 'h'; }
    assert s[1..] == "thttp://tp://" + x;
    InnerSchemeRemoved(x);
    assert [s[0]] + ("ttp://" + x) == "http://" + x;
  }

  /** The `https://` pass leaves `http://` + x alone. */
  lemma SecondPassKeeps(x: string)
    requires '/' !in x
    ensures Replace("http://" + x, "https://", "") == "http://" + x
  {
    var s := "http://" + x;
    if |s| >= 8 {
      assert s[..8] != "https://" by { assert s[4] == ':'; }
      assert s[1..] == "ttp://" + x;
      NoSlashUnreplaced(x, "https://");
      ReplaceSkip("ttp://", x, "https://", "");
      assert [s[0]] + ("ttp://" + x) == s;
    }
  }

  /**
   * Each prefix is removed in one left-to-right pass, so a scheme can survive the
   * clean-up: removing `http://` from the middle of `hthttp://tp://` joins its halves
   * into a new `http://`.
   */
  lemma CleanTargetMayKeepScheme(x: string)
    requires '/' !in x && (x == [] || !IsSpace(x[|x| - 1]))
    ensures CleanTarget("hthttp://tp://" + x) == "http://" + x
    ensures HasScheme(CleanTarget("hthttp://tp://" + x))
  {
    var kept := "http://" + x;
    FirstPassJoins(x);
    SecondPassKeeps(x);
    assert kept[0] == 'h' && kept[|kept| - 1] == (if x == [] then '/' else x[|x| - 1]);
    StripUnpadded(kept);
    CleanTargetSteps("hthttp://tp://" + x, kept, kept, kept);
    StartsWithAppend("http://", x);
  }

  /** `CleanTarget` as its two passes and the strip. */
  lemma CleanTargetSteps(target: string, once: string, twice: string, clean: string)
    requires Replace(target, "http://", "") == once
    requires Replace(once, "https://", "") == twice
    requires Strip(twice) == clean
    ensures CleanTarget(target) == clean
  {
  }

  // ---------------------------------------------------------------------------
  // Selecting the tools
  // ---------------------------------------------------------------------------

  /** The scan types offered in the sidebar. */
  datatype ScanType = Basic | Full | Custom

  /** The four checkboxes of a custom scan. */
  datatype ToolChoice = ToolChoice(nmap: bool, gobuster: bool, ffuf: bool, sqlmap: bool)

  /** The tools in the order every selection lists them. */
  const AllTools: seq<string> := ["nmap", "gobuster", "ffuf", "sqlmap"]

  /** Whether a scan of this type runs `tool`. */
  predicate Wanted(scanType: ScanType, choice: ToolChoice, tool: string) {
    match scanType
    case Basic => tool == "nmap" || tool == "gobuster"
    case Full => KnownTool(tool)
    case Custom =>
      (tool == "nmap" && choice.nmap) || (tool == "gobuster" && choice.gobuster)
      || (tool == "ffuf" && choice.ffuf) || (tool == "sqlmap" && choice.sqlmap)
  }

  /** The wanted tools of `tools`, in their order. */
  function Keep(tools: seq<string>, scanType: ScanType, choice: ToolChoice): seq<string>
    decreases |tools|
  {
    if tools == [] then []
    else (if Wanted(scanType, choice, tools[0]) then [tools[0]] else []) + Keep(tools[1..], scanType, choice)
  }

  /** The task dict built for one tool: nmap has no `protocol` key, the web tools do. */
  function ToolTask(tool: string, clean: string, protocol: string): Task {
    if tool == "nmap" then Task("nmap", clean, None) else Task(tool, clean, Some(protocol))
  }

  /** The tool names of a task list, in order. */
  function Names(tasks: seq<Task>): (names: seq<string>)
    ensures |names| == |tasks| && forall k :: 0 <= k < |tasks| ==> names[k] == tasks[k].tool
  {
    seq(|tasks|, k requires 0 <= k < |tasks| => tasks[k].tool)
  }

  /** No element occurs twice. */
  predicate Distinct(s: seq<string>) {
    forall j, k :: 0 <= j < k < |s| ==> s[j] != s[k]
  }

  /**
   * `selected_tools`: the custom scan appends a task per ticked box, the basic and full
   * scans list theirs outright. Either way the tasks are the wanted tools in the fixed
   * order, each on the cleaned target, the web tools carrying the chosen protocol.
   */
  method SelectTools(scanType: ScanType, choice: ToolChoice, clean: string, protocol: string)
    returns (tasks: seq<Task>)
    ensures Names(tasks) == Keep(AllTools, scanType, choice)
    ensures forall k :: 0 <= k < |tasks| ==> tasks[k] == ToolTask(tasks[k].tool, clean, protocol)
  {
    var nmap, gobuster := Task("nmap", clean, None), Task("gobuster", clean, Some(protocol));
    var ffuf, sqlmap := Task("ffuf", clean, Some(protocol)), Task("sqlmap", clean, Some(protocol));
    if scanType == Custom {
      tasks := [];
      if choice.nmap {
        tasks := tasks + [nmap];
      }
      assert tasks == TaskIf(choice.nmap, nmap);
      ghost var before := tasks;
      if choice.gobuster {
        tasks := tasks + [gobuster];
      }
      assert tasks == before + TaskIf(choice.gobuster, gobuster);
      before := tasks;
      if choice.ffuf {
        tasks := tasks + [ffuf];
      }
      assert tasks == before + TaskIf(choice.ffuf, ffuf);
      before := tasks;
      if choice.sqlmap {
        tasks := tasks + [sqlmap];
      }
      assert tasks == before + TaskIf(choice.sqlmap, sqlmap);
      CustomTasks(choice, clean, protocol);
    } else if scanType == Basic {
      tasks := [nmap, gobuster];
      ListedTasks(nmap, gobuster, ffuf, sqlmap, clean, protocol);
      BasicAndFullSelections(choice);
    } else {
      tasks := [nmap, gobuster, ffuf, sqlmap];
      ListedTasks(nmap, gobuster, ffuf, sqlmap, clean, protocol);
      BasicAndFullSelections(choice);
    }
  }

  /** The fixed lists of the basic and full scans name their tasks' tools and keep `ToolTask` form. */
  lemma ListedTasks(a: Task, b: Task, c: Task, d: Task, clean: string, protocol: string)
    requires a == ToolTask(a.tool, clean, protocol) && b == ToolTask(b.tool, clean, protocol)
    requires c == ToolTask(c.tool, clean, protocol) && d == ToolTask(d.tool, clean, protocol)
    ensures Names([a, b]) == [a.tool, b.tool] && Names([a, b, c, d]) == [a.tool, b.tool, c.tool, d.tool]
    ensures forall k :: 0 <= k < |[a, b]| ==> [a, b][k] == ToolTask([a, b][k].tool, clean, protocol)
    ensures forall k :: 0 <= k < |[a, b, c, d]| ==> [a, b, c, d][k] == ToolTask([a, b, c, d][k].tool, clean, protocol)
  {
  }

  /** The task of a ticked box, or nothing. */
  function TaskIf(ticked: bool, task: Task): seq<Task> {
    if ticked then [task] else []
  }

  /** The tool of a ticked box, or nothing. */
  function Ticked(ticked: bool, tool: string): seq<string> {
    if ticked then [tool] else []
  }

  /** The tasks a custom scan builds carry the ticked tools in the fixed order, each in `ToolTask` form. */
  lemma CustomTasks(choice: ToolChoice, clean: string, protocol: string)
    ensures var tasks := TaskIf(choice.nmap, Task("nmap", clean, None))
                       + TaskIf(choice.gobuster, Task("gobuster", clean, Some(protocol)))
                       + TaskIf(choice.ffuf, Task("ffuf", clean, Some(protocol)))
                       + TaskIf(choice.sqlmap, Task("sqlmap", clean, Some(protocol)));
      Names(tasks) == Keep(AllTools, Custom, choice)
      && forall k :: 0 <= k < |tasks| ==> tasks[k] == ToolTask(tasks[k].tool, clean, protocol)
  {
    var nmap, gobuster := Task("nmap", clean, None), Task("gobuster", clean, Some(protocol));
    var ffuf, sqlmap := Task("ffuf", clean, Some(protocol)), Task("sqlmap", clean, Some(protocol));
    FourTicked(choice.nmap, nmap, choice.gobuster, gobuster, choice.ffuf, ffuf, choice.sqlmap, sqlmap, clean, protocol);
    CustomWanted(choice);
    KeepAllTools(Custom, choice);
  }

  /** Four optional tasks in `ToolTask` form: their names are the ticked names, and they keep that form. */
  lemma FourTicked(ta: bool, a: Task, tb: bool, b: Task, tc: bool, c: Task, td: bool, d: Task, clean: string, protocol: string)
    requires a == ToolTask(a.tool, clean, protocol) && b == ToolTask(b.tool, clean, protocol)
    requires c == ToolTask(c.tool, clean, protocol) && d == ToolTask(d.tool, clean, protocol)
    ensures var tasks := TaskIf(ta, a) + TaskIf(tb, b) + TaskIf(tc, c) + TaskIf(td, d);
      Names(tasks) == Ticked(ta, a.tool) + Ticked(tb, b.tool) + Ticked(tc, c.tool) + Ticked(td, d.tool)
      && forall k :: 0 <= k < |tasks| ==> tasks[k] == ToolTask(tasks[k].tool, clean, protocol)
  {
    var p, q, r, t := TaskIf(ta, a), TaskIf(tb, b), TaskIf(tc, c), TaskIf(td, d);
    NamesTaskIf(ta, a);
    NamesTaskIf(tb, b);
    NamesTaskIf(tc, c);
    NamesTaskIf(td, d);
    NamesAppend(p, q);
    NamesAppend(p + q, r);
    NamesAppend(p + q + r, t);
    InToolTaskForm(p, q, clean, protocol);
    InToolTaskForm(p + q, r, clean, protocol);
    InToolTaskForm(p + q + r, t, clean, protocol);
  }

  /** A custom scan wants exactly the ticked tools. */
  lemma CustomWanted(choice: ToolChoice)
    ensures Wanted(Custom, choice, "nmap") == choice.nmap && Wanted(Custom, choice, "gobuster") == choice.gobuster
    ensures Wanted(Custom, choice, "ffuf") == choice.ffuf && Wanted(Custom, choice, "sqlmap") == choice.sqlmap
  {
  }

  /** The name of a ticked box's task, or nothing. */
  lemma NamesTaskIf(ticked: bool, task: Task)
    ensures Names(TaskIf(ticked, task)) == Ticked(ticked, task.tool)
  {
  }

  /** The names of two task lists put together. */
  lemma NamesAppend(a: seq<Task>, b: seq<Task>)
    ensures Names(a + b) == Names(a) + Names(b)
  {
  }

  /** Two lists of tasks in `ToolTask` form put together stay in that form. */
  lemma InToolTaskForm(a: seq<Task>, b: seq<Task>, clean: string, protocol: string)
    requires forall k :: 0 <= k < |a| ==> a[k] == ToolTask(a[k].tool, clean, protocol)
    requires forall k :: 0 <= k < |b| ==> b[k] == ToolTask(b[k].tool, clean, protocol)
    ensures forall k :: 0 <= k < |a + b| ==> (a + b)[k] == ToolTask((a + b)[k].tool, clean, protocol)
  {
  }

  /** `Keep` over the four tools, written out per scan type. */
  lemma KeepAllTools(scanType: ScanType, choice: ToolChoice)
    ensures Keep(AllTools, scanType, choice) ==
      (if Wanted(scanType, choice, "nmap") then ["nmap"] else [])
      + (if Wanted(scanType, choice, "gobuster") then ["gobuster"] else [])
      + (if Wanted(scanType, choice, "ffuf") then ["ffuf"] else [])
      + (if Wanted(scanType, choice, "sqlmap") then ["sqlmap"] else [])
  {
    var n := if Wanted(scanType, choice, "nmap") then ["nmap"] else [];
    var g := if Wanted(scanType, choice, "gobuster") then ["gobuster"] else [];
    var f := if Wanted(scanType, choice, "ffuf") then ["ffuf"] else [];
    var q := if Wanted(scanType, choice, "sqlmap") then ["sqlmap"] else [];
    assert Keep(["sqlmap"], scanType, choice) == q + [] by { assert ["sqlmap"][1..] == []; }
    assert Keep(["ffuf", "sqlmap"], scanType, choice) == f + q by { assert ["ffuf", "sqlmap"][1..] == ["sqlmap"]; }
    assert Keep(["gobuster", "ffuf", "sqlmap"], scanType, choice) == g + (f + q) by {
      assert ["gobuster", "ffuf", "sqlmap"][1..] == ["ffuf", "sqlmap"];
    }
    assert Keep(AllTools, scanType, choice) == n + (g + (f + q)) by {
      assert AllTools[1..] == ["gobuster", "ffuf", "sqlmap"];
    }
    Assoc4(n, g, f, q);
  }

  lemma Assoc4(a: seq<string>, b: seq<string>, c: seq<string>, d: seq<string>)
    ensures a + (b + (c + d)) == a + b + c + d
  {
  }

  /** A basic scan runs nmap then gobuster; a full scan runs all four tools in order. */
  lemma BasicAndFullSelections(choice: ToolChoice)
    ensures Keep(AllTools, Basic, choice) == ["nmap", "gobuster"]
    ensures Keep(AllTools, Full, choice) == AllTools
  {
    KeepAllTools(Basic, choice);
    KeepAllTools(Full, choice);
  }

  /** The kept tools are exactly the wanted members of the list. */
  lemma {:induction false} KeepMembers(tools: seq<string>, scanType: ScanType, choice: ToolChoice, tool: string)
    ensures tool in Keep(tools, scanType, choice) <==> tool in tools && Wanted(scanType, choice, tool)
    decreases |tools|
  {
    if tools != [] {
      KeepMembers(tools[1..], scanType, choice, tool);
      assert tool in tools <==> tool == tools[0] || tool in tools[1..] by {
        assert tools == [tools[0]] + tools[1..];
      }
    }
  }

  /** Keeping some tools of a list without repeats gives a list without repeats. */
  lemma {:induction false} KeepDistinct(tools: seq<string>, scanType: ScanType, choice: ToolChoice)
    requires Distinct(tools)
    ensures Distinct(Keep(tools, scanType, choice))
    decreases |tools|
  {
    if tools != [] {
      var rest := Keep(tools[1..], scanType, choice);
      KeepDistinct(tools[1..], scanType, choice);
      KeepMembers(tools[1..], scanType, choice, tools[0]);
      assert tools[0] !in tools[1..];
      var kept := Keep(tools, scanType, choice);
      if Wanted(scanType, choice, tools[0]) {
        assert kept == [tools[0]] + rest;
        forall j, k | 0 <= j < k < |kept| ensures kept[j] != kept[k] {
          if j == 0 { assert kept[k] == rest[k - 1]; }
          else { assert kept[j] == rest[j - 1] && kept[k] == rest[k - 1]; }
        }
      } else {
        assert kept == rest;
      }
    }
  }

  /** The tools a scan of this type runs, as a set. */
  function WantedTools(scanType: ScanType, choice: ToolChoice): set<string> {
    set tool | tool in AllTools && Wanted(scanType, choice, tool)
  }

  /** The selections of the basic and full scans, and of a custom scan with nothing ticked. */
  lemma WantedToolsByType(choice: ToolChoice)
    ensures WantedTools(Basic, choice) == {"nmap", "gobuster"}
    ensures WantedTools(Full, choice) == {"nmap", "gobuster", "ffuf", "sqlmap"}
    ensures WantedTools(Custom, choice) == {} <==> !(choice.nmap || choice.gobuster || choice.ffuf || choice.sqlmap)
  {
    assert "nmap" in AllTools && "gobuster" in AllTools && "ffuf" in AllTools && "sqlmap" in AllTools;
    if choice.nmap { assert "nmap" in WantedTools(Custom, choice); }
    if choice.gobuster { assert "gobuster" in WantedTools(Custom, choice); }
    if choice.ffuf { assert "ffuf" in WantedTools(Custom, choice); }
    if choice.sqlmap { assert "sqlmap" in WantedTools(Custom, choice); }
  }

  // ---------------------------------------------------------------------------
  // Running the selected tools
  // ---------------------------------------------------------------------------

  /**
   * The dashboard's loop after its first `n` tasks: each task ran, its `status` was
   * read (a `None` result raises `TypeError` there) and its result was stored under
   * its tool. An exception from a runner ends the loop as well. A loop that got through
   * has exactly the tool names of those tasks as keys.
   */
  function SweepPrefix(exec: Exec, tasks: seq<Task>, n: nat): (sweep: Outcome<Results>)
    requires n <= |tasks|
    ensures sweep.Returned? ==> sweep.value.Keys == Tools(tasks[..n])
  {
    if n == 0 then Returned(map[])
    else
      match SweepPrefix(exec, tasks, n - 1)
      case Raised(e) => Raised(e)
      case Returned(results) =>
        var result := exec(tasks[n - 1], n - 1);
        if result.Raised? then Raised(result.exception)
        else if result.value.None? then Raised("TypeError")
        else
          ToolsOfLongerPrefix(tasks, n);
          Returned(results[tasks[n - 1].tool := result.value])
  }

  /** Once the loop has raised, it stays raised with the same exception. */
  lemma {:induction false} RaisedStays(exec: Exec, tasks: seq<Task>, n: nat, m: nat)
    requires n <= m <= |tasks| && SweepPrefix(exec, tasks, n).Raised?
    ensures SweepPrefix(exec, tasks, m) == SweepPrefix(exec, tasks, n)
    decreases m - n
  {
    if n < m {
      RaisedStays(exec, tasks, n, m - 1);
    }
  }

  /**
   * The loop over `selected_tools`: each task is passed to `execute_task` as it was
   * built (the `protocol://target` string the loop computes is never used), and each
   * result is stored under its tool.
   */
  method RunSelected(tasks: seq<Task>, env: Env, probes: nat -> Probe) returns (outcome: Outcome<Results>)
    ensures outcome == SweepPrefix(Executor(env, probes), tasks, |tasks|)
  {
    ghost var exec := Executor(env, probes);
    var results: Results := map[];
    for i := 0 to |tasks|
      invariant SweepPrefix(exec, tasks, i) == Returned(results)
    {
      var result := ExecuteTask(tasks[i], env, probes(i));
      assert result == exec(tasks[i], i);
      if result.Raised? {
        RaisedStays(exec, tasks, i + 1, |tasks|);
        return Raised(result.exception);
      }
      if result.value.None? {
        RaisedStays(exec, tasks, i + 1, |tasks|);
        return Raised("TypeError");
      }
      results := results[tasks[i].tool := result.value];
    }
    return Returned(results);
  }

  /** The loop gets past its first `n` tasks exactly when each of them returns a dict. */
  lemma {:induction false} SweepCompletes(exec: Exec, tasks: seq<Task>, n: nat)
    requires n <= |tasks|
    ensures SweepPrefix(exec, tasks, n).Returned? <==>
      forall j :: 0 <= j < n ==> exec(tasks[j], j).Returned? && exec(tasks[j], j).value.Some?
  {
    if n > 0 {
      SweepCompletes(exec, tasks, n - 1);
      if SweepPrefix(exec, tasks, n - 1).Raised? {
        RaisedStays(exec, tasks, n - 1, n);
      }
    }
  }

  /** The tools of the first `n` tasks: those of the first `n - 1` and the tool of task `n - 1`. */
  lemma ToolsOfLongerPrefix(tasks: seq<Task>, n: nat)
    requires 0 < n <= |tasks|
    ensures Tools(tasks[..n]) == Tools(tasks[..n - 1]) + {tasks[n - 1].tool}
  {
    forall t | t in Tools(tasks[..n]) ensures t in Tools(tasks[..n - 1]) + {tasks[n - 1].tool} {
      var k :| 0 <= k < n && tasks[..n][k].tool == t;
      if k < n - 1 { assert tasks[..n - 1][k].tool == t; }
    }
    forall t | t in Tools(tasks[..n - 1]) ensures t in Tools(tasks[..n]) {
      var k :| 0 <= k < n - 1 && tasks[..n - 1][k].tool == t;
      assert tasks[..n][k].tool == t;
    }
    assert tasks[..n][n - 1] == tasks[n - 1];
  }

  /**
   * When the tools are all different, after its first `n` tasks the results dict holds
   * under each task's tool the dict that task's run returned.
   */
  lemma {:induction false} SweepValues(exec: Exec, tasks: seq<Task>, n: nat, j: nat)
    requires n <= |tasks| && Distinct(Names(tasks)) && SweepPrefix(exec, tasks, n).Returned?
    requires j < n
    ensures exec(tasks[j], j).Returned? && exec(tasks[j], j).value.Some?
    ensures tasks[j].tool in SweepPrefix(exec, tasks, n).value
    ensures SweepPrefix(exec, tasks, n).value[tasks[j].tool] == exec(tasks[j], j).value
  {
    if j < n - 1 {
      SweepValues(exec, tasks, n - 1, j);
      assert Names(tasks)[j] != Names(tasks)[n - 1];
    }
  }

  /**
   * A finished run over the four tools has no `error` key, so the dashboard's
   * scope-error branch is never taken.
   */
  lemma NoErrorKey(exec: Exec, tasks: seq<Task>)
    requires SweepPrefix(exec, tasks, |tasks|).Returned?
    requires forall k :: 0 <= k < |tasks| ==> KnownTool(tasks[k].tool)
    ensures "error" !in SweepPrefix(exec, tasks, |tasks|).value
  {
    assert tasks[..|tasks|] == tasks;
  }

  /**
   * With `MAX_RETRIES` at 0 or below the first tool already stops the loop: `run_ffuf`
   * raises `AttributeError`, and any other runner's `None` raises `TypeError`.
   */
  lemma NoRetriesStopsFirstTool(tasks: seq<Task>, env: Env, probes: nat -> Probe)
    requires env.maxRetries <= 0 && |tasks| > 0 && KnownTool(tasks[0].tool)
    ensures SweepPrefix(Executor(env, probes), tasks, |tasks|)
      == Raised(if tasks[0].tool == "ffuf" then "AttributeError" else "TypeError")
  {
    var exec := Executor(env, probes);
    NoRetriesOutcome(tasks[0], env, probes(0));
    assert exec(tasks[0], 0) == ExecuteTask(tasks[0], env, probes(0));
    FirstStepRaises(exec, tasks, if tasks[0].tool == "ffuf" then "AttributeError" else "TypeError");
  }

  /** Without retries a known tool gives `None`, and ffuf raises on it. */
  lemma NoRetriesOutcome(task: Task, env: Env, probe: Probe)
    requires env.maxRetries <= 0 && KnownTool(task.tool)
    ensures ExecuteTask(task, env, probe) == if task.tool == "ffuf" then Raised("AttributeError") else Returned(None)
  {
  }

  /** A loop whose first task raises, or returns `None`, raises that same exception. */
  lemma FirstStepRaises(exec: Exec, tasks: seq<Task>, e: string)
    requires |tasks| > 0
    requires exec(tasks[0], 0) == Raised(e) || (e == "TypeError" && exec(tasks[0], 0) == Returned(None))
    ensures SweepPrefix(exec, tasks, |tasks|) == Raised(e)
  {
    assert SweepPrefix(exec, tasks, 1) == Raised(e);
    RaisedStays(exec, tasks, 1, |tasks|);
  }

  // ---------------------------------------------------------------------------
  // Formatting the results
  // ---------------------------------------------------------------------------

  /** The `error` text of a tool whose result is `None`. */
  const NotInstalled := "Tool execution failed or not installed"

  /** One entry of `format_scan_results`' dict; a missing `output` key is `None`. */
  datatype Formatted = Formatted(status: string, output: Option<string>, error: string, description: string)

  const NmapDescription := "Nmap is a network scanning tool used to discover hosts and services on a computer network."
  const GobusterDescription := "Gobuster is a tool used to brute-force URIs (directories and files) in web sites."
  const FfufDescription := "FFuF (Fuzz Faster U Fool) is a web fuzzer written in Go, used to discover hidden files and directories."
  const SqlmapDescription := "SQLMap is an open-source penetration testing tool that automates the process of detecting and exploiting SQL injection flaws."

  /** `descriptions.get(tool, "")`: a description for each of the four tools, none for another name. */
  function Description(tool: string): (d: string)
    ensures d != "" <==> KnownTool(tool)
  {
    if tool == "nmap" then NmapDescription
    else if tool == "gobuster" then GobusterDescription
    else if tool == "ffuf" then FfufDescription
    else if tool == "sqlmap" then SqlmapDescription
    else ""
  }

  /**
   * `entry` presents `result` of `tool`: the tool's description; a missing result as
   * "Failed" with the not-installed text and no output; any dict as "Success" with its
   * `output` and `error`, each "" when the key is absent.
   */
  predicate Presents(tool: string, result: Option<ToolResult>, entry: Formatted): (shown: bool)
    ensures shown ==> (entry.status == "Failed" <==> result.None?)
    ensures shown ==> (entry.output.None? <==> result.None?)
  {
    entry.description == Description(tool)
    && match result
       case None => entry.status == "Failed" && entry.output == None && entry.error == NotInstalled
       case Some(r) => entry.status == "Success" && entry.output == Some(r.output.GetOr("")) && entry.error == r.error.GetOr("")
  }

  /** `format_scan_results(results)`: one entry per key, presenting that key's result. */
  method FormatScanResults(results: Results) returns (formatted: map<string, Formatted>)
    ensures formatted.Keys == results.Keys
    ensures forall tool :: tool in results ==> Presents(tool, results[tool], formatted[tool])
  {
    formatted := map[];
    var todo := results.Keys;
    while todo != {}
      invariant todo <= results.Keys
      invariant formatted.Keys == results.Keys - todo
      invariant forall tool :: tool in formatted ==> Presents(tool, results[tool], formatted[tool])
      decreases todo
    {
      var tool :| tool in todo;
      var result := results[tool];
      if result.None? {
        formatted := formatted[tool := Formatted("Failed", None, NotInstalled, Description(tool))];
      } else {
        var output := result.value.output.GetOr("");
        var error := result.value.error.GetOr("");
        formatted := formatted[tool := Formatted("Success", Some(output), error, Description(tool))];
      }
      todo := todo - {tool};
    }
  }

  /** A failed dict is still presented as "Success": its output is empty and its error is shown as the error. */
  lemma FailedShownAsSuccess(tool: string, error: string, entry: Formatted)
    requires Presents(tool, Some(Failed(error)), entry)
    ensures entry.status == "Success" && entry.output == Some("") && entry.error == error
  {
  }

  /** A successful dict is presented with its stdout as output and an empty error. */
  lemma SucceededShown(tool: string, stdout: string, entry: Formatted)
    requires Presents(tool, Some(Succeeded(stdout)), entry)
    ensures entry.status == "Success" && entry.output == Some(stdout) && entry.error == ""
  {
  }

  // ---------------------------------------------------------------------------
  // Start Scan
  // ---------------------------------------------------------------------------

  /** What pressing "Start Scan" ends in. */
  datatype View = EmptyTarget | ScanRaised(exception: string) | ScanShown(formatted: map<string, Formatted>)

  /**
   * The "Start Scan" action: an empty target is refused; otherwise the cleaned target
   * is scanned with the selected tools, without any scope check, and the formatted
   * results are shown. With a positive retry count every selected tool is shown,
   * each as the presentation of its own run on the bare cleaned target, the
   * selected protocol playing no part; with none the first tool stops the scan.
   */
  method StartScan(target: string, scanType: ScanType, choice: ToolChoice, protocol: string,
                   env: Env, probes: nat -> Probe) returns (view: View)
    ensures target == [] <==> view == EmptyTarget
    ensures target != [] && env.maxRetries > 0 ==>
      view.ScanShown? && view.formatted.Keys == WantedTools(scanType, choice)
      && var chosen := Keep(AllTools, scanType, choice);
         forall j :: 0 <= j < |chosen| ==>
           chosen[j] in view.formatted
           && ExecuteTask(Task(chosen[j], CleanTarget(target), None), env, probes(j)).Returned?
           && Presents(chosen[j], ExecuteTask(Task(chosen[j], CleanTarget(target), None), env, probes(j)).value,
                       view.formatted[chosen[j]])
           && view.formatted[chosen[j]].status == "Success"
    ensures target != [] && env.maxRetries <= 0 && WantedTools(scanType, choice) != {} ==> view.ScanRaised?
  {
    if target == [] {
      return EmptyTarget;
    }
    var clean := CleanTarget(target);
    var tasks := SelectTools(scanType, choice, clean, protocol);
    var outcome := RunSelected(tasks, env, probes);
    ghost var exec := Executor(env, probes);
    if outcome.Raised? {
      view := ScanRaised(outcome.exception);
      if env.maxRetries > 0 {
        ExecutorAnswers(env, probes);
        SweepCompletes(exec, tasks, |tasks|);
        assert false;
      }
      return;
    }
    var formatted := FormatScanResults(outcome.value);
    view := ScanShown(formatted);
    if env.maxRetries <= 0 && WantedTools(scanType, choice) != {} {
      SelectionStopsWithoutRetries(tasks, scanType, choice, env, probes);
      assert false;
    }
    ShownScan(tasks, scanType, choice, clean, protocol, env, probes, |tasks|, outcome.value, formatted);
  }

  /** Without retries a selection that wants some tool raises at its first task. */
  lemma SelectionStopsWithoutRetries(tasks: seq<Task>, scanType: ScanType, choice: ToolChoice, env: Env, probes: nat -> Probe)
    requires Names(tasks) == Keep(AllTools, scanType, choice)
    requires env.maxRetries <= 0 && WantedTools(scanType, choice) != {}
    ensures SweepPrefix(Executor(env, probes), tasks, |tasks|).Raised?
  {
    var tool :| tool in WantedTools(scanType, choice);
    KeepMembers(AllTools, scanType, choice, tool);
    assert |tasks| > 0 && Names(tasks)[0] in Keep(AllTools, scanType, choice);
    KeepMembers(AllTools, scanType, choice, tasks[0].tool);
    NoRetriesStopsFirstTool(tasks, env, probes);
  }

  /**
   * A scan whose loop finished shows one entry per wanted tool, each presenting as
   * "Success" the dict returned by that tool's run on the cleaned target.
   */
  lemma ShownScan(tasks: seq<Task>, scanType: ScanType, choice: ToolChoice, clean: string, protocol: string,
                  env: Env, probes: nat -> Probe, n: nat, results: Results, formatted: map<string, Formatted>)
    requires Names(tasks) == Keep(AllTools, scanType, choice)
    requires forall k :: 0 <= k < |tasks| ==> tasks[k] == ToolTask(tasks[k].tool, clean, protocol)
    requires n == |tasks| && SweepPrefix(Executor(env, probes), tasks, n) == Returned(results)
    requires formatted.Keys == results.Keys
    requires forall tool :: tool in results ==> Presents(tool, results[tool], formatted[tool])
    ensures formatted.Keys == WantedTools(scanType, choice)
    ensures var chosen := Keep(AllTools, scanType, choice);
      forall j :: 0 <= j < |chosen| ==>
        chosen[j] in formatted
        && ExecuteTask(Task(chosen[j], clean, None), env, probes(j)).Returned?
        && Presents(chosen[j], ExecuteTask(Task(chosen[j], clean, None), env, probes(j)).value, formatted[chosen[j]])
        && formatted[chosen[j]].status == "Success"
  {
    var exec := Executor(env, probes);
    ShownKeys(exec, tasks, scanType, choice, n, results);
    ShownTasks(exec, tasks, scanType, choice, n, results, formatted);
    RunsWithoutProtocol(tasks, clean, protocol, env, probes);
    ShownByName(exec, tasks, Keep(AllTools, scanType, choice), clean, env, probes, formatted);
  }

  /** A finished loop over the selected tasks has the wanted tools as keys. */
  lemma ShownKeys(exec: Exec, tasks: seq<Task>, scanType: ScanType, choice: ToolChoice, n: nat, results: Results)
    requires Names(tasks) == Keep(AllTools, scanType, choice)
    requires n == |tasks| && SweepPrefix(exec, tasks, n) == Returned(results)
    ensures results.Keys == WantedTools(scanType, choice)
  {
    assert tasks[..n] == tasks;
    SelectedTools(tasks, scanType, choice);
  }

  /** Each selected task's own dict is presented under its tool, as "Success". */
  lemma ShownTasks(exec: Exec, tasks: seq<Task>, scanType: ScanType, choice: ToolChoice,
                   n: nat, results: Results, formatted: map<string, Formatted>)
    requires Names(tasks) == Keep(AllTools, scanType, choice)
    requires n == |tasks| && SweepPrefix(exec, tasks, n) == Returned(results)
    requires formatted.Keys == results.Keys
    requires forall tool :: tool in results ==> Presents(tool, results[tool], formatted[tool])
    ensures forall j :: 0 <= j < |tasks| ==>
      tasks[j].tool in formatted && exec(tasks[j], j).Returned?
      && Presents(tasks[j].tool, exec(tasks[j], j).value, formatted[tasks[j].tool])
      && formatted[tasks[j].tool].status == "Success"
  {
    KeepDistinct(AllTools, scanType, choice);
    SweepAllValues(exec, tasks, n, results);
    ShownResults(exec, tasks, results, formatted);
  }

  /** The facts about each task, restated through the tool names the tasks carry. */
  lemma ShownByName(exec: Exec, tasks: seq<Task>, chosen: seq<string>, clean: string,
                    env: Env, probes: nat -> Probe, formatted: map<string, Formatted>)
    requires Names(tasks) == chosen
    requires forall j :: 0 <= j < |tasks| ==> exec(tasks[j], j) == ExecuteTask(Task(tasks[j].tool, clean, None), env, probes(j))
    requires forall j :: 0 <= j < |tasks| ==>
      tasks[j].tool in formatted && exec(tasks[j], j).Returned?
      && Presents(tasks[j].tool, exec(tasks[j], j).value, formatted[tasks[j].tool])
      && formatted[tasks[j].tool].status == "Success"
    ensures forall j :: 0 <= j < |chosen| ==>
      chosen[j] in formatted
      && ExecuteTask(Task(chosen[j], clean, None), env, probes(j)).Returned?
      && Presents(chosen[j], ExecuteTask(Task(chosen[j], clean, None), env, probes(j)).value, formatted[chosen[j]])
      && formatted[chosen[j]].status == "Success"
  {
    forall j | 0 <= j < |chosen|
      ensures chosen[j] in formatted
      ensures ExecuteTask(Task(chosen[j], clean, None), env, probes(j)).Returned?
      ensures Presents(chosen[j], ExecuteTask(Task(chosen[j], clean, None), env, probes(j)).value, formatted[chosen[j]])
      ensures formatted[chosen[j]].status == "Success"
    {
      assert chosen[j] == tasks[j].tool;
    }
  }

  /** When the tools are all different, a finished loop over `n` tasks holds each task's own dict under its tool. */
  lemma SweepAllValues(exec: Exec, tasks: seq<Task>, n: nat, results: Results)
    requires n == |tasks| && Distinct(Names(tasks)) && SweepPrefix(exec, tasks, n) == Returned(results)
    ensures forall j :: 0 <= j < |tasks| ==>
      exec(tasks[j], j).Returned? && exec(tasks[j], j).value.Some?
      && tasks[j].tool in results && results[tasks[j].tool] == exec(tasks[j], j).value
  {
    forall j | 0 <= j < n
      ensures exec(tasks[j], j).Returned? && exec(tasks[j], j).value.Some?
      ensures tasks[j].tool in results && results[tasks[j].tool] == exec(tasks[j], j).value
    {
      SweepValues(exec, tasks, n, j);
    }
  }

  /** Formatting such results presents each task's own dict under its tool, as "Success". */
  lemma ShownResults(exec: Exec, tasks: seq<Task>, results: Results, formatted: map<string, Formatted>)
    requires forall j :: 0 <= j < |tasks| ==>
      exec(tasks[j], j).Returned? && exec(tasks[j], j).value.Some?
      && tasks[j].tool in results && results[tasks[j].tool] == exec(tasks[j], j).value
    requires formatted.Keys == results.Keys
    requires forall tool :: tool in results ==> Presents(tool, results[tool], formatted[tool])
    ensures forall j :: 0 <= j < |tasks| ==>
      tasks[j].tool in formatted && exec(tasks[j], j).Returned?
      && Presents(tasks[j].tool, exec(tasks[j], j).value, formatted[tasks[j].tool])
      && formatted[tasks[j].tool].status == "Success"
  {
  }

  /** The tools of the selected tasks are the wanted tools. */
  lemma SelectedTools(tasks: seq<Task>, scanType: ScanType, choice: ToolChoice)
    requires Names(tasks) == Keep(AllTools, scanType, choice)
    ensures Tools(tasks) == WantedTools(scanType, choice)
  {
    forall tool ensures tool in Tools(tasks) <==> tool in WantedTools(scanType, choice) {
      KeepMembers(AllTools, scanType, choice, tool);
      if tool in Tools(tasks) {
        var k :| 0 <= k < |tasks| && tasks[k].tool == tool;
        assert Names(tasks)[k] == tool;
      }
      if tool in Names(tasks) {
        var k :| 0 <= k < |tasks| && Names(tasks)[k] == tool;
        assert tasks[k].tool == tool;
      }
    }
  }

  /** Each selected task runs as the same tool on the same target without a protocol. */
  lemma RunsWithoutProtocol(tasks: seq<Task>, clean: string, protocol: string, env: Env, probes: nat -> Probe)
    requires forall k :: 0 <= k < |tasks| ==> tasks[k] == ToolTask(tasks[k].tool, clean, protocol)
    ensures forall j :: 0 <= j < |tasks| ==>
      Executor(env, probes)(tasks[j], j) == ExecuteTask(Task(tasks[j].tool, clean, None), env, probes(j))
  {
    forall j | 0 <= j < |tasks|
      ensures Executor(env, probes)(tasks[j], j) == ExecuteTask(Task(tasks[j].tool, clean, None), env, probes(j))
    {
      ProtocolIgnored(Task(tasks[j].tool, clean, None), tasks[j].protocol, env, probes(j));
    }
  }
}
