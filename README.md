# Agentic cybersecurity workflow: a Dafny model of the scan pipeline

This project models the core of a reconnaissance pipeline and proves properties of it.
The pipeline takes a target domain or IP and first checks it against an allow-list of
domains and IP entries. It then plans four scans of the target: an nmap port scan, a
gobuster directory brute-force, an ffuf fuzzing run and an sqlmap injection test. It
runs the tools one after another as shell commands, retrying each failed command. When
the nmap output reports open web ports, it appends gobuster follow-up scans to the
running queue, and it collects every tool's result in a dict keyed by tool name. A
dashboard cleans the target typed by the user and runs the tools of a Basic, Full or
Custom scan. It then formats the results for display.

The model has one module per source file, plus two support modules:

| module | file | models |
|---|---|---|
| `Wrappers` | wrappers.dfy | `Option` (Python's `None`), `Outcome` (a value or an escaping exception) |
| `PyStr` | py_str.dfy | the Python `str` operations the code uses: `split`, `join`, `replace`, `strip`, `lower`, `startswith`, `endswith`, `in` |
| `TaskManager` | task_manager.dfy | agent/task_manager.py: `is_within_scope`, `generate_tasks` |
| `TaskExecutor` | task_executor.dfy | agent/task_executor.py: `run_command` and its retry loop, the four runners, their command lines, the ffuf target rewriting and result summary |
| `AgentGraph` | agent_graph.dfy | agent/agent_graph.py: `execute_task`, `run_agent` with its growing queue and results dict |
| `Dashboard` | dashboard.dfy | streamlit_app.py: `clean_target`, `selected_tools`, the tool loop, `format_scan_results`, the Start Scan action |

How the outside world enters the model:

- A result dict `{"status", "output", "error"}` is a `ToolResult`. A key the code does
  not set is `None`.
- Each shell command is run as a sequence of attempts `attempts: nat -> Attempt`. An
  attempt exits with 0 and some stdout, exits non-zero and some stderr, times out, or
  raises.
- `probes(j)` is what the task at position `j` of a run meets:
  - the attempts of its command;
  - the timestamp that names ffuf's output file;
  - what reading that file gives: no file, an unreadable file, or the parsed entries.
- `MAX_RETRIES` and the wordlist path are fields of `Env`.
- The allow-lists are a `Scope` value.
- An exception that escapes is `Raised(name)`.

The main behaviours proved:

- **Scope.** The decision is stated in one place (the contract of `IsWithinScope`). Scheme, path, query,
  case and surrounding blanks are ignored, and subdomains of a listed domain are in
  scope. A name that merely ends with a listed domain is not in scope.
- **Retries.** The retry loop returns the first successful attempt. If every attempt
  fails, it returns the failure of the last one.
- **ffuf.** The target always gets a scheme and a trailing `/`. The summary splits back
  into six lines per entry.
- **Queue.** The `run_agent` loop terminates although it appends to its own queue, and
  it runs at most six tasks. The report of an in-scope run has exactly the four tool
  names as keys, the last result of a tool wins, and a port-80 follow-up replaces
  gobuster's first result.
- **Dashboard selection.** The dashboard runs exactly the selected tools in a fixed
  order and shows each tool's own result.

Behaviours of the code as written that the lemmas pin down:

- `is_within_scope` takes the text after the LAST `://`. So
  `http://evil.com/?r=https://google.com` is judged by `google.com` (`LaterSchemeWins`).
- `is_within_scope` compares IPs by string equality, so the default CIDR entries
  (`192.168.0.0/24`) never match (`CidrEntriesNeverMatch`).
- `mail.google.com` is in scope when `google.com` is listed (`SubdomainOfListedDomain`).
  tests/test_agent.py:17 expects the opposite. This model follows the code.
- Gobuster collapses one doubled `https://` per occurrence, so a tripled scheme stays
  doubled (`GobusterTripledScheme`).
- With `MAX_RETRIES` at 0 or below, `run_command` returns `None` and `run_agent` raises
  `AttributeError` at nmap (`NoRetriesCrash`). The dashboard then raises `TypeError`,
  or `AttributeError` when ffuf comes first (`NoRetriesStopsFirstTool`).
- `clean_target` can still start with a scheme (`CleanTargetMayKeepScheme`).
- The dashboard computes `protocol://target` but passes the task unchanged. So the web
  tools run on the bare host and the protocol plays no part (`StartScan`,
  `RunsWithoutProtocol`).
- The dashboard never calls the scope check: `StartScan` has no scope input. Its
  rebinding of `ALLOWED_DOMAINS`/`ALLOWED_IPS` at streamlit_app.py:31-32 only changes
  the dashboard's own names.
- `format_scan_results` shows every dict, a failed one included, as "Success" with an
  empty output (`FailedShownAsSuccess`). Its "Failed" branch needs a `None` result,
  which the dashboard's loop never stores (`SweepValues`).

## Model

| member | source | states |
|---|---|---|
| PyStr.Split | agent/task_manager.py:17 | `str.split` always yields at least one piece |
| PyStr.SplitJoin | agent/task_manager.py:17 | joining the pieces of a split with the separator gives back the text |
| PyStr.SplitJoinInverse | agent/task_executor.py:172-173 | splitting at a one-character separator the join of pieces free of that character gives back the pieces |
| PyStr.ReplaceIsJoinSplit | agent/task_executor.py:100 | `s.replace(p, r)` equals `r.join(s.split(p))`, Python's left-to-right non-overlapping replacement |
| PyStr.Strip | agent/task_manager.py:23 | `strip()` leaves neither end blank |
| PyStr.StripUnpadded | agent/task_manager.py:23 | `strip()` leaves text without blank ends unchanged |
| PyStr.StripPadded | agent/task_manager.py:23 | `strip()` ignores any run of blanks added at either end |
| PyStr.StripLowerCommute | agent/task_manager.py:23 | stripping and lower-casing commute |
| PyStr.LowerIdempotent | agent/task_manager.py:23 | lower-casing twice is lower-casing once |
| PyStr.SplitWithout | agent/task_manager.py:17 | text without the separator splits into itself alone |
| PyStr.ReplaceWithout | agent/task_executor.py:100 | `replace` leaves text without the pattern unchanged |
| TaskManager.NormalizeHost | agent/task_manager.py:15-23 | the host compared against the allow-lists has no `/` or `?`, no blank at either end, and is lower case |
| TaskManager.AllowedDomains | agent/task_manager.py:26 | one entry per domain entry, each the stripped, lower-cased entry, so that stripping or lower-casing it again changes nothing |
| TaskManager.AllowedIps | agent/task_manager.py:27 | one entry per IP entry, each the stripped entry, so that stripping it again changes nothing |
| TaskManager.AnyDomainCovers | agent/task_manager.py:38-40 | the loop over the domains returns True exactly when some domain is the host or a dot-suffix of it |
| TaskManager.IsWithinScope | agent/task_manager.py:33-44 | in scope iff the normalised host equals or ends with "." plus some normalised domain entry, or equals some stripped IP entry |
| TaskManager.LastSchemeDecides | agent/task_manager.py:16-17 | with a scheme, only the text after the last `://` decides |
| TaskManager.LaterSchemeWins | agent/task_manager.py:16-17 | a URL that carries a second `://` is judged by the host after it |
| TaskManager.PlainHostNormalization | agent/task_manager.py:20-23 | a target without `/` and `?` is only stripped and lower-cased |
| TaskManager.BareHostIsNormal | agent/task_manager.py:20-23 | a bare lower-case host is its own normal form |
| TaskManager.SchemeAndPathIgnored | agent/task_manager.py:11-23 | `http://` or `https://` before a host and a path or query after it do not change the host or the decision |
| TaskManager.TextAfterLastSeparator | agent/task_manager.py:17 | `split('://')[-1]` is the text after the last separator |
| TaskManager.TextAfterScheme | agent/task_manager.py:17 | after a single scheme, `split('://')[-1]` is the rest of the URL |
| TaskManager.FirstPieceIsHost | agent/task_manager.py:20 | cutting at the first `/` and then at the first `?` leaves the host |
| TaskManager.CaseAndSpaceIgnored | agent/task_manager.py:23 | blanks around the target and letter case do not change the decision |
| TaskManager.ListedDomainInScope | agent/task_manager.py:34-35 | a target whose host is a listed domain is in scope |
| TaskManager.SubdomainInScope | agent/task_manager.py:38-40 | a host ending with "." plus a listed domain is in scope |
| TaskManager.SubdomainOfListedDomain | agent/task_manager.py:38-40 | every bare subdomain of a listed domain, `mail.google.com` of `google.com` among them, is in scope |
| TaskManager.CoveredBareHostInScope | agent/task_manager.py:38-40 | a bare host covered by a listed domain is in scope |
| TaskManager.SuffixWithoutDotOutOfScope | agent/task_manager.py:38-44 | when it is the only domain entry, a host that ends with that domain without a dot before it, such as `notgoogle.com` for `google.com`, is out of scope unless an IP entry names it |
| TaskManager.NotCoveredWithoutDot | agent/task_manager.py:39 | a domain does not cover a longer name unless a dot precedes it |
| TaskManager.DotBeforeSuffix | agent/task_manager.py:39 | a host ending with "." plus a domain has a dot just before the domain |
| TaskManager.CidrEntriesNeverMatch | agent/task_manager.py:27-35 | IP entries written as CIDR ranges never put a target in scope |
| TaskManager.IpExactMatch | agent/task_manager.py:27-35 | with no domains, in scope iff the host equals some stripped IP entry |
| TaskManager.GenerateTasks | agent/task_manager.py:61-68 | no tasks exactly when the target is out of scope |
| TaskManager.ScanTasks | agent/task_manager.py:71-89 | an in-scope target gets four tasks |
| TaskManager.GeneratedTasksShape | agent/task_manager.py:62-89 | the four tasks in order; the base target is the target itself without a scheme, else the host part, free of `/` and `://` |
| TaskManager.CheckTargetSameScope | agent/task_manager.py:62-67 | cutting the target before the check changes neither the host nor the decision |
| TaskManager.SameHostSameScope | agent/task_manager.py:23-44 | two targets with the same normalised host get the same decision |
| TaskManager.CheckTarget | agent/task_manager.py:61-63 | the cut target of a URL holds no `/` and no `://` |
| TaskExecutor.RetryFrom | agent/task_executor.py:35-73 | each attempt ends in a success dict with output and no error, or a failed dict with error and no output |
| TaskExecutor.SuccessFrom | agent/task_executor.py:36-48 | the first attempt that exits with 0 gives the success dict with its stdout |
| TaskExecutor.FailureFrom | agent/task_executor.py:49-73 | when no attempt exits with 0, the failure text of the last attempt is returned |
| TaskExecutor.FirstSuccessWins | agent/task_executor.py:33-48 | `run_command` returns the stdout of the first successful attempt |
| TaskExecutor.AllAttemptsFail | agent/task_executor.py:49-73 | `run_command` returns the failure of the last attempt when all fail |
| TaskExecutor.RunCommand | agent/task_executor.py:33-73 | the retry loop: `None` with no attempt when retries <= 0; else 1 to retries attempts, stopping at the first success, failing only after exactly `retries` attempts |
| TaskExecutor.FfufTarget | agent/task_executor.py:110-120 | the fuzz target always starts with a scheme and ends with `/` |
| TaskExecutor.FfufTargetUnchanged | agent/task_executor.py:110-120 | a target that already has a scheme, a trailing `/` and no doubled scheme is left as it is |
| TaskExecutor.FfufTargetOfHost | agent/task_executor.py:111-120 | a bare host becomes `https://` plus host plus `/` |
| TaskExecutor.NoDoubledScheme | agent/task_executor.py:111-116 | prefixing a slash-free host with `https://` creates no doubled scheme |
| TaskExecutor.CollapsingKeepsScheme | agent/task_executor.py:114-116 | collapsing doubled schemes keeps the scheme a target starts with |
| TaskExecutor.SchemeSurvivesReplace | agent/task_executor.py:114-116 | a leading scheme survives either collapse |
| TaskExecutor.GobusterCollapse | agent/task_executor.py:99-100 | a doubled `https://` at the front is collapsed, and a target without one is unchanged |
| TaskExecutor.GobusterTripledScheme | agent/task_executor.py:99-100 | a tripled `https://` is only collapsed to a doubled one |
| TaskExecutor.Blocks | agent/task_executor.py:154-170 | one block per entry |
| TaskExecutor.FormatEntries | agent/task_executor.py:154-170 | the loop builds one block per entry, in entry order |
| TaskExecutor.FormatSummary | agent/task_executor.py:154-175 | the summary is "No results found" exactly when there are no entries |
| TaskExecutor.FfufSummary | agent/task_executor.py:172-175 | the summary is "No results found" exactly when there are no entries: with entries it starts with `Found: ` |
| TaskExecutor.SummaryLines | agent/task_executor.py:163-170 | six lines per entry |
| TaskExecutor.EntryBlockIsJoin | agent/task_executor.py:163-170 | an entry's block is its six lines joined by newlines |
| TaskExecutor.SummaryIsJoinOfLines | agent/task_executor.py:172-173 | the summary is all entries' lines joined by newlines |
| TaskExecutor.SummaryLinesSingle | agent/task_executor.py:163-170 | with single-line fields no summary line holds a newline |
| TaskExecutor.SummaryReadsBack | agent/task_executor.py:172-173 | splitting the summary at newlines gives back exactly six lines per entry |
| TaskExecutor.SummaryLineOfEntry | agent/task_executor.py:163-170 | line 6k+j of the summary is line j of entry k |
| TaskExecutor.RunFfuf | agent/task_executor.py:145-185 | raises exactly when retries <= 0, and then `AttributeError` (`None` has no `get`); otherwise a dict with the command result's status and error |
| TaskExecutor.FfufResultShape | agent/task_executor.py:145-185 | a readable output file replaces only `output` with the summary, keeping status and error; otherwise the command result is returned |
| AgentGraph.Dispatch | agent/agent_graph.py:26-38 | each known tool runs its own command line on the task's target; any other name gives a failed dict naming it |
| AgentGraph.ProtocolIgnored | agent/agent_graph.py:22-34 | `execute_task` reads only `tool` and `target` |
| AgentGraph.ExecuteTask | agent/agent_graph.py:26-38 | only an ffuf task can raise, and then `AttributeError`; with a positive retry count every task, known tool or not, returns a dict |
| AgentGraph.NmapTimeoutNamesTarget | agent/task_executor.py:58-65 | when every nmap attempt times out, the error names the full nmap command |
| AgentGraph.FollowUps | agent/agent_graph.py:71-76 | at most two follow-up tasks, all gobuster |
| AgentGraph.StepMeasure | agent/agent_graph.py:66-76 | each step of the growing loop decreases 3 x (nmap tasks ahead) + (tasks ahead), so the loop ends |
| AgentGraph.NmapCountAppend | agent/agent_graph.py:74-76 | appending adds the nmap counts |
| AgentGraph.NoNmapCounted | agent/agent_graph.py:74-76 | appended gobuster tasks add no nmap task |
| AgentGraph.RunAgent | agent/agent_graph.py:56-76 | `run_agent` is the scope error, the report of the run, or the exception that ended it |
| AgentGraph.QueueFollowUps | agent/agent_graph.py:71-76 | the appends leave the queue extended by exactly the follow-up tasks |
| AgentGraph.Drain | agent/agent_graph.py:66-76 | a finished run only appends to the queue, keeps the outputs so far, and has one output per task of the final queue |
| AgentGraph.RunTasks | agent/agent_graph.py:63-76 | the loop over the growing list computes the run's results or its exception |
| AgentGraph.OutOfScopeRunsNothing | agent/agent_graph.py:56-61 | the scope error comes back exactly when the target is out of scope |
| AgentGraph.Collect | agent/agent_graph.py:66-68 | storing results adds exactly the tools' names as keys |
| AgentGraph.CollectLastWins | agent/agent_graph.py:68 | under each tool the last stored result wins |
| AgentGraph.CollectUntouched | agent/agent_graph.py:68 | a key no task names keeps its value |
| AgentGraph.DrainTrace | agent/agent_graph.py:63-76 | a finished run ran each task once, in order, and kept the queue as its prefix; its results are those outputs stored in order; it appended only gobuster tasks |
| AgentGraph.DrainBound | agent/agent_graph.py:66-76 | a finished run appends at most two tasks for each nmap task still ahead of it |
| AgentGraph.NoNmapNoGrowth | agent/agent_graph.py:71 | without nmap tasks ahead the queue does not grow |
| AgentGraph.DrainFinishes | agent/agent_graph.py:66-76 | when every task returns a dict the run finishes |
| AgentGraph.ScanRun | agent/agent_graph.py:63-76 | a run of the four scans queues them plus nmap's follow-ups, at most six tasks, and reports exactly the four tool names |
| AgentGraph.ExecutorAnswers | agent/agent_graph.py:26-38 | with a positive retry count every position's task returns a dict |
| AgentGraph.InScopeReportKeys | agent/agent_graph.py:56-76 | an in-scope target with a positive retry count gets a report with exactly nmap, gobuster, ffuf and sqlmap |
| AgentGraph.InScopeTasksAre | agent/task_manager.py:62-89 | an in-scope target's tasks are the four scans of its cut target |
| AgentGraph.RunOfScanTasks | agent/agent_graph.py:56-66 | an in-scope run is the run of those four scans |
| AgentGraph.NoOpenNoFollowUps | agent/agent_graph.py:71 | nmap output without "open" adds nothing |
| AgentGraph.FailedRunNoFollowUps | agent/agent_graph.py:71 | a failed nmap dict, which has no output, adds nothing |
| AgentGraph.Port80FollowUpReported | agent/agent_graph.py:71-74 | with only 80/tcp open, one `http://` gobuster task is appended and its result replaces gobuster's first one |
| AgentGraph.NoRetriesCrash | agent/agent_graph.py:66-71 | with retries <= 0 an in-scope run raises `AttributeError` |
| AgentGraph.NmapNoneCrashes | agent/agent_graph.py:71 | a `None` nmap result raises `AttributeError` at `output.get` |
| AgentGraph.NmapWithoutRetries | agent/task_executor.py:33-36 | with retries <= 0 nmap returns `None` |
| Dashboard.CleanTarget | streamlit_app.py:105 | the cleaned target has no blank at either end |
| Dashboard.CleanTargetOfHost | streamlit_app.py:105 | a slash-free host comes out as typed, whether bare, after `http://` or after `https://` |
| Dashboard.CleanTargetMayKeepScheme | streamlit_app.py:105 | for every slash-free `x`, `hthttp://tp://` + `x` is cleaned to `http://` + `x`: removing the inner `http://` joins a new scheme, which survives |
| Dashboard.SelectTools | streamlit_app.py:109-133 | the tasks are the wanted tools in the fixed order, each on the clean target; only the web tools carry the protocol |
| Dashboard.BasicAndFullSelections | streamlit_app.py:120-133 | Basic is nmap then gobuster; Full is all four tools in order |
| Dashboard.KeepMembers | streamlit_app.py:110-119 | a tool is selected iff it is one of the four and wanted by the scan type or its checkbox |
| Dashboard.KeepDistinct | streamlit_app.py:109-133 | no tool is selected twice |
| Dashboard.WantedToolsByType | streamlit_app.py:110-133 | the selected set for Basic and for Full, and a Custom scan selects nothing iff no box is ticked |
| Dashboard.SelectedTools | streamlit_app.py:109-133 | the selected tasks' tools are the wanted tools |
| Dashboard.RunSelected | streamlit_app.py:135-147 | the loop's results dict, or the exception that stopped it |
| Dashboard.RaisedStays | streamlit_app.py:138-147 | once the loop has raised, later tasks change nothing |
| Dashboard.SweepCompletes | streamlit_app.py:144-147 | the loop finishes iff every task returns a dict |
| Dashboard.SweepPrefix | streamlit_app.py:138-147 | a loop that got through its first `n` tasks has exactly their tools as keys |
| Dashboard.SweepValues | streamlit_app.py:144-147 | with distinct tools each key holds the dict that tool's run returned |
| Dashboard.SweepAllValues | streamlit_app.py:138-147 | the same for every selected tool at once |
| Dashboard.NoErrorKey | streamlit_app.py:157-163 | results never hold an `error` key, so the scope-error branch is dead |
| Dashboard.NoRetriesStopsFirstTool | streamlit_app.py:144-145 | with retries <= 0 the first tool raises: `AttributeError` for ffuf, `TypeError` otherwise |
| Dashboard.RunsWithoutProtocol | streamlit_app.py:138-144 | each task runs exactly as the same tool on the bare clean target without a protocol |
| Dashboard.Description | streamlit_app.py:70-75 | a non-empty description exactly for the four tools |
| Dashboard.FormatScanResults | streamlit_app.py:58-92 | one entry per key: `None` gives "Failed" with the not-installed text and no output; a dict gives "Success" with its output and error, "" when absent; each carries its tool's description |
| Dashboard.FailedShownAsSuccess | streamlit_app.py:85-91 | a failed dict is shown as "Success" with empty output and its error text |
| Dashboard.SucceededShown | streamlit_app.py:85-91 | a successful dict is shown with its stdout and an empty error |
| Dashboard.Presents | streamlit_app.py:79-91 | an entry says "Failed", and lacks an output, iff the result is `None` |
| Dashboard.ShownResults | streamlit_app.py:153 | formatting a finished loop presents each tool's own dict as "Success" |
| Dashboard.ShownScan | streamlit_app.py:135-153 | a finished scan shows exactly the wanted tools, each presenting its own run on the clean target |
| Dashboard.StartScan | streamlit_app.py:99-153 | empty target refused; with retries > 0, exactly the wanted tools shown, each as "Success" with its own run on the bare clean target; with retries <= 0 and a tool selected, the scan raises |

## Left out

- Logging (`logging.*`) and the `logs`/`reports` directory creation: side effects with no bearing on results.
- `get_wordlist_path` (agent/task_executor.py:21-31) creates a file. The model passes the wordlist path in `Env`.
- `check_environment` (agent/task_executor.py:75-88) is never called by the core.
- config.py is not part of this model. `MAX_RETRIES` is a field of `Env`, the allow-lists a `Scope` parameter.
- main.py is not part of this model. It only calls `run_agent`.
- `subprocess.run`, the five-minute timeout and the exception texts: each attempt's outcome is an input (`Attempt`), the text of an exception a string.
- `datetime.now()` is an input (`Probe.stamp`) for ffuf's output file name. The report file names (agent/agent_graph.py:79-80, streamlit_app.py:177-178) are left out with the report writing.
- Reading, parsing and deleting ffuf's JSON file: its outcome is an input (`FfufFile`). JSON values other than strings are taken as their display text.
- An exception from `os.remove` after the summary was written, which would keep the summary: not modelled.
- Writing the JSON report in `run_agent` (agent/agent_graph.py:78-86), and the download button: file output. A failure to open the report file is not modelled.
- The Streamlit widgets, spinner, progress bar, status texts, tabs and the install hint: UI. Their inputs are the parameters of `StartScan`. A Custom scan with no box ticked and retries > 0 ends in `ScanShown(map[])`, where the source calls `st.tabs([])` (streamlit_app.py:163), which Streamlit rejects; that failure is not modelled.
- `PyStr.Lower` lower-cases ASCII letters only, where Python lower-cases all of Unicode.
- Dict insertion order: results are `map`s. The order of the dashboard's tabs is not modelled.
- `execute_task` ignores any key other than `tool` and `target`. A task without a `target` key, `None` in Python, does not occur in the core and is not modelled.
