/**
 * Running the scanners (agent/task_executor.py): the retrying command runner and the
 * pure parts of the four adapters — their command lines, the target rewriting of
 * gobuster and ffuf, and the summary ffuf's result file is turned into.
 *
 * The process itself is an oracle: attempt `k` of a command comes out as `attempts(k)`.
 */
module TaskExecutor {
  import opened Wrappers
  import opened PyStr

  /** What one `subprocess.run` call came to. */
  datatype Attempt =
    | ExitZero(stdout: string)   // return code 0
    | NonZero(stderr: string)    // any other return code
    | Timeout                    // `subprocess.TimeoutExpired` after 300 seconds
    | Fault(message: string)     // any other exception, as `str(e)`

  /**
   * The dict a runner returns: `status` is always there, `output` and `error` only
   * when set (`None` here is a missing key).
   */
  datatype ToolResult = ToolResult(status: string, output: Option<string>, error: Option<string>)

  /** `{"status": "success", "output": stdout}` */
  function Succeeded(stdout: string): ToolResult {
    ToolResult("success", Some(stdout), None)
  }

  /** `{"status": "failed", "error": error}` */
  function Failed(error: string): ToolResult {
    ToolResult("failed", None, Some(error))
  }

  /** The error message of a failed attempt, by kind of failure. */
  function FailureText(command: string, a: Attempt): string
    requires !a.ExitZero?
  {
    match a
    case NonZero(stderr) => "Command failed: " + stderr
    case Timeout => "Command timed out after 300 seconds: " + command
    case Fault(message) => "Error executing command " + command + ": " + message
  }

  /** What is left of `run_command` when attempt `k` (counted from 0) is about to start. */
  function RetryFrom(command: string, retries: int, attempts: nat -> Attempt, k: nat): (r: ToolResult)
    requires k < retries
    ensures (r.status == "success" && r.output.Some? && r.error.None?)
         || (r.status == "failed" && r.output.None? && r.error.Some?)
    decreases retries - k
  {
    match attempts(k)
    case ExitZero(stdout) => Succeeded(stdout)
    case _ =>
      if k + 1 < retries then RetryFrom(command, retries, attempts, k + 1)
      else Failed(FailureText(command, attempts(k)))
  }

  /**
   * `run_command(command, retries)` as a value: `None` when the loop body never runs,
   * otherwise the result of the attempts from the first one on.
   */
  function CommandResult(command: string, retries: int, attempts: nat -> Attempt): Option<ToolResult> {
    if retries <= 0 then None else Some(RetryFrom(command, retries, attempts, 0))
  }

  /** From attempt `k` on, the first attempt `j < retries` that exits with 0 gives the result. */
  lemma {:induction false} SuccessFrom(command: string, retries: int, attempts: nat -> Attempt, k: nat, j: nat)
    requires k <= j < retries && attempts(j).ExitZero?
    requires forall i :: k <= i < j ==> !attempts(i).ExitZero?
    ensures RetryFrom(command, retries, attempts, k) == Succeeded(attempts(j).stdout)
    decreases j - k
  {
    if k < j {
      assert !attempts(k).ExitZero?;
      SuccessFrom(command, retries, attempts, k + 1, j);
    }
  }

  /** From attempt `k` on, if every attempt fails the last one's error is returned. */
  lemma {:induction false} FailureFrom(command: string, retries: int, attempts: nat -> Attempt, k: nat)
    requires k < retries
    requires forall i :: k <= i < retries ==> !attempts(i).ExitZero?
    ensures RetryFrom(command, retries, attempts, k) == Failed(FailureText(command, attempts(retries - 1)))
    decreases retries - k
  {
    assert !attempts(k).ExitZero?;
    if k + 1 < retries {
      FailureFrom(command, retries, attempts, k + 1);
    }
  }

  /** The first attempt that exits with 0 wins, and its stdout is the output whatever it holds. */
  lemma FirstSuccessWins(command: string, retries: int, attempts: nat -> Attempt, j: nat)
    requires j < retries && attempts(j).ExitZero?
    requires forall i :: 0 <= i < j ==> !attempts(i).ExitZero?
    ensures CommandResult(command, retries, attempts) == Some(Succeeded(attempts(j).stdout))
  {
    SuccessFrom(command, retries, attempts, 0, j);
  }

  /** When all `retries` attempts fail, the result carries the last attempt's error. */
  lemma AllAttemptsFail(command: string, retries: int, attempts: nat -> Attempt)
    requires retries > 0
    requires forall i :: 0 <= i < retries ==> !attempts(i).ExitZero?
    ensures CommandResult(command, retries, attempts) == Some(Failed(FailureText(command, attempts(retries - 1))))
  {
    FailureFrom(command, retries, attempts, 0);
  }

  /**
   * `run_command(command, retries)`: attempts are made one after the other until one
   * exits with 0 or `retries` of them have failed. `tried` counts the attempts made.
   */
  method RunCommand(command: string, retries: int, attempts: nat -> Attempt)
    returns (result: Option<ToolResult>, ghost tried: nat)
    ensures result == CommandResult(command, retries, attempts)
    ensures retries <= 0 ==> result == None && tried == 0
    ensures retries > 0 ==> 1 <= tried <= retries && result.Some?
    ensures forall i :: 0 <= i < tried - 1 ==> !attempts(i).ExitZero?
    ensures 0 < tried && attempts(tried - 1).ExitZero? ==> result == Some(Succeeded(attempts(tried - 1).stdout))
    ensures 0 < tried && !attempts(tried - 1).ExitZero? ==>
      tried == retries && result == Some(Failed(FailureText(command, attempts(tried - 1))))
  {
    var attempt := 0;
    while attempt < retries
      invariant 0 <= attempt < retries || (attempt == 0 && retries <= 0)
      invariant forall i :: 0 <= i < attempt ==> !attempts(i).ExitZero?
      invariant retries > 0 ==> CommandResult(command, retries, attempts) == Some(RetryFrom(command, retries, attempts, attempt))
      decreases retries - attempt
    {
      var outcome := attempts(attempt);
      if outcome.ExitZero? {
        return Some(Succeeded(outcome.stdout)), attempt + 1;
      }
      var errorMessage := FailureText(command, outcome);
      attempt := attempt + 1;
      if attempt >= retries {
        return Some(Failed(errorMessage)), attempt;
      }
    }
    return None, 0;
  }

  /** `run_nmap`'s command line. */
  function NmapCommand(target: string): string {
    "nmap -Pn " + target
  }

  /** `run_gobuster`'s target: every doubled `https://` scheme collapsed to one. */
  function GobusterTarget(target: string): string {
    Replace(target, "https://https://", "https://")
  }

  /** `run_gobuster`'s command line. */
  function GobusterCommand(target: string, wordlist: string): string {
    "gobuster dir -u " + GobusterTarget(target) + " -w " + wordlist + " -t 50"
  }

  /** sqlmap's fixed options: batch mode, random user agent, level 1, risk 1, four threads, 30 s timeout. */
  const SqlmapOptions := " --batch --random-agent --level 1 --risk 1 --threads 4 --timeout 30"

  /** `run_sqlmap`'s command line. */
  function SqlmapCommand(target: string): string {
    "sqlmap -u " + target + SqlmapOptions
  }

  /**
   * `run_ffuf`'s target: `https://` put in front when no scheme is there, doubled
   * `https://` and then doubled `http://` schemes collapsed, and a `/` put at the end
   * when missing. It always starts with a scheme and ends with `/`.
   */
  function FfufTarget(target: string): (t: string)
    ensures HasScheme(t)
    ensures EndsWith(t, "/")
  {
    var withScheme := if HasScheme(target) then target else "https://" + target;
    StartsWithAppend("https://", target);
    var once := Replace(withScheme, "https://https://", "https://");
    var twice := Replace(once, "http://http://", "http://");
    CollapsingKeepsScheme(withScheme, "https://", "https://https://");
    CollapsingKeepsScheme(once, "http://", "http://http://");
    EndsWithAppend(twice, "/");
    SchemeExtended(twice, "/");
    if EndsWith(twice, "/") then twice else twice + "/"
  }

  /** The file ffuf is told to write its JSON results to; `stamp` is the clock reading. */
  function FfufOutputFile(stamp: string): string {
    "ffuf_output_" + stamp + ".json"
  }

  /** ffuf's fixed options up to the output file: matched status codes, colour, verbose, redirects, 40 threads, 10 s timeout. */
  const FfufMatchOptions := " -mc 200,301,302,403 -c -v -r -t 40 -timeout 10 -o "

  /** ffuf's fixed options after the output file: JSON output, recursion to depth 2. */
  const FfufFormatOptions := " -of json -recursion -recursion-depth 2"

  /** `run_ffuf`'s command line: the fuzz URL is the rewritten target followed by `FUZZ`. */
  function FfufCommand(target: string, wordlist: string, outputFile: string): string {
    "ffuf -u " + FfufTarget(target) + "FUZZ -w " + wordlist + FfufMatchOptions + outputFile + FfufFormatOptions
  }

  /** Collapsing doubled schemes of either kind keeps the scheme a target starts with. */
  lemma CollapsingKeepsScheme(s: string, sub: string, pat: string)
    requires HasScheme(s)
    requires sub == "http://" || sub == "https://"
    requires pat == sub + sub
    ensures HasScheme(Replace(s, pat, sub))
    ensures StartsWith(s, "http://") ==> StartsWith(Replace(s, pat, sub), "http://")
    ensures StartsWith(s, "https://") ==> StartsWith(Replace(s, pat, sub), "https://")
  {
    if StartsWith(s, "http://") {
      SchemeSurvivesReplace("http://", s[7..], sub);
      assert s == "http://" + s[7..];
    }
    if StartsWith(s, "https://") {
      SchemeSurvivesReplace("https://", s[8..], sub);
      assert s == "https://" + s[8..];
    }
  }

  lemma SchemeSurvivesReplace(scheme: string, y: string, sub: string)
    requires scheme == "http://" || scheme == "https://"
    requires sub == "http://" || sub == "https://"
    ensures StartsWith(Replace(scheme + y, sub + sub, sub), scheme)
  {
    var s := scheme + y;
    var pat := sub + sub;
    if |s| >= |pat| && s[..|pat|] == pat {
      DoubledAtFront(scheme, y, sub);
    } else if |s| >= |pat| {
      assert Replace(s, pat, sub) == [s[0]] + Replace(s[1..], pat, sub);
      assert s[0] == scheme[0] && s[1..] == scheme[1..] + y;
      assert pat[0] == sub[0] == 'h';
      SchemeSkipped(scheme, y, pat, sub);
    }
  }

  lemma DoubledAtFront(scheme: string, y: string, sub: string)
    requires scheme == "http://" || scheme == "https://"
    requires sub == "http://" || sub == "https://"
    requires |scheme + y| >= |sub + sub| && (scheme + y)[..|sub + sub|] == sub + sub
    ensures StartsWith(Replace(scheme + y, sub + sub, sub), scheme)
  {
    var s := scheme + y;
    var pat := sub + sub;
    assert s[4] == pat[4] == sub[4];
    assert scheme[4] == s[4];
    assert scheme == sub;
    var rest := s[|pat|..];
    assert s == pat + rest;
    ReplaceAtFront(pat, rest, sub);
    assert (sub + Replace(rest, pat, sub))[..|sub|] == sub;
  }

  lemma SchemeSkipped(scheme: string, y: string, pat: string, sub: string)
    requires scheme == "http://" || scheme == "https://"
    requires pat != [] && pat[0] == 'h'
    requires Replace(scheme + y, pat, sub) == [scheme[0]] + Replace(scheme[1..] + y, pat, sub)
    ensures StartsWith(Replace(scheme + y, pat, sub), scheme)
  {
    var rest := scheme[1..];
    assert forall i :: 0 <= i < |rest| ==> rest[i] != 'h';
    ReplaceSkip(rest, y, pat, sub);
    assert [scheme[0]] + (rest + Replace(y, pat, sub)) == scheme + Replace(y, pat, sub);
    assert (scheme + Replace(y, pat, sub))[..|scheme|] == scheme;
  }

  /** A target that already has a scheme, no doubled scheme and a trailing `/` is left as it is. */
  lemma FfufTargetUnchanged(target: string)
    requires HasScheme(target) && EndsWith(target, "/")
    requires !Contains(target, "https://https://") && !Contains(target, "http://http://")
    ensures FfufTarget(target) == target
  {
    ReplaceWithout(target, "https://https://", "https://");
    ReplaceWithout(target, "http://http://", "http://");
  }

  /** A bare host without `/` gets `https://` in front and `/` at the end. */
  lemma FfufTargetOfHost(h: string)
    requires '/' !in h && h != []
    ensures FfufTarget(h) == "https://" + h + "/"
  {
    var t := "https://" + h;
    NoSlashNoScheme(h);
    NoDoubledScheme(h, "https://");
    NoDoubledScheme(h, "http://");
    assert "https://" + "https://" == "https://https://";
    assert "http://" + "http://" == "http://http://";
    assert t[|t| - 1] == h[|h| - 1] && h[|h| - 1] in h;
    assert t[|t| - 1..] != "/" by { assert t[|t| - 1..][0] == t[|t| - 1]; }
    ReplaceWithout(t, "https://https://", "https://");
    ReplaceWithout(t, "http://http://", "http://");
  }

  /** `https://` followed by text without `/` holds no doubled scheme. */
  lemma NoDoubledScheme(h: string, sub: string)
    requires '/' !in h
    requires sub == "http://" || sub == "https://"
    ensures !Contains("https://" + h, sub + sub)
  {
    var t := "https://" + h;
    assert t[8..] == h;
    SlashCount(t, sub + sub);
  }

  /** An occurrence of a doubled scheme puts a `/` thirteen or more characters into the text. */
  lemma SlashCount(t: string, pat: string)
    requires pat == "http://http://" || pat == "https://https://"
    requires |t| >= 8 && '/' !in t[8..]
    ensures !Contains(t, pat)
  {
    if Contains(t, pat) {
      LateSlash(t, pat);
      assert false;
    }
  }

  lemma LateSlash(t: string, pat: string)
    requires pat == "http://http://" || pat == "https://https://"
    requires |t| >= 8 && Contains(t, pat)
    ensures '/' in t[8..]
  {
    var i := OccurrenceAt(t, pat);
    var k := |pat| - 1;
    assert pat[k] == '/';
    assert t[i..i + |pat|][k] == t[i + k];
    assert t[8..][i + k - 8] == t[i + k];
  }

  /** The position of an occurrence. */
  lemma {:induction false} OccurrenceAt(s: string, p: string) returns (i: nat)
    requires Contains(s, p)
    ensures i + |p| <= |s| && s[i..i + |p|] == p
    decreases |s|
  {
    if StartsWith(s, p) {
      i := 0;
    } else {
      var j := OccurrenceAt(s[1..], p);
      assert s[1..][j..j + |p|] == s[j + 1..j + 1 + |p|];
      i := j + 1;
    }
  }

  /** A doubled `https://` at the front is collapsed, and the rest is kept when it holds none. */
  lemma GobusterCollapse(u: string)
    requires !Contains(u, "https://https://")
    ensures GobusterTarget("https://https://" + u) == "https://" + u
    ensures GobusterTarget(u) == u
  {
    ReplaceAtFront("https://https://", u, "https://");
    ReplaceWithout(u, "https://https://", "https://");
  }

  /**
   * Python's `replace` rescans only after each replacement, so a tripled scheme is
   * collapsed to a doubled one and not to a single one.
   */
  lemma GobusterTripledScheme(u: string)
    requires !Contains("https://" + u, "https://https://")
    ensures GobusterTarget("https://https://https://" + u) == "https://https://" + u
  {
    assert "https://https://https://" + u == "https://https://" + ("https://" + u);
    ReplaceAtFront("https://https://", "https://" + u, "https://");
    ReplaceWithout("https://" + u, "https://https://", "https://");
  }

  /** One hit in ffuf's JSON `results` list; a missing key is `None`, a present value is shown as text. */
  datatype FfufEntry = FfufEntry(url: Option<string>, status: Option<string>, length: Option<string>,
                                 words: Option<string>, lines: Option<string>)

  /** ffuf's output file after the run: missing, not readable as JSON, or parsed (with or without `results`). */
  datatype FfufFile = NoFile | Unreadable | Parsed(results: Option<seq<FfufEntry>>)

  /** Forty dashes, the line that closes every block. */
  function Rule(): (r: string)
    ensures |r| == 40 && forall i :: 0 <= i < 40 ==> r[i] == '-'
  {
    seq(40, _ => '-')
  }

  /** The six lines shown for one entry, `N/A` standing in for a missing field. */
  function EntryLines(e: FfufEntry): seq<string> {
    ["Found: " + e.url.GetOr("N/A"), "Status: " + e.status.GetOr("N/A"),
     "Length: " + e.length.GetOr("N/A"), "Words: " + e.words.GetOr("N/A"),
     "Lines: " + e.lines.GetOr("N/A"), Rule()]
  }

  /** The block appended to `formatted_output` for one entry. */
  function EntryBlock(e: FfufEntry): string {
    "Found: " + e.url.GetOr("N/A") + "\n"
    + "Status: " + e.status.GetOr("N/A") + "\n"
    + "Length: " + e.length.GetOr("N/A") + "\n"
    + "Words: " + e.words.GetOr("N/A") + "\n"
    + "Lines: " + e.lines.GetOr("N/A") + "\n"
    + Rule()
  }

  /** The blocks of all entries, in order. */
  function Blocks(entries: seq<FfufEntry>): (blocks: seq<string>)
    ensures |blocks| == |entries|
  {
    seq(|entries|, k requires 0 <= k < |entries| => EntryBlock(entries[k]))
  }

  /**
   * The summary `run_ffuf` stores as `output`: the blocks joined by newlines, or
   * `No results found`, which is the summary of no entries and of nothing else: the
   * summary of some entries starts with `Found: `.
   */
  function FfufSummary(entries: seq<FfufEntry>): (summary: string)
    ensures summary == "No results found" <==> entries == []
    ensures entries != [] ==> StartsWith(summary, "Found: ")
  {
    var blocks := Blocks(entries);
    if blocks == [] then "No results found"
    else
      JoinedBlocksNotEmptyText(entries);
      Join("\n", blocks)
  }

  /**
   * The loop of `run_ffuf` that fills `formatted_output`: one block per entry, in the
   * order of the entries.
   */
  method FormatEntries(entries: seq<FfufEntry>) returns (formatted: seq<string>)
    ensures |formatted| == |entries|
    ensures forall k :: 0 <= k < |entries| ==> formatted[k] == EntryBlock(entries[k])
  {
    formatted := [];
    for i := 0 to |entries|
      invariant |formatted| == i
      invariant forall k :: 0 <= k < i ==> formatted[k] == EntryBlock(entries[k])
    {
      var e := entries[i];
      var url := e.url.GetOr("N/A");
      var status := e.status.GetOr("N/A");
      var length := e.length.GetOr("N/A");
      var words := e.words.GetOr("N/A");
      var lines := e.lines.GetOr("N/A");
      formatted := formatted + ["Found: " + url + "\n" + "Status: " + status + "\n"
        + "Length: " + length + "\n" + "Words: " + words + "\n"
        + "Lines: " + lines + "\n" + Rule()];
    }
  }

  /** The summary text `run_ffuf` computes, by the loop above. */
  method FormatSummary(entries: seq<FfufEntry>) returns (summary: string)
    ensures summary == FfufSummary(entries)
    ensures entries == [] <==> summary == "No results found"
  {
    var formatted := FormatEntries(entries);
    assert formatted == Blocks(entries);
    if formatted != [] {
      summary := Join("\n", formatted);
    } else {
      summary := "No results found";
    }
  }

  /** The blocks of some entries, joined, start with `Found: `, so they are never the empty-list text. */
  lemma JoinedBlocksNotEmptyText(entries: seq<FfufEntry>)
    requires entries != []
    ensures StartsWith(Join("\n", Blocks(entries)), "Found: ")
    ensures Join("\n", Blocks(entries)) != "No results found"
  {
    var blocks := Blocks(entries);
    var joined := Join("\n", blocks);
    JoinStartsWithFirst("\n", blocks);
    assert StartsWith(blocks[0], "Found: ");
    assert joined[..|blocks[0]|] == blocks[0];
    assert joined[..7] == blocks[0][..7];
    assert joined[0] == 'F';
  }

  /** All the lines of the summary of `entries`: six per entry, in order. */
  function SummaryLines(entries: seq<FfufEntry>): (lines: seq<string>)
    ensures |lines| == 6 * |entries|
  {
    if entries == [] then [] else EntryLines(entries[0]) + SummaryLines(entries[1..])
  }

  /** No field of any entry holds a newline. */
  predicate SingleLineFields(entries: seq<FfufEntry>) {
    forall k :: 0 <= k < |entries| ==>
      '\n' !in entries[k].url.GetOr("") && '\n' !in entries[k].status.GetOr("")
      && '\n' !in entries[k].length.GetOr("") && '\n' !in entries[k].words.GetOr("")
      && '\n' !in entries[k].lines.GetOr("")
  }

  lemma EntryBlockIsJoin(e: FfufEntry)
    ensures EntryBlock(e) == Join("\n", EntryLines(e))
  {
    var ls := EntryLines(e);
    JoinSix("\n", ls[0], ls[1], ls[2], ls[3], ls[4], ls[5]);
    assert ls == [ls[0], ls[1], ls[2], ls[3], ls[4], ls[5]];
    Regroup("\n", "Found: ", e.url.GetOr("N/A"), "Status: ", e.status.GetOr("N/A"), "Length: ", e.length.GetOr("N/A"),
            "Words: ", e.words.GetOr("N/A"), "Lines: ", e.lines.GetOr("N/A"), Rule());
  }

  /** Concatenation regrouped so that each label stays with its value. */
  lemma Regroup(sep: string, p1: string, x1: string, p2: string, x2: string, p3: string, x3: string,
                p4: string, x4: string, p5: string, x5: string, r: string)
    ensures p1 + x1 + sep + p2 + x2 + sep + p3 + x3 + sep + p4 + x4 + sep + p5 + x5 + sep + r
         == (p1 + x1) + sep + (p2 + x2) + sep + (p3 + x3) + sep + (p4 + x4) + sep + (p5 + x5) + sep + r
  {
  }

  /** Joining six parts puts the separator between each neighbouring pair. */
  lemma JoinSix(sep: string, a: string, b: string, c: string, d: string, f: string, g: string)
    ensures Join(sep, [a, b, c, d, f, g]) == a + sep + b + sep + c + sep + d + sep + f + sep + g
  {
    assert [a, b] == [a] + [b] && [a, b, c] == [a, b] + [c] && [a, b, c, d] == [a, b, c] + [d];
    assert [a, b, c, d, f] == [a, b, c, d] + [f] && [a, b, c, d, f, g] == [a, b, c, d, f] + [g];
    JoinSnoc(sep, [a], b);
    JoinSnoc(sep, [a, b], c);
    JoinSnoc(sep, [a, b, c], d);
    JoinSnoc(sep, [a, b, c, d], f);
    JoinSnoc(sep, [a, b, c, d, f], g);
  }

  lemma {:induction false} SummaryIsJoinOfLines(entries: seq<FfufEntry>)
    requires entries != []
    ensures Join("\n", Blocks(entries)) == Join("\n", SummaryLines(entries))
    decreases |entries|
  {
    EntryBlockIsJoin(entries[0]);
    if |entries| == 1 {
      assert SummaryLines(entries) == EntryLines(entries[0]) + [];
      assert EntryLines(entries[0]) + [] == EntryLines(entries[0]);
    } else {
      var rest := entries[1..];
      SummaryIsJoinOfLines(rest);
      assert Blocks(entries) == [EntryBlock(entries[0])] + Blocks(rest);
      JoinAppend("\n", [EntryBlock(entries[0])], Blocks(rest));
      JoinAppend("\n", EntryLines(entries[0]), SummaryLines(rest));
    }
  }

  lemma {:induction false} SummaryLinesSingle(entries: seq<FfufEntry>)
    requires SingleLineFields(entries)
    ensures forall k :: 0 <= k < |SummaryLines(entries)| ==> '\n' !in SummaryLines(entries)[k]
    decreases |entries|
  {
    if entries != [] {
      var e := entries[0];
      SummaryLinesSingle(entries[1..]);
      var ls := EntryLines(e);
      assert '\n' !in e.url.GetOr("N/A") && '\n' !in e.status.GetOr("N/A")
        && '\n' !in e.length.GetOr("N/A") && '\n' !in e.words.GetOr("N/A")
        && '\n' !in e.lines.GetOr("N/A");
      assert forall k :: 0 <= k < 6 ==> '\n' !in ls[k];
    }
  }

  /**
   * The summary reads back line by line: for fields without newlines, splitting it at
   * `\n` gives six lines per entry, in the order of the entries.
   */
  lemma SummaryReadsBack(entries: seq<FfufEntry>)
    requires entries != [] && SingleLineFields(entries)
    ensures Split(FfufSummary(entries), "\n") == SummaryLines(entries)
  {
    SummaryIsJoinOfLines(entries);
    SummaryLinesSingle(entries);
    SplitJoinInverse('\n', SummaryLines(entries));
  }

  /** Line `6k` of the summary lines names the URL of entry `k`, or `N/A`. */
  lemma {:induction false} SummaryLineOfEntry(entries: seq<FfufEntry>, k: nat, j: nat)
    requires k < |entries| && j < 6
    ensures SummaryLines(entries)[6 * k + j] == EntryLines(entries[k])[j]
    decreases k
  {
    if k > 0 {
      SummaryLineOfEntry(entries[1..], k - 1, j);
    }
  }

  /** The configuration a runner reads: `MAX_RETRIES` and the wordlist path. */
  datatype Env = Env(maxRetries: int, wordlist: string)

  /**
   * What the outside world does during one runner call: the attempts of its command,
   * the clock reading that names ffuf's output file, and what that file turns out to hold.
   */
  datatype Probe = Probe(attempts: nat -> Attempt, stamp: string, ffufFile: FfufFile)

  /** `run_nmap(target)` */
  function RunNmap(target: string, env: Env, probe: Probe): Option<ToolResult> {
    CommandResult(NmapCommand(target), env.maxRetries, probe.attempts)
  }

  /** `run_gobuster(target)` */
  function RunGobuster(target: string, env: Env, probe: Probe): Option<ToolResult> {
    CommandResult(GobusterCommand(target, env.wordlist), env.maxRetries, probe.attempts)
  }

  /** `run_sqlmap(target)` */
  function RunSqlmap(target: string, env: Env, probe: Probe): Option<ToolResult> {
    CommandResult(SqlmapCommand(target), env.maxRetries, probe.attempts)
  }

  /**
   * `run_ffuf(target)`: the command result, whose `output` is replaced by the summary
   * when the output file could be read, whether or not the run succeeded. When the
   * command result is `None` every path ends in `None.get`, an `AttributeError`.
   */
  function RunFfuf(target: string, env: Env, probe: Probe): (outcome: Outcome<Option<ToolResult>>)
    ensures outcome.Raised? <==> env.maxRetries <= 0
    ensures outcome.Raised? ==> outcome.exception == "AttributeError"
    ensures outcome.Returned? ==> outcome.value.Some?
    ensures outcome.Returned? ==>
      var result := CommandResult(FfufCommand(target, env.wordlist, FfufOutputFile(probe.stamp)),
                                  env.maxRetries, probe.attempts);
      result.Some? && outcome.value.value.status == result.value.status
      && outcome.value.value.error == result.value.error
  {
    var command := FfufCommand(target, env.wordlist, FfufOutputFile(probe.stamp));
    var result := CommandResult(command, env.maxRetries, probe.attempts);
    if result.None? then Raised("AttributeError")
    else
      match probe.ffufFile
      case NoFile => Returned(result)
      case Unreadable =>
        var r := result.value;
        Returned(Some(if r.status == "success" then r.(output := Some(r.output.GetOr("No results found"))) else r))
      case Parsed(results) =>
        Returned(Some(result.value.(output := Some(FfufSummary(results.GetOr([]))))))
  }

  /**
   * A readable output file replaces `output` with the summary and keeps status and
   * error, so a failed run carries both its error and the summary; an unreadable or
   * missing file leaves the command result as it was.
   */
  lemma FfufResultShape(target: string, env: Env, probe: Probe)
    requires env.maxRetries > 0
    ensures var command := FfufCommand(target, env.wordlist, FfufOutputFile(probe.stamp));
      var result := CommandResult(command, env.maxRetries, probe.attempts).value;
      match probe.ffufFile
      case Parsed(results) =>
        RunFfuf(target, env, probe) == Returned(Some(ToolResult(result.status, Some(FfufSummary(results.GetOr([]))), result.error)))
      case _ => RunFfuf(target, env, probe) == Returned(Some(result))
  {
  }
}
