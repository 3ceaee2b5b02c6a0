/**
 * Scope check and initial work list (agent/task_manager.py).
 *
 * The allow-lists come from configuration as Python lists of strings; here they are the
 * two sequences of a `Scope`.
 */
module TaskManager {
  import opened Wrappers
  import opened PyStr

  /** One work item: a tool name, its target and, from the dashboard only, a protocol. */
  datatype Task = Task(tool: string, target: string, protocol: Option<string>)

  /** `ALLOWED_DOMAINS` and `ALLOWED_IPS`, entries as configured (not yet trimmed). */
  datatype Scope = Scope(domains: seq<string>, ips: seq<string>)

  /** A target without `://` does not start with a scheme. */
  lemma NoSeparatorNoScheme(s: string)
    requires !Contains(s, "://")
    ensures !HasScheme(s)
  {
    if StartsWith(s, "http://") {
      assert "http://" == "http" + "://";
      SeparatorAfterName(s, "http");
      ContainsAt(s, "://", 4);
    }
    if StartsWith(s, "https://") {
      assert "https://" == "https" + "://";
      SeparatorAfterName(s, "https");
      ContainsAt(s, "://", 5);
    }
  }

  /** A text that starts with a scheme name and `://` has the `://` right after the name. */
  lemma SeparatorAfterName(s: string, name: string)
    requires StartsWith(s, name + "://")
    ensures |name| <= |s| && StartsWith(s[|name|..], "://")
  {
    var p := name + "://";
    assert s[|name|..][..3] == s[..|p|][|name|..];
    assert p[|name|..] == "://";
  }

  /**
   * The host that the scope check compares: the text after the last `://` when the
   * target starts with a scheme, cut at the first `/` and then at the first `?`,
   * stripped and lower-cased.
   */
  function NormalizeHost(target: string): (host: string)
    ensures '/' !in host && '?' !in host
    ensures host == [] || (!IsSpace(host[0]) && !IsSpace(host[|host| - 1]))
    ensures Lower(host) == host
  {
    var part := HostPart(target);
    CleanedHost(part);
    Lower(Strip(part))
  }

  /** The text after the last `://` (when there is a scheme), cut at the first `/` and then at the first `?`. */
  function HostPart(target: string): (part: string)
    ensures '/' !in part && '?' !in part
  {
    var afterScheme := if HasScheme(target) then Last(Split(target, "://")) else target;
    var beforeSlash := Split(afterScheme, "/")[0];
    FirstPieceChars(afterScheme, '/');
    FirstPieceChars(beforeSlash, '?');
    Split(beforeSlash, "?")[0]
  }

  /** Stripping and lower-casing text without `/` and `?` gives a host as `NormalizeHost` promises. */
  lemma CleanedHost(t: string)
    requires '/' !in t && '?' !in t
    ensures var host := Lower(Strip(t));
      '/' !in host && '?' !in host
      && (host == [] || (!IsSpace(host[0]) && !IsSpace(host[|host| - 1])))
      && Lower(host) == host
  {
    var stripped := Strip(t);
    var host := Lower(stripped);
    LowerIdempotent(stripped);
    if host != [] {
      LowerCharFacts(stripped[0]);
      LowerCharFacts(stripped[|stripped| - 1]);
    }
    forall i | 0 <= i < |host|
      ensures host[i] != '/' && host[i] != '?'
    {
      LowerCharFacts(stripped[i]);
      assert stripped[i] in stripped;
    }
  }

  /** `[d.strip().lower() for d in ALLOWED_DOMAINS]`: every entry comes out trimmed and lower-case. */
  function AllowedDomains(scope: Scope): (ds: seq<string>)
    ensures |ds| == |scope.domains|
    ensures forall k :: 0 <= k < |ds| ==> ds[k] == Lower(Strip(scope.domains[k]))
    ensures forall k :: 0 <= k < |ds| ==> Lower(ds[k]) == ds[k] && Strip(ds[k]) == ds[k]
  {
    NormalDomainEntries(scope.domains);
    seq(|scope.domains|, k requires 0 <= k < |scope.domains| => Lower(Strip(scope.domains[k])))
  }

  /** A trimmed, lower-cased entry is left alone by trimming and lower-casing again. */
  lemma NormalDomainEntry(d: string)
    ensures Lower(Lower(Strip(d))) == Lower(Strip(d))
    ensures Strip(Lower(Strip(d))) == Lower(Strip(d))
  {
    StripLowerCommute(Strip(d));
    StripIdempotent(d);
    LowerIdempotent(Strip(d));
  }

  lemma NormalDomainEntries(domains: seq<string>)
    ensures forall k :: 0 <= k < |domains| ==>
      Lower(Lower(Strip(domains[k]))) == Lower(Strip(domains[k]))
      && Strip(Lower(Strip(domains[k]))) == Lower(Strip(domains[k]))
  {
    forall k | 0 <= k < |domains|
      ensures Lower(Lower(Strip(domains[k]))) == Lower(Strip(domains[k]))
      ensures Strip(Lower(Strip(domains[k]))) == Lower(Strip(domains[k]))
    {
      NormalDomainEntry(domains[k]);
    }
  }

  /** `[ip.strip() for ip in ALLOWED_IPS]`: every entry comes out trimmed. */
  function AllowedIps(scope: Scope): (ips: seq<string>)
    ensures |ips| == |scope.ips|
    ensures forall k :: 0 <= k < |ips| ==> ips[k] == Strip(scope.ips[k])
    ensures forall k :: 0 <= k < |ips| ==> Strip(ips[k]) == ips[k]
  {
    TrimmedIpEntries(scope.ips);
    seq(|scope.ips|, k requires 0 <= k < |scope.ips| => Strip(scope.ips[k]))
  }

  lemma TrimmedIpEntries(ips: seq<string>)
    ensures forall k :: 0 <= k < |ips| ==> Strip(Strip(ips[k])) == Strip(ips[k])
  {
    forall k | 0 <= k < |ips|
      ensures Strip(Strip(ips[k])) == Strip(ips[k])
    {
      StripIdempotent(ips[k]);
    }
  }

  /** A domain entry covers the host itself and every dot-separated subdomain of it. */
  predicate Covers(host: string, domain: string) {
    EndsWith(host, "." + domain) || host == domain
  }

  /** The search loop over the allowed domains, with its early return. */
  function AnyDomainCovers(host: string, domains: seq<string>): (found: bool)
    ensures found <==> exists k :: 0 <= k < |domains| && Covers(host, domains[k])
  {
    if domains == [] then false
    else if Covers(host, domains[0]) then true
    else
      var found := AnyDomainCovers(host, domains[1..]);
      assert forall k :: 1 <= k < |domains| ==> domains[k] == domains[1..][k - 1];
      found
  }

  /**
   * `is_within_scope(target)`: exact domain or IP match, or a dot-subdomain of a domain.
   * The whole decision in one place: the normalised host is covered by some trimmed,
   * lower-cased domain entry, or equals some trimmed IP entry.
   */
  function IsWithinScope(target: string, scope: Scope): (inScope: bool)
    ensures inScope <==>
      (exists k :: 0 <= k < |scope.domains| && Covers(NormalizeHost(target), Lower(Strip(scope.domains[k]))))
      || (exists k :: 0 <= k < |scope.ips| && NormalizeHost(target) == Strip(scope.ips[k]))
  {
    var host := NormalizeHost(target);
    var domains := AllowedDomains(scope);
    DomainMatch(host, scope);
    IpMatch(host, scope);
    host in domains || host in AllowedIps(scope) || AnyDomainCovers(host, domains)
  }

  /** The domain half: an exact match, or a hit of the subdomain loop. */
  lemma DomainMatch(host: string, scope: Scope)
    ensures (host in AllowedDomains(scope) || AnyDomainCovers(host, AllowedDomains(scope))) <==>
      exists k :: 0 <= k < |scope.domains| && Covers(host, Lower(Strip(scope.domains[k])))
  {
    CoverMatch(host, AllowedDomains(scope), scope.domains);
  }

  /** The domain half over any list of normalised entries `domains` of the raw entries `raw`. */
  lemma CoverMatch(host: string, domains: seq<string>, raw: seq<string>)
    requires |domains| == |raw|
    requires forall k :: 0 <= k < |domains| ==> domains[k] == Lower(Strip(raw[k]))
    ensures (host in domains || AnyDomainCovers(host, domains)) <==>
      exists k :: 0 <= k < |raw| && Covers(host, Lower(Strip(raw[k])))
  {
    if host in domains {
      var k :| 0 <= k < |domains| && domains[k] == host;
      assert Covers(host, domains[k]);
    }
  }

  /** The IP half: an exact match with a trimmed entry. */
  lemma IpMatch(host: string, scope: Scope)
    ensures host in AllowedIps(scope) <==> exists k :: 0 <= k < |scope.ips| && host == Strip(scope.ips[k])
  {
    var ips := AllowedIps(scope);
    if host in ips {
      var k :| 0 <= k < |ips| && ips[k] == host;
      assert host == Strip(scope.ips[k]);
    }
    if exists k :: 0 <= k < |scope.ips| && host == Strip(scope.ips[k]) {
      var k :| 0 <= k < |scope.ips| && host == Strip(scope.ips[k]);
      assert ips[k] == host;
    }
  }

  /** For a target that starts with a scheme, only the text after the last `://` counts. */
  lemma LastSchemeDecides(target: string, scope: Scope)
    requires HasScheme(target)
    ensures NormalizeHost(target) == NormalizeHost(Last(Split(target, "://")))
    ensures IsWithinScope(target, scope) == IsWithinScope(Last(Split(target, "://")), scope)
  {
    var rest := Last(Split(target, "://"));
    SplitPartsClean(target, "://");
    NoSeparatorNoScheme(rest);
  }

  /** A host without `/` and `?` is only stripped and lower-cased. */
  lemma PlainHostNormalization(h: string)
    requires '/' !in h && '?' !in h
    ensures NormalizeHost(h) == Lower(Strip(h))
  {
    ContainsChar(h, '/');
    ContainsChar(h, '?');
    SplitWithout(h, "/");
    SplitWithout(h, "?");
    NoSlashNoScheme(h);
  }

  /** Text without `/` and `?` is its own host part. */
  lemma PlainHostPart(h: string)
    requires '/' !in h && '?' !in h
    ensures HostPart(h) == h
  {
    ContainsChar(h, '/');
    ContainsChar(h, '?');
    SplitWithout(h, "/");
    SplitWithout(h, "?");
    NoSlashNoScheme(h);
  }

  /** Targets with the same host part normalise to the same host. */
  lemma SameHostPart(t: string, u: string)
    requires HostPart(t) == HostPart(u)
    ensures NormalizeHost(t) == NormalizeHost(u)
  {
  }

  /** A bare host: no `/`, `?` or whitespace, and already lower case. */
  predicate IsBareHost(h: string) {
    '/' !in h && '?' !in h && (forall i :: 0 <= i < |h| ==> !IsSpace(h[i])) && Lower(h) == h
  }

  /** The characters of a lower-case host name or IPv4 address. */
  predicate HostChar(c: char) {
    ('a' <= c <= 'z') || ('0' <= c <= '9') || c == '.' || c == '-'
  }

  lemma HostCharsAreBare(h: string)
    requires forall i :: 0 <= i < |h| ==> HostChar(h[i])
    ensures IsBareHost(h)
  {
    assert forall i :: 0 <= i < |h| ==> Lower(h)[i] == h[i];
  }

  lemma BareHostIsNormal(h: string)
    requires IsBareHost(h)
    ensures NormalizeHost(h) == h
  {
    PlainHostNormalization(h);
    assert TrimStart(h) == h;
    assert TrimEnd(h) == h;
  }

  /**
   * A scheme in front of a bare host and a path or query after it do not change the
   * host that is checked, as long as the path holds no further `://`.
   */
  lemma SchemeAndPathIgnored(scheme: string, h: string, path: string, scope: Scope)
    requires scheme == "http://" || scheme == "https://"
    requires IsBareHost(h)
    requires path == [] || path[0] == '/' || path[0] == '?'
    requires !Contains(path, "://") && !StartsWith(path, "//")
    ensures NormalizeHost(scheme + h + path) == h
    ensures IsWithinScope(scheme + h + path, scope) == IsWithinScope(h, scope)
  {
    var t := scheme + h + path;
    SchemeHostPart(scheme, h, path);
    PlainHostPart(h);
    SameHostPart(t, h);
    BareHostIsNormal(h);
  }

  /** The host part of a scheme, a host without `/` and `?`, and a path as above is that host. */
  lemma SchemeHostPart(scheme: string, h: string, path: string)
    requires scheme == "http://" || scheme == "https://"
    requires '/' !in h && '?' !in h
    requires path == [] || path[0] == '/' || path[0] == '?'
    requires !Contains(path, "://") && !StartsWith(path, "//")
    ensures HostPart(scheme + h + path) == h
  {
    var u := h + path;
    assert scheme + h + path == scheme + u;
    NoSeparatorAcross(h, path);
    TextAfterScheme(scheme, u);
    SchemeInFront(scheme, u);
    HostPartAfterScheme(scheme + u);
    FirstPieceIsHost(h, path);
  }

  /** Either scheme put in front of a text gives a text with a scheme. */
  lemma SchemeInFront(scheme: string, u: string)
    requires scheme == "http://" || scheme == "https://"
    ensures HasScheme(scheme + u)
  {
    StartsWithAppend(scheme, u);
  }

  /** With a scheme, the host part is cut from the text after the last `://`. */
  lemma HostPartAfterScheme(t: string)
    requires HasScheme(t)
    ensures HostPart(t) == Split(Split(Last(Split(t, "://")), "/")[0], "?")[0]
  {
  }

  /**
   * `split('://')[-1]` is the text after the last `://`: whatever stands in front of
   * it, `a + "://" + u` with no `://` in `u` has `u` as its last part.
   */
  lemma {:induction false} TextAfterLastSeparator(a: string, u: string)
    requires !Contains(u, "://")
    ensures |Split(a + "://" + u, "://")| >= 2
    ensures Last(Split(a + "://" + u, "://")) == u
    decreases |a|
  {
    var s := a + "://" + u;
    if a == [] {
      assert s == "://" + u;
      SplitAtSeparator("://", u);
      SplitWithout(u, "://");
      LastBehindFront([[]], [u]);
    } else if |a| >= 3 && s[..3] == "://" {
      DropFront(a, 3, u);
      TextAfterLastSeparator(a[3..], u);
      var rest := Split(s[3..], "://");
      assert Split(s, "://") == [[]] + rest;
      LastBehindFront([[]], rest);
    } else {
      if |a| < 3 {
        assert s[..3][|a|] == ':';
      }
      DropFront(a, 1, u);
      TextAfterLastSeparator(a[1..], u);
      var rest := Split(s[1..], "://");
      assert Split(s, "://") == [[s[0]] + rest[0]] + rest[1..];
      LastBehindFront([[s[0]] + rest[0]], rest[1..]);
    }
  }

  /** Dropping `k` characters from the front of `a + "://" + u` drops them from `a`. */
  lemma DropFront(a: string, k: nat, u: string)
    requires k <= |a|
    ensures (a + "://" + u)[k..] == a[k..] + "://" + u
  {
    assert a == a[..k] + a[k..];
  }

  /** After a leading scheme, `split('://')[-1]` is everything that follows it, if that holds no `://`. */
  lemma TextAfterScheme(scheme: string, u: string)
    requires scheme == "http://" || scheme == "https://"
    requires !Contains(u, "://")
    ensures Last(Split(scheme + u, "://")) == u
  {
    if scheme == "http://" {
      assert scheme == "http" + "://";
      TextAfterName("http", u);
    } else {
      assert scheme == "https" + "://";
      TextAfterName("https", u);
    }
  }

  /** A scheme name holds no `:`, so the text after its `://` is the last part. */
  lemma TextAfterName(name: string, u: string)
    requires forall i :: 0 <= i < |name| ==> name[i] != ':'
    requires !Contains(u, "://")
    ensures Last(Split(name + "://" + u, "://")) == u
  {
    assert name + "://" + u == name + ("://" + u);
    SplitWithout(u, "://");
    SplitSkip(name, "://" + u, "://");
    SplitAtSeparator("://", u);
  }

  /** `h + path` with a bare `h` and a path as above holds no `://`. */
  lemma {:induction false} NoSeparatorAcross(h: string, path: string)
    requires '/' !in h
    requires !Contains(path, "://") && !StartsWith(path, "//")
    ensures !Contains(h + path, "://")
    decreases |h|
  {
    if h == [] {
      assert h + path == path;
    } else {
      var s := h + path;
      assert s[1..] == h[1..] + path;
      NoSeparatorAcross(h[1..], path);
      assert !StartsWith(s, "://") by {
        if |h| >= 2 {
          assert s[1] == h[1] && h[1] in h;
        } else {
          assert s[1..] == path;
          TailNotDoubleSlash(s, path);
        }
      }
    }
  }

  /** A text whose tail does not start with `//` does not start with `://`. */
  lemma TailNotDoubleSlash(s: string, path: string)
    requires |s| >= 1 && s[1..] == path && !StartsWith(path, "//")
    ensures !StartsWith(s, "://")
  {
    if |s| >= 3 {
      assert s[1..3] == path[..2];
      assert s[..3][1..] == s[1..3];
    }
  }

  /** Cutting `h + path` at the first `/` and then at the first `?` leaves `h`. */
  lemma FirstPieceIsHost(h: string, path: string)
    requires '/' !in h && '?' !in h
    requires path == [] || path[0] == '/' || path[0] == '?'
    ensures Split(Split(h + path, "/")[0], "?")[0] == h
  {
    ContainsChar(h, '/');
    ContainsChar(h, '?');
    SplitSkip(h, path, "/");
    if path == [] {
      assert h + path == h;
      SplitWithout(h, "/");
      SplitWithout(h, "?");
    } else if path[0] == '/' {
      assert path == "/" + path[1..];
      SplitAtSeparator("/", path[1..]);
      assert Split(h + path, "/")[0] == h;
      SplitWithout(h, "?");
    } else {
      var ps := Split(path, "/");
      assert path[..1] != "/";
      assert ps == [[path[0]] + Split(path[1..], "/")[0]] + Split(path[1..], "/")[1..];
      var piece := ps[0];
      assert piece == "?" + piece[1..];
      SplitSkip(h, piece, "?");
      SplitAtSeparator("?", piece[1..]);
    }
  }

  /** The target's case and the whitespace around it do not matter. */
  lemma CaseAndSpaceIgnored(w1: string, h: string, w2: string, h': string, scope: Scope)
    requires AllSpace(w1) && AllSpace(w2)
    requires '/' !in h && '?' !in h && '/' !in h' && '?' !in h'
    requires Lower(Strip(h)) == Lower(Strip(h'))
    ensures NormalizeHost(w1 + h + w2) == NormalizeHost(h')
    ensures IsWithinScope(w1 + h + w2, scope) == IsWithinScope(h', scope)
  {
    var t := w1 + h + w2;
    assert forall c :: c in t ==> c in w1 || c in h || c in w2;
    assert '/' !in w1 && '?' !in w1 && '/' !in w2 && '?' !in w2;
    PlainHostNormalization(t);
    PlainHostNormalization(h');
    StripPadded(w1, h, w2);
  }

  /** A host that equals a trimmed, lower-cased domain entry is in scope. */
  lemma ListedDomainInScope(target: string, scope: Scope, k: nat)
    requires k < |scope.domains|
    requires NormalizeHost(target) == Lower(Strip(scope.domains[k]))
    ensures IsWithinScope(target, scope)
  {
  }

  /** A host that ends with `.` and a domain entry is in scope. */
  lemma SubdomainInScope(target: string, scope: Scope, k: nat)
    requires k < |scope.domains|
    requires EndsWith(NormalizeHost(target), "." + Lower(Strip(scope.domains[k])))
    ensures IsWithinScope(target, scope)
  {
  }

  /**
   * A host that merely ends with the text of the only domain entry, without a dot in
   * front of it (`notgoogle.com` against `google.com`), is out of scope unless an IP
   * entry names it.
   */
  lemma SuffixWithoutDotOutOfScope(x: string, d: string, ips: seq<string>)
    requires x != [] && x[|x| - 1] != '.'
    requires IsBareHost(x + d) && Lower(Strip(d)) == d
    requires forall k :: 0 <= k < |ips| ==> Strip(ips[k]) != x + d
    ensures !IsWithinScope(x + d, Scope([d], ips))
  {
    BareHostIsNormal(x + d);
    NotCoveredWithoutDot(x, d);
    assert Scope([d], ips).domains == [d];
    NoEntryMatches(x + d, Scope([d], ips));
  }

  /** A target that no domain entry covers and no IP entry names is out of scope. */
  lemma NoEntryMatches(target: string, scope: Scope)
    requires forall k :: 0 <= k < |scope.domains| ==> !Covers(NormalizeHost(target), Lower(Strip(scope.domains[k])))
    requires forall k :: 0 <= k < |scope.ips| ==> NormalizeHost(target) != Strip(scope.ips[k])
    ensures !IsWithinScope(target, scope)
  {
  }

  lemma NotCoveredWithoutDot(x: string, d: string)
    requires x != [] && x[|x| - 1] != '.'
    ensures !Covers(x + d, d)
  {
    if EndsWith(x + d, "." + d) {
      DotBeforeSuffix(x, d);
    }
  }

  lemma DotBeforeSuffix(x: string, d: string)
    requires x != [] && EndsWith(x + d, "." + d)
    ensures x[|x| - 1] == '.'
  {
    var h := x + d;
    assert h[|h| - |d| - 1..][0] == h[|x| - 1] == x[|x| - 1];
  }

  /**
   * IP entries are compared as exact strings. An entry that is a CIDR block (it holds
   * a `/`) therefore never matches: with no domain entries nothing is in scope.
   */
  lemma CidrEntriesNeverMatch(target: string, ips: seq<string>)
    requires forall k :: 0 <= k < |ips| ==> '/' in Strip(ips[k])
    ensures !IsWithinScope(target, Scope([], ips))
  {
  }

  /** With no domain entries the check is an exact string match against a trimmed IP entry. */
  lemma IpExactMatch(target: string, ips: seq<string>)
    ensures IsWithinScope(target, Scope([], ips)) <==>
      exists k :: 0 <= k < |ips| && NormalizeHost(target) == Strip(ips[k])
  {
  }

  /**
   * The value `generate_tasks` checks and scans: the input, or after a scheme the text after
   * the last `://` up to the first `/`, which then holds neither a `/` nor a `://`.
   */
  function CheckTarget(target: string): (base: string)
    ensures HasScheme(target) ==> '/' !in base && !Contains(base, "://")
  {
    if HasScheme(target) then
      HostPieceClean(target);
      Split(Last(Split(target, "://")), "/")[0]
    else target
  }

  /** `generate_tasks(target)`: nothing when out of scope, else nmap, gobuster, ffuf, sqlmap. */
  function GenerateTasks(target: string, scope: Scope): (tasks: seq<Task>)
    ensures tasks == [] <==> !IsWithinScope(target, scope)
  {
    var base := CheckTarget(target);
    var inScope := IsWithinScope(base, scope);
    CheckTargetSameScope(target, scope);
    if !inScope then [] else ScanTasks(base)
  }

  /** The four scans of an in-scope base target, in the order they are queued. */
  function ScanTasks(base: string): (tasks: seq<Task>)
    ensures |tasks| == 4
  {
    var web := "https://" + base;
    [Task("nmap", base, None), Task("gobuster", web, None), Task("ffuf", web, None), Task("sqlmap", web, None)]
  }

  /** Cutting the target before the scope check does not change the scope decision. */
  lemma CheckTargetSameScope(target: string, scope: Scope)
    ensures NormalizeHost(CheckTarget(target)) == NormalizeHost(target)
    ensures IsWithinScope(CheckTarget(target), scope) == IsWithinScope(target, scope)
  {
    if HasScheme(target) {
      var rest := Last(Split(target, "://"));
      var c := Split(rest, "/")[0];
      LastSchemeDecides(target, scope);
      FirstPieceChars(rest, '/');
      SplitPartsClean(target, "://");
      ContainsChar(c, '/');
      NoSlashNoScheme(c);
      SplitWithout(c, "/");
      NoSeparatorNoScheme(rest);
      assert NormalizeHost(c) == NormalizeHost(rest);
      SameHostSameScope(c, target, scope);
    }
  }

  /** The scope decision depends on the normalised host only. */
  lemma SameHostSameScope(a: string, b: string, scope: Scope)
    requires NormalizeHost(a) == NormalizeHost(b)
    ensures IsWithinScope(a, scope) == IsWithinScope(b, scope)
  {
  }

  /**
   * For an in-scope target: four tasks, nmap first on the unnormalised base target and
   * gobuster, ffuf, sqlmap on `https://` + base. Without a scheme the base is the input
   * unchanged; with one it is the text after the last `://`, cut at the first `/`.
   */
  lemma GeneratedTasksShape(target: string, scope: Scope)
    requires IsWithinScope(target, scope)
    ensures var tasks := GenerateTasks(target, scope);
      |tasks| == 4
      && tasks[0] == Task("nmap", CheckTarget(target), None)
      && tasks[1] == Task("gobuster", "https://" + CheckTarget(target), None)
      && tasks[2] == Task("ffuf", "https://" + CheckTarget(target), None)
      && tasks[3] == Task("sqlmap", "https://" + CheckTarget(target), None)
    ensures !HasScheme(target) ==> CheckTarget(target) == target
    ensures HasScheme(target) ==> '/' !in CheckTarget(target) && !Contains(CheckTarget(target), "://")
  {
    var base := CheckTarget(target);
    CheckTargetSameScope(target, scope);
    InScopeTasks(target, scope);
    ScanTasksOrder(base);
  }

  lemma ScanTasksOrder(base: string)
    ensures var tasks := ScanTasks(base);
      tasks[0] == Task("nmap", base, None)
      && tasks[1] == Task("gobuster", "https://" + base, None)
      && tasks[2] == Task("ffuf", "https://" + base, None)
      && tasks[3] == Task("sqlmap", "https://" + base, None)
  {
  }

  lemma InScopeTasks(target: string, scope: Scope)
    requires IsWithinScope(CheckTarget(target), scope)
    ensures var base := CheckTarget(target);
      GenerateTasks(target, scope) == ScanTasks(base)
  {
  }

  /** After a scheme, the piece cut at the first `/` holds neither a `/` nor a `://`. */
  lemma HostPieceClean(target: string)
    requires HasScheme(target)
    ensures var c := Split(Last(Split(target, "://")), "/")[0];
      '/' !in c && !Contains(c, "://")
  {
    var rest := Last(Split(target, "://"));
    assert !Contains(rest, "://") by {
      SplitPartsClean(target, "://");
    }
    FirstSlashPieceClean(rest);
  }

  /** The piece before the first `/` of a text without `://` holds neither. */
  lemma FirstSlashPieceClean(rest: string)
    requires !Contains(rest, "://")
    ensures var c := Split(rest, "/")[0];
      '/' !in c && !Contains(c, "://")
  {
    var c := Split(rest, "/")[0];
    FirstPieceChars(rest, '/');
    SplitFirstIsPrefix(rest, "/");
    assert rest == c + rest[|c|..];
    if Contains(c, "://") {
      ContainsInPrefix(c, rest[|c|..], "://");
    }
  }

  /** An occurrence in a prefix is an occurrence in the whole text. */
  lemma {:induction false} ContainsInPrefix(x: string, y: string, p: string)
    requires Contains(x, p)
    ensures Contains(x + y, p)
    decreases |x|
  {
    if StartsWith(x, p) {
      assert (x + y)[..|p|] == x[..|p|];
    } else {
      assert (x + y)[1..] == x[1..] + y;
      ContainsInPrefix(x[1..], y, p);
    }
  }

  /**
   * Any bare subdomain of an allow-listed domain is in scope; `mail.google.com` against
   * `google.com` is an instance (tests/test_agent.py:17 expects the opposite).
   */
  lemma SubdomainOfListedDomain(sub: string, d: string)
    requires IsBareHost(sub + "." + d) && Lower(Strip(d)) == d
    ensures IsWithinScope(sub + "." + d, Scope([d], []))
  {
    DotSuffix(sub, d);
    CoveredBareHostInScope(sub + "." + d, Scope([d], []), 0);
  }

  lemma DotSuffix(sub: string, d: string)
    ensures EndsWith(sub + "." + d, "." + d)
  {
    var h := sub + "." + d;
    assert h == sub + ("." + d);
    assert h[|sub|..] == "." + d;
  }

  /** A bare host covered by a trimmed, lower-cased domain entry is in scope. */
  lemma CoveredBareHostInScope(h: string, scope: Scope, k: nat)
    requires IsBareHost(h) && k < |scope.domains|
    requires Covers(h, Lower(Strip(scope.domains[k])))
    ensures IsWithinScope(h, scope)
  {
    BareHostIsNormal(h);
  }

  /**
   * Only the text after the last `://` is checked: for `http://evil.com/?r=https://google.com`
   * (`a` is `evil.com/?r=https`) the host compared is `google.com`.
   */
  lemma LaterSchemeWins(scheme: string, a: string, h: string, scope: Scope)
    requires scheme == "http://" || scheme == "https://"
    requires IsBareHost(h)
    ensures NormalizeHost(scheme + a + "://" + h) == h
    ensures IsWithinScope(scheme + a + "://" + h, scope) == IsWithinScope(h, scope)
  {
    var t := scheme + a + "://" + h;
    assert t == (scheme + a) + "://" + h;
    ContainsChar(h, '/');
    if Contains(h, "://") {
      ContainsHasChar(h, "://", 1);
    }
    TextAfterLastSeparator(scheme + a, h);
    assert StartsWith(t, scheme);
    LastSchemeDecides(t, scope);
    BareHostIsNormal(h);
  }

  /** Every character of an occurring pattern occurs in the text. */
  lemma {:induction false} ContainsHasChar(s: string, p: string, i: nat)
    requires Contains(s, p) && i < |p|
    ensures p[i] in s
    decreases |s|
  {
    if StartsWith(s, p) {
      assert s[..|p|][i] == s[i];
    } else {
      ContainsHasChar(s[1..], p, i);
    }
  }
}
