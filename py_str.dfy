/**
 * The Python `str` operations the orchestration code relies on, over `seq<char>`:
 * `startswith`, `endswith`, the substring test `in`, `split(sep)`, `sep.join(parts)`,
 * `replace(old, new)`, `strip()` and `lower()`.
 */
module PyStr {

  /** `s.startswith(p)` */
  predicate StartsWith(s: string, p: string) {
    |p| <= |s| && s[..|p|] == p
  }

  /** `s.startswith(('http://', 'https://'))` */
  predicate HasScheme(s: string) {
    StartsWith(s, "http://") || StartsWith(s, "https://")
  }

  /** A text starts with whatever was put in front of it. */
  lemma StartsWithAppend(p: string, y: string)
    ensures StartsWith(p + y, p)
  {
    assert (p + y)[..|p|] == p;
  }

  /** Appending keeps a prefix. */
  lemma StartsWithExtended(s: string, p: string, y: string)
    requires StartsWith(s, p)
    ensures StartsWith(s + y, p)
  {
    assert (s + y)[..|p|] == s[..|p|];
  }

  /** Appending keeps a scheme in front. */
  lemma SchemeExtended(s: string, y: string)
    requires HasScheme(s)
    ensures HasScheme(s + y)
  {
    if StartsWith(s, "http://") {
      StartsWithExtended(s, "http://", y);
    } else {
      StartsWithExtended(s, "https://", y);
    }
  }

  /** A text ends with whatever was put behind it. */
  lemma EndsWithAppend(x: string, p: string)
    ensures EndsWith(x + p, p)
  {
    assert (x + p)[|x + p| - |p|..] == p;
  }

  /** A scheme prefix holds a `/`. */
  lemma SchemeHasSlash(s: string)
    requires HasScheme(s)
    ensures '/' in s
  {
    if StartsWith(s, "http://") {
      assert s[5] == s[..7][5];
    } else {
      assert s[6] == s[..8][6];
    }
  }

  lemma NoSlashNoScheme(s: string)
    requires '/' !in s
    ensures !HasScheme(s)
  {
    if HasScheme(s) {
      SchemeHasSlash(s);
    }
  }

  /** `s.endswith(p)` */
  predicate EndsWith(s: string, p: string) {
    |p| <= |s| && s[|s| - |p|..] == p
  }

  /** `p in s`: an occurrence of `p` starts at some position of `s`. */
  predicate Contains(s: string, p: string)
    decreases |s|
  {
    StartsWith(s, p) || (|s| > 0 && Contains(s[1..], p))
  }

  lemma {:induction false} ContainsAt(s: string, p: string, i: nat)
    requires i <= |s| && StartsWith(s[i..], p)
    ensures Contains(s, p)
  {
    if i > 0 {
      assert s[1..][i - 1..] == s[i..];
      ContainsAt(s[1..], p, i - 1);
    }
  }

  lemma {:induction false} ContainsIsShorter(s: string, p: string)
    requires Contains(s, p)
    ensures |p| <= |s|
  {
    if !StartsWith(s, p) {
      ContainsIsShorter(s[1..], p);
    }
  }

  lemma ShortNoContains(s: string, p: string)
    requires |s| < |p|
    ensures !Contains(s, p)
  {
    if Contains(s, p) {
      ContainsIsShorter(s, p);
    }
  }

  /** For a one-character pattern, the substring test is membership. */
  lemma {:induction false} ContainsChar(s: string, c: char)
    ensures Contains(s, [c]) <==> c in s
  {
    if |s| > 0 {
      ContainsChar(s[1..], c);
      assert s == [s[0]] + s[1..];
    }
  }

  /** An occurrence inside `y` is an occurrence inside `x + y`. */
  lemma {:induction false} ContainsInSuffix(x: string, y: string, p: string)
    requires Contains(y, p)
    ensures Contains(x + y, p)
  {
    if x != [] {
      assert (x + y)[1..] == x[1..] + y;
      ContainsInSuffix(x[1..], y, p);
    } else {
      assert x + y == y;
    }
  }

  /** `sep.join(parts)` */
  function Join(sep: string, parts: seq<string>): string
  {
    if |parts| == 0 then []
    else if |parts| == 1 then parts[0]
    else parts[0] + sep + Join(sep, parts[1..])
  }

  lemma JoinStartsWithFirst(sep: string, parts: seq<string>)
    requires |parts| >= 1
    ensures StartsWith(Join(sep, parts), parts[0])
  {
    if |parts| > 1 {
      assert Join(sep, parts) == parts[0] + (sep + Join(sep, parts[1..]));
    }
  }

  /** Extending the first part extends the joined text at its front. */
  lemma JoinConsFirst(sep: string, c: char, parts: seq<string>)
    requires |parts| >= 1
    ensures Join(sep, [[c] + parts[0]] + parts[1..]) == [c] + Join(sep, parts)
  {
    var q := [[c] + parts[0]] + parts[1..];
    assert q[1..] == parts[1..];
  }

  /** Appending one part adds the separator and that part at the back. */
  lemma {:induction false} JoinSnoc(sep: string, parts: seq<string>, last: string)
    requires |parts| >= 1
    ensures Join(sep, parts + [last]) == Join(sep, parts) + sep + last
  {
    var q := parts + [last];
    if |parts| == 1 {
      assert q[1..] == [last];
    } else {
      assert q[1..] == parts[1..] + [last];
      JoinSnoc(sep, parts[1..], last);
    }
  }

  /** Joining two non-empty lists joins their joined texts with one more separator. */
  lemma {:induction false} JoinAppend(sep: string, a: seq<string>, b: seq<string>)
    requires |a| >= 1 && |b| >= 1
    ensures Join(sep, a + b) == Join(sep, a) + sep + Join(sep, b)
    decreases |a|
  {
    if |a| == 1 {
      assert (a + b)[1..] == b;
    } else {
      assert (a + b)[1..] == a[1..] + b;
      JoinAppend(sep, a[1..], b);
    }
  }

  /** Splitting at a one-character separator undoes a join of parts that do not hold it. */
  lemma {:induction false} SplitJoinInverse(c: char, parts: seq<string>)
    requires |parts| >= 1
    requires forall k :: 0 <= k < |parts| ==> c !in parts[k]
    ensures Split(Join([c], parts), [c]) == parts
    decreases |parts|
  {
    ContainsChar(parts[0], c);
    if |parts| == 1 {
      SplitWithout(parts[0], [c]);
    } else {
      var rest := parts[1..];
      var tail := Join([c], rest);
      assert Join([c], parts) == parts[0] + ([c] + tail);
      assert forall i :: 0 <= i < |parts[0]| ==> parts[0][i] != [c][0];
      SplitSkip(parts[0], [c] + tail, [c]);
      SplitAtSeparator([c], tail);
      SplitJoinInverse(c, rest);
      var s := Split([c] + tail, [c]);
      assert s == [[]] + rest;
      assert parts[0] + s[0] == parts[0];
      assert [parts[0]] + rest == parts;
    }
  }

  /** The last element of a non-empty list, `parts[-1]`. */
  function Last<T>(parts: seq<T>): T
    requires |parts| >= 1
  {
    parts[|parts| - 1]
  }

  /** Parts put in front leave the last part alone. */
  lemma LastBehindFront<T>(front: seq<T>, parts: seq<T>)
    requires |parts| >= 1
    ensures Last(front + parts) == Last(parts)
  {
  }

  /**
   * `s.split(sep)`: scanning from the left, every non-overlapping occurrence of `sep`
   * ends one part and starts the next.
   */
  function Split(s: string, sep: string): (parts: seq<string>)
    requires sep != []
    ensures |parts| >= 1
    decreases |s|
  {
    if |s| < |sep| then [s]
    else if s[..|sep|] == sep then [[]] + Split(s[|sep|..], sep)
    else
      var rest := Split(s[1..], sep);
      [[s[0]] + rest[0]] + rest[1..]
  }

  /** Joining the parts of a split with the separator gives the text back. */
  lemma {:induction false} SplitJoin(s: string, sep: string)
    requires sep != []
    ensures Join(sep, Split(s, sep)) == s
    decreases |s|
  {
    if |s| < |sep| {
    } else if s[..|sep|] == sep {
      var rest := Split(s[|sep|..], sep);
      SplitJoin(s[|sep|..], sep);
      assert ([[]] + rest)[1..] == rest;
      assert Join(sep, [[]] + rest) == [] + sep + Join(sep, rest);
      EmptyThenRest(sep, s);
    } else {
      var rest := Split(s[1..], sep);
      SplitJoin(s[1..], sep);
      JoinConsFirst(sep, s[0], rest);
      assert s == [s[0]] + s[1..];
    }
  }

  /** Text that starts with the separator is the empty first part, the separator and the rest. */
  lemma EmptyThenRest(sep: string, s: string)
    requires |sep| <= |s| && s[..|sep|] == sep
    ensures [] + sep + s[|sep|..] == s
  {
    assert s == s[..|sep|] + s[|sep|..];
  }

  /** No part of a split contains the separator. */
  lemma {:induction false} SplitPartsClean(s: string, sep: string)
    requires sep != []
    ensures forall k :: 0 <= k < |Split(s, sep)| ==> !Contains(Split(s, sep)[k], sep)
    decreases |s|
  {
    var parts := Split(s, sep);
    if |s| < |sep| {
      ShortNoContains(s, sep);
    } else if s[..|sep|] == sep {
      SplitPartsClean(s[|sep|..], sep);
      assert !Contains([], sep);
      assert forall k :: 1 <= k < |parts| ==> parts[k] == Split(s[|sep|..], sep)[k - 1];
    } else {
      var rest := Split(s[1..], sep);
      SplitPartsClean(s[1..], sep);
      FirstPartClean(s, sep, rest);
      assert forall k :: 1 <= k < |parts| ==> parts[k] == rest[k];
    }
  }

  /** When the text does not start with the separator, its first character glued to the first part of the rest is clean. */
  lemma FirstPartClean(s: string, sep: string, rest: seq<string>)
    requires sep != [] && |sep| <= |s| && s[..|sep|] != sep
    requires rest == Split(s[1..], sep) && !Contains(rest[0], sep)
    ensures !Contains([s[0]] + rest[0], sep)
  {
    SplitJoin(s[1..], sep);
    var first := [s[0]] + rest[0];
    JoinStartsWithFirst(sep, rest);
    assert s == [s[0]] + s[1..];
    assert StartsWith(s, first);
    assert first[1..] == rest[0];
    assert !StartsWith(first, sep);
  }

  /** The first part of a split at one character holds no such character and only characters of the text. */
  lemma FirstPieceChars(s: string, c: char)
    ensures c !in Split(s, [c])[0]
    ensures forall x :: x in Split(s, [c])[0] ==> x in s
  {
    var piece := Split(s, [c])[0];
    SplitPartsClean(s, [c]);
    ContainsChar(piece, c);
    SplitFirstIsPrefix(s, [c]);
    assert s[..|piece|] == piece;
  }

  /** The first part of a split is a prefix of the text. */
  lemma SplitFirstIsPrefix(s: string, sep: string)
    requires sep != []
    ensures StartsWith(s, Split(s, sep)[0])
  {
    SplitJoin(s, sep);
    JoinStartsWithFirst(sep, Split(s, sep));
  }

  /** Without an occurrence of the separator, `split` returns the whole text. */
  lemma {:induction false} SplitWithout(s: string, sep: string)
    requires sep != [] && !Contains(s, sep)
    ensures Split(s, sep) == [s]
    decreases |s|
  {
    if |s| >= |sep| {
      assert !StartsWith(s, sep);
      SplitWithout(s[1..], sep);
      assert s == [s[0]] + s[1..];
    }
  }

  /** Text in front of the separator whose characters cannot start it stays in the first part. */
  lemma {:induction false} SplitSkip(x: string, y: string, sep: string)
    requires sep != []
    requires forall i :: 0 <= i < |x| ==> x[i] != sep[0]
    ensures Split(x + y, sep) == [x + Split(y, sep)[0]] + Split(y, sep)[1..]
    decreases |x|
  {
    var s := x + y;
    var ys := Split(y, sep);
    if x == [] {
      assert s == y;
      assert x + ys[0] == ys[0];
      assert [ys[0]] + ys[1..] == ys;
    } else if |s| < |sep| {
      assert !Contains(y, sep) by {
        if Contains(y, sep) { ContainsIsShorter(y, sep); }
      }
      SplitWithout(y, sep);
      assert Split(s, sep) == [s];
    } else {
      assert s[1..] == x[1..] + y;
      SplitSkip(x[1..], y, sep);
      var rest := Split(s[1..], sep);
      assert rest == [x[1..] + ys[0]] + ys[1..];
      assert s[..|sep|] != sep by {
        assert s[..|sep|][0] == x[0];
      }
      assert Split(s, sep) == [[s[0]] + rest[0]] + rest[1..];
      assert [s[0]] + rest[0] == x + ys[0];
      assert rest[1..] == ys[1..];
    }
  }

  /** A part that begins with the separator starts a new, empty first part. */
  lemma SplitAtSeparator(sep: string, y: string)
    requires sep != []
    ensures Split(sep + y, sep) == [[]] + Split(y, sep)
  {
    var s := sep + y;
    assert s[..|sep|] == sep;
    assert s[|sep|..] == y;
  }

  /**
   * `s.replace(pat, sub)`: every non-overlapping occurrence of `pat`, found scanning
   * from the left, is replaced by `sub`.
   */
  function Replace(s: string, pat: string, sub: string): string
    requires pat != []
    decreases |s|
  {
    if |s| < |pat| then s
    else if s[..|pat|] == pat then sub + Replace(s[|pat|..], pat, sub)
    else [s[0]] + Replace(s[1..], pat, sub)
  }

  /** Python's identity `s.replace(pat, sub) == sub.join(s.split(pat))`. */
  lemma {:induction false} ReplaceIsJoinSplit(s: string, pat: string, sub: string)
    requires pat != []
    ensures Replace(s, pat, sub) == Join(sub, Split(s, pat))
    decreases |s|
  {
    if |s| < |pat| {
      if Contains(s, pat) { ContainsIsShorter(s, pat); }
      SplitWithout(s, pat);
    } else if s[..|pat|] == pat {
      var rest := Split(s[|pat|..], pat);
      ReplaceIsJoinSplit(s[|pat|..], pat, sub);
      assert ([[]] + rest)[1..] == rest;
    } else {
      var rest := Split(s[1..], pat);
      ReplaceIsJoinSplit(s[1..], pat, sub);
      JoinConsFirst(sub, s[0], rest);
    }
  }

  /** Without an occurrence of the pattern, `replace` changes nothing. */
  lemma ReplaceWithout(s: string, pat: string, sub: string)
    requires pat != [] && !Contains(s, pat)
    ensures Replace(s, pat, sub) == s
  {
    SplitWithout(s, pat);
    ReplaceIsJoinSplit(s, pat, sub);
  }

  /** Text in front whose characters cannot start the pattern is kept as it is. */
  lemma {:induction false} ReplaceSkip(x: string, y: string, pat: string, sub: string)
    requires pat != []
    requires forall i :: 0 <= i < |x| ==> x[i] != pat[0]
    ensures Replace(x + y, pat, sub) == x + Replace(y, pat, sub)
    decreases |x|
  {
    var s := x + y;
    if x == [] {
      assert s == y;
    } else {
      assert s[1..] == x[1..] + y;
      ReplaceSkip(x[1..], y, pat, sub);
      if |s| < |pat| {
        if Contains(y, pat) { ContainsIsShorter(y, pat); }
        ReplaceWithout(y, pat, sub);
      } else {
        assert s[0] == x[0];
        assert s[..|pat|] != pat;
        assert [x[0]] + (x[1..] + Replace(y, pat, sub)) == x + Replace(y, pat, sub);
      }
    }
  }

  /** An occurrence of the pattern at the front is replaced first. */
  lemma ReplaceAtFront(pat: string, y: string, sub: string)
    requires pat != []
    ensures Replace(pat + y, pat, sub) == sub + Replace(y, pat, sub)
  {
    var s := pat + y;
    assert s[..|pat|] == pat;
    assert s[|pat|..] == y;
  }

  /** The whitespace characters of Python's `str.isspace()`. */
  predicate IsSpace(c: char) {
    c == ' ' || ('\t' <= c <= '\r') || ('\U{1C}' <= c <= '\U{1F}')
    || c == '\U{85}' || c == '\U{A0}' || c == '\U{1680}'
    || ('\U{2000}' <= c <= '\U{200A}') || c == '\U{2028}' || c == '\U{2029}'
    || c == '\U{202F}' || c == '\U{205F}' || c == '\U{3000}'
  }

  predicate AllSpace(s: string) {
    forall i :: 0 <= i < |s| ==> IsSpace(s[i])
  }

  /** Leading whitespace removed: what is left is a suffix that starts with a non-space. */
  function TrimStart(s: string): (r: string)
    ensures |r| <= |s| && r == s[|s| - |r|..]
    ensures AllSpace(s[..|s| - |r|])
    ensures r == [] || !IsSpace(r[0])
    decreases |s|
  {
    if |s| > 0 && IsSpace(s[0]) then
      var r := TrimStart(s[1..]);
      TrimmedFront(s, r);
      r
    else s
  }

  /** Trimming all but a first space character trims the whole text. */
  lemma TrimmedFront(s: string, r: string)
    requires |s| > 0 && IsSpace(s[0])
    requires |r| <= |s| - 1 && r == s[1..][|s| - 1 - |r|..]
    requires AllSpace(s[1..][..|s| - 1 - |r|])
    ensures r == s[|s| - |r|..] && AllSpace(s[..|s| - |r|])
  {
    var t := s[1..];
    var w, v := s[..|s| - |r|], t[..|t| - |r|];
    assert w == [s[0]] + v;
    forall i | 0 <= i < |w|
      ensures IsSpace(w[i])
    {
      if i > 0 {
        assert w[i] == v[i - 1];
      }
    }
  }

  /** Trailing whitespace removed: what is left is a prefix that ends with a non-space. */
  function TrimEnd(s: string): (r: string)
    ensures |r| <= |s| && r == s[..|r|]
    ensures AllSpace(s[|r|..])
    ensures r == [] || !IsSpace(r[|r| - 1])
    decreases |s|
  {
    if |s| > 0 && IsSpace(s[|s| - 1]) then
      var r := TrimEnd(s[..|s| - 1]);
      TrimmedBack(s, r);
      r
    else s
  }

  /** Trimming all but a last space character trims the whole text. */
  lemma TrimmedBack(s: string, r: string)
    requires |s| > 0 && IsSpace(s[|s| - 1])
    requires |r| <= |s| - 1 && r == s[..|s| - 1][..|r|]
    requires AllSpace(s[..|s| - 1][|r|..])
    ensures r == s[..|r|] && AllSpace(s[|r|..])
  {
    var p := s[..|s| - 1];
    var w, v := s[|r|..], p[|r|..];
    assert w == v + [s[|s| - 1]];
    forall i | 0 <= i < |w|
      ensures IsSpace(w[i])
    {
      if i < |v| {
        assert w[i] == v[i];
      } else {
        assert w[i] == s[|s| - 1];
      }
    }
  }

  /**
   * `s.strip()`: the middle of `s` between its leading and its trailing whitespace;
   * it neither starts nor ends with whitespace and holds only characters of `s`.
   */
  function Strip(s: string): (r: string)
    ensures r == [] || (!IsSpace(r[0]) && !IsSpace(r[|r| - 1]))
    ensures forall c :: c in r ==> c in s
  {
    var t := TrimStart(s);
    var r := TrimEnd(t);
    KeptChars(s, t, r);
    r
  }

  /** A prefix of a suffix holds only characters of the whole. */
  lemma KeptChars(s: string, t: string, r: string)
    requires |t| <= |s| && t == s[|s| - |t|..]
    requires |r| <= |t| && r == t[..|r|]
    ensures forall c :: c in r ==> c in s
  {
    forall c | c in r
      ensures c in s
    {
      var i :| 0 <= i < |r| && r[i] == c;
      assert s[|s| - |t| + i] == c;
    }
  }

  /** Text that starts and ends with a non-space is left unchanged by `strip`. */
  lemma StripUnpadded(s: string)
    requires s == [] || (!IsSpace(s[0]) && !IsSpace(s[|s| - 1]))
    ensures Strip(s) == s
  {
    assert TrimStart(s) == s;
    assert TrimEnd(s) == s;
  }

  /** Stripping twice is stripping once. */
  lemma StripIdempotent(s: string)
    ensures Strip(Strip(s)) == Strip(s)
  {
    StripUnpadded(Strip(s));
  }

  /** Whitespace around the text does not change what `strip` keeps. */
  lemma StripPadded(w1: string, h: string, w2: string)
    requires AllSpace(w1) && AllSpace(w2)
    ensures Strip(w1 + h + w2) == Strip(h)
  {
    var s := w1 + h + w2;
    assert s == w1 + (h + w2);
    TrimStartPadded(w1, h + w2);
    assert TrimStart(s) == TrimStart(h + w2);
    StripTrailing(h, w2);
    assert Strip(s) == TrimEnd(TrimStart(s));
    assert Strip(h) == TrimEnd(TrimStart(h));
  }

  /** Trailing whitespace does not change what `strip` keeps. */
  lemma StripTrailing(h: string, w: string)
    requires AllSpace(w)
    ensures TrimEnd(TrimStart(h + w)) == TrimEnd(TrimStart(h))
  {
    if TrimStart(h) == [] {
      TrimStartAllSpace(h, w);
    } else {
      TrimStartKeepsTail(h, w);
      TrimEndPadded(TrimStart(h), w);
    }
  }

  lemma {:induction false} TrimStartPadded(w: string, s: string)
    requires AllSpace(w)
    ensures TrimStart(w + s) == TrimStart(s)
    decreases |w|
  {
    if w == [] {
      assert w + s == s;
    } else {
      assert (w + s)[1..] == w[1..] + s;
      TrimStartPadded(w[1..], s);
    }
  }

  lemma {:induction false} TrimStartAllSpace(h: string, w: string)
    requires TrimStart(h) == [] && AllSpace(w)
    ensures TrimStart(h + w) == []
  {
    assert AllSpace(h);
    assert AllSpace(h + w);
    AllSpaceTrimsToEmpty(h + w);
  }

  lemma {:induction false} AllSpaceTrimsToEmpty(s: string)
    requires AllSpace(s)
    ensures TrimStart(s) == [] && TrimEnd(s) == []
    decreases |s|
  {
    if s != [] {
      AllSpaceTrimsToEmpty(s[1..]);
      AllSpaceTrimsToEmpty(s[..|s| - 1]);
    }
  }

  lemma {:induction false} TrimStartKeepsTail(h: string, w: string)
    requires TrimStart(h) != []
    ensures TrimStart(h + w) == TrimStart(h) + w
    decreases |h|
  {
    if IsSpace(h[0]) {
      assert (h + w)[1..] == h[1..] + w;
      TrimStartKeepsTail(h[1..], w);
    }
  }

  lemma {:induction false} TrimEndPadded(t: string, w: string)
    requires AllSpace(w)
    ensures TrimEnd(t + w) == TrimEnd(t)
    decreases |w|
  {
    if w == [] {
      assert t + w == t;
    } else {
      var s := t + w;
      assert s[..|s| - 1] == t + w[..|w| - 1];
      TrimEndPadded(t, w[..|w| - 1]);
    }
  }

  /** ASCII case mapping of one character. */
  function LowerChar(c: char): char {
    if 'A' <= c <= 'Z' then (c as int + 32) as char else c
  }

  /** Lower-casing a character keeps it blank or not, and makes `/` and `?` only of themselves. */
  lemma LowerCharFacts(c: char)
    ensures IsSpace(LowerChar(c)) == IsSpace(c)
    ensures LowerChar(c) == '/' ==> c == '/'
    ensures LowerChar(c) == '?' ==> c == '?'
  {
  }

  /** `s.lower()` for ASCII letters. */
  function Lower(s: string): (r: string)
    ensures |r| == |s|
    ensures forall i :: 0 <= i < |s| ==> r[i] == LowerChar(s[i])
  {
    seq(|s|, i requires 0 <= i < |s| => LowerChar(s[i]))
  }

  /** Lower-casing twice is lower-casing once. */
  lemma LowerIdempotent(s: string)
    ensures Lower(Lower(s)) == Lower(s)
  {
  }

  /** Lower-casing keeps whitespace and non-whitespace apart, so it commutes with `strip`. */
  lemma StripLowerCommute(s: string)
    ensures Strip(Lower(s)) == Lower(Strip(s))
  {
    assert forall c :: IsSpace(LowerChar(c)) == IsSpace(c);
    TrimStartLower(s);
    TrimEndLower(TrimStart(s));
  }

  lemma {:induction false} TrimStartLower(s: string)
    ensures TrimStart(Lower(s)) == Lower(TrimStart(s))
    decreases |s|
  {
    if |s| > 0 {
      assert IsSpace(LowerChar(s[0])) == IsSpace(s[0]);
      assert Lower(s)[1..] == Lower(s[1..]);
      TrimStartLower(s[1..]);
    }
  }

  lemma {:induction false} TrimEndLower(s: string)
    ensures TrimEnd(Lower(s)) == Lower(TrimEnd(s))
    decreases |s|
  {
    if |s| > 0 {
      assert IsSpace(LowerChar(s[|s| - 1])) == IsSpace(s[|s| - 1]);
      assert Lower(s)[..|s| - 1] == Lower(s[..|s| - 1]);
      TrimEndLower(s[..|s| - 1]);
    }
  }
}
