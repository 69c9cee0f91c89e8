/** getVersion: the backend's version, from the output of `docker run
    <image> version`, else from the image tag, else "snapshot". */
module Version {
  import opened Wrappers
  import Strings

  /** `\d` in Go's regexp syntax: an ASCII digit. */
  predicate IsDigit(c: char) { '0' <= c <= '9' }

  predicate AllDigits(t: string) { forall i :: 0 <= i < |t| ==> IsDigit(t[i]) }

  /** `t` splits as digits, '.', digits, '.', digits at the dots p and q,
      every run non-empty. */
  ghost predicate SemVerSplit(t: string, p: int, q: int) {
    0 < p && p + 1 < q && q + 1 < |t| &&
    AllDigits(t[..p]) && t[p] == '.' && AllDigits(t[p + 1..q]) && t[q] == '.' && AllDigits(t[q + 1..])
  }

  /** `t` is matched by `\d+\.\d+\.\d+`. */
  ghost predicate IsSemVer(t: string) {
    exists p, q :: SemVerSplit(t, p, q)
  }

  /** `v` followed by s[i+1..j] is a match of `v(\d+\.\d+\.\d+)`. */
  ghost predicate IsMatch(s: string, i: int, j: int) {
    0 <= i && i + 1 < j <= |s| && s[i] == 'v' && IsSemVer(s[i + 1..j])
  }

  /** The pattern has a match starting at position i of s. */
  ghost predicate MatchesAt(s: string, i: int) {
    exists j :: IsMatch(s, i, j)
  }

  /** `v` is what FindStringSubmatch captures: the match starting at k is the
      leftmost one, and its last digit run is taken greedily (the capture is
      not followed by another digit). */
  ghost predicate IsLeftmostCapture(s: string, k: int, v: string) {
    0 <= k && k + 1 + |v| <= |s| && s[k + 1..k + 1 + |v|] == v && IsMatch(s, k, k + 1 + |v|) &&
    (k + 1 + |v| == |s| || !IsDigit(s[k + 1 + |v|])) &&
    forall k' :: 0 <= k' < k ==> !MatchesAt(s, k')
  }

  /** Every position in [a, b) of s holds a digit. */
  ghost predicate DigitsBetween(s: string, a: int, b: int) {
    forall j :: a <= j < b ==> 0 <= j < |s| && IsDigit(s[j])
  }

  lemma AllDigitsSlice(s: string, a: int, b: int)
    requires 0 <= a <= b <= |s|
    ensures AllDigits(s[a..b]) <==> DigitsBetween(s, a, b)
  {
    assert forall j :: a <= j < b ==> s[a..b][j - a] == s[j];
  }

  /** Dots at the absolute positions p and q of s split s[i+1..j] into three digit runs. */
  ghost predicate SplitAt(s: string, i: int, j: int, p: int, q: int) {
    0 <= i && i + 1 < p && p + 1 < q && q + 1 < j <= |s| &&
    DigitsBetween(s, i + 1, p) && s[p] == '.' && DigitsBetween(s, p + 1, q) && s[q] == '.' &&
    DigitsBetween(s, q + 1, j)
  }

  /** Dots splitting a capture are dots splitting s at the shifted positions. */
  lemma SemVerToSplit(s: string, i: int, j: int, p: int, q: int)
    requires 0 <= i && i + 1 <= j <= |s|
    requires SemVerSplit(s[i + 1..j], p, q)
    ensures SplitAt(s, i, j, i + 1 + p, i + 1 + q)
  {
    var t := s[i + 1..j];
    SliceOfSlice(s, i + 1, j, 0, p);
    SliceOfSlice(s, i + 1, j, p + 1, q);
    SliceOfSlice(s, i + 1, j, q + 1, |t|);
    AllDigitsSlice(s, i + 1, i + 1 + p);
    AllDigitsSlice(s, i + 2 + p, i + 1 + q);
    AllDigitsSlice(s, i + 2 + q, j);
  }

  /** Dots splitting s between i+1 and j split the capture s[i+1..j]. */
  lemma SplitToSemVer(s: string, i: int, j: int, p: int, q: int)
    requires SplitAt(s, i, j, p, q)
    ensures SemVerSplit(s[i + 1..j], p - i - 1, q - i - 1)
  {
    var t := s[i + 1..j];
    var p', q' := p - i - 1, q - i - 1;
    SliceOfSlice(s, i + 1, j, 0, p');
    SliceOfSlice(s, i + 1, j, p' + 1, q');
    SliceOfSlice(s, i + 1, j, q' + 1, |t|);
    AllDigitsSlice(s, i + 1, p);
    AllDigitsSlice(s, p + 1, q);
    AllDigitsSlice(s, q + 1, j);
  }

  lemma SliceOfSlice(s: string, a: int, b: int, c: int, d: int)
    requires 0 <= a <= b <= |s| && 0 <= c <= d <= b - a
    ensures s[a..b][c..d] == s[a + c..a + d]
  {
    forall k | 0 <= k < d - c ensures s[a..b][c..d][k] == s[a + c..a + d][k] {
      assert s[a..b][c..d][k] == s[a + c + k];
    }
  }

  /** Length of the run of digits that starts at position a. */
  function DigitRun(s: string, a: nat): (n: nat)
    requires a <= |s|
    ensures a + n <= |s|
    ensures DigitsBetween(s, a, a + n)
    ensures a + n == |s| || !IsDigit(s[a + n])
    decreases |s| - a
  {
    if a < |s| && IsDigit(s[a]) then DigitRun(s, a + 1) + 1 else 0
  }

  /** A digit run that ends at a non-digit (or at the end of s) is the whole run. */
  lemma DigitRunExact(s: string, a: nat, b: nat)
    requires a <= b <= |s|
    requires DigitsBetween(s, a, b)
    requires b == |s| || !IsDigit(s[b])
    ensures DigitRun(s, a) == b - a
  {
  }

  /** Digits on [a, b) mean the run at a reaches at least b. */
  lemma DigitRunAtLeast(s: string, a: nat, b: nat)
    requires a <= b <= |s|
    requires DigitsBetween(s, a, b)
    ensures a + DigitRun(s, a) >= b
  {
  }

  /** The position of the '.' that ends a non-empty digit run starting at a,
      if the run is followed by one. */
  function RunThenDot(s: string, a: nat): (r: Option<nat>)
    requires a <= |s|
    ensures r.Some? ==> a < r.value < |s| && s[r.value] == '.' && DigitsBetween(s, a, r.value)
  {
    var p := a + DigitRun(s, a);
    if p == a || p == |s| || s[p] != '.' then None else Some(p)
  }

  /** Digits on [a, p) followed by a '.' at p are found by RunThenDot. */
  lemma RunThenDotAt(s: string, a: nat, p: nat)
    requires a < p < |s| && DigitsBetween(s, a, p) && s[p] == '.'
    ensures RunThenDot(s, a) == Some(p)
  {
    DigitRunExact(s, a, p);
  }

  /** The end (exclusive) of the greedy match of `v\d+\.\d+\.\d+` starting at i, if any. */
  function MatchEnd(s: string, i: nat): Option<nat>
    requires i <= |s|
  {
    if i == |s| || s[i] != 'v' then None
    else
      match RunThenDot(s, i + 1)
      case None => None
      case Some(p) =>
        match RunThenDot(s, p + 1)
        case None => None
        case Some(q) =>
          var d := DigitRun(s, q + 1);
          if d == 0 then None else Some(q + 1 + d)
  }

  /** What MatchEnd finds is a match, and a greedy one. */
  lemma MatchEndSound(s: string, i: nat)
    requires i <= |s| && MatchEnd(s, i).Some?
    ensures var j := MatchEnd(s, i).value;
      IsMatch(s, i, j) && (j == |s| || !IsDigit(s[j]))
  {
    var p := RunThenDot(s, i + 1).value;
    var q := RunThenDot(s, p + 1).value;
    var j := MatchEnd(s, i).value;
    assert SplitAt(s, i, j, p, q);
    SplitToSemVer(s, i, j, p, q);
  }

  /** Every match at i is found by MatchEnd, which ends at least as far, and
      exactly there when the match is not followed by a digit. */
  lemma MatchEndComplete(s: string, i: nat, j: nat)
    requires IsMatch(s, i, j)
    ensures MatchEnd(s, i).Some? && j <= MatchEnd(s, i).value
    ensures j == |s| || !IsDigit(s[j]) ==> MatchEnd(s, i) == Some(j)
  {
    var p', q' :| SemVerSplit(s[i + 1..j], p', q');
    SemVerToSplit(s, i, j, p', q');
    MatchEndOfSplit(s, i, j, i + 1 + p', i + 1 + q');
  }

  /** The same, for a match given by the absolute positions of its dots. */
  lemma MatchEndOfSplit(s: string, i: nat, j: nat, p: nat, q: nat)
    requires SplitAt(s, i, j, p, q) && s[i] == 'v'
    ensures MatchEnd(s, i).Some? && j <= MatchEnd(s, i).value
    ensures j == |s| || !IsDigit(s[j]) ==> MatchEnd(s, i) == Some(j)
  {
    RunThenDotAt(s, i + 1, p);
    RunThenDotAt(s, p + 1, q);
    DigitRunAtLeast(s, q + 1, j);
    if j == |s| || !IsDigit(s[j]) {
      DigitRunExact(s, q + 1, j);
    }
  }

  /** MatchEnd finds a match exactly where the pattern matches. */
  lemma MatchEndIff(s: string, i: nat)
    requires i <= |s|
    ensures MatchEnd(s, i).Some? <==> MatchesAt(s, i)
  {
    if MatchEnd(s, i).Some? {
      MatchEndSound(s, i);
    }
    if MatchesAt(s, i) {
      var j :| IsMatch(s, i, j);
      MatchEndComplete(s, i, j);
    }
  }

  /** The capture of the first match at or after position i. */
  function FindFrom(s: string, i: nat): Option<string>
    requires i <= |s|
    decreases |s| - i
  {
    if i == |s| then None
    else
      match MatchEnd(s, i)
      case Some(j) => Some(s[i + 1..j])
      case None => FindFrom(s, i + 1)
  }

  /** regexp.MustCompile(`v(\d+\.\d+\.\d+)`).FindStringSubmatch(s)[1], when there is a match. */
  function FindVersion(s: string): Option<string> { FindFrom(s, 0) }

  lemma {:induction false} FindFromNone(s: string, i: nat)
    requires i <= |s|
    ensures FindFrom(s, i).None? <==> forall k :: i <= k < |s| ==> !MatchesAt(s, k)
    decreases |s| - i
  {
    if i < |s| {
      MatchEndIff(s, i);
      FindFromNone(s, i + 1);
    }
  }

  lemma {:induction false} FindFromSome(s: string, i: nat)
    requires i <= |s|
    requires forall k :: 0 <= k < i ==> !MatchesAt(s, k)
    ensures FindFrom(s, i).Some? ==> exists k :: IsLeftmostCapture(s, k, FindFrom(s, i).value)
    decreases |s| - i
  {
    if i < |s| {
      MatchEndIff(s, i);
      if MatchEnd(s, i).Some? {
        MatchEndSound(s, i);
        assert IsLeftmostCapture(s, i, FindFrom(s, i).value);
      } else {
        FindFromSome(s, i + 1);
      }
    }
  }

  /** A leftmost greedy capture is the one the search returns. */
  lemma FindFromCapture(s: string, i: nat, k: nat, v: string)
    requires i <= k && IsLeftmostCapture(s, k, v)
    ensures FindFrom(s, i) == Some(v)
  {
    forall m | i <= m < k
      ensures MatchEnd(s, m).None?
    {
      MatchEndIff(s, m);
    }
    MatchEndComplete(s, k, k + 1 + |v|);
    FindFromAt(s, i, k, k + 1 + |v|);
  }

  /** The search from i stops at the first position with a match. */
  lemma {:induction false} FindFromAt(s: string, i: nat, k: nat, j: nat)
    requires i <= k < |s| && MatchEnd(s, k) == Some(j)
    requires forall m :: i <= m < k ==> MatchEnd(s, m).None?
    ensures k + 1 <= j <= |s| && FindFrom(s, i) == Some(s[k + 1..j])
    decreases k - i
  {
    if i < k {
      FindFromAt(s, i + 1, k, j);
    }
  }

  /** The search finds nothing exactly when the pattern matches nowhere, and
      otherwise returns the capture of the leftmost, greedy match. */
  lemma FindVersionSpec(s: string)
    ensures FindVersion(s).None? <==> forall k :: 0 <= k < |s| ==> !MatchesAt(s, k)
    ensures forall v :: FindVersion(s) == Some(v) <==> exists k :: IsLeftmostCapture(s, k, v)
  {
    FindFromNone(s, 0);
    FindFromSome(s, 0);
    forall v | exists k :: IsLeftmostCapture(s, k, v)
      ensures FindVersion(s) == Some(v)
    {
      var k :| IsLeftmostCapture(s, k, v);
      FindFromCapture(s, 0, k, v);
    }
  }

  /** getVersion. `output` is the outcome of `docker run <image> version`:
      None when the command failed. The Go function's error result is
      always nil, so the model returns the version alone. */
  function GetVersion(image: string, output: Option<string>): string {
    var found := if output.Some? then FindVersion(output.value) else None;
    if found.Some? then found.value
    else
      var tag := Strings.Split(image, ':');
      if |tag| > 1 then tag[|tag| - 1] else "snapshot"
  }

  /** The three ways a version is resolved: the leftmost `v<major>.<minor>.<patch>`
      of the command output (without the `v`); otherwise the text after the
      last ':' of the image reference; otherwise "snapshot". */
  lemma GetVersionSpec(image: string, output: Option<string>)
    ensures var version := GetVersion(image, output);
      (output.Some? && FindVersion(output.value).Some? ==>
         exists k :: IsLeftmostCapture(output.value, k, version)) &&
      ((output.None? || forall k :: 0 <= k < |output.value| ==> !MatchesAt(output.value, k)) ==>
         if ':' in image then
           |version| < |image| && image[|image| - |version| - 1] == ':' &&
           image[|image| - |version|..] == version && ':' !in version
         else version == "snapshot")
  {
    var version := GetVersion(image, output);
    if output.Some? {
      FindVersionSpec(output.value);
    }
    var tag := Strings.Split(image, ':');
    Strings.SplitMany(image, ':');
    if |tag| > 1 {
      Strings.JoinSplit(image, ':');
      Strings.JoinLast(tag, ':');
      var front := Strings.Join(tag[..|tag| - 1], ':');
      assert image == front + [':'] + tag[|tag| - 1];
    }
  }

  /** A version in the command output wins: `v1.2.3` gives 1.2.3. */
  lemma VersionFromOutput()
    ensures GetVersion("foo:edge", Some("v1.2.3")) == "1.2.3"
  {
    var out := "v1.2.3";
    assert SplitAt(out, 0, 6, 2, 4);
    SplitToSemVer(out, 0, 6, 2, 4);
    assert out[1..6] == "1.2.3";
    assert IsLeftmostCapture(out, 0, "1.2.3");
    FindVersionSpec(out);
  }

  /** Without output, the tag of `foo:edge` gives edge. */
  lemma VersionFromTag()
    ensures GetVersion("foo:edge", None) == "edge"
  {
    Strings.SplitJoin(["foo", "edge"], ':');
    assert Strings.Join(["foo", "edge"], ':') == "foo:edge";
  }

  /** Output without a version and an image without a tag give snapshot. */
  lemma VersionSnapshot()
    ensures GetVersion("foo", Some("unknown")) == "snapshot"
  {
    var out := "unknown";
    forall k | 0 <= k < |out| ensures !MatchesAt(out, k) {
      assert out[k] != 'v';
    }
    FindVersionSpec(out);
    Strings.SplitMany("foo", ':');
  }
}
