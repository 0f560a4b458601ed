/**
 * String helpers shared by the Go backend and the TypeScript frontend models:
 * whitespace trimming, ASCII case mapping, prefix tests and the leftmost,
 * non-overlapping replace-all of Go's strings.ReplaceAll and of JavaScript's
 * global String.replace.
 */
module Text {

  /** The ASCII white-space characters both `strings.TrimSpace` and `String.trim` remove. */
  predicate IsSpace(c: char) {
    c == ' ' || c == '\t' || c == '\n' || c == '\r' || c == '\U{000B}' || c == '\U{000C}'
  }

  predicate AllSpace(s: string) {
    forall i :: 0 <= i < |s| ==> IsSpace(s[i])
  }

  /** Neither end of `s` is white space. */
  predicate IsTrimmed(s: string) {
    s == [] || (!IsSpace(s[0]) && !IsSpace(s[|s| - 1]))
  }

  /** The length of the run of white space that starts `s`. */
  function LeadingSpaces(s: string): (n: nat)
    ensures n <= |s|
    ensures forall k :: 0 <= k < n ==> IsSpace(s[k])
    ensures n < |s| ==> !IsSpace(s[n])
  {
    if |s| > 0 && IsSpace(s[0]) then 1 + LeadingSpaces(s[1..]) else 0
  }

  /** The length of the run of white space that ends `s`. */
  function TrailingSpaces(s: string): (n: nat)
    ensures n <= |s|
    ensures forall k :: |s| - n <= k < |s| ==> IsSpace(s[k])
    ensures n < |s| ==> !IsSpace(s[|s| - n - 1])
  {
    if |s| > 0 && IsSpace(s[|s| - 1]) then 1 + TrailingSpaces(s[..|s| - 1]) else 0
  }

  /** Drops leading white space: the result is the suffix that follows a run of spaces. */
  function TrimLeft(s: string): (r: string)
    ensures |r| <= |s|
    ensures forall k :: 0 <= k < |r| ==> r[k] == s[|s| - |r| + k]
    ensures forall k :: 0 <= k < |s| - |r| ==> IsSpace(s[k])
    ensures r == [] || !IsSpace(r[0])
  {
    s[LeadingSpaces(s)..]
  }

  /** Drops trailing white space: the result is the prefix before a run of spaces. */
  function TrimRight(s: string): (r: string)
    ensures |r| <= |s|
    ensures forall k :: 0 <= k < |r| ==> r[k] == s[k]
    ensures forall k :: |r| <= k < |s| ==> IsSpace(s[k])
    ensures r == [] || !IsSpace(r[|r| - 1])
  {
    s[..|s| - TrailingSpaces(s)]
  }

  /** strings.TrimSpace (Go) and String.prototype.trim (JavaScript), on ASCII white space. */
  function TrimSpace(s: string): (r: string)
    ensures IsTrimmed(r)
    ensures r == [] <==> AllSpace(s)
    ensures exists a, b :: s == a + r + b && AllSpace(a) && AllSpace(b)
  {
    var l := TrimLeft(s);
    var r := TrimRight(l);
    var n := |s| - |l|;
    assert r == s[n..n + |r|];
    CutBothEnds(s, n, n + |r|);
    r
  }

  /** A string is its middle part between a white-space prefix and a white-space suffix. */
  lemma CutBothEnds(s: string, n: nat, m: nat)
    requires n <= m <= |s|
    requires AllSpace(s[..n]) && AllSpace(s[m..])
    ensures exists a, b :: s == a + s[n..m] + b && AllSpace(a) && AllSpace(b)
  {
    assert s == s[..n] + s[n..m] + s[m..];
  }

  /** Trimming twice is trimming once. */
  lemma {:induction false} TrimSpaceIdempotent(s: string)
    ensures TrimSpace(TrimSpace(s)) == TrimSpace(s)
  {
    var t := TrimSpace(s);
    assert TrimLeft(t) == t;
    assert TrimRight(t) == t;
  }

  function UpperChar(c: char): char {
    if 'a' <= c <= 'z' then (c as int - 'a' as int + 'A' as int) as char else c
  }

  function LowerChar(c: char): char {
    if 'A' <= c <= 'Z' then (c as int - 'A' as int + 'a' as int) as char else c
  }

  /** strings.ToUpper restricted to ASCII letters. */
  function ToUpper(s: string): (r: string)
    ensures |r| == |s|
    ensures forall i :: 0 <= i < |s| ==> r[i] == UpperChar(s[i])
  {
    seq(|s|, i requires 0 <= i < |s| => UpperChar(s[i]))
  }

  /** strings.ToLower restricted to ASCII letters. */
  function ToLower(s: string): (r: string)
    ensures |r| == |s|
    ensures forall i :: 0 <= i < |s| ==> r[i] == LowerChar(s[i])
  {
    seq(|s|, i requires 0 <= i < |s| => LowerChar(s[i]))
  }

  predicate HasPrefix(s: string, prefix: string) {
    |prefix| <= |s| && s[..|prefix|] == prefix
  }

  /** strings.TrimPrefix: removes `prefix` once when `s` starts with it. */
  function TrimPrefix(s: string, prefix: string): (r: string)
    ensures HasPrefix(s, prefix) ==> s == prefix + r
    ensures !HasPrefix(s, prefix) ==> r == s
  {
    if HasPrefix(s, prefix) then s[|prefix|..] else s
  }

  /** strings.Join: the parts with `sep` between each two neighbours. */
  function Join(parts: seq<string>, sep: string): (r: string)
    ensures |parts| == 1 ==> r == parts[0]
    ensures |parts| > 1 ==> HasPrefix(r, parts[0] + sep)
    ensures |parts| > 0 ==> HasPrefix(r, parts[0])
  {
    if |parts| == 0 then ""
    else if |parts| == 1 then parts[0]
    else parts[0] + sep + Join(parts[1..], sep)
  }

  /** `w` occurs somewhere in `s` as a contiguous block. */
  predicate Occurs(w: string, s: string)
    decreases |s|
  {
    HasPrefix(s, w) || (|s| > 0 && Occurs(w, s[1..]))
  }

  /**
   * strings.ReplaceAll(s, pat, rep) for a non-empty `pat`: scans left to right
   * and replaces every non-overlapping occurrence of `pat` by `rep`.
   */
  function ReplaceAll(s: string, pat: string, rep: string): string
    requires |pat| > 0
    decreases |s|
  {
    if |s| < |pat| then s
    else if s[..|pat|] == pat then rep + ReplaceAll(s[|pat|..], pat, rep)
    else [s[0]] + ReplaceAll(s[1..], pat, rep)
  }

  /** Where `pat` does not occur, nothing is replaced. */
  lemma {:induction false} ReplaceAllAbsent(s: string, pat: string, rep: string)
    requires |pat| > 0 && !Occurs(pat, s)
    ensures ReplaceAll(s, pat, rep) == s
    decreases |s|
  {
    if |s| >= |pat| {
      ReplaceAllAbsent(s[1..], pat, rep);
    }
  }

  /**
   * Until the first inserted `c` shows up in the output, the output agrees
   * with the input.
   */
  lemma {:induction false} ReplaceAllPrefixUntouched(s: string, pat: string, c: char, m: nat)
    requires |pat| > 0 && c !in pat
    ensures var r := ReplaceAll(s, pat, [c]);
      m <= |r| && c !in r[..m] ==> m <= |s| && s[..m] == r[..m]
    decreases |s|
  {
    var r := ReplaceAll(s, pat, [c]);
    if m == 0 || |s| < |pat| {
    } else if s[..|pat|] == pat {
      assert r[0] == c;
      if m <= |r| { assert r[..m][0] == c; }
    } else {
      var rest := ReplaceAll(s[1..], pat, [c]);
      assert r == [s[0]] + rest;
      ReplaceAllPrefixUntouched(s[1..], pat, c, m - 1);
      if m <= |r| && c !in r[..m] {
        assert rest[..m - 1] == r[1..m];
        assert s[1..][..m - 1] == s[1..m];
        assert s[..m] == [s[0]] + s[1..m];
        assert r[..m] == [s[0]] + rest[..m - 1];
      }
    }
  }

  /** An output that starts with a word free of `c` comes from an input that starts with it. */
  lemma ReplacedPrefix(s: string, pat: string, c: char, w: string)
    requires |pat| > 0 && c !in pat && c !in w
    requires HasPrefix(ReplaceAll(s, pat, [c]), w)
    ensures HasPrefix(s, w)
  {
    ReplaceAllPrefixUntouched(s, pat, c, |w|);
  }

  /**
   * Replacing `pat` by one character that does not occur in `w` never creates
   * an occurrence of `w` that was not already in the input.
   */
  lemma {:induction false} ReplaceAllCreatesNoOccurrence(s: string, pat: string, c: char, w: string)
    requires |pat| > 0 && |w| > 0 && c !in pat && c !in w
    requires !Occurs(w, s)
    ensures !Occurs(w, ReplaceAll(s, pat, [c]))
    decreases |s|
  {
    var r := ReplaceAll(s, pat, [c]);
    if HasPrefix(r, w) {
      ReplacedPrefix(s, pat, c, w);
    } else if |s| < |pat| {
    } else if s[..|pat|] == pat {
      var rest := s[|pat|..];
      SuffixNoOccurrence(w, s, |pat|);
      ReplaceAllCreatesNoOccurrence(rest, pat, c, w);
      assert r[1..] == ReplaceAll(rest, pat, [c]);
    } else {
      ReplaceAllCreatesNoOccurrence(s[1..], pat, c, w);
      assert r[1..] == ReplaceAll(s[1..], pat, [c]);
    }
  }

  /** Replacing `pat` by one character not in `pat` leaves no occurrence of `pat`. */
  lemma {:induction false} ReplaceAllLeavesNoPattern(s: string, pat: string, c: char)
    requires |pat| > 0 && c !in pat
    ensures !Occurs(pat, ReplaceAll(s, pat, [c]))
    decreases |s|
  {
    var r := ReplaceAll(s, pat, [c]);
    if |s| < |pat| {
      ShortNoOccurrence(pat, s);
    } else if s[..|pat|] == pat {
      ReplaceAllLeavesNoPattern(s[|pat|..], pat, c);
      assert r == [c] + ReplaceAll(s[|pat|..], pat, [c]);
      HeadMismatch(r, pat);
      assert r[1..] == ReplaceAll(s[|pat|..], pat, [c]);
    } else {
      ReplaceAllLeavesNoPattern(s[1..], pat, c);
      if HasPrefix(r, pat) {
        ReplacedPrefix(s, pat, c, pat);
      }
      assert r[1..] == ReplaceAll(s[1..], pat, [c]);
    }
  }

  lemma HeadMismatch(r: string, w: string)
    requires |w| > 0 && |r| > 0 && r[0] != w[0]
    ensures !HasPrefix(r, w)
  {
    if |w| <= |r| { assert r[..|w|][0] == r[0]; }
  }

  lemma {:induction false} ShortNoOccurrence(w: string, s: string)
    requires |s| < |w|
    ensures !Occurs(w, s)
    decreases |s|
  {
    if |s| > 0 { ShortNoOccurrence(w, s[1..]); }
  }

  lemma {:induction false} SuffixNoOccurrence(w: string, s: string, k: nat)
    requires k <= |s| && !Occurs(w, s)
    ensures !Occurs(w, s[k..])
    decreases k
  {
    if k > 0 {
      SuffixNoOccurrence(w, s[1..], k - 1);
      assert s[1..][k - 1..] == s[k..];
    }
  }

  /** A character that is not in `s` is not the first character of any occurrence in `s`. */
  lemma {:induction false} NoCharNoOccurrence(w: string, s: string)
    requires |w| > 0 && w[0] !in s
    ensures !Occurs(w, s)
    decreases |s|
  {
    if |s| > 0 {
      assert s[1..] == s[1..] && forall i :: 0 <= i < |s| - 1 ==> s[1..][i] == s[i + 1];
      NoCharNoOccurrence(w, s[1..]);
    }
  }
}
