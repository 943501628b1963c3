/** The handful of Python `str` operations the core relies on, written out
    over `seq<char>`: `endswith`, `replace(pat, "")`, `strip()`, `split(sep)`
    with a one-character separator, and ASCII lower-casing. */
module Text {

  predicate StartsWith(s: string, prefix: string) {
    |prefix| <= |s| && s[..|prefix|] == prefix
  }

  /** `s.endswith(suffix)` */
  predicate EndsWith(s: string, suffix: string) {
    |suffix| <= |s| && s[|s| - |suffix|..] == suffix
  }

  // ---------------------------------------------------------------------------
  // s.replace(pat, "")
  // ---------------------------------------------------------------------------

  /** `s.replace(pat, "")`: scanning left to right, every non-overlapping
      occurrence of `pat` is dropped (replacing "" by "" leaves `s` as it is). */
  function RemoveAll(s: string, pat: string): (r: string)
    ensures |r| <= |s|
    decreases |s|
  {
    if pat == [] then s
    else if StartsWith(s, pat) then RemoveAll(s[|pat|..], pat)
    else if s == [] then []
    else [s[0]] + RemoveAll(s[1..], pat)
  }

  /** No occurrence of `pat` starts inside `stem` when `pat` is appended to it. */
  ghost predicate OnlyFinalMatch(stem: string, pat: string) {
    forall k :: 0 <= k < |stem| ==> !StartsWith((stem + pat)[k..], pat)
  }

  /** Removing `pat` from `stem + pat` gives `stem` back, provided the only
      occurrence of `pat` there is the final one. */
  lemma {:induction false} RemoveAllFinal(stem: string, pat: string)
    requires pat != []
    requires OnlyFinalMatch(stem, pat)
    ensures RemoveAll(stem + pat, pat) == stem
  {
    var s := stem + pat;
    if stem == [] {
      assert s == pat;
      assert StartsWith(s, pat);
      assert s[|pat|..] == [];
    } else {
      assert s[0..] == s;
      assert !StartsWith(s, pat);
      assert s[1..] == stem[1..] + pat;
      forall k | 0 <= k < |stem[1..]|
        ensures !StartsWith((stem[1..] + pat)[k..], pat)
      {
        assert (stem[1..] + pat)[k..] == s[k + 1..];
      }
      RemoveAllFinal(stem[1..], pat);
    }
  }

  /** No occurrence of `pat` starts at any of the first `i` positions of
      `s`, checked one position at a time. */
  ghost predicate NoMatchUpTo(s: string, pat: string, i: nat)
    decreases i
  {
    0 < i <= |s| ==> !StartsWith(s, pat) && NoMatchUpTo(s[1..], pat, i - 1)
  }

  /** The positional check follows from the quantified one. */
  lemma {:induction false} NoMatchUpToAll(s: string, pat: string, i: nat)
    requires i <= |s|
    requires forall k :: 0 <= k < i ==> !StartsWith(s[k..], pat)
    ensures NoMatchUpTo(s, pat, i)
  {
    if 0 < i {
      assert s[0..] == s;
      var t := s[1..];
      forall k | 0 <= k < i - 1
        ensures !StartsWith(t[k..], pat)
      {
        assert t[k..] == s[k + 1..];
      }
      NoMatchUpToAll(t, pat, i - 1);
    }
  }

  /** The first occurrence of `pat` is dropped and the scan goes on after
      it: whatever precedes it is kept, and the rest is treated alike. */
  lemma RemoveAllFirst(a: string, pat: string, b: string)
    requires pat != []
    requires forall k :: 0 <= k < |a| ==> !StartsWith((a + pat + b)[k..], pat)
    ensures RemoveAll(a + pat + b, pat) == a + RemoveAll(b, pat)
  {
    var s := a + pat + b;
    assert s[..|a|] == a;
    assert s[|a|..|a| + |pat|] == pat;
    assert s[|a| + |pat|..] == b;
    NoMatchUpToAll(s, pat, |a|);
    RemoveAllAt(s, pat, |a|, b);
  }

  /** The same law at position `i` of `s`, with `u` the text after the match. */
  lemma {:induction false} RemoveAllAt(s: string, pat: string, i: nat, u: string)
    requires pat != [] && i + |pat| <= |s| && s[i..i + |pat|] == pat
    requires u == s[i + |pat|..]
    requires NoMatchUpTo(s, pat, i)
    ensures RemoveAll(s, pat) == s[..i] + RemoveAll(u, pat)
  {
    if i == 0 {
      assert s[..|pat|] == s[0..|pat|];
      RemoveAllMatch(s, pat);
      assert s[..0] == [];
    } else {
      var t := s[1..];
      assert t[i - 1..i - 1 + |pat|] == pat;
      RemoveAllAt(t, pat, i - 1, u);
      RemoveAllSkip(s, pat);
      ConsAppend(s, i, RemoveAll(u, pat));
    }
  }

  /** A match at the front is dropped. */
  lemma RemoveAllMatch(s: string, pat: string)
    requires pat != [] && StartsWith(s, pat)
    ensures RemoveAll(s, pat) == RemoveAll(s[|pat|..], pat)
  {
  }

  /** A front character that starts no match is kept. */
  lemma RemoveAllSkip(s: string, pat: string)
    requires pat != [] && s != [] && !StartsWith(s, pat)
    ensures RemoveAll(s, pat) == [s[0]] + RemoveAll(s[1..], pat)
  {
  }

  /** The first `i` characters of `s` are its head followed by the first
      `i - 1` characters of its tail. */
  lemma ConsAppend(s: string, i: nat, r: string)
    requires 0 < i <= |s|
    ensures [s[0]] + (s[1..][..i - 1] + r) == s[..i] + r
  {
    assert s[..i] == [s[0]] + s[1..][..i - 1];
  }

  /** A string without occurrences of `pat` is left alone. */
  lemma {:induction false} RemoveAllAbsent(s: string, pat: string)
    requires pat != []
    requires forall k :: 0 <= k <= |s| ==> !StartsWith(s[k..], pat)
    ensures RemoveAll(s, pat) == s
  {
    assert s[0..] == s;
    if s != [] {
      forall k | 0 <= k <= |s[1..]|
        ensures !StartsWith(s[1..][k..], pat)
      {
        assert s[1..][k..] == s[k + 1..];
      }
      RemoveAllAbsent(s[1..], pat);
      assert s == [s[0]] + s[1..];
    }
  }

  // ---------------------------------------------------------------------------
  // s.strip()
  // ---------------------------------------------------------------------------

  /** The characters for which Python's `str.isspace()` holds. */
  predicate IsSpace(c: char) {
    c == ' ' || c == '\t' || c == '\n' || c == '\r' || c == '\U{B}' || c == '\U{C}'
    || ('\U{1C}' <= c <= '\U{1F}') || c == '\U{85}' || c == '\U{A0}' || c == '\U{1680}'
    || ('\U{2000}' <= c <= '\U{200A}') || c == '\U{2028}' || c == '\U{2029}' || c == '\U{202F}'
    || c == '\U{205F}' || c == '\U{3000}'
  }

  /** `s.lstrip()`: drops the leading whitespace and nothing else. */
  function TrimStart(s: string): (r: string)
    ensures |r| <= |s|
  {
    if s != [] && IsSpace(s[0]) then TrimStart(s[1..]) else s
  }

  /** What `TrimStart` returns is a suffix of `s`, everything before it is
      whitespace, and it does not start with whitespace. */
  lemma {:induction false} TrimStartSpec(s: string)
    ensures var r := TrimStart(s);
      && r == s[|s| - |r|..]
      && (forall k :: 0 <= k < |s| - |r| ==> IsSpace(s[k]))
      && (r == [] || !IsSpace(r[0]))
  {
    if s != [] && IsSpace(s[0]) {
      var r := TrimStart(s[1..]);
      TrimStartSpec(s[1..]);
      assert s[1..][|s| - 1 - |r|..] == s[|s| - |r|..];
      forall k | 0 < k < |s| - |r| ensures IsSpace(s[k]) {
        assert s[k] == s[1..][k - 1];
      }
    }
  }

  /** `s.rstrip()`: drops the trailing whitespace and nothing else. */
  function TrimEnd(s: string): (r: string)
    ensures |r| <= |s|
  {
    if s != [] && IsSpace(s[|s| - 1]) then TrimEnd(s[..|s| - 1]) else s
  }

  /** What `TrimEnd` returns is a prefix of `s`, everything after it is
      whitespace, and it does not end with whitespace. */
  lemma {:induction false} TrimEndSpec(s: string)
    ensures var r := TrimEnd(s);
      && r == s[..|r|]
      && (forall k :: |r| <= k < |s| ==> IsSpace(s[k]))
      && (r == [] || !IsSpace(r[|r| - 1]))
  {
    if s != [] && IsSpace(s[|s| - 1]) {
      var init := s[..|s| - 1];
      var r := TrimEnd(init);
      TrimEndSpec(init);
      assert init[..|r|] == s[..|r|];
      forall k | |r| <= k < |s| - 1 ensures IsSpace(s[k]) {
        assert s[k] == init[k];
      }
    }
  }

  /** `s.strip()` */
  function Strip(s: string): string {
    TrimEnd(TrimStart(s))
  }

  /** Where the stripped text starts inside `s`. */
  function StripOffset(s: string): nat {
    |s| - |TrimStart(s)|
  }

  /** `Strip` removes whitespace only from the two ends: what it returns is a
      slice of `s` that neither starts nor ends with whitespace, and every
      character cut off is whitespace. */
  lemma StripIsTrimmedSlice(s: string)
    ensures var r, i := Strip(s), StripOffset(s);
      && i + |r| <= |s| && r == s[i..i + |r|]
      && (forall k :: 0 <= k < i ==> IsSpace(s[k]))
      && (forall k :: i + |r| <= k < |s| ==> IsSpace(s[k]))
      && (r == [] || (!IsSpace(r[0]) && !IsSpace(r[|r| - 1])))
  {
    var t := TrimStart(s);
    var r := TrimEnd(t);
    var i := |s| - |t|;
    assert t == s[i..] && i + |r| <= |s| by {
      TrimStartSpec(s);
    }
    assert r == s[i..i + |r|] by {
      TrimEndSpec(t);
      forall k | 0 <= k < |r| ensures r[k] == s[i + k] {
        assert r[k] == t[k];
      }
    }
    assert forall k :: 0 <= k < i ==> IsSpace(s[k]) by {
      TrimStartSpec(s);
    }
    assert forall k :: i + |r| <= k < |s| ==> IsSpace(s[k]) by {
      TrimEndSpec(t);
      forall k | i + |r| <= k < |s| ensures IsSpace(s[k]) {
        assert s[k] == t[k - i];
      }
    }
    assert r == [] || (!IsSpace(r[0]) && !IsSpace(r[|r| - 1])) by {
      TrimStartSpec(s);
      TrimEndSpec(t);
      if r != [] {
        assert r[0] == t[0];
      }
    }
  }

  /** A non-whitespace character survives `Strip`. */
  lemma {:induction false} StripKeeps(s: string, c: char)
    requires c in s && !IsSpace(c)
    ensures c in Strip(s)
  {
    var t := TrimStart(s);
    var r := TrimEnd(t);
    TrimStartSpec(s);
    TrimEndSpec(t);
    var k :| 0 <= k < |s| && s[k] == c;
    assert |s| - |t| <= k;
    assert t[k - (|s| - |t|)] == c;
    assert k - (|s| - |t|) < |r|;
    assert r[k - (|s| - |t|)] == c;
  }

  /** `Strip` adds no character: whatever it returns occurs in `s`. */
  lemma StripDrops(s: string, c: char)
    requires c in Strip(s)
    ensures c in s
  {
    StripIsTrimmedSlice(s);
    var r, i := Strip(s), StripOffset(s);
    var k :| 0 <= k < |r| && r[k] == c;
    assert s[i + k] == c;
  }

  // ---------------------------------------------------------------------------
  // s.split(sep) and sep.join(pieces)
  // ---------------------------------------------------------------------------

  /** Number of occurrences of `c` in `s`. */
  function Occurrences(s: string, c: char): nat {
    if s == [] then 0 else (if s[0] == c then 1 else 0) + Occurrences(s[1..], c)
  }

  /** A character that occurs in `s` is counted at least once. */
  lemma {:induction false} OccurrencesPositive(s: string, c: char)
    requires c in s
    ensures Occurrences(s, c) >= 1
  {
    if s[0] != c {
      assert c in s[1..];
      OccurrencesPositive(s[1..], c);
    }
  }

  /** `s.split(sep)` for a one-character separator: the pieces between
      separators, empty pieces included. */
  function Split(s: string, sep: char): (r: seq<string>)
    ensures |r| == Occurrences(s, sep) + 1
    ensures forall p :: p in r ==> sep !in p
  {
    if s == [] then [[]]
    else
      var rest := Split(s[1..], sep);
      if s[0] == sep then [[]] + rest
      else [[s[0]] + rest[0]] + rest[1..]
  }

  /** `sep.join(pieces)` */
  function Join(pieces: seq<string>, sep: char): string {
    if pieces == [] then []
    else if |pieces| == 1 then pieces[0]
    else pieces[0] + [sep] + Join(pieces[1..], sep)
  }

  lemma JoinFirstCons(c: char, pieces: seq<string>, sep: char)
    requires pieces != []
    ensures Join([[c] + pieces[0]] + pieces[1..], sep) == [c] + Join(pieces, sep)
  {
    var qs := [[c] + pieces[0]] + pieces[1..];
    assert qs[1..] == pieces[1..];
  }

  /** Joining the pieces of a split gives the original string back. */
  lemma {:induction false} JoinSplit(s: string, sep: char)
    ensures Join(Split(s, sep), sep) == s
  {
    if s != [] {
      var rest := Split(s[1..], sep);
      JoinSplit(s[1..], sep);
      if s[0] == sep {
        assert ([[]] + rest)[1..] == rest;
      } else {
        JoinFirstCons(s[0], rest, sep);
      }
      assert s == [s[0]] + s[1..];
    }
  }

  /** Splitting a join of separator-free pieces gives the pieces back. */
  lemma {:induction false} SplitJoin(pieces: seq<string>, sep: char)
    requires pieces != []
    requires forall p :: p in pieces ==> sep !in p
    ensures Split(Join(pieces, sep), sep) == pieces
  {
    if |pieces| == 1 {
      SplitNoSep(pieces[0], sep);
    } else {
      SplitJoin(pieces[1..], sep);
      SplitPrefix(pieces[0], Join(pieces[1..], sep), sep);
      assert [pieces[0]] + pieces[1..] == pieces;
    }
  }

  lemma {:induction false} SplitNoSep(s: string, sep: char)
    requires sep !in s
    ensures Split(s, sep) == [s]
  {
    if s != [] {
      SplitNoSep(s[1..], sep);
      assert s == [s[0]] + s[1..];
    }
  }

  /** Splitting `a + [sep] + b` where `a` holds no separator. */
  lemma {:induction false} SplitPrefix(a: string, b: string, sep: char)
    requires sep !in a
    ensures Split(a + [sep] + b, sep) == [a] + Split(b, sep)
  {
    var s := a + [sep] + b;
    if a == [] {
      assert s[1..] == b;
    } else {
      assert s[1..] == a[1..] + [sep] + b;
      SplitPrefix(a[1..], b, sep);
      assert a == [a[0]] + a[1..];
    }
  }

  // ---------------------------------------------------------------------------
  // s.lower() (ASCII)
  // ---------------------------------------------------------------------------

  function LowerChar(c: char): char {
    if 'A' <= c <= 'Z' then (c as int + 32) as char else c
  }

  /** `s.lower()` on the ASCII letters. */
  function LowerAscii(s: string): (r: string)
    ensures |r| == |s|
    ensures forall k :: 0 <= k < |s| ==> r[k] == LowerChar(s[k])
  {
    if s == [] then [] else [LowerChar(s[0])] + LowerAscii(s[1..])
  }
}
