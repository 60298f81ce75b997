/**
  The parts of Go's `strings` and `strconv` packages that the provisioner and
  the error scanner rely on: ToLower, TrimSpace, Contains, HasPrefix,
  ReplaceAll, ParseBool and FormatBool.  Strings are sequences of runes.
 */
module GoText {
  import opened Wrappers

  /** unicode.ToLower for one rune.  Besides ASCII it maps the two non-ASCII
      runes whose simple lower case is ASCII (U+0130 to 'i', the Kelvin sign
      U+212A to 'k'); every other rune is left as it is. */
  function LowerRune(c: char): char {
    if 'A' <= c <= 'Z' then (c as int + 32) as char
    else if c == '\U{130}' then 'i'
    else if c == '\U{212A}' then 'k'
    else c
  }

  /** strings.ToLower: maps every rune independently. */
  function ToLower(s: string): string {
    seq(|s|, i requires 0 <= i < |s| => LowerRune(s[i]))
  }

  /** unicode.IsSpace. */
  predicate IsSpace(c: char) {
    c == ' ' || c == '\t' || c == '\n' || c == '\U{0B}' || c == '\U{0C}' || c == '\r'
    || c == '\U{85}' || c == '\U{A0}' || c == '\U{1680}'
    || ('\U{2000}' <= c <= '\U{200A}')
    || c == '\U{2028}' || c == '\U{2029}' || c == '\U{202F}' || c == '\U{205F}' || c == '\U{3000}'
  }

  predicate AllSpace(s: string) {
    forall i :: 0 <= i < |s| ==> IsSpace(s[i])
  }

  function TrimLeft(s: string): string {
    if s != [] && IsSpace(s[0]) then TrimLeft(s[1..]) else s
  }

  function TrimRight(s: string): string {
    if s != [] && IsSpace(s[|s| - 1]) then TrimRight(s[..|s| - 1]) else s
  }

  /** strings.TrimSpace: drops leading and trailing white space. */
  function TrimSpace(s: string): string {
    TrimRight(TrimLeft(s))
  }

  /** strings.HasPrefix. */
  predicate HasPrefix(s: string, prefix: string) {
    |prefix| <= |s| && s[..|prefix|] == prefix
  }

  /** `sub` occurs in `s` starting at index i. */
  predicate OccursAt(s: string, sub: string, i: int) {
    0 <= i <= |s| - |sub| && s[i..i + |sub|] == sub
  }

  /** strings.Contains. */
  predicate Contains(s: string, sub: string) {
    exists i :: 0 <= i <= |s| && OccursAt(s, sub, i)
  }

  /** strings.ReplaceAll for a non-empty pattern: leftmost, non-overlapping
      replacement, scanning resumes after each replaced occurrence. */
  function ReplaceAll(s: string, pat: string, repl: string): string
    requires pat != ""
    decreases |s|
  {
    if |s| < |pat| then s
    else if s[..|pat|] == pat then repl + ReplaceAll(s[|pat|..], pat, repl)
    else [s[0]] + ReplaceAll(s[1..], pat, repl)
  }

  /** strconv.ParseBool; None stands for its syntax error. */
  function ParseBool(s: string): Option<bool> {
    if s in {"1", "t", "T", "TRUE", "true", "True"} then Some(true)
    else if s in {"0", "f", "F", "FALSE", "false", "False"} then Some(false)
    else None
  }

  /** strconv.FormatBool. */
  function FormatBool(b: bool): string {
    if b then "true" else "false"
  }

  // ---------------------------------------------------------------------
  // Lemmas

  /** What FormatBool writes, ParseBool reads back. */
  lemma ParseFormatBool(b: bool)
    ensures ParseBool(FormatBool(b)) == Some(b)
  {
    assert FormatBool(b) in (if b then {"1", "t", "T", "TRUE", "true", "True"} else {"0", "f", "F", "FALSE", "false", "False"});
  }

  /** Lower-casing twice is lower-casing once. */
  lemma ToLowerIdempotent(s: string)
    ensures ToLower(ToLower(s)) == ToLower(s)
  {
  }

  lemma TrimLeftAllSpace(w: string, s: string)
    requires AllSpace(w)
    ensures TrimLeft(w + s) == TrimLeft(s)
    decreases |w|
  {
    if w != [] {
      assert (w + s)[0] == w[0];
      assert (w + s)[1..] == w[1..] + s;
      TrimLeftAllSpace(w[1..], s);
    } else {
      assert w + s == s;
    }
  }

  lemma TrimRightAllSpace(s: string, w: string)
    requires AllSpace(w)
    ensures TrimRight(s + w) == TrimRight(s)
    decreases |w|
  {
    if w != [] {
      assert (s + w)[|s + w| - 1] == w[|w| - 1];
      assert (s + w)[..|s + w| - 1] == s + w[..|w| - 1];
      TrimRightAllSpace(s, w[..|w| - 1]);
    } else {
      assert s + w == s;
    }
  }

  lemma TrimLeftAppend(s: string, w: string)
    ensures TrimLeft(s + w) == TrimLeft(s) + w || (AllSpace(s) && TrimLeft(s + w) == TrimLeft(w))
    decreases |s|
  {
    if s == [] {
      assert s + w == w;
    } else if IsSpace(s[0]) {
      assert (s + w)[1..] == s[1..] + w;
      TrimLeftAppend(s[1..], w);
    }
  }

  lemma TrimLeftOfSpace(s: string)
    requires AllSpace(s)
    ensures TrimLeft(s) == []
    decreases |s|
  {
    if s != [] { TrimLeftOfSpace(s[1..]); }
  }

  lemma TrimRightOfSpace(s: string)
    requires AllSpace(s)
    ensures TrimRight(s) == []
    decreases |s|
  {
    if s != [] { TrimRightOfSpace(s[..|s| - 1]); }
  }

  /** TrimLeft drops exactly a leading run of white space. */
  lemma {:induction false} TrimLeftShape(s: string) returns (i: int)
    ensures 0 <= i <= |s| && TrimLeft(s) == s[i..] && AllSpace(s[..i])
    ensures i < |s| ==> !IsSpace(s[i])
    decreases |s|
  {
    if s != [] && IsSpace(s[0]) {
      var k := TrimLeftShape(s[1..]);
      i := k + 1;
      assert s[1..][k..] == s[i..];
      forall m | 0 <= m < i ensures IsSpace(s[m]) {
        if m > 0 {
          assert s[m] == s[1..][..k][m - 1];
        }
      }
    } else {
      i := 0;
    }
  }

  /** TrimRight drops exactly a trailing run of white space. */
  lemma {:induction false} TrimRightShape(s: string) returns (j: int)
    ensures 0 <= j <= |s| && TrimRight(s) == s[..j] && AllSpace(s[j..])
    ensures 0 < j ==> !IsSpace(s[j - 1])
    decreases |s|
  {
    if s != [] && IsSpace(s[|s| - 1]) {
      var init := s[..|s| - 1];
      j := TrimRightShape(init);
      assert init[..j] == s[..j];
      forall m | j <= m < |s| ensures IsSpace(s[m]) {
        if m < |s| - 1 {
          assert s[m] == init[j..][m - j];
        }
      }
    } else {
      j := |s|;
    }
  }

  /** TrimSpace keeps exactly the middle of the string between a leading and
      a trailing run of white space, and the kept part neither starts nor
      ends with white space. */
  lemma {:induction false} TrimSpaceShape(s: string) returns (i: int, j: int)
    ensures 0 <= i <= j <= |s| && TrimSpace(s) == s[i..j]
    ensures AllSpace(s[..i]) && AllSpace(s[j..])
    ensures i < j ==> !IsSpace(s[i]) && !IsSpace(s[j - 1])
  {
    i := TrimLeftShape(s);
    var rest := s[i..];
    var k := TrimRightShape(rest);
    j := i + k;
    assert rest[..k] == s[i..j];
    assert rest[k..] == s[j..];
    if i < j {
      assert rest[0] == s[i];
      assert rest[k - 1] == s[j - 1];
    }
  }

  /** TrimSpace ignores any white space put around its argument. */
  lemma {:induction false} TrimSpaceSurrounded(w1: string, s: string, w2: string)
    requires AllSpace(w1) && AllSpace(w2)
    ensures TrimSpace(w1 + s + w2) == TrimSpace(s)
  {
    assert w1 + s + w2 == w1 + (s + w2);
    TrimLeftAllSpace(w1, s + w2);
    TrimLeftAppend(s, w2);
    if TrimLeft(s + w2) == TrimLeft(s) + w2 {
      TrimRightAllSpace(TrimLeft(s), w2);
    } else {
      TrimLeftOfSpace(s);
      TrimLeftOfSpace(w2);
      assert TrimLeft(s + w2) == [];
    }
  }

  lemma TrimLeftLower(s: string)
    ensures ToLower(TrimLeft(s)) == TrimLeft(ToLower(s))
    decreases |s|
  {
    if s != [] {
      assert ToLower(s)[1..] == ToLower(s[1..]);
      TrimLeftLower(s[1..]);
    }
  }

  lemma TrimRightLower(s: string)
    ensures ToLower(TrimRight(s)) == TrimRight(ToLower(s))
    decreases |s|
  {
    if s != [] {
      var low := ToLower(s);
      var c := s[|s| - 1];
      assert low[..|s| - 1] == ToLower(s[..|s| - 1]);
      assert low[|s| - 1] == LowerRune(c);
      assert IsSpace(c) ==> LowerRune(c) == c;
      assert IsSpace(LowerRune(c)) == IsSpace(c);
      TrimRightLower(s[..|s| - 1]);
    }
  }

  /** Lower-casing and trimming commute: no white-space rune has a case. */
  lemma {:induction false} TrimSpaceLower(s: string)
    ensures ToLower(TrimSpace(s)) == TrimSpace(ToLower(s))
  {
    TrimLeftLower(s);
    TrimRightLower(TrimLeft(s));
  }

  /** A string with no occurrence of a pattern starting inside its first |x|
      runes passes that prefix through ReplaceAll unchanged. */
  lemma {:induction false} ReplaceAllSkips(x: string, rest: string, pat: string, repl: string)
    requires pat != ""
    requires forall k :: 0 <= k < |x| ==> !OccursAt(x + rest, pat, k)
    ensures ReplaceAll(x + rest, pat, repl) == x + ReplaceAll(rest, pat, repl)
    decreases |x|
  {
    var s := x + rest;
    if x == [] {
      assert s == rest;
    } else if |s| < |pat| {
      assert ReplaceAll(rest, pat, repl) == rest;
      assert ReplaceAll(s, pat, repl) == s;
    } else {
      assert !OccursAt(s, pat, 0);
      ReplaceAllPassOne(s, pat, repl);
      NoOccurrenceShifts(x, rest, pat);
      ReplaceAllSkips(x[1..], rest, pat, repl);
      assert s[1..] == x[1..] + rest;
      assert [s[0]] + x[1..] == x;
    }
  }

  /** With no occurrence at the front, ReplaceAll passes the first rune on. */
  lemma ReplaceAllPassOne(s: string, pat: string, repl: string)
    requires pat != "" && |s| >= |pat| && !OccursAt(s, pat, 0)
    ensures ReplaceAll(s, pat, repl) == [s[0]] + ReplaceAll(s[1..], pat, repl)
  {
    assert s[..|pat|] != pat;
  }

  /** Dropping the first rune of x keeps the other starts free of pat. */
  lemma NoOccurrenceShifts(x: string, rest: string, pat: string)
    requires x != []
    requires forall k :: 0 <= k < |x| ==> !OccursAt(x + rest, pat, k)
    ensures forall k :: 0 <= k < |x[1..]| ==> !OccursAt(x[1..] + rest, pat, k)
  {
    var s := x + rest;
    var tail := x[1..] + rest;
    forall k | 0 <= k < |x[1..]|
      ensures !OccursAt(tail, pat, k)
    {
      assert !OccursAt(s, pat, k + 1);
      if k <= |tail| - |pat| {
        assert s[k + 1..k + 1 + |pat|] == tail[k..k + |pat|];
      }
    }
  }


}
