/**
  nfs-error-scan: a log filter that reports every line mentioning NFS
  together with an error word, case-insensitively, with its 1-based line
  number.  Reading files, walking directories and splitting input into
  lines are outside the model: the scanner works on a sequence of lines.
 */
module ErrorScan {
  import opened GoText

  /** One reported line: the input's name, its 1-based number and its text. */
  datatype LineMatch = LineMatch(file: string, line: int, text: string)

  /** A line is only considered when it mentions this (after lowering). */
  const NfsMarker := "nfs"

  /** The built-in error words. */
  const ErrorTokens: seq<string> := [
    "error", "fail", "denied", "timeout", "stale",
    "not responding", "unreachable", "unable", "refused"
  ]

  /** Some token of `tokens` occurs in `normalized`: the early-return search
      over the token list. */
  function AnyContained(normalized: string, tokens: seq<string>): (r: bool)
    ensures r <==> exists i :: 0 <= i < |tokens| && Contains(normalized, tokens[i])
    decreases |tokens|
  {
    if tokens == [] then false
    else if Contains(normalized, tokens[0]) then true
    else
      var rest := AnyContained(normalized, tokens[1..]);
      assert forall i :: 1 <= i < |tokens| ==> tokens[i] == tokens[1..][i - 1];
      rest
  }

  /** hasNFSError: the lowered line mentions "nfs" and contains one of the
      tokens (which the caller has lowered already). */
  function HasNFSError(line: string, tokens: seq<string>): (r: bool)
    ensures !Contains(ToLower(line), NfsMarker) ==> !r
    ensures r <==> Contains(ToLower(line), NfsMarker) &&
                   exists i :: 0 <= i < |tokens| && Contains(ToLower(line), tokens[i])
  {
    var normalized := ToLower(line);
    if !Contains(normalized, NfsMarker) then false
    else AnyContained(normalized, tokens)
  }

  /** The verdict depends only on the lowered line: lines that agree up to
      letter case get the same verdict. */
  lemma {:induction false} HasNFSErrorIgnoresCase(a: string, b: string, tokens: seq<string>)
    requires |a| == |b| && forall i :: 0 <= i < |a| ==> LowerRune(a[i]) == LowerRune(b[i])
    ensures HasNFSError(a, tokens) == HasNFSError(b, tokens)
  {
    assert ToLower(a) == ToLower(b);
  }

  /** Lowering a line first does not change the verdict. */
  lemma {:induction false} HasNFSErrorOfLowered(line: string, tokens: seq<string>)
    ensures HasNFSError(ToLower(line), tokens) == HasNFSError(line, tokens)
  {
    ToLowerIdempotent(line);
  }

  /** prepareTokens: a fresh slice of the same length holding each token
      lowered, in the same order. */
  method PrepareTokens(tokens: seq<string>) returns (prepared: seq<string>)
    ensures |prepared| == |tokens|
    ensures forall i :: 0 <= i < |tokens| ==> prepared[i] == ToLower(tokens[i])
    ensures forall i :: 0 <= i < |prepared| ==> ToLower(prepared[i]) == prepared[i]
  {
    var a := new string[|tokens|];
    for i := 0 to |tokens|
      invariant forall j :: 0 <= j < i ==> a[j] == ToLower(tokens[j])
    {
      a[i] := ToLower(tokens[i]);
    }
    prepared := a[..];
    forall i | 0 <= i < |prepared|
      ensures ToLower(prepared[i]) == prepared[i]
    {
      ToLowerIdempotent(tokens[i]);
    }
  }

  /** With prepared tokens the search ignores letter case on both sides: a
      line matches when its lowered text contains "nfs" and the lowered form
      of some original token, so "ERROR" in the token list finds "Error" in
      the line. */
  lemma {:induction false} PreparedTokensIgnoreCase(line: string, tokens: seq<string>, prepared: seq<string>)
    requires |prepared| == |tokens|
    requires forall i :: 0 <= i < |tokens| ==> prepared[i] == ToLower(tokens[i])
    ensures HasNFSError(line, prepared) <==>
      Contains(ToLower(line), NfsMarker) && exists i :: 0 <= i < |tokens| && Contains(ToLower(line), ToLower(tokens[i]))
  {
    var low := ToLower(line);
    if exists i :: 0 <= i < |tokens| && Contains(low, ToLower(tokens[i])) {
      var i :| 0 <= i < |tokens| && Contains(low, ToLower(tokens[i]));
      assert Contains(low, prepared[i]);
    }
  }

  /** The built-in tokens are lower case already, so preparing them leaves
      them as they are. */
  lemma ErrorTokensLowered()
    ensures forall i :: 0 <= i < |ErrorTokens| ==> ToLower(ErrorTokens[i]) == ErrorTokens[i]
  {
    forall i | 0 <= i < |ErrorTokens|
      ensures ToLower(ErrorTokens[i]) == ErrorTokens[i]
    {
      var t := ErrorTokens[i];
      assert forall j :: 0 <= j < |t| ==> 'a' <= t[j] <= 'z' || t[j] == ' ';
    }
  }

  /** The lines scanReader reports for the first |lines| lines of an input:
      each line is considered in turn and appended when it matches. */
  function Scanned(name: string, lines: seq<string>, tokens: seq<string>): seq<LineMatch>
    decreases |lines|
  {
    if lines == [] then []
    else
      var last := lines[|lines| - 1];
      Scanned(name, lines[..|lines| - 1], tokens) +
        (if HasNFSError(last, tokens) then [LineMatch(name, |lines|, last)] else [])
  }

  /** scanReader over a sequence of lines: number the lines from 1 and keep
      the matching ones, in input order. */
  method ScanReader(name: string, lines: seq<string>, tokens: seq<string>) returns (matches: seq<LineMatch>)
    ensures matches == Scanned(name, lines, tokens)
  {
    matches := [];
    var lineNumber := 0;
    while lineNumber < |lines|
      invariant 0 <= lineNumber <= |lines|
      invariant matches == Scanned(name, lines[..lineNumber], tokens)
    {
      lineNumber := lineNumber + 1;
      var text := lines[lineNumber - 1];
      if HasNFSError(text, tokens) {
        matches := matches + [LineMatch(name, lineNumber, text)];
      }
      assert lines[..lineNumber][..lineNumber - 1] == lines[..lineNumber - 1];
    }
    assert lines[..lineNumber] == lines;
  }

  /** Every reported entry names the input, points at a matching line by its
      1-based number and carries that line's text. */
  lemma {:induction false} ScannedSound(name: string, lines: seq<string>, tokens: seq<string>)
    ensures forall k :: 0 <= k < |Scanned(name, lines, tokens)| ==>
      var m := Scanned(name, lines, tokens)[k];
      m.file == name && 1 <= m.line <= |lines| && m.text == lines[m.line - 1] && HasNFSError(m.text, tokens)
  {
    if lines != [] {
      var init := lines[..|lines| - 1];
      ScannedSound(name, init, tokens);
      assert forall j :: 0 <= j < |init| ==> init[j] == lines[j];
    }
  }

  /** Reported line numbers strictly increase. */
  lemma {:induction false} ScannedOrdered(name: string, lines: seq<string>, tokens: seq<string>)
    ensures forall j, k :: 0 <= j < k < |Scanned(name, lines, tokens)| ==>
      Scanned(name, lines, tokens)[j].line < Scanned(name, lines, tokens)[k].line
  {
    if lines != [] {
      var init := lines[..|lines| - 1];
      ScannedOrdered(name, init, tokens);
      ScannedSound(name, init, tokens);
    }
  }

  /** A matching line is reported, under its own 1-based number. */
  lemma {:induction false} ScannedReports(name: string, lines: seq<string>, tokens: seq<string>, i: int) returns (k: int)
    requires 0 <= i < |lines| && HasNFSError(lines[i], tokens)
    ensures 0 <= k < |Scanned(name, lines, tokens)| && Scanned(name, lines, tokens)[k] == LineMatch(name, i + 1, lines[i])
    decreases |lines|
  {
    var init := lines[..|lines| - 1];
    var before := Scanned(name, init, tokens);
    var last := lines[|lines| - 1];
    assert Scanned(name, lines, tokens) == before + (if HasNFSError(last, tokens) then [LineMatch(name, |lines|, last)] else []);
    if i < |init| {
      assert init[i] == lines[i];
      k := ScannedReports(name, init, tokens, i);
    } else {
      k := |before|;
    }
  }

  /** Line number n appears among the reported entries. */
  predicate Reported(matches: seq<LineMatch>, n: int) {
    exists k :: 0 <= k < |matches| && matches[k].line == n
  }

  /** Every matching line is reported. */
  lemma ScannedComplete(name: string, lines: seq<string>, tokens: seq<string>)
    ensures forall i :: 0 <= i < |lines| && HasNFSError(lines[i], tokens) ==> Reported(Scanned(name, lines, tokens), i + 1)
  {
    forall i | 0 <= i < |lines| && HasNFSError(lines[i], tokens)
      ensures Reported(Scanned(name, lines, tokens), i + 1)
    {
      var k := ScannedReports(name, lines, tokens, i);
    }
  }

  lemma OccursAtByRunes(s: string, sub: string, i: int)
    requires 0 <= i <= |s| - |sub|
    requires forall j :: 0 <= j < |sub| ==> s[i + j] == sub[j]
    ensures OccursAt(s, sub, i)
  {
    assert s[i..i + |sub|] == sub;
  }

  /** The sample input "NFS error: access denied", "This line is fine",
      "Another nfs timeout detected" is reported at lines 1 and 3. */
  lemma SampleLog()
    ensures Scanned("test.log", ["NFS error: access denied", "This line is fine", "Another nfs timeout detected"], ErrorTokens) ==
      [LineMatch("test.log", 1, "NFS error: access denied"), LineMatch("test.log", 3, "Another nfs timeout detected")]
  {
    var name := "test.log";
    var l1 := "NFS error: access denied";
    var l2 := "This line is fine";
    var l3 := "Another nfs timeout detected";
    var lines := [l1, l2, l3];
    SampleFirst(l1);
    SampleSecond(l2);
    SampleThird(l3);
    assert [l1][..0] == [];
    assert Scanned(name, [l1], ErrorTokens) == [LineMatch(name, 1, l1)];
    assert [l1, l2][..1] == [l1];
    assert Scanned(name, [l1, l2], ErrorTokens) == [LineMatch(name, 1, l1)];
    assert lines[..2] == [l1, l2];
  }

  lemma SampleFirst(l1: string)
    requires l1 == "NFS error: access denied"
    ensures HasNFSError(l1, ErrorTokens)
  {
    LoweredOccurs(l1, NfsMarker, 0);
    LoweredOccurs(l1, ErrorTokens[0], 4);
  }

  lemma SampleSecond(l2: string)
    requires l2 == "This line is fine"
    ensures !HasNFSError(l2, ErrorTokens)
  {
    var low := ToLower(l2);
    assert low == "this line is fine" by {
      assert LowerRune('T') == 't';
      assert forall j :: 1 <= j < |l2| ==> LowerRune(l2[j]) == l2[j];
    }
    forall i | 0 <= i <= |low| ensures !OccursAt(low, NfsMarker, i) {
      if i + 3 <= |low| {
        var w := low[i..i + 3];
        assert w[0] == low[i] && w[1] == low[i + 1];
        assert low[i] != 'n' || low[i + 1] != 'f';
        assert w != NfsMarker;
      }
    }
  }

  lemma SampleThird(l3: string)
    requires l3 == "Another nfs timeout detected"
    ensures HasNFSError(l3, ErrorTokens)
  {
    LoweredOccurs(l3, NfsMarker, 8);
    LoweredOccurs(l3, ErrorTokens[3], 12);
  }

  /** A word occurs in the lowered line where the line's runes lower to it. */
  lemma LoweredOccurs(line: string, word: string, i: int)
    requires 0 <= i <= |line| - |word|
    requires forall j :: 0 <= j < |word| ==> LowerRune(line[i + j]) == word[j]
    ensures OccursAt(ToLower(line), word, i)
  {
    var low := ToLower(line);
    forall j | 0 <= j < |word| ensures low[i + j] == word[j] {
      assert low[i + j] == LowerRune(line[i + j]);
    }
    OccursAtByRunes(low, word, i);
  }
}
