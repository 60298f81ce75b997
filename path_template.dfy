/**
  The `pathPattern` StorageClass parameter: a directory template in which
  `${.PVC.name}`, `${.PVC.namespace}`, `${.PVC.labels.<key>}` and
  `${.PVC.annotations.<key>}` stand for the claim's metadata.

  The placeholders are found in the original template (each runs from
  `${.PVC.` to the first `}` after it, scanning left to right without
  overlap); then, match by match, every occurrence of the match's text in the
  current string is replaced by the value it stands for.
 */
module PathTemplate {
  import opened GoText
  import opened KubeObjects

  /** pvcMetadata: the claim's name and namespace under `data`, and its
      labels and annotations. */
  datatype PvcMetadata = PvcMetadata(
    data: map<string, string>,
    labels: map<string, string>,
    annotations: map<string, string>)

  /** The metadata Provision builds for a claim. */
  function MetadataOf(pvc: Claim): PvcMetadata {
    PvcMetadata(map["name" := pvc.name, "namespace" := pvc.namespace], pvc.labels, pvc.annotations)
  }

  /** What a placeholder refers to. */
  datatype Ref = LabelRef(key: string) | AnnotationRef(key: string) | FieldRef(name: string)

  /** One submatch: the whole placeholder text and the text between
      `${.PVC.` and `}`. */
  datatype Match = Match(whole: string, body: string)

  const Opening := "${.PVC."
  const LabelsPrefix := "labels."
  const AnnotationsPrefix := "annotations."

  /** The text of a placeholder with the given body. */
  function PlaceholderText(body: string): (r: string)
    ensures |r| == |Opening| + |body| + 1 && r[0] == '$'
  {
    Opening + body + "}"
  }

  /** The body's kind: `labels.` and `annotations.` select a map, anything
      else is looked up in `data` under the whole body. */
  function Classify(body: string): (r: Ref)
    ensures r.LabelRef? <==> HasPrefix(body, LabelsPrefix)
    ensures r.LabelRef? ==> body == LabelsPrefix + r.key
    ensures r.AnnotationRef? <==> !HasPrefix(body, LabelsPrefix) && HasPrefix(body, AnnotationsPrefix)
    ensures r.AnnotationRef? ==> body == AnnotationsPrefix + r.key
    ensures r.FieldRef? ==> r.name == body
  {
    if HasPrefix(body, LabelsPrefix) then LabelRef(body[|LabelsPrefix|..])
    else if HasPrefix(body, AnnotationsPrefix) then AnnotationRef(body[|AnnotationsPrefix|..])
    else FieldRef(body)
  }

  /** The value a reference stands for; a missing key gives "". */
  function Lookup(meta: PvcMetadata, ref: Ref): string {
    match ref
    case LabelRef(k) => Get(meta.labels, k)
    case AnnotationRef(k) => Get(meta.annotations, k)
    case FieldRef(n) => Get(meta.data, n)
  }

  /** The position of the first `}` in s, or |s| when there is none. */
  function IndexOfClose(s: string): (k: nat)
    ensures k <= |s|
    ensures forall j :: 0 <= j < k ==> s[j] != '}'
    ensures k < |s| ==> s[k] == '}'
  {
    if s == [] then 0
    else if s[0] == '}' then 0
    else 1 + IndexOfClose(s[1..])
  }

  /** The text from an opening o up to the first `}` after it. */
  lemma Delimited(s: string, o: string, k: nat)
    requires |o| + k < |s| && s[..|o|] == o && k == IndexOfClose(s[|o|..])
    ensures s[..|o| + k + 1] == o + s[|o|..|o| + k] + "}"
    ensures '}' !in s[|o|..|o| + k]
  {
    var t := s[|o|..];
    var body := s[|o|..|o| + k];
    assert body == t[..k];
    assert s[|o| + k] == t[k];
    assert s[..|o| + k + 1] == s[..|o|] + body + [s[|o| + k]];
    forall j | 0 <= j < |body| ensures body[j] != '}' {
      assert body[j] == t[j];
    }
  }

  /** FindAllStringSubmatch for the placeholder pattern: leftmost matches,
      each from `${.PVC.` to the first following `}`, the search resuming
      after each match. */
  function FindAll(s: string): (ms: seq<Match>)
    ensures forall i :: 0 <= i < |ms| ==> ms[i].whole == PlaceholderText(ms[i].body) && '}' !in ms[i].body
    decreases |s|
  {
    if s == [] then []
    else if HasPrefix(s, Opening) && IndexOfClose(s[|Opening|..]) < |s| - |Opening| then
      var k := IndexOfClose(s[|Opening|..]);
      var body := s[|Opening|..|Opening| + k];
      Delimited(s, Opening, k);
      [Match(s[..|Opening| + k + 1], body)] + FindAll(s[|Opening| + k + 1..])
    else FindAll(s[1..])
  }

  /** The loop of stringParser as a function: each match in turn replaces
      every occurrence of its text in the current string. */
  function ApplyMatches(meta: PvcMetadata, s: string, ms: seq<Match>): string
    requires forall i :: 0 <= i < |ms| ==> ms[i].whole != ""
    decreases |ms|
  {
    if ms == [] then s
    else ApplyMatches(meta, ReplaceAll(s, ms[0].whole, Lookup(meta, Classify(ms[0].body))), ms[1..])
  }

  /** What stringParser computes. */
  function Substitute(meta: PvcMetadata, s: string): string {
    ApplyMatches(meta, s, FindAll(s))
  }

  /** pvcMetadata.stringParser. */
  method StringParser(meta: PvcMetadata, str: string) returns (out: string)
    ensures out == Substitute(meta, str)
    ensures !Contains(str, Opening) ==> out == str
  {
    var result := FindAll(str);
    out := str;
    for i := 0 to |result|
      invariant ApplyMatches(meta, out, result[i..]) == ApplyMatches(meta, str, result)
    {
      var r := result[i];
      var value;
      match Classify(r.body) {
        case LabelRef(k) => value := Get(meta.labels, k);
        case AnnotationRef(k) => value := Get(meta.annotations, k);
        case FieldRef(n) => value := Get(meta.data, n);
      }
      assert value == Lookup(meta, Classify(r.body));
      assert result[i..][1..] == result[i + 1..];
      assert ApplyMatches(meta, out, result[i..]) == ApplyMatches(meta, ReplaceAll(out, r.whole, value), result[i + 1..]);
      out := ReplaceAll(out, r.whole, value);
    }
    assert result[|result|..] == [];
    if !Contains(str, Opening) {
      NoPlaceholderUnchanged(meta, str);
    }
  }

  // ---------------------------------------------------------------------
  // Templates as pieces: the reference meaning of a template

  /** A template split into literal text and placeholders. */
  datatype Piece = Literal(text: string) | Placeholder(body: string)

  function PieceText(p: Piece): string {
    match p
    case Literal(t) => t
    case Placeholder(b) => PlaceholderText(b)
  }

  /** The template string a list of pieces spells. */
  function Template(ps: seq<Piece>): string {
    if ps == [] then "" else PieceText(ps[0]) + Template(ps[1..])
  }

  /** Literals hold no `$`; placeholder bodies hold neither `$` nor `}`. */
  predicate PieceOk(p: Piece) {
    match p
    case Literal(t) => '$' !in t
    case Placeholder(b) => '$' !in b && '}' !in b
  }

  predicate PiecesOk(ps: seq<Piece>) {
    forall i :: 0 <= i < |ps| ==> PieceOk(ps[i])
  }

  /** Every placeholder of the template stands for a value without `$`. */
  predicate ValuesOk(meta: PvcMetadata, ps: seq<Piece>) {
    forall i :: 0 <= i < |ps| && ps[i].Placeholder? ==> '$' !in Lookup(meta, Classify(ps[i].body))
  }

  /** The intended meaning: each placeholder replaced, in place, by its value. */
  function Expand(meta: PvcMetadata, ps: seq<Piece>): string {
    if ps == [] then ""
    else
      (match ps[0]
       case Literal(t) => t
       case Placeholder(b) => Lookup(meta, Classify(b)))
      + Expand(meta, ps[1..])
  }

  /** The matches a template of pieces has, in order. */
  function PlaceholderMatches(ps: seq<Piece>): seq<Match> {
    if ps == [] then []
    else
      var head := if ps[0].Placeholder? then [Match(PlaceholderText(ps[0].body), ps[0].body)] else [];
      head + PlaceholderMatches(ps[1..])
  }

  function Bodies(ms: seq<Match>): set<string> {
    set i | 0 <= i < |ms| :: ms[i].body
  }

  /** The pieces with the placeholders whose bodies are in `done` replaced by
      their values. */
  function Fill(meta: PvcMetadata, ps: seq<Piece>, done: set<string>): seq<Piece> {
    seq(|ps|, i requires 0 <= i < |ps| =>
      if ps[i].Placeholder? && ps[i].body in done then Literal(Lookup(meta, Classify(ps[i].body))) else ps[i])
  }

  /** The pieces with every placeholder of the given body replaced by v. */
  function Swap(ps: seq<Piece>, body: string, v: string): seq<Piece> {
    seq(|ps|, i requires 0 <= i < |ps| => if ps[i] == Placeholder(body) then Literal(v) else ps[i])
  }

  // ---------------------------------------------------------------------
  // Lemmas

  /** A template with no `${.PVC.` has no matches. */
  lemma FindAllNone(s: string)
    requires !Contains(s, Opening)
    ensures FindAll(s) == []
    decreases |s|
  {
    if s != [] {
      assert !OccursAt(s, Opening, 0);
      if Contains(s[1..], Opening) {
        var i :| 0 <= i <= |s[1..]| && OccursAt(s[1..], Opening, i);
        assert s[i + 1..i + 1 + |Opening|] == s[1..][i..i + |Opening|];
        assert OccursAt(s, Opening, i + 1);
      }
      FindAllNone(s[1..]);
    }
  }

  /** A template with no `${.PVC.` occurrence comes back unchanged. */
  lemma NoPlaceholderUnchanged(meta: PvcMetadata, s: string)
    requires !Contains(s, Opening)
    ensures Substitute(meta, s) == s
  {
    FindAllNone(s);
  }

  /** What each kind of placeholder stands for, for a claim's metadata. */
  lemma PlaceholderValues(pvc: Claim, key: string)
    ensures Lookup(MetadataOf(pvc), Classify(LabelsPrefix + key)) == Get(pvc.labels, key)
    ensures Lookup(MetadataOf(pvc), Classify(AnnotationsPrefix + key)) == Get(pvc.annotations, key)
    ensures Lookup(MetadataOf(pvc), Classify("name")) == pvc.name
    ensures Lookup(MetadataOf(pvc), Classify("namespace")) == pvc.namespace
    ensures !HasPrefix(key, LabelsPrefix) && !HasPrefix(key, AnnotationsPrefix) && key != "name" && key != "namespace"
      ==> Lookup(MetadataOf(pvc), Classify(key)) == ""
  {
    var l := LabelsPrefix + key;
    assert l[..|LabelsPrefix|] == LabelsPrefix;
    var a := AnnotationsPrefix + key;
    assert a[..|AnnotationsPrefix|] == AnnotationsPrefix;
    assert a[..|LabelsPrefix|] != LabelsPrefix by { assert a[0] == 'a'; }
    var name := "name";
    assert !HasPrefix(name, LabelsPrefix) && !HasPrefix(name, AnnotationsPrefix);
    var ns := "namespace";
    assert !HasPrefix(ns, LabelsPrefix) by { assert |ns| >= |LabelsPrefix| ==> ns[0] != LabelsPrefix[0]; }
    assert !HasPrefix(ns, AnnotationsPrefix);
  }

  lemma {:induction false} FindAllSkip(x: string, rest: string)
    requires '$' !in x
    ensures FindAll(x + rest) == FindAll(rest)
    decreases |x|
  {
    if x == [] {
      assert x + rest == rest;
    } else {
      var s := x + rest;
      assert s[0] == x[0] && x[0] in x;
      assert !HasPrefix(s, Opening) by { assert Opening[0] == '$'; }
      assert FindAll(s) == FindAll(s[1..]);
      assert s[1..] == x[1..] + rest;
      FindAllSkip(x[1..], rest);
    }
  }

  /** The first `}` after a body without one is the one that follows it. */
  lemma {:induction false} IndexOfCloseAfter(b: string, rest: string)
    requires '}' !in b
    ensures IndexOfClose(b + "}" + rest) == |b|
    decreases |b|
  {
    var t := b + "}" + rest;
    if b == [] {
      assert t[0] == '}';
    } else {
      assert t[0] == b[0] && b[0] in b;
      assert t[1..] == b[1..] + "}" + rest;
      assert '}' !in b[1..] by {
        forall c | c in b[1..] ensures c != '}' { assert c in b; }
      }
      IndexOfCloseAfter(b[1..], rest);
    }
  }

  lemma FindAllPlaceholder(b: string, rest: string)
    requires '}' !in b
    ensures FindAll(PlaceholderText(b) + rest) == [Match(PlaceholderText(b), b)] + FindAll(rest)
  {
    var s := PlaceholderText(b) + rest;
    var n := |Opening|;
    var t := b + "}" + rest;
    assert s == Opening + t;
    assert s[..n] == Opening && s[n..] == t;
    IndexOfCloseAfter(b, rest);
    var k := |b|;
    assert s[n + k + 1..] == rest;
    assert s[n..n + k] == b;
    assert s[..n + k + 1] == PlaceholderText(b);
    FindAllAt(s, k);
  }

  /** One step of the scan at a complete placeholder. */
  lemma FindAllAt(s: string, k: nat)
    requires HasPrefix(s, Opening) && k == IndexOfClose(s[|Opening|..]) && k < |s| - |Opening|
    ensures FindAll(s) == [Match(s[..|Opening| + k + 1], s[|Opening|..|Opening| + k])] + FindAll(s[|Opening| + k + 1..])
  {
  }

  /** Scanning a template of pieces finds exactly its placeholders. */
  lemma {:induction false} FindAllTemplate(ps: seq<Piece>)
    requires PiecesOk(ps)
    ensures FindAll(Template(ps)) == PlaceholderMatches(ps)
    decreases |ps|
  {
    if ps != [] {
      assert PiecesOk(ps[1..]) by {
        forall i | 0 <= i < |ps[1..]| ensures PieceOk(ps[1..][i]) { assert ps[1..][i] == ps[i + 1]; }
      }
      FindAllTemplate(ps[1..]);
      assert PieceOk(ps[0]);
      match ps[0]
      case Literal(t) => FindAllSkip(t, Template(ps[1..]));
      case Placeholder(b) => FindAllPlaceholder(b, Template(ps[1..]));
    }
  }

  /** Inside a placeholder with another body there is no occurrence of a
      placeholder text: past its first rune it holds no `$`, and at its start
      the two bodies would have to be equal. */
  lemma NoOccurrenceInside(c: string, rest: string, b: string)
    requires PieceOk(Placeholder(c)) && PieceOk(Placeholder(b)) && c != b
    ensures forall k :: 0 <= k < |PlaceholderText(c)| ==> !OccursAt(PlaceholderText(c) + rest, PlaceholderText(b), k)
  {
    var s := PlaceholderText(c) + rest;
    var pat := PlaceholderText(b);
    forall k | 0 <= k < |PlaceholderText(c)|
      ensures !OccursAt(s, pat, k)
    {
      if k == 0 {
        if |b| < |c| {
          assert s[|Opening| + |b|] == c[|b|] != '}';
          assert pat[|Opening| + |b|] == '}';
        } else if |b| > |c| {
          assert s[|Opening| + |c|] == '}';
          assert pat[|Opening| + |c|] == b[|c|] != '}';
          assert |pat| <= |s| ==> s[..|pat|][|Opening| + |c|] == s[|Opening| + |c|];
        } else {
          assert pat[|Opening|..|Opening| + |b|] == b;
          assert s[|Opening|..|Opening| + |c|] == c;
          assert |pat| <= |s| ==> s[..|pat|][|Opening|..|Opening| + |b|] == c;
        }
      } else {
        if k < |Opening| {
          assert s[k] == Opening[k];
        } else if k < |Opening| + |c| {
          assert s[k] == c[k - |Opening|];
        } else {
          assert s[k] == '}';
        }
        assert s[k] != pat[0];
      }
    }
  }

  lemma SwapTail(ps: seq<Piece>, body: string, v: string)
    requires ps != []
    ensures Swap(ps, body, v)[1..] == Swap(ps[1..], body, v)
  {
  }

  /** One step of the loop on a template of pieces: replacing a placeholder's
      text swaps exactly the placeholders with that body for the value. */
  lemma {:induction false} ReplaceAllTemplate(ps: seq<Piece>, b: string, v: string)
    requires PiecesOk(ps) && PieceOk(Placeholder(b))
    ensures ReplaceAll(Template(ps), PlaceholderText(b), v) == Template(Swap(ps, b, v))
    decreases |ps|
  {
    var pat := PlaceholderText(b);
    if ps == [] {
      assert Swap(ps, b, v) == [];
    } else {
      var rest := Template(ps[1..]);
      assert PiecesOk(ps[1..]) by {
        forall i | 0 <= i < |ps[1..]| ensures PieceOk(ps[1..][i]) { assert ps[1..][i] == ps[i + 1]; }
      }
      ReplaceAllTemplate(ps[1..], b, v);
      SwapTail(ps, b, v);
      assert PieceOk(ps[0]);
      var sw := Swap(ps, b, v);
      assert Template(sw) == PieceText(sw[0]) + Template(sw[1..]);
      match ps[0]
      case Literal(t) =>
        forall k | 0 <= k < |t| ensures !OccursAt(t + rest, pat, k) {
          assert (t + rest)[k] == t[k];
          assert pat[0] == '$';
        }
        ReplaceAllSkips(t, rest, pat, v);
      case Placeholder(c) =>
        if c == b {
          var s := pat + rest;
          assert s[..|pat|] == pat;
          assert s[|pat|..] == rest;
        } else {
          NoOccurrenceInside(c, rest, b);
          ReplaceAllSkips(PlaceholderText(c), rest, pat, v);
        }
    }
  }

  /** The matches a scan can produce: placeholder texts of well-formed bodies. */
  predicate MatchesOk(ms: seq<Match>) {
    forall i :: 0 <= i < |ms| ==>
      ms[i].whole != "" && ms[i].whole == PlaceholderText(ms[i].body) && PieceOk(Placeholder(ms[i].body))
  }

  lemma SwapOk(meta: PvcMetadata, ps: seq<Piece>, b: string)
    requires PiecesOk(ps) && ValuesOk(meta, ps)
    ensures PiecesOk(Swap(ps, b, Lookup(meta, Classify(b))))
    ensures ValuesOk(meta, Swap(ps, b, Lookup(meta, Classify(b))))
  {
    var next := Swap(ps, b, Lookup(meta, Classify(b)));
    forall i | 0 <= i < |next| ensures PieceOk(next[i]) {
      assert PieceOk(ps[i]);
    }
    forall i | 0 <= i < |next| && next[i].Placeholder?
      ensures '$' !in Lookup(meta, Classify(next[i].body))
    {
      assert next[i] == ps[i];
    }
  }

  lemma BodiesCons(ms: seq<Match>)
    requires ms != []
    ensures Bodies(ms) == {ms[0].body} + Bodies(ms[1..])
  {
    forall x | x in Bodies(ms) ensures x in {ms[0].body} + Bodies(ms[1..]) {
      var i :| 0 <= i < |ms| && ms[i].body == x;
      if i > 0 { assert ms[1..][i - 1] == ms[i]; }
    }
    forall x | x in Bodies(ms[1..]) ensures x in Bodies(ms) {
      var i :| 0 <= i < |ms[1..]| && ms[1..][i].body == x;
      assert ms[i + 1] == ms[1..][i];
    }
  }

  /** The whole loop on a template of pieces: applying any run of
      well-formed matches fills in exactly the placeholders they name. */
  lemma {:induction false} ApplyTemplate(meta: PvcMetadata, ps: seq<Piece>, ms: seq<Match>)
    requires PiecesOk(ps) && ValuesOk(meta, ps) && MatchesOk(ms)
    ensures ApplyMatches(meta, Template(ps), ms) == Template(Fill(meta, ps, Bodies(ms)))
    decreases |ms|
  {
    if ms == [] {
      assert Fill(meta, ps, Bodies(ms)) == ps;
    } else {
      var b := ms[0].body;
      var v := Lookup(meta, Classify(b));
      assert ApplyMatches(meta, Template(ps), ms) == ApplyMatches(meta, ReplaceAll(Template(ps), ms[0].whole, v), ms[1..]);
      ReplaceAllTemplate(ps, b, v);
      var next := Swap(ps, b, v);
      SwapOk(meta, ps, b);
      MatchesOkTail(ms);
      ApplyTemplate(meta, next, ms[1..]);
      BodiesCons(ms);
      FillSwap(meta, ps, b, Bodies(ms[1..]));
    }
  }

  lemma MatchesOkTail(ms: seq<Match>)
    requires ms != [] && MatchesOk(ms)
    ensures MatchesOk(ms[1..])
  {
    forall i | 0 <= i < |ms[1..]| ensures ms[1..][i] == ms[i + 1] { }
  }

  /** Filling after swapping one body is filling with that body done. */
  lemma FillSwap(meta: PvcMetadata, ps: seq<Piece>, b: string, done: set<string>)
    ensures Fill(meta, Swap(ps, b, Lookup(meta, Classify(b))), done) == Fill(meta, ps, {b} + done)
  {
  }

  lemma PlaceholderMatchesCover(ps: seq<Piece>)
    ensures forall i :: 0 <= i < |PlaceholderMatches(ps)| ==>
      PlaceholderMatches(ps)[i].whole == PlaceholderText(PlaceholderMatches(ps)[i].body)
      && Placeholder(PlaceholderMatches(ps)[i].body) in ps
    ensures forall i :: 0 <= i < |ps| && ps[i].Placeholder? ==> ps[i].body in Bodies(PlaceholderMatches(ps))
    decreases |ps|
  {
    if ps != [] {
      PlaceholderMatchesCover(ps[1..]);
      var head: seq<Match> := if ps[0].Placeholder? then [Match(PlaceholderText(ps[0].body), ps[0].body)] else [];
      var tail := PlaceholderMatches(ps[1..]);
      assert PlaceholderMatches(ps) == head + tail;
      forall i | 0 <= i < |ps| && ps[i].Placeholder? ensures ps[i].body in Bodies(head + tail) {
        if i == 0 {
          assert (head + tail)[0].body == ps[0].body;
        } else {
          assert ps[1..][i - 1] == ps[i];
          var j :| 0 <= j < |tail| && tail[j].body == ps[i].body;
          assert (head + tail)[|head| + j] == tail[j];
        }
      }
    }
  }

  lemma {:induction false} ExpandFilled(meta: PvcMetadata, ps: seq<Piece>, done: set<string>)
    requires forall i :: 0 <= i < |ps| && ps[i].Placeholder? ==> ps[i].body in done
    ensures Template(Fill(meta, ps, done)) == Expand(meta, ps)
    decreases |ps|
  {
    if ps != [] {
      assert Fill(meta, ps, done)[1..] == Fill(meta, ps[1..], done);
      forall i | 0 <= i < |ps[1..]| && ps[1..][i].Placeholder? ensures ps[1..][i].body in done {
        assert ps[1..][i] == ps[i + 1];
      }
      ExpandFilled(meta, ps[1..], done);
    }
  }

  /** The substitution is positional: for a template whose literals and
      placeholder bodies hold no `$` (and no `}` in a body), and whose
      placeholders stand for values without `$`, the result is the template
      with each placeholder replaced, in place, by its value. */
  lemma {:induction false} SubstituteIsPositional(meta: PvcMetadata, ps: seq<Piece>)
    requires PiecesOk(ps) && ValuesOk(meta, ps)
    ensures Substitute(meta, Template(ps)) == Expand(meta, ps)
  {
    FindAllTemplate(ps);
    var ms := PlaceholderMatches(ps);
    PlaceholderMatchesCover(ps);
    assert MatchesOk(ms) by {
      forall i | 0 <= i < |ms|
        ensures ms[i].whole != "" && ms[i].whole == PlaceholderText(ms[i].body) && PieceOk(Placeholder(ms[i].body))
      {
        var j :| 0 <= j < |ps| && ps[j] == Placeholder(ms[i].body);
        assert PieceOk(ps[j]);
      }
    }
    ApplyTemplate(meta, ps, ms);
    ExpandFilled(meta, ps, Bodies(ms));
  }
}
