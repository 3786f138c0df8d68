/** What `parseValue` promises, proved about the functions that specify it:
    the whole-value form, interpolation against an independent reading of
    the template as text and holes, what arrays and objects keep, and which
    `flowData` properties can disappear. */
module TemplateLaws {
  import opened Json
  import opened Strings
  import opened Templates

  // ---------------------------------------------------------------------
  // The whole-value form `{{name}}`

  lemma {:induction false} WordEndRun(s: string, i: nat, j: nat)
    requires i <= j <= |s|
    requires forall k :: i <= k < j ==> IsWordChar(s[k])
    requires j < |s| ==> !IsWordChar(s[j])
    ensures WordEnd(s, i) == j
    decreases j - i
  {
    if i < j {
      WordEndRun(s, i + 1, j);
    }
  }

  /** A string that is exactly `{{name}}` yields `input[name]` itself (an
      object or an array included) when it is truthy, else `null`; the name
      is consumed only in the first case. */
  lemma StrictWhole(w: string, input: seq<Member>)
    requires IsWord(w)
    ensures Substitute(Str("{{" + w + "}}"), input) ==
      if Truthy(Lookup(input, w)) then Substitution(Lookup(input, w), {w})
      else Substitution(Null, {})
  {
    var s := "{{" + w + "}}";
    WordEndRun(s, 2, 2 + |w|);
    assert StrictAt(s, 0) == Some(|s|);
    assert FindStrict(s, 0) == Some(Span(0, |s|));
    assert s[0..|s|] == s;
    assert s[2..|s| - 2] == w;
  }

  /** Elsewhere in a longer string the name is cut with the length of the
      whole string, so the closing braces leak into it: one of them when the
      string has one character besides the match, both otherwise. The value
      is the input property of that name, or `null`. */
  lemma StrictNameLeak(s: string, m: Span, input: seq<Member>)
    requires FindStrict(s, 0) == Some(m) && |s| > m.end - m.start
    ensures m.start + 5 <= m.end
    ensures StrictName(s, m) ==
      s[m.start + 2..m.end - 2] + (if |s| - (m.end - m.start) == 1 then "}" else "}}")
    ensures Substitute(Str(s), input).value == Or(Lookup(input, StrictName(s, m)), Null)
  {
    StrictNameCut(s, m);
    StrictValue(s, input);
  }

  /** The name cut from a `{{w}}` match in a string longer than the match. */
  lemma StrictNameCut(s: string, m: Span)
    requires m.start <= m.end <= |s| && StrictAt(s, m.start) == Some(m.end) && |s| > m.end - m.start
    ensures m.start + 5 <= m.end
    ensures StrictName(s, m) ==
      s[m.start + 2..m.end - 2] + (if |s| - (m.end - m.start) == 1 then "}" else "}}")
  {
    var t := s[m.start..m.end];
    StrictCloses(s, m.start, m.end);
    assert |t| == m.end - m.start;
    assert t[|t| - 2] == s[m.end - 2];
    assert t[|t| - 1] == s[m.end - 1];
    SliceOfSlice(s, m.start, m.end, 2, |t| - 2);
    CutLeak(t, |s|);
  }

  lemma SliceOfSlice(s: string, a: nat, b: nat, i: nat, j: nat)
    requires a <= b <= |s| && i <= j <= b - a
    ensures s[a..b][i..j] == s[a + i..a + j]
  {
    forall k | 0 <= k < j - i
      ensures s[a..b][i..j][k] == s[a + i..a + j][k]
    {
    }
  }

  /** A `{{w}}` match ends in two closing braces. */
  lemma StrictCloses(s: string, i: nat, e: nat)
    requires i <= |s| && StrictAt(s, i) == Some(e)
    ensures i + 5 <= e && s[e - 2] == '}' && s[e - 1] == '}'
  {
  }

  /** Cutting a match that ends in `}}` at `2..n - 2`, for a length `n`
      beyond its own. */
  lemma CutLeak(t: string, n: int)
    requires |t| >= 5 && t[|t| - 2] == '}' && t[|t| - 1] == '}' && n > |t|
    ensures Substring(t, 2, n - 2) == t[2..|t| - 2] + (if n - |t| == 1 then "}" else "}}")
  {
    var k := |t|;
    if n - k == 1 {
      assert Substring(t, 2, n - 2) == t[2..k - 1];
      assert t[2..k - 1] == t[2..k - 2] + "}";
    } else {
      SubstringClamp(t, 2, n - 2);
      assert Substring(t, 2, n - 2) == t[2..k];
      assert t[2..k] == t[2..k - 2] + "}}";
    }
  }

  /** The string case of `parseValue` once a `{{w}}` matches. */
  lemma StrictValue(s: string, input: seq<Member>)
    requires FindStrict(s, 0).Some?
    ensures Substitute(Str(s), input).value == Or(Lookup(input, StrictName(s, FindStrict(s, 0).value)), Null)
  {
  }

  /** `"a{{x}}"` looks up the property `"x}"`. */
  lemma StrictNameQuirk(input: seq<Member>)
    ensures Substitute(Str("a{{x}}"), input).value == Or(Lookup(input, "x}"), Null)
  {
    var s := "a{{x}}";
    WordEndRun(s, 3, 4);
    assert StrictAt(s, 0) == None;
    assert StrictAt(s, 1) == Some(6);
    assert FindStrict(s, 0) == Some(Span(1, 6));
    StrictNameLeak(s, Span(1, 6), input);
    assert s[3..4] + "}" == "x}";
  }

  // ---------------------------------------------------------------------
  // Interpolation against a reading of the template as text and holes

  /** No `{` is directly followed by another one, so `{{w}}` never matches. */
  predicate NoDoubleBrace(s: string) {
    forall i :: 0 <= i < |s| - 1 ==> s[i] != '{' || s[i + 1] != '{'
  }

  lemma {:induction false} FindStrictNone(s: string, i: nat)
    requires i <= |s| && NoDoubleBrace(s)
    ensures FindStrict(s, i) == None
    decreases |s| - i
  {
    if i < |s| {
      assert StrictAt(s, i) == None;
      FindStrictNone(s, i + 1);
    }
  }

  lemma NoDoubleBraceConcat(x: string, t: string)
    requires NoDoubleBrace(x) && NoDoubleBrace(t)
    requires x == [] || x[|x| - 1] != '{'
    ensures NoDoubleBrace(x + t)
  {
    var s := x + t;
    forall i | 0 <= i < |s| - 1
      ensures s[i] != '{' || s[i + 1] != '{'
    {
      if i + 1 < |x| {
        assert s[i] == x[i] && s[i + 1] == x[i + 1];
      } else if i + 1 == |x| {
        assert s[i] == x[|x| - 1];
      } else {
        assert s[i] == t[i - |x|] && s[i + 1] == t[i - |x| + 1];
      }
    }
  }

  /** A template read as literal characters and `{name}` holes. */
  datatype Piece = Text(c: char) | Hole(name: string)

  function RenderPiece(p: Piece): string {
    match p
    case Text(c) => [c]
    case Hole(n) => "{" + n + "}"
  }

  function Render(ps: seq<Piece>): string {
    if ps == [] then "" else RenderPiece(ps[0]) + Render(ps[1..])
  }

  /** Every hole is named by a word, and no literal `{` opens a
      placeholder in the text that follows it: `{x/,}` or `{a-b}` may stand
      as text, `{x}` only as a hole. */
  predicate Plain(ps: seq<Piece>) {
    forall i :: 0 <= i < |ps| ==> PlainAt(ps, i)
  }

  predicate PlainAt(ps: seq<Piece>, i: nat)
    requires i < |ps|
  {
    match ps[i]
    case Text(c) => c == '{' ==> PlaceholderAt(Render(ps[i..]), 0).None?
    case Hole(n) => IsWord(n)
  }

  /** The word run is the same whether scanned in place or in a suffix. */
  lemma {:induction false} WordEndShift(s: string, i: nat, k: nat)
    requires i + k <= |s|
    ensures WordEnd(s, i + k) == i + WordEnd(s[i..], k)
  {
    var t := s[i..];
    var e := WordEnd(t, k);
    forall j | i + k <= j < i + e
      ensures IsWordChar(s[j])
    {
      assert s[j] == t[j - i];
    }
    if i + e < |s| {
      assert s[i + e] == t[e];
    }
    WordEndRun(s, i + k, i + e);
  }

  /** Whether a placeholder opens at `i` depends only on the text from `i`. */
  lemma PlaceholderShift(s: string, i: nat)
    requires i <= |s|
    ensures PlaceholderAt(s, i).None? <==> PlaceholderAt(s[i..], 0).None?
  {
    if i < |s| {
      var t := s[i..];
      assert t[0] == s[i];
      WordEndShift(s, i, 1);
      var e := WordEnd(t, 1);
      if i + e < |s| {
        assert s[i + e] == t[e];
      }
    }
  }

  /** Literal text holds no `{` at all. */
  predicate BraceFreeText(ps: seq<Piece>) {
    forall i :: 0 <= i < |ps| ==> ps[i] != Text('{')
  }

  /** The intended result: text kept, each hole filled from the input. */
  function Fill(ps: seq<Piece>, input: seq<Member>): string {
    if ps == [] then "" else FillPiece(ps[0], input) + Fill(ps[1..], input)
  }

  function FillPiece(p: Piece, input: seq<Member>): string {
    match p
    case Text(c) => [c]
    case Hole(n) => Replacement(n, input)
  }

  function Holes(ps: seq<Piece>): seq<string> {
    if ps == [] then [] else PieceHoles(ps[0]) + Holes(ps[1..])
  }

  function PieceHoles(p: Piece): seq<string> {
    match p
    case Text(_) => []
    case Hole(n) => [n]
  }

  lemma PlainTail(ps: seq<Piece>)
    requires ps != [] && Plain(ps)
    ensures Plain(ps[1..])
  {
    var t := ps[1..];
    forall i | 0 <= i < |t|
      ensures PlainAt(t, i)
    {
      assert PlainAt(ps, i + 1);
      assert t[i] == ps[i + 1];
      assert t[i..] == ps[i + 1..];
    }
  }

  lemma BraceFreeTail(ps: seq<Piece>)
    requires ps != [] && BraceFreeText(ps)
    ensures BraceFreeText(ps[1..])
  {
    forall i | 0 <= i < |ps| - 1
      ensures ps[1..][i] != Text('{')
    {
      assert ps[1..][i] == ps[i + 1];
    }
  }

  /** A rendered hole at `i` is a placeholder ending right after it, and
      names itself. */
  lemma HoleAt(s: string, i: nat, n: string)
    requires IsWord(n) && i + |n| + 2 <= |s| && s[i..i + |n| + 2] == RenderPiece(Hole(n))
    ensures PlaceholderAt(s, i) == Some(i + |n| + 2)
    ensures s[i + 1..i + |n| + 1] == n
  {
    var x := RenderPiece(Hole(n));
    assert s[i] == x[0] == '{';
    assert s[i + 1 + |n|] == x[|n| + 1] == '}';
    forall k | i + 1 <= k < i + 1 + |n|
      ensures s[k] == n[k - i - 1]
    {
      assert s[k] == x[k - i];
    }
    WordEndRun(s, i + 1, i + 1 + |n|);
  }

  /** The scan over a character that opens no placeholder. */
  lemma TextStep(s: string, i: nat, input: seq<Member>)
    requires i < |s| && PlaceholderAt(s, i).None?
    ensures InterpolateFrom(s, i, input) == [s[i]] + InterpolateFrom(s, i + 1, input)
    ensures PlaceholdersFrom(s, i) == PlaceholdersFrom(s, i + 1)
  {
  }

  /** The scan over one rendered piece at `i`, ending at `j`. */
  lemma PieceStep(s: string, i: nat, j: nat, p: Piece, input: seq<Member>)
    requires i <= j <= |s| && s[i..j] == RenderPiece(p)
    requires match p
      case Text(c) => c == '{' ==> PlaceholderAt(s, i).None?
      case Hole(n) => IsWord(n)
    ensures InterpolateFrom(s, i, input) == FillPiece(p, input) + InterpolateFrom(s, j, input)
    ensures PlaceholdersFrom(s, i) == PieceHoles(p) + PlaceholdersFrom(s, j)
  {
    match p
    case Text(c) =>
      assert s[i] == s[i..j][0] == c;
      assert j == i + 1;
      TextStep(s, i, input);
    case Hole(n) =>
      HoleAt(s, i, n);
      assert j == i + |n| + 2;
      HoleStep(s, i, j, n, input);
  }

  /** Scanning a rendered template, from wherever it starts, fills exactly
      its holes, in order. */
  lemma {:induction false} ScanFrom(q: string, ps: seq<Piece>, input: seq<Member>)
    requires Plain(ps)
    ensures InterpolateFrom(q + Render(ps), |q|, input) == Fill(ps, input)
    ensures PlaceholdersFrom(q + Render(ps), |q|) == Holes(ps)
    decreases |ps|
  {
    if ps == [] {
      assert q + Render(ps) == q;
    } else {
      var x := RenderPiece(ps[0]);
      var t := Render(ps[1..]);
      var s := q + Render(ps);
      var q' := q + x;
      assert s == q' + t;
      assert s[|q|..|q'|] == x;
      assert s[|q'|..] == t;
      ScanStep(s, |q|, |q'|, ps, input);
      PlainTail(ps);
      ScanFrom(q', ps[1..], input);
    }
  }

  /** The scan over the first piece of a plain template rendered at `i`. */
  lemma ScanStep(s: string, i: nat, j: nat, ps: seq<Piece>, input: seq<Member>)
    requires ps != [] && Plain(ps)
    requires i <= j <= |s| && s[i..j] == RenderPiece(ps[0]) && s[j..] == Render(ps[1..])
    ensures InterpolateFrom(s, i, input) == FillPiece(ps[0], input) + InterpolateFrom(s, j, input)
    ensures PlaceholdersFrom(s, i) == PieceHoles(ps[0]) + PlaceholdersFrom(s, j)
  {
    assert PlainAt(ps, 0);
    if ps[0] == Text('{') {
      assert s[i..] == s[i..j] + s[j..];
      assert ps[0..] == ps;
      PlaceholderShift(s, i);
    }
    PieceStep(s, i, j, ps[0], input);
  }

  /** A rendered template whose text holds no `{` has no `{{`. */
  lemma {:induction false} RenderNoDoubleBrace(ps: seq<Piece>)
    requires Plain(ps) && BraceFreeText(ps)
    ensures NoDoubleBrace(Render(ps))
  {
    if ps != [] {
      var x := RenderPiece(ps[0]);
      PlainTail(ps);
      BraceFreeTail(ps);
      RenderNoDoubleBrace(ps[1..]);
      assert PlainAt(ps, 0);
      match ps[0]
      case Text(c) =>
      case Hole(n) =>
        forall i | 0 <= i < |x| - 1
          ensures x[i] != '{' || x[i + 1] != '{'
        {
          if i < |n| {
            assert x[i + 1] == n[i];
          }
        }
      NoDoubleBraceConcat(x, Render(ps[1..]));
    }
  }

  /** A template without a `{{w}}` match has every `{w}` replaced by the
      input value when it is truthy and by nothing otherwise, and keeps
      every other character, a `{` that opens no placeholder included; an
      empty result is `null`; the names consumed are the filled names with
      truthy values. */
  lemma InterpolationForm(ps: seq<Piece>, input: seq<Member>)
    requires Plain(ps) && FindStrict(Render(ps), 0) == None
    ensures Substitute(Str(Render(ps)), input) ==
      Substitution(if Fill(ps, input) == "" then Null else Str(Fill(ps, input)),
                   set k | k in Holes(ps) && Truthy(Lookup(input, k)))
  {
    var s := Render(ps);
    ScanFrom("", ps, input);
    assert "" + s == s;
    InterpolatedString(s, input);
    assert InterpolateFrom(s, 0, input) == Fill(ps, input);
    assert PlaceholdersFrom(s, 0) == Holes(ps);
  }

  /** The string case of `parseValue` once no `{{w}}` matches. */
  lemma InterpolatedString(s: string, input: seq<Member>)
    requires FindStrict(s, 0) == None
    ensures Substitute(Str(s), input) ==
      Substitution(if InterpolateFrom(s, 0, input) == "" then Null else Str(InterpolateFrom(s, 0, input)),
                   TruthyNames(PlaceholdersFrom(s, 0), input))
  {
  }

  /** When the text holds no `{` there is no `{{w}}` match to rule out. */
  lemma BraceFreeNoStrict(ps: seq<Piece>)
    requires Plain(ps) && BraceFreeText(ps)
    ensures FindStrict(Render(ps), 0) == None
  {
    RenderNoDoubleBrace(ps);
    FindStrictNone(Render(ps), 0);
  }

  lemma {:induction false} NoHoleScan(s: string, i: nat, input: seq<Member>)
    requires i <= |s|
    requires forall k :: 0 <= k < |s| ==> PlaceholderAt(s, k).None?
    ensures InterpolateFrom(s, i, input) == s[i..]
    ensures PlaceholdersFrom(s, i) == []
    decreases |s| - i
  {
    if i < |s| {
      assert PlaceholderAt(s, i).None?;
      NoHoleScan(s, i + 1, input);
      assert [s[i]] + s[i + 1..] == s[i..];
    }
  }

  /** A `{{w}}` match at `j` contains the `{w}` match at `j + 1`. */
  lemma StrictHasPlaceholder(s: string, j: nat)
    requires j <= |s| && StrictAt(s, j).Some?
    ensures j + 1 < |s| && PlaceholderAt(s, j + 1) == Some(StrictAt(s, j).value - 1)
  {
  }

  /** A string in which no `{w}` matches comes back unchanged, except that
      "" becomes `null`, and consumes nothing. */
  lemma NoPlaceholder(s: string, input: seq<Member>)
    requires forall k :: 0 <= k < |s| ==> PlaceholderAt(s, k).None?
    ensures Substitute(Str(s), input) == Substitution(if s == "" then Null else Str(s), {})
  {
    NoHoleScan(s, 0, input);
    if FindStrict(s, 0).Some? {
      var m := FindStrict(s, 0).value;
      StrictHasPlaceholder(s, m.start);
      assert false;
    }
  }

  /** A brace, a word and then neither a word character nor `}` opens no
      placeholder: in `{w` followed by such a `t` (with no `{` of its own)
      no `{name}` matches anywhere. */
  lemma OtherBraceForm(w: string, t: string, rest: string)
    requires IsWord(w) && t != [] && !IsWordChar(t[0]) && t[0] != '}' && '{' !in t
    ensures forall k :: 0 <= k < |"{" + w + t| ==> PlaceholderAt("{" + w + t + rest, k).None?
  {
    var f := "{" + w + t;
    var s := f + rest;
    assert s[1 + |w|] == t[0];
    WordEndRun(s, 1, 1 + |w|);
    forall k | 0 <= k < |f|
      ensures PlaceholderAt(s, k).None?
    {
      if 0 < k <= |w| {
        assert s[k] == w[k - 1];
      } else if k > |w| {
        assert s[k] == t[k - 1 - |w|];
      }
    }
  }

  /** Braces around anything that is not a bare word stay text: such a
      form comes back as it is and consumes nothing. */
  lemma OtherBracesStay(w: string, t: string, input: seq<Member>)
    requires IsWord(w) && t != [] && !IsWordChar(t[0]) && t[0] != '}' && '{' !in t
    ensures Substitute(Str("{" + w + t), input) == Substitution(Str("{" + w + t), {})
  {
    var f := "{" + w + t;
    OtherBraceForm(w, t, "");
    assert f + "" == f;
    NoPlaceholder(f, input);
  }

  /** For instance `{x/,}` and `{x?yes}`, the separator and conditional
      forms that this function does not know. */
  lemma OtherBracesInstances(input: seq<Member>)
    ensures Substitute(Str("{x/,}"), input) == Substitution(Str("{x/,}"), {})
    ensures Substitute(Str("{x?yes}"), input) == Substitution(Str("{x?yes}"), {})
  {
    assert "{x/,}" == "{" + "x" + "/,}";
    OtherBracesStay("x", "/,}", input);
    assert "{x?yes}" == "{" + "x" + "?yes}";
    OtherBracesStay("x", "?yes}", input);
  }

  /** No placeholder opens at any position from `i` up to `j`. */
  predicate OpensNone(s: string, i: nat, j: nat)
    requires i <= j <= |s|
  {
    forall k :: i <= k < j ==> PlaceholderAt(s, k).None?
  }

  /** The scan over a run of characters none of which opens a placeholder
      copies them. */
  lemma {:induction false} TextRun(s: string, i: nat, j: nat, input: seq<Member>)
    requires i <= j <= |s| && OpensNone(s, i, j)
    ensures InterpolateFrom(s, i, input) == s[i..j] + InterpolateFrom(s, j, input)
    decreases j - i
  {
    if i < j {
      assert PlaceholderAt(s, i).None?;
      assert OpensNone(s, i + 1, j);
      assert InterpolateFrom(s, i, input) == [s[i]] + InterpolateFrom(s, i + 1, input);
      TextRun(s, i + 1, j, input);
      ConsSlice(s, i, j, InterpolateFrom(s, j, input));
    }
  }

  /** ... and meets no name on the way. */
  lemma {:induction false} TextRunNames(s: string, i: nat, j: nat)
    requires i <= j <= |s| && OpensNone(s, i, j)
    ensures PlaceholdersFrom(s, i) == PlaceholdersFrom(s, j)
    decreases j - i
  {
    if i < j {
      assert PlaceholderAt(s, i).None?;
      assert OpensNone(s, i + 1, j);
      TextRunNames(s, i + 1, j);
    }
  }

  lemma ConsSlice(s: string, i: nat, j: nat, r: string)
    requires i < j <= |s|
    ensures [s[i]] + (s[i + 1..j] + r) == s[i..j] + r
  {
    assert s[i..j] == [s[i]] + s[i + 1..j];
  }

  /** Such a form in front of a plain template stays text while the holes
      after it are filled and consumed as usual. */
  lemma OtherBracesBeforeHoles(w: string, t: string, ps: seq<Piece>, input: seq<Member>)
    requires IsWord(w) && t != [] && !IsWordChar(t[0]) && t[0] != '}' && '{' !in t
    requires Plain(ps) && FindStrict("{" + w + t + Render(ps), 0) == None
    ensures Substitute(Str("{" + w + t + Render(ps)), input) ==
      Substitution(Str("{" + w + t + Fill(ps, input)),
                   set k | k in Holes(ps) && Truthy(Lookup(input, k)))
  {
    var f := "{" + w + t;
    var s := f + Render(ps);
    OtherBraceForm(w, t, Render(ps));
    assert OpensNone(s, 0, |f|);
    TextRun(s, 0, |f|, input);
    TextRunNames(s, 0, |f|);
    assert s[0..|f|] == f;
    ScanFrom(f, ps, input);
    InterpolatedString(s, input);
  }

  /** A number, a boolean, `null` or `undefined` yields `null`. */
  lemma Scalars(schema: Json, input: seq<Member>)
    requires !schema.Str? && !schema.Arr? && !schema.Obj?
    ensures Substitute(schema, input) == Substitution(Null, {})
  {
  }

  /** The result is `null` or truthy, never another falsy value. */
  lemma ResultNullOrTruthy(schema: Json, input: seq<Member>)
    ensures Substitute(schema, input).value == Null || Truthy(Substitute(schema, input).value)
  {
  }

  // ---------------------------------------------------------------------
  // Arrays: truthy results stay at their own index

  /** What element `j` contributes: its result when truthy, else a hole. */
  function Kept(es: seq<Json>, input: seq<Member>, j: nat): Json
    requires j < |es|
  {
    var v := Substitute(es[j], input).value;
    if Truthy(v) then v else Absent
  }

  function KeptPrefix(es: seq<Json>, input: seq<Member>, n: nat): (r: seq<Json>)
    requires n <= |es|
    ensures |r| == n && forall j :: 0 <= j < n ==> r[j] == Kept(es, input, j)
  {
    seq(n, j requires 0 <= j < n => Kept(es, input, j))
  }

  /** The array without its trailing holes. */
  function TrimHoles(a: seq<Json>): seq<Json> {
    if a == [] then []
    else if a[|a| - 1] == Absent then TrimHoles(a[..|a| - 1])
    else a
  }

  lemma AbsentSnoc(n: nat)
    ensures seq(n + 1, _ => Absent) == seq(n, _ => Absent) + [Absent]
  {
  }

  lemma {:induction false} TrimShape(a: seq<Json>)
    ensures |TrimHoles(a)| <= |a|
    ensures a == TrimHoles(a) + seq(|a| - |TrimHoles(a)|, _ => Absent)
    ensures TrimHoles(a) == [] || TrimHoles(a)[|TrimHoles(a)| - 1] != Absent
  {
    if a == [] {
      assert seq(0, _ => Absent) == [];
    } else if a[|a| - 1] == Absent {
      var b := a[..|a| - 1];
      TrimShape(b);
      var t := TrimHoles(b);
      assert TrimHoles(a) == t;
      assert a == b + [Absent];
      AbsentSnoc(|b| - |t|);
      assert a == t + (seq(|b| - |t|, _ => Absent) + [Absent]);
    } else {
      assert TrimHoles(a) == a;
      assert seq(0, _ => Absent) == [];
      assert a + [] == a;
    }
  }

  /** Nothing is left exactly when every position is a hole. */
  lemma {:induction false} TrimEmpty(a: seq<Json>)
    ensures TrimHoles(a) == [] <==> forall j :: 0 <= j < |a| ==> a[j] == Absent
  {
    if a != [] && a[|a| - 1] == Absent {
      var b := a[..|a| - 1];
      TrimEmpty(b);
      assert TrimHoles(a) == TrimHoles(b);
      assert forall j :: 0 <= j < |b| ==> b[j] == a[j];
    }
  }


  /** One more contribution at the end of an array. */
  lemma TrimSnoc(prev: seq<Json>, v: Json)
    ensures v != Absent ==> |TrimHoles(prev)| <= |prev| && TrimHoles(prev + [v]) == SetAt(TrimHoles(prev), |prev|, v)
    ensures v == Absent ==> TrimHoles(prev + [v]) == TrimHoles(prev)
  {
    var a := prev + [v];
    assert a[..|a| - 1] == prev;
    if v != Absent {
      TrimShape(prev);
    }
  }

  /** The array output after `n` elements is those elements' contributions
      with the trailing holes dropped. */
  lemma {:induction false} SubstElemsKept(schema: Json, input: seq<Member>, n: nat)
    requires schema.Arr? && n <= |schema.elems|
    ensures SubstElems(schema, input, n).0 == TrimHoles(KeptPrefix(schema.elems, input, n))
  {
    var es := schema.elems;
    if n > 0 {
      SubstElemsKept(schema, input, n - 1);
      var prev := KeptPrefix(es, input, n - 1);
      var cur := KeptPrefix(es, input, n);
      var v := Kept(es, input, n - 1);
      assert cur == prev + [v];
      TrimSnoc(prev, v);
      var sub := Substitute(es[n - 1], input);
      assert SubstElems(schema, input, n).0 ==
        if Truthy(sub.value) then SetAt(SubstElems(schema, input, n - 1).0, n - 1, sub.value)
        else SubstElems(schema, input, n - 1).0;
      assert v == if Truthy(sub.value) then sub.value else Absent;
    }
  }

  /** Dropping trailing holes keeps every other position. */
  lemma TrimIndex(a: seq<Json>, j: nat)
    requires j < |a|
    ensures a[j] != Absent ==> j < |TrimHoles(a)| && TrimHoles(a)[j] == a[j]
    ensures a[j] == Absent ==> |TrimHoles(a)| <= j || TrimHoles(a)[j] == Absent
  {
    TrimShape(a);
    var t := TrimHoles(a);
    assert a[j] == (t + seq(|a| - |t|, _ => Absent))[j];
  }

  /** An array template is `null` exactly when no element survives, and
      otherwise ends at its last truthy result. */
  lemma ArrayShape(es: seq<Json>, input: seq<Member>)
    ensures var out := Substitute(Arr(es), input).value;
      && (out == Null <==> forall j :: 0 <= j < |es| ==> !Truthy(Substitute(es[j], input).value))
      && (out != Null ==> out.Arr? && 0 < |out.elems| <= |es| && out.elems[|out.elems| - 1] != Absent)
  {
    var k := KeptPrefix(es, input, |es|);
    SubstElemsKept(Arr(es), input, |es|);
    TrimShape(k);
    TrimEmpty(k);
    var t := TrimHoles(k);
    assert Substitute(Arr(es), input).value == if t == [] then Null else Arr(t);
    forall j | 0 <= j < |es|
      ensures k[j] == Absent <==> !Truthy(Substitute(es[j], input).value)
    {
      assert k[j] == Kept(es, input, j);
    }
  }

  /** An array template keeps each truthy result at its original index and
      leaves a hole (or nothing) at every other. */
  lemma ArrayPositions(es: seq<Json>, input: seq<Member>)
    ensures var out := Substitute(Arr(es), input).value;
      && (forall j :: 0 <= j < |es| && Truthy(Substitute(es[j], input).value) ==>
            out.Arr? && j < |out.elems| && out.elems[j] == Substitute(es[j], input).value)
      && (forall j :: 0 <= j < |es| && !Truthy(Substitute(es[j], input).value) ==>
            !out.Arr? || |out.elems| <= j || out.elems[j] == Absent)
  {
    var k := KeptPrefix(es, input, |es|);
    SubstElemsKept(Arr(es), input, |es|);
    var t := TrimHoles(k);
    forall j | 0 <= j < |es|
      ensures Truthy(Substitute(es[j], input).value) ==> j < |t| && t[j] == Substitute(es[j], input).value
      ensures !Truthy(Substitute(es[j], input).value) ==> |t| <= j || t[j] == Absent
    {
      TrimIndex(k, j);
    }
  }

  // ---------------------------------------------------------------------
  // Objects: truthy results under their own keys, in template order

  /** The properties of an object template whose result is truthy, with
      that result as value. */
  function KeepMembers(ms: seq<Member>, input: seq<Member>): seq<Member> {
    if ms == [] then []
    else
      var m := ms[|ms| - 1];
      var v := Substitute(m.value, input).value;
      KeepMembers(ms[..|ms| - 1], input) + (if Truthy(v) then [Member(m.key, v)] else [])
  }

  lemma {:induction false} KeepMembersKeys(ms: seq<Member>, input: seq<Member>)
    ensures KeySet(KeepMembers(ms, input)) <= KeySet(ms)
  {
    if ms != [] {
      var init := ms[..|ms| - 1];
      KeepMembersKeys(init, input);
      assert KeySet(init) <= KeySet(ms) by {
        forall x | x in KeySet(init) ensures x in KeySet(ms) {
          var i :| 0 <= i < |init| && init[i].key == x;
          assert ms[i].key == x;
        }
      }
      var m := ms[|ms| - 1];
      var v := Substitute(m.value, input).value;
      if Truthy(v) {
        var r := KeepMembers(init, input) + [Member(m.key, v)];
        forall x | x in KeySet(r) ensures x in KeySet(ms) {
          var i :| 0 <= i < |r| && r[i].key == x;
          if i < |r| - 1 {
            assert r[i].key in KeySet(KeepMembers(init, input));
          }
        }
      }
    }
  }

  /** Under unique property names the object output after `n` properties is
      the truthy prefix of the template. */
  lemma {:induction false} SubstMembersKept(schema: Json, input: seq<Member>, n: nat)
    requires schema.Obj? && n <= |schema.members| && UniqueKeys(schema.members)
    ensures SubstMembers(schema, input, n).0 == KeepMembers(schema.members[..n], input)
  {
    var ms := schema.members;
    if n > 0 {
      SubstMembersKept(schema, input, n - 1);
      var init := ms[..n - 1];
      assert ms[..n][..n - 1] == init;
      KeepMembersKeys(init, input);
      var m := ms[n - 1];
      assert forall i :: 0 <= i < |init| ==> init[i] == ms[i];
      assert m.key !in KeySet(init);
    }
  }

  /** An object template keeps exactly its properties with a truthy result,
      in order and under their own keys; it is `null` when none survives. */
  lemma ObjectResult(ms: seq<Member>, input: seq<Member>)
    requires UniqueKeys(ms)
    ensures Substitute(Obj(ms), input).value ==
      if KeepMembers(ms, input) == [] then Null else Obj(KeepMembers(ms, input))
  {
    SubstMembersKept(Obj(ms), input, |ms|);
    assert ms[..|ms|] == ms;
  }

  /** Property `ms[j]` of the template is in the output exactly when its
      result is truthy, and then holds that result. */
  lemma {:induction false} KeepMembersLookup(ms: seq<Member>, input: seq<Member>, j: nat)
    requires UniqueKeys(ms) && j < |ms|
    ensures Lookup(KeepMembers(ms, input), ms[j].key) ==
      var v := Substitute(ms[j].value, input).value; if Truthy(v) then v else Absent
  {
    var init := ms[..|ms| - 1];
    var m := ms[|ms| - 1];
    var v := Substitute(m.value, input).value;
    assert UniqueKeys(init);
    KeepMembersKeys(init, input);
    var rest := KeepMembers(init, input);
    if Truthy(v) {
      assert KeepMembers(ms, input) == rest + [Member(m.key, v)];
      LookupAppend(rest, Member(m.key, v), ms[j].key);
    } else {
      assert KeepMembers(ms, input) == rest;
    }
    assert forall i :: 0 <= i < |init| ==> init[i] == ms[i];
    if j == |ms| - 1 {
      assert m.key !in KeySet(init);
      LookupMissing(rest, m.key);
    } else {
      assert init[j] == ms[j];
      KeepMembersLookup(init, input, j);
    }
  }

  lemma {:induction false} LookupAppend(ms: seq<Member>, m: Member, k: string)
    ensures Lookup(ms + [m], k) == if Lookup(ms, k) != Absent || k in KeySet(ms) then Lookup(ms, k)
      else if m.key == k then m.value else Absent
  {
    if ms == [] {
      assert [] + [m] == [m];
    } else {
      assert (ms + [m])[1..] == ms[1..] + [m];
      LookupAppend(ms[1..], m, k);
      KeySetSplit(ms);
    }
  }

  // ---------------------------------------------------------------------
  // flowData

  /** Only names whose input value is truthy are ever consumed. */
  lemma {:induction false} ConsumedAreTruthy(schema: Json, input: seq<Member>)
    ensures forall k :: k in Substitute(schema, input).consumed ==> Truthy(Lookup(input, k))
    decreases Size(schema), 1
  {
    match schema
    case Str(s) =>
    case Arr(es) => ConsumedInElems(schema, input, |es|);
    case Obj(ms) => ConsumedInMembers(schema, input, |ms|);
    case _ =>
  }

  lemma {:induction false} ConsumedInElems(schema: Json, input: seq<Member>, n: nat)
    requires schema.Arr? && n <= |schema.elems|
    ensures forall k :: k in SubstElems(schema, input, n).1 ==> Truthy(Lookup(input, k))
    decreases Size(schema), 0, n
  {
    if n > 0 {
      ConsumedInElems(schema, input, n - 1);
      ElemSmaller(schema.elems, n - 1);
      ConsumedAreTruthy(schema.elems[n - 1], input);
    }
  }

  lemma {:induction false} ConsumedInMembers(schema: Json, input: seq<Member>, n: nat)
    requires schema.Obj? && n <= |schema.members|
    ensures forall k :: k in SubstMembers(schema, input, n).1 ==> Truthy(Lookup(input, k))
    decreases Size(schema), 0, n
  {
    if n > 0 {
      ConsumedInMembers(schema, input, n - 1);
      MemberSmaller(schema.members, n - 1);
      ConsumedAreTruthy(schema.members[n - 1].value, input);
    }
  }

  /** After a call, a `flowData` property is gone only when its name was
      substituted with a truthy input value and it was itself truthy; every
      other property keeps its value. */
  lemma FlowAfter(schema: Json, input: seq<Member>, flow: seq<Member>, k: string)
    requires UniqueKeys(flow)
    ensures var after := Consume(flow, Substitute(schema, input).consumed);
      && UniqueKeys(after)
      && (Lookup(after, k) != Lookup(flow, k) ==>
            Lookup(after, k) == Absent && Truthy(Lookup(flow, k)) && Truthy(Lookup(input, k))
            && k in Substitute(schema, input).consumed)
  {
    ConsumeLookup(flow, Substitute(schema, input).consumed, k);
    ConsumeKeys(flow, Substitute(schema, input).consumed);
    ConsumedAreTruthy(schema, input);
  }
}
