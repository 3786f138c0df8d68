/** The JavaScript string operations the toolkit uses: `split` on one or
    more separator characters, `substring`, and ASCII `toUpperCase`. */
module Strings {

  /** `s.split(sep)` where every character of `seps` separates (a one-character
      string separator, or a regular expression that is a character class).
      Empty pieces are kept, so the result is never empty. */
  function Split(s: string, seps: set<char>): (r: seq<string>)
    ensures |r| >= 1
    ensures forall i, j :: 0 <= i < |r| && 0 <= j < |r[i]| ==> r[i][j] !in seps
  {
    if s == [] then [""]
    else
      var rest := Split(s[1..], seps);
      if s[0] in seps then [""] + rest
      else [[s[0]] + rest[0]] + rest[1..]
  }

  /** `parts.join(sep)` */
  function Join(parts: seq<string>, sep: char): string
    requires |parts| >= 1
  {
    if |parts| == 1 then parts[0] else parts[0] + [sep] + Join(parts[1..], sep)
  }

  /** Splitting on one character and joining on it gives the string back. */
  lemma {:induction false} JoinSplit(s: string, sep: char)
    ensures Join(Split(s, {sep}), sep) == s
  {
    if s != [] {
      JoinSplit(s[1..], sep);
      var rest := Split(s[1..], {sep});
      if s[0] != sep {
        var r := Split(s, {sep});
        assert r[1..] == rest[1..];
        if |rest| > 1 {
          assert Join(r, sep) == [s[0]] + rest[0] + [sep] + Join(rest[1..], sep);
        }
      } else {
        assert Split(s, {sep})[1..] == rest;
      }
    }
  }

  /** A string without separators is one piece. */
  lemma {:induction false} SplitNoSeparator(s: string, seps: set<char>)
    requires forall i :: 0 <= i < |s| ==> s[i] !in seps
    ensures Split(s, seps) == [s]
  {
    if s != [] {
      SplitNoSeparator(s[1..], seps);
      assert s[0] !in seps;
      assert [s[0]] + s[1..] == s;
    }
  }

  /** One character more in front of a string. */
  lemma SplitCons(x: char, t: string, seps: set<char>)
    ensures Split([x] + t, seps) == ConsPiece(x, Split(t, seps), seps)
  {
    assert ([x] + t)[0] == x && ([x] + t)[1..] == t;
  }

  /** What one more character in front does to the pieces. */
  function ConsPiece(x: char, a: seq<string>, seps: set<char>): seq<string>
    requires |a| >= 1
  {
    if x in seps then [""] + a else [[x] + a[0]] + a[1..]
  }

  lemma ConsPieceAppend(x: char, a: seq<string>, b: seq<string>, seps: set<char>)
    requires |a| >= 1
    ensures ConsPiece(x, a + b, seps) == ConsPiece(x, a, seps) + b
  {
    if x !in seps {
      assert (a + b)[0] == a[0] && (a + b)[1..] == a[1..] + b;
    }
  }

  /** A separator between two strings splits them apart. */
  lemma {:induction false} SplitAround(p: string, c: char, q: string, seps: set<char>)
    requires c in seps
    ensures Split(p + [c] + q, seps) == Split(p, seps) + Split(q, seps)
  {
    if p == [] {
      SplitCons(c, q, seps);
      assert p + [c] + q == [c] + q;
    } else {
      var t := p[1..] + [c] + q;
      SplitAround(p[1..], c, q, seps);
      SplitCons(p[0], t, seps);
      SplitCons(p[0], p[1..], seps);
      ConsPieceAppend(p[0], Split(p[1..], seps), Split(q, seps), seps);
      assert p + [c] + q == [p[0]] + t;
      assert p == [p[0]] + p[1..];
    }
  }

  /** `str.substring(start, end)`: both ends are clamped to the string and
      swapped when they are in the wrong order. */
  function Substring(str: string, start: int, end: int): (r: string)
    ensures |r| <= |str|
    ensures 0 <= start <= end <= |str| ==> r == str[start..end]
    ensures 0 <= end <= start <= |str| ==> r == str[end..start]
  {
    var a := if start < 0 then 0 else if start > |str| then |str| else start;
    var b := if end < 0 then 0 else if end > |str| then |str| else end;
    if a <= b then str[a..b] else str[b..a]
  }

  /** Ends outside the string are clamped to it, and the two ends may
      be given in either order. */
  lemma SubstringClamp(str: string, start: int, end: int)
    ensures start < 0 ==> Substring(str, start, end) == Substring(str, 0, end)
    ensures start > |str| ==> Substring(str, start, end) == Substring(str, |str|, end)
    ensures end < 0 ==> Substring(str, start, end) == Substring(str, start, 0)
    ensures end > |str| ==> Substring(str, start, end) == Substring(str, start, |str|)
    ensures Substring(str, start, end) == Substring(str, end, start)
  {
  }

  function UpperChar(c: char): char {
    if 'a' <= c <= 'z' then (c as int - 'a' as int + 'A' as int) as char else c
  }

  /** `s.toUpperCase()` on the ASCII letters. */
  function ToUpper(s: string): (r: string)
    ensures |r| == |s|
    ensures forall i :: 0 <= i < |s| ==> r[i] == UpperChar(s[i])
  {
    seq(|s|, i requires 0 <= i < |s| => UpperChar(s[i]))
  }

  /** The methods that upper-case to "GET" are exactly "get" in any of its
      eight letter cases. */
  lemma UpperIsGet(m: string)
    ensures ToUpper(m) == "GET" <==>
      |m| == 3 && m[0] in "gG" && m[1] in "eE" && m[2] in "tT"
  {
    if ToUpper(m) == "GET" {
      assert UpperChar(m[0]) == 'G' && UpperChar(m[1]) == 'E' && UpperChar(m[2]) == 'T';
    }
  }
}
