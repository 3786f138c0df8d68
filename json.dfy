/** The JSON-like values the toolkit works on, with the few JavaScript
    conversions the source relies on: truthiness, `String(v)`, property
    lookup and assignment on objects and arrays, and `delete`. */
module Json {
  import opened Strings

  datatype Option<+T> = None | Some(value: T)

  /** A JavaScript value as it appears in decoded bodies and templates.
      `Absent` is `undefined`; inside an `Arr` it also stands for a hole.
      An object is its own properties in iteration order. */
  datatype Json =
    | Absent
    | Null
    | Bool(b: bool)
    | Num(n: int)
    | Str(s: string)
    | Arr(elems: seq<Json>)
    | Obj(members: seq<Member>)

  datatype Member = Member(key: string, value: Json)

  /** JavaScript truthiness (`if (v)`, `v || w`). */
  predicate Truthy(v: Json) {
    match v
    case Absent => false
    case Null => false
    case Bool(b) => b
    case Num(n) => n != 0
    case Str(s) => s != ""
    case Arr(_) => true
    case Obj(_) => true
  }

  /** The falsy values are exactly `undefined`, `null`, `false`, `0` and
      `""`; every array and every object, empty or not, is truthy. */
  lemma FalsyValues(v: Json)
    ensures !Truthy(v) <==> v == Absent || v == Null || v == Bool(false) || v == Num(0) || v == Str("")
  {
  }

  /** `a || b`: the left operand when it is truthy, else the right one. */
  function Or(a: Json, b: Json): (r: Json)
    ensures r == a || r == b
    ensures Truthy(r) <==> Truthy(a) || Truthy(b)
    ensures Truthy(a) ==> r == a
  {
    if Truthy(a) then a else b
  }

  /** A measure on values, used to show that every recursive walk ends. */
  function Size(v: Json): (r: nat)
    ensures r >= 1
  {
    match v
    case Arr(es) => 1 + SizeElems(es)
    case Obj(ms) => 1 + SizeMembers(ms)
    case _ => 1
  }

  function SizeElems(es: seq<Json>): nat {
    if es == [] then 0 else Size(es[0]) + SizeElems(es[1..])
  }

  function SizeMembers(ms: seq<Member>): nat {
    if ms == [] then 0 else Size(ms[0].value) + SizeMembers(ms[1..])
  }

  /** An element of an array is smaller than the array. */
  lemma {:induction false} ElemSmaller(es: seq<Json>, i: nat)
    requires i < |es|
    ensures Size(es[i]) < Size(Arr(es))
  {
    if i > 0 {
      ElemSmaller(es[1..], i - 1);
    }
  }

  /** A property value of an object is smaller than the object. */
  lemma {:induction false} MemberSmaller(ms: seq<Member>, i: nat)
    requires i < |ms|
    ensures Size(ms[i].value) < Size(Obj(ms))
  {
    if i > 0 {
      MemberSmaller(ms[1..], i - 1);
    }
  }

  // ---------------------------------------------------------------------
  // Numbers and strings

  predicate IsDigit(c: char) {
    '0' <= c <= '9'
  }

  function DigitChar(d: nat): (c: char)
    requires d < 10
    ensures IsDigit(c)
  {
    ('0' as int + d) as char
  }

  /** Decimal notation of a natural number, as `String(n)` writes it. */
  function NatToString(n: nat): (s: string)
    decreases n
  {
    if n < 10 then [DigitChar(n)] else NatToString(n / 10) + [DigitChar(n % 10)]
  }

  /** `String(n)` for an integer number. */
  function IntToString(n: int): string {
    if n < 0 then "-" + NatToString(-n) else NatToString(n)
  }

  function DigitsValue(s: string): nat
    requires forall i :: 0 <= i < |s| ==> IsDigit(s[i])
  {
    if s == [] then 0
    else
      assert IsDigit(s[|s| - 1]);
      DigitsValue(s[..|s| - 1]) * 10 + (s[|s| - 1] as int - '0' as int)
  }

  /** The array index a property key denotes: a canonical decimal numeral
      ("0", "17", not "017" or "" or "1a"). */
  function ArrayIndex(k: string): Option<nat> {
    if k != [] && (forall i :: 0 <= i < |k| ==> IsDigit(k[i])) && (k[0] != '0' || k == "0")
    then Some(DigitsValue(k))
    else None
  }

  lemma {:induction false} NatToStringShape(n: nat)
    ensures NatToString(n) != []
    ensures forall i :: 0 <= i < |NatToString(n)| ==> IsDigit(NatToString(n)[i])
    ensures NatToString(n)[0] == '0' ==> n == 0 && NatToString(n) == "0"
    ensures DigitsValue(NatToString(n)) == n
    decreases n
  {
    if n >= 10 {
      NatToStringShape(n / 10);
      var s := NatToString(n);
      assert s[..|s| - 1] == NatToString(n / 10);
    }
  }

  /** The keys `for…in` produces for an array lead back to the same
      elements: `ArrayIndex` inverts `NatToString`. */
  lemma ArrayIndexRoundTrip(n: nat)
    ensures ArrayIndex(NatToString(n)) == Some(n)
  {
    NatToStringShape(n);
  }

  /** `String(v)`, also what a template literal, `+=` on a string and a
      computed property key produce. An array is joined with "," where
      `null` and `undefined` elements become empty. */
  function ToJsString(v: Json): string {
    match v
    case Absent => "undefined"
    case Null => "null"
    case Bool(b) => if b then "true" else "false"
    case Num(n) => IntToString(n)
    case Str(s) => s
    case Arr(es) => JoinElems(es)
    case Obj(_) => "[object Object]"
  }

  function JoinElems(es: seq<Json>): string {
    if es == [] then ""
    else
      var head := if es[0] == Null || es[0] == Absent then "" else ToJsString(es[0]);
      if |es| == 1 then head else head + "," + JoinElems(es[1..])
  }

  /** A non-negative number used as a property key names the array
      position it denotes; a string is its own text. */
  lemma NumberKey(v: Json)
    ensures v.Num? && v.n >= 0 ==> ArrayIndex(ToJsString(v)) == Some(v.n)
    ensures v.Str? ==> ToJsString(v) == v.s
  {
    if v.Num? && v.n >= 0 {
      ArrayIndexRoundTrip(v.n);
    }
  }

  /** An array of strings without commas reads back from its `String(v)`:
      splitting on "," gives the strings, in order. */
  lemma {:induction false} JoinElemsSplit(es: seq<Json>)
    requires es != [] && forall j :: 0 <= j < |es| ==> es[j].Str? && ',' !in es[j].s
    ensures Split(ToJsString(Arr(es)), {','}) == seq(|es|, j requires 0 <= j < |es| => es[j].s)
  {
    var h := es[0].s;
    var want := seq(|es|, j requires 0 <= j < |es| => es[j].s);
    assert forall i :: 0 <= i < |h| ==> h[i] !in {','};
    SplitNoSeparator(h, {','});
    assert es[0].Str? && ToJsString(es[0]) == h;
    if |es| == 1 {
      assert ToJsString(Arr(es)) == h;
      assert want == [h];
    } else {
      JoinElemsSplit(es[1..]);
      var t := JoinElems(es[1..]);
      assert ToJsString(Arr(es)) == h + [','] + t;
      SplitAround(h, ',', t, {','});
      var rest := seq(|es| - 1, j requires 0 <= j < |es| - 1 => es[1..][j].s);
      assert Split(t, {','}) == rest;
      assert want == [h] + rest;
    }
  }

  // ---------------------------------------------------------------------
  // Objects as ordered property lists

  /** `obj[k]` on an object: the value of the property, `undefined` when it
      is missing. */
  function Lookup(ms: seq<Member>, k: string): Json {
    if ms == [] then Absent
    else if ms[0].key == k then ms[0].value
    else Lookup(ms[1..], k)
  }

  function KeySet(ms: seq<Member>): set<string> {
    set i | 0 <= i < |ms| :: ms[i].key
  }

  /** Property names are unique, as in every JavaScript object. */
  predicate UniqueKeys(ms: seq<Member>) {
    forall i, j :: 0 <= i < j < |ms| ==> ms[i].key != ms[j].key
  }

  lemma {:induction false} LookupMissing(ms: seq<Member>, k: string)
    requires k !in KeySet(ms)
    ensures Lookup(ms, k) == Absent
  {
    if ms != [] {
      assert ms[0].key in KeySet(ms);
      assert KeySet(ms[1..]) <= KeySet(ms) by {
        forall x | x in KeySet(ms[1..]) ensures x in KeySet(ms) {
          var i :| 0 <= i < |ms[1..]| && ms[1..][i].key == x;
          assert ms[i + 1].key == x;
        }
      }
      LookupMissing(ms[1..], k);
    }
  }

  lemma {:induction false} LookupAt(ms: seq<Member>, i: nat)
    requires UniqueKeys(ms) && i < |ms|
    ensures Lookup(ms, ms[i].key) == ms[i].value
  {
    if i > 0 {
      LookupAt(ms[1..], i - 1);
    }
  }

  lemma LookupCons(m: Member, rest: seq<Member>, k: string)
    ensures Lookup([m] + rest, k) == if m.key == k then m.value else Lookup(rest, k)
  {
    assert ([m] + rest)[0] == m && ([m] + rest)[1..] == rest;
  }

  lemma KeySetConsKeys(m: Member, rest: seq<Member>)
    ensures KeySet([m] + rest) == {m.key} + KeySet(rest)
  {
    var ms := [m] + rest;
    forall x | x in KeySet(ms) ensures x in {m.key} + KeySet(rest) {
      var i :| 0 <= i < |ms| && ms[i].key == x;
      if i > 0 {
        assert rest[i - 1].key == x;
      }
    }
    forall x | x in KeySet(rest) ensures x in KeySet(ms) {
      var i :| 0 <= i < |rest| && rest[i].key == x;
      assert ms[i + 1].key == x;
    }
    assert ms[0].key == m.key;
  }

  lemma KeySetCons(m: Member, rest: seq<Member>)
    ensures KeySet([m] + rest) == {m.key} + KeySet(rest)
    ensures UniqueKeys([m] + rest) <==> UniqueKeys(rest) && m.key !in KeySet(rest)
  {
    var ms := [m] + rest;
    KeySetConsKeys(m, rest);
    if UniqueKeys(ms) {
      forall i, j | 0 <= i < j < |rest| ensures rest[i].key != rest[j].key {
        assert ms[i + 1].key != ms[j + 1].key;
      }
      forall x | x in KeySet(rest) ensures x != m.key {
        var i :| 0 <= i < |rest| && rest[i].key == x;
        assert ms[0].key != ms[i + 1].key;
      }
    }
    if UniqueKeys(rest) && m.key !in KeySet(rest) {
      forall i, j | 0 <= i < j < |ms| ensures ms[i].key != ms[j].key {
        assert ms[j].key == rest[j - 1].key;
        if i > 0 {
          assert ms[i].key == rest[i - 1].key;
        }
      }
    }
  }

  lemma KeySetSplit(ms: seq<Member>)
    requires ms != []
    ensures KeySet(ms) == {ms[0].key} + KeySet(ms[1..])
    ensures UniqueKeys(ms) <==> UniqueKeys(ms[1..]) && ms[0].key !in KeySet(ms[1..])
  {
    assert ms == [ms[0]] + ms[1..];
    KeySetCons(ms[0], ms[1..]);
  }

  /** What `obj[k] = v` promises: `r` is `ms` with `k` holding `v`. */
  ghost predicate AssignedFrom(r: seq<Member>, ms: seq<Member>, k: string, v: Json) {
    && Lookup(r, k) == v
    && (forall k' :: k' != k ==> Lookup(r, k') == Lookup(ms, k'))
    && KeySet(r) == KeySet(ms) + {k}
    && (UniqueKeys(ms) ==> UniqueKeys(r))
    && (k !in KeySet(ms) ==> r == ms + [Member(k, v)])
  }

  lemma AssignHere(ms: seq<Member>, k: string, v: Json)
    requires ms != [] && ms[0].key == k
    ensures AssignedFrom([Member(k, v)] + ms[1..], ms, k, v)
  {
    KeySetSplit(ms);
    KeySetCons(Member(k, v), ms[1..]);
    LookupCons(Member(k, v), ms[1..], k);
    forall k' | k' != k
      ensures Lookup([Member(k, v)] + ms[1..], k') == Lookup(ms, k')
    {
      LookupCons(Member(k, v), ms[1..], k');
    }
  }

  lemma AssignLater(ms: seq<Member>, k: string, v: Json, rest: seq<Member>)
    requires ms != [] && ms[0].key != k
    requires AssignedFrom(rest, ms[1..], k, v)
    ensures AssignedFrom([ms[0]] + rest, ms, k, v)
  {
    KeySetSplit(ms);
    KeySetCons(ms[0], rest);
    LookupCons(ms[0], rest, k);
    forall k' | k' != k
      ensures Lookup([ms[0]] + rest, k') == Lookup(ms, k')
    {
      LookupCons(ms[0], rest, k');
    }
    if k !in KeySet(ms) {
      assert [ms[0]] + (ms[1..] + [Member(k, v)]) == ms + [Member(k, v)];
    }
  }

  /** `obj[k] = v`: an existing property keeps its place and takes the new
      value; a new one goes last. */
  function Assign(ms: seq<Member>, k: string, v: Json): (r: seq<Member>)
    ensures Lookup(r, k) == v
    ensures forall k' :: k' != k ==> Lookup(r, k') == Lookup(ms, k')
    ensures KeySet(r) == KeySet(ms) + {k}
    ensures UniqueKeys(ms) ==> UniqueKeys(r)
    ensures k !in KeySet(ms) ==> r == ms + [Member(k, v)]
  {
    if ms == [] then
      KeySetCons(Member(k, v), []);
      [Member(k, v)]
    else if ms[0].key == k then
      AssignHere(ms, k, v);
      [Member(k, v)] + ms[1..]
    else
      var rest := Assign(ms[1..], k, v);
      AssignLater(ms, k, v, rest);
      [ms[0]] + rest
  }

  /** Assigning the same property twice leaves only the second value, in
      the place the first assignment gave it. */
  lemma {:induction false} AssignTwice(ms: seq<Member>, k: string, v: Json, w: Json)
    ensures Assign(Assign(ms, k, v), k, w) == Assign(ms, k, w)
  {
    if ms != [] && ms[0].key != k {
      AssignTwice(ms[1..], k, v, w);
      assert ([ms[0]] + Assign(ms[1..], k, v))[1..] == Assign(ms[1..], k, v);
    }
  }

  /** A loop that runs `obj[k] = v` on a fresh object for some of its
      items, in order: `None` is an item it skips. */
  function AssignSome(cs: seq<Option<Member>>): seq<Member> {
    if cs == [] then []
    else
      var pre := AssignSome(cs[..|cs| - 1]);
      match cs[|cs| - 1]
      case None => pre
      case Some(m) => Assign(pre, m.key, m.value)
  }

  /** One more item, on a fold already known. */
  lemma AssignSomeStep(cs: seq<Option<Member>>, pre: seq<Option<Member>>, c: Option<Member>)
    requires cs == pre + [c]
    ensures AssignSome(cs) == if c.Some? then Assign(AssignSome(pre), c.value.key, c.value.value) else AssignSome(pre)
  {
    assert cs[..|cs| - 1] == pre;
  }

  /** The same step, for a sequence that agrees with `pre` and has `c` after it. */
  lemma AssignSomeExtend(cs: seq<Option<Member>>, pre: seq<Option<Member>>, c: Option<Member>)
    requires |cs| == |pre| + 1 && cs[|pre|] == c
    requires forall j :: 0 <= j < |pre| ==> cs[j] == pre[j]
    ensures AssignSome(cs) == if c.Some? then Assign(AssignSome(pre), c.value.key, c.value.value) else AssignSome(pre)
  {
    assert cs == pre + [c];
    AssignSomeStep(cs, pre, c);
  }

  /** Some item that is not skipped has key `k`. */
  predicate SomeKey(cs: seq<Option<Member>>, k: string) {
    exists j :: 0 <= j < |cs| && cs[j].Some? && cs[j].value.key == k
  }

  lemma SomeKeySnoc(cs: seq<Option<Member>>, pre: seq<Option<Member>>, k: string)
    requires cs != [] && pre == cs[..|cs| - 1]
    ensures SomeKey(cs, k) <==> SomeKey(pre, k) || (cs[|cs| - 1].Some? && cs[|cs| - 1].value.key == k)
  {
    if SomeKey(cs, k) {
      var j :| 0 <= j < |cs| && cs[j].Some? && cs[j].value.key == k;
      if j < |pre| {
        assert pre[j] == cs[j];
      }
    }
    if SomeKey(pre, k) {
      var j :| 0 <= j < |pre| && pre[j].Some? && pre[j].value.key == k;
      assert cs[j] == pre[j];
    }
  }

  /** The keys after the loop are those of the items it did not skip, each
      once. */
  lemma AssignSomeKeys(cs: seq<Option<Member>>, k: string)
    ensures UniqueKeys(AssignSome(cs))
    ensures k in KeySet(AssignSome(cs)) <==> exists j :: 0 <= j < |cs| && cs[j].Some? && cs[j].value.key == k
  {
    AssignSomeUnique(cs);
    AssignSomeKeySet(cs, k);
  }

  lemma {:induction false} AssignSomeKeySet(cs: seq<Option<Member>>, k: string)
    ensures k in KeySet(AssignSome(cs)) <==> SomeKey(cs, k)
  {
    if cs != [] {
      var pre := cs[..|cs| - 1];
      var c := cs[|cs| - 1];
      AssignSomeKeySet(pre, k);
      SomeKeySnoc(cs, pre, k);
      var a := AssignSome(pre);
      match c
      case None =>
        assert AssignSome(cs) == a;
      case Some(m) =>
        assert AssignSome(cs) == Assign(a, m.key, m.value);
        assert KeySet(AssignSome(cs)) == KeySet(a) + {m.key};
    }
  }

  lemma {:induction false} AssignSomeUnique(cs: seq<Option<Member>>)
    ensures UniqueKeys(AssignSome(cs))
  {
    if cs != [] {
      var pre := cs[..|cs| - 1];
      AssignSomeUnique(pre);
      AssignSomeStep(cs, pre, cs[|cs| - 1]);
    }
  }

  /** The value under a key is that of the last item with that key. */
  lemma {:induction false} AssignSomeLast(cs: seq<Option<Member>>, j: nat)
    requires j < |cs| && cs[j].Some?
    requires forall l :: j < l < |cs| && cs[l].Some? ==> cs[l].value.key != cs[j].value.key
    ensures Lookup(AssignSome(cs), cs[j].value.key) == cs[j].value.value
  {
    var pre := cs[..|cs| - 1];
    var c := cs[|cs| - 1];
    AssignSomeStep(cs, pre, c);
    if j < |pre| {
      assert pre[j] == cs[j];
      forall l | j < l < |pre| && pre[l].Some?
        ensures pre[l].value.key != pre[j].value.key
      {
        assert pre[l] == cs[l];
      }
      AssignSomeLast(pre, j);
    }
  }

  /** `delete obj[k]`: the property is gone and nothing else changes. */
  function Remove(ms: seq<Member>, k: string): (r: seq<Member>)
    ensures Lookup(r, k) == Absent
    ensures forall k' :: k' != k ==> Lookup(r, k') == Lookup(ms, k')
    ensures UniqueKeys(ms) ==> UniqueKeys(r)
    ensures KeySet(r) == KeySet(ms) - {k}
  {
    if ms == [] then []
    else
      KeySetSplit(ms);
      var rest := Remove(ms[1..], k);
      if ms[0].key == k then rest
      else
        KeySetCons(ms[0], rest);
        [ms[0]] + rest
  }

  /** What `merge(dst, src)` promises: `r` has the keys of both, the
      values of `src` where it has the key, those of `dst` elsewhere. */
  ghost predicate MergedFrom(r: seq<Member>, dst: seq<Member>, src: seq<Member>) {
    && (UniqueKeys(src) ==> forall k :: k in KeySet(src) ==> Lookup(r, k) == Lookup(src, k))
    && (forall k :: k !in KeySet(src) ==> Lookup(r, k) == Lookup(dst, k))
    && KeySet(r) == KeySet(dst) + KeySet(src)
    && (UniqueKeys(dst) ==> UniqueKeys(r))
  }

  lemma MergeFirst(dst: seq<Member>, src: seq<Member>, r: seq<Member>)
    requires src != []
    requires MergedFrom(r, Assign(dst, src[0].key, src[0].value), src[1..])
    ensures MergedFrom(r, dst, src)
  {
    KeySetSplit(src);
    LookupCons(src[0], src[1..], src[0].key);
    assert [src[0]] + src[1..] == src;
    forall k | k in KeySet(src) && k != src[0].key
      ensures Lookup(src, k) == Lookup(src[1..], k)
    {
      LookupCons(src[0], src[1..], k);
    }
  }

  /** lodash `merge(dst, src)` restricted to the top level: every property
      of `src`, in order, overrides or extends `dst`. */
  function Merge(dst: seq<Member>, src: seq<Member>): (r: seq<Member>)
    ensures UniqueKeys(src) ==> forall k :: k in KeySet(src) ==> Lookup(r, k) == Lookup(src, k)
    ensures forall k :: k !in KeySet(src) ==> Lookup(r, k) == Lookup(dst, k)
    ensures KeySet(r) == KeySet(dst) + KeySet(src)
    ensures UniqueKeys(dst) ==> UniqueKeys(r)
    decreases |src|
  {
    if src == [] then dst
    else
      var r := Merge(Assign(dst, src[0].key, src[0].value), src[1..]);
      MergeFirst(dst, src, r);
      r
  }

  // ---------------------------------------------------------------------
  // Property access on any value

  /** `v[k]` for a value that is an object or an array; every other value
      (including `null` and `undefined`, where JavaScript throws) yields
      `undefined`. */
  function Get(v: Json, k: string): (r: Json)
    ensures v.Obj? ==> r == Lookup(v.members, k)
    ensures v.Arr? ==> r == (if ArrayIndex(k).Some? && ArrayIndex(k).value < |v.elems|
                             then v.elems[ArrayIndex(k).value] else Absent)
    ensures !v.Obj? && !v.Arr? ==> r == Absent
    ensures r != Absent ==> Size(r) < Size(v)
  {
    if v.Obj? then
      LookupSmaller(v.members, k);
      Lookup(v.members, k)
    else if v.Arr? && ArrayIndex(k).Some? && ArrayIndex(k).value < |v.elems| then
      ElemSmaller(v.elems, ArrayIndex(k).value);
      v.elems[ArrayIndex(k).value]
    else Absent
  }

  lemma {:induction false} LookupSmaller(ms: seq<Member>, k: string)
    ensures Lookup(ms, k) != Absent ==> Size(Lookup(ms, k)) < Size(Obj(ms))
  {
    if ms != [] && ms[0].key != k {
      LookupSmaller(ms[1..], k);
    }
  }

  // ---------------------------------------------------------------------
  // A JavaScript object that the source changes in place

  class JsObject {
    var members: seq<Member>

    ghost predicate Valid()
      reads this
    {
      UniqueKeys(members)
    }

    constructor ()
      ensures Valid() && members == []
    {
      members := [];
    }

    /** `obj[k]` */
    function Prop(k: string): (r: Json)
      reads this
      ensures r == Lookup(members, k)
    {
      Lookup(members, k)
    }

    /** `delete obj[k]` */
    method Delete(k: string)
      requires Valid()
      modifies this
      ensures Valid()
      ensures members == Remove(old(members), k)
    {
      members := Remove(members, k);
    }

    /** `obj[k] = v` */
    method Put(k: string, v: Json)
      requires Valid()
      modifies this
      ensures Valid()
      ensures members == Assign(old(members), k, v)
    {
      members := Assign(members, k, v);
    }
  }
}
