/** `parseValue(schema, input, flowData)`: fills a template against a flat
    input object. A string that contains `{{name}}` becomes the input value
    itself; otherwise every `{name}` in it is replaced by the input value
    (or by nothing). Arrays and objects keep only the members whose result
    is truthy. Every name substituted with a truthy value is deleted from
    `flowData` when `flowData` holds a truthy value under it. */
module Templates {
  import opened Json
  import opened Strings

  // ---------------------------------------------------------------------
  // The two regular expressions, `/\{\{\w+?\}\}/` and `/\{\w+?\}/g`

  predicate IsWordChar(c: char) {
    ('a' <= c <= 'z') || ('A' <= c <= 'Z') || ('0' <= c <= '9') || c == '_'
  }

  predicate IsWord(w: string) {
    w != [] && forall i :: 0 <= i < |w| ==> IsWordChar(w[i])
  }

  /** The end of the run of word characters that starts at `i`. */
  function WordEnd(s: string, i: nat): (e: nat)
    requires i <= |s|
    ensures i <= e <= |s|
    ensures forall j :: i <= j < e ==> IsWordChar(s[j])
    ensures e < |s| ==> !IsWordChar(s[e])
    decreases |s| - i
  {
    if i < |s| && IsWordChar(s[i]) then WordEnd(s, i + 1) else i
  }

  datatype Span = Span(start: nat, end: nat)

  /** Where a match of `\{\{\w+?\}\}` that starts at `i` ends. A lazy run of
      word characters can only stop at the first non-word character, so the
      run is the longest one. */
  function StrictAt(s: string, i: nat): (r: Option<nat>)
    requires i <= |s|
    ensures r.Some? ==> i + 5 <= r.value <= |s|
  {
    if i + 1 < |s| && s[i] == '{' && s[i + 1] == '{' then
      var e := WordEnd(s, i + 2);
      if e > i + 2 && e + 1 < |s| && s[e] == '}' && s[e + 1] == '}' then Some(e + 2) else None
    else None
  }

  /** `schema.match(/\{\{\w+?\}\}/)`: the leftmost match at or after `i`. */
  function FindStrict(s: string, i: nat): (m: Option<Span>)
    requires i <= |s|
    ensures m.Some? ==> i <= m.value.start <= |s| && StrictAt(s, m.value.start) == Some(m.value.end)
    ensures m.Some? ==> forall j :: i <= j < m.value.start ==> StrictAt(s, j).None?
    ensures m.None? ==> forall j :: i <= j <= |s| ==> StrictAt(s, j).None?
    decreases |s| - i
  {
    if i == |s| then None
    else
      match StrictAt(s, i)
      case Some(e) => Some(Span(i, e))
      case None => FindStrict(s, i + 1)
  }

  /** `match[0].substring(2, schema.length - 2)`: the end index is taken
      from the whole string, not from the match. */
  function StrictName(s: string, m: Span): string
    requires m.start <= m.end <= |s|
  {
    Substring(s[m.start..m.end], 2, |s| - 2)
  }

  /** Where a match of `\{\w+?\}` that starts at `i` ends. */
  function PlaceholderAt(s: string, i: nat): (r: Option<nat>)
    requires i <= |s|
    ensures r.Some? ==> i + 3 <= r.value <= |s|
  {
    if i < |s| && s[i] == '{' then
      var e := WordEnd(s, i + 1);
      if e > i + 1 && e < |s| && s[e] == '}' then Some(e + 1) else None
    else None
  }

  /** What the `replace` callback turns `{prop}` into: the input value as a
      string when it is truthy, else nothing. */
  function Replacement(prop: string, input: seq<Member>): string {
    var v := Lookup(input, prop);
    if Truthy(v) then ToJsString(v) else ""
  }

  /** `s.replace(/\{\w+?\}/g, …)`, scanning from position `i`. */
  function InterpolateFrom(s: string, i: nat, input: seq<Member>): string
    requires i <= |s|
    decreases |s| - i
  {
    if i == |s| then ""
    else
      match PlaceholderAt(s, i)
      case Some(e) => Replacement(s[i + 1..e - 1], input) + InterpolateFrom(s, e, input)
      case None => [s[i]] + InterpolateFrom(s, i + 1, input)
  }

  /** The names of the `{prop}` placeholders that scan meets, in order. */
  function PlaceholdersFrom(s: string, i: nat): seq<string>
    requires i <= |s|
    decreases |s| - i
  {
    if i == |s| then []
    else
      match PlaceholderAt(s, i)
      case Some(e) => [s[i + 1..e - 1]] + PlaceholdersFrom(s, e)
      case None => PlaceholdersFrom(s, i + 1)
  }

  /** The names among `names` whose input value is truthy. */
  function TruthyNames(names: seq<string>, input: seq<Member>): set<string> {
    set k | k in names && Truthy(Lookup(input, k))
  }

  // ---------------------------------------------------------------------
  // What parseValue computes

  /** The output of one call, and the names it consumed: those that
      `flowData` loses when it holds a truthy value under them. */
  datatype Substitution = Substitution(value: Json, consumed: set<string>)

  function Substitute(schema: Json, input: seq<Member>): Substitution
    decreases Size(schema), 1, 0
  {
    match schema
    case Str(s) =>
      (match FindStrict(s, 0)
       case Some(m) =>
         var name := StrictName(s, m);
         var v := Lookup(input, name);
         Substitution(Or(v, Null), if Truthy(v) then {name} else {})
       case None =>
         var text := InterpolateFrom(s, 0, input);
         Substitution(if text == "" then Null else Str(text), TruthyNames(PlaceholdersFrom(s, 0), input)))
    case Arr(es) =>
      var r := SubstElems(schema, input, |es|);
      Substitution(if r.0 == [] then Null else Arr(r.0), r.1)
    case Obj(ms) =>
      var r := SubstMembers(schema, input, |ms|);
      Substitution(if r.0 == [] then Null else Obj(r.0), r.1)
    case _ =>
      // a number, a boolean, `null` and `undefined` all leave `output` null
      Substitution(Null, {})
  }

  /** `output[i] = value` on an array of length at most `i`: the positions
      in between become holes. */
  function SetAt(a: seq<Json>, i: nat, v: Json): (r: seq<Json>)
    requires |a| <= i
    ensures |r| == i + 1 && r[..|a|] == a && r[i] == v
    ensures forall j :: |a| <= j < i ==> r[j] == Absent
  {
    a + seq(i - |a|, _ => Absent) + [v]
  }

  /** The array output after the first `n` elements, and the names used. */
  function SubstElems(schema: Json, input: seq<Member>, n: nat): (r: (seq<Json>, set<string>))
    requires schema.Arr? && n <= |schema.elems|
    ensures |r.0| <= n
    decreases Size(schema), 0, n
  {
    if n == 0 then ([], {})
    else
      var pre := SubstElems(schema, input, n - 1);
      ElemSmaller(schema.elems, n - 1);
      var sub := Substitute(schema.elems[n - 1], input);
      (if Truthy(sub.value) then SetAt(pre.0, n - 1, sub.value) else pre.0, pre.1 + sub.consumed)
  }

  /** The object output after the first `n` properties, and the names used. */
  function SubstMembers(schema: Json, input: seq<Member>, n: nat): (seq<Member>, set<string>)
    requires schema.Obj? && n <= |schema.members|
    decreases Size(schema), 0, n
  {
    if n == 0 then ([], {})
    else
      var pre := SubstMembers(schema, input, n - 1);
      var m := schema.members[n - 1];
      MemberSmaller(schema.members, n - 1);
      var sub := Substitute(m.value, input);
      (if Truthy(sub.value) then Assign(pre.0, m.key, sub.value) else pre.0, pre.1 + sub.consumed)
  }

  // ---------------------------------------------------------------------
  // flowData after the call

  /** `flowData` with every property removed whose name is in `names` and
      whose value is truthy. */
  function Consume(ms: seq<Member>, names: set<string>): seq<Member> {
    if ms == [] then []
    else (if ms[0].key in names && Truthy(ms[0].value) then [] else [ms[0]]) + Consume(ms[1..], names)
  }

  lemma {:induction false} ConsumeNothing(ms: seq<Member>)
    ensures Consume(ms, {}) == ms
  {
    if ms != [] {
      ConsumeNothing(ms[1..]);
      assert [ms[0]] + ms[1..] == ms;
    }
  }

  /** Consuming in two rounds is consuming the union at once. */
  lemma {:induction false} ConsumeTwice(ms: seq<Member>, a: set<string>, b: set<string>)
    ensures Consume(Consume(ms, a), b) == Consume(ms, a + b)
  {
    if ms != [] {
      ConsumeTwice(ms[1..], a, b);
      var head := if ms[0].key in a && Truthy(ms[0].value) then [] else [ms[0]];
      ConsumeConcat(head, Consume(ms[1..], a), b);
    }
  }

  lemma {:induction false} ConsumeConcat(x: seq<Member>, y: seq<Member>, names: set<string>)
    ensures Consume(x + y, names) == Consume(x, names) + Consume(y, names)
  {
    if x != [] {
      assert (x + y)[0] == x[0] && (x + y)[1..] == x[1..] + y;
      ConsumeConcat(x[1..], y, names);
    } else {
      assert x + y == y;
    }
  }

  lemma {:induction false} ConsumeKeys(ms: seq<Member>, names: set<string>)
    ensures KeySet(Consume(ms, names)) <= KeySet(ms)
    ensures UniqueKeys(ms) ==> UniqueKeys(Consume(ms, names))
  {
    if ms != [] {
      ConsumeKeys(ms[1..], names);
      KeySetSplit(ms);
      var rest := Consume(ms[1..], names);
      if !(ms[0].key in names && Truthy(ms[0].value)) {
        KeySetCons(ms[0], rest);
      } else {
        assert Consume(ms, names) == rest;
      }
    }
  }

  /** The property lookups on `flowData` after consuming: a consumed name
      with a truthy value is gone, every other property is as it was. */
  lemma {:induction false} ConsumeLookup(ms: seq<Member>, names: set<string>, k: string)
    requires UniqueKeys(ms)
    ensures Lookup(Consume(ms, names), k) ==
      if k in names && Truthy(Lookup(ms, k)) then Absent else Lookup(ms, k)
  {
    if ms != [] {
      KeySetSplit(ms);
      var rest := Consume(ms[1..], names);
      ConsumeLookup(ms[1..], names, k);
      LookupCons(ms[0], ms[1..], k);
      LookupCons(ms[0], rest, k);
      assert ms == [ms[0]] + ms[1..];
      if ms[0].key in names && Truthy(ms[0].value) {
        assert Consume(ms, names) == rest;
        if ms[0].key == k {
          ConsumeKeys(ms[1..], names);
          LookupMissing(rest, k);
        }
      } else {
        assert Consume(ms, names) == [ms[0]] + rest;
        if ms[0].key == k {
          LookupMissing(ms[1..], k);
        }
      }
    }
  }

  /** `if (flowData[k]) delete flowData[k]` consumes `k`. */
  lemma {:induction false} DeleteIfTruthy(ms: seq<Member>, k: string)
    requires UniqueKeys(ms)
    ensures (if Truthy(Lookup(ms, k)) then Remove(ms, k) else ms) == Consume(ms, {k})
  {
    if ms == [] {
    } else {
      KeySetSplit(ms);
      DeleteIfTruthy(ms[1..], k);
      if ms[0].key == k {
        LookupMissing(ms[1..], k);
        ConsumeNothing(ms[1..]);
        RemoveMissing(ms[1..], k);
        assert Consume(ms[1..], {k}) == ms[1..] by {
          ConsumeMissing(ms[1..], {k});
        }
      }
    }
  }

  lemma {:induction false} RemoveMissing(ms: seq<Member>, k: string)
    requires k !in KeySet(ms)
    ensures Remove(ms, k) == ms
  {
    if ms != [] {
      KeySetSplit(ms);
      assert ms[0].key != k;
      RemoveMissing(ms[1..], k);
      assert Remove(ms, k) == [ms[0]] + Remove(ms[1..], k);
      assert [ms[0]] + ms[1..] == ms;
    }
  }

  lemma {:induction false} ConsumeMissing(ms: seq<Member>, names: set<string>)
    requires KeySet(ms) !! names
    ensures Consume(ms, names) == ms
  {
    if ms != [] {
      KeySetSplit(ms);
      ConsumeMissing(ms[1..], names);
      assert [ms[0]] + ms[1..] == ms;
    }
  }

  lemma TruthyNamesSnoc(seen: seq<string>, p: string, input: seq<Member>)
    ensures TruthyNames(seen + [p], input) ==
      TruthyNames(seen, input) + (if Truthy(Lookup(input, p)) then {p} else {})
  {
  }

  /** Consuming one more scanned name. */
  lemma ConsumeSeenStep(m0: seq<Member>, seen: seq<string>, prop: string, input: seq<Member>,
                        before: seq<Member>, after: seq<Member>)
    requires before == Consume(m0, TruthyNames(seen, input))
    requires after == Consume(before, if Truthy(Lookup(input, prop)) then {prop} else {})
    ensures after == Consume(m0, TruthyNames(seen + [prop], input))
  {
    ConsumeTwice(m0, TruthyNames(seen, input), if Truthy(Lookup(input, prop)) then {prop} else {});
    TruthyNamesSnoc(seen, prop, input);
  }

  /** The scan over a placeholder naming `n` at `i`. */
  lemma HoleStep(s: string, i: nat, e: nat, n: string, input: seq<Member>)
    requires i < |s| && PlaceholderAt(s, i) == Some(e) && s[i + 1..e - 1] == n
    ensures InterpolateFrom(s, i, input) == Replacement(n, input) + InterpolateFrom(s, e, input)
    ensures PlaceholdersFrom(s, i) == [n] + PlaceholdersFrom(s, e)
  {
  }

  /** One step of the scan over a placeholder. */
  lemma ScanPlaceholder(s: string, i: nat, e: nat, prop: string, input: seq<Member>, out: string, seen: seq<string>)
    requires i < |s| && PlaceholderAt(s, i) == Some(e) && prop == s[i + 1..e - 1]
    ensures out + InterpolateFrom(s, i, input) == (out + Replacement(prop, input)) + InterpolateFrom(s, e, input)
    ensures seen + PlaceholdersFrom(s, i) == (seen + [prop]) + PlaceholdersFrom(s, e)
  {
    HoleStep(s, i, e, prop, input);
    var r := Replacement(prop, input);
    var rest := InterpolateFrom(s, e, input);
    assert out + (r + rest) == (out + r) + rest;
    var names := PlaceholdersFrom(s, e);
    assert seen + ([prop] + names) == (seen + [prop]) + names;
  }

  /** One step of the scan over a plain character. */
  lemma ScanText(s: string, i: nat, input: seq<Member>, out: string)
    requires i < |s| && PlaceholderAt(s, i).None?
    ensures out + InterpolateFrom(s, i, input) == (out + [s[i]]) + InterpolateFrom(s, i + 1, input)
    ensures PlaceholdersFrom(s, i) == PlaceholdersFrom(s, i + 1)
  {
  }

  /** One more property of an object template: what the loop body does to
      `output` and to the consumed names. */
  lemma ObjectStep(schema: Json, input: seq<Member>, i: nat, output: Json, value: Json)
    requires schema.Obj? && i < |schema.members|
    requires output == (if SubstMembers(schema, input, i).0 == [] then Null else Obj(SubstMembers(schema, input, i).0))
    requires value == Substitute(schema.members[i].value, input).value
    ensures SubstMembers(schema, input, i + 1).1 ==
      SubstMembers(schema, input, i).1 + Substitute(schema.members[i].value, input).consumed
    ensures !Truthy(value) ==>
      output == (if SubstMembers(schema, input, i + 1).0 == [] then Null else Obj(SubstMembers(schema, input, i + 1).0))
    ensures Truthy(value) ==>
      var o := if Truthy(output) then output else Obj([]);
      o.Obj? &&
      Obj(Assign(o.members, schema.members[i].key, value)) ==
        (if SubstMembers(schema, input, i + 1).0 == [] then Null else Obj(SubstMembers(schema, input, i + 1).0))
  {
    var pre := SubstMembers(schema, input, i).0;
    var k := schema.members[i].key;
    if Truthy(value) {
      KeySetCons(Member(k, value), []);
      assert k in KeySet(Assign(pre, k, value));
    }
  }

  /** One more element of an array template. */
  lemma ArrayStep(schema: Json, input: seq<Member>, i: nat, output: Json, value: Json)
    requires schema.Arr? && i < |schema.elems|
    requires output == (if SubstElems(schema, input, i).0 == [] then Null else Arr(SubstElems(schema, input, i).0))
    requires value == Substitute(schema.elems[i], input).value
    ensures SubstElems(schema, input, i + 1).1 ==
      SubstElems(schema, input, i).1 + Substitute(schema.elems[i], input).consumed
    ensures !Truthy(value) ==>
      output == (if SubstElems(schema, input, i + 1).0 == [] then Null else Arr(SubstElems(schema, input, i + 1).0))
    ensures Truthy(value) ==>
      var o := if Truthy(output) then output else Arr([]);
      o.Arr? && |o.elems| <= i &&
      Arr(SetAt(o.elems, i, value)) ==
        (if SubstElems(schema, input, i + 1).0 == [] then Null else Arr(SubstElems(schema, input, i + 1).0))
  {
  }

  // ---------------------------------------------------------------------
  // The imperative walk

  /** tools/index.js `parseValue`. `input` is a value and is never changed;
      `flow` is the caller's `flowData` object, changed in place. */
  method ParseValue(schema: Json, input: seq<Member>, flow: JsObject) returns (output: Json)
    requires flow.Valid()
    modifies flow
    ensures flow.Valid()
    ensures output == Substitute(schema, input).value
    ensures flow.members == Consume(old(flow.members), Substitute(schema, input).consumed)
    decreases Size(schema), 1
  {
    match schema {
      case Str(s) =>
        output := ParseString(s, input, flow);
      case Arr(_) =>
        output := ParseArray(schema, input, flow);
      case Obj(_) =>
        output := ParseObject(schema, input, flow);
      case _ =>
        // `typeof` is neither 'string' nor 'object' (or the value is null):
        // nothing matches and `output` stays null
        output := Null;
        ConsumeNothing(flow.members);
    }
  }

  /** `if (used && flowData[name]) delete flowData[name]` */
  method ConsumeName(flow: JsObject, name: string, used: bool)
    requires flow.Valid()
    modifies flow
    ensures flow.Valid()
    ensures flow.members == Consume(old(flow.members), if used then {name} else {})
  {
    DeleteIfTruthy(flow.members, name);
    ConsumeNothing(flow.members);
    if used && Truthy(flow.Prop(name)) {
      flow.Delete(name);
    }
  }

  method ParseString(s: string, input: seq<Member>, flow: JsObject) returns (output: Json)
    requires flow.Valid()
    modifies flow
    ensures flow.Valid()
    ensures output == Substitute(Str(s), input).value
    ensures flow.members == Consume(old(flow.members), Substitute(Str(s), input).consumed)
  {
    var m := FindStrict(s, 0);
    if m.Some? {
      var name := StrictName(s, m.value);
      output := Or(Lookup(input, name), Null);
      ConsumeName(flow, name, Truthy(output));
    } else {
      var value := ReplacePlaceholders(s, input, flow);
      output := if value == "" then Null else Str(value);
    }
  }

  /** The `for…in` over an array: `output` is created on the first truthy
      result and each truthy result goes to its own index. */
  method ParseArray(schema: Json, input: seq<Member>, flow: JsObject) returns (output: Json)
    requires schema.Arr? && flow.Valid()
    modifies flow
    ensures flow.Valid()
    ensures output == Substitute(schema, input).value
    ensures flow.members == Consume(old(flow.members), Substitute(schema, input).consumed)
    decreases Size(schema), 0
  {
    var es := schema.elems;
    output := Null;
    ConsumeNothing(flow.members);
    for i := 0 to |es|
      invariant flow.Valid()
      invariant output == (if SubstElems(schema, input, i).0 == [] then Null else Arr(SubstElems(schema, input, i).0))
      invariant flow.members == Consume(old(flow.members), SubstElems(schema, input, i).1)
    {
      ElemSmaller(es, i);
      var value := ParseValue(es[i], input, flow);
      ConsumeTwice(old(flow.members), SubstElems(schema, input, i).1, Substitute(es[i], input).consumed);
      ArrayStep(schema, input, i, output, value);
      if Truthy(value) {
        if !Truthy(output) {
          output := Arr([]);
        }
        output := Arr(SetAt(output.elems, i, value));
      }
    }
  }

  /** The `for…in` over an object: each truthy result under its own key. */
  method ParseObject(schema: Json, input: seq<Member>, flow: JsObject) returns (output: Json)
    requires schema.Obj? && flow.Valid()
    modifies flow
    ensures flow.Valid()
    ensures output == Substitute(schema, input).value
    ensures flow.members == Consume(old(flow.members), Substitute(schema, input).consumed)
    decreases Size(schema), 0
  {
    var ms := schema.members;
    output := Null;
    ConsumeNothing(flow.members);
    for i := 0 to |ms|
      invariant flow.Valid()
      invariant output == (if SubstMembers(schema, input, i).0 == [] then Null else Obj(SubstMembers(schema, input, i).0))
      invariant flow.members == Consume(old(flow.members), SubstMembers(schema, input, i).1)
    {
      MemberSmaller(ms, i);
      var value := ParseValue(ms[i].value, input, flow);
      ConsumeTwice(old(flow.members), SubstMembers(schema, input, i).1, Substitute(ms[i].value, input).consumed);
      ObjectStep(schema, input, i, output, value);
      if Truthy(value) {
        if !Truthy(output) {
          output := Obj([]);
        }
        output := Obj(Assign(output.members, ms[i].key, value));
      }
    }
  }

  /** The global `replace` with its callback: builds the new string and
      deletes from `flow` the names it substitutes. */
  method ReplacePlaceholders(s: string, input: seq<Member>, flow: JsObject) returns (out: string)
    requires flow.Valid()
    modifies flow
    ensures flow.Valid()
    ensures out == InterpolateFrom(s, 0, input)
    ensures flow.members == Consume(old(flow.members), TruthyNames(PlaceholdersFrom(s, 0), input))
  {
    out := "";
    var i := 0;
    ghost var seen: seq<string> := [];
    ghost var m0 := flow.members;
    ghost var text := InterpolateFrom(s, 0, input);
    ghost var names := PlaceholdersFrom(s, 0);
    ConsumeNothing(flow.members);
    assert TruthyNames([], input) == {};
    while i < |s|
      invariant i <= |s|
      invariant flow.Valid()
      invariant out + InterpolateFrom(s, i, input) == text
      invariant seen + PlaceholdersFrom(s, i) == names
      invariant flow.members == Consume(m0, TruthyNames(seen, input))
      decreases |s| - i
    {
      var m := PlaceholderAt(s, i);
      if m.Some? {
        var prop := s[i + 1..m.value - 1];
        ghost var before := flow.members;
        ConsumeName(flow, prop, Truthy(Lookup(input, prop)));
        ConsumeSeenStep(m0, seen, prop, input, before, flow.members);
        ScanPlaceholder(s, i, m.value, prop, input, out, seen);
        out := out + Replacement(prop, input);
        seen := seen + [prop];
        i := m.value;
      } else {
        ScanText(s, i, input, out);
        out := out + [s[i]];
        i := i + 1;
      }
    }
    assert seen + [] == seen;
  }
}
