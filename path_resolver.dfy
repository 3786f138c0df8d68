/** `deepSearch(obj, path)`: resolves a path such as `a.b[2].c` inside a
    value. Every failure on the way (a missing property, a lookup through
    `null` or `undefined`, a path that is not a string) ends in `undefined`;
    the function never throws. */
module PathResolver {
  import opened Json
  import opened Strings

  /** One step of a path: a property name and, when the step carries a
      non-empty bracket part, the index to take from that property. The
      index is "" when there is none (`undefined` and "" are both falsy). */
  datatype Step = Step(name: string, index: string)

  const Dots: set<char> := {'.'}
  const Brackets: set<char> := {'[', ']'}

  /** `const [name, index] = step.split(/[\[\]]/g)`: the first two pieces;
      whatever follows a second bracket is ignored. */
  function ParseStep(step: string): (r: Step)
    ensures PlainBrackets(r.name) && PlainBrackets(r.index)
    ensures PlainBrackets(step) ==> r == Step(step, "")
  {
    var pieces := Split(step, Brackets);
    assert PlainBrackets(step) ==> pieces == [step] by {
      if PlainBrackets(step) {
        SplitNoSeparator(step, Brackets);
      }
    }
    Step(pieces[0], if |pieces| > 1 then pieces[1] else "")
  }

  predicate PlainBrackets(s: string) {
    forall i :: 0 <= i < |s| ==> s[i] !in Brackets
  }

  function Steps(path: string): seq<Step> {
    ParseAll(Split(path, Dots))
  }

  function ParseAll(parts: seq<string>): (r: seq<Step>)
    ensures |r| == |parts| && forall i :: 0 <= i < |parts| ==> r[i] == ParseStep(parts[i])
  {
    seq(|parts|, i requires 0 <= i < |parts| => ParseStep(parts[i]))
  }

  /** `current = index ? current[name][index] : current[name]` */
  function Advance(current: Json, st: Step): Json {
    if st.index != "" then Get(Get(current, st.name), st.index) else Get(current, st.name)
  }

  function Walk(v: Json, steps: seq<Step>): Json
    decreases |steps|
  {
    if steps == [] then v else Walk(Advance(v, steps[0]), steps[1..])
  }

  /** What `deepSearch(obj, path)` returns. */
  function Resolve(obj: Json, path: Json): Json {
    if path.Str? then Walk(obj, Steps(path.s)) else Absent
  }

  /** tools/index.js `deepSearch`: narrows `current` one step at a time. */
  method DeepSearch(obj: Json, path: Json) returns (r: Json)
    ensures r == Resolve(obj, path)
  {
    if !path.Str? {
      // `path.split` throws; the catch returns undefined
      return Absent;
    }
    var steps := Split(path.s, Dots);
    ghost var all := Steps(path.s);
    var current := obj;
    for i := 0 to |steps|
      invariant Walk(current, all[i..]) == Resolve(obj, path)
    {
      var st := ParseStep(steps[i]);
      assert all[i..][0] == st && all[i..][1..] == all[i + 1..];
      current := if st.index != "" then Get(Get(current, st.name), st.index) else Get(current, st.name);
    }
    return current;
  }

  // ---------------------------------------------------------------------
  // What a path means

  lemma {:induction false} WalkAppend(v: Json, a: seq<Step>, b: seq<Step>)
    ensures Walk(v, a + b) == Walk(Walk(v, a), b)
    decreases |a|
  {
    if a != [] {
      assert (a + b)[0] == a[0] && (a + b)[1..] == a[1..] + b;
      WalkAppend(Advance(v, a[0]), a[1..], b);
    } else {
      assert a + b == b;
    }
  }

  lemma ParseAllAppend(a: seq<string>, b: seq<string>)
    ensures ParseAll(a + b) == ParseAll(a) + ParseAll(b)
  {
    var l := ParseAll(a + b);
    var r := ParseAll(a) + ParseAll(b);
    forall i | 0 <= i < |a + b|
      ensures l[i] == r[i]
    {
      if i < |a| {
        assert (a + b)[i] == a[i];
      } else {
        assert (a + b)[i] == b[i - |a|];
      }
    }
  }

  lemma StepsAround(p: string, q: string)
    ensures Steps(p + "." + q) == Steps(p) + Steps(q)
  {
    SplitAround(p, '.', q, Dots);
    assert p + "." + q == p + ['.'] + q;
    ParseAllAppend(Split(p, Dots), Split(q, Dots));
  }

  /** Resolving `p.q` is resolving `q` inside what `p` resolves to. */
  lemma ResolveConcat(v: Json, p: string, q: string)
    ensures Resolve(v, Str(p + "." + q)) == Resolve(Resolve(v, Str(p)), Str(q))
  {
    StepsAround(p, q);
    WalkAppend(v, Steps(p), Steps(q));
  }

  /** A name without dots or brackets: a path of one plain step. */
  predicate PlainName(s: string) {
    forall i :: 0 <= i < |s| ==> s[i] !in Dots && s[i] !in Brackets
  }

  /** A plain property name looks up that property. */
  lemma ResolveName(v: Json, name: string)
    requires PlainName(name)
    ensures Resolve(v, Str(name)) == Get(v, name)
  {
    SplitNoSeparator(name, Dots);
    SplitNoSeparator(name, Brackets);
    assert Steps(name) == [Step(name, "")];
    assert Walk(v, [Step(name, "")]) == Walk(Get(v, name), []);
  }

  /** `name[index]` takes the property, then the element (or property)
      `index` of it. */
  lemma ResolveIndexed(v: Json, name: string, index: string)
    requires PlainName(name) && PlainName(index)
    requires index != ""
    ensures Resolve(v, Str(name + "[" + index + "]")) == Get(Get(v, name), index)
  {
    var step := name + "[" + index + "]";
    SplitNoSeparator(step, Dots);
    SplitNoSeparator(name, Brackets);
    SplitNoSeparator(index, Brackets);
    SplitAround(name, '[', index + "]", Brackets);
    assert step == name + ['['] + (index + "]");
    SplitAround(index, ']', "", Brackets);
    assert index + "]" == index + [']'] + "";
    assert Split(step, Brackets) == [name, index, ""];
    assert Steps(step) == [Step(name, index)];
    assert Walk(v, [Step(name, index)]) == Walk(Get(Get(v, name), index), []);
  }

  /** Whatever follows the first bracketed index of a step is ignored:
      `a[1][2]` takes index 1 of `a`, and so does `a[1]x`. */
  lemma ParseStepIgnoresTail(name: string, index: string, tail: string)
    requires PlainName(name) && PlainName(index)
    ensures ParseStep(name + "[" + index + "]" + tail) == Step(name, index)
  {
    var inner := index + [']'] + tail;
    SplitNoSeparator(name, Brackets);
    SplitNoSeparator(index, Brackets);
    SplitAround(name, '[', inner, Brackets);
    SplitAround(index, ']', tail, Brackets);
    assert name + "[" + index + "]" + tail == name + ['['] + inner;
    var pieces := Split(name + "[" + index + "]" + tail, Brackets);
    assert pieces == [name] + ([index] + Split(tail, Brackets));
  }

  /** An empty index is no index at all: `a[]` reads property `a`. */
  lemma ParseStepEmptyIndex(name: string, tail: string)
    requires PlainName(name)
    ensures ParseStep(name + "[]" + tail) == Step(name, "")
  {
    ParseStepIgnoresTail(name, "", tail);
    assert name + "[" + "" + "]" + tail == name + "[]" + tail;
  }

  /** A step may lack a name: `[i]` takes index `i` of the property "". */
  lemma ParseStepNoName(index: string, tail: string)
    requires PlainName(index)
    ensures ParseStep("[" + index + "]" + tail) == Step("", index)
  {
    ParseStepIgnoresTail("", index, tail);
    assert "" + "[" + index + "]" + tail == "[" + index + "]" + tail;
  }

  /** Once the walk reaches something that is not an object or an array
      (`undefined`, `null`, a string, a number, a boolean), every further
      step yields `undefined`. */
  lemma {:induction false} WalkStuck(v: Json, steps: seq<Step>)
    requires !v.Obj? && !v.Arr?
    requires steps != []
    ensures Walk(v, steps) == Absent
    decreases |steps|
  {
    assert Advance(v, steps[0]) == Absent;
    if |steps| > 1 {
      WalkStuck(Absent, steps[1..]);
    }
  }

  /** A failure anywhere on the path is a failure of the whole path: when
      `p` leads to no object or array, `p.q` is `undefined`. */
  lemma ResolveThroughFailure(v: Json, p: string, q: string)
    requires !Resolve(v, Str(p)).Obj? && !Resolve(v, Str(p)).Arr?
    ensures Resolve(v, Str(p + "." + q)) == Absent
  {
    ResolveConcat(v, p, q);
    WalkStuck(Resolve(v, Str(p)), Steps(q));
  }

  /** What a walk of at least one step finds lies strictly inside the value
      it started from. */
  lemma {:induction false} WalkShrinks(v: Json, steps: seq<Step>)
    requires steps != []
    ensures Walk(v, steps) == Absent || Size(Walk(v, steps)) < Size(v)
    decreases |steps|
  {
    var next := Advance(v, steps[0]);
    assert next == Absent || Size(next) < Size(v);
    if |steps| > 1 {
      if next == Absent {
        WalkStuck(next, steps[1..]);
      } else {
        WalkShrinks(next, steps[1..]);
      }
    }
  }

  lemma ResolveShrinks(v: Json, path: Json)
    ensures Resolve(v, path) == Absent || Size(Resolve(v, path)) < Size(v)
  {
    if path.Str? {
      WalkShrinks(v, Steps(path.s));
    }
  }
}
