/** `schemaToMetadata`: compiles a schema received from a remote service
    into the platform's metadata description, one entry per schema node,
    keyed by the node's resolved name, nested where a node has properties
    of its own, and wrapped in an object envelope. */
module Metadata {
  import opened Json
  import opened PathResolver

  /** The relative paths, inside a schema node, of its name, type, nested
      properties, title and required flag. */
  datatype Paths = Paths(name: Json, typ: Json, props: Json, title: Json, required: Json)

  /** What `for (let i in schema) … schema[i]` visits: the elements of an
      array (holes are skipped), the property values of an object, the
      one-character strings of a string, and nothing for anything else. */
  function Items(v: Json): seq<Json> {
    match v
    case Arr(es) => NonHoles(es)
    case Obj(ms) => seq(|ms|, j requires 0 <= j < |ms| => ms[j].value)
    case Str(s) => seq(|s|, j requires 0 <= j < |s| => Str([s[j]]))
    case _ => []
  }

  function NonHoles(es: seq<Json>): (r: seq<Json>)
    ensures forall x :: x in r <==> x in es && x != Absent
    ensures |r| <= |es|
  {
    if es == [] then []
    else
      var r := (if es[0] == Absent then [] else [es[0]]) + NonHoles(es[1..]);
      assert forall x :: x in es <==> x == es[0] || x in es[1..];
      r
  }

  /** The holes are dropped where they stand: the entries keep their order. */
  lemma {:induction false} NonHolesConcat(a: seq<Json>, b: seq<Json>)
    ensures NonHoles(a + b) == NonHoles(a) + NonHoles(b)
  {
    if a == [] {
      assert a + b == b;
    } else {
      assert (a + b)[0] == a[0];
      assert (a + b)[1..] == a[1..] + b;
      NonHolesConcat(a[1..], b);
    }
  }

  /** `for (i in v)` visits an array's entries that are not holes, in order,
      an object's values in order, a string's characters one by one, and
      nothing in a number, a boolean, `null` or `undefined`. */
  lemma ForInValues(v: Json)
    ensures v.Arr? ==> forall x :: x in Items(v) <==> x in v.elems && x != Absent
    ensures v.Arr? && Absent !in v.elems ==> Items(v) == v.elems
    ensures v.Obj? ==> (|Items(v)| == |v.members| &&
      forall j :: 0 <= j < |v.members| ==> Items(v)[j] == v.members[j].value)
    ensures v.Str? ==> (|Items(v)| == |v.s| &&
      forall j :: 0 <= j < |v.s| ==> Items(v)[j] == Str([v.s[j]]))
    ensures !v.Arr? && !v.Obj? && !v.Str? ==> Items(v) == []
  {
    if v.Arr? && Absent !in v.elems {
      NoHolesKept(v.elems);
    }
  }

  lemma {:induction false} HolesShorten(es: seq<Json>)
    requires Absent in es
    ensures |NonHoles(es)| < |es|
  {
    if es[0] != Absent {
      assert Absent in es[1..];
      HolesShorten(es[1..]);
    }
  }

  lemma {:induction false} NoHolesKept(es: seq<Json>)
    requires Absent !in es
    ensures NonHoles(es) == es
  {
    if es != [] {
      assert es[1..] + [] == es[1..];
      assert Absent !in es[1..];
      NoHolesKept(es[1..]);
      assert es == [es[0]] + es[1..];
    }
  }

  lemma ItemSmaller(v: Json, j: nat)
    requires j < |Items(v)|
    ensures Size(Items(v)[j]) <= Size(v)
  {
    match v
    case Arr(es) =>
      assert Items(v)[j] in Items(v);
      var i :| 0 <= i < |es| && es[i] == Items(v)[j];
      ElemSmaller(es, i);
    case Obj(ms) =>
      MemberSmaller(ms, j);
    case Str(s) =>
  }

  /** `===` as far as values can tell: an array or an object from the
      schema is never the same object as one in `exclude`. */
  predicate StrictEquals(a: Json, b: Json) {
    a == b && !a.Arr? && !a.Obj?
  }

  /** `xs.indexOf(x)`: the first position holding `x`, or -1. */
  function IndexOf(xs: seq<Json>, x: Json): (r: int)
    ensures -1 <= r < |xs|
    ensures r >= 0 ==> StrictEquals(xs[r], x)
    ensures r >= 0 ==> forall j :: 0 <= j < r ==> !StrictEquals(xs[j], x)
    ensures r == -1 <==> forall j :: 0 <= j < |xs| ==> !StrictEquals(xs[j], x)
  {
    if xs == [] then -1
    else if StrictEquals(xs[0], x) then 0
    else
      var r := IndexOf(xs[1..], x);
      assert forall j :: 1 <= j < |xs| ==> xs[j] == xs[1..][j - 1];
      if r == -1 then -1 else r + 1
  }

  /** `exclude.indexOf(name) !== -1` */
  predicate IsExcluded(exclude: seq<Json>, name: Json) {
    IndexOf(exclude, name) != -1
  }

  /** `type === 'string' || 'boolean' || 'number' || 'object' ? type : 'string'`:
      the non-empty string literals make the test always true. */
  function TypeField(t: Json): (r: Json)
    ensures r == t
  {
    if t == Str("string") || Truthy(Str("boolean")) || Truthy(Str("number")) || Truthy(Str("object")) then t
    else Str("string")
  }

  /** The entry of a node without nested properties. */
  function Leaf(node: Json, p: Paths, name: Json): Json {
    Obj([Member("type", TypeField(Resolve(node, p.typ))),
         Member("title", Or(Resolve(node, p.title), name)),
         Member("required", Or(Resolve(node, p.required), Bool(false)))])
  }

  /** The object envelope: `{type: 'object', properties}`, or, when `wrap`
      is a string, one more level named by `wrap` and titled with it. */
  function Envelope(fields: seq<Member>, wrap: Json): Json {
    if wrap.Str? then
      Obj([Member("type", Str("object")),
           Member("properties", Obj([Member(wrap.s, Obj([Member("type", Str("object")),
                                                          Member("title", wrap),
                                                          Member("properties", Obj(fields))]))]))])
    else
      Obj([Member("type", Str("object")), Member("properties", Obj(fields))])
  }

  /** What `schemaToMetadata(schema, …, exclude, wrap)` returns. */
  function Compile(schema: Json, p: Paths, exclude: seq<Json>, wrap: Json): Json
    decreases Size(schema), 4
  {
    Envelope(Fields(schema, p, exclude, |Items(schema)|), wrap)
  }

  /** The `metadata` dictionary after the first `n` nodes: their
      assignments, in order, on an empty object. */
  function Fields(schema: Json, p: Paths, exclude: seq<Json>, n: nat): seq<Member>
    requires n <= |Items(schema)|
    decreases Size(schema), 3
  {
    AssignSome(Candidates(schema, p, exclude, n))
  }

  function Candidates(schema: Json, p: Paths, exclude: seq<Json>, n: nat): (r: seq<Option<Member>>)
    requires n <= |Items(schema)|
    ensures |r| == n && forall j :: 0 <= j < n ==> r[j] == Candidate(schema, p, exclude, j)
    decreases Size(schema), 2
  {
    seq(n, j requires 0 <= j < n => Candidate(schema, p, exclude, j))
  }

  /** The assignment node `j` makes, `metadata[name] = entry`: none when
      its name is excluded. */
  function Candidate(schema: Json, p: Paths, exclude: seq<Json>, j: nat): Option<Member>
    requires j < |Items(schema)|
    decreases Size(schema), 1
  {
    if IsExcluded(exclude, NameOf(schema, p, j)) then None
    else
      ItemSmaller(schema, j);
      Some(Member(KeyOf(schema, p, j), Entry(Items(schema)[j], p, exclude, NameOf(schema, p, j))))
  }

  /** The entry of one node: the compiled nested properties when they are
      truthy (with `exclude` forwarded and no `wrap`), else a leaf. */
  function Entry(node: Json, p: Paths, exclude: seq<Json>, name: Json): Json
    decreases Size(node), 0
  {
    var props := Resolve(node, p.props);
    if Truthy(props) then
      ResolveShrinks(node, p.props);
      Compile(props, p, exclude, Absent)
    else Leaf(node, p, name)
  }

  /** The resolved name of node `j` and the property key it becomes. */
  function NameOf(schema: Json, p: Paths, j: nat): Json
    requires j < |Items(schema)|
  {
    Resolve(Items(schema)[j], p.name)
  }

  function KeyOf(schema: Json, p: Paths, j: nat): string
    requires j < |Items(schema)|
  {
    ToJsString(NameOf(schema, p, j))
  }

  /** One more node: its assignment, if any, on what came before. */
  lemma FieldsStep(schema: Json, p: Paths, exclude: seq<Json>, n: nat, c: Option<Member>)
    requires n < |Items(schema)| && c == Candidate(schema, p, exclude, n)
    ensures Fields(schema, p, exclude, n + 1) ==
      if c.Some? then Assign(Fields(schema, p, exclude, n), c.value.key, c.value.value)
      else Fields(schema, p, exclude, n)
  {
    AssignSomeExtend(Candidates(schema, p, exclude, n + 1), Candidates(schema, p, exclude, n), c);
  }

  /** The assignment of a node whose name is not excluded. */
  lemma CandidateKept(schema: Json, p: Paths, exclude: seq<Json>, j: nat, entry: Json)
    requires j < |Items(schema)| && !IsExcluded(exclude, NameOf(schema, p, j))
    requires entry == Entry(Items(schema)[j], p, exclude, NameOf(schema, p, j))
    ensures Candidate(schema, p, exclude, j) == Some(Member(KeyOf(schema, p, j), entry))
  {
  }

  /** `metadata[name] = {}` followed by `metadata[name] = entry` is the
      assignment node `j` makes. */
  lemma FieldsKept(schema: Json, p: Paths, exclude: seq<Json>, j: nat, entry: Json)
    requires j < |Items(schema)| && !IsExcluded(exclude, NameOf(schema, p, j))
    requires entry == Entry(Items(schema)[j], p, exclude, NameOf(schema, p, j))
    ensures Fields(schema, p, exclude, j + 1) ==
      Assign(Assign(Fields(schema, p, exclude, j), KeyOf(schema, p, j), Obj([])), KeyOf(schema, p, j), entry)
  {
    AssignTwice(Fields(schema, p, exclude, j), KeyOf(schema, p, j), Obj([]), entry);
    CandidateKept(schema, p, exclude, j, entry);
    FieldsStep(schema, p, exclude, j, Some(Member(KeyOf(schema, p, j), entry)));
  }

  /** tools/index.js `schemaToMetadata`: fills a fresh `metadata` object
      node by node and wraps it. */
  method SchemaToMetadata(schema: Json, p: Paths, exclude: seq<Json>, wrap: Json) returns (r: Json)
    ensures r == Compile(schema, p, exclude, wrap)
    decreases Size(schema), 2
  {
    var metadata := new JsObject();
    for i := 0 to |Items(schema)|
      invariant metadata.Valid()
      invariant metadata.members == Fields(schema, p, exclude, i)
    {
      VisitNode(metadata, schema, p, exclude, i);
    }
    r := Envelope(metadata.members, wrap);
  }

  /** The body of the `for…in` loop for node `i`. */
  method VisitNode(metadata: JsObject, schema: Json, p: Paths, exclude: seq<Json>, i: nat)
    requires i < |Items(schema)| && metadata.Valid()
    requires metadata.members == Fields(schema, p, exclude, i)
    modifies metadata
    ensures metadata.Valid()
    ensures metadata.members == Fields(schema, p, exclude, i + 1)
    decreases Size(schema), 1
  {
    var node := Items(schema)[i];
    var name := DeepSearch(node, p.name);
    var typ := DeepSearch(node, p.typ);
    var props := DeepSearch(node, p.props);
    if !IsExcluded(exclude, name) {
      var key := ToJsString(name);
      metadata.Put(key, Obj([]));
      ItemSmaller(schema, i);
      var entry := NodeEntry(node, p, exclude, name, typ, props);
      metadata.Put(key, entry);
      FieldsKept(schema, p, exclude, i, entry);
    } else {
      FieldsStep(schema, p, exclude, i, None);
    }
  }

  /** The value `metadata[name]` ends up with for one node: the compiled
      nested properties, or the leaf description. */
  method NodeEntry(node: Json, p: Paths, exclude: seq<Json>, name: Json, typ: Json, props: Json) returns (entry: Json)
    requires typ == Resolve(node, p.typ) && props == Resolve(node, p.props)
    ensures entry == Entry(node, p, exclude, name)
    decreases Size(node), 0
  {
    if Truthy(props) {
      ResolveShrinks(node, p.props);
      entry := SchemaToMetadata(props, p, exclude, Absent);
    } else {
      var title := DeepSearch(node, p.title);
      var required := DeepSearch(node, p.required);
      entry := Obj([Member("type", TypeField(typ)),
                    Member("title", Or(title, name)),
                    Member("required", Or(required, Bool(false)))]);
    }
  }
}
