/** What `schemaToMetadata` promises, proved about `Compile`: which names
    get an entry, that a later node with the same name wins, what a leaf
    holds, that nested properties forward `exclude` but not `wrap`, and
    where the envelope puts the entries. */
module MetadataLaws {
  import opened Json
  import opened PathResolver
  import opened Metadata

  /** `metadata` has an entry exactly for the names of the nodes that are
      not excluded, and each property name occurs once. */
  lemma Keys(schema: Json, p: Paths, exclude: seq<Json>, k: string)
    ensures var fields := Fields(schema, p, exclude, |Items(schema)|);
      && UniqueKeys(fields)
      && (k in KeySet(fields) <==>
           exists j :: 0 <= j < |Items(schema)| && !IsExcluded(exclude, NameOf(schema, p, j)) && KeyOf(schema, p, j) == k)
  {
    var n := |Items(schema)|;
    var cs := Candidates(schema, p, exclude, n);
    AssignSomeKeys(cs, k);
    if k in KeySet(AssignSome(cs)) {
      var j :| 0 <= j < n && cs[j].Some? && cs[j].value.key == k;
      assert !IsExcluded(exclude, NameOf(schema, p, j)) && KeyOf(schema, p, j) == k;
    }
    if exists j :: 0 <= j < n && !IsExcluded(exclude, NameOf(schema, p, j)) && KeyOf(schema, p, j) == k {
      var j :| 0 <= j < n && !IsExcluded(exclude, NameOf(schema, p, j)) && KeyOf(schema, p, j) == k;
      assert cs[j].Some? && cs[j].value.key == k;
    }
  }

  /** The entry under a key is the one built for the last node, not
      excluded, whose name gives that key. */
  lemma LastWins(schema: Json, p: Paths, exclude: seq<Json>, j: nat)
    requires j < |Items(schema)|
    requires !IsExcluded(exclude, NameOf(schema, p, j))
    requires forall l :: j < l < |Items(schema)| && !IsExcluded(exclude, NameOf(schema, p, l)) ==>
      KeyOf(schema, p, l) != KeyOf(schema, p, j)
    ensures Lookup(Fields(schema, p, exclude, |Items(schema)|), KeyOf(schema, p, j)) ==
      Entry(Items(schema)[j], p, exclude, NameOf(schema, p, j))
  {
    var n := |Items(schema)|;
    var cs := Candidates(schema, p, exclude, n);
    assert cs[j].Some? && cs[j].value.key == KeyOf(schema, p, j);
    forall l | j < l < n && cs[l].Some?
      ensures cs[l].value.key != cs[j].value.key
    {
      assert !IsExcluded(exclude, NameOf(schema, p, l));
    }
    AssignSomeLast(cs, j);
  }

  /** A node without nested properties gets its type verbatim, its title or
      else its name, and its required flag or else `false`. */
  lemma LeafEntry(node: Json, p: Paths, exclude: seq<Json>, name: Json)
    requires !Truthy(Resolve(node, p.props))
    ensures var e := Entry(node, p, exclude, name);
      && Get(e, "type") == Resolve(node, p.typ)
      && Get(e, "title") == (if Truthy(Resolve(node, p.title)) then Resolve(node, p.title) else name)
      && Get(e, "required") == (if Truthy(Resolve(node, p.required)) then Resolve(node, p.required) else Bool(false))
  {
    var t := Member("type", TypeField(Resolve(node, p.typ)));
    var ti := Member("title", Or(Resolve(node, p.title), name));
    var rq := Member("required", Or(Resolve(node, p.required), Bool(false)));
    assert Entry(node, p, exclude, name) == Obj([t, ti, rq]);
    LookupCons(t, [ti, rq], "title");
    LookupCons(ti, [rq], "title");
    LookupCons(t, [ti, rq], "required");
    LookupCons(ti, [rq], "required");
    LookupCons(rq, [], "required");
    assert [t] + [ti, rq] == [t, ti, rq];
    assert [ti] + [rq] == [ti, rq];
    assert [rq] + [] == [rq];
  }

  /** A node with nested properties gets them compiled with the same
      `exclude` and without a `wrap`. */
  lemma NestedEntry(node: Json, p: Paths, exclude: seq<Json>, name: Json)
    requires Truthy(Resolve(node, p.props))
    ensures var props := Resolve(node, p.props);
      Entry(node, p, exclude, name) ==
        Obj([Member("type", Str("object")),
             Member("properties", Obj(Fields(props, p, exclude, |Items(props)|)))])
  {
  }

  /** The property names the envelope uses are plain names. */
  lemma EnvelopeNamesPlain()
    ensures PlainName("properties") && PlainName("type") && PlainName("title")
  {
  }

  /** Looking up either property of a two-property object. */
  lemma FindInPair(a: Member, b: Member)
    requires a.key != b.key
    ensures Lookup([a, b], a.key) == a.value && Lookup([a, b], b.key) == b.value
  {
    LookupCons(a, [b], b.key);
    LookupCons(b, [], b.key);
    assert [a] + [b] == [a, b];
  }

  /** Without a string `wrap` the entries are at `properties`. */
  lemma UnwrappedEnvelope(fields: seq<Member>, wrap: Json)
    requires !wrap.Str?
    ensures Resolve(Envelope(fields, wrap), Str("properties")) == Obj(fields)
    ensures Resolve(Envelope(fields, wrap), Str("type")) == Str("object")
  {
    var t := Member("type", Str("object"));
    var pr := Member("properties", Obj(fields));
    var r := Envelope(fields, wrap);
    assert r == Obj([t, pr]);
    FindInPair(t, pr);
    EnvelopeNamesPlain();
    ResolveName(r, "properties");
    ResolveName(r, "type");
  }

  /** The middle level of a wrapped envelope. */
  function Level(fields: seq<Member>, w: string): Json {
    Obj([Member("type", Str("object")), Member("title", Str(w)), Member("properties", Obj(fields))])
  }

  /** With a string `wrap`, `properties` holds one property, named `wrap`. */
  lemma WrappedTop(fields: seq<Member>, w: string)
    ensures Resolve(Envelope(fields, Str(w)), Str("properties")) == Obj([Member(w, Level(fields, w))])
  {
    var t := Member("type", Str("object"));
    var top := Member("properties", Obj([Member(w, Level(fields, w))]));
    assert Envelope(fields, Str(w)) == Obj([t, top]);
    FindInPair(t, top);
    EnvelopeNamesPlain();
    ResolveName(Envelope(fields, Str(w)), "properties");
  }

  /** With a string `wrap`, `properties.<wrap>` is the middle level. */
  lemma WrappedLevel(fields: seq<Member>, w: string)
    requires PlainName(w)
    ensures Resolve(Envelope(fields, Str(w)), Str("properties." + w)) == Level(fields, w)
  {
    WrappedTop(fields, w);
    LookupSingle(w, Level(fields, w));
    ResolveStepBelow(Envelope(fields, Str(w)), "properties", w, Level(fields, w));
    PropertiesDot(w);
  }

  lemma LookupSingle(k: string, v: Json)
    ensures Get(Obj([Member(k, v)]), k) == v
  {
  }

  lemma PropertiesDot(w: string)
    ensures "properties." + w == "properties" + "." + w
  {
  }

  /** The three properties of the middle level. */
  lemma LevelFields(fields: seq<Member>, w: string)
    ensures Get(Level(fields, w), "type") == Str("object")
    ensures Get(Level(fields, w), "title") == Str(w)
    ensures Get(Level(fields, w), "properties") == Obj(fields)
  {
    var t := Member("type", Str("object"));
    var ti := Member("title", Str(w));
    var pr := Member("properties", Obj(fields));
    assert [t, ti, pr] == [t] + [ti, pr];
    LookupCons(t, [ti, pr], "title");
    LookupCons(t, [ti, pr], "properties");
    FindInPair(ti, pr);
  }

  /** One plain step below a path. */
  lemma ResolveStepBelow(r: Json, prefix: string, name: string, v: Json)
    requires PlainName(name) && Get(Resolve(r, Str(prefix)), name) == v
    ensures Resolve(r, Str(prefix + "." + name)) == v
  {
    ResolveConcat(r, prefix, name);
    ResolveName(Resolve(r, Str(prefix)), name);
  }

  /** With any string `wrap` (the empty one too) the entries are at
      `properties.<wrap>.properties`, and that level is titled `wrap`. */
  lemma WrappedEnvelope(fields: seq<Member>, w: string)
    requires PlainName(w)
    ensures var r := Envelope(fields, Str(w));
      && Resolve(r, Str("properties." + w + ".properties")) == Obj(fields)
      && Resolve(r, Str("properties." + w + ".title")) == Str(w)
      && Resolve(r, Str("properties." + w + ".type")) == Str("object")
  {
    LevelFields(fields, w);
    EnvelopeNamesPlain();
    WrappedBelow(fields, w, "properties", Obj(fields));
    WrappedBelow(fields, w, "title", Str(w));
    WrappedBelow(fields, w, "type", Str("object"));
    var prefix := "properties." + w;
    assert prefix + ".properties" == prefix + "." + "properties";
    assert prefix + ".title" == prefix + "." + "title";
    assert prefix + ".type" == prefix + "." + "type";
  }

  /** One plain step below `properties.<wrap>`. */
  lemma WrappedBelow(fields: seq<Member>, w: string, name: string, v: Json)
    requires PlainName(w) && PlainName(name) && Get(Level(fields, w), name) == v
    ensures Resolve(Envelope(fields, Str(w)), Str("properties." + w + "." + name)) == v
  {
    var prefix := "properties." + w;
    WrappedLevel(fields, w);
    ResolveStepBelow(Envelope(fields, Str(w)), prefix, name, v);
  }
}
