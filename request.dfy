/** The synchronous logic of the three handlers in index.js: how
    `request` assembles the options of the outgoing call (method, URL,
    query string, body, content type) and turns the response into a
    payload, how `genSelectViewOptions` maps the schema it receives to
    select-view options, and the shape `genMetadata` returns. The HTTP call
    itself, the authorisation callback and the event emitter are not part
    of this module: their results are parameters. */
module Request {
  import opened Json
  import opened Strings
  import opened PathResolver
  import opened Templates
  import opened Metadata

  // ---------------------------------------------------------------------
  // The response

  /** tools/index.js `safeJsonParse`: the decoded value, or the text itself
      when decoding fails. `decode` stands for `JSON.parse`, with `None`
      for a text it rejects. */
  function SafeJsonParse(raw: string, decode: string -> Option<Json>): (r: Json)
    ensures decode(raw).Some? ==> r == decode(raw).value
    ensures decode(raw).None? ==> r == Str(raw)
  {
    match decode(raw)
    case Some(v) => v
    case None => Str(raw)
  }

  /** `safeJsonParse(body) || 'NO MESSAGE'` */
  function Payload(raw: string, decode: string -> Option<Json>): (r: Json)
    ensures Truthy(r)
    ensures r == Str("NO MESSAGE") <==>
      !Truthy(SafeJsonParse(raw, decode)) || SafeJsonParse(raw, decode) == Str("NO MESSAGE")
  {
    Or(SafeJsonParse(raw, decode), Str("NO MESSAGE"))
  }

  /** A text the decoder rejects is the payload itself, unless it is empty. */
  lemma PayloadUndecodable(raw: string, decode: string -> Option<Json>)
    requires decode(raw).None?
    ensures Payload(raw, decode) == if raw == "" then Str("NO MESSAGE") else Str(raw)
  {
  }

  /** `{requestUrl, statusCode, payload}`, built both from a response and
      from the response an HTTP error carries. */
  function PreparedData(requestUrl: Json, statusCode: Json, raw: string, decode: string -> Option<Json>): (r: Json)
    ensures r.Obj? && UniqueKeys(r.members)
    ensures KeySet(r.members) == {"requestUrl", "statusCode", "payload"}
    ensures Lookup(r.members, "requestUrl") == requestUrl && Lookup(r.members, "statusCode") == statusCode
    ensures Lookup(r.members, "payload") == Payload(raw, decode)
  {
    var a := Member("requestUrl", requestUrl);
    var b := Member("statusCode", statusCode);
    var c := Member("payload", Payload(raw, decode));
    assert [a, b, c] == [a] + ([b] + [c]);
    KeySetCons(c, []);
    KeySetCons(b, [c]);
    KeySetCons(a, [b] + [c]);
    LookupCons(a, [b] + [c], "statusCode");
    LookupCons(a, [b] + [c], "payload");
    LookupCons(b, [c], "payload");
    LookupCons(c, [], "payload");
    Obj([a, b, c])
  }

  // ---------------------------------------------------------------------
  // The GET query string

  /** `url.indexOf('?') != -1`: a string looks for the character, an array
      for an element that is the string "?"; any other value has no
      `indexOf` and the call throws. */
  function HasQuestion(u: Json): (r: Option<bool>)
    ensures u.Str? ==> r == Some(exists i :: 0 <= i < |u.s| && u.s[i] == '?')
    ensures u.Arr? ==> r == Some(IndexOf(u.elems, Str("?")) != -1)
    ensures !u.Str? && !u.Arr? ==> r == None
  {
    match u
    case Str(s) => Some('?' in s)
    case Arr(es) =>
      assert Str("?") in es <==> exists j :: 0 <= j < |es| && StrictEquals(es[j], Str("?"));
      Some(Str("?") in es)
    case _ => None
  }

  /** `if (url.indexOf('?') == -1) url += '?'` */
  function WithQuestion(u: Json, has: bool): Json {
    if has then u else Str(ToJsString(u) + "?")
  }

  /** `prop=value` of one property, with the value as a template literal
      renders it. */
  function PairText(m: Member): string {
    m.key + "=" + ToJsString(m.value)
  }

  /** `&prop=value` for every property, in order. */
  function Query(ms: seq<Member>): string {
    if ms == [] then "" else Query(ms[..|ms| - 1]) + "&" + PairText(ms[|ms| - 1])
  }

  /** `for (let prop in msg) url += …`: the URL is left alone when there
      is nothing to add, and becomes a string otherwise. */
  function AppendQuery(u: Json, ms: seq<Member>): Json {
    if ms == [] then u else Str(ToJsString(u) + Query(ms))
  }

  /** The URL of a GET request, or `None` when `indexOf` throws. */
  function GetUrl(u: Json, ms: seq<Member>): Option<Json> {
    match HasQuestion(u)
    case None => None
    case Some(has) => Some(AppendQuery(WithQuestion(u, has), ms))
  }

  lemma QueryStep(ms: seq<Member>, i: nat)
    requires i < |ms|
    ensures Query(ms[..i + 1]) == Query(ms[..i]) + "&" + PairText(ms[i])
  {
    assert ms[..i + 1][..i] == ms[..i];
  }

  lemma AppendQueryStep(w: Json, ms: seq<Member>, i: nat)
    requires i < |ms|
    ensures AppendQuery(w, ms[..i + 1]) == Str(ToJsString(AppendQuery(w, ms[..i])) + "&" + PairText(ms[i]))
  {
    QueryStep(ms, i);
    if i == 0 {
      assert ms[..0] == [];
      assert Query(ms[..1]) == "" + "&" + PairText(ms[0]);
      assert "" + "&" + PairText(ms[0]) == "&" + PairText(ms[0]);
    } else {
      assert ms[..i] != [];
      assert ToJsString(w) + Query(ms[..i]) + "&" + PairText(ms[i]) ==
        ToJsString(w) + (Query(ms[..i]) + "&" + PairText(ms[i]));
    }
  }

  /** A string URL keeps its text, gets a `?` only when it has none, and is
      followed by the query. */
  lemma GetUrlString(s: string, ms: seq<Member>)
    ensures GetUrl(Str(s), ms) == Some(Str((if '?' in s then s else s + "?") + Query(ms)))
  {
    if ms == [] {
      assert (if '?' in s then s else s + "?") + "" == (if '?' in s then s else s + "?");
    }
  }

  predicate NoAmpersand(s: string) {
    forall i :: 0 <= i < |s| ==> s[i] != '&'
  }

  /** The `prop=value` texts, one per property. */
  function Pairs(ms: seq<Member>): (r: seq<string>)
    ensures |r| == |ms| && forall j :: 0 <= j < |ms| ==> r[j] == PairText(ms[j])
  {
    seq(|ms|, j requires 0 <= j < |ms| => PairText(ms[j]))
  }

  lemma PairsSnoc(ms: seq<Member>)
    requires ms != []
    ensures Pairs(ms) == Pairs(ms[..|ms| - 1]) + [PairText(ms[|ms| - 1])]
  {
  }

  /** The query string reads back as the properties that were sent, in
      order, as long as no name or value holds a `&`. */
  lemma {:induction false} QueryDecodes(ms: seq<Member>)
    requires forall j :: 0 <= j < |ms| ==> NoAmpersand(PairText(ms[j]))
    ensures Split(Query(ms), {'&'}) == [""] + Pairs(ms)
  {
    if ms == [] {
      assert Pairs(ms) == [];
    } else {
      var pre := ms[..|ms| - 1];
      var last := PairText(ms[|ms| - 1]);
      QueryDecodes(pre);
      SplitAround(Query(pre), '&', last, {'&'});
      SplitNoSeparator(last, {'&'});
      assert Query(ms) == Query(pre) + ['&'] + last;
      PairsSnoc(ms);
    }
  }

  // ---------------------------------------------------------------------
  // The request options

  /** What is sent besides the URL: nothing for a GET, the merged fields as
      a form, or the merged object for `JSON.stringify`. */
  datatype Body = NoBody | FormBody(fields: seq<Member>) | JsonBody(value: Json)

  datatype Prepared = Prepared(verb: string, url: Json, body: Body)

  /** The assembled request (`None` when the assembly throws), what is left
      in the caller's `msg`, and the `Content-Type` header set, if any. */
  datatype Assembly = Assembly(request: Option<Prepared>, msg: seq<Member>, contentType: Option<string>)

  const FormType := "application/x-www-form-urlencoded"
  const JsonType := "application/json"

  /** What index.js lines 35-64 compute from the options, the templating
      `input` and the caller's `msg` (its properties `m0`). */
  function Assemble(verb: string, url: Json, spreadBody: Json, isFormData: Json,
                    input: seq<Member>, m0: seq<Member>): Assembly
  {
    var m := ToUpper(verb);
    var u := Substitute(url, input);
    var msg1 := Consume(m0, u.consumed);
    if m == "GET" then Assembly(GetPart(m, u.value, msg1), msg1, None)
    else BodyPart(m, u.value, spreadBody, isFormData, input, msg1)
  }

  /** The GET branch, lines 45-49, on the templated URL `u` and what is left
      of `msg`. */
  function GetPart(m: string, u: Json, msg: seq<Member>): Option<Prepared> {
    match GetUrl(u, msg)
    case None => None
    case Some(q) => Some(Prepared(m, q, NoBody))
  }

  /** The other branch, lines 51-63. */
  function BodyPart(m: string, u: Json, spreadBody: Json, isFormData: Json,
                    input: seq<Member>, msg: seq<Member>): Assembly
  {
    var spread := Substitute(spreadBody, input);
    var msg2 := if spreadBody.Obj? then Consume(msg, spread.consumed) else msg;
    var base := if spreadBody.Obj? && spread.value.Obj? then spread.value.members else [];
    var fields := Merge(base, msg2);
    if Truthy(isFormData) then Assembly(Some(Prepared(m, u, FormBody(fields))), msg2, Some(FormType))
    else Assembly(Some(Prepared(m, u, JsonBody(Obj(fields)))), msg2, Some(JsonType))
  }

  /** The headers after the call: `Content-Type` set when a body is sent. */
  function WithContentType(hs: seq<Member>, ct: Option<string>): seq<Member> {
    match ct
    case None => hs
    case Some(t) => Assign(hs, "Content-Type", Str(t))
  }

  /** index.js `exports.request`, lines 30-64: `headers` is the options'
      header object (`null` when it is falsy) and `msg` the message body
      object, both changed in place. */
  method AssembleRequest(verb: string, url: Json, headers: JsObject?, spreadBody: Json, isFormData: Json,
                         input: seq<Member>, msg: JsObject) returns (req: Option<Prepared>, hdrs: JsObject)
    requires msg.Valid() && (headers != null ==> headers.Valid() && headers != msg)
    modifies msg, headers
    ensures msg.Valid() && hdrs.Valid()
    ensures req == Assemble(verb, url, spreadBody, isFormData, input, old(msg.members)).request
    ensures msg.members == Assemble(verb, url, spreadBody, isFormData, input, old(msg.members)).msg
    ensures headers != null ==> hdrs == headers
    ensures headers == null ==> fresh(hdrs)
    ensures hdrs.members == WithContentType(if headers == null then [] else old(headers.members),
                                            Assemble(verb, url, spreadBody, isFormData, input, old(msg.members)).contentType)
  {
    var m := ToUpper(verb);
    if headers == null {
      hdrs := new JsObject();
    } else {
      hdrs := headers;
    }
    var u := ParseValue(url, input, msg);
    if m == "GET" {
      req := GetRequestOf(m, u, msg);
    } else {
      req := BodyRequestOf(m, u, spreadBody, isFormData, input, msg, hdrs);
    }
  }

  /** Lines 45-49: the query string from what is left of `msg`. */
  method GetRequestOf(m: string, url: Json, msg: JsObject) returns (req: Option<Prepared>)
    requires msg.Valid()
    ensures req == GetPart(m, url, msg.members)
  {
    var has := HasQuestion(url);
    if has.None? {
      return None;
    }
    var q := if has.value then url else Str(ToJsString(url) + "?");
    ghost var w := q;
    var ms := msg.members;
    for i := 0 to |ms|
      invariant q == AppendQuery(w, ms[..i])
    {
      LookupAt(ms, i);
      AppendQueryStep(w, ms, i);
      q := Str(ToJsString(q) + "&" + ms[i].key + "=" + ToJsString(msg.Prop(ms[i].key)));
    }
    assert ms[..|ms|] == ms;
    req := Some(Prepared(m, q, NoBody));
  }

  /** Lines 51-63: the body, templated from `spreadBody` and merged with
      what is left of `msg`, and its content type. */
  method BodyRequestOf(m: string, url: Json, spreadBody: Json, isFormData: Json, input: seq<Member>,
                       msg: JsObject, hdrs: JsObject) returns (req: Option<Prepared>)
    requires msg.Valid() && hdrs.Valid() && msg != hdrs
    modifies msg, hdrs
    ensures msg.Valid() && hdrs.Valid()
    ensures req == BodyPart(m, url, spreadBody, isFormData, input, old(msg.members)).request
    ensures msg.members == BodyPart(m, url, spreadBody, isFormData, input, old(msg.members)).msg
    ensures hdrs.members == WithContentType(old(hdrs.members), BodyPart(m, url, spreadBody, isFormData, input, old(msg.members)).contentType)
  {
    ghost var spread := Substitute(spreadBody, input);
    ghost var part := BodyPart(m, url, spreadBody, isFormData, input, msg.members);
    var body := Absent;
    if spreadBody.Obj? {
      body := ParseValue(spreadBody, input, msg);
    }
    assert msg.members == part.msg;
    var base := if body.Obj? then body.members else [];
    assert base == if spreadBody.Obj? && spread.value.Obj? then spread.value.members else [];
    var fields := Merge(base, msg.members);
    if Truthy(isFormData) {
      hdrs.Put("Content-Type", Str(FormType));
      req := Some(Prepared(m, url, FormBody(fields)));
    } else {
      hdrs.Put("Content-Type", Str(JsonType));
      req := Some(Prepared(m, url, JsonBody(Obj(fields))));
    }
  }

  // ---------------------------------------------------------------------
  // What the assembly promises

  /** The GET branch is taken exactly for `get` in any letter case: only
      then is no content type set. */
  lemma GetBranch(verb: string, url: Json, spreadBody: Json, isFormData: Json, input: seq<Member>, m0: seq<Member>)
    ensures Assemble(verb, url, spreadBody, isFormData, input, m0).contentType.None? <==>
      |verb| == 3 && verb[0] in "gG" && verb[1] in "eE" && verb[2] in "tT"
  {
    UpperIsGet(verb);
  }

  /** A GET request carries no body, puts the remaining `msg` properties in
      the query string, and fails only when the templated URL has no
      `indexOf`. */
  lemma GetRequest(verb: string, url: Json, spreadBody: Json, isFormData: Json, input: seq<Member>, m0: seq<Member>)
    requires ToUpper(verb) == "GET"
    ensures var a := Assemble(verb, url, spreadBody, isFormData, input, m0);
      var u := Substitute(url, input).value;
      && a.msg == Consume(m0, Substitute(url, input).consumed)
      && (a.request.None? <==> !u.Str? && !u.Arr?)
      && (u.Str? ==> a.request == Some(Prepared("GET", Str((if '?' in u.s then u.s else u.s + "?") + Query(a.msg)), NoBody)))
  {
    var u := Substitute(url, input).value;
    if u.Str? {
      GetUrlString(u.s, Consume(m0, Substitute(url, input).consumed));
    }
  }

  /** Outside GET, the method is upper-cased, the URL is the templated one,
      a form is sent exactly when `isFormData` is truthy, and the content
      type matches the body. */
  lemma BodyRequest(verb: string, url: Json, spreadBody: Json, isFormData: Json, input: seq<Member>, m0: seq<Member>)
    requires ToUpper(verb) != "GET"
    ensures var a := Assemble(verb, url, spreadBody, isFormData, input, m0);
      && a.request.Some?
      && a.request.value.verb == ToUpper(verb)
      && a.request.value.url == Substitute(url, input).value
      && (a.request.value.body.FormBody? <==> Truthy(isFormData))
      && (a.request.value.body.JsonBody? <==> !Truthy(isFormData))
      && a.contentType == Some(if Truthy(isFormData) then FormType else JsonType)
  {
  }

  /** The fields sent outside GET: every property left in `msg`, and the
      templated `spreadBody` where `msg` has no such property. */
  lemma BodyFields(verb: string, url: Json, spreadBody: Json, isFormData: Json, input: seq<Member>, m0: seq<Member>, k: string)
    requires ToUpper(verb) != "GET" && UniqueKeys(m0)
    ensures var a := Assemble(verb, url, spreadBody, isFormData, input, m0);
      var spread := Substitute(spreadBody, input).value;
      var base := if spreadBody.Obj? && spread.Obj? then spread.members else [];
      var fields := match a.request.value.body case FormBody(fs) => fs case JsonBody(v) => v.members case NoBody => [];
      && KeySet(fields) == KeySet(base) + KeySet(a.msg)
      && Lookup(fields, k) == if k in KeySet(a.msg) then Lookup(a.msg, k) else Lookup(base, k)
  {
    var a := Assemble(verb, url, spreadBody, isFormData, input, m0);
    var msg1 := Consume(m0, Substitute(url, input).consumed);
    ConsumeKeys(m0, Substitute(url, input).consumed);
    ConsumeKeys(msg1, Substitute(spreadBody, input).consumed);
    assert UniqueKeys(a.msg);
  }

  /** `spreadBody` is templated only when it is a plain object: otherwise
      it neither consumes `msg` properties nor contributes fields. */
  lemma SpreadOnlyObject(verb: string, url: Json, spreadBody: Json, isFormData: Json, input: seq<Member>, m0: seq<Member>)
    requires ToUpper(verb) != "GET" && !spreadBody.Obj?
    ensures var a := Assemble(verb, url, spreadBody, isFormData, input, m0);
      && a.msg == Consume(m0, Substitute(url, input).consumed)
      && a.request.value.body == (if Truthy(isFormData) then FormBody(Merge([], a.msg)) else JsonBody(Obj(Merge([], a.msg))))
  {
  }

  /** A `msg` property consumed by the URL template, or by the `spreadBody`
      template, is no longer in `msg`, so it is not sent a second time in
      the query string or the body; every other property stays. */
  lemma ConsumedNotResent(verb: string, url: Json, spreadBody: Json, isFormData: Json, input: seq<Member>, m0: seq<Member>, k: string)
    requires UniqueKeys(m0)
    ensures var a := Assemble(verb, url, spreadBody, isFormData, input, m0);
      var used := Substitute(url, input).consumed +
        (if ToUpper(verb) != "GET" && spreadBody.Obj? then Substitute(spreadBody, input).consumed else {});
      k in KeySet(a.msg) <==> k in KeySet(m0) && !(k in used && Truthy(Lookup(m0, k)))
  {
    var c1 := Substitute(url, input).consumed;
    var c2 := Substitute(spreadBody, input).consumed;
    var msg1 := Consume(m0, c1);
    ConsumeKeySet(m0, c1, k);
    if ToUpper(verb) != "GET" && spreadBody.Obj? {
      ConsumeKeys(m0, c1);
      ConsumeKeySet(msg1, c2, k);
      ConsumeLookup(m0, c1, k);
      ConsumeTwice(m0, c1, c2);
    }
  }

  /** Which properties consuming leaves. */
  lemma {:induction false} ConsumeKeySet(ms: seq<Member>, names: set<string>, k: string)
    requires UniqueKeys(ms)
    ensures k in KeySet(Consume(ms, names)) <==> k in KeySet(ms) && !(k in names && Truthy(Lookup(ms, k)))
  {
    if ms != [] {
      KeySetSplit(ms);
      ConsumeKeySet(ms[1..], names, k);
      var rest := Consume(ms[1..], names);
      if ms[0].key in names && Truthy(ms[0].value) {
        assert Consume(ms, names) == rest;
      } else {
        assert Consume(ms, names) == [ms[0]] + rest;
        KeySetConsKeys(ms[0], rest);
      }
      if ms[0].key == k {
        LookupMissing(ms[1..], k);
      }
    }
  }

  // ---------------------------------------------------------------------
  // genSelectViewOptions and genMetadata

  /** `schemaPath ? deepSearch(body, schemaPath) : body` */
  function SchemaOf(body: Json, schemaPath: Json): Json {
    if Truthy(schemaPath) then Resolve(body, schemaPath) else body
  }

  /** What `for (obj of schema)` visits: the elements of an array (a hole
      as `undefined`), the characters of a string; anything else is not
      iterable and the loop throws. */
  function Iterated(v: Json): (r: Option<seq<Json>>)
    ensures r.Some? <==> v.Arr? || v.Str?
    ensures v.Arr? ==> r == Some(v.elems)
  {
    match v
    case Arr(es) => Some(es)
    case Str(s) => Some(seq(|s|, j requires 0 <= j < |s| => Str([s[j]])))
    case _ => None
  }

  /** `for…of` and `for…in` visit the same values of a string, and of an
      array without holes; on an array with holes `for…of` also visits
      each hole, as `undefined`. */
  lemma ForOfForIn(v: Json)
    ensures v.Str? ==> Iterated(v) == Some(Items(v))
    ensures v.Arr? && Absent !in v.elems ==> Iterated(v) == Some(Items(v))
    ensures v.Arr? && Absent in v.elems ==> |Items(v)| < |Iterated(v).value|
  {
    ForInValues(v);
    if v.Arr? && Absent in v.elems {
      HolesShorten(v.elems);
    }
  }

  /** `result[deepSearch(obj, valuePath)] = deepSearch(obj, titlePath)`:
      the key is the value as a property name. */
  function OptionOf(item: Json, valuePath: Json, titlePath: Json): Member {
    Member(ToJsString(Resolve(item, valuePath)), Resolve(item, titlePath))
  }

  function OptionSteps(items: seq<Json>, valuePath: Json, titlePath: Json, n: nat): (r: seq<Option<Member>>)
    requires n <= |items|
    ensures |r| == n && forall j :: 0 <= j < n ==> r[j] == Some(OptionOf(items[j], valuePath, titlePath))
  {
    seq(n, j requires 0 <= j < n => Some(OptionOf(items[j], valuePath, titlePath)))
  }

  /** The `result` object after the first `n` items. */
  function Options(items: seq<Json>, valuePath: Json, titlePath: Json, n: nat): seq<Member>
    requires n <= |items|
  {
    AssignSome(OptionSteps(items, valuePath, titlePath, n))
  }

  /** What `genSelectViewOptions` returns for a response body, or `None`
      when the schema is not iterable. */
  function SelectView(body: Json, schemaPath: Json, valuePath: Json, titlePath: Json): Option<Json> {
    match Iterated(SchemaOf(body, schemaPath))
    case None => None
    case Some(items) => Some(Obj(Options(items, valuePath, titlePath, |items|)))
  }

  /** One more item: its assignment on the options so far. */
  lemma OptionsStep(items: seq<Json>, valuePath: Json, titlePath: Json, i: nat)
    requires i < |items|
    ensures Options(items, valuePath, titlePath, i + 1) ==
      Assign(Options(items, valuePath, titlePath, i), ToJsString(Resolve(items[i], valuePath)), Resolve(items[i], titlePath))
  {
    AssignSomeExtend(OptionSteps(items, valuePath, titlePath, i + 1), OptionSteps(items, valuePath, titlePath, i),
                     Some(OptionOf(items[i], valuePath, titlePath)));
  }

  /** index.js lines 147-151. */
  method GenSelectViewOptions(body: Json, schemaPath: Json, valuePath: Json, titlePath: Json) returns (r: Option<Json>)
    ensures r == SelectView(body, schemaPath, valuePath, titlePath)
  {
    var schema := body;
    if Truthy(schemaPath) {
      schema := DeepSearch(body, schemaPath);
    }
    var it := Iterated(schema);
    if it.None? {
      return None;
    }
    var result := CollectOptions(it.value, valuePath, titlePath);
    r := Some(Obj(result));
  }

  /** The `for…of` loop filling `result`. */
  method CollectOptions(items: seq<Json>, valuePath: Json, titlePath: Json) returns (ms: seq<Member>)
    ensures ms == Options(items, valuePath, titlePath, |items|)
  {
    var result := new JsObject();
    for i := 0 to |items|
      invariant result.Valid()
      invariant result.members == Options(items, valuePath, titlePath, i)
    {
      CollectOption(result, items, valuePath, titlePath, i);
    }
    ms := result.members;
  }

  /** One pass of that loop. */
  method CollectOption(result: JsObject, items: seq<Json>, valuePath: Json, titlePath: Json, i: nat)
    requires i < |items| && result.Valid() && result.members == Options(items, valuePath, titlePath, i)
    modifies result
    ensures result.Valid() && result.members == Options(items, valuePath, titlePath, i + 1)
  {
    var value := DeepSearch(items[i], valuePath);
    var title := DeepSearch(items[i], titlePath);
    result.Put(ToJsString(value), title);
    OptionsStep(items, valuePath, titlePath, i);
  }

  /** The options have one property per distinct value, and no other. */
  lemma OptionKeys(items: seq<Json>, valuePath: Json, titlePath: Json, k: string)
    ensures var os := Options(items, valuePath, titlePath, |items|);
      && UniqueKeys(os)
      && (k in KeySet(os) <==> exists j :: 0 <= j < |items| && ToJsString(Resolve(items[j], valuePath)) == k)
  {
    var cs := OptionSteps(items, valuePath, titlePath, |items|);
    AssignSomeKeys(cs, k);
    if k in KeySet(AssignSome(cs)) {
      var j :| 0 <= j < |cs| && cs[j].Some? && cs[j].value.key == k;
      assert ToJsString(Resolve(items[j], valuePath)) == k;
    }
    if exists j :: 0 <= j < |items| && ToJsString(Resolve(items[j], valuePath)) == k {
      var j :| 0 <= j < |items| && ToJsString(Resolve(items[j], valuePath)) == k;
      assert cs[j].Some? && cs[j].value.key == k;
    }
  }

  /** Of several items with the same value, the last one gives the title. */
  lemma OptionLastWins(items: seq<Json>, valuePath: Json, titlePath: Json, j: nat)
    requires j < |items|
    requires forall l :: j < l < |items| ==>
      ToJsString(Resolve(items[l], valuePath)) != ToJsString(Resolve(items[j], valuePath))
    ensures Lookup(Options(items, valuePath, titlePath, |items|), ToJsString(Resolve(items[j], valuePath))) ==
      Resolve(items[j], titlePath)
  {
    var cs := OptionSteps(items, valuePath, titlePath, |items|);
    forall l | j < l < |cs| && cs[l].Some?
      ensures cs[l].value.key != cs[j].value.key
    {
    }
    AssignSomeLast(cs, j);
  }

  /** index.js lines 203-207: the compiled metadata under `in`. */
  method GenMetadata(body: Json, schemaPath: Json, p: Paths, exclude: seq<Json>, wrap: Json) returns (r: Json)
    ensures r == Obj([Member("in", Compile(SchemaOf(body, schemaPath), p, exclude, wrap))])
  {
    var schema := body;
    if Truthy(schemaPath) {
      schema := DeepSearch(body, schemaPath);
    }
    var metadata := SchemaToMetadata(schema, p, exclude, wrap);
    r := Obj([Member("in", metadata)]);
  }
}
