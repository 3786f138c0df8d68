# A verified model of the template and metadata core of an elastic.io request helper

The repository is a small Node.js library for building elastic.io
components. Its handlers do four things:

- `request` assembles and sends an HTTP call from a set of options.
- `genSelectViewOptions` turns a remote list into select-view options.
- `genMetadata` turns a remote schema into the platform's dynamic metadata.
- Their shared helpers live in `tools/index.js`:
  - `deepSearch` resolves a dotted path such as `a.b[0].c`.
  - `parseValue` fills `{name}` and `{{name}}` templates from an input object. It also deletes the names it used from the caller's `msg` body (the `flowData` argument).
  - `schemaToMetadata` compiles a schema into the metadata tree.
  - `safeJsonParse` decodes a response body, or falls back to the text.

This project models that core in Dafny and proves what it computes.

**Values.** A JavaScript value is the datatype `Json` (`json.dfy`):
- `Absent` (for `undefined` and array holes), `Null`, booleans, integers, strings, arrays, and objects as ordered sequences of properties.
- `Truthy`, `Or` and `ToJsString` give JavaScript truthiness, the `||` operator and `String(v)`.
- `Assign`, `Remove` and `Merge` give `obj[k] = v`, `delete obj[k]` and lodash `merge` at the top level.

**Mutable objects.** The objects the code mutates in place are instances of the class `Json.JsObject`:
- the `flowData`/`msg` body,
- the request headers,
- the `metadata` and `result` objects that the loops fill.

**Methods and specifications.** Each loop of the source is a method with its loop invariants, proved against a specification function:
- `DeepSearch` against `Resolve`.
- `ParseValue` against `Substitute`, a value plus the set of consumed names, and `Consume`, the new `flowData`.
- `SchemaToMetadata` against `Compile`.
- `AssembleRequest` against `Assemble`.
- `GenSelectViewOptions` against `SelectView`.

The laws in `template_laws.dfy`, `metadata_laws.dfy` and `request.dfy` then state what those functions promise.

**Modules.**
- `Json`: values, properties, truthiness, object updates.
- `Strings`: `split`, `toUpperCase`, `substring`.
- `PathResolver`: `deepSearch`.
- `Templates` and `TemplateLaws`: `parseValue`.
- `Metadata` and `MetadataLaws`: `schemaToMetadata`.
- `Request`: the synchronous parts of the three handlers in `index.js` and `safeJsonParse`.

**Behaviour of the code worth knowing.**

- **Type test.** A metadata node's type is tested with `type === 'string' || 'boolean' || …`. That chain is always true, so the declared type is copied as it is, `undefined` and `""` included (`Metadata.TypeField`).
- **Exclusion in nested levels.** The recursive call at `tools/index.js:83` passes `exclude` on to the nested properties and does not pass `wrap` (`MetadataLaws.NestedEntry`).
- **Title and required flag.** They fall back to the name and to `false` whenever the resolved value is falsy, not only when it is missing.
- **Placeholders.** Both placeholder expressions accept only word characters between the braces. A brace, a word and then anything but a word character or `}`, such as `{name/sep}` or `{x?yes}`, is left as text (`TemplateLaws.OtherBracesStay`). The `{w}` holes after it are filled as usual (`TemplateLaws.OtherBracesBeforeHoles`).
- **`{{name}}` lookup.** The name of a `{{name}}` match is cut with the length of the whole string rather than of the match. In a string longer than the match, one or both closing braces leak into the name (`TemplateLaws.StrictNameLeak`).
- **`msg = {}` in the GET branch.** The assignment at `index.js:48` only rebinds the local variable. The caller's body object keeps the properties the URL templating left in it, which is the `msg` that `Request.AssembleRequest` ends with.
- **Thrown errors.** The model shows two thrown JavaScript errors as `None`: a templated URL with no `indexOf` (`Request.GetRequest`) and a schema that is not iterable (`Request.SelectView`). The other ways the source can throw are listed under "Left out".

## Model

| member | source | states |
|---|---|---|
| Json.FalsyValues | tools/index.js:39 | The falsy values are exactly `undefined`, `null`, `false`, `0` and `""`. |
| Json.Or | tools/index.js:33 | `a \|\| b` is one of its operands: the left one when it is truthy. It is truthy exactly when one of its operands is. |
| Json.Get | tools/index.js:15 | `v[k]` reads property `k` of an object, and element `k` of an array when `k` is the numeral of a position inside it. Anything else reads `undefined`. A value found is strictly inside `v`. |
| Json.ArrayIndexRoundTrip | tools/index.js:54 | The numeral `for…in` gives for array position `n` denotes position `n` again. So `output[i] = value` on an array writes element `i`. |
| Json.NumberKey | index.js:150 | Used as a property name, a non-negative number `n` denotes array position `n`, and a string denotes itself. |
| Json.JoinElemsSplit | index.js:47 | `String(a)` of a non-empty array of strings without commas joins them with `,`: splitting the text on `,` gives the strings back. |
| Json.Assign | tools/index.js:80 | `obj[k] = v`: the property reads `v` and every other property is unchanged. The key set gains `k` and keys stay unique. A new key goes last. |
| Json.AssignTwice | tools/index.js:80-89 | A second assignment to the same property replaces the first. Nothing of `metadata[name] = {}` survives. |
| Json.Remove | tools/index.js:34 | `delete obj[k]`: `k` reads `undefined`, every other property is unchanged, and the key set loses exactly `k`. |
| Json.Merge | index.js:57 | Top-level `merge(dst, src)`: every key of `src` reads its `src` value, every other key its `dst` value. The key set is the union and keys stay unique. |
| Json.AssignSomeKeys | tools/index.js:74-90 | After a loop of assignments on a fresh object, the keys are exactly those of the assignments made, each once. |
| Json.AssignSomeLast | tools/index.js:74-90 | After such a loop, a key holds the value of the last assignment to it. |
| Json.JsObject.Put | tools/index.js:80 | The in-place assignment: the new properties are `Assign` of the old ones. |
| Json.JsObject.Delete | tools/index.js:34 | The in-place `delete`: the new properties are `Remove` of the old ones. |
| Json.JsObject.constructor | tools/index.js:72 | `{}`: an object with no properties. |
| Strings.Split | tools/index.js:11-14 | `split` yields at least one piece, and no piece contains a separator. |
| Strings.JoinSplit | tools/index.js:11 | Splitting a path on `.` loses nothing: joining the steps gives the path back. |
| Strings.SplitAround | tools/index.js:11 | Splitting `p.q` gives the steps of `p` followed by those of `q`. |
| Strings.SplitNoSeparator | tools/index.js:14 | A step without brackets splits into itself alone. |
| Strings.Substring | tools/index.js:32 | `substring(start, end)` with both indices in range is the part between them, the two taken in either order. It never yields more than the string it cuts. |
| Strings.SubstringClamp | tools/index.js:32 | A negative index counts as 0 and one past the end as the length. Swapping the two indices changes nothing. |
| Strings.ToUpper | index.js:35 | `toUpperCase` keeps the length and upper-cases each ASCII letter in place. |
| Strings.UpperIsGet | index.js:45 | A method upper-cases to `GET` exactly when it is `get` in some letter case. |
| PathResolver.DeepSearch | tools/index.js:9-22 | The loop returns `Resolve(obj, path)`: each step is applied in order to what the previous steps found. A path that is not a string gives `undefined`. |
| PathResolver.ResolveConcat | tools/index.js:11-16 | Resolving `p.q` is resolving `q` inside what `p` resolves to. |
| PathResolver.ResolveName | tools/index.js:15 | A plain name looks up that property. |
| PathResolver.ResolveIndexed | tools/index.js:14-15 | `name[index]` takes property `name`, then its element or property `index`. |
| PathResolver.ParseStep | tools/index.js:14 | `[name, index]` of a step: neither part contains a bracket, and a step without brackets is all name, with no index. |
| PathResolver.ParseStepIgnoresTail | tools/index.js:14 | Only the first bracketed index of a step counts: `a[1][2]` and `a[1]x` both mean index 1 of `a`. |
| PathResolver.ParseStepEmptyIndex | tools/index.js:14-15 | For every plain name `n` and any tail, the empty index of `n[]…` is no index: the step is property `n` alone. |
| PathResolver.ParseStepNoName | tools/index.js:14 | For every plain index `i` and any tail, `[i]…` takes index `i` of the property `""`. |
| PathResolver.WalkStuck | tools/index.js:15-20 | Once the walk reaches a value that is neither object nor array, every further step gives `undefined`. The thrown error and the catch both give `undefined`. |
| PathResolver.ResolveThroughFailure | tools/index.js:9-21 | When `p` leads to no object or array, `p.q` is `undefined`. |
| PathResolver.ResolveShrinks | tools/index.js:9-22 | What a path finds is `undefined` or strictly inside the value searched. So the recursion into nested properties ends. |
| Templates.WordEnd | tools/index.js:30 | The run of `\w` characters from a position, and that it is maximal. |
| Templates.FindStrict | tools/index.js:30 | The leftmost `{{\w+}}` match at or after a position: when there is one, it is a real match and no match starts before it. When there is none, no position from there on matches. |
| Templates.SetAt | tools/index.js:54 | `output[i] = value` past the end of an array: the array grows to `i + 1`, keeps its prefix and holds `value` at `i`. The positions in between are holes. |
| Templates.ConsumeTwice | tools/index.js:51 | Deleting from `flowData` in two calls is deleting the union once. |
| Templates.ConsumeKeys | tools/index.js:34 | Deleting from `flowData` only removes properties and keeps keys unique. |
| Templates.ConsumeLookup | tools/index.js:34 | After deleting, a used name with a truthy value reads `undefined` and every other property reads as before. |
| Templates.DeleteIfTruthy | tools/index.js:34 | `if (flowData[k]) delete flowData[k]` is consuming `k`. |
| Templates.ConsumeName | tools/index.js:34 | The in-place deletion of one used name. |
| Templates.ParseValue | tools/index.js:24-68 | The output is `Substitute(schema, input).value`. `flowData` afterwards is the old one with every consumed name holding a truthy value removed. |
| Templates.ParseString | tools/index.js:29-47 | The same for a string template, through both the `{{name}}` branch and the `{name}` branch. |
| Templates.ReplacePlaceholders | tools/index.js:37-44 | The `replace` scan produces `InterpolateFrom(s, 0)`. Each placeholder with a truthy value deletes its name from `flowData`. |
| Templates.ParseArray | tools/index.js:49-59 | The array loop produces the substituted array. `flowData` loses the names its elements consumed, in order. |
| Templates.ParseObject | tools/index.js:49-59 | The object loop produces the substituted object. `flowData` loses the names its properties consumed, in order. |
| TemplateLaws.StrictWhole | tools/index.js:30-34 | A string that is exactly `{{w}}` yields `input[w]` itself (an object or array too) when it is truthy, else `null`. The name is consumed only in the first case. |
| TemplateLaws.StrictNameLeak | tools/index.js:30-33 | For every string with a `{{w}}` match that is longer than the match, the name looked up is `w` followed by `}` when the string has exactly one more character than the match, and by `}}` otherwise, because the cut uses the length of the whole string. The value is that property of the input, or `null`. |
| TemplateLaws.StrictNameCut | tools/index.js:32 | The same cut, for any `{{w}}` match in a longer string. |
| TemplateLaws.StrictNameQuirk | tools/index.js:32 | For instance, in `"a{{x}}"` the name looked up is `"x}"`. |
| TemplateLaws.InterpolationForm | tools/index.js:37-45 | Read a template as text and `{w}` holes, where no literal `{` opens a `{w}` match in the text from it on, so `{x/,}` or `{a-b}` may stand as text. When it has no `{{w}}` match, it yields its text with each hole replaced by the input value, or by nothing when that value is falsy. An empty result is `null`. The names consumed are the truthy ones among its holes. |
| TemplateLaws.BraceFreeNoStrict | tools/index.js:30 | A template whose text holds no `{` has no `{{w}}` match. |
| TemplateLaws.StrictHasPlaceholder | tools/index.js:30-37 | Every `{{w}}` match contains a `{w}` match one position later. |
| TemplateLaws.NoPlaceholder | tools/index.js:30-45 | A string in which no `{w}` matches comes back unchanged and consumes nothing, except that `""` becomes `null`. |
| TemplateLaws.OtherBraceForm | tools/index.js:37 | In `{w` followed by a `t` that starts with neither a word character nor `}` and holds no `{`, no `{w}` match opens, whatever text comes after. |
| TemplateLaws.OtherBracesStay | tools/index.js:30-45 | Every such form comes back as it is and consumes nothing. |
| TemplateLaws.OtherBracesInstances | tools/index.js:30-45 | For instance, `{x/,}` and `{x?yes}` come back as they are and consume nothing. |
| TemplateLaws.TextRun | tools/index.js:37-44 | The `replace` scan copies a run of characters at none of which a `{w}` match opens. |
| TemplateLaws.TextRunNames | tools/index.js:37-44 | The scan meets no placeholder name in such a run. |
| TemplateLaws.OtherBracesBeforeHoles | tools/index.js:30-45 | Such a form in front of a template of text and holes with no `{{w}}` match stays as it is, while the holes after it are filled and their truthy names consumed. |
| TemplateLaws.Scalars | tools/index.js:26-28 | A number, boolean, `null` or `undefined` template yields `null` and consumes nothing. |
| TemplateLaws.ResultNullOrTruthy | tools/index.js:26-62 | The result is always `null` or truthy, never another falsy value. |
| TemplateLaws.SubstElemsKept | tools/index.js:50-56 | After `n` elements, the array is their truthy results at their own positions, holes elsewhere, with no trailing holes. |
| TemplateLaws.ArrayShape | tools/index.js:50-56 | An array template is `null` exactly when no element's result is truthy. Otherwise it is an array no longer than the template, ending in a real element. |
| TemplateLaws.ArrayPositions | tools/index.js:50-56 | Each truthy element result sits at its own index. Every other index is a hole or past the end. |
| TemplateLaws.SubstMembersKept | tools/index.js:50-56 | After `n` properties, the object holds those of them with a truthy result, in order. |
| TemplateLaws.ObjectResult | tools/index.js:50-56 | An object template is `null` when no property's result is truthy. Otherwise it holds exactly those properties, in order, with their results. |
| TemplateLaws.KeepMembersLookup | tools/index.js:52-54 | Property `k` of the template reads its result in the output when that result is truthy, else `undefined`. |
| TemplateLaws.ConsumedAreTruthy | tools/index.js:34-40 | Only names whose input value is truthy are ever consumed. |
| TemplateLaws.FlowAfter | tools/index.js:34-40 | After a call, `flowData` keeps unique keys. A property changes only by being deleted, and only when the template used its name and the input value is truthy. |
| Metadata.IndexOf | tools/index.js:79 | `exclude.indexOf(name)` is a strictly-equal position with no strictly-equal position before it. It is -1 exactly when there is none. |
| Metadata.TypeField | tools/index.js:86 | The type test always passes, so the declared type is copied as it is. |
| Metadata.NonHoles | tools/index.js:74 | Over an array, `for…in` visits exactly the entries that are not holes, and no more of them than the array has. |
| Metadata.NonHolesConcat | tools/index.js:74 | The holes are dropped where they stand, so the entries keep their order: the visits of `a + b` are those of `a`, then those of `b`. |
| Metadata.ForInValues | tools/index.js:74 | `for…in` visits an array's entries that are not holes (all of them when there is none), an object's values in order, a string's characters one by one, and nothing in any other value. |
| Metadata.FieldsStep | tools/index.js:74-90 | One more schema node adds its assignment, or nothing when its name is excluded. |
| Metadata.FieldsKept | tools/index.js:80-89 | `metadata[name] = {}` followed by `metadata[name] = entry` is exactly the node's assignment. |
| Metadata.SchemaToMetadata | tools/index.js:70-111 | The loop fills a fresh `metadata` object and returns `Compile(schema, …)`. |
| Metadata.VisitNode | tools/index.js:75-90 | One loop iteration moves `metadata` from the assignments of the first `i` nodes to those of the first `i + 1`. |
| Metadata.NodeEntry | tools/index.js:81-89 | The value stored for a node is its entry: the recursively compiled nested properties, or the leaf description. |
| MetadataLaws.Keys | tools/index.js:74-91 | `metadata` has an entry exactly for the names of the nodes that are not excluded, each name once. |
| MetadataLaws.LastWins | tools/index.js:79-89 | Of several nodes with the same name, the last one not excluded gives the entry. |
| MetadataLaws.LeafEntry | tools/index.js:85-89 | A node without nested properties gets its type as is. Its title falls back to its name and its required flag to `false`, each when falsy. |
| MetadataLaws.NestedEntry | tools/index.js:81-84 | A node with truthy nested properties gets them compiled with the same `exclude` and no `wrap`: an object envelope. |
| MetadataLaws.UnwrappedEnvelope | tools/index.js:102-105 | Without a string `wrap`, the entries are at `properties` and the type is `object`. |
| MetadataLaws.WrappedEnvelope | tools/index.js:92-101 | With a string `wrap`, the entries are at `properties.<wrap>.properties`, and that level has type `object` and title `wrap`. |
| Request.SafeJsonParse | tools/index.js:1-7 | The decoded value when the text decodes, else the text itself as a string. |
| Request.Payload | index.js:74 | `safeJsonParse(body) \|\| 'NO MESSAGE'` is always truthy. It is `"NO MESSAGE"` exactly when the decoded value is falsy or is that string. |
| Request.PayloadUndecodable | tools/index.js:1-7 | A body the decoder rejects is the payload as text, unless it is empty. |
| Request.PreparedData | index.js:71-75 | The result has exactly `requestUrl`, `statusCode` and `payload`, holding the response's values and the payload. Lines 85-89 build the same object. |
| Request.HasQuestion | index.js:46 | `url.indexOf('?') != -1`: on a string, whether some character is `?`; on an array, whether `indexOf` finds the string `"?"`. Any other value has no `indexOf`. |
| Request.GetUrlString | index.js:46-47 | A string URL keeps its text. It gains `?` only when it has none, then the query. |
| Request.QueryDecodes | index.js:47 | The query reads back as the `prop=value` pairs of `msg`, in order, when no name or value contains `&`. |
| Request.AssembleRequest | index.js:30-64 | The method upper-cases the verb and templates the URL, consuming `msg`. It then takes the GET branch or the body branch. The request and the new `msg` are those of `Assemble`. The headers are the given object, or a fresh `{}` when falsy, with `Content-Type` set as `Assemble` says. |
| Request.GetRequestOf | index.js:45-49 | The query loop appends `&prop=value` for each remaining `msg` property to the URL, with `?` added if missing. It fails like `indexOf`. |
| Request.BodyRequestOf | index.js:51-63 | The body branch templates a plain-object `spreadBody` and merges the rest of `msg` over it. It sends the result as a form or as JSON and sets the matching `Content-Type`. |
| Request.GetBranch | index.js:35-45 | No content type is set exactly when the method is some letter case of `get`. |
| Request.GetRequest | index.js:45-49 | A GET carries no body and leaves `msg` as the URL template left it. It fails exactly when the templated URL is neither string nor array. The formula gives the URL of a string URL. |
| Request.BodyRequest | index.js:35-63 | Outside GET, the request always exists, with the upper-cased method and the templated URL. It is a form exactly when `isFormData` is truthy, and the content type matches. |
| Request.BodyFields | index.js:57-61 | The fields sent are the keys of the templated `spreadBody` and of the rest of `msg`. A `msg` property takes precedence. |
| Request.SpreadOnlyObject | index.js:51-53 | A `spreadBody` that is not a plain object neither consumes `msg` nor contributes fields. |
| Request.ConsumedNotResent | index.js:44-61 | A `msg` property stays exactly when neither the URL template nor the `spreadBody` template used it with a truthy value. So a property used by the template is not sent again. |
| Request.GenSelectViewOptions | index.js:147-151 | The handler returns `SelectView`: the options built from the schema found at `schemaPath`, or `None` when it is not iterable. |
| Request.Iterated | index.js:150 | `for…of` runs exactly over arrays and strings. Over an array it visits every element, holes included. |
| Request.ForOfForIn | index.js:150 | On a string, and on an array without holes, `for…of` visits what `for…in` visits. On an array with holes it visits more. |
| Request.CollectOptions | index.js:149-151 | The `for…of` loop fills `result` with the assignment of every item in order. |
| Request.OptionsStep | index.js:150 | Each item assigns its title under its value as a key. |
| Request.OptionKeys | index.js:150 | The options have one property per distinct item value, and no other. |
| Request.OptionLastWins | index.js:150 | Of several items with the same value, the last one gives the title. |
| Request.GenMetadata | index.js:203-207 | The handler returns the compiled metadata of the schema found at `schemaPath`, under `in`. |

## Left out

- **Network, callbacks and logging.** The HTTP call (`got`), the authorisation callback and its header, the event emitter and all logging are not modelled. The response's `requestUrl`, `statusCode` and `body` are parameters.
- **`JSON.parse`.** It is the `decode` parameter of `Request.SafeJsonParse`, with `None` for a text it rejects.
- **`JSON.stringify` of the body.** The JSON body is modelled as the object to be stringified (`JsonBody`).
- **How `input` is built.** The `merge({}, arguments[0], arguments[1], spreadInput)` at `index.js:32` is not modelled: `input` is a parameter.
- Json.Merge: models lodash `merge` only at the top level. It does not merge nested objects recursively, and it does not skip `undefined` source values as lodash does.
- **Error handling.** The error classification at `index.js:79-97` is not modelled. A thrown error is modelled only as an absent result (`None`).
- **Numbers.** They are integers. Fractions, `NaN` and the floating-point formatting of `String(n)` are not modelled.
- **Built-in and inherited properties.** The model sees only an object's own properties and an array's elements. Everything else reads `undefined`:
  - lookups on primitive values (`"abc".length`);
  - character lookups on strings: `"ab"["0"]` is `"a"` in JavaScript and `undefined` in the model, so `deepSearch({s: "abc"}, "s[0]")` gives `"a"` there and `undefined` here. The model's termination (`PathResolver.ResolveShrinks`, the `decreases` of `Metadata.Compile`) rests on this. In the source, `schemaToMetadata` on a string schema with `propsPath` `"0"` recurses without end at `tools/index.js:81-83`, since each character's `"0"` is that character again; it ends in a `RangeError` that the `catch` logs and rethrows;
  - an array's `length` (the path `items.length`);
  - inherited or built-in members such as `constructor`, `toString` and `__proto__`.
  In JavaScript these give a number or a function. So `{{constructor}}` yields a truthy function there, and `null` in the model.
- **`method.toUpperCase()`.** The model takes the method as a string. When `method` is missing or is not a string, `index.js:35` throws; that case is not modelled.
- **Key order.** `for…in` visits properties in insertion order in the model.
  - JavaScript first visits integer-like keys in ascending order; that reordering is not modelled.
  - The same applies to the order in which `for (let i in output)` and the query loop visit properties.
- Strings.ToUpper: upper-cases ASCII letters only.
- Metadata.IndexOf: treats an array or object in `exclude` as never strictly equal to a name: identity is not modelled. A non-array `exclude` is not modelled. Holes and `undefined` are both `Absent`, so a hole in `exclude` matches an `undefined` name, whereas JavaScript's `indexOf` skips holes (`[,].indexOf(undefined)` is -1); a JSON-decoded `exclude` has no holes.
- **Deleting `null` entries.** The loop at `tools/index.js:57-59` is modelled as no change. `TemplateLaws.ResultNullOrTruthy` shows that no stored value is ever `null`.
- **`msg` from a truthy non-object body.** When `arguments[0].body` is a truthy value that is not an object, `msg` is that value; the model only covers a `msg` that is an object. Headers given as a truthy non-object, and a `headers` object that is the same object as `msg`, are also not modelled.
- **`for (obj of schema)`.** It assigns an undeclared global `obj`; that side effect is not modelled.
- **String indexing.** Strings are sequences of Unicode characters. JavaScript measures and cuts strings (`length`, `substring`) in UTF-16 code units, which differ for characters outside the Basic Multilingual Plane; that difference is not modelled.
- **URL templating in the two generators.** In `genSelectViewOptions` and `genMetadata` the templated URL (`index.js:142`, `index.js:200`) only feeds the network call, which is not modelled.
- **Exceptions inside the helpers.** The source can throw inside `parseValue` and `schemaToMetadata`, for example on a cyclic value or a getter; the model has no such values.
- TemplateLaws.ObjectResult: requires unique property names in the template, as every JavaScript object has.
- TemplateLaws.FlowAfter: requires unique property names in `flowData`, as every JavaScript object has.
