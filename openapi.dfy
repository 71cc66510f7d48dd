/**
 * The OpenAPI 3.1 fragments both schema processors build the same way:
 * Parameter Objects (section 4.8.12 of OpenAPI 3.1.0) for query fields and
 * path entries, the array-items rule for list bodies, and the
 * `application/json` media content wrapper.
 */
module OpenApi {
  import opened Results
  import opened Json
  import opened Inputs

  // ---------------------------------------------------------------------
  // Shared JSON Schema fragments
  // ---------------------------------------------------------------------

  /** The `items` of a translated list body: the single translated argument, else `anyOf` all of them. */
  function ItemsSchema(parsed: seq<Json>): (r: Json)
    ensures |parsed| == 1 ==> r == parsed[0]
    ensures |parsed| != 1 ==> r == Single("anyOf", JArray(parsed))
  {
    if |parsed| == 1 then parsed[0] else Single("anyOf", JArray(parsed))
  }

  /** `{"type": "array", "items": items}`. */
  function ArraySchema(items: Json): Json {
    JObject([("type", JString("array")), ("items", items)])
  }

  /** `{"content": {"application/json": {"schema": schema}}}`. */
  function MediaContent(schema: Json): Json {
    Single("content", Single("application/json", Single("schema", schema)))
  }

  /** The schema a media content wrapper carries. */
  function ContentSchema(j: Json): Option<Json> {
    match Member(j, "content")
    case None => None
    case Some(c) =>
      match Member(c, "application/json")
      case None => None
      case Some(a) => Member(a, "schema")
  }

  lemma ContentSchemaOf(schema: Json)
    ensures ContentSchema(MediaContent(schema)) == Some(schema)
  {
  }

  /** An optional string as JSON: the text, or `null`. */
  function OptString(s: Option<string>): Json {
    match s
    case None => JNull
    case Some(t) => JString(t)
  }

  // ---------------------------------------------------------------------
  // Query parameters
  // ---------------------------------------------------------------------

  /**
   * The `schema` of the query parameter for one property: an array with its
   * items, else the `anyOf`, else the `type` (with `enum` only in the newer
   * processor), else `{}`.
   */
  function FieldSchema(info: Json, withEnum: bool): Json {
    if Member(info, "type") == Some(JString("array")) then
      ArraySchema(MemberOr(info, "items", JObject([])))
    else if HasMember(info, "anyOf") then
      Single("anyOf", Member(info, "anyOf").value)
    else if HasMember(info, "type") then
      if withEnum then JObject([("type", Member(info, "type").value), ("enum", MemberOr(info, "enum", JNull))])
      else Single("type", Member(info, "type").value)
    else
      JObject([])
  }

  /** The query Parameter Object for property `name` described by `info`. */
  function QueryParam(name: string, info: Json, required: seq<Json>, withEnum: bool): Json {
    QueryParamWith(name, info, required, FieldSchema(info, withEnum))
  }

  /** The query Parameter Object for property `name` with the given schema. */
  function QueryParamWith(name: string, info: Json, required: seq<Json>, schema: Json): Json {
    JObject([
      ("name", JString(name)),
      ("in", JString("query")),
      ("schema", schema),
      ("default", MemberOr(info, "default", JNull)),
      ("description", MemberOr(info, "title", JString(name + " query parameter"))),
      ("required", JBool(JString(name) in required))
    ])
  }

  /** A property that is a reference to another model is skipped. */
  predicate IsRef(info: Json) {
    HasMember(info, "$ref")
  }

  /** `_process_properties`: one parameter per property that is not a reference, in property order. */
  function QueryParams(props: Dict<string, Json>, required: seq<Json>, withEnum: bool): seq<Json>
    decreases |props|
  {
    if |props| == 0 then []
    else
      var (name, info) := props[|props| - 1];
      QueryParams(props[..|props| - 1], required, withEnum) +
        (if IsRef(info) then [] else [QueryParam(name, info, required, withEnum)])
  }

  /** The property names that are not references, in order: a reference definition of the parameter names. */
  function PlainFieldNames(props: Dict<string, Json>): seq<string>
    decreases |props|
  {
    if |props| == 0 then []
    else if IsRef(props[0].1) then PlainFieldNames(props[1..])
    else [props[0].0] + PlainFieldNames(props[1..])
  }

  /** The `name` of a Parameter Object. */
  function ParamName(p: Json): Option<Json> {
    Member(p, "name")
  }

  function ParamNames(ps: seq<Json>): (r: seq<Option<Json>>)
    ensures |r| == |ps| && forall i | 0 <= i < |ps| :: r[i] == ParamName(ps[i])
  {
    seq(|ps|, i requires 0 <= i < |ps| => ParamName(ps[i]))
  }

  function Quoted(names: seq<string>): (r: seq<Option<Json>>)
    ensures |r| == |names| && forall i | 0 <= i < |names| :: r[i] == Some(JString(names[i]))
  {
    seq(|names|, i requires 0 <= i < |names| => Some(JString(names[i])))
  }

  lemma QuotedAppend(a: seq<string>, b: seq<string>)
    ensures Quoted(a + b) == Quoted(a) + Quoted(b)
  {
  }

  lemma ParamNamesAppend(a: seq<Json>, b: seq<Json>)
    ensures ParamNames(a + b) == ParamNames(a) + ParamNames(b)
  {
  }

  /** `PlainFieldNames` walks from the front; it distributes over concatenation like the parameters do. */
  lemma {:induction false} PlainFieldNamesAppend(a: Dict<string, Json>, b: Dict<string, Json>)
    ensures PlainFieldNames(a + b) == PlainFieldNames(a) + PlainFieldNames(b)
    decreases |a|
  {
    if |a| > 0 {
      assert (a + b)[0] == a[0];
      assert (a + b)[1..] == a[1..] + b;
      PlainFieldNamesAppend(a[1..], b);
    } else {
      assert a + b == b;
    }
  }

  /** Extraction keeps property order: it distributes over concatenation. */
  lemma {:induction false} QueryParamsAppend(a: Dict<string, Json>, b: Dict<string, Json>, required: seq<Json>, withEnum: bool)
    ensures QueryParams(a + b, required, withEnum) == QueryParams(a, required, withEnum) + QueryParams(b, required, withEnum)
    decreases |b|
  {
    if |b| == 0 {
      assert a + b == a;
    } else {
      var init := b[..|b| - 1];
      assert (a + b)[..|a + b| - 1] == a + init;
      assert (a + b)[|a + b| - 1] == b[|b| - 1];
      QueryParamsAppend(a, init, required, withEnum);
    }
  }

  /** The parameters are named after the non-reference properties, in property order. */
  lemma {:induction false} QueryParamsNames(props: Dict<string, Json>, required: seq<Json>, withEnum: bool)
    ensures ParamNames(QueryParams(props, required, withEnum)) == Quoted(PlainFieldNames(props))
    decreases |props|
  {
    if |props| > 0 {
      var init := props[..|props| - 1];
      var last := props[|props| - 1];
      QueryParamsNames(init, required, withEnum);
      assert props == init + [last];
      PlainFieldNamesAppend(init, [last]);
      assert [last][1..] == [];
      QuotedAppend(PlainFieldNames(init), PlainFieldNames([last]));
      ParamNamesAppend(QueryParams(init, required, withEnum), if IsRef(last.1) then [] else [QueryParam(last.0, last.1, required, withEnum)]);
    }
  }

  /** The non-reference names are a subsequence of the keys, so distinct keys give distinct names. */
  lemma {:induction false} PlainFieldNamesDistinct(props: Dict<string, Json>)
    requires UniqueKeys(props)
    ensures forall n | n in PlainFieldNames(props) :: HasKey(props, n)
    ensures forall i, j | 0 <= i < j < |PlainFieldNames(props)| :: PlainFieldNames(props)[i] != PlainFieldNames(props)[j]
    decreases |props|
  {
    if |props| > 0 {
      var rest := props[1..];
      assert UniqueKeys(rest) by {
        forall i, j | 0 <= i < j < |rest| ensures rest[i].0 != rest[j].0 {
          assert rest[i] == props[i + 1] && rest[j] == props[j + 1];
        }
      }
      PlainFieldNamesDistinct(rest);
      var nr := PlainFieldNames(rest);
      forall n | n in nr ensures HasKey(props, n) && n != props[0].0 {
        var k :| 0 <= k < |rest| && rest[k].0 == n;
        assert props[k + 1] == rest[k];
      }
      if !IsRef(props[0].1) {
        var names := [props[0].0] + nr;
        assert PlainFieldNames(props) == names;
        forall i, j | 0 <= i < j < |names| ensures names[i] != names[j] {
          assert names[j] == nr[j - 1] && nr[j - 1] in nr;
          if i > 0 {
            assert names[i] == nr[i - 1];
          }
        }
      }
    }
  }

  /**
   * Distinct property names give distinct query parameters, as section 4.8.10
   * of OpenAPI 3.1.0 requires of an operation's parameter list.
   */
  lemma QueryParamsUnique(props: Dict<string, Json>, required: seq<Json>, withEnum: bool)
    requires UniqueKeys(props)
    ensures forall i, j | 0 <= i < j < |QueryParams(props, required, withEnum)| ::
      ParamName(QueryParams(props, required, withEnum)[i]) != ParamName(QueryParams(props, required, withEnum)[j])
  {
    var ps := QueryParams(props, required, withEnum);
    QueryParamsNames(props, required, withEnum);
    PlainFieldNamesDistinct(props);
    var names := PlainFieldNames(props);
    forall i, j | 0 <= i < j < |ps| ensures ParamName(ps[i]) != ParamName(ps[j]) {
      assert ParamName(ps[i]) == ParamNames(ps)[i] == Some(JString(names[i]));
      assert ParamName(ps[j]) == ParamNames(ps)[j] == Some(JString(names[j]));
    }
  }

  /** A field schema without its `enum` key. */
  function StripEnum(s: Json): Json {
    if s.JObject? && HasKey(s.fields, "enum") then JObject(Remove(s.fields, "enum")) else s
  }

  /** A query Parameter Object with `enum` removed from its schema, as the older processor emits it. */
  function WithoutEnum(p: Json): Json {
    match Member(p, "schema")
    case Some(s) => JObject(Set(p.fields, "schema", StripEnum(s)))
    case None => p
  }

  function WithoutEnums(ps: seq<Json>): (r: seq<Json>)
    ensures |r| == |ps| && forall i | 0 <= i < |ps| :: r[i] == WithoutEnum(ps[i])
  {
    seq(|ps|, i requires 0 <= i < |ps| => WithoutEnum(ps[i]))
  }

  /** The older field schema is the newer one without `enum`. */
  lemma FieldSchemaStrip(info: Json)
    ensures FieldSchema(info, false) == StripEnum(FieldSchema(info, true))
  {
    if !(Member(info, "type") == Some(JString("array"))) && !HasMember(info, "anyOf") && HasMember(info, "type") {
      var f := FieldSchema(info, true).fields;
      assert |f| == 2 && f[1].0 == "enum" && f[0].0 == "type";
      assert HasKey(f, "enum");
      assert f[..1] == [f[0]];
      assert [f[0]][..0] == [];
      assert Remove([f[0]], "enum") == Remove([], "enum") + [f[0]];
      assert Remove(f, "enum") == [f[0]];
    }
  }

  /** For one property, the older parameter is the newer one without `enum`. */
  lemma QueryParamWithoutEnum(name: string, info: Json, required: seq<Json>)
    ensures QueryParam(name, info, required, false) == WithoutEnum(QueryParam(name, info, required, true))
  {
    QueryParamWithStrip(name, info, required, FieldSchema(info, true));
    FieldSchemaStrip(info);
  }

  /** Removing `enum` from a parameter strips it from the parameter's schema. */
  lemma QueryParamWithStrip(name: string, info: Json, required: seq<Json>, schema: Json)
    ensures WithoutEnum(QueryParamWith(name, info, required, schema)) == QueryParamWith(name, info, required, StripEnum(schema))
  {
    var p := QueryParamWith(name, info, required, schema);
    IndexOfIs(p.fields, "schema", 2);
  }

  /** The older processor's query parameters are the newer ones with every `enum` removed. */
  lemma {:induction false} QueryParamsWithoutEnum(props: Dict<string, Json>, required: seq<Json>)
    ensures QueryParams(props, required, false) == WithoutEnums(QueryParams(props, required, true))
    decreases |props|
  {
    if |props| > 0 {
      var init := props[..|props| - 1];
      var last := props[|props| - 1];
      QueryParamsWithoutEnum(init, required);
      QueryParamWithoutEnum(last.0, last.1, required);
    }
  }

  /** Every query parameter sits `in: "query"` and is required exactly when its name is listed. */
  lemma {:induction false} QueryParamsShape(props: Dict<string, Json>, required: seq<Json>, withEnum: bool)
    ensures forall p | p in QueryParams(props, required, withEnum) ::
      Member(p, "in") == Some(JString("query")) &&
      ParamName(p).Some? &&
      Member(p, "required") == Some(JBool(ParamName(p).value in required))
    decreases |props|
  {
    if |props| > 0 {
      var (name, info) := props[|props| - 1];
      QueryParamsShape(props[..|props| - 1], required, withEnum);
      QueryParamMembers(name, info, required, withEnum);
    }
  }

  lemma QueryParamMembers(name: string, info: Json, required: seq<Json>, withEnum: bool)
    ensures ParamName(QueryParam(name, info, required, withEnum)) == Some(JString(name))
    ensures Member(QueryParam(name, info, required, withEnum), "in") == Some(JString("query"))
    ensures Member(QueryParam(name, info, required, withEnum), "required") == Some(JBool(JString(name) in required))
  {
    var f := QueryParam(name, info, required, withEnum).fields;
    IndexOfIs(f, "name", 0);
    IndexOfIs(f, "in", 1);
    IndexOfIs(f, "required", 5);
  }

  /** The properties and required list of an object schema, with `{}` and `[]` when absent. */
  function PropertiesOf(schema: Json): Dict<string, Json> {
    match Member(schema, "properties")
    case Some(JObject(f)) => f
    case _ => []
  }

  function RequiredOf(schema: Json): seq<Json> {
    match Member(schema, "required")
    case Some(JArray(items)) => items
    case _ => []
  }

  /** `_convert_to_openapi_query_params`. */
  function QueryParamsOf(schema: Json, withEnum: bool): seq<Json> {
    QueryParams(PropertiesOf(schema), RequiredOf(schema), withEnum)
  }

  /** `_process_properties`, accumulating the parameters in a loop. */
  method ProcessProperties(props: Dict<string, Json>, required: seq<Json>, withEnum: bool) returns (r: seq<Json>)
    ensures r == QueryParams(props, required, withEnum)
  {
    r := [];
    var i := 0;
    while i < |props|
      invariant 0 <= i <= |props|
      invariant r == QueryParams(props[..i], required, withEnum)
    {
      assert props[..i + 1][..i] == props[..i];
      var (name, info) := props[i];
      if !HasMember(info, "$ref") {
        r := r + [QueryParam(name, info, required, withEnum)];
      }
      i := i + 1;
    }
    assert props[..|props|] == props;
  }

  // ---------------------------------------------------------------------
  // Path parameters
  // ---------------------------------------------------------------------

  /** The path Parameter Object for one entry: always a required string. */
  function PathParam(e: PathEntry): Json {
    JObject([
      ("name", JString(e.name)),
      ("in", JString("path")),
      ("required", JBool(true)),
      ("schema", Single("type", JString("string"))),
      ("description", OptString(e.description))
    ])
  }

  function PathParams(es: seq<PathEntry>): (r: seq<Json>)
    ensures |r| == |es| && forall i | 0 <= i < |es| :: r[i] == PathParam(es[i])
  {
    seq(|es|, i requires 0 <= i < |es| => PathParam(es[i]))
  }

  /**
   * Path parameters keep the entries' names in order and are marked
   * required, as section 4.8.12 of OpenAPI 3.1.0 demands for `in: "path"`.
   */
  lemma PathParamsShape(es: seq<PathEntry>)
    ensures forall i | 0 <= i < |es| ::
      ParamName(PathParams(es)[i]) == Some(JString(es[i].name)) &&
      Member(PathParams(es)[i], "in") == Some(JString("path")) &&
      Member(PathParams(es)[i], "required") == Some(JBool(true))
  {
    forall i | 0 <= i < |es|
      ensures ParamName(PathParams(es)[i]) == Some(JString(es[i].name))
      ensures Member(PathParams(es)[i], "in") == Some(JString("path"))
      ensures Member(PathParams(es)[i], "required") == Some(JBool(true))
    {
      var f := PathParam(es[i]).fields;
      IndexOfIs(f, "name", 0);
      IndexOfIs(f, "in", 1);
      IndexOfIs(f, "required", 2);
    }
  }

  /** `_map_path`: one parameter per path entry, appended in a loop. */
  method MapPath(es: seq<PathEntry>) returns (r: seq<Json>)
    ensures r == PathParams(es)
  {
    r := [];
    var i := 0;
    while i < |es|
      invariant 0 <= i <= |es|
      invariant r == PathParams(es[..i])
    {
      r := r + [JObject([
        ("name", JString(es[i].name)),
        ("in", JString("path")),
        ("required", JBool(true)),
        ("schema", Single("type", JString("string"))),
        ("description", OptString(es[i].description))
      ])];
      i := i + 1;
    }
    assert es[..|es|] == es;
  }
}
