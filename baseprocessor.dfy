/**
 * The older `BaseSchemaProcessor`: the same `$defs` flattening, model
 * registry and Parameter Objects as the newer processor, but a response
 * body is recognised only when it is a type object. A model class becomes a
 * `$ref` and is registered on the way, while literal values and `None` fall
 * through to `{}`. Query parameter schemas carry no `enum`.
 */
module BaseProcessor {
  import opened Results
  import opened Json
  import opened Inputs
  import opened ModelSchemas
  import opened OpenApi
  import opened Processor
  import opened Lists

  // ---------------------------------------------------------------------
  // Response bodies, with the registry they leave behind
  // ---------------------------------------------------------------------

  /**
   * `_parse_response_body` in the older processor: the schema of the
   * declared body and the registry after the model classes it met were
   * registered, left to right. List generics and unions are handled as in
   * the newer processor; of the rest only the four scalar type objects and
   * model classes are recognised.
   */
  function BaseParse(models: Registry, body: DeclaredType): (Json, Registry)
    decreases body, 1
  {
    match body
    case ListOf(args) =>
      var (items, after) := BaseParseArgs(models, body, |args|);
      (ArraySchema(ItemsSchema(items)), after)
    case UnionOf(args) =>
      var (items, after) := BaseParseArgs(models, body, |args|);
      (Single("oneOf", JArray(items)), after)
    case StrType => (Typed("string"), models)
    case IntType => (Typed("integer"), models)
    case FloatType => (Typed("number"), models)
    case BoolType => (Typed("boolean"), models)
    case ModelClass(m) => (RefTo(ModelName(m)), RegisterOne(models, m))
    case _ => (JObject([]), models)
  }

  /** The first `n` arguments of a generic, translated in order, each seeing the registry the previous one left. */
  function BaseParseArgs(models: Registry, body: DeclaredType, n: nat): (r: (seq<Json>, Registry))
    requires (body.ListOf? || body.UnionOf?) && n <= |body.args|
    ensures |r.0| == n
    decreases body, 0, n
  {
    if n == 0 then ([], models)
    else
      var (items, mid) := BaseParseArgs(models, body, n - 1);
      var (last, after) := BaseParse(mid, body.args[n - 1]);
      (items + [last], after)
  }

  /**
   * The `i`-th translated argument is that argument translated against the
   * registry the first `i` arguments left; the registry afterwards is the
   * one the last argument left.
   */
  lemma {:induction false} BaseParseArgsAt(models: Registry, body: DeclaredType, n: nat, i: nat)
    requires (body.ListOf? || body.UnionOf?) && i < n <= |body.args|
    ensures BaseParseArgs(models, body, n).0[i] == BaseParse(BaseParseArgs(models, body, i).1, body.args[i]).0
    ensures BaseParseArgs(models, body, n).1 == BaseParse(BaseParseArgs(models, body, n - 1).1, body.args[n - 1]).1
    decreases n
  {
    var prev := BaseParseArgs(models, body, n - 1);
    var last := BaseParse(prev.1, body.args[n - 1]);
    assert BaseParseArgs(models, body, n) == (prev.0 + [last.0], last.1);
    if i < n - 1 {
      BaseParseArgsAt(models, body, n - 1, i);
      assert (prev.0 + [last.0])[i] == prev.0[i];
    }
  }

  /** A body built from the four scalar type objects by list generics and unions. */
  predicate PlainType(body: DeclaredType)
    decreases body
  {
    match body
    case ListOf(args) => forall i | 0 <= i < |args| :: PlainType(args[i])
    case UnionOf(args) => forall i | 0 <= i < |args| :: PlainType(args[i])
    case _ => body.StrType? || body.IntType? || body.FloatType? || body.BoolType?
  }

  /**
   * The translation, read back: `"type": "array"` exactly for lists, `oneOf`
   * exactly for unions, a `$ref` exactly for model classes (which are
   * registered), and `{}` exactly for literal values, `None` and
   * unrecognised types, which leave the registry alone.
   */
  lemma BaseParseShape(models: Registry, body: DeclaredType)
    ensures Member(BaseParse(models, body).0, "type") == Some(JString("array")) <==> body.ListOf?
    ensures HasMember(BaseParse(models, body).0, "oneOf") <==> body.UnionOf?
    ensures HasMember(BaseParse(models, body).0, "$ref") <==> body.ModelClass?
    ensures body.ModelClass? ==>
      BaseParse(models, body) == (RefTo(ModelName(body.model)), RegisterOne(models, body.model))
    ensures BaseParse(models, body).0 == JObject([]) <==> IsLiteral(body) || body.NoneValue? || body.OtherType?
    ensures !(body.ListOf? || body.UnionOf? || body.ModelClass?) ==> BaseParse(models, body).1 == models
  {
  }

  /** Some object inside the translations of the first `n` arguments has the key `k`. */
  lemma {:induction false} NoMentionArgs(models: Registry, body: DeclaredType, n: nat, k: string)
    requires (body.ListOf? || body.UnionOf?) && n <= |body.args|
    requires k != "type" && k != "items" && k != "anyOf" && k != "oneOf" && k != "$ref"
    ensures forall i | 0 <= i < n :: !MentionsKey(BaseParseArgs(models, body, n).0[i], k)
    decreases body, 0, n
  {
    if n > 0 {
      var (items, mid) := BaseParseArgs(models, body, n - 1);
      NoMentionArgs(models, body, n - 1, k);
      NoMentionBody(mid, body.args[n - 1], k);
      assert BaseParseArgs(models, body, n).0 == items + [BaseParse(mid, body.args[n - 1]).0];
    }
  }

  /**
   * No key other than the five structural ones appears anywhere in a
   * translation; in particular no literal ever gives a `const`, unlike in
   * the newer processor.
   */
  lemma {:induction false} NoMentionBody(models: Registry, body: DeclaredType, k: string)
    requires k != "type" && k != "items" && k != "anyOf" && k != "oneOf" && k != "$ref"
    ensures !MentionsKey(BaseParse(models, body).0, k)
    decreases body, 1
  {
    match body
    case ListOf(args) =>
      var items := BaseParseArgs(models, body, |args|).0;
      NoMentionArgs(models, body, |args|, k);
      NoMentionAll(items, k);
      var s := ItemsSchema(items);
      assert !MentionsKey(s, k);
      var r := ArraySchema(s);
      assert forall i | 0 <= i < |r.fields| :: r.fields[i].0 != k && !MentionsKey(r.fields[i].1, k);
    case UnionOf(args) =>
      var items := BaseParseArgs(models, body, |args|).0;
      NoMentionArgs(models, body, |args|, k);
      NoMentionAll(items, k);
    case _ =>
  }

  /** A literal value such as `"OK"` translates to `{}` and no declared body ever yields a `const`. */
  lemma BaseParseNoConst(models: Registry, body: DeclaredType)
    ensures !MentionsKey(BaseParse(models, body).0, "const")
    ensures IsLiteral(body) ==> BaseParse(models, body) == (JObject([]), models)
  {
    NoMentionBody(models, body, "const");
  }

  lemma {:induction false} BaseParseArgsKeeps(models: Registry, body: DeclaredType, n: nat, k: string)
    requires (body.ListOf? || body.UnionOf?) && n <= |body.args|
    requires UniqueKeys(models)
    ensures UniqueKeys(BaseParseArgs(models, body, n).1)
    ensures HasKey(models, k) ==> HasKey(BaseParseArgs(models, body, n).1, k)
    decreases body, 0, n
  {
    if n > 0 {
      var mid := BaseParseArgs(models, body, n - 1).1;
      BaseParseArgsKeeps(models, body, n - 1, k);
      BaseParseKeeps(mid, body.args[n - 1], k);
    }
  }

  /** Translating a body only ever adds registry keys, and keeps the registry a proper dict. */
  lemma {:induction false} BaseParseKeeps(models: Registry, body: DeclaredType, k: string)
    requires UniqueKeys(models)
    ensures UniqueKeys(BaseParse(models, body).1)
    ensures HasKey(models, k) ==> HasKey(BaseParse(models, body).1, k)
    decreases body, 1
  {
    match body
    case ListOf(args) => BaseParseArgsKeeps(models, body, |args|, k);
    case UnionOf(args) => BaseParseArgsKeeps(models, body, |args|, k);
    case ModelClass(m) =>
      if !HasKey(models, ModelName(m)) {
        UpdateUnique(models, ModelEntries(m));
        HasKeyUpdate(models, ModelEntries(m), k);
      }
    case _ =>
  }

  lemma {:induction false} BaseParseArgsAgree(models: Registry, body: DeclaredType, n: nat)
    requires (body.ListOf? || body.UnionOf?) && n <= |body.args|
    requires PlainType(body)
    ensures BaseParseArgs(models, body, n) == (ParseAll(body.args[..n]), models)
    decreases body, 0, n
  {
    if n > 0 {
      BaseParseArgsAgree(models, body, n - 1);
      BaseParseAgree(models, body.args[n - 1]);
      assert ParseAll(body.args[..n]) == ParseAll(body.args[..n - 1]) + [ParseResponseBody(body.args[n - 1])];
    } else {
      assert ParseAll(body.args[..0]) == [];
    }
  }

  /** On bodies made of type objects, list generics and unions the two processors agree and register nothing. */
  lemma {:induction false} BaseParseAgree(models: Registry, body: DeclaredType)
    requires PlainType(body)
    ensures BaseParse(models, body) == (ParseResponseBody(body), models)
    decreases body, 1
  {
    match body
    case ListOf(args) =>
      BaseParseArgsAgree(models, body, |args|);
      assert args[..|args|] == args;
      assert ParseResponseBody(body) == ArraySchema(ItemsSchema(ParseAll(args)));
    case UnionOf(args) =>
      BaseParseArgsAgree(models, body, |args|);
      assert args[..|args|] == args;
      assert ParseResponseBody(body) == Single("oneOf", JArray(ParseAll(args)));
    case _ =>
  }

  // ---------------------------------------------------------------------
  // Responses and query parameters
  // ---------------------------------------------------------------------

  /** `_map_responses` in the older processor: per response in order, its content assigned under its status code. */
  function BaseResponsesOf(models: Registry, rs: seq<ResponseSchema>): (Dict<int, Json>, Registry)
    decreases |rs|
  {
    if |rs| == 0 then ([], models)
    else
      var (data, mid) := BaseResponsesOf(models, rs[..|rs| - 1]);
      var last := rs[|rs| - 1];
      var (schema, after) := BaseParse(mid, last.body);
      (Set(data, last.statusCode, MediaContent(schema)), after)
  }

  lemma BaseResponsesOfSnoc(models: Registry, rs: seq<ResponseSchema>, i: nat)
    requires i < |rs|
    ensures BaseResponsesOf(models, rs[..i + 1]) ==
      var (data, mid) := BaseResponsesOf(models, rs[..i]);
      var (schema, after) := BaseParse(mid, rs[i].body);
      (Set(data, rs[i].statusCode, MediaContent(schema)), after)
  {
    assert rs[..i + 1][..i] == rs[..i];
  }

  /**
   * The responses carry the same status codes, in the same order and each
   * once, as the newer processor's: a later response with the same code
   * overwrites the earlier one where it stands.
   */
  lemma {:induction false} BaseResponsesKeys(models: Registry, rs: seq<ResponseSchema>)
    ensures Keys(BaseResponsesOf(models, rs).0) == Keys(ResponsesOf(rs))
    ensures UniqueKeys(BaseResponsesOf(models, rs).0)
    decreases |rs|
  {
    if |rs| > 0 {
      var init := rs[..|rs| - 1];
      var last := rs[|rs| - 1];
      BaseResponsesKeys(models, init);
      var (data, mid) := BaseResponsesOf(models, init);
      var schema := BaseParse(mid, last.body).0;
      var newer := ResponsesOf(init);
      KeysSet(data, last.statusCode, MediaContent(schema));
      KeysSet(newer, last.statusCode, ResponseContent(last));
      assert HasKey(data, last.statusCode) <==> HasKey(newer, last.statusCode) by {
        assert |data| == |Keys(data)| == |Keys(newer)| == |newer|;
        assert forall i | 0 <= i < |data| :: data[i].0 == Keys(data)[i] == Keys(newer)[i] == newer[i].0;
      }
      SetUnique(data, last.statusCode, MediaContent(schema));
    }
  }

  /** With bodies made of type objects only, the older responses are exactly the newer ones. */
  lemma {:induction false} BaseResponsesAgree(models: Registry, rs: seq<ResponseSchema>)
    requires forall i | 0 <= i < |rs| :: PlainType(rs[i].body)
    ensures BaseResponsesOf(models, rs) == (ResponsesOf(rs), models)
    decreases |rs|
  {
    if |rs| > 0 {
      var init := rs[..|rs| - 1];
      assert forall i | 0 <= i < |init| :: init[i] == rs[i];
      BaseResponsesAgree(models, init);
      BaseParseAgree(models, rs[|rs| - 1].body);
    }
  }

  /** `_map_query` in the older processor: as in the newer one, with no `enum` in the field schemas. */
  function BaseQueryOf(arg: ModelArg): Result<seq<Json>> {
    match arg
    case Many(_) => Err(QueryIsList)
    case One(m) =>
      match Get(ModelEntries(m), ModelName(m))
      case None => Err(QueryTitleMismatch)
      case Some(s) => Ok(QueryParamsOf(s, false))
  }

  /** The older query parameters are the newer ones with `enum` stripped, failing in the same cases. */
  lemma BaseQueryWithoutEnum(arg: ModelArg)
    ensures BaseQueryOf(arg).Ok? <==> QueryOf(arg).Ok?
    ensures BaseQueryOf(arg).Err? ==> BaseQueryOf(arg).error == QueryOf(arg).error
    ensures BaseQueryOf(arg).Ok? ==> BaseQueryOf(arg).value == WithoutEnums(QueryOf(arg).value)
  {
    if arg.One? {
      match Get(ModelEntries(arg.model), ModelName(arg.model))
      case None =>
      case Some(s) => QueryParamsWithoutEnum(PropertiesOf(s), RequiredOf(s));
    }
  }

  // ---------------------------------------------------------------------
  // The processor object
  // ---------------------------------------------------------------------

  class BaseSchemaProcessor {
    /** `_models`. */
    var models: Registry

    constructor()
      ensures models == []
    {
      models := [];
    }

    /** `update_model_schemas`: `self._models.update(schemas)`. */
    method UpdateModelSchemas(schemas: Dict<string, Json>)
      modifies this
      ensures models == Update(old(models), schemas)
    {
      models := Update(models, schemas);
    }

    /** `_get_model_reference`: a model absent by name is registered through `update_model_schemas`. */
    method GetModelReference(arg: ModelArg) returns (r: Json)
      modifies this
      ensures r == Reference(arg)
      ensures models == Registered(old(models), arg)
    {
      match arg
      case One(m) =>
        r := GetOneReference(m);
      case Many(ms) =>
        var refs: seq<Json> := [];
        var i := 0;
        while i < |ms|
          invariant 0 <= i <= |ms|
          invariant RegisterAll(models, ms[i..]) == RegisterAll(old(models), ms)
          invariant refs == RefsOf(ms[..i])
        {
          RegisterAllStep(models, ms, i);
          EachSnoc(ModelRef, ms, i);
          var ref := GetOneReference(ms[i]);
          refs := refs + [ref];
          i := i + 1;
        }
        RegisterAllStep(models, ms, |ms|);
        assert ms[..|ms|] == ms;
        r := Single("oneOf", JArray(refs));
    }

    method GetOneReference(m: Model) returns (r: Json)
      modifies this
      ensures r == RefTo(ModelName(m))
      ensures models == RegisterOne(old(models), m)
    {
      var className := ModelName(m);
      if !HasKey(models, className) {
        var g := SchemaProcessor.GenerateModelSchema(One(m));
        UpdateModelSchemas(g.entries);
      }
      r := Single("$ref", JString("#/components/schemas/" + className));
    }

    /** `_parse_response_body`, registering each model class it meets, left to right. */
    method ParseResponseBody(body: DeclaredType) returns (r: Json)
      modifies this
      ensures (r, models) == BaseParse(old(models), body)
      decreases body, 1
    {
      match body {
        case ListOf(args) =>
          var items := ParseArgs(body);
          r := ArraySchema(if |items| == 1 then items[0] else Single("anyOf", JArray(items)));
        case UnionOf(args) =>
          var items := ParseArgs(body);
          r := Single("oneOf", JArray(items));
        case StrType => r := Single("type", JString("string"));
        case IntType => r := Single("type", JString("integer"));
        case FloatType => r := Single("type", JString("number"));
        case BoolType => r := Single("type", JString("boolean"));
        case ModelClass(m) => r := GetOneReference(m);
        case _ => r := JObject([]);
      }
    }

    /** `list(map(self._parse_response_body, get_args(body)))`. */
    method ParseArgs(body: DeclaredType) returns (items: seq<Json>)
      requires body.ListOf? || body.UnionOf?
      modifies this
      ensures (items, models) == BaseParseArgs(old(models), body, |body.args|)
      decreases body, 0
    {
      var args := body.args;
      items := [];
      var i := 0;
      while i < |args|
        invariant 0 <= i <= |args|
        invariant (items, models) == BaseParseArgs(old(models), body, i)
      {
        var item := ParseResponseBody(args[i]);
        items := items + [item];
        i := i + 1;
      }
    }

    /** `_map_query`: the schema is generated but not registered. */
    method MapQuery(query: ModelArg) returns (r: Result<seq<Json>>)
      ensures r == BaseQueryOf(query)
    {
      var g := SchemaProcessor.GenerateModelSchema(query);
      if g.DictList? {
        return Err(QueryIsList);
      }
      var schema := Get(g.entries, ModelName(query.model));
      if schema.None? {
        return Err(QueryTitleMismatch);
      }
      var params := ProcessProperties(PropertiesOf(schema.value), RequiredOf(schema.value), false);
      return Ok(params);
    }

    /** `_map_body`: the media content holding the body's reference, registering its models. */
    method MapBody(body: ModelArg) returns (r: Json)
      modifies this
      ensures r == MediaContent(Reference(body))
      ensures models == Registered(old(models), body)
    {
      var ref := GetModelReference(body);
      r := MediaContent(ref);
    }

    /** `_map_responses`: `data[status_code] = content` per response, in order. */
    method MapResponses(rs: seq<ResponseSchema>) returns (data: Dict<int, Json>)
      modifies this
      ensures (data, models) == BaseResponsesOf(old(models), rs)
    {
      data := [];
      var i := 0;
      while i < |rs|
        invariant 0 <= i <= |rs|
        invariant (data, models) == BaseResponsesOf(old(models), rs[..i])
      {
        BaseResponsesOfSnoc(old(models), rs, i);
        var schema := ParseResponseBody(rs[i].body);
        data := Set(data, rs[i].statusCode, MediaContent(schema));
        i := i + 1;
      }
      assert rs[..|rs|] == rs;
    }
  }
}
