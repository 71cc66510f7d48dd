/**
 * The newer `SchemaProcessor`: translates declared response bodies to JSON
 * Schema, keeps the memoized registry of model schemas that becomes
 * `components.schemas`, and maps endpoint metadata to OpenAPI 3.1 Operation
 * Objects grouped by rule and lower-cased method.
 */
module Processor {
  import opened Results
  import opened Json
  import opened Inputs
  import opened ModelSchemas
  import opened Endpoints
  import opened OpenApi
  import opened Lists

  // ---------------------------------------------------------------------
  // Response bodies
  // ---------------------------------------------------------------------

  function Typed(t: string): Json {
    Single("type", JString(t))
  }

  function TypedConst(t: string, c: Json): Json {
    JObject([("type", JString(t)), ("const", c)])
  }

  /**
   * `_parse_response_body`: list generics become arrays, unions `oneOf`,
   * type objects a `type`, literal values a `type` with a `const`, `None`
   * the null type, and everything else `{}`. A `bool` literal is caught by
   * the `int` instance test first, and a model class never passes the
   * `body is type` test, so it too gives `{}`.
   */
  function ParseResponseBody(body: DeclaredType): Json
    decreases body
  {
    match body
    case ListOf(args) => ArraySchema(ItemsSchema(seq(|args|, i requires 0 <= i < |args| => ParseResponseBody(args[i]))))
    case UnionOf(args) => Single("oneOf", JArray(seq(|args|, i requires 0 <= i < |args| => ParseResponseBody(args[i]))))
    case StrType => Typed("string")
    case StrValue(s) => TypedConst("string", JString(s))
    case IntType => Typed("integer")
    case IntValue(i) => TypedConst("integer", JInt(i))
    case FloatType => Typed("number")
    case FloatValue(t) => TypedConst("number", JNumber(t))
    case BoolType => Typed("boolean")
    case BoolValue(b) => TypedConst("integer", JBool(b))
    case NoneValue => Typed("null")
    case ModelClass(_) => JObject([])
    case OtherType => JObject([])
  }

  /** The translations of a list of declared types, in order. */
  function ParseAll(args: seq<DeclaredType>): (r: seq<Json>)
    ensures |r| == |args| && forall i | 0 <= i < |args| :: r[i] == ParseResponseBody(args[i])
  {
    seq(|args|, i requires 0 <= i < |args| => ParseResponseBody(args[i]))
  }

  /** A literal value among the declared types. */
  predicate IsLiteral(body: DeclaredType) {
    body.StrValue? || body.IntValue? || body.FloatValue? || body.BoolValue?
  }

  /**
   * The translation, read back: `"type": "array"` exactly for lists (whose
   * items are the one translated argument or `anyOf` all of them), `oneOf`
   * exactly for unions, `const` exactly for literals, and `{}` exactly for
   * model classes and unrecognised types.
   */
  lemma ParseResponseBodyShape(body: DeclaredType)
    ensures Member(ParseResponseBody(body), "type") == Some(JString("array")) <==> body.ListOf?
    ensures body.ListOf? ==> Member(ParseResponseBody(body), "items") == Some(ItemsSchema(ParseAll(body.args)))
    ensures HasMember(ParseResponseBody(body), "oneOf") <==> body.UnionOf?
    ensures body.UnionOf? ==> Member(ParseResponseBody(body), "oneOf") == Some(JArray(ParseAll(body.args)))
    ensures HasMember(ParseResponseBody(body), "const") <==> IsLiteral(body)
    ensures ParseResponseBody(body) == JObject([]) <==> body.ModelClass? || body.OtherType?
  {
    var r := ParseResponseBody(body);
    if body.ListOf? {
      assert r.fields[0].0 == "type" && r.fields[1].0 == "items";
      IndexOfIs(r.fields, "items", 1);
    }
    if IsLiteral(body) {
      IndexOfIs(r.fields, "const", 1);
    }
  }

  /** A `bool` literal is typed as an integer: the `int` instance test at line 118 comes first. */
  lemma BoolLiteralIsInteger(b: bool)
    ensures Member(ParseResponseBody(BoolValue(b)), "type") == Some(JString("integer"))
    ensures Member(ParseResponseBody(BoolValue(b)), "const") == Some(JBool(b))
  {
    IndexOfIs(ParseResponseBody(BoolValue(b)).fields, "const", 1);
  }

  /** Some object inside `j`, at any depth, has the key `k`. */
  predicate MentionsKey(j: Json, k: string)
    decreases j
  {
    match j
    case JArray(items) => exists i | 0 <= i < |items| :: MentionsKey(items[i], k)
    case JObject(fields) => exists i | 0 <= i < |fields| :: fields[i].0 == k || MentionsKey(fields[i].1, k)
    case _ => false
  }

  lemma {:induction false} NoMentionAll(items: seq<Json>, k: string)
    requires forall i | 0 <= i < |items| :: !MentionsKey(items[i], k)
    ensures !MentionsKey(JArray(items), k)
  {
  }

  /**
   * No translated response body ever contains a `$ref`: in this processor a
   * model class falls through to `{}`, so responses never reference models.
   */
  lemma {:induction false} ParseResponseBodyNoRef(body: DeclaredType)
    ensures !MentionsKey(ParseResponseBody(body), "$ref")
    decreases body
  {
    match body
    case ListOf(args) =>
      var parsed := ParseAll(args);
      forall i | 0 <= i < |args| ensures !MentionsKey(parsed[i], "$ref") {
        ParseResponseBodyNoRef(args[i]);
      }
      NoMentionAll(parsed, "$ref");
      var items := ItemsSchema(parsed);
      assert !MentionsKey(items, "$ref");
      var r := ArraySchema(items);
      assert forall i | 0 <= i < |r.fields| :: r.fields[i].0 != "$ref" && !MentionsKey(r.fields[i].1, "$ref");
    case UnionOf(args) =>
      var parsed := ParseAll(args);
      forall i | 0 <= i < |args| ensures !MentionsKey(parsed[i], "$ref") {
        ParseResponseBodyNoRef(args[i]);
      }
      NoMentionAll(parsed, "$ref");
    case _ =>
  }

  // ---------------------------------------------------------------------
  // Responses
  // ---------------------------------------------------------------------

  /** The media content one response contributes under its status code. */
  function ResponseContent(rs: ResponseSchema): Json {
    MediaContent(ParseResponseBody(rs.body))
  }

  /** `_map_responses`: each response assigned under its status code in order; descriptions are dropped. */
  function ResponsesOf(rs: seq<ResponseSchema>): Dict<int, Json>
    decreases |rs|
  {
    if |rs| == 0 then []
    else
      var last := rs[|rs| - 1];
      Set(ResponsesOf(rs[..|rs| - 1]), last.statusCode, ResponseContent(last))
  }

  lemma ResponsesOfSnoc(rs: seq<ResponseSchema>, i: nat)
    requires i < |rs|
    ensures ResponsesOf(rs[..i + 1]) == Set(ResponsesOf(rs[..i]), rs[i].statusCode, ResponseContent(rs[i]))
  {
    assert rs[..i + 1][..i] == rs[..i];
  }

  /** Reference definition: the last response declared with a status code. */
  function LastWithCode(rs: seq<ResponseSchema>, code: int): (r: Option<ResponseSchema>)
    ensures r.Some? ==> r.value in rs && r.value.statusCode == code
    ensures r.None? <==> forall i | 0 <= i < |rs| :: rs[i].statusCode != code
    decreases |rs|
  {
    if |rs| == 0 then None
    else if rs[|rs| - 1].statusCode == code then Some(rs[|rs| - 1])
    else LastWithCode(rs[..|rs| - 1], code)
  }

  /** A later response with the same status code overwrites an earlier one. */
  lemma {:induction false} ResponsesOfGet(rs: seq<ResponseSchema>, code: int)
    ensures Get(ResponsesOf(rs), code) ==
      match LastWithCode(rs, code)
      case None => None
      case Some(r) => Some(ResponseContent(r))
    decreases |rs|
  {
    if |rs| > 0 {
      var last := rs[|rs| - 1];
      ResponsesOfGet(rs[..|rs| - 1], code);
      GetSet(ResponsesOf(rs[..|rs| - 1]), last.statusCode, ResponseContent(last), code);
    }
  }

  /** Each status code appears once. */
  lemma {:induction false} ResponsesOfUnique(rs: seq<ResponseSchema>)
    ensures UniqueKeys(ResponsesOf(rs))
    decreases |rs|
  {
    if |rs| > 0 {
      var last := rs[|rs| - 1];
      ResponsesOfUnique(rs[..|rs| - 1]);
      SetUnique(ResponsesOf(rs[..|rs| - 1]), last.statusCode, ResponseContent(last));
    }
  }

  // ---------------------------------------------------------------------
  // Query parameters of an endpoint
  // ---------------------------------------------------------------------

  /**
   * `_map_query`: the query parameters of the schema stored under the
   * model's own name among its generated entries. A list of models has no
   * name, and a name that is no title of the entries has no schema.
   */
  function QueryOf(arg: ModelArg): Result<seq<Json>> {
    match arg
    case Many(_) => Err(QueryIsList)
    case One(m) =>
      match Get(ModelEntries(m), ModelName(m))
      case None => Err(QueryTitleMismatch)
      case Some(s) => Ok(QueryParamsOf(s, true))
  }

  /** When the title of the model equals its class name, the parameters come from its own properties. */
  lemma QueryOfOwnTitle(m: Model)
    requires Title(m.jsonSchema) == ModelName(m)
    ensures QueryOf(One(m)) == Ok(QueryParamsOf(WithoutDefs(m.jsonSchema), true))
  {
    ModelEntriesGet(m, ModelName(m));
  }

  /** A query model never yields two parameters of the same name. */
  lemma QueryOfUnique(arg: ModelArg)
    ensures QueryOf(arg).Ok? ==> forall i, j | 0 <= i < j < |QueryOf(arg).value| ::
      ParamName(QueryOf(arg).value[i]) != ParamName(QueryOf(arg).value[j])
  {
    if arg.One? && Get(ModelEntries(arg.model), ModelName(arg.model)).Some? {
      var e := ModelEntries(arg.model);
      var s := Get(e, ModelName(arg.model)).value;
      ModelEntriesShape(arg.model);
      var k := IndexOf(e, ModelName(arg.model)).value;
      assert ObjectSchema(e[k].1);
      QueryParamsUnique(PropertiesOf(s), RequiredOf(s), true);
    }
  }

  // ---------------------------------------------------------------------
  // Operations
  // ---------------------------------------------------------------------

  /** ASCII lower-casing of one character. */
  function LowerChar(c: char): char {
    if 'A' <= c <= 'Z' then (c as int + 32) as char else c
  }

  /** `str.lower()`, restricted to ASCII letters. */
  function Lower(s: string): (r: string)
    ensures |r| == |s| && forall i | 0 <= i < |s| :: r[i] == LowerChar(s[i])
  {
    seq(|s|, i requires 0 <= i < |s| => LowerChar(s[i]))
  }

  /** `s.replace(' ', '-')`. */
  function Dashed(s: string): (r: string)
    ensures |r| == |s| && forall i | 0 <= i < |s| :: r[i] == if s[i] == ' ' then '-' else s[i]
  {
    seq(|s|, i requires 0 <= i < |s| => if s[i] == ' ' then '-' else s[i])
  }

  /** `f"{summary.lower().replace(' ', '-')}-{method}"`. */
  function OperationId(summary: string, httpMethod: string): string {
    Dashed(Lower(summary)) + "-" + httpMethod
  }

  lemma LowerIdempotent(s: string)
    ensures Lower(Lower(s)) == Lower(s)
  {
  }

  /**
   * The operation id of a summary and a lower-cased method has no space and
   * no upper-case letter, keeps the summary's length, and ends in the
   * method after a `-`.
   */
  lemma OperationIdShape(summary: string, httpMethod: string)
    ensures var id := OperationId(summary, Lower(httpMethod));
      |id| == |summary| + 1 + |httpMethod| &&
      (forall i | 0 <= i <= |summary| :: id[i] != ' ') &&
      (forall i | 0 <= i < |id| :: !('A' <= id[i] <= 'Z')) &&
      id[|summary|..] == "-" + Lower(httpMethod)
  {
    var lowered := Lower(httpMethod);
    var id := OperationId(summary, lowered);
    var head := Dashed(Lower(summary));
    assert id == head + "-" + lowered;
    forall i | 0 <= i < |id| ensures !('A' <= id[i] <= 'Z') && (i <= |summary| ==> id[i] != ' ') {
      if i < |summary| {
        assert id[i] == head[i];
        LowerCharNotUpper(summary[i]);
      } else if i > |summary| {
        assert id[i] == lowered[i - |summary| - 1];
        LowerCharNotUpper(httpMethod[i - |summary| - 1]);
      }
    }
    assert id[|summary|..] == "-" + lowered;
  }

  lemma LowerCharNotUpper(c: char)
    ensures !('A' <= LowerChar(c) <= 'Z')
  {
  }

  /** An OpenAPI Operation Object as `_map_endpoint` builds it. */
  datatype Operation = Operation(
    summary: string,
    description: Option<string>,
    operationId: string,
    tags: Option<seq<string>>,
    parameters: seq<Json>,
    requestBody: Option<Json>,
    responses: Option<Dict<int, Json>>)

  /** Python truthiness of an optional model argument and of an optional response list. */
  predicate HasModels(arg: Option<ModelArg>) {
    arg.Some? && arg.value.Truthy()
  }

  predicate HasResponses(rs: Option<seq<ResponseSchema>>) {
    rs.Some? && |rs.value| > 0
  }

  /**
   * `_map_endpoint`: the lower-cased method and its Operation Object. The
   * query is mapped first, so its failure comes before the one of a meta
   * without a method; a meta without a body or responses gets `None` there.
   */
  function OperationOf(m: Meta): Result<(string, Operation)> {
    var query :- QueryPart(m.query);
    if m.httpMethod.None? then Err(NoneAttribute)
    else
      var httpMethod := Lower(m.httpMethod.value);
      Ok((httpMethod, Operation(
        m.summary,
        m.description,
        OperationId(m.summary, httpMethod),
        m.tags,
        query + PathParams(m.path),
        BodyPart(m.body),
        ResponsesPart(m.responses))))
  }

  /** The query parameters of an endpoint: none unless it declares query models. */
  function QueryPart(query: Option<ModelArg>): Result<seq<Json>> {
    if HasModels(query) then QueryOf(query.value) else Ok([])
  }

  /** The `requestBody` of an endpoint: the media content referencing its body models, if any. */
  function BodyPart(body: Option<ModelArg>): Option<Json> {
    if HasModels(body) then Some(MediaContent(Reference(body.value))) else None
  }

  /** The `responses` of an endpoint, if it declares any. */
  function ResponsesPart(rs: Option<seq<ResponseSchema>>): Option<Dict<int, Json>> {
    if HasResponses(rs) then Some(ResponsesOf(rs.value)) else None
  }

  /** An Operation carries the meta's own texts, query parameters before path parameters. */
  lemma OperationOfFields(m: Meta)
    ensures OperationOf(m).Ok? <==>
      m.httpMethod.Some? && (HasModels(m.query) ==> QueryOf(m.query.value).Ok?)
    ensures OperationOf(m).Ok? ==>
      var (k, op) := OperationOf(m).value;
      k == Lower(m.httpMethod.value) &&
      op.summary == m.summary && op.description == m.description && op.tags == m.tags &&
      op.operationId == OperationId(m.summary, k) &&
      op.parameters[|op.parameters| - |m.path|..] == PathParams(m.path) &&
      (op.requestBody.Some? <==> HasModels(m.body)) &&
      (op.responses.Some? <==> HasResponses(m.responses))
  {
  }

  /** The document's `paths`: per rule, the operations by method, in first-seen order. */
  type Paths = Dict<Option<string>, Dict<string, Operation>>

  function MethodsAt(paths: Paths, rule: Option<string>): Dict<string, Operation> {
    match Get(paths, rule)
    case Some(d) => d
    case None => []
  }

  /** An endpoint's rule beside what `_map_endpoint` yields for it. */
  type Mapped = (Option<string>, Result<(string, Operation)>)

  function MappedOf(m: Meta): Mapped {
    (m.rule, OperationOf(m))
  }

  /** One `meta[rule].update({method: operation})` on the paths. */
  function AddOperation(paths: Paths, rule: Option<string>, httpMethod: string, op: Operation): Paths {
    Set(paths, rule, Set(MethodsAt(paths, rule), httpMethod, op))
  }

  /** The merge loop of `_map_endpoints` over mapped endpoints, stopping at the first failure. */
  function Merge(xs: seq<Mapped>): Result<Paths>
    decreases |xs|
  {
    if |xs| == 0 then Ok([])
    else
      var paths :- Merge(xs[..|xs| - 1]);
      var last := xs[|xs| - 1];
      var entry :- last.1;
      Ok(AddOperation(paths, last.0, entry.0, entry.1))
  }

  /** `_map_endpoints`: `meta[rule].update(_map_endpoint(endpoint))` for each endpoint in order. */
  function PathsOf(ms: seq<Meta>): Result<Paths> {
    Merge(Each(MappedOf, ms))
  }

  /** Reference definition: the operation of the last mapped endpoint with this rule and method. */
  function LastOperation(xs: seq<Mapped>, rule: Option<string>, httpMethod: string): Option<Operation>
    decreases |xs|
  {
    if |xs| == 0 then None
    else
      var last := xs[|xs| - 1];
      if last.0 == rule && last.1.Ok? && last.1.value.0 == httpMethod then Some(last.1.value.1)
      else LastOperation(xs[..|xs| - 1], rule, httpMethod)
  }

  /** Adding an operation adds its rule and replaces exactly the operation under that rule and method. */
  lemma AddOperationGet(paths: Paths, r: Option<string>, k: string, op: Operation, rule: Option<string>, httpMethod: string)
    ensures HasKey(AddOperation(paths, r, k, op), rule) <==> HasKey(paths, rule) || r == rule
    ensures Get(MethodsAt(AddOperation(paths, r, k, op), rule), httpMethod) ==
      if r == rule && k == httpMethod then Some(op) else Get(MethodsAt(paths, rule), httpMethod)
  {
    var inner := Set(MethodsAt(paths, r), k, op);
    HasKeySet(paths, r, inner, rule);
    GetSet(paths, r, inner, rule);
    GetSet(MethodsAt(paths, r), k, op, httpMethod);
  }

  /** Merging succeeds exactly when every endpoint mapped, and otherwise fails as the first failing one did. */
  lemma {:induction false} MergeOk(xs: seq<Mapped>)
    ensures Merge(xs).Ok? <==> forall i | 0 <= i < |xs| :: xs[i].1.Ok?
    ensures Merge(xs).Err? ==> exists i | 0 <= i < |xs| :: (xs[i].1 == Err(Merge(xs).error) &&
      forall j | 0 <= j < i :: xs[j].1.Ok?)
    decreases |xs|
  {
    if |xs| > 0 {
      var init := xs[..|xs| - 1];
      var last := xs[|xs| - 1];
      MergeOk(init);
      assert forall j | 0 <= j < |init| :: xs[j].1 == init[j].1;
      if Merge(init).Err? {
        var i :| 0 <= i < |init| && init[i].1 == Err(Merge(init).error) && forall j | 0 <= j < i :: init[j].1.Ok?;
        assert !xs[i].1.Ok?;
      } else if last.1.Err? {
        assert xs[|xs| - 1].1 == Err(Merge(xs).error);
      }
    }
  }

  function RuleOf(x: Mapped): Option<string> {
    x.0
  }

  function MetaRule(m: Meta): Option<string> {
    m.rule
  }

  /** A rule is present exactly when some endpoint is filed under it. */
  lemma {:induction false} MergeRules(xs: seq<Mapped>, rule: Option<string>)
    requires Merge(xs).Ok?
    ensures HasKey(Merge(xs).value, rule) <==> rule in Each(RuleOf, xs)
    decreases |xs|
  {
    if |xs| > 0 {
      var init := xs[..|xs| - 1];
      var last := xs[|xs| - 1];
      MergeRules(init, rule);
      AddOperationGet(Merge(init).value, last.0, last.1.value.0, last.1.value.1, rule, "");
    }
  }

  /** Methods of the same rule merge, and for the same rule and method the last endpoint wins. */
  lemma {:induction false} MergeGet(xs: seq<Mapped>, rule: Option<string>, httpMethod: string)
    requires Merge(xs).Ok?
    ensures Get(MethodsAt(Merge(xs).value, rule), httpMethod) == LastOperation(xs, rule, httpMethod)
    decreases |xs|
  {
    if |xs| > 0 {
      var init := xs[..|xs| - 1];
      var last := xs[|xs| - 1];
      MergeGet(init, rule, httpMethod);
      AddOperationGet(Merge(init).value, last.0, last.1.value.0, last.1.value.1, rule, httpMethod);
    }
  }

  /** Both levels of `paths` are proper dicts: no rule and no method under a rule appears twice. */
  lemma {:induction false} MergeUnique(xs: seq<Mapped>)
    requires Merge(xs).Ok?
    ensures UniqueKeys(Merge(xs).value)
    ensures forall i | 0 <= i < |Merge(xs).value| :: UniqueKeys(Merge(xs).value[i].1)
    decreases |xs|
  {
    if |xs| > 0 {
      var init := xs[..|xs| - 1];
      var last := xs[|xs| - 1];
      var paths := Merge(init).value;
      var entry := last.1.value;
      MergeUnique(init);
      var inner := MethodsAt(paths, last.0);
      assert UniqueKeys(inner) by {
        if HasKey(paths, last.0) {
          var k := IndexOf(paths, last.0).value;
          assert inner == paths[k].1;
        }
      }
      SetUnique(inner, entry.0, entry.1);
      SetUnique(paths, last.0, Set(inner, entry.0, entry.1));
      SetEntries(paths, last.0, Set(inner, entry.0, entry.1));
    }
  }

  /** One more mapped endpoint, merged into the paths so far. */
  lemma MergeStep(xs: seq<Mapped>, i: nat, paths: Paths)
    requires i < |xs| && Merge(xs[..i]) == Ok(paths) && xs[i].1.Ok?
    ensures Merge(xs[..i + 1]) == Ok(AddOperation(paths, xs[i].0, xs[i].1.value.0, xs[i].1.value.1))
  {
    assert xs[..i + 1][..i] == xs[..i];
  }

  /** An endpoint that fails to map after successful ones is the failure of the whole merge. */
  lemma MergeFails(xs: seq<Mapped>, i: nat, paths: Paths)
    requires i < |xs| && Merge(xs[..i]) == Ok(paths) && xs[i].1.Err?
    ensures Merge(xs) == Err(xs[i].1.error)
  {
    assert xs[..i + 1][..i] == xs[..i];
    MergeStop(xs, i + 1);
  }

  /** A failure at some endpoint is the failure of all of them. */
  lemma {:induction false} MergeStop(xs: seq<Mapped>, k: nat)
    requires k <= |xs| && Merge(xs[..k]).Err?
    ensures Merge(xs) == Err(Merge(xs[..k]).error)
    decreases |xs| - k
  {
    if k < |xs| {
      assert xs[..k + 1][..k] == xs[..k];
      MergeStop(xs, k + 1);
    } else {
      assert xs[..k] == xs;
    }
  }

  /** Mapping the endpoints succeeds exactly when each maps, and otherwise fails as the first failing one does. */
  lemma PathsOfOk(ms: seq<Meta>)
    ensures PathsOf(ms).Ok? <==> forall i | 0 <= i < |ms| :: OperationOf(ms[i]).Ok?
    ensures PathsOf(ms).Err? ==> exists i | 0 <= i < |ms| :: (OperationOf(ms[i]) == Err(PathsOf(ms).error) &&
      forall j | 0 <= j < i :: OperationOf(ms[j]).Ok?)
  {
    EachAt(MappedOf, ms);
    MergeOk(Each(MappedOf, ms));
  }

  /** The rules of `paths` are exactly the endpoints' rules. */
  lemma PathsOfRules(ms: seq<Meta>, rule: Option<string>)
    requires PathsOf(ms).Ok?
    ensures HasKey(PathsOf(ms).value, rule) <==> exists i | 0 <= i < |ms| :: ms[i].rule == rule
  {
    var xs := Each(MappedOf, ms);
    MergeRules(xs, rule);
    assert forall m :: RuleOf(MappedOf(m)) == MetaRule(m);
    EachCompose(MappedOf, RuleOf, MetaRule, ms);
    EachAt(MetaRule, ms);
  }

  /** The registry after mapping endpoints: each endpoint's truthy body registered in turn. */
  function BodiesRegistered(models: Registry, ms: seq<Meta>): Registry
    decreases |ms|
  {
    if |ms| == 0 then models
    else
      var before := BodiesRegistered(models, ms[..|ms| - 1]);
      var last := ms[|ms| - 1];
      if HasModels(last.body) then Registered(before, last.body.value) else before
  }

  /** One more endpoint's body registered. */
  lemma BodiesRegisteredStep(models: Registry, ms: seq<Meta>, i: nat)
    requires i < |ms|
    ensures BodiesRegistered(models, ms[..i + 1]) ==
      var before := BodiesRegistered(models, ms[..i]);
      if HasModels(ms[i].body) then Registered(before, ms[i].body.value) else before
  {
    assert ms[..i + 1][..i] == ms[..i];
  }

  /** Some endpoint among `ms` has a truthy body naming a model one of whose entries is keyed `k`. */
  predicate FromSomeBody(ms: seq<Meta>, k: string) {
    exists i | 0 <= i < |ms| ::
      HasModels(ms[i].body) && exists m | m in ArgModels(ms[i].body.value) :: HasKey(ModelEntries(m), k)
  }

  /**
   * Every key the mapped bodies add to the registry is an entry of a model
   * that some endpoint's truthy body names.
   */
  lemma {:induction false} BodiesRegisteredFrom(models: Registry, ms: seq<Meta>, k: string)
    ensures HasKey(BodiesRegistered(models, ms), k) ==> HasKey(models, k) || FromSomeBody(ms, k)
    decreases |ms|
  {
    if |ms| > 0 {
      var init := ms[..|ms| - 1];
      var last := ms[|ms| - 1];
      BodiesRegisteredFrom(models, init, k);
      var before := BodiesRegistered(models, init);
      if HasModels(last.body) {
        RegisteredFrom(before, last.body.value, k);
      }
      if HasKey(BodiesRegistered(models, ms), k) && !HasKey(models, k) {
        if HasKey(before, k) {
          var i :| 0 <= i < |init| &&
            HasModels(init[i].body) && exists m | m in ArgModels(init[i].body.value) :: HasKey(ModelEntries(m), k);
          assert ms[i] == init[i];
        } else {
          assert HasModels(ms[|ms| - 1].body);
        }
      }
    }
  }

  /** Registering bodies only ever adds keys, and keeps the registry a proper dict. */
  lemma {:induction false} BodiesRegisteredKeeps(models: Registry, ms: seq<Meta>, k: string)
    requires UniqueKeys(models)
    ensures UniqueKeys(BodiesRegistered(models, ms))
    ensures HasKey(models, k) ==> HasKey(BodiesRegistered(models, ms), k)
    decreases |ms|
  {
    if |ms| > 0 {
      var init := ms[..|ms| - 1];
      var last := ms[|ms| - 1];
      BodiesRegisteredKeeps(models, init, k);
      var before := BodiesRegistered(models, init);
      if HasModels(last.body) {
        match last.body.value
        case One(m) =>
          if !HasKey(before, ModelName(m)) {
            UpdateUnique(before, ModelEntries(m));
            HasKeyUpdate(before, ModelEntries(m), k);
          }
        case Many(mm) =>
          RegisterAllKeeps(before, mm, k);
      }
    }
  }

  // ---------------------------------------------------------------------
  // The processor object
  // ---------------------------------------------------------------------

  class SchemaProcessor {
    /** `_models`: the registry that becomes `components.schemas`. */
    var models: Registry

    constructor()
      ensures models == []
    {
      models := [];
    }

    /** `_generate_model_schema`, popping and re-keying the `$defs` of each model it generates. */
    static method GenerateModelSchema(arg: ModelArg) returns (r: Generated)
      ensures r == ModelSchemas.GenerateModelSchema(arg)
    {
      match arg
      case One(m) =>
        var entries := GenerateEntries(m);
        r := OneDict(entries);
      case Many(ms) =>
        var dicts: seq<Dict<string, Json>> := [];
        var i := 0;
        while i < |ms|
          invariant 0 <= i <= |ms|
          invariant dicts == EntriesOf(ms[..i])
        {
          var entries := GenerateEntries(ms[i]);
          EachSnoc(ModelEntries, ms, i);
          dicts := dicts + [entries];
          i := i + 1;
        }
        assert ms[..|ms|] == ms;
        r := DictList(dicts);
    }

    /** `_generate_model_schema` on one model: its flattened defs, then its own schema under its title. */
    static method GenerateEntries(m: Model) returns (entries: Dict<string, Json>)
      ensures entries == ModelEntries(m)
    {
      var popped;
      entries, popped := ParseDefs(m.jsonSchema);
      entries := Set(entries, Title(m.jsonSchema), popped);
    }

    /**
     * `_get_model_reference`: the reference of the model(s); a model whose
     * name is not yet a key of the registry has its entries added.
     */
    method GetModelReference(arg: ModelArg) returns (r: Json)
      modifies this
      ensures r == Reference(arg)
      ensures models == Registered(old(models), arg)
    {
      match arg
      case One(m) =>
        r := GetOneReference(m);
      case Many(ms) =>
        var refs: seq<Json> := [];
        var i := 0;
        while i < |ms|
          invariant 0 <= i <= |ms|
          invariant RegisterAll(models, ms[i..]) == RegisterAll(old(models), ms)
          invariant refs == RefsOf(ms[..i])
        {
          RegisterAllStep(models, ms, i);
          EachSnoc(ModelRef, ms, i);
          var ref := GetOneReference(ms[i]);
          refs := refs + [ref];
          i := i + 1;
        }
        RegisterAllStep(models, ms, |ms|);
        assert ms[..|ms|] == ms;
        r := Single("oneOf", JArray(refs));
    }

    method GetOneReference(m: Model) returns (r: Json)
      modifies this
      ensures r == RefTo(ModelName(m))
      ensures models == RegisterOne(old(models), m)
    {
      var className := ModelName(m);
      if !HasKey(models, className) {
        var g := GenerateModelSchema(One(m));
        models := Update(models, g.entries);
      }
      r := Single("$ref", JString("#/components/schemas/" + className));
    }

    /** `_map_query`: generates the schema without registering it. */
    method MapQuery(query: ModelArg) returns (r: Result<seq<Json>>)
      ensures r == QueryOf(query)
    {
      var g := GenerateModelSchema(query);
      if g.DictList? {
        return Err(QueryIsList);
      }
      var schema := Get(g.entries, ModelName(query.model));
      if schema.None? {
        return Err(QueryTitleMismatch);
      }
      var params := ProcessProperties(PropertiesOf(schema.value), RequiredOf(schema.value), true);
      return Ok(params);
    }

    /** `_map_body`: the media content holding the body's reference, registering its models. */
    method MapBody(body: ModelArg) returns (r: Json)
      modifies this
      ensures r == MediaContent(Reference(body))
      ensures models == Registered(old(models), body)
    {
      var ref := GetModelReference(body);
      r := MediaContent(ref);
    }

    /** `_map_responses`: `data.update({code: content})` per response, in order. */
    method MapResponses(rs: seq<ResponseSchema>) returns (data: Dict<int, Json>)
      ensures data == ResponsesOf(rs)
    {
      data := [];
      var i := 0;
      while i < |rs|
        invariant 0 <= i <= |rs|
        invariant data == ResponsesOf(rs[..i])
      {
        ResponsesOfSnoc(rs, i);
        UpdateSingle(data, rs[i].statusCode, MediaContent(ParseResponseBody(rs[i].body)));
        data := Update(data, [(rs[i].statusCode, MediaContent(ParseResponseBody(rs[i].body)))]);
        i := i + 1;
      }
      assert rs[..|rs|] == rs;
    }

    /** `_map_endpoint`: as `OperationOf`, registering the body models when it succeeds. */
    method MapEndpoint(e: EndpointMeta) returns (r: Result<(string, Operation)>)
      modifies this
      ensures r == OperationOf(e.Value())
      ensures r.Ok? ==> models == if HasModels(e.body) then Registered(old(models), e.body.value) else old(models)
      ensures r.Err? ==> models == old(models)
    {
      var m := e.Value();
      var query: Result<seq<Json>> := Ok([]);
      if m.query.Some? && m.query.value.Truthy() {
        query := MapQuery(m.query.value);
      }
      if query.Err? {
        return Err(query.error);
      }
      var pathParams: seq<Json> := [];
      if |m.path| > 0 {
        pathParams := MapPath(m.path);
      }
      if m.httpMethod.None? {
        return Err(NoneAttribute);
      }
      var httpMethod := Lower(m.httpMethod.value);
      var requestBody: Option<Json> := None;
      if m.body.Some? && m.body.value.Truthy() {
        var b := MapBody(m.body.value);
        requestBody := Some(b);
      }
      var responses: Option<Dict<int, Json>> := None;
      if m.responses.Some? && |m.responses.value| > 0 {
        var d := MapResponses(m.responses.value);
        responses := Some(d);
      }
      assert requestBody == BodyPart(m.body) && responses == ResponsesPart(m.responses);
      r := Ok((httpMethod, Operation(m.summary, m.description, OperationId(m.summary, httpMethod), m.tags,
                                     query.value + pathParams, requestBody, responses)));
    }

    /** `_map_endpoints`: the paths of all endpoints, with every body model registered in turn. */
    method MapEndpoints(es: seq<EndpointMeta>) returns (r: Result<Paths>)
      modifies this
      ensures r == PathsOf(Values(es))
      ensures r.Ok? ==> models == BodiesRegistered(old(models), Values(es))
      ensures r.Err? ==> StoppedMapping(old(models), Values(es), models)
    {
      ghost var vs := Values(es);
      EachAt(MappedOf, vs);
      var paths: Paths := [];
      var i := 0;
      while i < |es|
        invariant 0 <= i <= |es|
        invariant Merge(Each(MappedOf, vs)[..i]) == Ok(paths)
        invariant models == BodiesRegistered(old(models), vs[..i])
        invariant Values(es) == vs
      {
        var next := MapInto(es, i, paths, vs, old(models));
        if next.Err? {
          return Err(next.error);
        }
        paths := next.value;
        i := i + 1;
      }
      assert Each(MappedOf, vs)[..|es|] == Each(MappedOf, vs);
      assert vs[..|es|] == vs;
      return Ok(paths);
    }

    /**
     * One iteration of `_map_endpoints`: the `i`-th endpoint is mapped and its
     * operation filed under its rule; on failure the whole mapping fails with
     * that endpoint's error and the registry holds the earlier bodies.
     */
    method MapInto(es: seq<EndpointMeta>, i: nat, paths: Paths, ghost vs: seq<Meta>, ghost start: Registry)
      returns (r: Result<Paths>)
      requires i < |es| && Values(es) == vs
      requires |Each(MappedOf, vs)| == |vs| && Merge(Each(MappedOf, vs)[..i]) == Ok(paths)
      requires models == BodiesRegistered(start, vs[..i])
      modifies this
      ensures Values(es) == vs
      ensures r.Err? ==> PathsOf(vs) == Err(r.error) && StoppedMapping(start, vs, models)
      ensures r.Ok? ==> Merge(Each(MappedOf, vs)[..i + 1]) == r && models == BodiesRegistered(start, vs[..i + 1])
    {
      assert es[i].Value() == vs[i];
      var entry := MapEndpoint(es[i]);
      if entry.Err? {
        StoppedMappingAt(start, vs, i, paths, models);
        return Err(entry.error);
      }
      MappedStep(start, vs, i, paths, models);
      var (httpMethod, op) := entry.value;
      return Ok(AddOperation(paths, es[i].rule, httpMethod, op));
    }
  }

  /** One more endpoint mapped: its operation is filed under its rule and its body registered. */
  lemma MappedStep(start: Registry, vs: seq<Meta>, i: nat, paths: Paths, now: Registry)
    requires i < |vs| && |Each(MappedOf, vs)| == |vs| && Merge(Each(MappedOf, vs)[..i]) == Ok(paths)
    requires OperationOf(vs[i]).Ok?
    requires now == if HasModels(vs[i].body) then Registered(BodiesRegistered(start, vs[..i]), vs[i].body.value)
                    else BodiesRegistered(start, vs[..i])
    ensures Merge(Each(MappedOf, vs)[..i + 1]) ==
      Ok(AddOperation(paths, vs[i].rule, OperationOf(vs[i]).value.0, OperationOf(vs[i]).value.1))
    ensures now == BodiesRegistered(start, vs[..i + 1])
  {
    EachAt(MappedOf, vs);
    BodiesRegisteredStep(start, vs, i);
    MergeStep(Each(MappedOf, vs), i, paths);
  }

  /**
   * What `_map_endpoints` leaves in the registry when an endpoint fails to
   * map: the bodies of every endpoint before the first failing one.
   */
  predicate StoppedMapping(start: Registry, ms: seq<Meta>, now: Registry) {
    exists i | 0 <= i < |ms| ::
      (forall j | 0 <= j < i :: OperationOf(ms[j]).Ok?) && OperationOf(ms[i]).Err? &&
      now == BodiesRegistered(start, ms[..i])
  }

  /**
   * The mapping loop stopped at `i`, the merge of everything before it having
   * gone through: the whole merge fails with that endpoint's error.
   */
  lemma StoppedMappingAt(start: Registry, ms: seq<Meta>, i: nat, paths: Paths, now: Registry)
    requires i < |ms| && OperationOf(ms[i]).Err? && now == BodiesRegistered(start, ms[..i])
    requires |Each(MappedOf, ms)| == |ms| && Merge(Each(MappedOf, ms)[..i]) == Ok(paths)
    ensures PathsOf(ms) == Err(OperationOf(ms[i]).error)
    ensures StoppedMapping(start, ms, now)
  {
    var xs := Each(MappedOf, ms);
    EachAt(MappedOf, ms);
    MergeFails(xs, i, paths);
    MergeOk(xs[..i]);
    forall j | 0 <= j < i
      ensures OperationOf(ms[j]).Ok?
    {
      assert xs[..i][j] == MappedOf(ms[j]);
    }
  }

  /** One step of the forward registration fold; at the end of the list the registry is left as it is. */
  lemma RegisterAllStep(models: Registry, ms: seq<Model>, i: nat)
    requires i <= |ms|
    ensures i < |ms| ==> RegisterAll(models, ms[i..]) == RegisterAll(RegisterOne(models, ms[i]), ms[i + 1..])
    ensures i == |ms| ==> RegisterAll(models, ms[i..]) == models
  {
    if i < |ms| {
      assert ms[i..][0] == ms[i] && ms[i..][1..] == ms[i + 1..];
    } else {
      assert ms[i..] == [];
    }
  }
}
