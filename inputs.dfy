/**
 * What the generator receives from its collaborators: pydantic models with
 * the JSON schema `model_json_schema` produces for them, declared body types
 * (the shapes `typing.get_origin`/`get_args` would reveal), view functions
 * with their parameters (what `inspect.signature` would reveal) and the
 * route bindings a Flask blueprint records.
 */
module Inputs {
  import opened Results
  import opened Json

  /** The object carries a string `"title"`. */
  predicate Titled(j: Json) {
    Member(j, "title").Some? && Member(j, "title").value.JString?
  }

  function Title(j: Json): string
    requires Titled(j)
  {
    Member(j, "title").value.s
  }

  /** `"properties"`, when present, maps each field name to a dict describing it. */
  predicate PropertiesShaped(j: Json) {
    match Member(j, "properties")
    case None => true
    case Some(p) =>
      p.JObject? && UniqueKeys(p.fields) &&
      forall i | 0 <= i < |p.fields| :: p.fields[i].1.JObject?
  }

  /** `"required"`, when present, is a list. */
  predicate RequiredShaped(j: Json) {
    match Member(j, "required")
    case None => true
    case Some(r) => r.JArray?
  }

  /** The object schema pydantic produces for one model. */
  predicate ObjectSchema(j: Json) {
    j.JObject? && UniqueKeys(j.fields) && Titled(j) && PropertiesShaped(j) && RequiredShaped(j)
  }

  /** Every value of the dict is an object schema. */
  predicate ObjectSchemas(d: Dict<string, Json>) {
    forall i | 0 <= i < |d| :: ObjectSchema(d[i].1)
  }

  /** A top-level model schema: an object schema whose `"$defs"`, when present, holds object schemas. */
  predicate PydanticShaped(j: Json) {
    ObjectSchema(j) &&
    match Member(j, "$defs")
    case None => true
    case Some(d) => d.JObject? && UniqueKeys(d.fields) && ObjectSchemas(d.fields)
  }

  /** What `model.model_json_schema(ref_template="#/components/schemas/{model}")` returns. */
  type ModelJsonSchema = j: Json | PydanticShaped(j)
    witness JObject([("title", JString("Model"))])

  /** A pydantic model class: its `__name__` and the schema pydantic generates for it. */
  datatype Model = Model(name: string, jsonSchema: ModelJsonSchema)

  /** `Type[BaseModel] | list[Type[BaseModel]]`, the type of `query` and `body`. */
  datatype ModelArg = One(model: Model) | Many(models: seq<Model>) {
    /** Python truthiness: a class is truthy, a list only when it is not empty. */
    predicate Truthy() {
      One? || |models| > 0
    }
  }

  /**
   * A declared response body, as `get_origin`/`get_args` and the value tests
   * see it: type objects, literal values, `None`, the generics `list[...]` and
   * `Union[...]`/`X | Y`, model classes, and anything else.
   */
  datatype DeclaredType =
    | StrType
    | IntType
    | FloatType
    | BoolType
    | StrValue(s: string)
    | IntValue(i: int)
    | FloatValue(token: string)
    | BoolValue(b: bool)
    | NoneValue
    | ListOf(args: seq<DeclaredType>)
    | UnionOf(args: seq<DeclaredType>)
    | ModelClass(model: Model)
    | OtherType

  /** `ResponseSchema(status_code, body, description)`. */
  datatype ResponseSchema = ResponseSchema(statusCode: int, body: DeclaredType, description: Option<string>)

  /** The default value of a view-function parameter: a `Path` marker or something else. */
  datatype ParamDefault = PathMarker(description: Option<string>) | OtherDefault | NoDefault

  /** One parameter of `inspect.signature(view_func)`. */
  datatype Param = Param(name: string, annotation: string, default: ParamDefault)

  /** One entry of an endpoint's `path` list: `{"name", "type", "description"}` of a `Path`-marked parameter. */
  datatype PathEntry = PathEntry(name: string, annotation: string, description: Option<string>)

  datatype ViewFunc = ViewFunc(name: string, params: seq<Param>)

  /** One deferred `add_url_rule(rule, endpoint, view_func, **options)` call a blueprint recorded. */
  datatype Binding = Binding(rule: string, endpoint: Option<string>, viewFunc: ViewFunc, methods: Option<seq<string>>)

  /** A Flask blueprint as the generator sees it: its URL prefix and recorded bindings. */
  datatype Blueprint = Blueprint(name: string, urlPrefix: Option<string>, deferredFunctions: seq<Binding>)

  /** The `info` block of the document. */
  datatype InfoSchema = InfoSchema(title: string, summary: Option<string>, description: Option<string>, version: string)

  /** Python truthiness of an optional string: neither None nor empty. */
  predicate TruthyString(s: Option<string>) {
    s.Some? && |s.value| > 0
  }

  /** `a or b` for an optional string and a string. */
  function OrElse(a: Option<string>, b: string): string {
    if TruthyString(a) then a.value else b
  }
}
