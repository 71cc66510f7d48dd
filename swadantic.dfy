/**
 * The extension object of the latest iteration: it keeps the registered
 * root groups, in order and without repeats, and assembles the OpenAPI
 * document from them once, caching it for every later request.
 */
module Swadantic {
  import opened Results
  import opened Json
  import opened Inputs
  import opened Endpoints
  import opened ModelSchemas
  import opened Groups
  import opened Processor
  import opened Generator

  /** The OpenAPI version every document announces. */
  const OpenApiVersion: string := "3.1.1"

  /** The assembled document: `{"openapi": …, "info": …, "paths": …, "components": {"schemas": …}}`. */
  datatype Document = Document(openapi: string, info: InfoSchema, paths: Paths, schemas: Registry)

  /** What `init_app` is handed: nothing, something that is not a Flask app, or a Flask app. */
  datatype AppArg = NoApp | NotFlask | FlaskApp

  /** The document for the given root groups, generated with a fresh, empty registry. */
  function DocumentOf(info: InfoSchema, roots: seq<GroupValue>): Result<Document> {
    var spec :- GenerateOf(roots, []);
    Ok(Document(OpenApiVersion, info, spec.paths, spec.components))
  }

  /** The document's paths and schemas are exactly what one generation pass from an empty registry yields. */
  lemma DocumentOfGenerate(info: InfoSchema, roots: seq<GroupValue>)
    ensures DocumentOf(info, roots).Ok? <==> GenerateOf(roots, []).Ok?
    ensures DocumentOf(info, roots).Err? ==> DocumentOf(info, roots).error == GenerateOf(roots, []).error
    ensures DocumentOf(info, roots).Ok? ==>
      var d := DocumentOf(info, roots).value;
      d.openapi == "3.1.1" && d.info == info &&
      d.paths == GenerateOf(roots, []).value.paths && d.schemas == GenerateOf(roots, []).value.components
  {
  }

  /**
   * The document's schemas hold only entries of models that some flattened
   * endpoint's truthy body names: the registry starts empty, and nothing but
   * body registration writes to it.
   */
  lemma DocumentSchemas(info: InfoSchema, roots: seq<GroupValue>, k: string)
    requires DocumentOf(info, roots).Ok?
    ensures FlattenAll(roots).Ok?
    ensures HasKey(DocumentOf(info, roots).value.schemas, k) ==> FromSomeBody(FlattenAll(roots).value, k)
  {
    GenerateSpec(roots, [], None);
    BodiesRegisteredFrom([], FlattenAll(roots).value, k);
  }

  /** `init_app`'s guard: anything but a Flask app is a `TypeError`, raised before anything is registered. */
  function InitApp(app: AppArg): (r: Result<()>)
    ensures r.Ok? <==> app == FlaskApp
    ensures r.Err? ==> r.error == NotAFlaskApp
  {
    if app.FlaskApp? then Ok(()) else Err(NotAFlaskApp)
  }

  class Swadantic {
    const info: InfoSchema
    var schemas: seq<Schema>
    /** The `cached_property` slot of `get_spec`: empty until a document was produced. */
    var spec: Option<Document>

    constructor(info: InfoSchema)
      ensures this.info == info && schemas == [] && spec == None
    {
      this.info := info;
      schemas := [];
      spec := None;
    }

    /** `register_schema`: appends the group unless it is already registered; the cached document is kept. */
    method RegisterSchema(s: Schema)
      modifies this
      ensures schemas == AppendNew(old(schemas), s)
      ensures spec == old(spec)
    {
      if s !in schemas {
        schemas := schemas + [s];
      }
    }

    /**
     * `get_spec`: the first successful call generates the document with a
     * new generator over the registered groups and caches it; every later
     * call returns the cached document, whatever was registered since. A
     * failing generation caches nothing.
     */
    method GetSpec() returns (r: Result<Document>)
      requires spec.None? ==> Forestable(schemas) && this !in Footprint(schemas)
      modifies this, Footprint(schemas)
      ensures old(spec).Some? ==> r == Ok(old(spec).value) && spec == old(spec)
      ensures old(spec).None? ==> r == DocumentOf(info, old(Forest(schemas)))
      ensures old(spec).None? ==> spec == if r.Ok? then Some(r.value) else None
      ensures schemas == old(schemas)
    {
      if spec.Some? {
        return Ok(spec.value);
      }
      var document := GenerateDocument(info, schemas);
      if document.Ok? {
        spec := Some(document.value);
      }
      return document;
    }
  }

  /** `{"openapi": "3.1.1", "info": info, **OpenAPIGenerator().generate(roots)}`. */
  method GenerateDocument(info: InfoSchema, roots: seq<Schema>) returns (r: Result<Document>)
    requires Forestable(roots)
    modifies Footprint(roots)
    ensures r == DocumentOf(info, old(Forest(roots)))
  {
    ghost var trees := Forest(roots);
    ForestAt(roots);
    var candidates := Candidates(roots);
    assert Roots(candidates) == roots;
    var generator := new OpenAPIGenerator();
    ForestAt(roots);
    assert forall j | 0 <= j < |roots| :: roots[j].Tree() == trees[j];
    assert Forest(roots) == trees;
    forall j | 0 <= j < |roots|
      ensures generator.processor !in roots[j].Repr
    {
    }
    if generator.processor in Footprint(roots) {
      FootprintMember(roots, generator.processor);
      assert false;
    }
    var generated := generator.Generate(candidates);
    if generated.Err? {
      return Err(generated.error);
    }
    return Ok(Document(OpenApiVersion, info, generated.value.paths, generated.value.components));
  }

  /** Every registered group, handed to `generate` as a group. */
  function Candidates(gs: seq<Schema>): (r: seq<Candidate>)
    ensures |r| == |gs| && AllSchemas(r)
    ensures forall i | 0 <= i < |gs| :: r[i] == IsSchema(gs[i])
  {
    seq(|gs|, i requires 0 <= i < |gs| => IsSchema(gs[i]))
  }

  /** Registering a group twice is registering it once, and registration keeps the earlier order. */
  lemma RegisterTwice(gs: seq<Schema>, s: Schema)
    ensures AppendNew(AppendNew(gs, s), s) == AppendNew(gs, s)
    ensures AppendNew(gs, s)[..|gs|] == gs
    ensures Distinct(gs) ==> Distinct(AppendNew(gs, s))
  {
    AppendNewIdempotent(gs, s);
  }
}
