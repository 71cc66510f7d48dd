/**
 * The extension object of the first iteration (src/swadantic.py): it binds
 * each registered group's deferred route registrations into the group's
 * metas, keeps the groups in registration order, and maps them into its own
 * persistent `paths` and the processor's registry once a document is asked
 * for, caching the first complete document.
 */
module SrcSwadantic {
  import opened Results
  import opened Json
  import opened Inputs
  import opened ModelSchemas
  import opened OpenApi
  import opened SrcEndpoint
  import opened SrcSchema
  import opened SrcProcessor
  import opened SrcBinding
  import opened SrcMapping
  import G = Groups
  import E = Endpoints
  import W = Swadantic

  /** The document: `{"openapi": "3.1.1", "info": …, "paths": …, "components": {"schemas": …}}`. */
  datatype SrcDocument = SrcDocument(openapi: string, info: InfoSchema, paths: SrcPaths, schemas: Registry)

  /** The metas of one group. */
  ghost function MetasOf(s: Schema): set<object>
    reads s
  {
    set k | 0 <= k < |s.endpoints| :: s.endpoints[k]
  }

  /** The metas of the listed groups. */
  ghost function MetaSet(gs: seq<Schema>): set<object>
    reads gs
    decreases |gs|
  {
    if |gs| == 0 then {} else MetaSet(gs[..|gs| - 1]) + MetasOf(gs[|gs| - 1])
  }

  /** The values of every group's metas, group by group. */
  ghost function GroupValues(gs: seq<Schema>): (r: seq<seq<SrcMeta>>)
    reads gs, MetaSet(gs)
    ensures |r| == |gs|
    decreases |gs|
  {
    if |gs| == 0 then [] else GroupValues(gs[..|gs| - 1]) + [Values(gs[|gs| - 1].endpoints)]
  }

  lemma {:induction false} GroupValuesAt(gs: seq<Schema>, g: nat)
    requires g < |gs|
    ensures GroupValues(gs)[g] == Values(gs[g].endpoints)
    decreases |gs|
  {
    if g < |gs| - 1 {
      GroupValuesAt(gs[..|gs| - 1], g);
    }
  }

  /** The first of the metas recorded for the function, found as `next(...)` does, or null. */
  method FindMeta(es: seq<EndpointMeta>, functionName: string) returns (m: EndpointMeta?)
    ensures m == null <==> G.FirstIndexOf(FunctionNames(Values(es)), functionName).None?
    ensures m != null ==> m == es[G.FirstIndexOf(FunctionNames(Values(es)), functionName).value]
  {
    var i := 0;
    while i < |es|
      invariant 0 <= i <= |es|
      invariant forall j | 0 <= j < i :: es[j].functionName != functionName
    {
      if es[i].functionName == functionName {
        G.FirstIndexOfIs(FunctionNames(Values(es)), functionName, i);
        return es[i];
      }
      i := i + 1;
    }
    return null;
  }

  /**
   * One iteration of `register_schema`'s loop: run the binding against a
   * fresh `Endpoint`, find the first meta of its function and write the
   * endpoint's rule and method into it.
   */
  method BindBinding(es: seq<EndpointMeta>, b: Binding) returns (r: Result<()>)
    requires E.Distinct(es)
    modifies set k | 0 <= k < |es| :: es[k]
    ensures var o := BindOne(old(Values(es)), b);
      (r.Ok? <==> o.Ok?) && (r.Err? ==> r.error == o.error && Values(es) == old(Values(es))) &&
      (o.Ok? ==> Values(es) == o.value)
  {
    var e, captured := RunBinding(b);
    if captured.Err? {
      return Err(captured.error);
    }
    var c := captured.value;
    var meta := FindMeta(es, c.functionName);
    if meta == null {
      return Err(NoMatchingMeta);
    }
    ghost var before := Values(es);
    ghost var idx := G.FirstIndexOf(FunctionNames(before), c.functionName).value;
    meta.Bind(e.rule, e.httpMethod);
    forall j | 0 <= j < |es|
      ensures Values(es)[j] == before[idx := Bound(before[idx], c)][j]
    {
      if j != idx {
        assert es[j] != es[idx];
      }
    }
    return Ok(());
  }

  /** The pass over one more binding, as `BindAll` describes it, after the earlier ones went through. */
  method BindStep(es: seq<EndpointMeta>, ghost start: seq<SrcMeta>, bs: seq<Binding>, k: nat) returns (r: Result<()>)
    requires E.Distinct(es) && k < |bs|
    requires BindAll(start, bs[..k]) == Outcome(Values(es), Ok(()))
    modifies set j | 0 <= j < |es| :: es[j]
    ensures r.Ok? ==> BindAll(start, bs[..k + 1]) == Outcome(Values(es), Ok(()))
    ensures r.Err? ==> BindAll(start, bs) == Outcome(Values(es), r)
  {
    assert bs[..k + 1][..k] == bs[..k];
    r := BindBinding(es, bs[k]);
    if r.Err? {
      BindAllStop(start, bs, k + 1);
    }
  }

  /** `register_schema`'s loop over the deferred bindings, as `BindAll` describes it. */
  method BindDeferred(es: seq<EndpointMeta>, bs: seq<Binding>) returns (r: Result<()>)
    requires E.Distinct(es)
    modifies set j | 0 <= j < |es| :: es[j]
    ensures var o := BindAll(old(Values(es)), bs);
      Values(es) == o.metas && r == o.result
  {
    ghost var start := Values(es);
    var k := 0;
    while k < |bs|
      invariant 0 <= k <= |bs|
      invariant BindAll(start, bs[..k]) == Outcome(Values(es), Ok(()))
    {
      r := BindStep(es, start, bs, k);
      if r.Err? {
        return;
      }
      k := k + 1;
    }
    assert bs[..|bs|] == bs;
    return Ok(());
  }

  class Swadantic {
    const info: InfoSchema
    /** The inherited `BaseSchemaProcessor` part, owning `_models`. */
    const processor: BaseSchemaProcessor
    var schemas: seq<Schema>
    /** `_paths`: kept across calls and updated in place by every mapping pass. */
    var paths: SrcPaths
    /** The `cached_property` slot of `get_spec`. */
    var spec: Option<SrcDocument>

    /** `Swadantic(info_schema)`: empty registry, groups and paths, version 3.1.1. */
    constructor(info: InfoSchema)
      ensures this.info == info && fresh(processor) && processor.models == []
      ensures schemas == [] && paths == [] && spec == None
    {
      this.info := info;
      processor := new BaseSchemaProcessor();
      schemas := [];
      paths := [];
      spec := None;
    }

    /**
     * `register_schema`: rejects a blueprint without a list of deferred
     * functions, binds every deferred registration into the group's metas,
     * and appends the group only when every binding was usable; a failing
     * binding leaves what the earlier ones wrote. Nothing prevents
     * registering a group twice.
     */
    method RegisterSchema(schema: Schema) returns (r: Result<()>)
      requires schema.Valid()
      modifies this, set k | 0 <= k < |schema.endpoints| :: schema.endpoints[k]
      ensures var o := RegisterOutcome(schema.blueprint.deferred, old(Values(schema.endpoints)));
        Values(schema.endpoints) == o.metas && r == o.result
      ensures schemas == if r.Ok? then old(schemas) + [schema] else old(schemas)
      ensures paths == old(paths) && spec == old(spec)
    {
      if !schema.blueprint.deferred.Deferred? {
        return Err(InvalidDeferred);
      }
      var bound := BindDeferred(schema.endpoints, schema.blueprint.deferred.bindings);
      if bound.Err? {
        return bound;
      }
      schemas := schemas + [schema];
      return Ok(());
    }

    /** `_map_body`: every generated dict goes into the registry, then the body's reference is wrapped as media content. */
    method MapBody(body: ModelArg) returns (r: Json)
      modifies processor
      ensures r == MediaContent(Reference(body))
      ensures processor.models == BodyMerged(old(processor.models), body)
    {
      var generated := BaseSchemaProcessor.GetModelSchema(body);
      match generated {
        case OneDict(d) =>
          processor.UpdateModelSchemas(d);
        case DictList(ds) =>
          MergeDicts(ds);
      }
      var ref := BaseSchemaProcessor.GetModelReference(body);
      r := MediaContent(ref);
    }

    /** `for schema in schemas: self.update_model_schemas(schema)`. */
    method MergeDicts(ds: seq<Dict<string, Json>>)
      modifies processor
      ensures processor.models == MergeAll(old(processor.models), ds)
    {
      var i := 0;
      while i < |ds|
        invariant 0 <= i <= |ds|
        invariant processor.models == MergeAll(old(processor.models), ds[..i])
      {
        assert ds[..i + 1][..i] == ds[..i];
        processor.UpdateModelSchemas(ds[i]);
        i := i + 1;
      }
      assert ds[..|ds|] == ds;
    }

    /** One iteration of `_map_endpoints`, as `MapOne` describes. */
    method MapEndpoint(acc: SrcPaths, e: EndpointMeta) returns (r: Result<SrcPaths>)
      modifies processor
      ensures var st := MapOne(acc, old(processor.models), e.Value());
        processor.models == st.models && (r.Ok? <==> st.result.Ok?) &&
        (r.Ok? ==> r.value == st.paths) && (r.Err? ==> r.error == st.result.error)
    {
      if e.httpMethod.Absent? {
        return Err(MissingAttribute);
      }
      if e.httpMethod.value.None? {
        return Err(NoneAttribute);
      }
      var httpMethod := Processor.Lower(e.httpMethod.value.value);
      if e.body.Absent? {
        return Err(MissingAttribute);
      }
      var requestBody: Option<Json> := None;
      if Processor.HasModels(e.body.value) {
        var content := MapBody(e.body.value.value);
        requestBody := Some(content);
      }
      var op := SrcOperation(e.name, Processor.OperationId(e.name, httpMethod), requestBody);
      if e.rule.Absent? {
        return Err(MissingAttribute);
      }
      return Ok(Put(acc, e.rule.value, httpMethod, op));
    }

    /** `_map_endpoints`: the group's paths from a fresh dict, registering truthy bodies on the way. */
    method MapEndpoints(es: seq<EndpointMeta>) returns (r: Result<SrcPaths>)
      modifies processor
      ensures var st := MapEndpointsOf(old(processor.models), Values(es));
        processor.models == st.models && (r.Ok? <==> st.result.Ok?) &&
        (r.Ok? ==> r.value == st.paths) && (r.Err? ==> r.error == st.result.error)
    {
      var acc: SrcPaths := [];
      var i := 0;
      while i < |es|
        invariant 0 <= i <= |es|
        invariant MapEndpointsOf(old(processor.models), Values(es)[..i]) == Step(acc, processor.models, Ok(()))
      {
        assert Values(es)[..i + 1][..i] == Values(es)[..i];
        assert Values(es)[..i + 1][i] == es[i].Value();
        var one := MapEndpoint(acc, es[i]);
        if one.Err? {
          MapEndpointsStop(old(processor.models), Values(es), i + 1);
          return one;
        }
        acc := one.value;
        i := i + 1;
      }
      assert Values(es)[..|es|] == Values(es);
      return Ok(acc);
    }

    /**
     * One iteration of `_map_schemas`:
     * `self._paths.update(self._map_endpoints(schema.endpoints))` for the
     * group at `i`, as the pass over the group values `gv` describes.
     */
    method MapGroup(ghost paths0: SrcPaths, ghost models0: Registry, ghost gv: seq<seq<SrcMeta>>, i: nat)
      returns (r: Result<()>)
      requires i < |schemas| == |gv|
      requires forall j | 0 <= j < |schemas| :: Values(schemas[j].endpoints) == gv[j]
      requires MapSchemasOf(paths0, models0, gv[..i]) == Step(paths, processor.models, Ok(()))
      modifies this, processor
      ensures schemas == old(schemas) && spec == old(spec)
      ensures forall j | 0 <= j < |schemas| :: Values(schemas[j].endpoints) == gv[j]
      ensures r.Ok? ==> MapSchemasOf(paths0, models0, gv[..i + 1]) == Step(paths, processor.models, Ok(()))
      ensures r.Err? ==> MapSchemasOf(paths0, models0, gv) == Step(paths, processor.models, r)
    {
      MapSchemasSnoc(paths0, models0, gv, i);
      var mapped := MapEndpoints(schemas[i].endpoints);
      if mapped.Err? {
        MapSchemasStop(paths0, models0, gv, i + 1);
        return Err(mapped.error);
      }
      paths := Update(paths, mapped.value);
      return Ok(());
    }

    /** `_map_schemas`: each registered group's paths, in order, updated into `_paths`. */
    method MapSchemas() returns (r: Result<()>)
      modifies this, processor
      ensures var st := MapSchemasOf(old(paths), old(processor.models), old(GroupValues(schemas)));
        paths == st.paths && processor.models == st.models && r == st.result
      ensures schemas == old(schemas) && spec == old(spec)
    {
      ghost var gv := GroupValues(schemas);
      forall j | 0 <= j < |schemas|
        ensures Values(schemas[j].endpoints) == gv[j]
      {
        GroupValuesAt(schemas, j);
      }
      var i := 0;
      while i < |schemas|
        invariant 0 <= i <= |schemas|
        invariant schemas == old(schemas) && spec == old(spec)
        invariant forall j | 0 <= j < |schemas| :: Values(schemas[j].endpoints) == gv[j]
        invariant MapSchemasOf(old(paths), old(processor.models), gv[..i]) == Step(paths, processor.models, Ok(()))
      {
        var mapped := MapGroup(old(paths), old(processor.models), gv, i);
        if mapped.Err? {
          return mapped;
        }
        i := i + 1;
      }
      assert gv[..|schemas|] == gv;
      return Ok(());
    }

    /**
     * `get_spec`: the first complete mapping pass produces the document and
     * caches it; later calls return the cache. A failing pass caches nothing
     * but keeps what it put into `_paths` and the registry, so a later call
     * maps again on top of them.
     */
    method GetSpec() returns (r: Result<SrcDocument>)
      modifies this, processor
      ensures old(spec).Some? ==> r == Ok(old(spec).value) && spec == old(spec)
      ensures old(spec).Some? ==> paths == old(paths) && processor.models == old(processor.models)
      ensures old(spec).None? ==>
        var st := MapSchemasOf(old(paths), old(processor.models), old(GroupValues(schemas)));
        paths == st.paths && processor.models == st.models &&
        r == (if st.result.Ok? then Ok(SrcDocument(W.OpenApiVersion, info, st.paths, st.models))
              else Err(st.result.error)) &&
        spec == (if r.Ok? then Some(r.value) else None)
      ensures schemas == old(schemas)
    {
      if spec.Some? {
        return Ok(spec.value);
      }
      var mapped := MapSchemas();
      if mapped.Err? {
        return Err(mapped.error);
      }
      var document := SrcDocument("3.1.1", info, paths, processor.models);
      spec := Some(document);
      return Ok(document);
    }
  }

  /** The pass over one more group, after a complete pass over the earlier ones. */
  lemma MapSchemasSnoc(paths: SrcPaths, models: Registry, gs: seq<seq<SrcMeta>>, i: nat)
    requires i < |gs|
    ensures var before := MapSchemasOf(paths, models, gs[..i]);
      var mapped := MapEndpointsOf(before.models, gs[i]);
      before.result.Ok? ==>
        MapSchemasOf(paths, models, gs[..i + 1]) ==
          if mapped.result.Err? then Step(before.paths, mapped.models, mapped.result)
          else Step(Update(before.paths, mapped.paths), mapped.models, Ok(()))
  {
    assert gs[..i + 1][..i] == gs[..i];
  }

  /** Once a prefix of the groups failed, the later groups change nothing. */
  lemma {:induction false} MapSchemasStop(paths: SrcPaths, models: Registry, gs: seq<seq<SrcMeta>>, n: nat)
    requires 0 < n <= |gs|
    requires MapSchemasOf(paths, models, gs[..n - 1]).result.Ok?
    requires MapEndpointsOf(MapSchemasOf(paths, models, gs[..n - 1]).models, gs[n - 1]).result.Err?
    ensures MapSchemasOf(paths, models, gs) ==
      Step(MapSchemasOf(paths, models, gs[..n - 1]).paths,
           MapEndpointsOf(MapSchemasOf(paths, models, gs[..n - 1]).models, gs[n - 1]).models,
           MapEndpointsOf(MapSchemasOf(paths, models, gs[..n - 1]).models, gs[n - 1]).result)
    decreases |gs|
  {
    assert gs[..n][..n - 1] == gs[..n - 1];
    if n < |gs| {
      assert gs[..|gs| - 1][..n - 1] == gs[..n - 1];
      assert gs[..|gs| - 1][n - 1] == gs[n - 1];
      MapSchemasStop(paths, models, gs[..|gs| - 1], n);
    } else {
      assert gs[..n] == gs;
    }
  }
}
