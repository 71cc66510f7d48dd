/**
 * The mapping pass of the first iteration's extension object
 * (src/swadantic.py), on values: every meta of every registered group
 * becomes an operation under `paths[rule][method]`, a truthy body is
 * generated into the registry first, and each group's paths replace, rule
 * by rule, what earlier groups put there.
 */
module SrcMapping {
  import opened Results
  import opened Json
  import opened Inputs
  import opened ModelSchemas
  import opened OpenApi
  import opened SrcEndpoint
  import opened SrcBinding
  import P = Processor
  import E = Endpoints

  /** One Operation Object: `{"summary": …, "operationId": …, "requestBody": …}`. */
  datatype SrcOperation = SrcOperation(summary: string, operationId: string, requestBody: Option<Json>)

  type SrcMethods = Dict<string, SrcOperation>

  /** Paths keyed by the meta's rule, which is `None` for a meta never bound. */
  type SrcPaths = Dict<Option<string>, SrcMethods>

  /** `meta[rule]` of a `defaultdict(dict)`: the rule's methods, or an empty dict. */
  function MethodsOf(paths: SrcPaths, rule: Option<string>): SrcMethods {
    match Get(paths, rule)
    case Some(ms) => ms
    case None => []
  }

  /** `meta[rule][method] = op`. */
  function Put(paths: SrcPaths, rule: Option<string>, httpMethod: string, op: SrcOperation): SrcPaths {
    Set(paths, rule, Set(MethodsOf(paths, rule), httpMethod, op))
  }

  /** `update_model_schemas` with each dict in turn. */
  function MergeAll(models: Registry, ds: seq<Dict<string, Json>>): Registry
    decreases |ds|
  {
    if |ds| == 0 then models else Update(MergeAll(models, ds[..|ds| - 1]), ds[|ds| - 1])
  }

  /** What `_map_body` does to the registry: every generated dict is merged in, whatever was there. */
  function BodyMerged(models: Registry, arg: ModelArg): Registry {
    match GenerateModelSchema(arg)
    case OneDict(d) => Update(models, d)
    case DictList(ds) => MergeAll(models, ds)
  }

  /** The meta has a method that is not `None`. */
  predicate HasMethod(m: SrcMeta) {
    m.httpMethod.Present? && m.httpMethod.value.Some?
  }

  /** Every attribute `_map_endpoints` reads exists, and the method is not `None`. */
  predicate Mappable(m: SrcMeta) {
    HasMethod(m) && m.body.Present? && m.rule.Present?
  }

  /** `endpoint.method.lower()`. */
  function MethodOf(m: SrcMeta): string
    requires HasMethod(m)
  {
    P.Lower(m.httpMethod.value.value)
  }

  /** The operation of a meta: its name as summary, the derived id, and the body's reference if it is truthy. */
  function OperationOf(m: SrcMeta): SrcOperation
    requires HasMethod(m) && m.body.Present?
  {
    SrcOperation(m.name, P.OperationId(m.name, MethodOf(m)),
                 if P.HasModels(m.body.value) then Some(MediaContent(Reference(m.body.value.value))) else None)
  }

  /** The registry once one meta's body went through `_map_body`, which happens only for a truthy body. */
  function EndpointModels(models: Registry, m: SrcMeta): Registry
    requires m.body.Present?
  {
    if P.HasModels(m.body.value) then BodyMerged(models, m.body.value.value) else models
  }

  /** The exception `_map_endpoints` raises on a meta that is not mappable. */
  function ErrorOf(m: SrcMeta): Error {
    if m.httpMethod.Absent? then MissingAttribute
    else if m.httpMethod.value.None? then NoneAttribute
    else MissingAttribute
  }

  /** The paths, the registry and whether the pass ran to the end. */
  datatype Step = Step(paths: SrcPaths, models: Registry, result: Result<()>)

  /**
   * One iteration of `_map_endpoints`: the method is read and lowered first,
   * then the operation is built (the body read and, if truthy, mapped),
   * and only then is the rule read to store it.
   */
  function MapOne(paths: SrcPaths, models: Registry, m: SrcMeta): Step {
    if !HasMethod(m) || m.body.Absent? then Step(paths, models, Err(ErrorOf(m)))
    else if m.rule.Absent? then Step(paths, EndpointModels(models, m), Err(MissingAttribute))
    else Step(Put(paths, m.rule.value, MethodOf(m), OperationOf(m)), EndpointModels(models, m), Ok(()))
  }

  /** `_map_endpoints(endpoints)`: a fresh dict filled meta by meta; the first failure stops it. */
  function MapEndpointsOf(models: Registry, ms: seq<SrcMeta>): Step
    decreases |ms|
  {
    if |ms| == 0 then Step([], models, Ok(()))
    else
      var before := MapEndpointsOf(models, ms[..|ms| - 1]);
      if before.result.Err? then before else MapOne(before.paths, before.models, ms[|ms| - 1])
  }

  /**
   * `_map_schemas`: `self._paths.update(self._map_endpoints(...))` for each
   * group in turn. A failing group stops the pass; the registry keeps what
   * its bodies added, the paths keep what earlier groups put there.
   */
  function MapSchemasOf(paths: SrcPaths, models: Registry, gs: seq<seq<SrcMeta>>): Step
    decreases |gs|
  {
    if |gs| == 0 then Step(paths, models, Ok(()))
    else
      var before := MapSchemasOf(paths, models, gs[..|gs| - 1]);
      if before.result.Err? then before
      else
        var mapped := MapEndpointsOf(before.models, gs[|gs| - 1]);
        if mapped.result.Err? then Step(before.paths, mapped.models, mapped.result)
        else Step(Update(before.paths, mapped.paths), mapped.models, Ok(()))
  }

  // ---------------------------------------------------------------------
  // Reference definitions
  // ---------------------------------------------------------------------

  /** Every meta of the list is mappable. */
  predicate AllMappable(ms: seq<SrcMeta>) {
    forall k | 0 <= k < |ms| :: Mappable(ms[k])
  }

  /** The paths of mappable metas: each operation put under its rule and method, in order. */
  function PathsOf(ms: seq<SrcMeta>): SrcPaths
    requires AllMappable(ms)
    decreases |ms|
  {
    if |ms| == 0 then []
    else
      var m := ms[|ms| - 1];
      Put(PathsOf(ms[..|ms| - 1]), m.rule.value, MethodOf(m), OperationOf(m))
  }

  /** The position of the last meta stored under `rule`. */
  function LastWithRule(ms: seq<SrcMeta>, rule: Option<string>): (r: Option<nat>)
    ensures r.Some? ==> r.value < |ms| && ms[r.value].rule == Present(rule)
    ensures r.Some? ==> forall j | r.value < j < |ms| :: ms[j].rule != Present(rule)
    ensures r.None? ==> forall j | 0 <= j < |ms| :: ms[j].rule != Present(rule)
    decreases |ms|
  {
    if |ms| == 0 then None
    else if ms[|ms| - 1].rule == Present(rule) then Some(|ms| - 1)
    else LastWithRule(ms[..|ms| - 1], rule)
  }

  /** The meta stored under `rule` with the lower-cased method `httpMethod`. */
  predicate StoredAt(m: SrcMeta, rule: Option<string>, httpMethod: string) {
    m.rule == Present(rule) && HasMethod(m) && MethodOf(m) == httpMethod
  }

  /** The position of the last meta stored under `rule` and `httpMethod`. */
  function LastEntry(ms: seq<SrcMeta>, rule: Option<string>, httpMethod: string): (r: Option<nat>)
    ensures r.Some? ==> r.value < |ms| && StoredAt(ms[r.value], rule, httpMethod)
    ensures r.Some? ==> forall j | r.value < j < |ms| :: !StoredAt(ms[j], rule, httpMethod)
    ensures r.None? ==> forall j | 0 <= j < |ms| :: !StoredAt(ms[j], rule, httpMethod)
    decreases |ms|
  {
    if |ms| == 0 then None
    else if StoredAt(ms[|ms| - 1], rule, httpMethod) then Some(|ms| - 1)
    else LastEntry(ms[..|ms| - 1], rule, httpMethod)
  }

  /** The position of the last group with some meta stored under `rule`. */
  function LastGroupWith(gs: seq<seq<SrcMeta>>, rule: Option<string>): (r: Option<nat>)
    ensures r.Some? ==> r.value < |gs| && LastWithRule(gs[r.value], rule).Some?
    ensures r.Some? ==> forall g | r.value < g < |gs| :: LastWithRule(gs[g], rule).None?
    ensures r.None? ==> forall g | 0 <= g < |gs| :: LastWithRule(gs[g], rule).None?
    decreases |gs|
  {
    if |gs| == 0 then None
    else if LastWithRule(gs[|gs| - 1], rule).Some? then Some(|gs| - 1)
    else LastGroupWith(gs[..|gs| - 1], rule)
  }

  // ---------------------------------------------------------------------
  // One meta, one group
  // ---------------------------------------------------------------------

  /** One iteration succeeds exactly on a mappable meta, and fails with the exception of its first missing piece. */
  lemma MapOneOk(paths: SrcPaths, models: Registry, m: SrcMeta)
    ensures MapOne(paths, models, m).result.Ok? <==> Mappable(m)
    ensures !Mappable(m) ==> MapOne(paths, models, m).result == Err(ErrorOf(m))
    ensures !Mappable(m) ==> MapOne(paths, models, m).paths == paths
    ensures ErrorOf(m) == NoneAttribute <==> m.httpMethod == Present(None)
  {
  }

  /** A list is mappable exactly when its prefix and its last meta are. */
  lemma AllMappableSnoc(ms: seq<SrcMeta>)
    requires |ms| > 0
    ensures AllMappable(ms) <==> AllMappable(ms[..|ms| - 1]) && Mappable(ms[|ms| - 1])
  {
    assert forall k | 0 <= k < |ms| - 1 :: ms[..|ms| - 1][k] == ms[k];
  }

  /** A group maps to the end exactly when all its metas are mappable, and then its paths are `PathsOf`. */
  lemma {:induction false} MapEndpointsOk(models: Registry, ms: seq<SrcMeta>)
    ensures MapEndpointsOf(models, ms).result.Ok? <==> AllMappable(ms)
    ensures AllMappable(ms) ==> MapEndpointsOf(models, ms).paths == PathsOf(ms)
    decreases |ms|
  {
    if |ms| > 0 {
      var init := ms[..|ms| - 1];
      MapEndpointsOk(models, init);
      AllMappableSnoc(ms);
      var before := MapEndpointsOf(models, init);
      MapOneOk(before.paths, before.models, ms[|ms| - 1]);
      if AllMappable(ms) {
        assert before.result.Ok? && before.paths == PathsOf(init);
        assert MapEndpointsOf(models, ms) == MapOne(before.paths, before.models, ms[|ms| - 1]);
      } else if before.result.Ok? {
        assert !Mappable(ms[|ms| - 1]);
      }
    }
  }

  /** Once a prefix of a group failed, the rest of the group changes nothing. */
  lemma {:induction false} MapEndpointsStop(models: Registry, ms: seq<SrcMeta>, n: nat)
    requires n <= |ms|
    requires MapEndpointsOf(models, ms[..n]).result.Err?
    ensures MapEndpointsOf(models, ms) == MapEndpointsOf(models, ms[..n])
    decreases |ms|
  {
    if n < |ms| {
      assert ms[..|ms| - 1][..n] == ms[..n];
      MapEndpointsStop(models, ms[..|ms| - 1], n);
    } else {
      assert ms[..n] == ms;
    }
  }

  /** The first meta that is not mappable decides the exception of the whole group. */
  lemma MapEndpointsFails(models: Registry, ms: seq<SrcMeta>, k: nat)
    requires k < |ms|
    requires AllMappable(ms[..k]) && !Mappable(ms[k])
    ensures MapEndpointsOf(models, ms).result == Err(ErrorOf(ms[k]))
    ensures MapEndpointsOf(models, ms).models ==
      if HasMethod(ms[k]) && ms[k].body.Present? then EndpointModels(MapEndpointsOf(models, ms[..k]).models, ms[k])
      else MapEndpointsOf(models, ms[..k]).models
  {
    MapEndpointsOk(models, ms[..k]);
    var before := MapEndpointsOf(models, ms[..k]);
    MapOneOk(before.paths, before.models, ms[k]);
    assert ms[..k + 1][..k] == ms[..k];
    MapEndpointsStop(models, ms, k + 1);
  }

  /** Reading back a rule after `meta[rule][method] = op`. */
  lemma GetPutRule(paths: SrcPaths, rule: Option<string>, httpMethod: string, op: SrcOperation, q: Option<string>)
    ensures HasKey(Put(paths, rule, httpMethod, op), q) <==> q == rule || HasKey(paths, q)
    ensures MethodsOf(Put(paths, rule, httpMethod, op), q) ==
      if q == rule then Set(MethodsOf(paths, rule), httpMethod, op) else MethodsOf(paths, q)
  {
    var inner := Set(MethodsOf(paths, rule), httpMethod, op);
    GetSet(paths, rule, inner, q);
    HasKeySet(paths, rule, inner, q);
  }

  /** Reading back one operation after `meta[rule][method] = op`. */
  lemma GetPutMethod(paths: SrcPaths, rule: Option<string>, httpMethod: string, op: SrcOperation,
                     q: Option<string>, x: string)
    ensures Get(MethodsOf(Put(paths, rule, httpMethod, op), q), x) ==
      if q == rule && x == httpMethod then Some(op) else Get(MethodsOf(paths, q), x)
  {
    GetPutRule(paths, rule, httpMethod, op, q);
    if q == rule {
      GetSet(MethodsOf(paths, rule), httpMethod, op, x);
    }
  }

  /** `meta[rule][method] = op` keeps both levels proper dicts. */
  lemma PutUnique(paths: SrcPaths, rule: Option<string>, httpMethod: string, op: SrcOperation, q: Option<string>)
    requires UniqueKeys(paths) && UniqueKeys(MethodsOf(paths, q))
    ensures UniqueKeys(Put(paths, rule, httpMethod, op)) && UniqueKeys(MethodsOf(Put(paths, rule, httpMethod, op), q))
  {
    GetPutRule(paths, rule, httpMethod, op, q);
    SetUnique(paths, rule, Set(MethodsOf(paths, rule), httpMethod, op));
    if q == rule {
      SetUnique(MethodsOf(paths, rule), httpMethod, op);
    }
  }

  /** The paths of one group are a proper dict, and so is each rule's dict of methods. */
  lemma {:induction false} PathsOfUnique(ms: seq<SrcMeta>, rule: Option<string>)
    requires AllMappable(ms)
    ensures UniqueKeys(PathsOf(ms)) && UniqueKeys(MethodsOf(PathsOf(ms), rule))
    decreases |ms|
  {
    if |ms| > 0 {
      var init := ms[..|ms| - 1];
      var m := ms[|ms| - 1];
      AllMappableSnoc(ms);
      PathsOfUnique(init, rule);
      PutUnique(PathsOf(init), m.rule.value, MethodOf(m), OperationOf(m), rule);
    }
  }

  /** A rule is a key of one group's paths exactly when some meta is stored under it. */
  lemma {:induction false} PathsOfRules(ms: seq<SrcMeta>, rule: Option<string>)
    requires AllMappable(ms)
    ensures HasKey(PathsOf(ms), rule) <==> LastWithRule(ms, rule).Some?
    decreases |ms|
  {
    if |ms| > 0 {
      var init := ms[..|ms| - 1];
      var m := ms[|ms| - 1];
      AllMappableSnoc(ms);
      PathsOfRules(init, rule);
      GetPutRule(PathsOf(init), m.rule.value, MethodOf(m), OperationOf(m), rule);
    }
  }

  /**
   * Within one group the methods of different metas under one rule are
   * merged, and for one rule and method the last meta wins.
   */
  lemma {:induction false} PathsOfEntry(ms: seq<SrcMeta>, rule: Option<string>, httpMethod: string)
    requires AllMappable(ms)
    ensures Get(MethodsOf(PathsOf(ms), rule), httpMethod) ==
      match LastEntry(ms, rule, httpMethod)
      case None => None
      case Some(k) => Some(OperationOf(ms[k]))
    decreases |ms|
  {
    if |ms| > 0 {
      var init := ms[..|ms| - 1];
      var m := ms[|ms| - 1];
      AllMappableSnoc(ms);
      GetPutMethod(PathsOf(init), m.rule.value, MethodOf(m), OperationOf(m), rule, httpMethod);
      if !StoredAt(m, rule, httpMethod) {
        PathsOfEntry(init, rule, httpMethod);
        assert LastEntry(ms, rule, httpMethod) == LastEntry(init, rule, httpMethod);
        match LastEntry(init, rule, httpMethod)
        case None =>
        case Some(k) => assert init[k] == ms[k];
      }
    }
  }

  // ---------------------------------------------------------------------
  // All groups
  // ---------------------------------------------------------------------

  /** Every meta of every group is mappable. */
  predicate AllGroupsMappable(gs: seq<seq<SrcMeta>>) {
    forall g | 0 <= g < |gs| :: AllMappable(gs[g])
  }

  lemma AllGroupsPrefix(gs: seq<seq<SrcMeta>>)
    requires |gs| > 0
    ensures AllGroupsMappable(gs) <==> AllGroupsMappable(gs[..|gs| - 1]) && AllMappable(gs[|gs| - 1])
  {
    assert forall g | 0 <= g < |gs| - 1 :: gs[..|gs| - 1][g] == gs[g];
  }

  /** The whole mapping pass runs to the end exactly when every meta of every group is mappable. */
  lemma {:induction false} MapSchemasOk(paths: SrcPaths, models: Registry, gs: seq<seq<SrcMeta>>)
    ensures MapSchemasOf(paths, models, gs).result.Ok? <==> AllGroupsMappable(gs)
    decreases |gs|
  {
    if |gs| > 0 {
      var init := gs[..|gs| - 1];
      MapSchemasOk(paths, models, init);
      AllGroupsPrefix(gs);
      MapEndpointsOk(MapSchemasOf(paths, models, init).models, gs[|gs| - 1]);
    }
  }

  /** A complete pass keeps the paths a proper dict. */
  lemma {:induction false} MapSchemasUnique(paths: SrcPaths, models: Registry, gs: seq<seq<SrcMeta>>)
    requires AllGroupsMappable(gs) && UniqueKeys(paths)
    ensures UniqueKeys(MapSchemasOf(paths, models, gs).paths)
    decreases |gs|
  {
    if |gs| > 0 {
      var init := gs[..|gs| - 1];
      AllGroupsPrefix(gs);
      MapSchemasOk(paths, models, init);
      MapSchemasUnique(paths, models, init);
      var before := MapSchemasOf(paths, models, init);
      MapEndpointsOk(before.models, gs[|gs| - 1]);
      UpdateUnique(before.paths, PathsOf(gs[|gs| - 1]));
    }
  }

  /**
   * After a complete pass, a rule holds exactly the methods the last group
   * using it gave it: a later group replaces an earlier group's methods for
   * that rule wholesale. A rule no group uses keeps its earlier value.
   */
  lemma {:induction false} MapSchemasGet(paths: SrcPaths, models: Registry, gs: seq<seq<SrcMeta>>, rule: Option<string>)
    requires AllGroupsMappable(gs)
    ensures Get(MapSchemasOf(paths, models, gs).paths, rule) ==
      match LastGroupWith(gs, rule)
      case None => Get(paths, rule)
      case Some(g) => Some(MethodsOf(PathsOf(gs[g]), rule))
    decreases |gs|
  {
    if |gs| > 0 {
      var init := gs[..|gs| - 1];
      var last := gs[|gs| - 1];
      AllGroupsPrefix(gs);
      MapSchemasGet(paths, models, init, rule);
      MapSchemasLast(paths, models, gs);
      var src := PathsOf(last);
      PathsOfUnique(last, rule);
      PathsOfRules(last, rule);
      GetUpdate(MapSchemasOf(paths, models, init).paths, src, rule);
      if LastWithRule(last, rule).Some? {
        assert Get(src, rule) == Some(MethodsOf(src, rule));
      } else {
        match LastGroupWith(init, rule)
        case None =>
        case Some(g) => assert init[g] == gs[g];
      }
    }
  }

  /** A complete pass ends by updating the earlier groups' paths with the last group's. */
  lemma MapSchemasLast(paths: SrcPaths, models: Registry, gs: seq<seq<SrcMeta>>)
    requires |gs| > 0 && AllGroupsMappable(gs)
    ensures MapSchemasOf(paths, models, gs).paths ==
      Update(MapSchemasOf(paths, models, gs[..|gs| - 1]).paths, PathsOf(gs[|gs| - 1]))
  {
    AllGroupsPrefix(gs);
    MapSchemasOk(paths, models, gs[..|gs| - 1]);
    MapEndpointsOk(MapSchemasOf(paths, models, gs[..|gs| - 1]).models, gs[|gs| - 1]);
  }

  /** A group of one meta holds, under its rule, exactly that meta's method. */
  lemma SingleGroupMethods(m: SrcMeta, x: string)
    requires Mappable(m)
    ensures AllMappable([m])
    ensures Get(MethodsOf(PathsOf([m]), m.rule.value), x) == if x == MethodOf(m) then Some(OperationOf(m)) else None
  {
    assert AllMappable([m]);
    assert [m][..0] == [];
    GetPutMethod([], m.rule.value, MethodOf(m), OperationOf(m), m.rule.value, x);
  }

  /** Two groups mapping the same rule: the second group's `post` replaces the first group's `get`. */
  lemma SchemasReplaceRule(first: SrcMeta, second: SrcMeta)
    requires first == SrcMeta("list", "list_users", Present(None), Present(Some("/users")), Present(Some("GET")))
    requires second == SrcMeta("create", "create_user", Present(None), Present(Some("/users")), Present(Some("POST")))
    ensures var st := MapSchemasOf([], [], [[first], [second]]);
      st.result.Ok? &&
      HasKey(MethodsOf(st.paths, Some("/users")), "post") &&
      !HasKey(MethodsOf(st.paths, Some("/users")), "get")
  {
    var gs := [[first], [second]];
    SingleGroupMethods(first, "get");
    SingleGroupMethods(second, "get");
    SingleGroupMethods(second, "post");
    assert MethodOf(second) == "post";
    assert LastWithRule(gs[1], Some("/users")) == Some(0);
    MapSchemasOk([], [], gs);
    MapSchemasGet([], [], gs, Some("/users"));
  }

  // ---------------------------------------------------------------------
  // The registry
  // ---------------------------------------------------------------------

  /** The position of the last dict with key `k`. */
  function LastDictWith(ds: seq<Dict<string, Json>>, k: string): (r: Option<nat>)
    ensures r.Some? ==> r.value < |ds| && HasKey(ds[r.value], k)
    ensures r.Some? ==> forall j | r.value < j < |ds| :: !HasKey(ds[j], k)
    ensures r.None? ==> forall j | 0 <= j < |ds| :: !HasKey(ds[j], k)
    decreases |ds|
  {
    if |ds| == 0 then None
    else if HasKey(ds[|ds| - 1], k) then Some(|ds| - 1)
    else LastDictWith(ds[..|ds| - 1], k)
  }

  /**
   * Merging proper dicts in turn: a key takes its value from the last dict
   * that has it, and keeps the registry's value otherwise; a proper
   * registry stays proper.
   */
  lemma {:induction false} MergeAllGet(models: Registry, ds: seq<Dict<string, Json>>, k: string)
    requires forall j | 0 <= j < |ds| :: UniqueKeys(ds[j])
    ensures UniqueKeys(models) ==> UniqueKeys(MergeAll(models, ds))
    ensures Get(MergeAll(models, ds), k) ==
      match LastDictWith(ds, k)
      case None => Get(models, k)
      case Some(j) => Get(ds[j], k)
    decreases |ds|
  {
    if |ds| > 0 {
      var init := ds[..|ds| - 1];
      assert forall j | 0 <= j < |init| :: init[j] == ds[j];
      MergeAllGet(models, init, k);
      GetUpdate(MergeAll(models, init), ds[|ds| - 1], k);
      if UniqueKeys(models) {
        UpdateUnique(MergeAll(models, init), ds[|ds| - 1]);
      }
    }
  }

  /**
   * `_map_body` on one model overwrites: every key the model generates takes
   * the generated schema even if it was registered before, every other key
   * is untouched. On a list, the last model generating a key wins.
   */
  lemma BodyMergedGet(models: Registry, arg: ModelArg, k: string)
    ensures UniqueKeys(models) ==> UniqueKeys(BodyMerged(models, arg))
    ensures arg.One? ==> (
      Get(BodyMerged(models, arg), k) ==
        if HasKey(ModelEntries(arg.model), k) then Get(ModelEntries(arg.model), k) else Get(models, k))
    ensures arg.Many? ==> (
      var last := LastDictWith(EntriesOf(arg.models), k);
      Get(BodyMerged(models, arg), k) ==
        if last.None? then Get(models, k) else Get(ModelEntries(arg.models[last.value]), k))
  {
    match arg
    case One(m) =>
      ModelEntriesUnique(m);
      GetUpdate(models, ModelEntries(m), k);
      if UniqueKeys(models) {
        UpdateUnique(models, ModelEntries(m));
      }
    case Many(ms) =>
      var ds := EntriesOf(ms);
      assert GenerateModelSchema(arg) == DictList(ds);
      forall j | 0 <= j < |ds|
        ensures UniqueKeys(ds[j])
      {
        ModelEntriesUnique(ms[j]);
      }
      MergeAllGet(models, ds, k);
  }

  /** A group none of whose bodies is truthy leaves the registry as it was. */
  lemma {:induction false} MapEndpointsNoBodies(models: Registry, ms: seq<SrcMeta>)
    requires forall k | 0 <= k < |ms| :: ms[k].body == Present(None)
    ensures MapEndpointsOf(models, ms).models == models
    decreases |ms|
  {
    if |ms| > 0 {
      MapEndpointsNoBodies(models, ms[..|ms| - 1]);
    }
  }

  // ---------------------------------------------------------------------
  // The metas of src/schema.py
  // ---------------------------------------------------------------------

  /**
   * Metas registered by src/schema.py have no `body`, and binding does not
   * give them one: whatever the bindings, a group with at least one such
   * meta raises `AttributeError` on its first meta, before any body is
   * mapped.
   */
  lemma BareGroupFails(models: Registry, ms: seq<SrcMeta>, bs: seq<Binding>)
    requires |ms| > 0
    requires forall k | 0 <= k < |ms| :: ms[k].body.Absent? && ms[k].httpMethod.Absent?
    ensures var o := BindAll(ms, bs);
      MapEndpointsOf(models, o.metas).result == Err(MissingAttribute) &&
      MapEndpointsOf(models, o.metas).models == models
  {
    var o := BindAll(ms, bs);
    BindAllKeeps(ms, bs);
    assert Rebound(ms[0], o.metas[0]);
    assert !Mappable(o.metas[0]) && ErrorOf(o.metas[0]) == MissingAttribute;
    assert o.metas[..0] == [];
    MapEndpointsFails(models, o.metas, 0);
  }

  /** So `get_spec` fails for every registration in which some group has a meta without `body`. */
  lemma BareSchemasFail(paths: SrcPaths, models: Registry, gs: seq<seq<SrcMeta>>, g: nat, k: nat)
    requires g < |gs| && k < |gs[g]| && gs[g][k].body.Absent?
    ensures MapSchemasOf(paths, models, gs).result.Err?
  {
    MapSchemasOk(paths, models, gs);
  }

  /**
   * Metas of src/endpoint.py's class (body, rule and method `None`) with
   * distinct functions, each bound by a usable binding: the binding pass
   * and the mapping pass both run to the end, no body is generated, and
   * every meta lands under the rule and lowered method of its last binding.
   */
  lemma CorrectedGroupMaps(models: Registry, ms: seq<SrcMeta>, bs: seq<Binding>, i: nat)
    requires forall k | 0 <= k < |ms| ::
      ms[k].body == Present(None) && ms[k].rule == Present(None) && ms[k].httpMethod == Present(None)
    requires E.Distinct(FunctionNames(ms))
    requires AllUsable(FunctionNames(ms), bs)
    requires forall k | 0 <= k < |ms| :: LastBindingOf(bs, ms[k].functionName).Some?
    requires i < |ms|
    ensures var o := BindAll(ms, bs);
      o.result.Ok? && |o.metas| == |ms| && MapEndpointsOf(models, o.metas).result.Ok? &&
      MapEndpointsOf(models, o.metas).models == models
    ensures var o := BindAll(ms, bs);
      var b := bs[LastBindingOf(bs, ms[i].functionName).value];
      |o.metas| == |ms| &&
      o.metas[i].rule == Present(Some(b.rule)) && o.metas[i].httpMethod == Present(Some(Capture(b).value.httpMethod))
  {
    var o := BindAll(ms, bs);
    BindAllOk(ms, bs);
    BindAllKeeps(ms, bs);
    forall k | 0 <= k < |ms|
      ensures Mappable(o.metas[k]) && o.metas[k].body == Present(None)
      ensures k == i ==> o.metas[k] == Bound(ms[k], Capture(bs[LastBindingOf(bs, ms[k].functionName).value]).value)
    {
      assert FirstOfName(ms, k) by {
        forall j | 0 <= j < k
          ensures ms[j].functionName != ms[k].functionName
        {
          assert FunctionNames(ms)[j] != FunctionNames(ms)[k];
        }
      }
      BindAllAt(ms, bs, k);
    }
    MapEndpointsOk(models, o.metas);
    MapEndpointsNoBodies(models, o.metas);
  }
}
