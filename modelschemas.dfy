/**
 * The model-schema layer the three processor iterations share: flattening a
 * pydantic schema's `$defs` into title-keyed components, the schema entries
 * one model contributes, the model's name, the `$ref` that points at it, and
 * the registry update that registers a model under its name on first use.
 */
module ModelSchemas {
  import opened Results
  import opened Json
  import opened Inputs
  import opened Lists

  /** The `components.schemas` registry: schema title to schema, in insertion order. */
  type Registry = Dict<string, Json>

  /** The `"$defs"` of a model schema, empty when it has none. */
  function DefsOf(schema: ModelJsonSchema): (r: Dict<string, Json>)
    ensures UniqueKeys(r) && ObjectSchemas(r)
    ensures !HasMember(schema, "$defs") ==> r == []
  {
    match Member(schema, "$defs")
    case None => []
    case Some(d) => d.fields
  }

  /** The schema after `schema.pop("$defs", …)`. */
  function WithoutDefs(schema: ModelJsonSchema): Json {
    JObject(Remove(schema.fields, "$defs"))
  }

  /** Every definition re-keyed by its `"title"`, a later definition overwriting an earlier one of the same title. */
  function DefsByTitle(defs: Dict<string, Json>): Dict<string, Json>
    requires ObjectSchemas(defs)
    decreases |defs|
  {
    if |defs| == 0 then []
    else
      var last := defs[|defs| - 1].1;
      Set(DefsByTitle(defs[..|defs| - 1]), Title(last), last)
  }

  /** Reference definition: the last definition carrying title `t`. */
  function LastTitled(defs: Dict<string, Json>, t: string): (r: Option<Json>)
    requires ObjectSchemas(defs)
    ensures r.Some? <==> exists i | 0 <= i < |defs| :: Titled(defs[i].1) && Title(defs[i].1) == t
    ensures r.Some? ==> Titled(r.value) && Title(r.value) == t && exists i | 0 <= i < |defs| :: defs[i].1 == r.value
    decreases |defs|
  {
    if |defs| == 0 then None
    else if Title(defs[|defs| - 1].1) == t then Some(defs[|defs| - 1].1)
    else
      var r := LastTitled(defs[..|defs| - 1], t);
      assert forall i | 0 <= i < |defs| - 1 :: defs[..|defs| - 1][i] == defs[i];
      r
  }

  /** `_parse_defs` yields, under each title, the last definition carrying that title, and nothing else. */
  lemma {:induction false} DefsByTitleGet(defs: Dict<string, Json>, t: string)
    requires ObjectSchemas(defs)
    ensures Get(DefsByTitle(defs), t) == LastTitled(defs, t)
    decreases |defs|
  {
    if |defs| > 0 {
      var last := defs[|defs| - 1].1;
      DefsByTitleGet(defs[..|defs| - 1], t);
      GetSet(DefsByTitle(defs[..|defs| - 1]), Title(last), last, t);
    }
  }

  lemma {:induction false} DefsByTitleUnique(defs: Dict<string, Json>)
    requires ObjectSchemas(defs)
    ensures UniqueKeys(DefsByTitle(defs))
    decreases |defs|
  {
    if |defs| > 0 {
      var last := defs[|defs| - 1].1;
      DefsByTitleUnique(defs[..|defs| - 1]);
      SetUnique(DefsByTitle(defs[..|defs| - 1]), Title(last), last);
    }
  }

  lemma SetObjectSchemas(d: Dict<string, Json>, k: string, v: Json)
    requires ObjectSchemas(d) && ObjectSchema(v)
    ensures ObjectSchemas(Set(d, k, v))
  {
    SetEntries(d, k, v);
  }

  /** Definitions that are object schemas stay object schemas once re-keyed by title. */
  lemma {:induction false} DefsByTitleObjects(defs: Dict<string, Json>)
    requires ObjectSchemas(defs)
    ensures ObjectSchemas(DefsByTitle(defs))
    decreases |defs|
  {
    if |defs| > 0 {
      var init := defs[..|defs| - 1];
      DefsByTitleObjects(init);
      SetObjectSchemas(DefsByTitle(init), Title(defs[|defs| - 1].1), defs[|defs| - 1].1);
    }
  }

  /**
   * `_parse_defs`: pops `"$defs"` off the schema and re-keys every definition
   * by its title. Returns the title-keyed definitions and the popped schema.
   */
  method ParseDefs(schema: ModelJsonSchema) returns (parsed: Dict<string, Json>, popped: Json)
    ensures popped == WithoutDefs(schema) && !HasMember(popped, "$defs")
    ensures parsed == DefsByTitle(DefsOf(schema))
  {
    var defs := DefsOf(schema);
    popped := JObject(Remove(schema.fields, "$defs"));
    GetRemove(schema.fields, "$defs", "$defs");
    parsed := [];
    var i := 0;
    while i < |defs|
      invariant 0 <= i <= |defs|
      invariant parsed == DefsByTitle(defs[..i])
    {
      assert defs[..i + 1][..i] == defs[..i];
      parsed := Set(parsed, Title(defs[i].1), defs[i].1);
      i := i + 1;
    }
    assert defs[..|defs|] == defs;
  }

  /** Popping `"$defs"` leaves an object schema with the same title. */
  lemma WithoutDefsShape(schema: ModelJsonSchema)
    ensures ObjectSchema(WithoutDefs(schema))
    ensures Title(WithoutDefs(schema)) == Title(schema)
    ensures !HasMember(WithoutDefs(schema), "$defs")
  {
    var f := schema.fields;
    GetRemove(f, "$defs", "$defs");
    GetRemove(f, "$defs", "title");
    GetRemove(f, "$defs", "properties");
    GetRemove(f, "$defs", "required");
  }

  /** The entries one model contributes: its flattened definitions, then its own popped schema under its title. */
  function ModelEntries(m: Model): Dict<string, Json> {
    var s := m.jsonSchema;
    WithoutDefsShape(s);
    Set(DefsByTitle(DefsOf(s)), Title(s), WithoutDefs(s))
  }

  /**
   * The model's own schema wins over a same-titled definition; every other
   * title maps to the last definition carrying it; the entries form a proper
   * dict of object schemas.
   */
  lemma ModelEntriesGet(m: Model, t: string)
    ensures Get(ModelEntries(m), t) ==
      if t == Title(m.jsonSchema) then Some(WithoutDefs(m.jsonSchema)) else LastTitled(DefsOf(m.jsonSchema), t)
  {
    var s := m.jsonSchema;
    var defs := DefsOf(s);
    GetSet(DefsByTitle(defs), Title(s), WithoutDefs(s), t);
    DefsByTitleGet(defs, t);
  }

  lemma ModelEntriesUnique(m: Model)
    ensures UniqueKeys(ModelEntries(m))
  {
    var defs := DefsOf(m.jsonSchema);
    DefsByTitleUnique(defs);
    SetUnique(DefsByTitle(defs), Title(m.jsonSchema), WithoutDefs(m.jsonSchema));
  }

  /** Everything a model contributes is an object schema. */
  lemma ModelEntriesShape(m: Model)
    ensures ObjectSchemas(ModelEntries(m))
  {
    var s := m.jsonSchema;
    WithoutDefsShape(s);
    DefsByTitleObjects(DefsOf(s));
    SetObjectSchemas(DefsByTitle(DefsOf(s)), Title(s), WithoutDefs(s));
  }

  /** What `_generate_model_schema` returns: one dict for a model, a list of dicts for a list. */
  datatype Generated = OneDict(entries: Dict<string, Json>) | DictList(dicts: seq<Dict<string, Json>>)

  /** The entries of each listed model, in order. */
  function EntriesOf(ms: seq<Model>): seq<Dict<string, Json>> {
    Each(ModelEntries, ms)
  }

  /** `_generate_model_schema`: a model's entries, or one entry dict per listed model, in order. */
  function GenerateModelSchema(arg: ModelArg): (r: Generated)
    ensures arg.One? ==> r == OneDict(ModelEntries(arg.model))
    ensures arg.Many? ==> r.DictList? && |r.dicts| == |arg.models|
    ensures arg.Many? ==> forall i | 0 <= i < |arg.models| :: r.dicts[i] == ModelEntries(arg.models[i])
  {
    match arg
    case One(m) => OneDict(ModelEntries(m))
    case Many(ms) => EachAt(ModelEntries, ms); DictList(EntriesOf(ms))
  }

  /** `s.split(".")[-1]`: the text after the last `.`, or all of `s` when it has none. */
  function LastSegment(s: string): string
    decreases |s|
  {
    if |s| == 0 then ""
    else if s[|s| - 1] == '.' then ""
    else LastSegment(s[..|s| - 1]) + [s[|s| - 1]]
  }

  /** The segment is a suffix of the name without a `.`, preceded by a `.` unless it is the whole name. */
  lemma {:induction false} LastSegmentSuffix(s: string)
    ensures '.' !in LastSegment(s)
    ensures |LastSegment(s)| <= |s| && LastSegment(s) == s[|s| - |LastSegment(s)|..]
    ensures |LastSegment(s)| < |s| ==> s[|s| - |LastSegment(s)| - 1] == '.'
    decreases |s|
  {
    if |s| > 0 && s[|s| - 1] != '.' {
      var init := s[..|s| - 1];
      var c := s[|s| - 1];
      LastSegmentSuffix(init);
      var r0 := LastSegment(init);
      var r := r0 + [c];
      assert LastSegment(s) == r;
      var n := |init| - |r0|;
      assert s[n..] == init[n..] + [c];
      assert init[n..] == r0;
      if |r| < |s| {
        assert s[n - 1] == init[n - 1];
      }
    } else {
      assert LastSegment(s) == [];
      assert s[|s|..] == [];
    }
  }

  /** `_get_model_name`: the last dotted segment of the class's `__name__`. */
  function ModelName(m: Model): string {
    LastSegment(m.name)
  }

  const RefPrefix: string := "#/components/schemas/"

  /** `{"$ref": "#/components/schemas/<name>"}`. */
  function RefTo(name: string): Json {
    Single("$ref", JString(RefPrefix + name))
  }

  /** The `$ref` object naming a model. */
  function ModelRef(m: Model): Json {
    RefTo(ModelName(m))
  }

  /** The references of each listed model, in order. */
  function RefsOf(ms: seq<Model>): seq<Json> {
    Each(ModelRef, ms)
  }

  /** The reference `_get_model_reference` returns: a `$ref` for a model, `oneOf` the element references for a list. */
  function Reference(arg: ModelArg): Json {
    match arg
    case One(m) => RefTo(ModelName(m))
    case Many(ms) => Single("oneOf", JArray(RefsOf(ms)))
  }

  /** The `$ref` of a reference names the model and can be read back. */
  lemma ReferenceNames(arg: ModelArg)
    ensures arg.One? ==> Member(Reference(arg), "$ref") == Some(JString(RefPrefix + ModelName(arg.model)))
    ensures arg.Many? ==> Member(Reference(arg), "oneOf").Some? && Member(Reference(arg), "oneOf").value.JArray?
    ensures arg.Many? ==> var items := Member(Reference(arg), "oneOf").value.items;
      |items| == |arg.models| &&
      forall i | 0 <= i < |items| :: Member(items[i], "$ref") == Some(JString(RefPrefix + ModelName(arg.models[i])))
  {
    if arg.Many? {
      EachAt(ModelRef, arg.models);
    }
  }

  /** The model name a reference text points at, when it points into `components.schemas`. */
  function ReferencedName(ref: string): Option<string> {
    if |RefPrefix| <= |ref| && ref[..|RefPrefix|] == RefPrefix then Some(ref[|RefPrefix|..]) else None
  }

  lemma ReferencedNameRoundTrip(name: string)
    ensures ReferencedName(RefPrefix + name) == Some(name)
  {
    assert (RefPrefix + name)[..|RefPrefix|] == RefPrefix;
    assert (RefPrefix + name)[|RefPrefix|..] == name;
  }

  /** The registry after registering one model: untouched when its name is there, else updated with its entries. */
  function RegisterOne(models: Registry, m: Model): Registry {
    if HasKey(models, ModelName(m)) then models else Update(models, ModelEntries(m))
  }

  /** The registry after `_get_model_reference(arg)`: each listed model registered in turn. */
  function Registered(models: Registry, arg: ModelArg): Registry {
    match arg
    case One(m) => RegisterOne(models, m)
    case Many(ms) => RegisterAll(models, ms)
  }

  function RegisterAll(models: Registry, ms: seq<Model>): Registry
    decreases |ms|
  {
    if |ms| == 0 then models else RegisterAll(RegisterOne(models, ms[0]), ms[1..])
  }

  /**
   * Registering a model: a present name leaves the registry alone; otherwise
   * the model's entries are added, overwriting same-titled keys, and every
   * other entry is unchanged.
   */
  lemma RegisterOneGet(models: Registry, m: Model, t: string)
    ensures HasKey(models, ModelName(m)) ==> RegisterOne(models, m) == models
    ensures !HasKey(models, ModelName(m)) ==>
      Get(RegisterOne(models, m), t) == if HasKey(ModelEntries(m), t) then Get(ModelEntries(m), t) else Get(models, t)
  {
    ModelEntriesUnique(m);
    GetUpdate(models, ModelEntries(m), t);
  }

  /** A second registration of the same model changes nothing. */
  lemma RegisterOneIdempotent(models: Registry, m: Model)
    ensures RegisterOne(RegisterOne(models, m), m) == RegisterOne(models, m)
  {
    if !HasKey(models, ModelName(m)) {
      var e := ModelEntries(m);
      ModelEntriesUnique(m);
      UpdateIdempotent(models, e);
      var once := Update(models, e);
      assert RegisterOne(models, m) == once;
      assert RegisterOne(once, m) == if HasKey(once, ModelName(m)) then once else Update(once, e);
    }
  }

  /** Registration only ever adds keys; a registry that was a proper dict stays one. */
  lemma {:induction false} RegisterAllKeeps(models: Registry, ms: seq<Model>, k: string)
    requires UniqueKeys(models)
    ensures UniqueKeys(RegisterAll(models, ms))
    ensures HasKey(models, k) ==> HasKey(RegisterAll(models, ms), k)
    decreases |ms|
  {
    if |ms| > 0 {
      var next := RegisterOne(models, ms[0]);
      UpdateUnique(models, ModelEntries(ms[0]));
      HasKeyUpdate(models, ModelEntries(ms[0]), k);
      RegisterAllKeeps(next, ms[1..], k);
    }
  }

  /**
   * A model whose schema title is not its name, and none of whose definitions
   * is titled with its name, is registered under other keys only: its name
   * never becomes a key, so the `$ref` built from the name points at nothing
   * and every later reference to the model registers its entries again.
   */
  lemma RegisterOneDangles(models: Registry, m: Model)
    requires !HasKey(models, ModelName(m))
    requires ModelName(m) != Title(m.jsonSchema) && LastTitled(DefsOf(m.jsonSchema), ModelName(m)).None?
    ensures !HasKey(RegisterOne(models, m), ModelName(m))
    ensures RegisterOne(RegisterOne(models, m), m) == Update(RegisterOne(models, m), ModelEntries(m))
  {
    ModelEntriesGet(m, ModelName(m));
    HasKeyUpdate(models, ModelEntries(m), ModelName(m));
  }

  /** The models a model argument names: the one class, or the list's elements in order. */
  function ArgModels(arg: ModelArg): seq<Model> {
    match arg
    case One(m) => [m]
    case Many(ms) => ms
  }

  /** A key present after registering a model was there before or is one of the model's entries. */
  lemma RegisterOneFrom(models: Registry, m: Model, k: string)
    ensures HasKey(RegisterOne(models, m), k) ==> HasKey(models, k) || HasKey(ModelEntries(m), k)
  {
    HasKeyUpdate(models, ModelEntries(m), k);
  }

  /** A key present after registering a list of models was there before or is an entry of one of them. */
  lemma {:induction false} RegisterAllFrom(models: Registry, ms: seq<Model>, k: string)
    ensures HasKey(RegisterAll(models, ms), k) ==> HasKey(models, k) || exists m | m in ms :: HasKey(ModelEntries(m), k)
    decreases |ms|
  {
    if |ms| > 0 {
      var next := RegisterOne(models, ms[0]);
      RegisterOneFrom(models, ms[0], k);
      RegisterAllFrom(next, ms[1..], k);
      if HasKey(RegisterAll(models, ms), k) && !HasKey(models, k) {
        if HasKey(next, k) {
          assert ms[0] in ms;
        } else {
          var m :| m in ms[1..] && HasKey(ModelEntries(m), k);
          assert m in ms;
        }
      }
    }
  }

  /** `_get_model_reference` adds only keys that are entries of the models it names. */
  lemma RegisteredFrom(models: Registry, arg: ModelArg, k: string)
    ensures HasKey(Registered(models, arg), k) ==> HasKey(models, k) || exists m | m in ArgModels(arg) :: HasKey(ModelEntries(m), k)
  {
    match arg
    case One(m) =>
      RegisterOneFrom(models, m, k);
      assert m in ArgModels(arg);
    case Many(ms) =>
      RegisterAllFrom(models, ms, k);
  }
}
