/**
 * The schema helper of the first iteration (src/base_schema_processor.py):
 * it generates model schemas and references, and its registry grows only
 * through `update_model_schemas`; producing a reference registers nothing.
 */
module SrcProcessor {
  import opened Json
  import opened Inputs
  import opened ModelSchemas
  import opened Lists
  import Processor

  class BaseSchemaProcessor {
    /** `_models`. */
    var models: Registry

    constructor()
      ensures models == []
    {
      models := [];
    }

    /** `_get_model_schema`: the model's flattened defs and its own schema, element-wise for a list. */
    static method GetModelSchema(arg: ModelArg) returns (r: Generated)
      ensures r == GenerateModelSchema(arg)
    {
      r := Processor.SchemaProcessor.GenerateModelSchema(arg);
    }

    /** `_get_model_reference`: a `$ref` for a model, `oneOf` the element references for a list. */
    static method GetModelReference(arg: ModelArg) returns (r: Json)
      ensures r == Reference(arg)
    {
      match arg
      case One(m) =>
        r := Single("$ref", JString("#/components/schemas/" + ModelName(m)));
      case Many(ms) =>
        var refs: seq<Json> := [];
        var i := 0;
        while i < |ms|
          invariant 0 <= i <= |ms|
          invariant refs == RefsOf(ms[..i])
        {
          EachSnoc(ModelRef, ms, i);
          refs := refs + [Single("$ref", JString("#/components/schemas/" + ModelName(ms[i])))];
          i := i + 1;
        }
        assert ms[..|ms|] == ms;
        r := Single("oneOf", JArray(refs));
    }

    /** `update_model_schemas`: `self._models.update(schemas)`. */
    method UpdateModelSchemas(schemas: Dict<string, Json>)
      modifies this
      ensures models == Update(old(models), schemas)
    {
      models := Update(models, schemas);
    }
  }

  /**
   * After `update_model_schemas` with a proper dict, the registry has the
   * keys of both, every key of `schemas` maps to the new schema and every
   * other key keeps its old one; a proper registry stays proper.
   */
  lemma UpdateModelSchemasGet(models: Registry, schemas: Dict<string, Json>, k: string)
    requires UniqueKeys(schemas)
    ensures HasKey(Update(models, schemas), k) <==> HasKey(models, k) || HasKey(schemas, k)
    ensures Get(Update(models, schemas), k) == if HasKey(schemas, k) then Get(schemas, k) else Get(models, k)
    ensures UniqueKeys(models) ==> UniqueKeys(Update(models, schemas))
  {
    HasKeyUpdate(models, schemas, k);
    GetUpdate(models, schemas, k);
    if UniqueKeys(models) {
      UpdateUnique(models, schemas);
    }
  }
}
