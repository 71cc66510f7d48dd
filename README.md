# flask-swadantic, modelled in Dafny

flask-swadantic is a Flask extension. It builds an OpenAPI 3.1.1 document from
three things:

- endpoint groups wrapped around Flask blueprints;
- the metadata that a `register_endpoint` decorator records for each view
  function;
- the JSON schemas of the pydantic models used as query, body and response types.

The repository holds three iterations of this core, and each is modelled in its
own modules:

- **Latest** (`flask_swadantic/endpoint.py`, `schema/schema.py`,
  `schema/processor.py`, `openapi/generator.py`, `swadantic.py`).
  - Groups nest.
  - A group binds its deferred route registrations into its metadata
    lazily, when its `endpoints` property is read.
  - The generator walks the group tree and joins URL prefixes outermost-first.
  - The processor turns each endpoint into an Operation Object and registers
    every model a body references.
  - The extension object caches the first document.
  - Modules `Endpoints`, `Groups`, `Processor`, `Generator`, `Swadantic`.
- **Older** (`flask_swadantic/base_schema_processor.py`, `flask_swadantic/schema.py`).
  - A processor whose response-body translation registers model classes and
    drops literal `const`s.
  - A query translation without `enum`.
  - A flat group that stores each endpoint's tags as given.
  - Modules `BaseProcessor`, `LegacySchema`.
- **First** (`src/`).
  - The extension object binds deferred registrations eagerly in
    `register_schema`.
  - It keeps one persistent `paths` dict that each group's result replaces,
    rule by rule.
  - It merges every body model into the registry, overwriting.
  - Modules `SrcEndpoint`, `SrcSchema`, `SrcProcessor`, `SrcBinding`,
    `SrcMapping`, `SrcSwadantic`.

Shared modules:

- `Json`: JSON values. A Python `dict` is an insertion-ordered list of
  pairs. Assignment keeps an existing key where it stands. `update` is a
  fold of assignments.
- `Inputs`: what the core receives from pydantic, `typing`, `inspect` and Flask.
- `ModelSchemas`:
  - the `$defs` flattening (`_parse_defs`);
  - the per-model entries (`_generate_model_schema`);
  - references;
  - registration by class name (`_get_model_reference`).

  All three processors share these.
- `OpenApi`: query and path Parameter Objects (`_process_properties`,
  `_map_path`), which the newer two processors share.
- `Results`: errors as values. Each Python exception the core can raise is a
  `Result` error in the model.

Code that changes state is modelled as classes with `modifies` clauses, each
method proved against a function of the old state:

- groups;
- metadata objects;
- the `Endpoint` recorder;
- processors and the generator;
- the extension objects.

The pure translations are functions. Each has lemmas that state its
properties, its order and its failure cases.

## Model

| member | source | states |
|---|---|---|
| Json.GetSet | flask_swadantic/schema/processor.py:33 | after `d[k] = v`, key `k` reads back `v` and every other key reads as before |
| Json.KeysSet | flask_swadantic/schema/processor.py:33 | assignment keeps every existing key in its place and appends a new key at the end |
| Json.GetUpdate | flask_swadantic/schema/processor.py:75 | after `d.update(src)` with a proper dict, src's keys carry src's values and every other key is untouched |
| Json.HasKeyUpdate | flask_swadantic/schema/processor.py:75 | after `d.update(src)` the keys are exactly those of either dict |
| Json.UpdateUnique | flask_swadantic/schema/processor.py:75 | `update` keeps a dict free of repeated keys |
| Json.UpdateIdempotent | flask_swadantic/schema/processor.py:75 | updating twice with the same dict is updating once |
| Json.GetRemove | flask_swadantic/schema/processor.py:31 | `pop(k)` removes exactly key `k` and keeps the dict proper |
| ModelSchemas.DefsOf | flask_swadantic/schema/processor.py:31 | the `$defs` of a model schema form a proper dict of object schemas, and are empty when the schema has none (the `pop` default) |
| ModelSchemas.LastTitled | flask_swadantic/schema/processor.py:32-33 | reference definition: some definition with title `t` exists exactly when a result is given, and that result is one such definition |
| ModelSchemas.DefsByTitleGet | flask_swadantic/schema/processor.py:30-34 | re-keying by title gives, under each title, the last definition with that title, and nothing under any other key |
| ModelSchemas.DefsByTitleUnique | flask_swadantic/schema/processor.py:30-34 | each title appears once in the re-keyed definitions |
| ModelSchemas.ParseDefs | flask_swadantic/schema/processor.py:17-34 | the popped schema is the model schema without `$defs`, and the result is its definitions re-keyed by title |
| ModelSchemas.WithoutDefsShape | flask_swadantic/schema/processor.py:31 | popping `$defs` leaves an object schema with the same title and no `$defs` |
| ModelSchemas.ModelEntriesGet | flask_swadantic/schema/processor.py:51-55 | a model's own schema, stored under its title, wins over a definition with the same title; every other title maps to the last definition carrying it |
| ModelSchemas.ModelEntriesUnique | flask_swadantic/schema/processor.py:51-55 | the entries generated for one model have no repeated key |
| ModelSchemas.GenerateModelSchema | flask_swadantic/schema/processor.py:36-55 | a single model gives its entries; a list gives one entry dict per model, in list order |
| ModelSchemas.LastSegmentSuffix | flask_swadantic/schema/processor.py:79-80 | the model name is the suffix of `__name__` after its last `.`, and holds no `.` |
| ModelSchemas.ReferenceNames | flask_swadantic/schema/processor.py:70-77 | a model's `$ref` is `#/components/schemas/` followed by its name; for a list, `oneOf` holds one such reference per model, in order |
| ModelSchemas.ReferencedNameRoundTrip | flask_swadantic/schema/processor.py:77 | the model name can be read back from the `$ref` text |
| ModelSchemas.RegisterOneGet | flask_swadantic/schema/processor.py:73-75 | a name that is already a key leaves the registry alone; otherwise the model's entries overwrite keys with the same title, and every other key is unchanged |
| ModelSchemas.RegisterOneIdempotent | flask_swadantic/schema/processor.py:73-75 | registering a model a second time changes nothing |
| ModelSchemas.RegisterAllKeeps | flask_swadantic/schema/processor.py:70-75 | registering models only adds keys and keeps the registry proper |
| ModelSchemas.RegisterOneFrom | flask_swadantic/schema/processor.py:73-75 | a key present after registering a model was there before or is one of that model's entries |
| ModelSchemas.RegisterAllFrom | flask_swadantic/schema/processor.py:70-71 | a key present after registering a list of models was there before or is an entry of one of them |
| ModelSchemas.RegisteredFrom | flask_swadantic/schema/processor.py:70-75 | `_get_model_reference` adds only keys that are entries of the models it is given |
| ModelSchemas.RegisterOneDangles | flask_swadantic/schema/processor.py:73-77 | when the model's name is neither its schema title nor the title of one of its definitions, registering it never makes the name a key: the `$ref` it returns points at nothing, and each later reference registers the entries again |
| OpenApi.ItemsSchema | flask_swadantic/schema/processor.py:98-101 | a list's `items` is its single translated argument, else `anyOf` over all of them |
| OpenApi.ContentSchemaOf | flask_swadantic/schema/processor.py:239-243 | the schema placed under `content/application/json` can be read back unchanged |
| OpenApi.QueryParamsNames | flask_swadantic/schema/processor.py:146-169 | the query parameters are named after the properties that are not references, in property order |
| OpenApi.QueryParamsAppend | flask_swadantic/schema/processor.py:148-169 | parameter extraction keeps property order: it distributes over concatenation |
| OpenApi.PlainFieldNamesDistinct | flask_swadantic/schema/processor.py:148-151 | the property names kept are keys of the properties, so distinct property keys give distinct names |
| OpenApi.QueryParamsUnique | flask_swadantic/schema/processor.py:146-171 | distinct property names give query parameters with distinct names |
| OpenApi.QueryParamsShape | flask_swadantic/schema/processor.py:161-168 | every query parameter is `in: query`, carries a name, and is required exactly when its name is among the required fields |
| OpenApi.QueryParamMembers | flask_swadantic/schema/processor.py:161-168 | one property's parameter carries its name and `in: query`, and is required exactly when the name is listed |
| OpenApi.FieldSchemaStrip | flask_swadantic/base_schema_processor.py:141-147 | the older field schema is the newer one without `enum` |
| OpenApi.QueryParamWithoutEnum | flask_swadantic/base_schema_processor.py:141-157 | for one property, the older parameter is the newer one with `enum` removed from its schema |
| OpenApi.QueryParamsWithoutEnum | flask_swadantic/base_schema_processor.py:124-159 | the older query parameters are the newer ones with every `enum` removed |
| OpenApi.ProcessProperties | flask_swadantic/schema/processor.py:136-171 | the loop yields the query parameters of the non-reference properties, in order (the older processor's loop is the same with `enum` off) |
| OpenApi.PathParamsShape | flask_swadantic/schema/processor.py:215-227 | path parameters keep the entries' names in order, sit `in: path` and are required |
| OpenApi.MapPath | flask_swadantic/schema/processor.py:205-227 | the loop yields one path parameter per entry, in order |
| Endpoints.EndpointMeta.constructor | flask_swadantic/endpoint.py:10-33 | every argument is stored unchanged |
| Endpoints.EndpointMeta.Assign | flask_swadantic/schema/schema.py:125-127 | the rule, method and path are replaced; every other attribute is kept |
| Endpoints.PathEntriesAppend | flask_swadantic/endpoint.py:52-64 | path entries follow signature order |
| Endpoints.PathEntriesOne | flask_swadantic/endpoint.py:55-62 | a parameter gives an entry exactly when its default is a `Path` marker |
| Endpoints.PathEntriesExact | flask_swadantic/endpoint.py:52-64 | every entry comes from a `Path`-marked parameter, and every such parameter gives one |
| Endpoints.Capture | flask_swadantic/endpoint.py:47-50 | running a binding fails exactly when `methods` is missing or empty |
| Endpoints.Endpoint.constructor | flask_swadantic/endpoint.py:36-42 | every field starts unset and the path starts empty |
| Endpoints.Endpoint.AddUrlRule | flask_swadantic/endpoint.py:44-64 | rule and endpoint are stored; the call fails on missing or empty methods with nothing else written; otherwise it stores the first method, the view function's name and the `Path`-marked parameters |
| Endpoints.RunBinding | flask_swadantic/schema/schema.py:117-118 | running a deferred function against a fresh recorder captures exactly what `Capture` describes |
| Groups.FirstIndexOf | flask_swadantic/schema/schema.py:99-102 | the first position holding the name; none exactly when no position does |
| Groups.ApplyAllNames | flask_swadantic/schema/schema.py:115-127 | binding never changes the function names, so first-match positions stay fixed |
| Groups.ApplyAllAt | flask_swadantic/schema/schema.py:115-129 | the first meta of each function name ends with the rule, method and path of the last binding for that function; every other meta is unchanged |
| Groups.ApplyAllIdempotent | flask_swadantic/schema/schema.py:115-129 | binding twice with the same captures is binding once |
| Groups.ReconcileIdempotent | flask_swadantic/schema/schema.py:115-129 | preparing the endpoints a second time with the same bindings changes nothing |
| Groups.ReconcileUnbound | flask_swadantic/schema/schema.py:121-127 | a meta whose function has no binding is left exactly as registered |
| Groups.CapturesNames | flask_swadantic/schema/schema.py:115-118 | each capture carries the function name of its binding |
| Groups.CapturesStop | flask_swadantic/schema/schema.py:115-118 | once a binding fails, the walk over all bindings fails with that error |
| Groups.AppendNew | flask_swadantic/schema/schema.py:44-45 | the item is present afterwards; the list is unchanged if it was there and extended by it otherwise; lists without repeats stay without repeats |
| Groups.AppendNewIdempotent | flask_swadantic/schema/schema.py:44-45 | registering twice is registering once, and earlier items keep their order |
| Groups.Schema.constructor | flask_swadantic/schema/schema.py:19-35 | title is the blueprint's name; tags as given; no endpoints and no child groups |
| Groups.Schema.RegisterSchema | flask_swadantic/schema/schema.py:37-45 | the child is appended unless already registered; a disjoint valid child keeps the group a tree |
| Groups.Schema.RegisterEndpoint | flask_swadantic/schema/schema.py:47-87 | fails (unpacking `None`) exactly when the group's or the endpoint's tags are `None`, appending nothing; otherwise appends one fresh meta whose summary falls back to the function name and whose tags are the group's followed by the endpoint's, and returns `func` |
| Groups.Schema.FindMeta | flask_swadantic/schema/schema.py:89-102 | the first meta of the function, or null exactly when there is none |
| Groups.Schema.PrepareEndpoints | flask_swadantic/schema/schema.py:104-129 | returns the group's own list, whose values are the registered metas reconciled with every deferred binding; fails as the first failing binding does, and then leaves the metas as the bindings before it made them (`StoppedReconcile`) |
| Groups.Schema.ReconcileOne | flask_swadantic/schema/schema.py:115-127 | one binding is captured and copied into the first meta of its function; a binding that fails leaves every meta as it was |
| Processor.ParseResponseBodyShape | flask_swadantic/schema/processor.py:82-134 | `type: array` exactly for list generics (items as `ItemsSchema`), `oneOf` exactly for unions, `const` exactly for literal values, `{}` exactly for model classes and unrecognised types |
| Processor.BoolLiteralIsInteger | flask_swadantic/schema/processor.py:116-119 | a `bool` literal is translated as an integer `const`, because it passes the `int` instance test first |
| Processor.ParseResponseBodyNoRef | flask_swadantic/schema/processor.py:130-134 | no translated response body contains a `$ref`: `body is type` is false for a model class, so responses never reference models |
| Processor.ResponsesOfGet | flask_swadantic/schema/processor.py:256-271 | a status code maps to the content of the last response declaring it |
| Processor.ResponsesOfUnique | flask_swadantic/schema/processor.py:256-271 | each status code appears once |
| Processor.QueryOfOwnTitle | flask_swadantic/schema/processor.py:188-203 | when the schema's title equals the class name, the query parameters come from the model's own properties |
| Processor.QueryOfUnique | flask_swadantic/schema/processor.py:188-203 | a query model never yields two parameters with the same name |
| Processor.Lower | flask_swadantic/schema/processor.py:277 | a letter-by-letter lower-casing that keeps the length |
| Processor.LowerIdempotent | flask_swadantic/schema/processor.py:277 | lower-casing twice is lower-casing once |
| Processor.Dashed | flask_swadantic/schema/processor.py:282 | each space becomes `-` and every other character is kept |
| Processor.OperationIdShape | flask_swadantic/schema/processor.py:282 | the operation id has no space and no upper-case letter, and ends in `-` followed by the lower-cased method |
| Processor.OperationOfFields | flask_swadantic/schema/processor.py:273-290 | mapping fails exactly without a method or with a failing query; otherwise the key is the lower-cased method, the texts are the meta's own, the path parameters come last, and body and responses are present exactly when they are truthy |
| Processor.AddOperationGet | flask_swadantic/schema/processor.py:305 | `meta[rule].update({method: op})` adds the rule and replaces only the operation under that rule and method |
| Processor.MergeOk | flask_swadantic/schema/processor.py:302-307 | merging succeeds exactly when every endpoint maps, and otherwise fails as the first failing one does |
| Processor.MergeRules | flask_swadantic/schema/processor.py:302-307 | a rule is a key exactly when some endpoint is filed under it |
| Processor.MergeGet | flask_swadantic/schema/processor.py:302-307 | methods under one rule merge; for the same rule and method the last endpoint wins |
| Processor.MergeUnique | flask_swadantic/schema/processor.py:302-307 | neither a rule nor a method under a rule appears twice |
| Processor.MergeFails | flask_swadantic/schema/processor.py:304-305 | an endpoint that fails to map after successful ones is the failure of the whole merge |
| Processor.PathsOfOk | flask_swadantic/schema/processor.py:292-307 | the paths exist exactly when every endpoint maps; the error is that of the first one that does not |
| Processor.PathsOfRules | flask_swadantic/schema/processor.py:292-307 | the rules of the paths are exactly the endpoints' rules |
| Processor.BodiesRegisteredKeeps | flask_swadantic/schema/processor.py:285 | registering endpoint bodies only adds keys and keeps the registry proper |
| Processor.BodiesRegisteredFrom | flask_swadantic/schema/processor.py:285 | every key that registering the bodies adds is an entry of a model named by some endpoint's truthy body |
| Processor.SchemaProcessor.constructor | flask_swadantic/schema/processor.py:14-15 | the registry starts empty |
| Processor.SchemaProcessor.GenerateModelSchema | flask_swadantic/schema/processor.py:36-55 | the generated dict or list of dicts is the one `GenerateModelSchema` describes |
| Processor.SchemaProcessor.GenerateEntries | flask_swadantic/schema/processor.py:51-55 | one model yields its flattened definitions followed by its own schema under its title |
| Processor.SchemaProcessor.GetModelReference | flask_swadantic/schema/processor.py:57-77 | returns the model's reference, or `oneOf` the elements' references; each model whose name was not a key is registered, in order |
| Processor.SchemaProcessor.GetOneReference | flask_swadantic/schema/processor.py:73-77 | one model's `$ref`; its entries are added only when its name is not yet a key |
| Processor.SchemaProcessor.MapQuery | flask_swadantic/schema/processor.py:188-203 | the query parameters of the model, failing for a list or for a name that is not a key of the generated dict, and registering nothing |
| Processor.SchemaProcessor.MapBody | flask_swadantic/schema/processor.py:229-243 | the media content holding the body's reference; the body models are registered |
| Processor.SchemaProcessor.MapResponses | flask_swadantic/schema/processor.py:256-271 | the loop yields the status-code dict of `ResponsesOf` |
| Processor.SchemaProcessor.MapEndpoint | flask_swadantic/schema/processor.py:273-290 | the method key and Operation of `OperationOf`; body models are registered only on success, and a failure leaves the registry alone |
| Processor.SchemaProcessor.MapEndpoints | flask_swadantic/schema/processor.py:292-307 | the paths of all endpoints, with every truthy body registered in turn; when an endpoint fails, the registry holds the bodies of the endpoints before it (`StoppedMapping`) |
| Processor.SchemaProcessor.MapInto | flask_swadantic/schema/processor.py:304-305 | one iteration: the next endpoint's operation merged into the paths so far and its body registered, or the whole mapping's error with the registry as `StoppedMapping` says |
| Generator.LStripShape | flask_swadantic/openapi/generator.py:29 | `lstrip('/')` drops exactly the leading run of slashes |
| Generator.RStripShape | flask_swadantic/openapi/generator.py:29 | `rstrip('/')` drops exactly the trailing run of slashes |
| Generator.JoinShape | flask_swadantic/openapi/generator.py:29 | the joined rule is the prefix without trailing slashes, one `/`, then the rule without leading slashes |
| Generator.JoinNoDoubleSlash | flask_swadantic/openapi/generator.py:29 | joining parts free of `//` produces no `//` |
| Generator.JoinExamples | flask_swadantic/openapi/generator.py:29 | `/v1` and `/users` give `/v1/users`; `/api` and `/v1/users` give `/api/v1/users` |
| Generator.AddPrefixesTwo | flask_swadantic/openapi/generator.py:27-29 | prefixes apply in list order, so a later prefix ends up to the left of an earlier one |
| Generator.AddPrefixesExample | flask_swadantic/openapi/generator.py:25-31 | prefixes `/v1` then `/api` turn `/users` into `/api/v1/users` |
| Generator.AddPrefixesFalsy | flask_swadantic/openapi/generator.py:27-28 | falsy prefixes leave the rule unchanged |
| Generator.PrefixAllAt | flask_swadantic/openapi/generator.py:51-53 | only rules change, each once; prefixing fails, with an attribute error, exactly when a truthy prefix meets an unbound rule |
| Generator.PrefixAllFalsy | flask_swadantic/openapi/generator.py:52-53 | a falsy `url_prefix` leaves every meta unchanged, bound or not |
| Generator.PrefixAllNoDoubleSlash | flask_swadantic/openapi/generator.py:52-53 | prefixing never introduces `//` |
| Generator.PrefixedChainIsAddPrefixes | flask_swadantic/openapi/generator.py:14-31 | applying prefixes level by level, as the group walk does, gives the rule that one call with the whole prefix list computes |
| Generator.FlattenOwnFirst | flask_swadantic/openapi/generator.py:33-55 | a group's own metas come first and its children's next, each prefixed with the group's prefix once |
| Generator.FlattenLeaf | flask_swadantic/openapi/generator.py:33-55 | a group with neither bindings nor children yields its metas, prefixed |
| Generator.FlattenNestedExample | flask_swadantic/openapi/generator.py:33-55 | `/api` holding `/v1` holding `/users` yields `/api/v1/users`: the outermost prefix reads first |
| Generator.FlattenOwnFails | flask_swadantic/openapi/generator.py:44 | a group whose own bindings fail fails as a whole |
| Generator.FlattenChildFails | flask_swadantic/openapi/generator.py:47-49 | a group whose children fail fails as a whole |
| Generator.FlattenIs | flask_swadantic/openapi/generator.py:33-55 | otherwise the result is the group's own and children's metas, prefixed |
| Generator.FlattenAllFails | flask_swadantic/openapi/generator.py:57-72 | a failing root group fails the whole list |
| Generator.GenerateSpec | flask_swadantic/openapi/generator.py:74-96 | the paths hold exactly the rules of the flattened metas, and the components are the registry that mapping them filled |
| Generator.GenerateFails | flask_swadantic/openapi/generator.py:74-96 | generation fails exactly when flattening fails or some flattened endpoint cannot be mapped |
| Generator.OpenAPIGenerator.constructor | flask_swadantic/schema/processor.py:14-15 | the inherited registry starts empty |
| Generator.OpenAPIGenerator.AddPrefixToEndpoint | flask_swadantic/openapi/generator.py:14-31 | every truthy prefix is joined in turn and the rule is written back once; an unbound rule fails and nothing is written |
| Generator.OpenAPIGenerator.PrefixEndpoints | flask_swadantic/openapi/generator.py:52-53 | every collected meta's rule becomes as `PrefixAll` says, in order; when one fails, the metas before it are prefixed and it and the rest are as they were (`StoppedPrefixAll`) |
| Generator.OpenAPIGenerator.PrefixOne | flask_swadantic/openapi/generator.py:53 | one iteration: the next meta is prefixed and no other changes, or the whole loop's error with the metas as `StoppedPrefixAll` says |
| Generator.OpenAPIGenerator.ProcessSchema | flask_swadantic/openapi/generator.py:33-55 | returns the group's own list, now holding the group's flattened metas; fails as `Flatten` does, and then the group's list holds what the failing step left (`StoppedFlatten`: the partly reconciled metas, the children's results before the failing child, or the partly prefixed list) |
| Generator.OpenAPIGenerator.CollectEndpoints | flask_swadantic/openapi/generator.py:44-49 | the group's own list now holds its prepared metas followed by every child's flattened metas; on failure, `Flatten` fails the same way and the list is as `StoppedFlatten` says |
| Generator.OpenAPIGenerator.ProcessChildren | flask_swadantic/openapi/generator.py:47-49 | the group's own list is extended in place with each child's result, in registration order; a failing child leaves it extended with the results of the children before it (`StoppedFlattenAll`) |
| Generator.OpenAPIGenerator.ProcessAppend | flask_swadantic/openapi/generator.py:48-49 | one `extend` of either loop: the metas already collected are untouched and the group's flattened metas follow them, or `Flatten`'s error |
| Generator.OpenAPIGenerator.ProcessSchemas | flask_swadantic/openapi/generator.py:57-72 | the root groups' flattened metas, concatenated in order |
| Generator.OpenAPIGenerator.ProcessRoots | flask_swadantic/openapi/generator.py:67-72 | the loop of `_process_schemas` over a fresh list: the roots' flattened metas in order, distinct objects, or the first failing root's error |
| Generator.OpenAPIGenerator.Generate | flask_swadantic/openapi/generator.py:74-96 | a `ValueError` unless every item is a group; otherwise the result of `GenerateOf` on the groups' values and the current registry |
| Swadantic.InitApp | flask_swadantic/swadantic.py:33-36 | anything but a Flask app is a `TypeError`, raised before any registration |
| Swadantic.Swadantic.constructor | flask_swadantic/swadantic.py:13-21 | the given info, no groups, no cached document |
| Swadantic.Swadantic.RegisterSchema | flask_swadantic/swadantic.py:50-52 | appends the group unless already registered; the cache is kept |
| Swadantic.RegisterTwice | flask_swadantic/swadantic.py:50-52 | registering a group twice is registering it once, and earlier groups keep their order |
| Swadantic.Swadantic.GetSpec | flask_swadantic/swadantic.py:54-67 | the first successful call yields `DocumentOf` the registered groups and caches it; later calls return the cache whatever was registered since; a failure caches nothing; the registered groups stay as they were |
| Swadantic.GenerateDocument | flask_swadantic/swadantic.py:63-67 | the document of a fresh generator over the groups: version, info, and the generated paths and components |
| Swadantic.DocumentOfGenerate | flask_swadantic/swadantic.py:63-67 | the document announces 3.1.1, carries the info, and its paths and schemas are those of one generation from an empty registry |
| Swadantic.DocumentSchemas | flask_swadantic/swadantic.py:63-67 | every key of the document's schemas is an entry of a model that some flattened endpoint's truthy body names (`FromSomeBody`) |
| BaseProcessor.BaseParseShape | flask_swadantic/base_schema_processor.py:79-122 | `type: array` exactly for lists, `oneOf` exactly for unions, `$ref` exactly for model classes (which are registered), `{}` exactly for literals, `None` and unrecognised types, which leave the registry alone |
| BaseProcessor.NoMentionBody | flask_swadantic/base_schema_processor.py:79-122 | no key other than `type`, `items`, `anyOf`, `oneOf` and `$ref` appears anywhere in a translation |
| BaseProcessor.BaseParseNoConst | flask_swadantic/base_schema_processor.py:109-122 | a literal value translates to `{}`, and no translation carries a `const` |
| BaseProcessor.BaseParseKeeps | flask_swadantic/base_schema_processor.py:79-122 | translating only adds registry keys and keeps the registry proper |
| BaseProcessor.BaseParseArgsAt | flask_swadantic/base_schema_processor.py:93-106 | `map(self._parse_response_body, get_args(body))`: the `i`-th item is the `i`-th argument translated against the registry the arguments before it left, and the registry afterwards is the one the last argument left |
| BaseProcessor.BaseParseAgree | flask_swadantic/base_schema_processor.py:79-122 | on bodies made of type objects, list generics and unions, the older and newer translations agree and nothing is registered |
| BaseProcessor.BaseResponsesKeys | flask_swadantic/base_schema_processor.py:233-254 | the status codes match the newer processor's in order, once each |
| BaseProcessor.BaseResponsesAgree | flask_swadantic/base_schema_processor.py:233-254 | with bodies made of type objects only, the older responses equal the newer ones |
| BaseProcessor.BaseQueryWithoutEnum | flask_swadantic/base_schema_processor.py:176-191 | the older query fails in the same cases as the newer one, and otherwise gives its parameters without `enum` |
| BaseProcessor.BaseSchemaProcessor.constructor | flask_swadantic/base_schema_processor.py:12-13 | the registry starts empty |
| BaseProcessor.BaseSchemaProcessor.UpdateModelSchemas | flask_swadantic/base_schema_processor.py:256-263 | the registry becomes the old one updated with the dict |
| BaseProcessor.BaseSchemaProcessor.GetModelReference | flask_swadantic/base_schema_processor.py:54-74 | the reference of the model(s); each model absent by name is registered through `update_model_schemas` |
| BaseProcessor.BaseSchemaProcessor.GetOneReference | flask_swadantic/base_schema_processor.py:70-74 | one model's `$ref`, registering its entries only when its name is absent |
| BaseProcessor.BaseSchemaProcessor.ParseResponseBody | flask_swadantic/base_schema_processor.py:79-122 | the translation and the registry are those of `BaseParse`, with model classes registered left to right |
| BaseProcessor.BaseSchemaProcessor.ParseArgs | flask_swadantic/base_schema_processor.py:93 | the arguments are translated in order, each seeing the registry the previous one left |
| BaseProcessor.BaseSchemaProcessor.MapQuery | flask_swadantic/base_schema_processor.py:176-191 | the enum-free query parameters, registering nothing |
| BaseProcessor.BaseSchemaProcessor.MapBody | flask_swadantic/base_schema_processor.py:217-231 | the media content holding the body's reference; the body models are registered |
| BaseProcessor.BaseSchemaProcessor.MapResponses | flask_swadantic/base_schema_processor.py:233-254 | `data[code] = content` per response, in order, with the registry that translating the bodies left |
| LegacySchema.TagsUnmerged | flask_swadantic/schema.py:79 | the older group stores the endpoint's own tags, which agree with the latest group's merged tags exactly when the group has no tags |
| LegacySchema.LegacySummary | flask_swadantic/schema.py:70-81 | the summary is the function name exactly when none, an empty one, or that name is given; the path starts empty and the meta is unbound |
| LegacySchema.Schema.constructor | flask_swadantic/schema.py:26-35 | blueprint and tags as given, no endpoints |
| LegacySchema.Schema.RegisterEndpoint | flask_swadantic/schema.py:37-84 | appends exactly one fresh meta, with the summary falling back to the function name, an empty path and the tags as passed; returns `func` |
| LegacySchema.RegisterFindsNew | flask_swadantic/schema.py:70-81 | a newly registered function is found, by name, at the new meta |
| SrcEndpoint.EndpointMeta.constructor | src/endpoint.py:6-19 | name and function name as given; body, rule and method `None` unless passed |
| SrcEndpoint.EndpointMeta.Bare | src/schema.py:6-13 | the group-local meta class has only `name` and `function_name`; `body`, `rule` and `method` do not exist |
| SrcEndpoint.EndpointMeta.Bind | src/swadantic.py:93-94 | writes rule and method, creating the attributes if needed; everything else is kept |
| SrcEndpoint.Capture | src/endpoint.py:32-35 | running a binding fails exactly when `methods` is missing or empty |
| SrcEndpoint.CaptureAgrees | src/endpoint.py:29-35 | the first iteration captures the same rule, method and function name as the latest one, failing in the same cases |
| SrcEndpoint.Endpoint.constructor | src/endpoint.py:22-27 | every field starts `None` |
| SrcEndpoint.Endpoint.AddUrlRule | src/endpoint.py:29-35 | rule and endpoint are stored; missing or empty methods fail before the method or function name is written |
| SrcEndpoint.RunBinding | src/swadantic.py:74-75 | running a deferred function against a fresh recorder captures what `Capture` describes |
| SrcSchema.Schema.constructor | src/schema.py:16-20 | blueprint and tags as given, no endpoints |
| SrcSchema.Schema.RegisterEndpoint | src/schema.py:22-36 | appends one fresh meta of the local class, named `name or func.__name__`, which has no body, rule or method; returns `func` |
| SrcSchema.Schema.RegisterEndpointCorrected | src/schema.py:28-33 | the same registration with src/endpoint.py's class, so that body, rule and method all start `None` |
| SrcProcessor.BaseSchemaProcessor.constructor | src/base_schema_processor.py:7-8 | the registry starts empty |
| SrcProcessor.BaseSchemaProcessor.GetModelSchema | src/base_schema_processor.py:29-45 | the flattened definitions and the model's own schema, element-wise for a list |
| SrcProcessor.BaseSchemaProcessor.GetModelReference | src/base_schema_processor.py:47-64 | the reference of the model(s), registering nothing |
| SrcProcessor.BaseSchemaProcessor.UpdateModelSchemas | src/base_schema_processor.py:66-73 | the registry becomes the old one updated with the dict |
| SrcProcessor.UpdateModelSchemasGet | src/base_schema_processor.py:66-73 | after the update, new keys take the dict's schemas and the others keep theirs; the registry stays proper |
| SrcBinding.BindOneOk | src/swadantic.py:72-94 | one iteration fails exactly on a binding without methods or without a meta for its function, each with its own error |
| SrcBinding.BindOneAt | src/swadantic.py:78-94 | a successful iteration binds exactly the first meta of the function and leaves every other meta alone |
| SrcBinding.BindAllKeeps | src/swadantic.py:72-94 | the pass keeps every meta's names and body and only ever binds rules and methods |
| SrcBinding.BindAllOk | src/swadantic.py:72-94 | the pass runs to the end exactly when every binding is usable |
| SrcBinding.BindAllFails | src/swadantic.py:72-94 | the first unusable binding decides the error, and the metas stay as the earlier bindings left them |
| SrcBinding.BindAllAt | src/swadantic.py:72-94 | the first meta of each function ends with the rule and method of the last binding for it; other metas are left as registered |
| SrcMapping.MapOneOk | src/swadantic.py:124-130 | one meta maps exactly when it has a method that is not `None`, a body and a rule; otherwise the error names the first missing piece |
| SrcMapping.MapEndpointsOk | src/swadantic.py:112-132 | a group maps to the end exactly when all its metas are mappable, and then its paths are `PathsOf` the metas |
| SrcMapping.MapEndpointsFails | src/swadantic.py:124-130 | the first unmappable meta decides the error; its body is already merged into the registry when only its rule is missing |
| SrcMapping.GetPutRule | src/swadantic.py:126 | `meta[rule][method] = op` adds the rule and extends only that rule's methods |
| SrcMapping.GetPutMethod | src/swadantic.py:126 | after `meta[rule][method] = op`, only that rule and method read `op` |
| SrcMapping.PathsOfUnique | src/swadantic.py:122-132 | one group's paths and each rule's methods are proper dicts |
| SrcMapping.PathsOfRules | src/swadantic.py:122-132 | a rule is a key exactly when some meta is stored under it |
| SrcMapping.PathsOfEntry | src/swadantic.py:122-132 | within a group, methods under a rule merge, and the last meta wins for a rule and method |
| SrcMapping.MapSchemasOk | src/swadantic.py:134-138 | the pass runs to the end exactly when every meta of every group is mappable |
| SrcMapping.MapSchemasUnique | src/swadantic.py:134-138 | a complete pass keeps the paths proper |
| SrcMapping.MapSchemasGet | src/swadantic.py:134-138 | a rule holds exactly the methods of the last group using it; a later group replaces an earlier group's methods for that rule wholesale |
| SrcMapping.MapSchemasLast | src/swadantic.py:135-136 | a complete pass ends by updating the earlier groups' paths with the last group's |
| SrcMapping.SchemasReplaceRule | src/swadantic.py:135-136 | `get /users` in one group and `post /users` in a later one leave only `post` under `/users` |
| SrcMapping.MergeAllGet | src/swadantic.py:100-102 | merging dicts in turn: a key takes its value from the last dict that has it |
| SrcMapping.BodyMergedGet | src/swadantic.py:98-104 | `_map_body` overwrites: every generated key takes the generated schema even if it was registered; for a list the last model generating a key wins |
| SrcMapping.MapEndpointsNoBodies | src/swadantic.py:129 | a group with no truthy body leaves the registry as it was |
| SrcMapping.BareGroupFails | src/swadantic.py:112-132 | as written: a group whose metas come from src/schema.py fails, whatever the bindings, with an attribute error on its first meta, before any body is mapped |
| SrcMapping.BareSchemasFail | src/swadantic.py:134-138 | as written: `get_spec` fails whenever some registered group holds a meta without `body` |
| SrcMapping.CorrectedGroupMaps | src/swadantic.py:72-132 | corrected: metas of src/endpoint.py's class with distinct functions, all bound, go through both passes; each lands under its last binding's rule and method |
| SrcSwadantic.FindMeta | src/swadantic.py:78-85 | the first meta of the function, or null exactly when there is none |
| SrcSwadantic.BindBinding | src/swadantic.py:72-94 | one iteration of the loop, as `BindOne` says, with the metas untouched on failure |
| SrcSwadantic.BindDeferred | src/swadantic.py:72-94 | the loop leaves the metas and the outcome that `BindAll` describes |
| SrcSwadantic.Swadantic.constructor | src/swadantic.py:15-25 | the given info, empty registry, groups, paths and cache |
| SrcSwadantic.Swadantic.RegisterSchema | src/swadantic.py:54-96 | a `ValueError` unless `deferred_functions` is a list; binds as `RegisterOutcome` says; appends the group only when every binding went through (again if already registered) |
| SrcSwadantic.Swadantic.MapBody | src/swadantic.py:98-110 | every generated dict is merged into the registry, then the body's reference is wrapped as media content |
| SrcSwadantic.Swadantic.MergeDicts | src/swadantic.py:100-102 | the registry is updated with each dict in turn |
| SrcSwadantic.Swadantic.MapEndpoint | src/swadantic.py:125-130 | one iteration, as `MapOne` says: method first, then body, then rule |
| SrcSwadantic.Swadantic.MapEndpoints | src/swadantic.py:112-132 | a group's paths from a fresh dict, as `MapEndpointsOf` says, with truthy bodies merged on the way |
| SrcSwadantic.Swadantic.MapGroup | src/swadantic.py:135-136 | one group's paths are updated into the persistent paths |
| SrcSwadantic.Swadantic.MapSchemas | src/swadantic.py:134-138 | the paths and registry that `MapSchemasOf` describes, starting from the persistent ones |
| SrcSwadantic.Swadantic.GetSpec | src/swadantic.py:140-152 | the first complete pass is cached and returned; a failing pass caches nothing but keeps what it wrote into the paths and the registry |

## Left out

- The Flask plumbing is not modelled:
  - registration of `swagger_bp` and of the `spec_bp` blueprint, and the `APISpecsView` route in `init_app`;
  - `api_spec_view.py`, `swagger_bp.py` and the sample apps.

  `Swadantic.InitApp` keeps only the type guard. The first iteration has the same guard at src/swadantic.py:37-40, so it is not modelled a second time.
- `init_app` from the constructor is not modelled. Both constructors call it when an `app` is passed; the model's constructors take no app.
- pydantic's `model_json_schema` is an input: each `Model` carries the JSON schema pydantic would produce, with a title, optional `$defs` and `properties`. The model does not check that the schema is what pydantic would produce.
- Python's runtime type inspection is an input:
  - `get_origin` and `get_args` become the constructors of `DeclaredType`;
  - `inspect.signature` becomes a view function's `Param` list;
  - `isinstance(…, Flask)` becomes the `AppArg` datatype.
- Float values in response bodies are opaque tokens (`FloatValue`, `JNumber`). No floating-point arithmetic takes place.
- Deferred functions are not arbitrary callables. Each is the `add_url_rule` call Flask records.
- `Processor.Lower`: lowers only the ASCII letters `A`–`Z`. `str.lower()` also lowers other Unicode letters.
- Class inheritance is composition in the model. `OpenAPIGenerator` and the first-iteration `Swadantic` hold their base processor as a field.
- `_view_functions` of the first-iteration extension object is never read, so it is not modelled.
- `Generator.OpenAPIGenerator.ProcessSchema` extends a group's own list with its children's metas. Afterwards the groups are no longer separate trees in the model's sense, so a second generation over the same groups (for example by a second extension object) is not covered.
- `Swadantic.Swadantic.GetSpec` and `Generator.OpenAPIGenerator.Generate` require the registered groups to be disjoint trees. `register_schema` (flask_swadantic/swadantic.py:50-52) drops repeated roots, but the source does not forbid a group registered under two parents, a group that is both a root and a child, or a list with repeats handed to `generate` directly.
- `Swadantic.Swadantic.GetSpec`: the cached document is a value in the model. In the source it aliases the generator's registry.
- `SrcSwadantic.Swadantic.GetSpec`: the cached document is a value in the model. In the source it aliases `_paths` and `_models`, so a later failing pass that writes into them changes the cached dicts as well.
- Two `_map_endpoints` details are modelled as values:
  - its `defaultdict(dict)` is a dict whose keys are optional rules;
  - the latest `_map_response` is folded into `Processor.SchemaProcessor.MapResponses`.
- `Endpoints.EndpointMeta.constructor`: `path` defaults to the empty list. flask_swadantic/endpoint.py:17 defaults it to `None`. Both callers pass `[]` (flask_swadantic/schema/schema.py:78 and flask_swadantic/schema.py:75), so `None` never reaches `_prepare_endpoints`.
- The latest group code imports `EndpointMeta` and `Endpoint` through flask_swadantic/schema/__init__.py:5, from `flask_swadantic/schema/endpoint.py`. That file is not part of this model. The model follows flask_swadantic/endpoint.py in its place.
- The `register_endpoint` decorators are methods that take the view function directly. The model does not return the inner closure first.
- A group's `url_prefix` and `deferred_functions` are fixed at construction. The model does not follow a blueprint that Flask mutates after the group was built.

## Findings

| source | as written | input that shows it | evidently intended | confidence | as-written member | corrected member |
|---|---|---|---|---|---|---|
| src/schema.py:6-13 | the group records metas of a local class with only `name` and `function_name`, but `_map_endpoints` at src/swadantic.py:125-129 reads `endpoint.method` and `endpoint.body`, and binding at src/swadantic.py:93-94 never sets `body` | one group with one endpoint `GET /users` bound by its blueprint: `get_spec` raises `AttributeError` | record src/endpoint.py's `EndpointMeta`, whose `body`, `rule` and `method` default to `None` | not executed | SrcMapping.BareGroupFails | SrcMapping.CorrectedGroupMaps |
