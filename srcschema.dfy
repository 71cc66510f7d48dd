/**
 * The endpoint group of the first iteration (src/schema.py): a blueprint,
 * its tags and the metas its decorator records, of the group's own meta
 * class that knows only a name and a function name.
 */
module SrcSchema {
  import opened Results
  import opened Inputs
  import opened SrcEndpoint
  import E = Endpoints

  /** What `blueprint.deferred_functions` is: missing, not a list, or the recorded bindings. */
  datatype DeferredAttr = NoDeferred | NotAList | Deferred(bindings: seq<Binding>)

  /** The blueprint of a group, as far as the extension object looks at it. */
  datatype SrcBlueprint = SrcBlueprint(name: string, deferred: DeferredAttr)

  class Schema {
    const blueprint: SrcBlueprint
    const tags: seq<string>
    var endpoints: seq<EndpointMeta>

    /** The recorded metas are distinct objects. */
    ghost predicate Valid()
      reads this
    {
      E.Distinct(endpoints)
    }

    constructor(blueprint: SrcBlueprint, tags: seq<string>)
      ensures this.blueprint == blueprint && this.tags == tags && endpoints == []
      ensures Valid()
    {
      this.blueprint := blueprint;
      this.tags := tags;
      endpoints := [];
    }

    /**
     * `register_endpoint(name)(func)`: appends one new meta of the group's
     * own class, named `name or func.__name__`, and returns `func`. The meta
     * has no `body`, `rule` or `method` attribute.
     */
    method RegisterEndpoint(func: ViewFunc, name: Option<string> := None) returns (r: ViewFunc)
      modifies this
      ensures r == func
      ensures |endpoints| == |old(endpoints)| + 1 && endpoints[..|old(endpoints)|] == old(endpoints)
      ensures fresh(endpoints[|old(endpoints)|])
      ensures endpoints[|old(endpoints)|].Value() == SrcMeta(OrElse(name, func.name), func.name, Absent, Absent, Absent)
      ensures old(Valid()) ==> Valid()
    {
      var meta := new EndpointMeta.Bare(OrElse(name, func.name), func.name);
      endpoints := endpoints + [meta];
      assert endpoints[..|old(endpoints)|] == old(endpoints);
      return func;
    }

    /**
     * `register_endpoint` recording the meta class of src/endpoint.py
     * instead, whose `body`, `rule` and `method` all start as `None`.
     */
    method RegisterEndpointCorrected(func: ViewFunc, name: Option<string> := None) returns (r: ViewFunc)
      modifies this
      ensures r == func
      ensures |endpoints| == |old(endpoints)| + 1 && endpoints[..|old(endpoints)|] == old(endpoints)
      ensures fresh(endpoints[|old(endpoints)|])
      ensures endpoints[|old(endpoints)|].Value() ==
        SrcMeta(OrElse(name, func.name), func.name, Present(None), Present(None), Present(None))
      ensures old(Valid()) ==> Valid()
    {
      var meta := new EndpointMeta(OrElse(name, func.name), func.name);
      endpoints := endpoints + [meta];
      assert endpoints[..|old(endpoints)|] == old(endpoints);
      return func;
    }
  }
}
