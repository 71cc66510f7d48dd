/**
 * The older endpoint group of flask_swadantic/schema.py: a blueprint, its
 * tags and the list of endpoint metadata its decorator records. Unlike the
 * latest group it stores each endpoint's tags exactly as given.
 */
module LegacySchema {
  import opened Results
  import opened Inputs
  import opened Endpoints
  import opened Groups

  /** The metadata `register_endpoint(...)(func)` records in the older group. */
  function LegacyMeta(func: ViewFunc, summary: Option<string>, description: Option<string>, query: Option<ModelArg>,
                      body: Option<ModelArg>, responses: Option<seq<ResponseSchema>>, tags: Option<seq<string>>): Meta
  {
    Meta(OrElse(summary, func.name), func.name, description, query, [], body, responses, tags, None, None)
  }

  /**
   * The older group stores the endpoint's own tags, where the latest one
   * stores the group's tags followed by them: the two agree only when the
   * group has no tags.
   */
  lemma TagsUnmerged(groupTags: seq<string>, func: ViewFunc, summary: Option<string>, tags: seq<string>)
    ensures LegacyMeta(func, summary, None, None, None, None, Some(tags)).tags == Some(tags)
    ensures LegacyMeta(func, summary, None, None, None, None, Some(tags)).tags == Some(groupTags + tags) <==> groupTags == []
  {
    if groupTags + tags == tags {
      assert |groupTags| == 0;
    }
  }

  /** The summary falls back to the function's name exactly when none, or an empty one, is given. */
  lemma LegacySummary(func: ViewFunc, summary: Option<string>)
    ensures var m := LegacyMeta(func, summary, None, None, None, None, None);
      m.functionName == func.name &&
      (m.summary == func.name <==> !TruthyString(summary) || summary.value == func.name) &&
      m.path == [] && m.rule.None? && m.httpMethod.None?
  {
  }

  class Schema {
    const blueprint: Blueprint
    const tags: seq<string>
    var endpoints: seq<EndpointMeta>

    /** The recorded metas are distinct objects. */
    ghost predicate Valid()
      reads this
    {
      Distinct(endpoints)
    }

    constructor(blueprint: Blueprint, tags: seq<string>)
      ensures this.blueprint == blueprint && this.tags == tags && endpoints == []
      ensures Valid()
    {
      this.blueprint := blueprint;
      this.tags := tags;
      endpoints := [];
    }

    /**
     * `register_endpoint(...)(func)`: appends exactly one new meta, with the
     * summary defaulting to the function's name, an empty path and the tags
     * exactly as passed, and returns `func`.
     */
    method RegisterEndpoint(func: ViewFunc, summary: Option<string> := None, description: Option<string> := None,
                            query: Option<ModelArg> := None, body: Option<ModelArg> := None,
                            responses: Option<seq<ResponseSchema>> := None, tags: Option<seq<string>> := Some([]))
      returns (r: ViewFunc)
      modifies this
      ensures r == func
      ensures |endpoints| == |old(endpoints)| + 1 && endpoints[..|old(endpoints)|] == old(endpoints)
      ensures fresh(endpoints[|old(endpoints)|])
      ensures endpoints[|old(endpoints)|].Value() == LegacyMeta(func, summary, description, query, body, responses, tags)
      ensures old(Valid()) ==> Valid()
    {
      var meta := new EndpointMeta(OrElse(summary, func.name), func.name, description, query, [], body, responses, tags);
      endpoints := endpoints + [meta];
      assert endpoints[..|old(endpoints)|] == old(endpoints);
      return func;
    }
  }

  /** Registering one more function keeps the names of the earlier metas, and the new one is found by its name if it is new. */
  lemma RegisterFindsNew(ms: seq<Meta>, m: Meta)
    requires m.functionName !in Names(ms)
    ensures Names(ms + [m]) == Names(ms) + [m.functionName]
    ensures FirstIndexOf(Names(ms + [m]), m.functionName) == Some(|ms|)
  {
    assert Names(ms + [m]) == Names(ms) + [m.functionName];
    FirstIndexOfIs(Names(ms + [m]), m.functionName, |ms|);
  }
}
