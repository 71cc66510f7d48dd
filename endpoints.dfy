/**
 * Endpoint metadata records and the stand-in `Endpoint` object whose
 * `add_url_rule` captures one deferred route binding of a blueprint.
 */
module Endpoints {
  import opened Results
  import opened Inputs

  /** The attributes of an `EndpointMeta`, as a value. */
  datatype Meta = Meta(
    summary: string,
    functionName: string,
    description: Option<string>,
    query: Option<ModelArg>,
    path: seq<PathEntry>,
    body: Option<ModelArg>,
    responses: Option<seq<ResponseSchema>>,
    tags: Option<seq<string>>,
    rule: Option<string>,
    httpMethod: Option<string>)

  /**
   * The metadata one `register_endpoint` decorator records. Only `rule`,
   * `method` and `path` are ever written after construction.
   */
  class EndpointMeta {
    const summary: string
    const functionName: string
    const description: Option<string>
    const query: Option<ModelArg>
    var path: seq<PathEntry>
    const body: Option<ModelArg>
    const responses: Option<seq<ResponseSchema>>
    const tags: Option<seq<string>>
    var rule: Option<string>
    var httpMethod: Option<string>

    /** Stores every argument unchanged; everything after `function_name` is optional. */
    constructor(summary: string, functionName: string, description: Option<string> := None,
                query: Option<ModelArg> := None, path: seq<PathEntry> := [], body: Option<ModelArg> := None,
                responses: Option<seq<ResponseSchema>> := None, tags: Option<seq<string>> := None,
                rule: Option<string> := None, httpMethod: Option<string> := None)
      ensures Value() == Meta(summary, functionName, description, query, path, body, responses, tags, rule, httpMethod)
    {
      this.summary := summary;
      this.functionName := functionName;
      this.description := description;
      this.query := query;
      this.path := path;
      this.body := body;
      this.responses := responses;
      this.tags := tags;
      this.rule := rule;
      this.httpMethod := httpMethod;
    }

    /** `_prepare_endpoints` copying a captured binding into this meta. */
    method Assign(rule: Option<string>, httpMethod: Option<string>, path: seq<PathEntry>)
      modifies this
      ensures Value() == old(Value()).(rule := rule, httpMethod := httpMethod, path := path)
    {
      this.rule := rule;
      this.httpMethod := httpMethod;
      this.path := path;
    }

    function Value(): Meta
      reads this
    {
      Meta(summary, functionName, description, query, path, body, responses, tags, rule, httpMethod)
    }
  }

  /** The values of a list of metadata objects. */
  function Values(ms: seq<EndpointMeta>): (r: seq<Meta>)
    reads ms
    ensures |r| == |ms| && forall i | 0 <= i < |ms| :: r[i] == ms[i].Value()
  {
    seq(|ms|, i requires 0 <= i < |ms| reads ms => ms[i].Value())
  }

  /** Metas none of which changed have the same values. */
  twostate lemma ValuesKept(ms: seq<EndpointMeta>)
    requires forall k | 0 <= k < |ms| :: unchanged(ms[k])
    ensures Values(ms) == old(Values(ms))
  {
  }

  /** Taking values distributes over concatenation. */
  lemma ValuesAppend(a: seq<EndpointMeta>, b: seq<EndpointMeta>)
    ensures Values(a + b) == Values(a) + Values(b)
  {
    assert forall i | 0 <= i < |a + b| :: Values(a + b)[i] == (Values(a) + Values(b))[i] by {
      forall i | 0 <= i < |a + b|
        ensures Values(a + b)[i] == (Values(a) + Values(b))[i]
      {
        if i < |a| {
          assert (a + b)[i] == a[i];
        } else {
          assert (a + b)[i] == b[i - |a|];
        }
      }
    }
  }

  /** The list holds no object twice. */
  predicate Distinct<T(==)>(s: seq<T>) {
    forall i, j | 0 <= i < j < |s| :: s[i] != s[j]
  }

  /** Two lists without repeats, drawn from disjoint pools, have none together. */
  lemma DistinctAppend<T>(a: seq<T>, b: seq<T>, pool: set<T>)
    requires Distinct(a) && Distinct(b)
    requires forall k | 0 <= k < |b| :: b[k] in pool
    requires forall k | 0 <= k < |a| :: a[k] !in pool
    ensures Distinct(a + b)
  {
    forall i, j | 0 <= i < j < |a + b|
      ensures (a + b)[i] != (a + b)[j]
    {
      if j < |a| {
        assert (a + b)[i] == a[i] && (a + b)[j] == a[j];
      } else if i >= |a| {
        assert (a + b)[i] == b[i - |a|] && (a + b)[j] == b[j - |a|];
      } else {
        assert (a + b)[i] == a[i] && (a + b)[j] == b[j - |a|];
      }
    }
  }

  /** Appending a list drawn from `part` to one drawn from `pool` stays in `pool` and away from what `part` avoids. */
  lemma AppendPlaced<T>(a: seq<T>, b: seq<T>, part: set<T>, pool: set<T>, others: seq<set<T>>)
    requires forall k | 0 <= k < |a| :: a[k] in pool
    requires forall k | 0 <= k < |b| :: b[k] in part
    requires part <= pool
    requires forall j, k | 0 <= j < |others| && 0 <= k < |a| :: a[k] !in others[j]
    requires forall j | 0 <= j < |others| :: part !! others[j]
    ensures forall k | 0 <= k < |a + b| :: (a + b)[k] in pool
    ensures forall j, k | 0 <= j < |others| && 0 <= k < |a + b| :: (a + b)[k] !in others[j]
  {
    forall k | 0 <= k < |a + b|
      ensures (a + b)[k] in pool && forall j | 0 <= j < |others| :: (a + b)[k] !in others[j]
    {
      if k < |a| {
        assert (a + b)[k] == a[k];
      } else {
        assert (a + b)[k] == b[k - |a|];
      }
    }
  }

  /** The path entry a `Path`-marked parameter contributes. */
  function EntryOf(p: Param): PathEntry
    requires p.default.PathMarker?
  {
    PathEntry(p.name, p.annotation, p.default.description)
  }

  /** The path entries of a signature: one per `Path`-marked parameter, in signature order. */
  function PathEntries(ps: seq<Param>): seq<PathEntry>
    decreases |ps|
  {
    if |ps| == 0 then []
    else
      var last := ps[|ps| - 1];
      PathEntries(ps[..|ps| - 1]) + (if last.default.PathMarker? then [EntryOf(last)] else [])
  }

  /** Extraction keeps signature order: it distributes over concatenation. */
  lemma {:induction false} PathEntriesAppend(a: seq<Param>, b: seq<Param>)
    ensures PathEntries(a + b) == PathEntries(a) + PathEntries(b)
    decreases |b|
  {
    if |b| == 0 {
      assert a + b == a;
    } else {
      var init := b[..|b| - 1];
      assert (a + b)[..|a + b| - 1] == a + init;
      assert (a + b)[|a + b| - 1] == b[|b| - 1];
      PathEntriesAppend(a, init);
    }
  }

  /** A single parameter contributes an entry exactly when its default is a `Path` marker. */
  lemma PathEntriesOne(p: Param)
    ensures PathEntries([p]) == if p.default.PathMarker? then [EntryOf(p)] else []
  {
    assert [p][..0] == [];
  }

  /** Every extracted entry comes from a marked parameter, and every marked parameter gives one. */
  lemma {:induction false} PathEntriesExact(ps: seq<Param>)
    ensures forall e | e in PathEntries(ps) :: exists i | 0 <= i < |ps| :: ps[i].default.PathMarker? && e == EntryOf(ps[i])
    ensures forall i | 0 <= i < |ps| && ps[i].default.PathMarker? :: EntryOf(ps[i]) in PathEntries(ps)
    ensures |PathEntries(ps)| <= |ps|
    decreases |ps|
  {
    if |ps| > 0 {
      var init := ps[..|ps| - 1];
      PathEntriesExact(init);
      forall e | e in PathEntries(ps)
        ensures exists i | 0 <= i < |ps| :: ps[i].default.PathMarker? && e == EntryOf(ps[i])
      {
        if e in PathEntries(init) {
          var i :| 0 <= i < |init| && init[i].default.PathMarker? && e == EntryOf(init[i]);
          assert ps[i] == init[i];
        } else {
          assert ps[|ps| - 1].default.PathMarker? && e == EntryOf(ps[|ps| - 1]);
        }
      }
      forall i | 0 <= i < |ps| && ps[i].default.PathMarker?
        ensures EntryOf(ps[i]) in PathEntries(ps)
      {
        if i < |ps| - 1 {
          assert ps[i] == init[i];
        }
      }
    }
  }

  /** What one captured binding yields once `add_url_rule` has run to completion. */
  datatype Captured = Captured(rule: string, httpMethod: string, functionName: string, path: seq<PathEntry>)

  /** Running a deferred binding against a fresh `Endpoint`: fails when no method is given. */
  function Capture(b: Binding): (r: Result<Captured>)
    ensures r.Err? <==> b.methods.None? || |b.methods.value| == 0
  {
    if b.methods.None? || |b.methods.value| == 0 then Err(MissingMethods)
    else Ok(Captured(b.rule, b.methods.value[0], b.viewFunc.name, PathEntries(b.viewFunc.params)))
  }

  /** The stand-in a deferred blueprint function is run against, recording what it is given. */
  class Endpoint {
    var rule: Option<string>
    var endpoint: Option<string>
    var httpMethod: Option<string>
    var functionName: Option<string>
    var path: seq<PathEntry>

    constructor()
      ensures rule == None && endpoint == None && httpMethod == None && functionName == None && path == []
    {
      rule := None;
      endpoint := None;
      httpMethod := None;
      functionName := None;
      path := [];
    }

    /**
     * `add_url_rule(rule, endpoint, view_func, **options)`: stores the rule and
     * endpoint name, then the first of `options["methods"]` (failing when it is
     * absent or empty, before anything else is written), the view function's
     * name, and the entries of its `Path`-marked parameters.
     */
    method AddUrlRule(rule: string, endpoint: Option<string>, viewFunc: ViewFunc, methods: Option<seq<string>>)
      returns (r: Result<()>)
      modifies this
      ensures this.rule == Some(rule) && this.endpoint == endpoint
      ensures r.Ok? <==> methods.Some? && |methods.value| > 0
      ensures r.Err? ==> r.error == MissingMethods && httpMethod == old(httpMethod) && functionName == old(functionName) && path == old(path)
      ensures r.Ok? ==> httpMethod == Some(methods.value[0]) && functionName == Some(viewFunc.name)
      ensures r.Ok? ==> path == PathEntries(viewFunc.params)
    {
      this.rule := Some(rule);
      this.endpoint := endpoint;
      if methods.None? || |methods.value| == 0 {
        return Err(MissingMethods);
      }
      httpMethod := Some(methods.value[0]);
      functionName := Some(viewFunc.name);
      var params := viewFunc.params;
      var mapped: seq<PathEntry> := [];
      var i := 0;
      while i < |params|
        invariant 0 <= i <= |params|
        invariant mapped == PathEntries(params[..i])
      {
        assert params[..i + 1][..i] == params[..i];
        if params[i].default.PathMarker? {
          mapped := mapped + [PathEntry(params[i].name, params[i].annotation, params[i].default.description)];
        }
        i := i + 1;
      }
      assert params[..|params|] == params;
      path := mapped;
      return Ok(());
    }
  }

  /** Running `func(endpoint)` for one binding against a fresh `Endpoint`, as `Capture` describes. */
  method RunBinding(b: Binding) returns (e: Endpoint, r: Result<Captured>)
    ensures fresh(e)
    ensures r == Capture(b)
    ensures r.Ok? ==> e.rule == Some(r.value.rule) && e.httpMethod == Some(r.value.httpMethod)
    ensures r.Ok? ==> e.functionName == Some(r.value.functionName) && e.path == r.value.path
  {
    e := new Endpoint();
    var done := e.AddUrlRule(b.rule, b.endpoint, b.viewFunc, b.methods);
    if done.Err? {
      return e, Err(done.error);
    }
    r := Ok(Captured(b.rule, e.httpMethod.value, e.functionName.value, e.path));
  }
}
