/**
 * Endpoint groups of the latest iteration: a `Schema` wraps one blueprint,
 * records endpoint metadata through its decorator, holds child groups, and
 * reconciles its metadata with the route bindings its blueprint recorded.
 */
module Groups {
  import opened Results
  import opened Inputs
  import opened Endpoints

  // ---------------------------------------------------------------------
  // Reconciliation on values
  // ---------------------------------------------------------------------

  function Names(ms: seq<Meta>): (r: seq<string>)
    ensures |r| == |ms| && forall i | 0 <= i < |ms| :: r[i] == ms[i].functionName
  {
    seq(|ms|, i requires 0 <= i < |ms| => ms[i].functionName)
  }

  /** The position of the first name equal to `name`. */
  function FirstIndexOf(names: seq<string>, name: string): (r: Option<nat>)
    ensures r.Some? ==> r.value < |names| && names[r.value] == name
    ensures r.Some? ==> forall j | 0 <= j < r.value :: names[j] != name
    ensures r.None? <==> forall j | 0 <= j < |names| :: names[j] != name
  {
    if |names| == 0 then None
    else if names[0] == name then Some(0)
    else match FirstIndexOf(names[1..], name)
      case None => None
      case Some(i) => Some(i + 1)
  }

  /** A meta once a capture has been copied into it: rule, method and path. */
  function Bind(m: Meta, c: Captured): Meta {
    m.(rule := Some(c.rule), httpMethod := Some(c.httpMethod), path := c.path)
  }

  /** One iteration of `_prepare_endpoints`: the first meta of the captured function, if any, is bound. */
  function ApplyCapture(ms: seq<Meta>, c: Captured): (r: seq<Meta>)
    ensures |r| == |ms|
  {
    match FirstIndexOf(Names(ms), c.functionName)
    case None => ms
    case Some(i) => ms[i := Bind(ms[i], c)]
  }

  /** Capturing every binding in order; the first binding that fails stops the walk. */
  function Captures(bs: seq<Binding>): (r: Result<seq<Captured>>)
    ensures r.Ok? ==> |r.value| == |bs|
    decreases |bs|
  {
    if |bs| == 0 then Ok([])
    else
      var init :- Captures(bs[..|bs| - 1]);
      var c :- Capture(bs[|bs| - 1]);
      Ok(init + [c])
  }

  function ApplyAll(ms: seq<Meta>, cs: seq<Captured>): (r: seq<Meta>)
    ensures |r| == |ms|
    decreases |cs|
  {
    if |cs| == 0 then ms else ApplyCapture(ApplyAll(ms, cs[..|cs| - 1]), cs[|cs| - 1])
  }

  /** The metas after `_prepare_endpoints` ran over the bindings. */
  function Reconcile(ms: seq<Meta>, bs: seq<Binding>): Result<seq<Meta>> {
    var cs :- Captures(bs);
    Ok(ApplyAll(ms, cs))
  }

  /** Reference definition: the last capture for function `name`. */
  function LastNamed(cs: seq<Captured>, name: string): Option<Captured>
    decreases |cs|
  {
    if |cs| == 0 then None
    else if cs[|cs| - 1].functionName == name then Some(cs[|cs| - 1])
    else LastNamed(cs[..|cs| - 1], name)
  }

  /** A meta bound by the last capture of its function, or left alone when there is none. */
  function BindLast(m: Meta, cs: seq<Captured>): Meta {
    match LastNamed(cs, m.functionName)
    case None => m
    case Some(c) => Bind(m, c)
  }

  /** Binding never touches the function names, so the first-match positions do not move. */
  lemma {:induction false} ApplyAllNames(ms: seq<Meta>, cs: seq<Captured>)
    ensures Names(ApplyAll(ms, cs)) == Names(ms)
    decreases |cs|
  {
    if |cs| > 0 {
      ApplyAllNames(ms, cs[..|cs| - 1]);
      var x := ApplyAll(ms, cs[..|cs| - 1]);
      assert Names(ApplyCapture(x, cs[|cs| - 1])) == Names(x);
    }
  }

  /**
   * Reconciliation, entry by entry: the first meta of each function name gets
   * the rule, method and path of the last binding of that function; every other
   * meta, and every meta without a binding, is unchanged.
   */
  lemma {:induction false} ApplyAllAt(ms: seq<Meta>, cs: seq<Captured>, i: nat)
    requires i < |ms|
    ensures |ApplyAll(ms, cs)| == |ms|
    ensures ApplyAll(ms, cs)[i] ==
      if FirstIndexOf(Names(ms), ms[i].functionName) == Some(i) then BindLast(ms[i], cs) else ms[i]
    decreases |cs|
  {
    if |cs| > 0 {
      var init := cs[..|cs| - 1];
      var c := cs[|cs| - 1];
      var x := ApplyAll(ms, init);
      ApplyAllAt(ms, init, i);
      ApplyAllNames(ms, init);
      assert LastNamed(cs, ms[i].functionName) ==
        if c.functionName == ms[i].functionName then Some(c) else LastNamed(init, ms[i].functionName);
      match FirstIndexOf(Names(x), c.functionName)
      case None =>
      case Some(k) =>
        forall j | 0 <= j < |x|
          ensures ApplyCapture(x, c)[j] == if j == k then Bind(x[j], c) else x[j]
        {
        }
    }
  }

  /** Reconciling twice with the same bindings leaves every meta as the first pass left it. */
  lemma ApplyAllIdempotent(ms: seq<Meta>, cs: seq<Captured>)
    ensures ApplyAll(ApplyAll(ms, cs), cs) == ApplyAll(ms, cs)
  {
    var x := ApplyAll(ms, cs);
    ApplyAllNames(ms, cs);
    forall i | 0 <= i < |x|
      ensures ApplyAll(x, cs)[i] == x[i]
    {
      ApplyAllAt(ms, cs, i);
      ApplyAllAt(x, cs, i);
      assert x[i].functionName == ms[i].functionName;
    }
  }

  lemma ReconcileIdempotent(ms: seq<Meta>, bs: seq<Binding>)
    ensures Reconcile(ms, bs).Ok? ==> Reconcile(Reconcile(ms, bs).value, bs) == Reconcile(ms, bs)
  {
    if Captures(bs).Ok? {
      ApplyAllIdempotent(ms, Captures(bs).value);
    }
  }

  /** A meta whose function has no binding keeps `rule` and `method` unset when they were unset. */
  lemma ReconcileUnbound(ms: seq<Meta>, bs: seq<Binding>, i: nat)
    requires i < |ms| && Reconcile(ms, bs).Ok?
    requires forall k | 0 <= k < |bs| :: bs[k].viewFunc.name != ms[i].functionName
    ensures Reconcile(ms, bs).value[i] == ms[i]
  {
    var cs := Captures(bs).value;
    CapturesNames(bs);
    LastNamedNone(cs, ms[i].functionName);
    ApplyAllAt(ms, cs, i);
  }

  /** Every capture carries the function name of its binding. */
  lemma {:induction false} CapturesNames(bs: seq<Binding>)
    ensures Captures(bs).Ok? ==> forall k | 0 <= k < |bs| :: Captures(bs).value[k].functionName == bs[k].viewFunc.name
    decreases |bs|
  {
    if |bs| > 0 {
      var init := bs[..|bs| - 1];
      CapturesNames(init);
      if Captures(bs).Ok? {
        forall k | 0 <= k < |bs|
          ensures Captures(bs).value[k].functionName == bs[k].viewFunc.name
        {
          if k < |bs| - 1 {
            assert bs[k] == init[k];
          }
        }
      }
    }
  }

  lemma {:induction false} LastNamedNone(cs: seq<Captured>, name: string)
    requires forall k | 0 <= k < |cs| :: cs[k].functionName != name
    ensures LastNamed(cs, name) == None
    decreases |cs|
  {
    if |cs| > 0 {
      LastNamedNone(cs[..|cs| - 1], name);
    }
  }

  /**
   * What `_prepare_endpoints` leaves behind when a binding fails: every
   * binding before the first failing one has been copied into its meta.
   */
  predicate StoppedReconcile(start: seq<Meta>, bs: seq<Binding>, now: seq<Meta>) {
    exists k | 0 <= k < |bs| :: Captures(bs[..k]).Ok? && Capture(bs[k]).Err? && now == ApplyAll(start, Captures(bs[..k]).value)
  }

  lemma StoppedReconcileAt(start: seq<Meta>, bs: seq<Binding>, k: nat, cs: seq<Captured>, now: seq<Meta>)
    requires k < |bs| && Captures(bs[..k]) == Ok(cs) && Capture(bs[k]).Err? && now == ApplyAll(start, cs)
    ensures StoppedReconcile(start, bs, now)
  {
  }

  /** Once a prefix of the bindings fails, the whole walk fails with the same error. */
  lemma {:induction false} CapturesStop(bs: seq<Binding>, k: nat)
    requires k <= |bs| && Captures(bs[..k]).Err?
    ensures Captures(bs) == Err(Captures(bs[..k]).error)
    decreases |bs| - k
  {
    if k == |bs| {
      assert bs[..k] == bs;
    } else {
      assert bs[..k + 1][..k] == bs[..k];
      CapturesStop(bs, k + 1);
    }
  }

  // ---------------------------------------------------------------------
  // Group trees as values
  // ---------------------------------------------------------------------

  /** A group as a value: its blueprint's prefix and bindings, its metas and its child groups. */
  datatype GroupValue = GroupValue(prefix: Option<string>, bindings: seq<Binding>, metas: seq<Meta>, children: seq<GroupValue>)

  /** `list.append` guarded by `not in`, as `register_schema` does. */
  function AppendNew<T(==)>(s: seq<T>, x: T): (r: seq<T>)
    ensures x in r
    ensures Distinct(s) ==> Distinct(r)
    ensures x in s ==> r == s
    ensures x !in s ==> r == s + [x]
  {
    if x in s then s else s + [x]
  }

  /** Registering twice is registering once, and registering keeps what was there, in order. */
  lemma AppendNewIdempotent<T>(s: seq<T>, x: T)
    ensures AppendNew(AppendNew(s, x), x) == AppendNew(s, x)
    ensures AppendNew(s, x)[..|s|] == s
  {
  }

  // ---------------------------------------------------------------------
  // The group object
  // ---------------------------------------------------------------------

  class Schema {
    const blueprint: Blueprint
    const title: string
    const tags: Option<seq<string>>
    var endpoints: seq<EndpointMeta>
    var schemas: seq<Schema>
    ghost var Repr: set<object>
    ghost var Groups: set<Schema>

    /**
     * The group is a tree: it owns its metas and its children, the children's
     * footprints are disjoint from each other and from its own metas, and each
     * child is itself a valid group. `Groups` are the group objects of the
     * subtree and `Repr` every object of it, metas included; the shape reads
     * only the group objects, so writing a meta's fields keeps it.
     */
    ghost predicate Valid()
      reads this, Groups
      decreases Groups
    {
      this in Groups && Groups <= Repr &&
      (forall i | 0 <= i < |endpoints| :: endpoints[i] in Repr) &&
      (forall i | 0 <= i < |schemas| ::
        schemas[i] in Groups && schemas[i].Groups <= Groups && this !in schemas[i].Groups &&
        schemas[i].Repr <= Repr) &&
      (forall i | 0 <= i < |schemas| :: schemas[i].Valid()) &&
      Distinct(endpoints) &&
      (forall i, j | 0 <= i < j < |schemas| :: schemas[i].Repr !! schemas[j].Repr) &&
      (forall i, k | 0 <= i < |schemas| && 0 <= k < |endpoints| :: endpoints[k] !in schemas[i].Repr) &&
      (forall i | 0 <= i < |schemas| :: this !in schemas[i].Repr)
    }

    /** The group as a value. */
    ghost function Tree(): GroupValue
      requires Valid()
      reads this, Groups, Repr
      decreases Groups, 1
    {
      GroupValue(blueprint.urlPrefix, blueprint.deferredFunctions, Values(endpoints), ChildTrees(|schemas|))
    }

    ghost function ChildTrees(n: nat): (r: seq<GroupValue>)
      requires Valid() && n <= |schemas|
      reads this, Groups, Repr
      ensures |r| == n
      decreases Groups, 0, n
    {
      if n == 0 then [] else ChildTrees(n - 1) + [schemas[n - 1].Tree()]
    }

    /** The value of the group's `i`-th child is that child's tree. */
    lemma {:induction false} ChildTreesAt(n: nat)
      requires Valid() && n <= |schemas|
      ensures forall i | 0 <= i < n :: ChildTrees(n)[i] == schemas[i].Tree()
      decreases n
    {
      if n > 0 {
        ChildTreesAt(n - 1);
      }
    }

    /** `Schema(blueprint, tags=[])`. */
    constructor(blueprint: Blueprint, tags: Option<seq<string>> := Some([]))
      ensures this.blueprint == blueprint && title == blueprint.name && this.tags == tags
      ensures endpoints == [] && schemas == []
      ensures Valid() && Repr == {this} && Groups == {this}
    {
      this.blueprint := blueprint;
      title := blueprint.name;
      this.tags := tags;
      endpoints := [];
      schemas := [];
      Repr := {this};
      Groups := {this};
    }

    /**
     * `register_schema`: appends the child unless it is already registered.
     * The tree shape survives when the child is a valid group of its own.
     */
    method RegisterSchema(child: Schema)
      modifies this
      ensures schemas == AppendNew(old(schemas), child)
      ensures endpoints == old(endpoints)
      ensures Repr == if child in old(schemas) then old(Repr) else old(Repr) + old(child.Repr)
      ensures Groups == if child in old(schemas) then old(Groups) else old(Groups) + old(child.Groups)
      ensures old(Valid()) && (child in old(schemas) || (old(child.Valid()) && old(Repr) !! old(child.Repr))) ==> Valid()
    {
      if child !in schemas {
        Repr := Repr + child.Repr;
        Groups := Groups + child.Groups;
        schemas := schemas + [child];
      }
    }

    /**
     * `register_endpoint(...)(func)`: appends one new meta with the summary
     * defaulting to the function's name, an empty path, and the group's tags
     * followed by the endpoint's tags; returns `func`. Unpacking a tags list
     * that is None fails before anything is appended.
     */
    method RegisterEndpoint(func: ViewFunc, summary: Option<string> := None, description: Option<string> := None,
                            query: Option<ModelArg> := None, body: Option<ModelArg> := None,
                            responses: Option<seq<ResponseSchema>> := None, tags: Option<seq<string>> := Some([]))
      returns (r: Result<ViewFunc>)
      modifies this
      ensures r.Ok? <==> this.tags.Some? && tags.Some?
      ensures r.Err? ==> r.error == TagsNone && endpoints == old(endpoints) && Repr == old(Repr)
      ensures r.Ok? ==> r.value == func
      ensures r.Ok? ==> |endpoints| == |old(endpoints)| + 1 && endpoints[..|old(endpoints)|] == old(endpoints)
      ensures r.Ok? ==> fresh(endpoints[|old(endpoints)|]) && Repr == old(Repr) + {endpoints[|old(endpoints)|]}
      ensures r.Ok? ==> (endpoints[|old(endpoints)|].Value() ==
        Meta(OrElse(summary, func.name), func.name, description, query, [], body, responses,
             Some(this.tags.value + tags.value), None, None))
      ensures schemas == old(schemas) && Groups == old(Groups)
      ensures old(Valid()) ==> Valid()
    {
      if this.tags.None? || tags.None? {
        return Err(TagsNone);
      }
      var meta := new EndpointMeta(OrElse(summary, func.name), func.name, description, query, [], body, responses,
                                   Some(this.tags.value + tags.value));
      endpoints := endpoints + [meta];
      Repr := Repr + {meta};
      return Ok(func);
    }

    /** `_find_meta(function_name)`: the first meta registered for the function, or null. */
    method FindMeta(functionName: string) returns (m: EndpointMeta?)
      ensures m == null <==> FirstIndexOf(Names(Values(endpoints)), functionName).None?
      ensures m != null ==> m == endpoints[FirstIndexOf(Names(Values(endpoints)), functionName).value]
    {
      var i := 0;
      while i < |endpoints|
        invariant 0 <= i <= |endpoints|
        invariant forall j | 0 <= j < i :: endpoints[j].functionName != functionName
      {
        if endpoints[i].functionName == functionName {
          FirstIndexOfIs(Names(Values(endpoints)), functionName, i);
          return endpoints[i];
        }
        i := i + 1;
      }
      return null;
    }

    /**
     * `_prepare_endpoints` (the `endpoints` property): runs every recorded
     * binding against a fresh `Endpoint` and copies rule, method and path into
     * the first meta of the same function. Returns the group's own list.
     */
    method PrepareEndpoints() returns (r: Result<seq<EndpointMeta>>)
      requires Valid()
      modifies set i | 0 <= i < |endpoints| :: endpoints[i]
      ensures Valid()
      ensures r.Ok? <==> Reconcile(old(Values(endpoints)), blueprint.deferredFunctions).Ok?
      ensures r.Err? ==> Reconcile(old(Values(endpoints)), blueprint.deferredFunctions) == Err(r.error)
      ensures r.Ok? ==> r.value == endpoints
      ensures r.Ok? ==> Values(endpoints) == Reconcile(old(Values(endpoints)), blueprint.deferredFunctions).value
      ensures r.Err? ==> StoppedReconcile(old(Values(endpoints)), blueprint.deferredFunctions, Values(endpoints))
    {
      var bs := blueprint.deferredFunctions;
      ghost var start := Values(endpoints);
      ghost var cs: seq<Captured> := [];
      var k := 0;
      while k < |bs|
        invariant 0 <= k <= |bs|
        invariant Captures(bs[..k]) == Ok(cs)
        invariant Values(endpoints) == ApplyAll(start, cs)
      {
        assert bs[..k + 1][..k] == bs[..k];
        var captured := ReconcileOne(bs[k]);
        if captured.Err? {
          CapturesStop(bs, k + 1);
          StoppedReconcileAt(start, bs, k, cs, Values(endpoints));
          return Err(captured.error);
        }
        cs := cs + [captured.value];
        k := k + 1;
      }
      assert bs[..|bs|] == bs;
      return Ok(endpoints);
    }

    /** One iteration of `_prepare_endpoints`: capture one binding and copy it into its meta. */
    method ReconcileOne(b: Binding) returns (r: Result<Captured>)
      requires Valid()
      modifies set i | 0 <= i < |endpoints| :: endpoints[i]
      ensures r == Capture(b)
      ensures r.Ok? ==> Values(endpoints) == ApplyCapture(old(Values(endpoints)), r.value)
      ensures r.Err? ==> Values(endpoints) == old(Values(endpoints))
    {
      var e, captured := RunBinding(b);
      if captured.Err? {
        return captured;
      }
      var c := captured.value;
      var meta := FindMeta(c.functionName);
      if meta != null {
        ghost var before := Values(endpoints);
        ghost var idx := FirstIndexOf(Names(before), c.functionName).value;
        meta.Assign(e.rule, e.httpMethod, e.path);
        forall j | 0 <= j < |endpoints|
          ensures Values(endpoints)[j] == before[idx := Bind(before[idx], c)][j]
        {
          if j != idx {
            assert endpoints[j] != endpoints[idx];
          }
        }
      }
      return captured;
    }
  }

  lemma FirstIndexOfIs(names: seq<string>, name: string, i: nat)
    requires i < |names| && names[i] == name
    requires forall j | 0 <= j < i :: names[j] != name
    ensures FirstIndexOf(names, name) == Some(i)
  {
    match FirstIndexOf(names, name)
    case None =>
    case Some(k) =>
  }
}
