/**
 * The binding pass of the first iteration's `register_schema`
 * (src/swadantic.py), on values: every deferred binding of the group's
 * blueprint is run against a fresh `Endpoint`, and its rule and method are
 * written into the first meta of the same function. A binding without
 * methods, or one whose function has no meta, stops the pass with an error
 * and leaves what the earlier bindings wrote.
 */
module SrcBinding {
  import opened Results
  import opened Inputs
  import opened SrcEndpoint
  import opened SrcSchema
  import G = Groups

  /** The function names of the metas, in order. */
  function FunctionNames(ms: seq<SrcMeta>): (r: seq<string>)
    ensures |r| == |ms| && forall i | 0 <= i < |ms| :: r[i] == ms[i].functionName
  {
    seq(|ms|, i requires 0 <= i < |ms| => ms[i].functionName)
  }

  /** A meta once a captured binding's rule and method were written into it. */
  function Bound(m: SrcMeta, c: SrcCaptured): SrcMeta {
    m.(rule := Present(Some(c.rule)), httpMethod := Present(Some(c.httpMethod)))
  }

  /** A binding the pass gets past: it has a method, and some meta is registered for its function. */
  predicate Usable(names: seq<string>, b: Binding) {
    Capture(b).Ok? && b.viewFunc.name in names
  }

  /** Every binding of the list is usable. */
  predicate AllUsable(names: seq<string>, bs: seq<Binding>) {
    forall k | 0 <= k < |bs| :: Capture(bs[k]).Ok? && bs[k].viewFunc.name in names
  }

  /** No meta before position `i` has the function name of the meta at `i`. */
  predicate FirstOfName(ms: seq<SrcMeta>, i: nat)
    requires i < |ms|
  {
    forall j | 0 <= j < i :: ms[j].functionName != ms[i].functionName
  }

  /** One iteration of the pass: capture the binding, then update the first meta of its function. */
  function BindOne(ms: seq<SrcMeta>, b: Binding): Result<seq<SrcMeta>> {
    var c :- Capture(b);
    match G.FirstIndexOf(FunctionNames(ms), c.functionName)
    case None => Err(NoMatchingMeta)
    case Some(i) => Ok(ms[i := Bound(ms[i], c)])
  }

  /** One iteration fails exactly on an unusable binding, with the error of its cause, and keeps the length. */
  lemma BindOneOk(ms: seq<SrcMeta>, b: Binding)
    ensures BindOne(ms, b).Ok? <==> Usable(FunctionNames(ms), b)
    ensures BindOne(ms, b).Err? ==>
      BindOne(ms, b).error == if Capture(b).Err? then MissingMethods else NoMatchingMeta
    ensures BindOne(ms, b).Ok? ==> |BindOne(ms, b).value| == |ms|
  {
  }

  /**
   * A successful iteration gives exactly the first meta of the binding's
   * function its rule and first method, and leaves every other meta.
   */
  lemma BindOneAt(ms: seq<SrcMeta>, b: Binding, j: nat)
    requires BindOne(ms, b).Ok?
    requires j < |ms|
    ensures |BindOne(ms, b).value| == |ms|
    ensures BindOne(ms, b).value[j] ==
      if FirstOfName(ms, j) && ms[j].functionName == b.viewFunc.name then Bound(ms[j], Capture(b).value) else ms[j]
  {
    var names := FunctionNames(ms);
    var c := Capture(b).value;
    var i := G.FirstIndexOf(names, c.functionName).value;
    assert names[j] == ms[j].functionName;
    assert names[i] == ms[i].functionName;
  }

  /** How the pass left the metas, and whether it ran to the end. */
  datatype Outcome = Outcome(metas: seq<SrcMeta>, result: Result<()>)

  /** The pass over the bindings in order; the first failure stops it, keeping the earlier updates. */
  function BindAll(ms: seq<SrcMeta>, bs: seq<Binding>): Outcome
    decreases |bs|
  {
    if |bs| == 0 then Outcome(ms, Ok(()))
    else
      var before := BindAll(ms, bs[..|bs| - 1]);
      if before.result.Err? then before
      else match BindOne(before.metas, bs[|bs| - 1])
        case Err(e) => Outcome(before.metas, Err(e))
        case Ok(after) => Outcome(after, Ok(()))
  }

  /** `register_schema`'s binding pass, after the check that the blueprint has a list of deferred functions. */
  function RegisterOutcome(deferred: DeferredAttr, ms: seq<SrcMeta>): Outcome {
    match deferred
    case Deferred(bs) => BindAll(ms, bs)
    case _ => Outcome(ms, Err(InvalidDeferred))
  }

  /** A meta whose body and names are those of `m`, and whose method is `m`'s or one that was bound. */
  predicate Rebound(m: SrcMeta, n: SrcMeta) {
    n.name == m.name && n.functionName == m.functionName && n.body == m.body &&
    (n.httpMethod == m.httpMethod || (n.httpMethod.Present? && n.httpMethod.value.Some?)) &&
    (n.rule == m.rule || (n.rule.Present? && n.rule.value.Some?))
  }

  /** The pass keeps the list's length, every meta's names and body, and only ever binds rules and methods. */
  lemma {:induction false} BindAllKeeps(ms: seq<SrcMeta>, bs: seq<Binding>)
    ensures |BindAll(ms, bs).metas| == |ms|
    ensures FunctionNames(BindAll(ms, bs).metas) == FunctionNames(ms)
    ensures forall j | 0 <= j < |ms| :: Rebound(ms[j], BindAll(ms, bs).metas[j])
    decreases |bs|
  {
    if |bs| > 0 {
      var before := BindAll(ms, bs[..|bs| - 1]);
      BindAllKeeps(ms, bs[..|bs| - 1]);
      BindOneOk(before.metas, bs[|bs| - 1]);
      if BindOne(before.metas, bs[|bs| - 1]).Ok? {
        var after := BindOne(before.metas, bs[|bs| - 1]).value;
        forall j | 0 <= j < |ms|
          ensures after[j].functionName == ms[j].functionName && Rebound(ms[j], after[j])
        {
          BindOneAt(before.metas, bs[|bs| - 1], j);
        }
        assert FunctionNames(after) == FunctionNames(ms);
      }
    }
  }

  /** Once the pass over a prefix failed, the later bindings change nothing. */
  lemma {:induction false} BindAllStop(ms: seq<SrcMeta>, bs: seq<Binding>, n: nat)
    requires n <= |bs|
    requires BindAll(ms, bs[..n]).result.Err?
    ensures BindAll(ms, bs) == BindAll(ms, bs[..n])
    decreases |bs|
  {
    if n < |bs| {
      assert bs[..|bs| - 1][..n] == bs[..n];
      BindAllStop(ms, bs[..|bs| - 1], n);
    } else {
      assert bs[..n] == bs;
    }
  }

  /** A list is usable exactly when its prefix and its last binding are. */
  lemma AllUsableSnoc(names: seq<string>, bs: seq<Binding>)
    requires |bs| > 0
    ensures AllUsable(names, bs) <==> AllUsable(names, bs[..|bs| - 1]) && Usable(names, bs[|bs| - 1])
  {
    assert forall k | 0 <= k < |bs| - 1 :: bs[..|bs| - 1][k] == bs[k];
  }

  /** The pass runs to the end exactly when every binding is usable against the registered metas. */
  lemma {:induction false} BindAllOk(ms: seq<SrcMeta>, bs: seq<Binding>)
    ensures BindAll(ms, bs).result.Ok? <==> AllUsable(FunctionNames(ms), bs)
    decreases |bs|
  {
    if |bs| > 0 {
      var init := bs[..|bs| - 1];
      var before := BindAll(ms, init);
      BindAllOk(ms, init);
      BindAllKeeps(ms, init);
      BindOneOk(before.metas, bs[|bs| - 1]);
      AllUsableSnoc(FunctionNames(ms), bs);
    }
  }

  /**
   * The first unusable binding decides the outcome: its error, with every
   * meta as the bindings before it left them.
   */
  lemma BindAllFails(ms: seq<SrcMeta>, bs: seq<Binding>, k: nat)
    requires k < |bs|
    requires AllUsable(FunctionNames(ms), bs[..k])
    requires !Usable(FunctionNames(ms), bs[k])
    ensures BindAll(ms, bs[..k]).result.Ok?
    ensures BindAll(ms, bs) ==
      Outcome(BindAll(ms, bs[..k]).metas, Err(if Capture(bs[k]).Err? then MissingMethods else NoMatchingMeta))
  {
    BindAllOk(ms, bs[..k]);
    BindAllKeeps(ms, bs[..k]);
    BindOneOk(BindAll(ms, bs[..k]).metas, bs[k]);
    assert bs[..k + 1][..k] == bs[..k];
    BindAllStop(ms, bs, k + 1);
  }

  /** The position of the last binding for the function `name`. */
  function LastBindingOf(bs: seq<Binding>, name: string): (r: Option<nat>)
    ensures r.Some? ==> r.value < |bs| && bs[r.value].viewFunc.name == name
    ensures r.Some? ==> forall j | r.value < j < |bs| :: bs[j].viewFunc.name != name
    ensures r.None? ==> forall j | 0 <= j < |bs| :: bs[j].viewFunc.name != name
    decreases |bs|
  {
    if |bs| == 0 then None
    else if bs[|bs| - 1].viewFunc.name == name then Some(|bs| - 1)
    else LastBindingOf(bs[..|bs| - 1], name)
  }

  /** Lists with the same function names agree on which position is the first of its name. */
  lemma FirstOfNameSame(ms: seq<SrcMeta>, ns: seq<SrcMeta>, i: nat)
    requires FunctionNames(ms) == FunctionNames(ns) && i < |ms|
    ensures |ns| == |ms| && ns[i].functionName == ms[i].functionName
    ensures FirstOfName(ns, i) <==> FirstOfName(ms, i)
  {
    assert |FunctionNames(ns)| == |ns|;
    assert forall j | 0 <= j < |ms| :: ns[j].functionName == FunctionNames(ns)[j] == FunctionNames(ms)[j];
  }

  /**
   * When every binding is usable, the first meta of each function ends with
   * the rule and method of the last binding for that function; every other
   * meta, later ones of a repeated function included, is left as registered.
   */
  lemma {:induction false} BindAllAt(ms: seq<SrcMeta>, bs: seq<Binding>, i: nat)
    requires AllUsable(FunctionNames(ms), bs)
    requires i < |ms|
    ensures BindAll(ms, bs).result.Ok? && |BindAll(ms, bs).metas| == |ms|
    ensures var last := LastBindingOf(bs, ms[i].functionName);
      BindAll(ms, bs).metas[i] ==
        if FirstOfName(ms, i) && last.Some? then Bound(ms[i], Capture(bs[last.value]).value) else ms[i]
    decreases |bs|
  {
    if |bs| > 0 {
      var init := bs[..|bs| - 1];
      var b := bs[|bs| - 1];
      AllUsableSnoc(FunctionNames(ms), bs);
      BindAllAt(ms, init, i);
      var before := BindAll(ms, init);
      BindAllKeeps(ms, init);
      FirstOfNameSame(ms, before.metas, i);
      BindOneOk(before.metas, b);
      BindOneAt(before.metas, b, i);
      var last := LastBindingOf(init, ms[i].functionName);
      if last.Some? {
        assert init[last.value] == bs[last.value];
      }
    }
  }
}
