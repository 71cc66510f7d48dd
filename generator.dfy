/**
 * The document assembler of the latest iteration: walks a tree of endpoint
 * groups, collects every group's endpoint metadata after its children's,
 * prefixes each rule with the URL prefixes of the groups it sits in, and
 * hands the collected metadata to the schema processor.
 */
module Generator {
  import opened Results
  import opened Json
  import opened Inputs
  import opened ModelSchemas
  import opened Endpoints
  import opened Groups
  import opened Processor
  import opened Lists

  // ---------------------------------------------------------------------
  // Joining a prefix and a rule
  // ---------------------------------------------------------------------

  /** `s.lstrip('/')`. */
  function LStrip(s: string): string
    decreases |s|
  {
    if |s| > 0 && s[0] == '/' then LStrip(s[1..]) else s
  }

  /** `s.rstrip('/')`. */
  function RStrip(s: string): string
    decreases |s|
  {
    if |s| > 0 && s[|s| - 1] == '/' then RStrip(s[..|s| - 1]) else s
  }

  /** `lstrip` drops exactly the leading run of slashes. */
  lemma {:induction false} LStripShape(s: string)
    ensures |LStrip(s)| <= |s| && LStrip(s) == s[|s| - |LStrip(s)|..]
    ensures forall i | 0 <= i < |s| - |LStrip(s)| :: s[i] == '/'
    ensures |LStrip(s)| > 0 ==> LStrip(s)[0] != '/'
    decreases |s|
  {
    if |s| > 0 && s[0] == '/' {
      LStripShape(s[1..]);
      assert s[1..][|s| - 1 - |LStrip(s)|..] == s[|s| - |LStrip(s)|..];
      forall i | 0 <= i < |s| - |LStrip(s)|
        ensures s[i] == '/'
      {
        if i > 0 {
          assert s[i] == s[1..][i - 1];
        }
      }
    }
  }

  /** `rstrip` drops exactly the trailing run of slashes. */
  lemma {:induction false} RStripShape(s: string)
    ensures |RStrip(s)| <= |s| && RStrip(s) == s[..|RStrip(s)|]
    ensures forall i | |RStrip(s)| <= i < |s| :: s[i] == '/'
    ensures |RStrip(s)| > 0 ==> RStrip(s)[|RStrip(s)| - 1] != '/'
    decreases |s|
  {
    if |s| > 0 && s[|s| - 1] == '/' {
      var init := s[..|s| - 1];
      RStripShape(init);
      assert init[..|RStrip(s)|] == s[..|RStrip(s)|];
      forall i | |RStrip(s)| <= i < |s|
        ensures s[i] == '/'
      {
        if i < |s| - 1 {
          assert s[i] == init[i];
        }
      }
    }
  }

  /** `f"{prefix.rstrip('/')}/{rule.lstrip('/')}"`. */
  function Join(prefix: string, rule: string): string {
    RStrip(prefix) + "/" + LStrip(rule)
  }

  /**
   * The joined rule is the prefix without its trailing slashes, one slash,
   * and the rule without its leading slashes: the prefix ends up leftmost.
   */
  lemma JoinShape(prefix: string, rule: string)
    ensures exists k, m | 0 <= k <= |prefix| && 0 <= m <= |rule| ::
      Join(prefix, rule) == prefix[..k] + "/" + rule[m..] &&
      (forall i | k <= i < |prefix| :: prefix[i] == '/') && (k > 0 ==> prefix[k - 1] != '/') &&
      (forall i | 0 <= i < m :: rule[i] == '/') && (m < |rule| ==> rule[m] != '/')
  {
    RStripShape(prefix);
    LStripShape(rule);
    var k := |RStrip(prefix)|;
    var m := |rule| - |LStrip(rule)|;
    assert Join(prefix, rule) == prefix[..k] + "/" + rule[m..];
    if m < |rule| {
      assert rule[m] == LStrip(rule)[0];
    }
  }

  /** No two slashes in a row. */
  predicate NoDoubleSlash(s: string) {
    forall i | 0 <= i < |s| - 1 :: !(s[i] == '/' && s[i + 1] == '/')
  }

  /** Joining never introduces a double slash at the seam. */
  lemma JoinNoDoubleSlash(prefix: string, rule: string)
    requires NoDoubleSlash(prefix) && NoDoubleSlash(rule)
    ensures NoDoubleSlash(Join(prefix, rule))
  {
    RStripShape(prefix);
    LStripShape(rule);
    var x := RStrip(prefix);
    var y := LStrip(rule);
    var j := Join(prefix, rule);
    var d := |rule| - |y|;
    forall i | 0 <= i < |j| - 1
      ensures !(j[i] == '/' && j[i + 1] == '/')
    {
      if i + 1 < |x| {
        assert j[i] == prefix[i] && j[i + 1] == prefix[i + 1];
      } else if i + 1 == |x| {
        assert j[i] == x[|x| - 1];
      } else if i == |x| {
        assert j[i + 1] == y[0];
      } else {
        assert j[i] == rule[d + i - |x| - 1] && j[i + 1] == rule[d + i - |x|];
      }
    }
  }

  // ---------------------------------------------------------------------
  // Prefixing rules
  // ---------------------------------------------------------------------

  /** One iteration of `_add_prefix_to_endpoint`: a falsy prefix is skipped; an unset rule cannot be stripped. */
  function ApplyPrefix(rule: Option<string>, prefix: Option<string>): Result<Option<string>> {
    if !TruthyString(prefix) then Ok(rule)
    else if rule.None? then Err(NoneAttribute)
    else Ok(Some(Join(prefix.value, rule.value)))
  }

  /** `_add_prefix_to_endpoint`: the rule after every prefix in list order. */
  function AddPrefixes(rule: Option<string>, prefixes: seq<Option<string>>): Result<Option<string>>
    decreases |prefixes|
  {
    if |prefixes| == 0 then Ok(rule)
    else
      var r :- AddPrefixes(rule, prefixes[..|prefixes| - 1]);
      ApplyPrefix(r, prefixes[|prefixes| - 1])
  }

  /** Prefixes apply inside out: the later prefix ends up to the left of the earlier one. */
  lemma AddPrefixesTwo(rule: string, inner: string, outer: string)
    requires |inner| > 0 && |outer| > 0
    ensures AddPrefixes(Some(rule), [Some(inner), Some(outer)]) == Ok(Some(Join(outer, Join(inner, rule))))
  {
    var ps := [Some(inner), Some(outer)];
    assert ps[..1][..0] == [];
    assert ps[..1] == [Some(inner)];
    assert AddPrefixes(Some(rule), ps[..1][..0]) == Ok(Some(rule));
    assert AddPrefixes(Some(rule), ps[..1]) == Ok(Some(Join(inner, rule)));
  }

  /** Joining strips the slashes at the seam only. */
  lemma JoinExamples()
    ensures Join("/v1", "/users") == "/v1/users"
    ensures Join("/api", "/v1/users") == "/api/v1/users"
  {
    assert LStrip("/users") == "users" by {
      assert "/users"[1..] == "users";
      assert LStrip("users") == "users";
    }
    assert RStrip("/v1") == "/v1";
    assert LStrip("/v1/users") == "v1/users" by {
      assert "/v1/users"[1..] == "v1/users";
      assert LStrip("v1/users") == "v1/users";
    }
    assert RStrip("/api") == "/api";
  }

  /** The prefixes `/v1` then `/api` turn `/users` into `/api/v1/users`. */
  lemma AddPrefixesExample()
    ensures AddPrefixes(Some("/users"), [Some("/v1"), Some("/api")]) == Ok(Some("/api/v1/users"))
  {
    AddPrefixesTwo("/users", "/v1", "/api");
    JoinExamples();
  }

  /** Falsy prefixes leave the rule as it is. */
  lemma {:induction false} AddPrefixesFalsy(rule: Option<string>, prefixes: seq<Option<string>>)
    requires forall i | 0 <= i < |prefixes| :: !TruthyString(prefixes[i])
    ensures AddPrefixes(rule, prefixes) == Ok(rule)
    decreases |prefixes|
  {
    if |prefixes| > 0 {
      AddPrefixesFalsy(rule, prefixes[..|prefixes| - 1]);
    }
  }

  /** One more prefix, applied to the rule so far. */
  lemma AddPrefixesStep(rule: Option<string>, prefixes: seq<Option<string>>, i: nat)
    requires i < |prefixes|
    ensures AddPrefixes(rule, prefixes[..i + 1]) ==
      match AddPrefixes(rule, prefixes[..i])
      case Err(e) => Err(e)
      case Ok(r) => ApplyPrefix(r, prefixes[i])
  {
    assert prefixes[..i + 1][..i] == prefixes[..i];
  }

  /** A failure at some prefix is the failure of the whole list. */
  lemma {:induction false} AddPrefixesStop(rule: Option<string>, prefixes: seq<Option<string>>, k: nat)
    requires k <= |prefixes| && AddPrefixes(rule, prefixes[..k]).Err?
    ensures AddPrefixes(rule, prefixes) == AddPrefixes(rule, prefixes[..k])
    decreases |prefixes| - k
  {
    if k < |prefixes| {
      AddPrefixesStep(rule, prefixes, k);
      AddPrefixesStop(rule, prefixes, k + 1);
    } else {
      assert prefixes[..k] == prefixes;
    }
  }

  /** The metas once the group's prefix is added to every rule, in order. */
  function PrefixAll(ms: seq<Meta>, prefix: Option<string>): Result<seq<Meta>>
    decreases |ms|
  {
    if |ms| == 0 then Ok([])
    else
      var init :- PrefixAll(ms[..|ms| - 1], prefix);
      var last := ms[|ms| - 1];
      var rule :- AddPrefixes(last.rule, [prefix]);
      Ok(init + [last.(rule := rule)])
  }

  /** A meta with the prefix added to its rule, when both are set. */
  function Prefixed(m: Meta, prefix: Option<string>): Meta {
    if TruthyString(prefix) && m.rule.Some? then m.(rule := Some(Join(prefix.value, m.rule.value))) else m
  }

  /**
   * Prefixing changes only rules, each once; it fails exactly when a
   * truthy prefix meets an endpoint that was never bound to a rule.
   */
  lemma {:induction false} PrefixAllAt(ms: seq<Meta>, prefix: Option<string>)
    ensures PrefixAll(ms, prefix).Ok? <==> !TruthyString(prefix) || forall i | 0 <= i < |ms| :: ms[i].rule.Some?
    ensures PrefixAll(ms, prefix).Err? ==> PrefixAll(ms, prefix).error == NoneAttribute
    ensures PrefixAll(ms, prefix).Ok? ==> (|PrefixAll(ms, prefix).value| == |ms| &&
      forall i | 0 <= i < |ms| :: PrefixAll(ms, prefix).value[i] == Prefixed(ms[i], prefix))
    decreases |ms|
  {
    if |ms| > 0 {
      var init := ms[..|ms| - 1];
      var last := ms[|ms| - 1];
      PrefixAllAt(init, prefix);
      assert [prefix][..0] == [];
      assert AddPrefixes(last.rule, [prefix]) == ApplyPrefix(last.rule, prefix);
      if PrefixAll(ms, prefix).Ok? {
        var r := PrefixAll(ms, prefix).value;
        assert r == PrefixAll(init, prefix).value + [Prefixed(last, prefix)];
        forall i | 0 <= i < |ms|
          ensures r[i] == Prefixed(ms[i], prefix)
        {
          if i < |init| {
            assert ms[i] == init[i];
          }
        }
      } else if TruthyString(prefix) {
        if PrefixAll(init, prefix).Err? {
          var i :| 0 <= i < |init| && init[i].rule.None?;
          assert ms[i] == init[i];
        }
      }
      if TruthyString(prefix) && PrefixAll(ms, prefix).Ok? {
        forall i | 0 <= i < |ms|
          ensures ms[i].rule.Some?
        {
          if i < |init| {
            assert ms[i] == init[i];
          }
        }
      }
    }
  }

  /** The metas once rules with a falsy prefix are processed: unchanged. */
  lemma PrefixAllFalsy(ms: seq<Meta>, prefix: Option<string>)
    requires !TruthyString(prefix)
    ensures PrefixAll(ms, prefix) == Ok(ms)
  {
    PrefixAllAt(ms, prefix);
    var r := PrefixAll(ms, prefix).value;
    assert forall i | 0 <= i < |ms| :: r[i] == Prefixed(ms[i], prefix) == ms[i];
    assert r == ms;
  }

  /** Prefixing with a prefix and a rule free of double slashes keeps every rule free of them. */
  lemma PrefixAllNoDoubleSlash(ms: seq<Meta>, prefix: Option<string>)
    requires PrefixAll(ms, prefix).Ok?
    requires prefix.Some? ==> NoDoubleSlash(prefix.value)
    requires forall i | 0 <= i < |ms| && ms[i].rule.Some? :: NoDoubleSlash(ms[i].rule.value)
    ensures var r := PrefixAll(ms, prefix).value;
      forall i | 0 <= i < |r| && r[i].rule.Some? :: NoDoubleSlash(r[i].rule.value)
  {
    PrefixAllAt(ms, prefix);
    var r := PrefixAll(ms, prefix).value;
    forall i | 0 <= i < |r| && r[i].rule.Some?
      ensures NoDoubleSlash(r[i].rule.value)
    {
      assert r[i] == Prefixed(ms[i], prefix);
      if ms[i].rule.Some? && TruthyString(prefix) {
        JoinNoDoubleSlash(prefix.value, ms[i].rule.value);
      }
    }
  }

  // ---------------------------------------------------------------------
  // Walking the group tree
  // ---------------------------------------------------------------------

  /**
   * `_process_schema` on values: the group's reconciled metas followed by
   * every child's result in registration order, all prefixed with the
   * group's prefix.
   */
  function Flatten(g: GroupValue): Result<seq<Meta>>
    decreases g
  {
    var own :- Reconcile(g.metas, g.bindings);
    var kids :- FlattenAll(g.children);
    PrefixAll(own + kids, g.prefix)
  }

  /** The results of a list of groups concatenated in order: `_process_schemas`, and the loop over a group's children. */
  function FlattenAll(gs: seq<GroupValue>): Result<seq<Meta>>
    decreases gs
  {
    if |gs| == 0 then Ok([])
    else
      var before :- FlattenAll(gs[..|gs| - 1]);
      var last :- Flatten(gs[|gs| - 1]);
      Ok(before + last)
  }

  /** A group's own endpoints come first, each with the group's prefix applied once. */
  lemma FlattenOwnFirst(g: GroupValue)
    requires Flatten(g).Ok?
    ensures Reconcile(g.metas, g.bindings).Ok? && FlattenAll(g.children).Ok?
    ensures var own := Reconcile(g.metas, g.bindings).value;
      var kids := FlattenAll(g.children).value;
      |Flatten(g).value| == |own| + |kids| &&
      (forall i | 0 <= i < |own| :: Flatten(g).value[i] == Prefixed(own[i], g.prefix)) &&
      (forall i | 0 <= i < |kids| :: Flatten(g).value[|own| + i] == Prefixed(kids[i], g.prefix))
  {
    var own := Reconcile(g.metas, g.bindings).value;
    var kids := FlattenAll(g.children).value;
    PrefixAllAt(own + kids, g.prefix);
  }

  /** A group whose blueprint recorded no bindings and has no children yields its metas, prefixed. */
  lemma FlattenLeaf(g: GroupValue)
    requires g.bindings == [] && g.children == []
    ensures Flatten(g) == PrefixAll(g.metas, g.prefix)
  {
    assert Captures(g.bindings) == Ok([]);
    assert ApplyAll(g.metas, []) == g.metas;
    assert Reconcile(g.metas, g.bindings) == Ok(g.metas);
    assert FlattenAll(g.children) == Ok([]);
    assert g.metas + [] == g.metas;
  }

  /** The outermost group's prefix reads first: `/api` holding `/v1` holding `/users` gives `/api/v1/users`. */
  lemma FlattenNestedExample(m: Meta)
    requires m.rule == Some("/users")
    ensures var inner := GroupValue(Some("/v1"), [], [m], []);
      var outer := GroupValue(Some("/api"), [], [], [inner]);
      Flatten(outer) == Ok([m.(rule := Some("/api/v1/users"))])
  {
    var inner := GroupValue(Some("/v1"), [], [m], []);
    var once := m.(rule := Some("/v1/users"));
    FlattenNestedInner(m);
    FlattenNestedOuter(inner, once);
    assert once.(rule := Some("/api/v1/users")) == m.(rule := Some("/api/v1/users"));
  }

  /** The inner group of the example: `/v1` in front of `/users`. */
  lemma {:induction false} FlattenNestedInner(m: Meta)
    requires m.rule == Some("/users")
    ensures Flatten(GroupValue(Some("/v1"), [], [m], [])) == Ok([m.(rule := Some("/v1/users"))])
  {
    var inner := GroupValue(Some("/v1"), [], [m], []);
    JoinExamples();
    var once := m.(rule := Some("/v1/users"));
    FlattenLeaf(inner);
    PrefixAllAt([m], Some("/v1"));
    assert TruthyString(Some("/v1"));
    assert Prefixed(m, Some("/v1")) == once;
    var r1 := PrefixAll([m], Some("/v1")).value;
    assert r1 == [once];
  }

  /** The outer group of the example: `/api` in front of what its only child gives. */
  lemma {:induction false} FlattenNestedOuter(inner: GroupValue, once: Meta)
    requires Flatten(inner) == Ok([once]) && once.rule == Some("/v1/users")
    ensures Flatten(GroupValue(Some("/api"), [], [], [inner])) == Ok([once.(rule := Some("/api/v1/users"))])
  {
    var outer := GroupValue(Some("/api"), [], [], [inner]);
    JoinExamples();
    var twice := once.(rule := Some("/api/v1/users"));
    assert TruthyString(Some("/api"));
    assert Reconcile(outer.metas, outer.bindings) == Ok([]) by {
      assert Captures([]) == Ok([]);
    }
    assert FlattenAll(outer.children) == Ok([once]) by {
      assert outer.children[..0] == [];
      assert FlattenAll(outer.children[..0]) == Ok([]);
      assert [] + [once] == [once];
    }
    PrefixAllAt([once], Some("/api"));
    assert Prefixed(once, Some("/api")) == twice;
    var r2 := PrefixAll([once], Some("/api")).value;
    assert r2 == [twice];
  }

  /** A group whose own bindings fail fails as a whole. */
  lemma FlattenOwnFails(g: GroupValue)
    requires Reconcile(g.metas, g.bindings).Err?
    ensures Flatten(g) == Err(Reconcile(g.metas, g.bindings).error)
  {
  }

  /** A group whose children fail fails as a whole. */
  lemma FlattenChildFails(g: GroupValue)
    requires Reconcile(g.metas, g.bindings).Ok? && FlattenAll(g.children).Err?
    ensures Flatten(g) == Err(FlattenAll(g.children).error)
  {
  }

  /** Otherwise the group's result is its own metas and its children's, prefixed. */
  lemma FlattenIs(g: GroupValue)
    requires Reconcile(g.metas, g.bindings).Ok? && FlattenAll(g.children).Ok?
    ensures Flatten(g) == PrefixAll(Reconcile(g.metas, g.bindings).value + FlattenAll(g.children).value, g.prefix)
  {
  }

  /** One more group's result, appended. */
  lemma FlattenAllStep(gs: seq<GroupValue>, i: nat, before: seq<Meta>, last: seq<Meta>)
    requires i < |gs| && FlattenAll(gs[..i]) == Ok(before) && Flatten(gs[i]) == Ok(last)
    ensures FlattenAll(gs[..i + 1]) == Ok(before + last)
  {
    assert gs[..i + 1][..i] == gs[..i];
  }

  /** A failing group fails the whole list. */
  lemma FlattenAllFails(gs: seq<GroupValue>, i: nat, before: seq<Meta>)
    requires i < |gs| && FlattenAll(gs[..i]) == Ok(before) && Flatten(gs[i]).Err?
    ensures FlattenAll(gs) == Err(Flatten(gs[i]).error)
  {
    assert gs[..i + 1][..i] == gs[..i];
    FlattenAllStop(gs, i + 1);
  }

  /** A failure at some group is the failure of the whole list. */
  lemma {:induction false} FlattenAllStop(gs: seq<GroupValue>, k: nat)
    requires k <= |gs| && FlattenAll(gs[..k]).Err?
    ensures FlattenAll(gs) == FlattenAll(gs[..k])
    decreases |gs| - k
  {
    if k < |gs| {
      assert gs[..k + 1][..k] == gs[..k];
      FlattenAllStop(gs, k + 1);
    } else {
      assert gs[..k] == gs;
    }
  }

  /** One more meta of `PrefixAll`: the rule so far with the next meta prefixed once. */
  lemma PrefixAllStep(ms: seq<Meta>, prefix: Option<string>, i: nat)
    requires i < |ms|
    ensures PrefixAll(ms[..i + 1], prefix) ==
      match PrefixAll(ms[..i], prefix)
      case Err(e) => Err(e)
      case Ok(done) =>
        match AddPrefixes(ms[i].rule, [prefix])
        case Err(e) => Err(e)
        case Ok(rule) => Ok(done + [ms[i].(rule := rule)])
  {
    assert ms[..i + 1][..i] == ms[..i];
  }

  /** A failure at some meta is the failure of the whole list. */
  lemma {:induction false} PrefixAllStop(ms: seq<Meta>, prefix: Option<string>, k: nat)
    requires k <= |ms| && PrefixAll(ms[..k], prefix).Err?
    ensures PrefixAll(ms, prefix) == PrefixAll(ms[..k], prefix)
    decreases |ms| - k
  {
    if k < |ms| {
      PrefixAllStep(ms, prefix, k);
      PrefixAllStop(ms, prefix, k + 1);
    } else {
      assert ms[..k] == ms;
    }
  }

  /** What the prefix loop leaves when a meta fails: every meta before it prefixed, the rest as they were. */
  predicate StoppedPrefixAll(start: seq<Meta>, prefix: Option<string>, now: seq<Meta>) {
    exists i | 0 <= i < |start| ::
      PrefixAll(start[..i], prefix).Ok? && AddPrefixes(start[i].rule, [prefix]).Err? &&
      now == PrefixAll(start[..i], prefix).value + start[i..]
  }

  lemma StoppedPrefixAllAt(start: seq<Meta>, prefix: Option<string>, i: nat, done: seq<Meta>, now: seq<Meta>)
    requires i < |start| && |now| == |start| && PrefixAll(start[..i], prefix) == Ok(done) && |done| == i
    requires AddPrefixes(start[i].rule, [prefix]).Err?
    requires forall k | 0 <= k < i :: now[k] == done[k]
    requires forall k | i <= k < |start| :: now[k] == start[k]
    ensures StoppedPrefixAll(start, prefix, now)
  {
    assert now == done + start[i..];
  }

  /**
   * What the loop over groups leaves in the list it extends when a group
   * fails: `base` followed by the results of the groups before it.
   */
  predicate StoppedFlattenAll(gs: seq<GroupValue>, base: seq<Meta>, now: seq<Meta>) {
    exists i | 0 <= i < |gs| ::
      FlattenAll(gs[..i]).Ok? && Flatten(gs[i]).Err? && now == base + FlattenAll(gs[..i]).value
  }

  lemma StoppedFlattenAllAt(gs: seq<GroupValue>, i: nat, base: seq<Meta>, done: seq<Meta>, now: seq<Meta>)
    requires i < |gs| && FlattenAll(gs[..i]) == Ok(done) && Flatten(gs[i]).Err? && now == base + done
    ensures StoppedFlattenAll(gs, base, now)
  {
  }

  /**
   * What `_process_schema` leaves in the group's own list when it fails, by
   * the step that failed: the bindings before the failing one copied in; or
   * the group's metas followed by the results of the children before the
   * failing one; or every meta before the unbound one prefixed.
   */
  predicate StoppedFlatten(g: GroupValue, now: seq<Meta>) {
    match Reconcile(g.metas, g.bindings)
    case Err(_) => StoppedReconcile(g.metas, g.bindings, now)
    case Ok(own) =>
      match FlattenAll(g.children)
      case Err(_) => StoppedFlattenAll(g.children, own, now)
      case Ok(kids) => StoppedPrefixAll(own + kids, g.prefix, now)
  }

  /** A group whose own and children's metas were collected stops where prefixing them stops. */
  lemma StoppedPrefixing(g: GroupValue, now: seq<Meta>)
    requires Reconcile(g.metas, g.bindings).Ok? && FlattenAll(g.children).Ok?
    requires StoppedPrefixAll(Reconcile(g.metas, g.bindings).value + FlattenAll(g.children).value, g.prefix, now)
    ensures StoppedFlatten(g, now)
  {
  }

  /** A meta prefixed once per enclosing group, innermost group first. */
  function PrefixedChain(m: Meta, prefixes: seq<Option<string>>): Meta
    decreases |prefixes|
  {
    if |prefixes| == 0 then m else Prefixed(PrefixedChain(m, prefixes[..|prefixes| - 1]), prefixes[|prefixes| - 1])
  }

  /**
   * Prefixing level by level, as the group walk does, gives the rule that
   * `_add_prefix_to_endpoint` computes for the whole list of prefixes at once.
   */
  lemma {:induction false} PrefixedChainIsAddPrefixes(m: Meta, prefixes: seq<Option<string>>)
    requires AddPrefixes(m.rule, prefixes).Ok?
    ensures PrefixedChain(m, prefixes) == m.(rule := AddPrefixes(m.rule, prefixes).value)
    decreases |prefixes|
  {
    if |prefixes| > 0 {
      PrefixedChainIsAddPrefixes(m, prefixes[..|prefixes| - 1]);
    }
  }

  // ---------------------------------------------------------------------
  // The generator object
  // ---------------------------------------------------------------------

  /** What `generate` returns: the paths and the model registry that becomes `components.schemas`. */
  datatype Spec = Spec(paths: Paths, components: Registry)

  /** An item handed to `generate`, which must be a `Schema`. */
  datatype Candidate = IsSchema(schema: Schema) | NotSchema

  predicate AllSchemas(cs: seq<Candidate>) {
    forall i | 0 <= i < |cs| :: cs[i].IsSchema?
  }

  function Roots(cs: seq<Candidate>): (r: seq<Schema>)
    requires AllSchemas(cs)
    ensures |r| == |cs| && forall i | 0 <= i < |cs| :: r[i] == cs[i].schema
  {
    seq(|cs|, i requires 0 <= i < |cs| && AllSchemas(cs) => cs[i].schema)
  }

  /** `generate` on values: the flattened metas of every root, mapped to paths, and the registry after mapping. */
  function GenerateOf(roots: seq<GroupValue>, models: Registry): Result<Spec> {
    var ms :- FlattenAll(roots);
    var paths :- PathsOf(ms);
    Ok(Spec(paths, BodiesRegistered(models, ms)))
  }

  /** The paths hold exactly the rules of the flattened metas, and the registry is the one mapping them filled. */
  lemma GenerateSpec(roots: seq<GroupValue>, models: Registry, rule: Option<string>)
    requires GenerateOf(roots, models).Ok?
    ensures FlattenAll(roots).Ok?
    ensures var ms := FlattenAll(roots).value;
      var spec := GenerateOf(roots, models).value;
      (HasKey(spec.paths, rule) <==> exists i | 0 <= i < |ms| :: ms[i].rule == rule) &&
      spec.components == BodiesRegistered(models, ms)
  {
    PathsOfRules(FlattenAll(roots).value, rule);
  }

  /** Generation fails exactly when flattening fails or one flattened endpoint cannot be mapped. */
  lemma GenerateFails(roots: seq<GroupValue>, models: Registry)
    ensures GenerateOf(roots, models).Err? <==>
      FlattenAll(roots).Err? || exists i | 0 <= i < |FlattenAll(roots).value| :: OperationOf(FlattenAll(roots).value[i]).Err?
  {
    if FlattenAll(roots).Ok? {
      PathsOfOk(FlattenAll(roots).value);
    }
  }

  class OpenAPIGenerator {
    /** The schema processor the generator extends: its registry and its mapping of endpoints. */
    const processor: SchemaProcessor

    constructor()
      ensures fresh(processor) && processor.models == []
    {
      processor := new SchemaProcessor();
    }

    /**
     * `_add_prefix_to_endpoint`: every truthy prefix in turn is joined in
     * front of the rule, which is written back once at the end. A rule that
     * was never set cannot be stripped: that fails and writes nothing.
     */
    method AddPrefixToEndpoint(prefixes: seq<Option<string>>, e: EndpointMeta) returns (r: Result<()>)
      modifies e
      ensures r.Ok? <==> AddPrefixes(old(e.rule), prefixes).Ok?
      ensures r.Err? ==> AddPrefixes(old(e.rule), prefixes) == Err(r.error) && e.Value() == old(e.Value())
      ensures r.Ok? ==> e.Value() == old(e.Value()).(rule := AddPrefixes(old(e.rule), prefixes).value)
    {
      var rule := e.rule;
      var i := 0;
      while i < |prefixes|
        invariant 0 <= i <= |prefixes|
        invariant e.Value() == old(e.Value())
        invariant AddPrefixes(e.rule, prefixes[..i]) == Ok(rule)
      {
        AddPrefixesStep(e.rule, prefixes, i);
        var prefix := prefixes[i];
        if prefix.Some? && prefix.value != "" {
          if rule.None? {
            AddPrefixesStop(e.rule, prefixes, i + 1);
            return Err(NoneAttribute);
          }
          rule := Some(RStrip(prefix.value) + "/" + LStrip(rule.value));
        }
        i := i + 1;
      }
      assert prefixes[..i] == prefixes;
      e.rule := rule;
      return Ok(());
    }

    /** The loop of `_process_schema` that adds the group's prefix to every collected meta, in order. */
    method PrefixEndpoints(ms: seq<EndpointMeta>, prefix: Option<string>) returns (r: Result<()>)
      requires Distinct(ms)
      modifies set i | 0 <= i < |ms| :: ms[i]
      ensures r.Ok? <==> PrefixAll(old(Values(ms)), prefix).Ok?
      ensures r.Err? ==> PrefixAll(old(Values(ms)), prefix) == Err(r.error)
      ensures r.Ok? ==> Values(ms) == PrefixAll(old(Values(ms)), prefix).value
      ensures r.Err? ==> StoppedPrefixAll(old(Values(ms)), prefix, Values(ms))
    {
      ghost var start := Values(ms);
      ghost var done: seq<Meta> := [];
      var i := 0;
      while i < |ms|
        invariant 0 <= i <= |ms|
        invariant PrefixAll(start[..i], prefix) == Ok(done) && |done| == i
        invariant forall k | 0 <= k < i :: ms[k].Value() == done[k]
        invariant forall k | i <= k < |ms| :: ms[k].Value() == start[k]
      {
        r := PrefixOne(ms, i, prefix, start, done);
        if r.Err? {
          return;
        }
        done := done + [start[i].(rule := AddPrefixes(start[i].rule, [prefix]).value)];
        i := i + 1;
      }
      assert start[..i] == start;
      return Ok(());
    }

    /** One iteration of that loop: the prefix is added to the `i`-th meta, the others are left as they are. */
    method PrefixOne(ms: seq<EndpointMeta>, i: nat, prefix: Option<string>, ghost start: seq<Meta>, ghost done: seq<Meta>)
      returns (r: Result<()>)
      requires Distinct(ms) && i < |ms| == |start|
      requires PrefixAll(start[..i], prefix) == Ok(done) && |done| == i
      requires forall k | 0 <= k < i :: ms[k].Value() == done[k]
      requires forall k | i <= k < |ms| :: ms[k].Value() == start[k]
      modifies ms[i]
      ensures r.Err? ==> PrefixAll(start, prefix) == Err(r.error) && StoppedPrefixAll(start, prefix, Values(ms))
      ensures r.Ok? ==> AddPrefixes(start[i].rule, [prefix]).Ok?
      ensures r.Ok? ==> PrefixAll(start[..i + 1], prefix) == Ok(done + [start[i].(rule := AddPrefixes(start[i].rule, [prefix]).value)])
      ensures r.Ok? ==> forall k | 0 <= k < i :: ms[k].Value() == done[k]
      ensures r.Ok? ==> ms[i].Value() == start[i].(rule := AddPrefixes(start[i].rule, [prefix]).value)
      ensures forall k | i < k < |ms| :: ms[k].Value() == start[k]
    {
      PrefixAllStep(start, prefix, i);
      r := AddPrefixToEndpoint([prefix], ms[i]);
      if r.Err? {
        PrefixAllStop(start, prefix, i + 1);
        StoppedPrefixAllAt(start, prefix, i, done, Values(ms));
      }
    }
  
    /**
     * `_process_schema`: prepares the group's own metas, extends the group's
     * own list with every child's result in registration order, then adds the
     * group's prefix to every meta of the list, and returns the list. The
     * children are left with their own lists extended in the same way.
     */
    method ProcessSchema(s: Schema) returns (r: Result<seq<EndpointMeta>>)
      requires s.Valid()
      modifies s.Repr
      decreases s.Groups, 2
      ensures r.Ok? <==> Flatten(old(s.Tree())).Ok?
      ensures r.Err? ==> Flatten(old(s.Tree())) == Err(r.error)
      ensures r.Ok? ==> r.value == s.endpoints && Values(r.value) == Flatten(old(s.Tree())).value
      ensures r.Ok? ==> Distinct(r.value) && forall i | 0 <= i < |r.value| :: r.value[i] in old(s.Repr)
      ensures r.Err? ==> StoppedFlatten(old(s.Tree()), Values(s.endpoints))
    {
      ghost var tree := s.Tree();
      var prefix := s.blueprint.urlPrefix;
      var collected := CollectEndpoints(s, tree);
      if collected.Err? {
        return Err(collected.error);
      }
      FlattenIs(tree);
      var list := s.endpoints;
      ghost var targets := set i | 0 <= i < |list| :: list[i];
      assert targets <= old(s.Repr);
      var prefixed := PrefixEndpoints(list, prefix);
      assert s.endpoints == list;
      if prefixed.Err? {
        StoppedPrefixing(tree, Values(list));
        return Err(prefixed.error);
      }
      return Ok(list);
    }

    /**
     * The first part of `_process_schema`: the group's own metas are prepared,
     * then its children are processed and the group's list extended with
     * their metas in order.
     */
    method CollectEndpoints(s: Schema, ghost tree: GroupValue) returns (r: Result<()>)
      requires s.Valid() && s.Tree() == tree
      modifies s.Repr
      decreases s.Groups, 1
      ensures tree.prefix == s.blueprint.urlPrefix
      ensures r.Ok? <==> Reconcile(tree.metas, tree.bindings).Ok? && FlattenAll(tree.children).Ok?
      ensures r.Err? ==> Flatten(tree) == Err(r.error) && StoppedFlatten(tree, Values(s.endpoints))
      ensures r.Ok? ==> Values(s.endpoints) == Reconcile(tree.metas, tree.bindings).value + FlattenAll(tree.children).value
      ensures r.Ok? ==> Distinct(s.endpoints) && forall i | 0 <= i < |s.endpoints| :: s.endpoints[i] in old(s.Repr)
    {
      s.ChildTreesAt(|s.schemas|);
      var own := s.PrepareEndpoints();
      if own.Err? {
        FlattenOwnFails(tree);
        return Err(own.error);
      }
      ChildrenKept(s);
      r := ProcessChildren(s, s.schemas, tree.children, s.Repr, s.Groups - {s});
      if r.Err? {
        FlattenChildFails(tree);
      }
    }

    /** Preparing a group's own metas leaves its children as they were. */
    twostate lemma ChildrenKept(s: Schema)
      requires old(s.Valid()) && s.schemas == old(s.schemas)
      requires forall o | o in old(s.Repr) && o !in old(set i | 0 <= i < |s.endpoints| :: s.endpoints[i]) :: unchanged(o)
      ensures forall j | 0 <= j < |s.schemas| :: s.schemas[j].Valid() && s.schemas[j].Tree() == old(s.schemas[j].Tree())
    {
      forall j | 0 <= j < |s.schemas|
        ensures s.schemas[j].Valid() && s.schemas[j].Tree() == old(s.schemas[j].Tree())
      {
        TreeKept(s.schemas[j]);
      }
    }

    /**
     * The metas a child adds come from that child's objects, so they stay
     * outside the objects of every later child.
     */
    lemma AppendOutside(list: seq<EndpointMeta>, next: seq<EndpointMeta>, reprs: seq<set<object>>, i: nat,
                        pool: set<object>, mine: seq<EndpointMeta>)
      requires i < |reprs| && |list| <= |next| && next[..|list|] == list
      requires forall k | |list| <= k < |next| :: next[k] in reprs[i]
      requires reprs[i] <= pool
      requires forall j | i < j < |reprs| :: reprs[i] !! reprs[j]
      requires forall j, k | i <= j < |reprs| && 0 <= k < |list| :: list[k] !in reprs[j]
      requires forall k | 0 <= k < |list| :: list[k] in mine || list[k] in pool
      ensures forall j, k | i < j < |reprs| && 0 <= k < |next| :: next[k] !in reprs[j]
      ensures forall k | 0 <= k < |next| :: next[k] in mine || next[k] in pool
    {
      forall j, k | i < j < |reprs| && 0 <= k < |next|
        ensures next[k] !in reprs[j]
      {
        if k < |list| {
          assert next[k] == list[k];
        }
      }
      forall k | 0 <= k < |next|
        ensures next[k] in mine || next[k] in pool
      {
        if k < |list| {
          assert next[k] == list[k];
        }
      }
    }

    /** A group none of whose objects changed is still the same valid tree. */
    twostate lemma TreeKept(g: Schema)
      requires old(g.Valid()) && unchanged(old(g.Repr))
      ensures g.Valid() && g.Tree() == old(g.Tree()) && g.Repr == old(g.Repr) && g.Groups == old(g.Groups)
    {
    }

    /**
     * The loop of `_process_schema` over the children: the group's own list
     * `s.endpoints` is extended with each child's result in turn, so a child
     * that fails leaves it holding the results of the children before it.
     * `trees` are the children as values; `pool` holds every object the
     * children own.
     */
    method ProcessChildren(s: Schema, children: seq<Schema>,
                           ghost trees: seq<GroupValue>, ghost pool: set<object>, ghost bound: set<Schema>)
      returns (r: Result<()>)
      requires |trees| == |children|
      requires forall j | 0 <= j < |children| :: children[j].Valid() && children[j].Tree() == trees[j]
      requires forall j | 0 <= j < |children| :: children[j].Repr <= pool && children[j].Groups <= bound
      requires forall j, k | 0 <= j < k < |children| :: children[j].Repr !! children[k].Repr
      requires forall j | 0 <= j < |children| :: s !in children[j].Repr
      requires Distinct(s.endpoints)
      requires forall j, k | 0 <= j < |children| && 0 <= k < |s.endpoints| :: s.endpoints[k] !in children[j].Repr
      modifies s, pool
      decreases bound, 4
      ensures r.Ok? <==> FlattenAll(trees).Ok?
      ensures r.Err? ==> FlattenAll(trees) == Err(r.error)
      ensures r.Ok? ==> Values(s.endpoints) == old(Values(s.endpoints)) + FlattenAll(trees).value
      ensures r.Err? ==> StoppedFlattenAll(trees, old(Values(s.endpoints)), Values(s.endpoints))
      ensures Distinct(s.endpoints) && forall i | 0 <= i < |s.endpoints| :: s.endpoints[i] in old(s.endpoints) || s.endpoints[i] in pool
    {
      ghost var reprs: seq<set<object>> := seq(|children|, j requires 0 <= j < |children| reads children => children[j].Repr);
      assert forall j, k | 0 <= j < k < |reprs| :: reprs[j] !! reprs[k];
      assert forall j | 0 <= j < |reprs| :: reprs[j] <= pool;
      ghost var acc: seq<Meta> := [];
      ghost var mine := Values(s.endpoints);
      var list := s.endpoints;
      var i := 0;
      while i < |children|
        invariant 0 <= i <= |children|
        invariant s.endpoints == list
        invariant forall j | i <= j < |children| :: unchanged(reprs[j]) && s !in reprs[j]
        invariant Distinct(list)
        invariant forall k | 0 <= k < |list| :: list[k] in old(s.endpoints) || list[k] in pool
        invariant forall j, k | i <= j < |children| && 0 <= k < |list| :: list[k] !in reprs[j]
        invariant FlattenAll(trees[..i]) == Ok(acc) && Values(list) == mine + acc
      {
        assert old(children[i].Valid()) && reprs[i] == old(children[i].Repr) && unchanged(reprs[i]);
        TreeKept(children[i]);
        var next := ProcessAppend(list, children[i], trees[i], mine + acc, bound);
        if next.Err? {
          FlattenAllFails(trees, i, acc);
          StoppedFlattenAllAt(trees, i, mine, acc, Values(list));
          return Err(next.error);
        }
        ghost var got := Flatten(trees[i]).value;
        FlattenAllStep(trees, i, acc, got);
        AppendAssoc(mine, acc, got);
        AppendOutside(list, next.value, reprs, i, pool, old(s.endpoints));
        list := next.value;
        label Extend:
        s.endpoints := list;
        ValuesKept@Extend(list);
        acc := acc + got;
        i := i + 1;
      }
      assert trees[..i] == trees;
      return Ok(());
    }

    /**
     * One iteration of either loop: `endpoints.extend(self._process_schema(g))`.
     * The metas already in `list` are left as they are.
     */
    method ProcessAppend(list: seq<EndpointMeta>, g: Schema, ghost tree: GroupValue, ghost done: seq<Meta>,
                         ghost bound: set<Schema>)
      returns (r: Result<seq<EndpointMeta>>)
      requires g.Valid() && g.Tree() == tree && g.Groups <= bound
      requires Distinct(list) && Values(list) == done
      requires forall k | 0 <= k < |list| :: list[k] !in g.Repr
      modifies g.Repr
      decreases bound, 3
      ensures Values(list) == done
      ensures r.Ok? <==> Flatten(tree).Ok?
      ensures r.Err? ==> Flatten(tree) == Err(r.error)
      ensures r.Ok? ==> Values(r.value) == done + Flatten(tree).value && Distinct(r.value)
      ensures r.Ok? ==> |list| <= |r.value| && r.value[..|list|] == list
      ensures r.Ok? ==> forall k | |list| <= k < |r.value| :: r.value[k] in old(g.Repr)
    {
      label Before:
      var got := ProcessSchema(g);
      ValuesKept@Before(list);
      if got.Err? {
        return Err(got.error);
      }
      DistinctAppend(list, got.value, old(g.Repr));
      ValuesAppend(list, got.value);
      assert (list + got.value)[..|list|] == list;
      return Ok(list + got.value);
    }

    /**
     * `_process_schemas`: every root group in turn, its processed metas
     * appended to one list that starts empty.
     */
    method ProcessSchemas(schemas: seq<Schema>) returns (r: Result<seq<EndpointMeta>>)
      requires Forestable(schemas)
      modifies Footprint(schemas)
      ensures r.Ok? <==> FlattenAll(old(Forest(schemas))).Ok?
      ensures r.Err? ==> FlattenAll(old(Forest(schemas))) == Err(r.error)
      ensures r.Ok? ==> Values(r.value) == FlattenAll(old(Forest(schemas))).value && Distinct(r.value)
    {
      ghost var trees := Forest(schemas);
      ForestAt(schemas);
      FootprintHas(schemas);
      r := ProcessRoots(schemas, trees, Footprint(schemas));
    }

    /** The loop of `_process_schemas`: each root's result appended to a list of its own. */
    method ProcessRoots(roots: seq<Schema>, ghost trees: seq<GroupValue>, ghost pool: set<object>)
      returns (r: Result<seq<EndpointMeta>>)
      requires |trees| == |roots|
      requires forall j | 0 <= j < |roots| :: roots[j].Valid() && roots[j].Tree() == trees[j] && roots[j].Repr <= pool
      requires forall j, k | 0 <= j < k < |roots| :: roots[j].Repr !! roots[k].Repr
      modifies pool
      ensures r.Ok? <==> FlattenAll(trees).Ok?
      ensures r.Err? ==> FlattenAll(trees) == Err(r.error)
      ensures r.Ok? ==> Values(r.value) == FlattenAll(trees).value && Distinct(r.value)
    {
      ghost var reprs: seq<set<object>> := seq(|roots|, j requires 0 <= j < |roots| reads roots => roots[j].Repr);
      ghost var acc: seq<Meta> := [];
      var list: seq<EndpointMeta> := [];
      var i := 0;
      while i < |roots|
        invariant 0 <= i <= |roots|
        invariant forall j | i <= j < |roots| :: unchanged(reprs[j])
        invariant Distinct(list)
        invariant forall j, k | i <= j < |roots| && 0 <= k < |list| :: list[k] !in reprs[j]
        invariant FlattenAll(trees[..i]) == Ok(acc) && Values(list) == acc
      {
        assert old(roots[i].Valid()) && reprs[i] == old(roots[i].Repr) && unchanged(reprs[i]);
        TreeKept(roots[i]);
        var next := ProcessAppend(list, roots[i], trees[i], acc, roots[i].Groups);
        if next.Err? {
          FlattenAllFails(trees, i, acc);
          return Err(next.error);
        }
        ghost var got := Flatten(trees[i]).value;
        FlattenAllStep(trees, i, acc, got);
        list := next.value;
        acc := acc + got;
        i := i + 1;
      }
      assert trees[..i] == trees;
      return Ok(list);
    }

    /**
     * `generate`: fails with `ValueError` unless every item is a group;
     * otherwise flattens the groups, maps the metas to paths and returns
     * them with the registry the mapping filled.
     */
    method Generate(candidates: seq<Candidate>) returns (r: Result<Spec>)
      requires AllSchemas(candidates) ==> Forestable(Roots(candidates)) && processor !in Footprint(Roots(candidates))
      modifies processor, if AllSchemas(candidates) then Footprint(Roots(candidates)) else {}
      ensures !AllSchemas(candidates) ==> r == Err(NotASchema)
      ensures AllSchemas(candidates) ==> r == GenerateOf(old(Forest(Roots(candidates))), old(processor.models))
    {
      if !AllSchemas(candidates) {
        return Err(NotASchema);
      }
      var roots := Roots(candidates);
      ghost var models := processor.models;
      ghost var trees := Forest(roots);
      var endpoints := ProcessSchemas(roots);
      if endpoints.Err? {
        return Err(endpoints.error);
      }
      assert processor.models == models;
      var paths := processor.MapEndpoints(endpoints.value);
      if paths.Err? {
        return Err(paths.error);
      }
      return Ok(Spec(paths.value, processor.models));
    }
  }

  /** Every object of every group in the list. */
  ghost function Footprint(gs: seq<Schema>): set<object>
    reads gs
    decreases |gs|
  {
    if |gs| == 0 then {} else Footprint(gs[..|gs| - 1]) + gs[|gs| - 1].Repr
  }

  /** The group objects of every group in the list. */
  ghost function GroupsOf(gs: seq<Schema>): set<Schema>
    reads gs
    decreases |gs|
  {
    if |gs| == 0 then {} else GroupsOf(gs[..|gs| - 1]) + gs[|gs| - 1].Groups
  }

  /** Each group's objects are part of the list's. */
  lemma {:induction false} FootprintHas(gs: seq<Schema>)
    ensures forall j | 0 <= j < |gs| :: gs[j].Repr <= Footprint(gs) && gs[j].Groups <= GroupsOf(gs)
    decreases |gs|
  {
    if |gs| > 0 {
      var init := gs[..|gs| - 1];
      FootprintHas(init);
      assert forall j | 0 <= j < |init| :: gs[j] == init[j];
    }
  }

  /** An object of the list's footprint belongs to one of its groups. */
  lemma {:induction false} FootprintMember(gs: seq<Schema>, o: object)
    requires o in Footprint(gs)
    ensures exists j | 0 <= j < |gs| :: o in gs[j].Repr
    decreases |gs|
  {
    if o !in gs[|gs| - 1].Repr {
      FootprintMember(gs[..|gs| - 1], o);
      var j :| 0 <= j < |gs| - 1 && o in gs[..|gs| - 1][j].Repr;
      assert o in gs[j].Repr;
    }
  }

  /** The groups are valid trees that share no object. */
  ghost predicate Forestable(gs: seq<Schema>)
    reads gs, GroupsOf(gs), Footprint(gs)
  {
    FootprintHas(gs);
    (forall j | 0 <= j < |gs| :: gs[j].Valid()) &&
    (forall j, k | 0 <= j < k < |gs| :: gs[j].Repr !! gs[k].Repr)
  }

  /** The groups as values. */
  ghost function Forest(gs: seq<Schema>): (r: seq<GroupValue>)
    requires Forestable(gs)
    reads gs, GroupsOf(gs), Footprint(gs)
    ensures |r| == |gs|
    decreases |gs|
  {
    if |gs| == 0 then [] else Forest(gs[..|gs| - 1]) + [gs[|gs| - 1].Tree()]
  }

  lemma {:induction false} ForestAt(gs: seq<Schema>)
    requires Forestable(gs)
    ensures forall j | 0 <= j < |gs| :: Forest(gs)[j] == gs[j].Tree()
    decreases |gs|
  {
    if |gs| > 0 {
      ForestAt(gs[..|gs| - 1]);
    }
  }
}
