/**
 * Endpoint metadata and the binding-capturing `Endpoint` stand-in of the
 * first iteration (src/endpoint.py). A meta here may lack an attribute
 * altogether: the group of src/schema.py records metas of its own class,
 * which has no `body`, `rule` or `method`, and the extension object reads
 * and writes those attributes by name.
 */
module SrcEndpoint {
  import opened Results
  import opened Inputs
  import E = Endpoints

  /** A Python attribute that an object may or may not have. */
  datatype Attr<T> = Absent | Present(value: T)

  /** The attributes of a meta, as a value. */
  datatype SrcMeta = SrcMeta(
    name: string,
    functionName: string,
    body: Attr<Option<ModelArg>>,
    rule: Attr<Option<string>>,
    httpMethod: Attr<Option<string>>)

  class EndpointMeta {
    const name: string
    const functionName: string
    const body: Attr<Option<ModelArg>>
    var rule: Attr<Option<string>>
    var httpMethod: Attr<Option<string>>

    /** `EndpointMeta(name, function_name, body=None, rule=None, method=None)`: every argument stored. */
    constructor(name: string, functionName: string, body: Option<ModelArg> := None,
                rule: Option<string> := None, httpMethod: Option<string> := None)
      ensures Value() == SrcMeta(name, functionName, Present(body), Present(rule), Present(httpMethod))
    {
      this.name := name;
      this.functionName := functionName;
      this.body := Present(body);
      this.rule := Present(rule);
      this.httpMethod := Present(httpMethod);
    }

    /** The group's own `EndpointMeta(name, function_name)`: only those two attributes exist. */
    constructor Bare(name: string, functionName: string)
      ensures Value() == SrcMeta(name, functionName, Absent, Absent, Absent)
    {
      this.name := name;
      this.functionName := functionName;
      this.body := Absent;
      this.rule := Absent;
      this.httpMethod := Absent;
    }

    /** `endpoint_meta.rule = endpoint.rule; endpoint_meta.method = endpoint.method`. */
    method Bind(rule: Option<string>, httpMethod: Option<string>)
      modifies this
      ensures Value() == old(Value()).(rule := Present(rule), httpMethod := Present(httpMethod))
    {
      this.rule := Present(rule);
      this.httpMethod := Present(httpMethod);
    }

    function Value(): SrcMeta
      reads this
    {
      SrcMeta(name, functionName, body, rule, httpMethod)
    }
  }

  /** The values of a list of metas. */
  function Values(ms: seq<EndpointMeta>): (r: seq<SrcMeta>)
    reads ms
    ensures |r| == |ms| && forall i | 0 <= i < |ms| :: r[i] == ms[i].Value()
  {
    seq(|ms|, i requires 0 <= i < |ms| reads ms => ms[i].Value())
  }

  /** What one deferred binding yields here: its rule, the first of its methods and the view function's name. */
  datatype SrcCaptured = SrcCaptured(rule: string, httpMethod: string, functionName: string)

  /** Running a binding against a fresh `Endpoint`: `options.get("methods")[0]` fails on a missing or empty list. */
  function Capture(b: Binding): (r: Result<SrcCaptured>)
    ensures r.Err? <==> b.methods.None? || |b.methods.value| == 0
    ensures r.Err? ==> r.error == MissingMethods
  {
    if b.methods.None? || |b.methods.value| == 0 then Err(MissingMethods)
    else Ok(SrcCaptured(b.rule, b.methods.value[0], b.viewFunc.name))
  }

  /** The first iteration captures what the latest one captures, without the path entries. */
  lemma CaptureAgrees(b: Binding)
    ensures Capture(b).Ok? <==> E.Capture(b).Ok?
    ensures Capture(b).Ok? ==>
      Capture(b).value.rule == E.Capture(b).value.rule &&
      Capture(b).value.httpMethod == E.Capture(b).value.httpMethod &&
      Capture(b).value.functionName == E.Capture(b).value.functionName
  {
  }

  /** The stand-in a deferred function is run against. */
  class Endpoint {
    var rule: Option<string>
    var endpoint: Option<string>
    var httpMethod: Option<string>
    var functionName: Option<string>

    constructor()
      ensures rule == None && endpoint == None && httpMethod == None && functionName == None
    {
      rule := None;
      endpoint := None;
      httpMethod := None;
      functionName := None;
    }

    /**
     * `add_url_rule`: stores the rule and endpoint name, then the first of
     * `options["methods"]` (failing when it is missing or empty, before the
     * function name is written) and the view function's name.
     */
    method AddUrlRule(rule: string, endpoint: Option<string>, viewFunc: ViewFunc, methods: Option<seq<string>>)
      returns (r: Result<()>)
      modifies this
      ensures this.rule == Some(rule) && this.endpoint == endpoint
      ensures r.Ok? <==> methods.Some? && |methods.value| > 0
      ensures r.Err? ==> r.error == MissingMethods && httpMethod == old(httpMethod) && functionName == old(functionName)
      ensures r.Ok? ==> httpMethod == Some(methods.value[0]) && functionName == Some(viewFunc.name)
    {
      this.rule := Some(rule);
      this.endpoint := endpoint;
      if methods.None? || |methods.value| == 0 {
        return Err(MissingMethods);
      }
      httpMethod := Some(methods.value[0]);
      functionName := Some(viewFunc.name);
      return Ok(());
    }
  }

  /** `endpoint = Endpoint(); func(endpoint)` for one binding, as `Capture` describes. */
  method RunBinding(b: Binding) returns (e: Endpoint, r: Result<SrcCaptured>)
    ensures fresh(e)
    ensures r == Capture(b)
    ensures r.Ok? ==> e.rule == Some(r.value.rule) && e.httpMethod == Some(r.value.httpMethod)
    ensures r.Ok? ==> e.functionName == Some(r.value.functionName)
  {
    e := new Endpoint();
    var done := e.AddUrlRule(b.rule, b.endpoint, b.viewFunc, b.methods);
    if done.Err? {
      return e, Err(done.error);
    }
    r := Ok(SrcCaptured(b.rule, e.httpMethod.value, e.functionName.value));
  }
}
