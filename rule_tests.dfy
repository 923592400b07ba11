/**
 * The scenarios of src/rule.test.js, restated in the model: every test
 * builds a fresh response, loads a one-line `handle_request` and applies
 * the rule to the request `GET /resource/123`. A number the script passes
 * (`response.status(402)`) reaches `parseInt` as its decimal string.
 */
module RuleTests {
  import opened Wrappers
  import opened IntParse
  import opened ResponseSink
  import opened RequestView
  import opened Engine

  /** The request every test uses. */
  function TestRequest(): (req: Request)
    ensures req.originalUrl == Path(["resource", "123"])
  {
    Request("/resource/123", "GET", map["x-unit-test" := "test"], map["title" := "test title"])
  }

  lemma TestPathSegments(opts: RuleOptions)
    requires opts.req == TestRequest()
    ensures opts.Resource() == Some("resource") && opts.Id() == Some("123")
  {
    ResourceAndIdOfPath(opts, ["resource", "123"]);
  }

  lemma Digits402()
    ensures Decimal(402) == "402"
  {
    assert NatDigits(4) == "4";
    assert NatDigits(40) == "40";
  }

  lemma Digits123()
    ensures Decimal(123) == "123"
  {
    assert NatDigits(1) == "1";
    assert NatDigits(12) == "12";
  }

  /** The numbers the tests pass to `status`, as `parseInt` reads them. */
  lemma TestNumbersParse()
    ensures ParseInt("402") == Some(402) && ParseInt("123") == Some(123)
  {
    Digits402();
    ParseIntDecimal(402, "");
    assert Decimal(402) + "" == "402";
    Digits123();
    ParseIntDecimal(123, "");
    assert Decimal(123) + "" == "123";
  }

  /** A script whose only call is a `status` that parses: that status, locked, and nothing else. */
  lemma StatusOnlyScript(code: Arg, opts: RuleOptions, n: int)
    requires ParseInt(JsString(Eval(code, opts))) == Some(n)
    ensures Applied(Defined([CallStatus(code)]), opts, Fresh) == Fresh.(status := Some(n), statusLocked := true)
  {
    var t := StatusCall(Fresh, Eval(code, opts));
    assert t == Fresh.SetStatus(n).LockStatus();
    assert [CallStatus(code)][1..] == [];
    assert Run([CallStatus(code)], opts, Fresh) == (Completed, t);
  }

  /** A script whose only call is a `send`: that body, locked, and nothing else. */
  lemma SendOnlyScript(payload: Arg, opts: RuleOptions, v: Val)
    requires Eval(payload, opts) == v
    ensures Applied(Defined([CallSend(payload)]), opts, Fresh) == Fresh.(body := v, bodyLocked := true)
  {
    var t := SendCall(Fresh, v);
    assert t == Fresh.Send(v).LockBody();
    assert [CallSend(payload)][1..] == [];
    assert Run([CallSend(payload)], opts, Fresh) == (Completed, t);
  }

  /** Applies a rule whose `handle_request` is `body` to a fresh response for the test request. */
  method ApplyScript(source: string, body: seq<Action>) returns (r: Response, opts: RuleOptions)
    ensures opts.req == TestRequest() && r == opts.response
    ensures r.View() == Applied(Defined(body), opts, Fresh)
  {
    var response := new Response();
    opts := RuleOptions(TestRequest(), response);
    var rule := new Rule.FromScript(source, LoadResult(false, Defined(body)));
    r := rule.Apply(opts);
  }

  /** `response.status(402)`: status 402, no body, no exit. */
  method SetsStatus() returns (status: Option<int>, body: Val, exiting: bool)
    ensures status == Some(402) && body == None && !exiting
  {
    var r, opts := ApplyScript("def handle_request():\n    response.status(402)", [CallStatus(Literal(Some("402")))]);
    TestNumbersParse();
    StatusOnlyScript(Literal(Some("402")), opts, 402);
    status, body, exiting := r.GetStatus(), r.GetResponse(), r.ShouldExit();
  }

  method SetsBody() returns (body: Val)
    ensures body == Some("ok")
  {
    var r, opts := ApplyScript("def handle_request():\n    response.send(\"ok\")", [CallSend(Literal(Some("ok")))]);
    body := r.GetResponse();
  }

  method SetsHeader() returns (value: Val)
    ensures value == Some("ok")
  {
    var r, opts := ApplyScript("def handle_request():\n    response.header(\"x-unit-test-response\", \"ok\")",
      [CallHeader("x-unit-test-response", Literal(Some("ok")))]);
    value := r.GetHeader("x-unit-test-response");
  }

  method SetsExit() returns (exiting: bool)
    ensures exiting
  {
    var r, opts := ApplyScript("def handle_request():\n    response.exit()", [CallExit]);
    exiting := r.ShouldExit();
  }

  method SendsResource() returns (body: Val)
    ensures body == Some("resource")
  {
    var r, opts := ApplyScript("def handle_request():\n    response.send(request.resource())", [CallSend(RequestResource)]);
    TestPathSegments(opts);
    SendOnlyScript(RequestResource, opts, Some("resource"));
    body := r.GetResponse();
  }

  /** `response.status(request.id())`: the id "123" parses to the status 123. */
  method StatusFromId() returns (status: Option<int>)
    ensures status == Some(123)
  {
    var r, opts := ApplyScript("def handle_request():\n    response.status(request.id())", [CallStatus(RequestId)]);
    TestPathSegments(opts);
    TestNumbersParse();
    assert JsString(Eval(RequestId, opts)) == "123";
    StatusOnlyScript(RequestId, opts, 123);
    status := r.GetStatus();
  }

  method SendsPathname() returns (body: Val)
    ensures body == Some("/resource/123")
  {
    var r, opts := ApplyScript("def handle_request():\n    response.send(request.pathname())", [CallSend(RequestPathname)]);
    body := r.GetResponse();
  }

  method SendsMethod() returns (body: Val)
    ensures body == Some("GET")
  {
    var r, opts := ApplyScript("def handle_request():\n    response.send(request.method())", [CallSend(RequestMethod)]);
    body := r.GetResponse();
  }

  method SendsHeader() returns (body: Val)
    ensures body == Some("test")
  {
    var r, opts := ApplyScript("def handle_request():\n    response.send(request.header(\"x-unit-test\"))",
      [CallSend(RequestHeader("x-unit-test"))]);
    body := r.GetResponse();
  }

  method SendsPayload() returns (body: Val)
    ensures body == Some("test title")
  {
    var r, opts := ApplyScript("def handle_request():\n    response.send(request.payload(\"title\"))",
      [CallSend(RequestPayload("title"))]);
    body := r.GetResponse();
  }

  /**
   * Any script whose `handle_request` raises at once, with `message` the
   * caught JavaScript error's `message`: status 500, that message as body, exit set.
   */
  method FailingScript(source: string, message: string) returns (status: Option<int>, body: Val, exiting: bool)
    ensures status == Some(500) && body == Some(message) && exiting
  {
    var r, opts := ApplyScript(source, [Raise(message)]);
    status, body, exiting := r.GetStatus(), r.GetResponse(), r.ShouldExit();
  }

  /** A script that fails to load leaves an invalid rule behind. */
  method InvalidScript() returns (invalid: bool)
    ensures invalid
  {
    var rule := new Rule.FromScript("def handle_request(:", LoadResult(true, Missing));
    invalid := rule.IsInvalid();
  }

  /** An unreadable rules file leaves an invalid rule with no script. */
  method UnreadableFile() returns (invalid: bool, script: Option<string>)
    ensures invalid && script == None
  {
    var rule := new Rule.FromFile("rules.py", None, LoadResult(false, Missing));
    invalid, script := rule.IsInvalid(), rule.script;
  }
}
