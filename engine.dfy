/**
 * The rule engine of src/rule.js (lines 35-131): the `request` and
 * `response` facades a rule script calls, the single "current options"
 * slot they act on, `apply` with its failure fallback, and the fail-soft
 * construction. The embedded Python interpreter is not modelled: a rule's
 * `handle_request` is a sequence of facade calls that either runs to its
 * end or raises an error with a message.
 */
module Engine {
  import opened Wrappers
  import opened IntParse
  import opened ResponseSink
  import opened RequestView

  /** An argument a script passes to a response call: a literal or a request query. */
  datatype Arg =
    | Literal(value: Val)
    | RequestId
    | RequestResource
    | RequestPathname
    | RequestMethod
    | RequestHeader(name: string)
    | RequestPayload(name: string)

  /** One step of `handle_request`: a response facade call, or raising an error. */
  datatype Action =
    | CallStatus(code: Arg)
    | CallSend(payload: Arg)
    | CallHeader(name: string, value: Arg)
    | CallExit
    | Raise(message: string)

  /** What the interpreter's globals bind `handle_request` to. */
  datatype Handler = Missing | Defined(body: seq<Action>)

  datatype Outcome = Completed | Threw(message: string)

  /** What running the script's top level left behind: whether it raised, and the handler. */
  datatype LoadResult = LoadResult(raised: bool, handler: Handler)

  /** The TypeError raised by calling `handle_request` when the script defines none. */
  const NotAFunction := "handle_request is not a function"

  /** `String(v)`, as `parseInt` applies it to its argument; `undefined` is never a number. */
  function JsString(v: Val): (r: string)
    ensures v.Some? ==> r == v.value
    ensures v.None? ==> ParseInt(r) == None
  {
    match v
    case None =>
      ParseIntRejects("undefined");
      "undefined"
    case Some(s) => s
  }

  /** What the `request` facade answers for an argument. */
  function Eval(a: Arg, opts: RuleOptions): Val {
    match a
    case Literal(v) => v
    case RequestId => opts.Id()
    case RequestResource => opts.Resource()
    case RequestPathname => Some(opts.Pathname())
    case RequestMethod => Some(opts.Method())
    case RequestHeader(name) => opts.Header(name)
    case RequestPayload(name) => opts.Payload(name)
  }

  /**
   * Facade `status(value)`: when `value` parses as a base-10 integer, set
   * the status to it (unless already locked) and lock it; otherwise leave
   * the response as it is.
   */
  function StatusCall(s: Sink, value: Val): (t: Sink)
    ensures ParseInt(JsString(value)).None? ==> t == s
    ensures ParseInt(JsString(value)).Some? ==>
      && t.statusLocked
      && t.status == (if s.statusLocked then s.status else ParseInt(JsString(value)))
    ensures t.(status := s.status, statusLocked := s.statusLocked) == s
  {
    match ParseInt(JsString(value))
    case None => s
    case Some(code) => s.SetStatus(code).LockStatus()
  }

  /** Facade `send(payload)`: set the body (unless already locked) and lock it. */
  function SendCall(s: Sink, payload: Val): (t: Sink)
    ensures t.bodyLocked
    ensures t.body == (if s.bodyLocked then s.body else payload)
    ensures t.(body := s.body, bodyLocked := s.bodyLocked) == s
  {
    s.Send(payload).LockBody()
  }

  /** Facade `header(name, value)`: always sets the header, whatever is locked. */
  function HeaderCall(s: Sink, name: string, value: Val): (t: Sink)
    ensures t.GetHeader(name) == value
    ensures forall other :: other != name ==> t.GetHeader(other) == s.GetHeader(other)
    ensures t.(headers := s.headers) == s
  {
    s.AddHeader(name, value)
  }

  /** Facade `exit()`: raise the exit flag; nothing else changes. */
  function ExitCall(s: Sink): (t: Sink)
    ensures t.exiting && t.(exiting := s.exiting) == s
  {
    s.Exit()
  }

  /**
   * One action of a script, against the options in the current slot. Only
   * a `raise` raises: no facade call raises into the script.
   */
  function Step(a: Action, opts: RuleOptions, s: Sink): (r: (Outcome, Sink))
    ensures r.0.Threw? <==> a.Raise?
    ensures a.Raise? ==> r == (Threw(a.message), s)
    ensures Grows(s, r.1)
  {
    match a
    case CallStatus(v) => (Completed, StatusCall(s, Eval(v, opts)))
    case CallSend(v) => (Completed, SendCall(s, Eval(v, opts)))
    case CallHeader(name, v) => (Completed, HeaderCall(s, name, Eval(v, opts)))
    case CallExit => (Completed, ExitCall(s))
    case Raise(message) => (Threw(message), s)
  }

  /**
   * Running `handle_request`: the actions in order, stopping at the first
   * one that raises. The response only grows: locked fields keep their
   * values and no lock or exit flag is undone.
   */
  function Run(body: seq<Action>, opts: RuleOptions, s: Sink): (r: (Outcome, Sink))
    ensures Grows(s, r.1)
    decreases |body|
  {
    if body == [] then (Completed, s)
    else
      var (o, t) := Step(body[0], opts, s);
      if o.Threw? then (o, t)
      else
        var r := Run(body[1..], opts, t);
        GrowsTransitive(s, t, r.1);
        r
  }

  /**
   * The catch block of `apply`: `status(500)`, `send(message)`, `exit()`,
   * through the response's own lock-respecting calls and without locking.
   */
  function Recover(s: Sink, message: string): (t: Sink)
    ensures t.exiting
    ensures t.status == (if s.statusLocked then s.status else Some(500))
    ensures t.body == (if s.bodyLocked then s.body else Some(message))
    ensures t.headers == s.headers
    ensures t.statusLocked == s.statusLocked && t.bodyLocked == s.bodyLocked
  {
    s.SetStatus(500).Send(Some(message)).Exit()
  }

  /** The response `apply` hands back, from the one it was given. */
  function Applied(h: Handler, opts: RuleOptions, s: Sink): (t: Sink)
    ensures Grows(s, t)
  {
    match h
    case Missing => Recover(s, NotAFunction)
    case Defined(body) =>
      var (o, u) := Run(body, opts, s);
      if o.Threw? then Recover(u, o.message) else u
  }

  /** Running `a + b` runs `a`, then `b` only if `a` did not raise. */
  lemma {:induction false} RunConcat(a: seq<Action>, b: seq<Action>, opts: RuleOptions, s: Sink)
    ensures Run(a + b, opts, s) ==
      var (o, t) := Run(a, opts, s);
      if o.Threw? then (o, t) else Run(b, opts, t)
    decreases |a|
  {
    if a == [] {
      assert a + b == b;
    } else {
      assert (a + b)[0] == a[0];
      assert (a + b)[1..] == a[1..] + b;
      var (o, t) := Step(a[0], opts, s);
      if o.Completed? {
        RunConcat(a[1..], b, opts, t);
      }
    }
  }

  /** A script without `raise` runs to its end. */
  lemma {:induction false} RunCompletes(body: seq<Action>, opts: RuleOptions, s: Sink)
    requires forall i :: 0 <= i < |body| ==> !body[i].Raise?
    ensures Run(body, opts, s).0 == Completed
    decreases |body|
  {
    if body != [] {
      RunCompletes(body[1..], opts, Step(body[0], opts, s).1);
    }
  }

  /** Nothing after the first `raise` is carried out, and the error is its message. */
  lemma RaiseStopsScript(pre: seq<Action>, message: string, post: seq<Action>, opts: RuleOptions, s: Sink)
    requires forall i :: 0 <= i < |pre| ==> !pre[i].Raise?
    ensures Run(pre + [Raise(message)] + post, opts, s) == (Threw(message), Run(pre, opts, s).1)
  {
    RunCompletes(pre, opts, s);
    RunConcat(pre, [Raise(message)] + post, opts, s);
    assert pre + [Raise(message)] + post == pre + ([Raise(message)] + post);
  }

  /** The parts of a response, each written by one facade call. */
  datatype Part = StatusPart | BodyPart | HeadersPart | ExitPart

  predicate Writes(a: Action, p: Part) {
    match p
    case StatusPart => a.CallStatus?
    case BodyPart => a.CallSend?
    case HeadersPart => a.CallHeader?
    case ExitPart => a.CallExit?
  }

  predicate SamePart(s: Sink, t: Sink, p: Part) {
    match p
    case StatusPart => t.status == s.status && t.statusLocked == s.statusLocked
    case BodyPart => t.body == s.body && t.bodyLocked == s.bodyLocked
    case HeadersPart => t.headers == s.headers
    case ExitPart => t.exiting == s.exiting
  }

  /** Each part of the response changes only through the facade call that writes it. */
  lemma {:induction false} RunFrame(body: seq<Action>, p: Part, opts: RuleOptions, s: Sink)
    requires forall i :: 0 <= i < |body| ==> !Writes(body[i], p)
    ensures SamePart(s, Run(body, opts, s).1, p)
    decreases |body|
  {
    if body != [] {
      var (o, t) := Step(body[0], opts, s);
      assert SamePart(s, t, p);
      if o.Completed? {
        RunFrame(body[1..], p, opts, t);
      }
    }
  }

  /** A header is set for good: only a later `header` call on the same name changes it. */
  lemma {:induction false} HeaderKept(body: seq<Action>, name: string, opts: RuleOptions, s: Sink)
    requires forall i :: 0 <= i < |body| ==> !(body[i].CallHeader? && body[i].name == name)
    ensures Run(body, opts, s).1.GetHeader(name) == s.GetHeader(name)
    decreases |body|
  {
    if body != [] {
      var (o, t) := Step(body[0], opts, s);
      if o.Completed? {
        HeaderKept(body[1..], name, opts, t);
        assert forall i :: 0 <= i < |body[1..]| ==> body[1..][i] == body[i + 1];
      }
    }
  }

  /**
   * `header(name, value)` is observable in the response `apply` returns,
   * whatever is locked and even if the script raises afterwards.
   */
  lemma HeaderObservable(pre: seq<Action>, name: string, value: Arg, post: seq<Action>, opts: RuleOptions, s: Sink)
    requires forall i :: 0 <= i < |pre| ==> !pre[i].Raise?
    requires forall i :: 0 <= i < |post| ==> !(post[i].CallHeader? && post[i].name == name)
    ensures Applied(Defined(pre + [CallHeader(name, value)] + post), opts, s).GetHeader(name) == Eval(value, opts)
  {
    var body := pre + [CallHeader(name, value)] + post;
    assert body == pre + ([CallHeader(name, value)] + post);
    RunCompletes(pre, opts, s);
    RunConcat(pre, [CallHeader(name, value)] + post, opts, s);
    var t := Run(pre, opts, s).1;
    var u := HeaderCall(t, name, Eval(value, opts));
    assert Run([CallHeader(name, value)] + post, opts, t) == Run(post, opts, u);
    HeaderKept(post, name, opts, u);
  }

  /** A prefix that does not raise just hands its response on to the rest of the script. */
  lemma AppliedAfter(pre: seq<Action>, rest: seq<Action>, opts: RuleOptions, s: Sink)
    requires forall i :: 0 <= i < |pre| ==> !pre[i].Raise?
    ensures Applied(Defined(pre + rest), opts, s) == Applied(Defined(rest), opts, Run(pre, opts, s).1)
  {
    RunCompletes(pre, opts, s);
    RunConcat(pre, rest, opts, s);
  }

  lemma LeadingStatusWins(code: Arg, rest: seq<Action>, opts: RuleOptions, s: Sink)
    requires !s.statusLocked
    requires ParseInt(JsString(Eval(code, opts))).Some?
    ensures Applied(Defined([CallStatus(code)] + rest), opts, s).status == ParseInt(JsString(Eval(code, opts)))
  {
    var t := StatusCall(s, Eval(code, opts));
    assert ([CallStatus(code)] + rest)[1..] == rest;
    assert Run([CallStatus(code)] + rest, opts, s) == Run(rest, opts, t);
  }

  /**
   * The first `status` call whose argument parses decides the final status,
   * wherever it stands and whatever follows, failures included. Earlier
   * `status` calls whose argument does not parse commit nothing.
   */
  lemma FirstStatusWins(pre: seq<Action>, code: Arg, rest: seq<Action>, opts: RuleOptions, s: Sink)
    requires forall i :: 0 <= i < |pre| ==> !pre[i].Raise?
    requires !Run(pre, opts, s).1.statusLocked
    requires ParseInt(JsString(Eval(code, opts))).Some?
    ensures Applied(Defined(pre + [CallStatus(code)] + rest), opts, s).status == ParseInt(JsString(Eval(code, opts)))
  {
    assert pre + [CallStatus(code)] + rest == pre + ([CallStatus(code)] + rest);
    AppliedAfter(pre, [CallStatus(code)] + rest, opts, s);
    LeadingStatusWins(code, rest, opts, Run(pre, opts, s).1);
  }

  lemma LeadingSendWins(payload: Arg, rest: seq<Action>, opts: RuleOptions, s: Sink)
    requires !s.bodyLocked
    ensures Applied(Defined([CallSend(payload)] + rest), opts, s).body == Eval(payload, opts)
  {
    var t := SendCall(s, Eval(payload, opts));
    assert ([CallSend(payload)] + rest)[1..] == rest;
    assert Run([CallSend(payload)] + rest, opts, s) == Run(rest, opts, t);
  }

  /** The first `send` call decides the final body, wherever it stands and whatever follows. */
  lemma FirstSendWins(pre: seq<Action>, payload: Arg, rest: seq<Action>, opts: RuleOptions, s: Sink)
    requires forall i :: 0 <= i < |pre| ==> !pre[i].Raise?
    requires !Run(pre, opts, s).1.bodyLocked
    ensures Applied(Defined(pre + [CallSend(payload)] + rest), opts, s).body == Eval(payload, opts)
  {
    assert pre + [CallSend(payload)] + rest == pre + ([CallSend(payload)] + rest);
    AppliedAfter(pre, [CallSend(payload)] + rest, opts, s);
    LeadingSendWins(payload, rest, opts, Run(pre, opts, s).1);
  }

  /**
   * A script that raises before committing a status or a body ends with
   * status 500, the error's message as body, and exit set.
   */
  lemma FailureYields500(pre: seq<Action>, message: string, post: seq<Action>, opts: RuleOptions, s: Sink)
    requires forall i :: 0 <= i < |pre| ==> !pre[i].Raise?
    requires !Run(pre, opts, s).1.statusLocked && !Run(pre, opts, s).1.bodyLocked
    ensures var t := Applied(Defined(pre + [Raise(message)] + post), opts, s);
      t.status == Some(500) && t.body == Some(message) && t.exiting
  {
    RaiseStopsScript(pre, message, post, opts, s);
  }

  /** Without a `handle_request`, `apply` answers 500 with the TypeError's message. */
  lemma MissingHandlerYields500(opts: RuleOptions, s: Sink)
    requires !s.statusLocked && !s.bodyLocked
    ensures var t := Applied(Missing, opts, s);
      t.status == Some(500) && t.body == Some(NotAFunction) && t.exiting
  {
  }

  /** A script that completes is not touched by the fallback: exit stays as the script left it. */
  lemma CompletedScriptKeepsExit(body: seq<Action>, opts: RuleOptions, s: Sink)
    requires forall i :: 0 <= i < |body| ==> !body[i].Raise? && !body[i].CallExit?
    ensures Applied(Defined(body), opts, s).exiting == s.exiting
  {
    RunCompletes(body, opts, s);
    RunFrame(body, ExitPart, opts, s);
  }

  /**
   * The catch block goes through the response's own lock-respecting calls:
   * a status committed before the error survives it, so the response is
   * not a 500 although exit is set and the body is the message.
   */
  lemma CommittedStatusSurvivesFailure(code: Arg, message: string, post: seq<Action>, opts: RuleOptions, s: Sink)
    requires !s.statusLocked && !s.bodyLocked
    requires ParseInt(JsString(Eval(code, opts))).Some?
    ensures var t := Applied(Defined([CallStatus(code), Raise(message)] + post), opts, s);
      && t.status == ParseInt(JsString(Eval(code, opts)))
      && t.body == Some(message)
      && t.exiting
  {
    var body := [CallStatus(code), Raise(message)] + post;
    var t := StatusCall(s, Eval(code, opts));
    assert body[1..] == [Raise(message)] + post;
    assert Run(body[1..], opts, t) == (Threw(message), t);
    assert Run(body, opts, s) == (Threw(message), t);
  }

  /** The rule: one loaded script and the slot naming the options being served. */
  class Rule {
    var current: Option<RuleOptions>
    var rulesPath: Option<string>
    var script: Option<string>
    var invalid: bool
    var handler: Handler

    /** `createFromScript(script)`: a load failure marks the rule invalid, never raises. */
    constructor FromScript(source: string, load: LoadResult)
      ensures current == None && rulesPath == None && script == Some(source)
      ensures IsInvalid() <==> load.raised
      ensures handler == load.handler
    {
      current, rulesPath, script, invalid, handler := None, None, None, false, Missing;
      script := Some(source);
      handler := load.handler;
      if load.raised {
        invalid := true;
      }
    }

    /**
     * `createFromFile(path)`: `read` is the file's text, `None` when it
     * cannot be read; then the script is never run and the rule is invalid.
     */
    constructor FromFile(path: string, read: Option<string>, load: LoadResult)
      ensures current == None && rulesPath == Some(path) && script == read
      ensures IsInvalid() <==> (read.None? || load.raised)
      ensures handler == (if read.None? then Missing else load.handler)
    {
      current, rulesPath, script, invalid, handler := None, None, None, false, Missing;
      rulesPath := Some(path);
      if read.None? {
        invalid := true;
      } else {
        script := read;
        handler := load.handler;
        if load.raised {
          invalid := true;
        }
      }
    }

    predicate IsInvalid()
      reads this
    {
      invalid
    }

    // The `request` facade: each call forwards to the options in the slot.

    function Id(): Option<string>
      reads this
      requires current.Some?
    {
      current.value.Id()
    }

    function Resource(): Option<string>
      reads this
      requires current.Some?
    {
      current.value.Resource()
    }

    function Pathname(): string
      reads this
      requires current.Some?
    {
      current.value.Pathname()
    }

    function Method(): string
      reads this
      requires current.Some?
    {
      current.value.Method()
    }

    function Header(name: string): Option<string>
      reads this
      requires current.Some?
    {
      current.value.Header(name)
    }

    function Payload(name: string): Option<string>
      reads this
      requires current.Some?
    {
      current.value.Payload(name)
    }

    /** A script evaluating an argument, asking the `request` facade where it must. */
    method Argument(a: Arg) returns (v: Val)
      requires current.Some?
      ensures v == Eval(a, current.value)
    {
      match a {
        case Literal(x) => v := x;
        case RequestId => v := Id();
        case RequestResource => v := Resource();
        case RequestPathname => v := Some(Pathname());
        case RequestMethod => v := Some(Method());
        case RequestHeader(name) => v := Header(name);
        case RequestPayload(name) => v := Payload(name);
      }
    }

    // The `response` facade: each call acts on the response of the options in the slot.

    method Status(value: Val)
      requires current.Some?
      modifies current.value.response
      ensures current.value.response.View() == StatusCall(old(current.value.response.View()), value)
    {
      var code := ParseInt(JsString(value));
      if code.Some? {
        current.value.response.Status(code.value);
        current.value.response.LockStatus();
      }
    }

    /** The response never raises here, so the source's `catch` has nothing to swallow. */
    method Send(payload: Val)
      requires current.Some?
      modifies current.value.response
      ensures current.value.response.View() == SendCall(old(current.value.response.View()), payload)
    {
      current.value.response.Send(payload);
      current.value.response.LockResponse();
    }

    method Exit()
      requires current.Some?
      modifies current.value.response
      ensures current.value.response.View() == ExitCall(old(current.value.response.View()))
    {
      current.value.response.Exit();
    }

    method SetHeader(name: string, value: Val)
      requires current.Some?
      modifies current.value.response
      ensures current.value.response.View() == HeaderCall(old(current.value.response.View()), name, value)
    {
      current.value.response.AddHeader(name, value);
    }

    /** The interpreter carrying out one action of `handle_request`. */
    method Perform(a: Action) returns (outcome: Outcome)
      requires current.Some?
      modifies current.value.response
      ensures (outcome, current.value.response.View()) == Step(a, current.value, old(current.value.response.View()))
    {
      outcome := Completed;
      match a {
        case CallStatus(arg) =>
          var v := Argument(arg);
          Status(v);
        case CallSend(arg) =>
          var v := Argument(arg);
          Send(v);
        case CallHeader(name, arg) =>
          var v := Argument(arg);
          SetHeader(name, v);
        case CallExit =>
          Exit();
        case Raise(message) =>
          outcome := Threw(message);
      }
    }

    /**
     * `apply(ruleOption)`: bind the options to the slot, run `handle_request`,
     * and on any error fall back to status 500, the error's message and exit.
     * Returns the options' own response.
     */
    method Apply(opt: RuleOptions) returns (r: Response)
      modifies this`current, opt.response
      ensures current == Some(opt) && r == opt.response
      ensures r.View() == Applied(handler, opt, old(opt.response.View()))
    {
      current := Some(opt);
      var outcome := Completed;
      match handler {
        case Missing =>
          outcome := Threw(NotAFunction);
        case Defined(body) =>
          var i := 0;
          while i < |body| && outcome.Completed?
            invariant 0 <= i <= |body|
            invariant current == Some(opt)
            invariant outcome.Completed? ==>
              Run(body[i..], opt, opt.response.View()) == Run(body, opt, old(opt.response.View()))
            invariant outcome.Threw? ==>
              (outcome, opt.response.View()) == Run(body, opt, old(opt.response.View()))
          {
            outcome := Perform(body[i]);
            assert body[i..][1..] == body[i + 1..];
            i := i + 1;
          }
      }
      if outcome.Threw? {
        var response := current.value.response;
        response.Status(500);
        response.Send(Some(outcome.message));
        response.Exit();
      }
      r := current.value.response;
    }
  }
}
