/**
 * The response object a rule writes to (src/response.js, which is not part
 * of this model). Its behaviour is the contract the rule engine relies on:
 * `status` and `send` write a field unless that field has been locked, in
 * which case they do nothing and do not raise; `lockStatus` and
 * `lockResponse` set the locks; `addHeader` and `exit` are never locked.
 */
module ResponseSink {
  import opened Wrappers

  /** A value handed across the script boundary; `None` is `undefined`/`null`. */
  type Val = Option<string>

  /** The observable state of one response. */
  datatype Sink = Sink(
    status: Option<int>,
    body: Val,
    headers: map<string, Val>,
    exiting: bool,
    statusLocked: bool,
    bodyLocked: bool)
  {
    /** `status(code)`: a no-op once the status is locked. */
    function SetStatus(code: int): Sink {
      if statusLocked then this else this.(status := Some(code))
    }

    function LockStatus(): Sink {
      this.(statusLocked := true)
    }

    /** `send(payload)`: a no-op once the body is locked. */
    function Send(payload: Val): Sink {
      if bodyLocked then this else this.(body := payload)
    }

    function LockBody(): Sink {
      this.(bodyLocked := true)
    }

    function AddHeader(name: string, value: Val): Sink {
      this.(headers := headers[name := value])
    }

    function Exit(): Sink {
      this.(exiting := true)
    }

    function GetHeader(name: string): Val {
      if name in headers then headers[name] else None
    }
  }

  /** A response before any rule has touched it. */
  const Fresh := Sink(None, None, map[], false, false, false)

  /**
   * The response's invariants between two of its states: a locked field
   * keeps its value, and the locks and the exit flag never revert.
   */
  predicate Grows(s: Sink, t: Sink) {
    && (s.statusLocked ==> t.statusLocked && t.status == s.status)
    && (s.bodyLocked ==> t.bodyLocked && t.body == s.body)
    && (s.exiting ==> t.exiting)
  }

  /** Every primitive of the response keeps its invariants. */
  lemma PrimitivesGrow(s: Sink, code: int, payload: Val, name: string, value: Val)
    ensures Grows(s, s.SetStatus(code)) && Grows(s, s.LockStatus())
    ensures Grows(s, s.Send(payload)) && Grows(s, s.LockBody())
    ensures Grows(s, s.AddHeader(name, value)) && Grows(s, s.Exit())
  {
  }

  lemma GrowsTransitive(s: Sink, t: Sink, u: Sink)
    requires Grows(s, t) && Grows(t, u)
    ensures Grows(s, u)
  {
  }

  /** The response object itself, updated in place. */
  class Response {
    var status: Option<int>
    var body: Val
    var headers: map<string, Val>
    var exiting: bool
    var statusLocked: bool
    var bodyLocked: bool

    function View(): Sink
      reads this
    {
      Sink(status, body, headers, exiting, statusLocked, bodyLocked)
    }

    constructor ()
      ensures View() == Fresh
    {
      status, body, headers := None, None, map[];
      exiting, statusLocked, bodyLocked := false, false, false;
    }

    method Status(code: int)
      modifies this
      ensures View() == old(View()).SetStatus(code)
    {
      if !statusLocked {
        status := Some(code);
      }
    }

    method LockStatus()
      modifies this
      ensures View() == old(View()).LockStatus()
    {
      statusLocked := true;
    }

    method Send(payload: Val)
      modifies this
      ensures View() == old(View()).Send(payload)
    {
      if !bodyLocked {
        body := payload;
      }
    }

    method LockResponse()
      modifies this
      ensures View() == old(View()).LockBody()
    {
      bodyLocked := true;
    }

    method AddHeader(name: string, value: Val)
      modifies this
      ensures View() == old(View()).AddHeader(name, value)
    {
      headers := headers[name := value];
    }

    method Exit()
      modifies this
      ensures View() == old(View()).Exit()
    {
      exiting := true;
    }

    function GetStatus(): Option<int>
      reads this
    {
      status
    }

    function GetResponse(): Val
      reads this
    {
      body
    }

    function GetHeader(name: string): Val
      reads this
    {
      View().GetHeader(name)
    }

    function ShouldExit(): bool
      reads this
    {
      exiting
    }
  }
}
