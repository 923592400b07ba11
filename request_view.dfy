/**
 * `RuleOptions`: the read-only view of one request that a rule sees,
 * bundled with the response the rule writes to (src/rule.js, lines 5-33).
 */
module RequestView {
  import opened Wrappers
  import opened ResponseSink

  /**
   * The parts of the Express request that the view reads. Header lookup
   * (`req.get`) and the parsed body are taken as plain maps; `verb` is
   * `req.method` (`method` is a keyword here).
   */
  datatype Request = Request(
    originalUrl: string,
    verb: string,
    headers: map<string, string>,
    body: map<string, string>)

  /** `s.split(sep)` of JavaScript for a one-character separator. */
  function Split(s: string, sep: char): (parts: seq<string>)
    ensures |parts| >= 1
    ensures forall i :: 0 <= i < |parts| ==> sep !in parts[i]
    decreases |s|
  {
    if s == [] then [""]
    else
      var rest := Split(s[1..], sep);
      if s[0] == sep then [""] + rest
      else [[s[0]] + rest[0]] + rest[1..]
  }

  /** `parts.join(sep)`, the inverse of `Split`. */
  function Join(parts: seq<string>, sep: char): string
    requires |parts| >= 1
  {
    if |parts| == 1 then parts[0] else parts[0] + [sep] + Join(parts[1..], sep)
  }

  /** Splitting loses nothing: joining the parts gives the input back. */
  lemma {:induction false} JoinSplit(s: string, sep: char)
    ensures Join(Split(s, sep), sep) == s
    decreases |s|
  {
    if s != [] {
      var rest := Split(s[1..], sep);
      JoinSplit(s[1..], sep);
      if s[0] == sep {
        assert ([""] + rest)[1..] == rest;
      } else {
        var parts := [[s[0]] + rest[0]] + rest[1..];
        if |rest| > 1 {
          assert parts[1..] == rest[1..];
          assert Join(rest, sep) == rest[0] + [sep] + Join(rest[1..], sep);
        }
      }
    }
  }

  /** `parts.filter(part => part.length > 0)`. */
  function NonEmpty(parts: seq<string>): (r: seq<string>)
    ensures forall i :: 0 <= i < |r| ==> r[i] != [] && r[i] in parts
    ensures forall p :: p in parts && p != [] ==> p in r
  {
    if parts == [] then []
    else (if parts[0] != [] then [parts[0]] else []) + NonEmpty(parts[1..])
  }

  /** The filter keeps the order and the repetitions of the parts: it distributes over `+`. */
  lemma {:induction false} NonEmptyConcat(a: seq<string>, b: seq<string>)
    ensures NonEmpty(a + b) == NonEmpty(a) + NonEmpty(b)
  {
    if a == [] {
      assert a + b == b;
    } else {
      assert (a + b)[0] == a[0];
      assert (a + b)[1..] == a[1..] + b;
      NonEmptyConcat(a[1..], b);
    }
  }

  predicate AllEmpty(parts: seq<string>) {
    forall i :: 0 <= i < |parts| ==> parts[i] == []
  }

  /** Parts that are all empty leave nothing behind. */
  lemma {:induction false} NonEmptyOfEmpties(parts: seq<string>)
    requires AllEmpty(parts)
    ensures NonEmpty(parts) == []
  {
    if parts != [] {
      NonEmptyOfEmpties(parts[1..]);
    }
  }

  /** The non-empty `/`-separated segments of a path. */
  function Segments(path: string): (segs: seq<string>)
    ensures forall i :: 0 <= i < |segs| ==> segs[i] != [] && '/' !in segs[i]
    ensures forall i :: 0 <= i < |segs| ==> segs[i] in Split(path, '/')
    ensures forall p :: p in Split(path, '/') && p != [] ==> p in segs
  {
    var parts := Split(path, '/');
    assert forall i :: 0 <= i < |NonEmpty(parts)| ==> '/' !in NonEmpty(parts)[i] by {
      forall i | 0 <= i < |NonEmpty(parts)|
        ensures '/' !in NonEmpty(parts)[i]
      {
        var k :| 0 <= k < |parts| && parts[k] == NonEmpty(parts)[i];
      }
    }
    NonEmpty(parts)
  }

  /** The element at index `k`, or `undefined` past the end. */
  function Element(segs: seq<string>, k: nat): Option<string> {
    if k < |segs| then Some(segs[k]) else None
  }

  /** The path `/s0/s1/...` made of the given segments. */
  function Path(segs: seq<string>): string {
    if segs == [] then "" else "/" + segs[0] + Path(segs[1..])
  }

  predicate IsSegment(s: string) {
    s != [] && '/' !in s
  }

  lemma {:induction false} SplitSegment(x: string, t: string)
    requires '/' !in x
    ensures Split(x + t, '/') == [x + Split(t, '/')[0]] + Split(t, '/')[1..]
    decreases |x|
  {
    if x == [] {
      var parts := Split(t, '/');
      assert x + t == t && x + parts[0] == parts[0];
      assert parts == [parts[0]] + parts[1..];
    } else {
      assert (x + t)[1..] == x[1..] + t;
      SplitSegment(x[1..], t);
      assert [x[0]] + (x[1..] + Split(t, '/')[0]) == x + Split(t, '/')[0];
    }
  }

  lemma {:induction false} SplitPath(segs: seq<string>)
    requires forall i :: 0 <= i < |segs| ==> IsSegment(segs[i])
    ensures Split(Path(segs), '/') == [""] + segs
  {
    if segs != [] {
      var x, tail := segs[0], Path(segs[1..]);
      SplitPath(segs[1..]);
      assert Path(segs) == "/" + (x + tail);
      assert ("/" + (x + tail))[1..] == x + tail;
      SplitSegment(x, tail);
      assert x + "" == x;
    }
  }

  lemma {:induction false} NonEmptyKeepsSegments(segs: seq<string>)
    requires forall i :: 0 <= i < |segs| ==> segs[i] != []
    ensures NonEmpty(segs) == segs
  {
    if segs != [] {
      NonEmptyKeepsSegments(segs[1..]);
    }
  }

  /** Round trip: the segments of `/s0/s1/...` are exactly s0, s1, ... */
  lemma SegmentsOfPath(segs: seq<string>)
    requires forall i :: 0 <= i < |segs| ==> IsSegment(segs[i])
    ensures Segments(Path(segs)) == segs
  {
    SplitPath(segs);
    NonEmptyKeepsSegments(segs);
    assert ([""] + segs)[1..] == segs;
  }

  /** Empty parts, then a non-empty `x`: the filter starts with `x`. */
  lemma NonEmptyFirst(e0: seq<string>, x: string, rest: seq<string>)
    requires AllEmpty(e0) && x != []
    ensures NonEmpty(e0 + [x] + rest) == [x] + NonEmpty(rest)
  {
    var a := e0 + [x];
    NonEmptyConcat(a, rest);
    NonEmptyConcat(e0, [x]);
    NonEmptyOfEmpties(e0);
    NonEmptySingle(x);
    assert NonEmpty(a) == [x];
  }

  lemma NonEmptySingle(x: string)
    requires x != []
    ensures NonEmpty([x]) == [x]
  {
    assert [x][1..] == [];
  }

  /**
   * Whatever empty parts come first (a leading '/', doubled slashes), the
   * segments of a path start with the split's first non-empty part.
   */
  lemma SegmentsOfParts(path: string, e0: seq<string>, x: string, rest: seq<string>)
    requires Split(path, '/') == e0 + [x] + rest
    requires AllEmpty(e0) && x != []
    ensures Segments(path) == [x] + NonEmpty(rest)
  {
    NonEmptyFirst(e0, x, rest);
  }

  /** The request view together with the response it is paired with. */
  datatype RuleOptions = RuleOptions(req: Request, response: Response) {

    /** The original URL, query string included, as received. */
    function Pathname(): string {
      req.originalUrl
    }

    /** The first non-empty segment of the path. */
    function Resource(): (r: Option<string>)
      ensures r.Some? <==> |Segments(Pathname())| >= 1
      ensures r.Some? ==> IsSegment(r.value)
    {
      Element(Segments(Pathname()), 0)
    }

    /** The second non-empty segment of the path. */
    function Id(): (r: Option<string>)
      ensures r.Some? <==> |Segments(Pathname())| >= 2
      ensures r.Some? ==> IsSegment(r.value) && Resource().Some?
    {
      Element(Segments(Pathname()), 1)
    }

    function Method(): string {
      req.verb
    }

    /** `req.body[name]`: the named field of the parsed body, if any. */
    function Payload(name: string): (r: Option<string>)
      ensures r.Some? <==> name in req.body
      ensures r.Some? ==> r.value == req.body[name]
    {
      if name in req.body then Some(req.body[name]) else None
    }

    /** `req.get(name)`: the named header, if any. */
    function Header(name: string): (r: Option<string>)
      ensures r.Some? <==> name in req.headers
      ensures r.Some? ==> r.value == req.headers[name]
    {
      if name in req.headers then Some(req.headers[name]) else None
    }
  }

  /** On the path `/s0/s1/...`, `resource()` is s0 and `id()` is s1, when present. */
  lemma ResourceAndIdOfPath(opts: RuleOptions, segs: seq<string>)
    requires forall i :: 0 <= i < |segs| ==> IsSegment(segs[i])
    requires opts.Pathname() == Path(segs)
    ensures opts.Resource() == Element(segs, 0)
    ensures opts.Id() == Element(segs, 1)
  {
    SegmentsOfPath(segs);
  }

  /**
   * For any path: `resource()` is the first non-empty part of `split('/')`
   * and `id()` the second, whatever empty parts come before or between them.
   */
  lemma ResourceAndIdOfParts(opts: RuleOptions, e0: seq<string>, x: string, e1: seq<string>, y: string, rest: seq<string>)
    requires Split(opts.Pathname(), '/') == e0 + [x] + e1 + [y] + rest
    requires AllEmpty(e0) && AllEmpty(e1) && x != [] && y != []
    ensures opts.Resource() == Some(x)
    ensures opts.Id() == Some(y)
  {
    assert e0 + [x] + e1 + [y] + rest == e0 + [x] + (e1 + [y] + rest);
    SegmentsOfParts(opts.Pathname(), e0, x, e1 + [y] + rest);
    NonEmptyFirst(e1, y, rest);
  }

  /** A path with one non-empty part has that part as `resource()` and no `id()`. */
  lemma ResourceWithoutId(opts: RuleOptions, e0: seq<string>, x: string, e1: seq<string>)
    requires Split(opts.Pathname(), '/') == e0 + [x] + e1
    requires AllEmpty(e0) && AllEmpty(e1) && x != []
    ensures opts.Resource() == Some(x)
    ensures opts.Id() == None
  {
    SegmentsOfParts(opts.Pathname(), e0, x, e1);
    NonEmptyOfEmpties(e1);
  }

  /** A path without a non-empty part (such as "/" or "") has neither `resource()` nor `id()`. */
  lemma NoResource(opts: RuleOptions)
    requires AllEmpty(Split(opts.Pathname(), '/'))
    ensures opts.Resource() == None && opts.Id() == None
  {
    NonEmptyOfEmpties(Split(opts.Pathname(), '/'));
  }
}
