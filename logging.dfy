/** The request-logging middleware's deterministic parts: the shortened
    session id it prints, and the statusWriter wrapper that captures the
    status code a handler commits while forwarding everything to the
    underlying ResponseWriter. */
module Logging {
  import opened GoStd

  const ShortIdLength: nat := 6

  /** shortID: the last six bytes of a longer id, a shorter id unchanged. */
  function ShortId(id: GoString): (r: GoString)
    ensures |r| == if |id| > ShortIdLength then ShortIdLength else |id|
    ensures r == id[|id| - |r|..]
    ensures |id| <= ShortIdLength ==> r == id
  {
    if |id| > ShortIdLength then id[|id| - ShortIdLength..] else id
  }

  /** Shortening a shortened id changes nothing. */
  lemma ShortIdIdempotent(id: GoString)
    ensures ShortId(ShortId(id)) == ShortId(id)
  {
    var r := ShortId(id);
    assert |r| <= ShortIdLength;
  }

  /** Ids that end alike shorten alike: only the last six bytes matter. */
  lemma ShortIdDependsOnTail(p1: GoString, p2: GoString, tail: GoString)
    requires |tail| == ShortIdLength
    ensures ShortId(p1 + tail) == tail && ShortId(p2 + tail) == tail
  {
    assert (p1 + tail)[|p1|..] == tail;
    assert (p2 + tail)[|p2|..] == tail;
  }

  // ---------------------------------------------------------------------------
  // statusWriter as a state machine
  // ---------------------------------------------------------------------------

  /** What the wrapper forwards to the underlying ResponseWriter. */
  datatype Event = Header(code: int) | Data(bytes: GoString)

  /** A call a handler makes on the wrapper. */
  datatype WriterCall = CallWriteHeader(code: int) | CallWrite(data: GoString)

  /** The wrapper's two fields together with everything it has forwarded. */
  datatype Capture = Capture(status: int, written: bool, forwarded: seq<Event>)

  /** The wrapper as the middleware creates it: status 200, nothing written. */
  function Initial(): Capture
  {
    Capture(StatusOK, false, [])
  }

  /** WriteHeader: the first call records and forwards the code, later calls
      do nothing. */
  function StepWriteHeader(c: Capture, code: int): (r: Capture)
    ensures r.written
    ensures c.written ==> r == c
  {
    if !c.written then Capture(code, true, c.forwarded + [Header(code)]) else c
  }

  /** Write: commits 200 when no header was written, then forwards the bytes
      unchanged. */
  function StepWrite(c: Capture, data: GoString): (r: Capture)
    ensures r.written
    ensures c.written ==> r.status == c.status
    ensures |r.forwarded| > 0 && r.forwarded[|r.forwarded| - 1] == Data(data)
  {
    var h := StepWriteHeader(c, StatusOK);
    Capture(h.status, h.written, h.forwarded + [Data(data)])
  }

  function Step(c: Capture, call: WriterCall): Capture
  {
    match call
    case CallWriteHeader(code) => StepWriteHeader(c, code)
    case CallWrite(data) => StepWrite(c, data)
  }

  /** The wrapper after a handler made `calls`, in order. */
  function Replay(calls: seq<WriterCall>): Capture
  {
    if calls == [] then Initial()
    else Step(Replay(calls[..|calls| - 1]), calls[|calls| - 1])
  }

  /** The status a handler's calls commit: the code of its first call when
      that is WriteHeader, 200 when it is Write or when there is no call. */
  function CommittedStatus(calls: seq<WriterCall>): int
  {
    if calls != [] && calls[0].CallWriteHeader? then calls[0].code else StatusOK
  }

  /** The header codes in a forwarded log, in order. */
  function Headers(log: seq<Event>): seq<int>
  {
    if log == [] then []
    else
      var last := log[|log| - 1];
      Headers(log[..|log| - 1]) + (if last.Header? then [last.code] else [])
  }

  /** The byte chunks in a forwarded log, in order. */
  function Bodies(log: seq<Event>): seq<GoString>
  {
    if log == [] then []
    else
      var last := log[|log| - 1];
      Bodies(log[..|log| - 1]) + (if last.Data? then [last.bytes] else [])
  }

  /** The byte chunks a handler's calls write, in order. */
  function Writes(calls: seq<WriterCall>): seq<GoString>
  {
    if calls == [] then []
    else
      var last := calls[|calls| - 1];
      Writes(calls[..|calls| - 1]) + (if last.CallWrite? then [last.data] else [])
  }

  /** The wrapper's invariant: before anything is written the status is 200
      and nothing was forwarded; afterwards exactly one header was forwarded,
      first, and it is the recorded status. */
  predicate Coherent(c: Capture)
  {
    && (!c.written ==> c.status == StatusOK && c.forwarded == [])
    && (c.written ==>
          |c.forwarded| > 0 && c.forwarded[0] == Header(c.status) &&
          Headers(c.forwarded) == [c.status])
  }

  lemma HeadersAppendData(log: seq<Event>, data: GoString)
    ensures Headers(log + [Data(data)]) == Headers(log)
    ensures Bodies(log + [Data(data)]) == Bodies(log) + [data]
  {
    assert (log + [Data(data)])[..|log|] == log;
  }

  lemma HeadersAppendHeader(log: seq<Event>, code: int)
    ensures Headers(log + [Header(code)]) == Headers(log) + [code]
    ensures Bodies(log + [Header(code)]) == Bodies(log)
  {
    assert (log + [Header(code)])[..|log|] == log;
  }

  /** Every operation keeps the invariant. */
  lemma StepKeepsCoherent(c: Capture, call: WriterCall)
    requires Coherent(c)
    ensures Coherent(Step(c, call))
  {
    match call
    case CallWriteHeader(code) =>
      if !c.written {
        HeadersAppendHeader([], code);
      }
    case CallWrite(data) =>
      var h := StepWriteHeader(c, StatusOK);
      if !c.written {
        HeadersAppendHeader([], StatusOK);
      }
      HeadersAppendData(h.forwarded, data);
  }

  /** One call's effect on the recorded status, the headers and the bodies
      forwarded so far. */
  lemma StepEffect(c: Capture, call: WriterCall)
    requires Coherent(c)
    ensures Step(c, call).written
    ensures Step(c, call).status ==
      if c.written then c.status
      else if call.CallWriteHeader? then call.code else StatusOK
    ensures Headers(Step(c, call).forwarded) == [Step(c, call).status]
    ensures Bodies(Step(c, call).forwarded) ==
      Bodies(c.forwarded) + (if call.CallWrite? then [call.data] else [])
  {
    match call
    case CallWriteHeader(code) =>
      if !c.written {
        HeadersAppendHeader(c.forwarded, code);
      }
    case CallWrite(data) =>
      var h := StepWriteHeader(c, StatusOK);
      if !c.written {
        HeadersAppendHeader(c.forwarded, StatusOK);
      }
      HeadersAppendData(h.forwarded, data);
  }

  /** What a handler's calls leave behind: the first call alone decides the
      status, something was written exactly when a call was made, at most
      one header reaches the underlying writer and it is that status, and
      every written chunk reaches it unchanged and in order. */
  lemma {:induction false} ReplayCommitsFirst(calls: seq<WriterCall>)
    ensures Coherent(Replay(calls))
    ensures Replay(calls).status == CommittedStatus(calls)
    ensures Replay(calls).written <==> calls != []
    ensures Headers(Replay(calls).forwarded) ==
      if calls == [] then [] else [CommittedStatus(calls)]
    ensures Bodies(Replay(calls).forwarded) == Writes(calls)
  {
    if calls != [] {
      var prefix := calls[..|calls| - 1];
      var last := calls[|calls| - 1];
      ReplayCommitsFirst(prefix);
      StepKeepsCoherent(Replay(prefix), last);
      StepEffect(Replay(prefix), last);
      if prefix != [] {
        assert calls[0] == prefix[0];
      }
    }
  }

  /** Once something is written, WriteHeader changes nothing, and Write
      leaves the status as it was. */
  lemma CommittedStatusIsFinal(calls: seq<WriterCall>, more: seq<WriterCall>)
    requires calls != []
    ensures Replay(calls + more).status == Replay(calls).status
  {
    ReplayCommitsFirst(calls);
    ReplayCommitsFirst(calls + more);
    assert (calls + more)[0] == calls[0];
  }

  /** The wrapper itself, updated in place. The forwarded log is ghost: it
      stands for the calls made on the underlying ResponseWriter. */
  class StatusWriter {
    var status: int
    var written: bool
    ghost var forwarded: seq<Event>

    ghost function State(): Capture
      reads this
    {
      Capture(status, written, forwarded)
    }

    ghost predicate Valid()
      reads this
    {
      Coherent(State())
    }

    /** The wrapper as the middleware builds it. */
    constructor ()
      ensures State() == Initial()
      ensures Valid()
    {
      status := StatusOK;
      written := false;
      forwarded := [];
    }

    method WriteHeader(code: int)
      requires Valid()
      modifies this
      ensures State() == StepWriteHeader(old(State()), code)
      ensures Valid()
    {
      StepKeepsCoherent(State(), CallWriteHeader(code));
      if !written {
        status := code;
        written := true;
        forwarded := forwarded + [Header(code)];
      }
    }

    method Write(b: GoString)
      requires Valid()
      modifies this
      ensures State() == StepWrite(old(State()), b)
      ensures Valid()
    {
      StepKeepsCoherent(State(), CallWrite(b));
      if !written {
        WriteHeader(StatusOK);
      }
      forwarded := forwarded + [Data(b)];
    }
  }

  /** loggingHTTPMiddleware around a handler that makes `calls` on the
      writer it is given: the status it logs. */
  method Middleware(calls: seq<WriterCall>) returns (logged: int)
    ensures logged == CommittedStatus(calls)
  {
    var sw := new StatusWriter();
    for i := 0 to |calls|
      invariant sw.Valid()
      invariant sw.State() == Replay(calls[..i])
    {
      assert calls[..i + 1][..i] == calls[..i];
      match calls[i] {
        case CallWriteHeader(code) => sw.WriteHeader(code);
        case CallWrite(data) => sw.Write(data);
      }
    }
    assert calls[..|calls|] == calls;
    ReplayCommitsFirst(calls);
    logged := sw.status;
  }
}
