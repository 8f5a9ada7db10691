/** The recover / access-log chain around a handler, and the status recorder they share. */
module Middleware {
  import opened Prelude

  const STATUS_OK := 200
  const INTERNAL_SERVER_ERROR := 500

  // Codes net/http accepts, and among them the final ones: informational codes (section 15.2 of
  // RFC 9110) other than 101 do not answer the request.
  predicate ValidCode(code: int) {
    100 <= code <= 999
  }

  predicate FinalCode(code: int) {
    ValidCode(code) && (code >= 200 || code == 101)
  }

  /** The server's ResponseWriter. */
  class Wire {
    var status: Option<int>     // the final status, once committed
    var headerCalls: nat        // WriteHeader calls that reached it

    constructor ()
      ensures status == None && headerCalls == 0
    {
      status, headerCalls := None, 0;
    }

    // Panics on an invalid code unless the header is out already.
    method WriteHeader(code: int) returns (panicked: bool)
      modifies this
      ensures headerCalls == old(headerCalls) + 1
      ensures panicked <==> old(status).None? && !(100 <= code <= 999)
      ensures status ==
        if old(status).None? && (code == 101 || 200 <= code <= 999) then Some(code) else old(status)
    {
      headerCalls := headerCalls + 1;
      panicked := false;
      if status.None? {
        if !ValidCode(code) { return true; }
        if FinalCode(code) { status := Some(code); }
      }
    }

    // The first body byte, or the end of the request, commits an implicit 200.
    method CommitImplicitly()
      modifies this`status
      ensures status == if old(status).None? then Some(200) else old(status)
    {
      if status.None? { status := Some(STATUS_OK); }
    }
  }

  class StatusRecorder {
    const wire: Wire
    var status: int
    var wroteHeader: bool

    constructor (wire: Wire)
      ensures this.wire == wire && !wroteHeader && status == 0
    {
      this.wire, status, wroteHeader := wire, 0, false;
    }

    method WriteHeader(code: int) returns (panicked: bool)
      modifies this, wire
      ensures wroteHeader && status == if old(wroteHeader) then old(status) else code
      ensures wire.headerCalls == old(wire.headerCalls) + (if old(wroteHeader) then 0 else 1)
      ensures panicked <==> !old(wroteHeader) && old(wire.status).None? && !(100 <= code <= 999)
      ensures wire.status ==
        if !old(wroteHeader) && old(wire.status).None? && (code == 101 || 200 <= code <= 999)
        then Some(code) else old(wire.status)
    {
      if wroteHeader { return false; }
      status := code;
      wroteHeader := true;
      panicked := wire.WriteHeader(code);
    }

    method Write()
      modifies this, wire
      ensures wroteHeader && status == if old(wroteHeader) then old(status) else 200
      ensures wire.headerCalls == old(wire.headerCalls)
      ensures wire.status == if old(wire.status).None? then Some(200) else old(wire.status)
    {
      if !wroteHeader {
        status := STATUS_OK;
        wroteHeader := true;
      }
      wire.CommitImplicitly();
    }
  }

  // What a handler does to the response, in order, and how it ends.
  datatype Call = Header(code: int) | Body

  datatype Handler = Handler(calls: seq<Call>, panics: bool)

  // The handler's first call, which decides the recorded status, is one net/http turns into a
  // final status.
  predicate StartsFinal(h: Handler) {
    h.calls == [] || h.calls[0].Body? || h.calls[0].code == 101 || 200 <= h.calls[0].code <= 999
  }

  // The status recorded by a handler that made at least one call.
  function Recorded(h: Handler): int
    requires h.calls != []
  {
    if h.calls[0].Header? then h.calls[0].code else 200
  }

  // Run the handler on the recorder; an invalid first code panics inside it.
  method RunHandler(rec: StatusRecorder, h: Handler) returns (panicked: bool)
    requires !rec.wroteHeader && rec.wire.status.None? && rec.wire.headerCalls == 0
    modifies rec, rec.wire
    ensures rec.wroteHeader <==> h.calls != []
    ensures h.calls != [] ==> rec.status == Recorded(h)
    ensures rec.wire.headerCalls <= 1 && (h.calls == [] ==> rec.wire.headerCalls == 0 && rec.wire.status.None?)
    ensures h.calls != [] && StartsFinal(h) ==> rec.wire.status == Some(Recorded(h)) && panicked == h.panics
    ensures !StartsFinal(h) ==> rec.wire.status in {None, Some(200)}
    ensures h.calls == [] ==> panicked == h.panics
    ensures h.panics || (h.calls != [] && h.calls[0].Header? && !(100 <= h.calls[0].code <= 999)) ==> panicked
  {
    panicked := false;
    for i := 0 to |h.calls|
      invariant rec.wroteHeader <==> i > 0
      invariant i > 0 && h.calls[0].Header? ==> 100 <= h.calls[0].code <= 999
      invariant i == 0 ==> rec.wire.status.None? && rec.wire.headerCalls == 0
      invariant i > 0 ==> rec.status == Recorded(h) && rec.wire.headerCalls == (if h.calls[0].Header? then 1 else 0)
      invariant i > 0 && StartsFinal(h) ==> rec.wire.status == Some(Recorded(h))
      invariant !StartsFinal(h) ==> rec.wire.status in {None, Some(200)}
    {
      match h.calls[i] {
        case Header(code) =>
          panicked := rec.WriteHeader(code);
          if panicked { return true; }
        case Body => rec.Write();
      }
    }
    panicked := h.panics;
  }

  /** One request through recover, access log and handler, up to the server closing the response.
      Exactly one access line; at most one WriteHeader reaches the wire; the response is always
      committed; the line carries the status the client sees exactly when the handler's first call
      is not an informational or invalid code; and the 500 envelope is written exactly when the
      handler panicked before any call. */
  method Serve(wire: Wire, h: Handler) returns (access: seq<int>, panicLines: nat, envelope: bool)
    requires wire.status.None? && wire.headerCalls == 0
    modifies wire
    ensures |access| == 1 && wire.status.Some? && wire.headerCalls <= 1
    ensures access[0] == wire.status.value <==> StartsFinal(h)
    ensures envelope <==> h.panics && h.calls == []
    ensures envelope ==> wire.status == Some(500) && access[0] == 500
    ensures StartsFinal(h) && h.calls != [] ==> wire.status == Some(Recorded(h))
    ensures h.calls == [] && !h.panics ==> wire.status == Some(200)
    ensures panicLines <= 1 && (StartsFinal(h) ==> panicLines == if h.panics then 1 else 0)
  {
    var rec := new StatusRecorder(wire);
    var panicked := RunHandler(rec, h);

    // accessLogMiddleware, deferred
    var status := if rec.wroteHeader then rec.status else 0;
    if status == 0 { status := if panicked then INTERNAL_SERVER_ERROR else STATUS_OK; }
    access := [status];

    // recoverMiddleware, deferred
    panicLines, envelope := 0, false;
    if panicked {
      panicLines := 1;
      if !rec.wroteHeader {
        envelope := true;
        var _ := rec.WriteHeader(INTERNAL_SERVER_ERROR);
        rec.Write();
      }
    }

    // the server, when the handler chain has returned
    wire.CommitImplicitly();
  }

  /** Early hints show the gap: an informational first status is what gets logged, while the client
      is answered 200. */
  method EarlyHints(wire: Wire) returns (logged: int)
    requires wire.status.None? && wire.headerCalls == 0
    modifies wire
    ensures wire.status.Some? && logged != wire.status.value
  {
    var access, _, _ := Serve(wire, Handler([Header(103), Body], false));
    logged := access[0];
    assert !StartsFinal(Handler([Header(103), Body], false));
  }
}
