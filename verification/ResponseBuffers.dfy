/** pkg/httpkit/middleware.go, recoveryWriter and Recovery: a response is buffered so
    that a panic can still become a clean 500, and streamed once that is impossible. */
module ResponseBuffers {
  import opened Common

  const BUFFER_LIMIT := 65536
  const STATUS_OK := 200
  const STATUS_INTERNAL_SERVER_ERROR := 500

  type Byte = b: int | 0 <= b < 256

  /** What has been delivered to the client: the status line, once sent, and the body. */
  datatype Response = Response(status: Option<int>, body: seq<Byte>)

  const NOTHING := Response(None, [])

  /** What a handler does with its writer. */
  datatype Op = WriteHeader(status: int) | Write(bytes: seq<Byte>) | Flush

  /** A writer that buffers nothing and whose destination never fails: the first final
      status wins, and writing or flushing sends 200 if none was set. */
  function Direct(r: Response, op: Op): Response {
    match op
    case WriteHeader(status) => if r.status.None? then r.(status := Some(status)) else r
    case Write(bytes) => Response(Some(if r.status.None? then STATUS_OK else r.status.value), r.body + bytes)
    case Flush => r.(status := Some(if r.status.None? then STATUS_OK else r.status.value))
  }

  function DirectAll(ops: seq<Op>): Response {
    if ops == [] then NOTHING else Direct(DirectAll(ops[..|ops| - 1]), ops[|ops| - 1])
  }

  /** The connection under the handler. */
  class Destination {
    var delivered: Response

    constructor ()
      ensures delivered == NOTHING
    {
      delivered := NOTHING;
    }

    method WriteHeader(status: int)
      modifies this
      ensures delivered == Direct(old(delivered), Op.WriteHeader(status))
    {
      if delivered.status.None? {
        delivered := delivered.(status := Some(status));
      }
    }

    method Write(bytes: seq<Byte>)
      modifies this
      ensures delivered == Direct(old(delivered), Op.Write(bytes))
    {
      WriteHeader(STATUS_OK);
      delivered := delivered.(body := delivered.body + bytes);
    }

    method Flush()
      modifies this
      ensures delivered == Direct(old(delivered), Op.Flush)
    {
      WriteHeader(STATUS_OK);
    }
  }

  class RecoveryWriter {
    const destination: Destination
    var body: seq<Byte>
    var status: int
    var wroteHeader: bool
    var committed: bool
    /** What a writer without a buffer would have delivered by now. */
    ghost var direct: Response

    /** Before the commit nothing has reached the client and the buffer holds it all;
        after it the client has everything and the buffer is empty. */
    ghost predicate Valid()
      reads this, destination
    {
      && |body| <= BUFFER_LIMIT
      && (!committed ==>
            && destination.delivered == NOTHING
            && direct == Response(if wroteHeader then Some(status) else None, body)
            && (body != [] ==> wroteHeader))
      && (committed ==> body == [] && destination.delivered == direct)
    }

    constructor (destination: Destination)
      requires destination.delivered == NOTHING
      ensures Valid() && this.destination == destination && !committed && body == [] && direct == NOTHING
    {
      this.destination := destination;
      body, status, wroteHeader, committed := [], 0, false, false;
      direct := NOTHING;
    }

    method WriteHeader(status: int)
      requires Valid()
      modifies this, destination
      ensures Valid() && direct == Direct(old(direct), Op.WriteHeader(status))
      ensures committed == old(committed) && body == old(body)
    {
      direct := Direct(direct, Op.WriteHeader(status));
      if committed {
        destination.WriteHeader(status);
        return;
      }
      if wroteHeader {
        return;
      }
      wroteHeader := true;
      this.status := status;
    }

    method Commit()
      requires Valid()
      modifies this, destination
      ensures Valid() && committed && body == [] && direct == old(direct) == destination.delivered
    {
      if committed {
        return;
      }
      committed := true;
      if wroteHeader {
        destination.WriteHeader(status);
      }
      if |body| > 0 {
        destination.Write(body);
        body := [];
      }
    }

    method Write(bytes: seq<Byte>)
      requires Valid()
      modifies this, destination
      ensures Valid() && direct == Direct(old(direct), Op.Write(bytes))
      ensures committed == (old(committed) || |old(body)| + |bytes| > BUFFER_LIMIT)
      ensures !committed ==> body == old(body) + bytes
    {
      if committed {
        direct := Direct(direct, Op.Write(bytes));
        destination.Write(bytes);
        return;
      }
      ghost var wanted := Direct(direct, Op.Write(bytes));
      if !wroteHeader {
        WriteHeader(STATUS_OK);
      }
      if |bytes| <= BUFFER_LIMIT - |body| {
        body := body + bytes;
        direct := wanted;
        return;
      }
      Commit();
      destination.Write(bytes);
      direct := wanted;
    }

    method Flush()
      requires Valid()
      modifies this, destination
      ensures Valid() && committed && direct == Direct(old(direct), Op.Flush)
    {
      Commit();
      destination.Flush();
      direct := Direct(direct, Op.Flush);
    }
  }

  function BytesWritten(ops: seq<Op>): nat {
    if ops == [] then 0
    else BytesWritten(ops[..|ops| - 1]) + if ops[|ops| - 1].Write? then |ops[|ops| - 1].bytes| else 0
  }

  ghost predicate Flushes(ops: seq<Op>) {
    exists i :: 0 <= i < |ops| && ops[i].Flush?
  }

  /** The response can no longer be taken back: it was flushed, or it is over 64 KiB. */
  ghost predicate Streams(ops: seq<Op>) {
    Flushes(ops) || BytesWritten(ops) > 64 * 1024
  }

  lemma {:induction false} DirectBody(ops: seq<Op>)
    ensures |DirectAll(ops).body| == BytesWritten(ops)
  {
    if ops != [] {
      DirectBody(ops[..|ops| - 1]);
    }
  }

  lemma StreamsGrows(ops: seq<Op>, op: Op)
    ensures (ops + [op])[..|ops|] == ops
    ensures Streams(ops + [op]) <==>
              Streams(ops) || op.Flush? || (op.Write? && BytesWritten(ops) + |op.bytes| > BUFFER_LIMIT)
  {
  }

  /** How a request ended: normally, with the 500 page, or with the connection aborted. */
  datatype Ending = Completed | Recovered | Aborted

  /** The ways a handler can stop: it returns, panics, or panics with ErrAbortHandler. */
  datatype Stop = Returns | Panics | PanicsAbort

  /** Recovery around a handler that performs `ops` and then stops. A handler that
      returns has its whole response delivered. After a panic either not one byte of it
      is delivered, and the client gets `errorPage` with status 500 instead, or the
      response had already begun to stream and exactly what was written is delivered. */
  method Recovery(destination: Destination, ops: seq<Op>, stop: Stop, errorPage: seq<Byte>) returns (ending: Ending)
    requires destination.delivered == NOTHING
    modifies destination
    ensures stop.Returns? ==> ending == Completed && destination.delivered == DirectAll(ops)
    ensures stop.Panics? ==> (ending == Aborted <==> Streams(ops)) && (ending == Recovered <==> !Streams(ops))
    ensures stop.PanicsAbort? ==> ending == Aborted
    ensures !stop.Returns? && Streams(ops) ==> destination.delivered == DirectAll(ops)
    ensures stop.Panics? && !Streams(ops) ==>
              destination.delivered == Response(Some(STATUS_INTERNAL_SERVER_ERROR), errorPage)
    ensures stop.PanicsAbort? && !Streams(ops) ==> destination.delivered == NOTHING
  {
    var buffered := new RecoveryWriter(destination);
    var i := 0;
    while i < |ops|
      invariant 0 <= i <= |ops|
      invariant buffered.destination == destination && fresh(buffered) && buffered.Valid()
      invariant buffered.direct == DirectAll(ops[..i])
      invariant buffered.committed <==> Streams(ops[..i])
    {
      assert ops[..i + 1] == ops[..i] + [ops[i]];
      StreamsGrows(ops[..i], ops[i]);
      DirectBody(ops[..i]);
      match ops[i] {
        case WriteHeader(status) => buffered.WriteHeader(status);
        case Write(bytes) => buffered.Write(bytes);
        case Flush => buffered.Flush();
      }
      i := i + 1;
    }
    assert ops[..i] == ops;
    match stop {
      case Returns =>
        buffered.Commit();
        ending := Completed;
      case PanicsAbort =>
        ending := Aborted;
      case Panics =>
        if buffered.committed {
          ending := Aborted;
        } else {
          destination.WriteHeader(STATUS_INTERNAL_SERVER_ERROR);
          destination.Write(errorPage);
          ending := Recovered;
        }
    }
  }
}
