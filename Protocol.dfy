/** IPIProtocol (ase/calculators/ipi.py:16-182): the i-PI message layer over
    one connected socket. Each method is tied to the pure stream reader of
    module Wire or Messages that says what it reads, and to the bytes it
    writes. */
module Protocol {
  import opened Wrappers
  import opened Wire
  import opened Messages
  import opened Sockets

  /** b''.join(chunks) */
  function Join(chunks: seq<seq<Byte>>): (b: seq<Byte>) {
    if chunks == [] then [] else Join(chunks[..|chunks| - 1]) + chunks[|chunks| - 1]
  }

  lemma JoinAppend(chunks: seq<seq<Byte>>, c: seq<Byte>)
    ensures Join(chunks + [c]) == Join(chunks) + c
  {
    assert (chunks + [c])[..|chunks|] == chunks;
  }

  // Associativity of appends. These model nothing of the source; they
  // regroup a run of writes so the methods below stay cheap to verify.

  /** Five writes in a row append their bytes right-nested. */
  lemma Append5(o: seq<Byte>, a: seq<Byte>, b: seq<Byte>, c: seq<Byte>, d: seq<Byte>, e: seq<Byte>)
    ensures o + a + b + c + d + e == o + (a + (b + (c + (d + e))))
  {
  }

  lemma Append2(o: seq<Byte>, a: seq<Byte>, b: seq<Byte>)
    ensures o + a + b == o + (a + b)
  {
  }

  lemma Append3(o: seq<Byte>, a: seq<Byte>, b: seq<Byte>, c: seq<Byte>)
    ensures o + a + b + c == o + (a + b + c)
  {
  }

  lemma Append4(o: seq<Byte>, a: seq<Byte>, b: seq<Byte>, c: seq<Byte>, d: seq<Byte>)
    ensures o + a + b + c + d == o + (a + (b + (c + d)))
  {
  }

  /** What IPIProtocol.calculate returns: the extra bytes appear only when
      there are some. */
  datatype CalcResult = CalcResult(energy: F64, forces: seq<F64>, virial: seq<F64>, morebytes: Option<seq<Byte>>)

  /** The 'morebytes' entry of calculate's result, as evidently intended:
      present exactly when the client sent extra bytes. */
  function MorebytesEntry(morebytes: seq<Byte>): (r: Option<seq<Byte>>)
    ensures r.Some? <==> |morebytes| > 0
    ensures r.Some? ==> r.value == morebytes
  {
    if |morebytes| > 0 then Some(morebytes) else None
  }

  /** `if morebytes:` as written, on the int8 array recv returns: an empty
      array is false, a one-element array is its element, and a longer array
      has no truth value (ValueError). */
  function MorebytesEntryAsWritten(morebytes: seq<Byte>): (r: Result<Option<seq<Byte>>, IpiError>)
    ensures r.Err? <==> |morebytes| > 1
    ensures r.Err? ==> r.error == AmbiguousTruth
    ensures r.Ok? ==> (r.value.Some? <==> |morebytes| == 1 && morebytes[0] != 0)
    ensures r.Ok? && r.value.Some? ==> r.value.value == morebytes
  {
    if |morebytes| == 0 then Ok(None)
    else if |morebytes| == 1 then Ok(if morebytes[0] != 0 then Some(morebytes) else None)
    else Err(AmbiguousTruth)
  }

  /** The two inputs on which the written test and the intended one part:
      two extra bytes raise, a single zero byte is dropped. */
  lemma MorebytesAsWrittenDiffers()
    ensures MorebytesEntryAsWritten([1, 2]) == Err(AmbiguousTruth)
    ensures MorebytesEntry([1, 2]) == Some([1, 2])
    ensures MorebytesEntryAsWritten([0]) == Ok(None)
    ensures MorebytesEntry([0]) == Some([0])
  {
  }

  /** What the server reads during one calculate: the first STATUS reply
      (not checked), the size asserts of sendposdata, then the rest. */
  function ServerExchange(s: seq<Byte>, g: Geometry): (r: Result<(CalcResult, seq<Byte>), IpiError>)
    ensures |s| < TokenLength ==> r == Err(SocketClosed)
    ensures !PosShapesOk(g) && |s| >= TokenLength && ReadToken(s).Ok? ==> r == Err(BadShape)
    ensures r.Ok? ==> PosShapesOk(g) && |r.value.1| <= |s| - 2 * TokenLength
  {
    var first :- ReadToken(s);
    if !PosShapesOk(g) then Err(BadShape) else ExchangeAfterPosData(first.1)
  }

  /** After POSDATA: a reply that must be HAVEDATA, then the FORCEREADY reply. */
  function ExchangeAfterPosData(s: seq<Byte>): (r: Result<(CalcResult, seq<Byte>), IpiError>)
    ensures r.Ok? ==> ReadToken(s).Ok? && ReadToken(s).value.0 == "HAVEDATA"
    ensures ReadToken(s).Ok? && ReadToken(s).value.0 != "HAVEDATA" ==> r == Err(UnexpectedReply("HAVEDATA", ReadToken(s).value.0))
    ensures r.Ok? ==> |r.value.1| <= |s| - TokenLength
  {
    var second :- ReadToken(s);
    if second.0 != "HAVEDATA" then Err(UnexpectedReply("HAVEDATA", second.0))
    else
      var f :- ReadForceReply(second.1);
      Ok((CalcResult(f.0.energy, f.0.forces, f.0.virial, MorebytesEntry(f.0.morebytes)), f.1))
  }

  /** Everything the server sends in one calculate. */
  function CalcRequests(g: Geometry): seq<Byte> {
    EncodeToken("STATUS") + PosDataMessage(g) + (EncodeToken("STATUS") + EncodeToken("GETFORCE"))
  }

  /** What the server has sent by the time one calculate returns, given what
      the client replies: it stops at the first failure. */
  function ServerSent(s: seq<Byte>, g: Geometry): (sent: seq<Byte>)
    ensures EncodeToken("STATUS") <= sent && sent <= CalcRequests(g)
  {
    match ReadToken(s)
    case Err(_) => EncodeToken("STATUS")
    case Ok(first) =>
      if !PosShapesOk(g) then EncodeToken("STATUS")
      else EncodeToken("STATUS") + PosDataMessage(g) + SentAfterPosData(first.1)
  }

  function SentAfterPosData(s: seq<Byte>): (sent: seq<Byte>)
    ensures EncodeToken("STATUS") <= sent && sent <= EncodeToken("STATUS") + EncodeToken("GETFORCE")
  {
    match ReadToken(s)
    case Err(_) => EncodeToken("STATUS")
    case Ok(second) =>
      if second.0 != "HAVEDATA" then EncodeToken("STATUS")
      else EncodeToken("STATUS") + EncodeToken("GETFORCE")
  }

  /** A calculate that succeeds has sent the whole request sequence. */
  lemma SuccessSendsAllRequests(s: seq<Byte>, g: Geometry)
    requires ServerExchange(s, g).Ok?
    ensures ServerSent(s, g) == CalcRequests(g)
  {
    var first := ReadToken(s);
    assert first.Ok? && PosShapesOk(g);
    assert ExchangeAfterPosData(first.value.1).Ok?;
  }

  class IPIProtocol {
    const socket: Socket

    constructor (socket: Socket)
      ensures this.socket == socket
    {
      this.socket := socket;
    }

    /** sendmsg */
    method SendMsg(msg: string)
      requires IsAscii(msg) && !socket.closed
      modifies socket`outgoing
      ensures socket.outgoing == old(socket.outgoing) + EncodeToken(msg)
    {
      socket.SendAll(EncodeToken(msg));
    }

    /** _recvall: read chunks of whatever size the socket delivers until
        nbytes have arrived; the result is the chunks joined in arrival
        order, which is the first nbytes of the stream. */
    method RecvAll(nbytes: nat) returns (r: Result<seq<Byte>, IpiError>)
      requires !socket.closed
      modifies socket`incoming
      ensures WithRest(r, socket.incoming) == ReadBytes(old(socket.incoming), nbytes)
      ensures r.Err? ==> socket.incoming == []
    {
      var remaining: int := nbytes;
      var chunks: seq<seq<Byte>> := [];
      while remaining > 0
        invariant 0 <= remaining <= nbytes
        invariant |Join(chunks)| == nbytes - remaining
        invariant old(socket.incoming) == Join(chunks) + socket.incoming
      {
        var chunk := socket.Recv(remaining);
        if |chunk| == 0 {
          return Err(SocketClosed);
        }
        JoinAppend(chunks, chunk);
        chunks := chunks + [chunk];
        remaining := remaining - |chunk|;
      }
      var msg := Join(chunks);
      assert |msg| == nbytes && remaining == 0;
      return Ok(msg);
    }

    /** recvmsg */
    method RecvMsg() returns (r: Result<string, IpiError>)
      requires !socket.closed
      modifies socket`incoming
      ensures WithRest(r, socket.incoming) == ReadToken(old(socket.incoming))
    {
      var msg :- RecvAll(TokenLength);
      assert |msg| == TokenLength;
      r := DecodeToken(msg);
    }

    /** send(a, dtype) */
    method Send(a: Elements)
      requires !socket.closed
      modifies socket`outgoing
      ensures socket.outgoing == old(socket.outgoing) + Encode(a)
    {
      socket.SendAll(Encode(a));
    }

    /** recv(shape, dtype) */
    method Recv(shape: seq<int>, dtype: DType) returns (r: Result<Elements, IpiError>)
      requires !socket.closed
      modifies socket`incoming
      ensures WithRest(r, socket.incoming) == ReadArray(old(socket.incoming), shape, dtype)
    {
      if !NonNegative(shape) {
        return Err(NegativeDimension);
      }
      var nbytes := ItemSize(dtype) * Product(shape);
      var buf :- RecvAll(nbytes);
      assert |buf| == nbytes;
      var a := Decode(dtype, buf);
      if !a.AllFinite() {
        return Err(NonFinite);
      }
      return Ok(a);
    }

    method RecvFloats(shape: seq<int>) returns (r: Result<seq<F64>, IpiError>)
      requires !socket.closed
      modifies socket`incoming
      ensures WithRest(r, socket.incoming) == ReadFloats(old(socket.incoming), shape)
    {
      var a :- Recv(shape, Float64);
      return Ok(a.fs);
    }

    method RecvInt32() returns (r: Result<int, IpiError>)
      requires !socket.closed
      modifies socket`incoming
      ensures WithRest(r, socket.incoming) == ReadInt32(old(socket.incoming))
    {
      var a :- Recv([1], Int32);
      return Ok(a.ns[0]);
    }

    /** sendposdata */
    method SendPosData(g: Geometry) returns (r: Result<(), IpiError>)
      requires !socket.closed
      modifies socket`outgoing
      ensures r.Ok? <==> PosShapesOk(g)
      ensures r.Err? ==> r.error == BadShape
      ensures socket.outgoing == old(socket.outgoing) + (if r.Ok? then PosDataMessage(g) else [])
    {
      if !(|g.cell| == 9 && |g.icell| == 9 && |g.positions| % 3 == 0) {
        return Err(BadShape);
      }
      ghost var before := socket.outgoing;
      SendMsg("POSDATA");
      Send(Floats(g.cell));
      Send(Floats(g.icell));
      Send(Ints([|g.positions| / 3]));
      Send(Floats(g.positions));
      assert Encode(Ints([|g.positions| / 3])) == EncodeInt32(|g.positions| / 3);
      Append5(before, EncodeToken("POSDATA"), EncodeFloats(g.cell), EncodeFloats(g.icell),
        EncodeInt32(|g.positions| / 3), EncodeFloats(g.positions));
      return Ok(());
    }

    /** recvposdata */
    method RecvPosData() returns (r: Result<Geometry, IpiError>)
      requires !socket.closed
      modifies socket`incoming
      ensures WithRest(r, socket.incoming) == ReadPosData(old(socket.incoming))
    {
      var cell :- RecvFloats([3, 3]);
      var icell :- RecvFloats([3, 3]);
      var natoms :- RecvInt32();
      var positions :- RecvFloats([natoms, 3]);
      return Ok(Geometry(cell, icell, positions));
    }

    /** sendforce */
    method SendForce(energy: F64, forces: seq<F64>, virial: seq<F64>, morebytes: seq<Byte>) returns (r: Result<(), IpiError>)
      requires !socket.closed
      modifies socket`outgoing
      ensures r.Ok? <==> ForceShapesOk(forces, virial)
      ensures r.Err? ==> r.error == BadShape
      ensures socket.outgoing == old(socket.outgoing)
        + (if r.Ok? then ForceMessage(ForceReply(energy, forces, virial, morebytes)) else [])
    {
      if !(|forces| % 3 == 0 && |virial| == 9) {
        return Err(BadShape);
      }
      ghost var before := socket.outgoing;
      SendMsg("FORCEREADY");
      Send(Floats([energy]));
      Send(Ints([|forces| / 3]));
      ghost var head := socket.outgoing;
      Send(Floats(forces));
      Send(Floats(virial));
      Send(Ints([|morebytes|]));
      Send(Raw(morebytes));
      assert Encode(Ints([|forces| / 3])) == EncodeInt32(|forces| / 3);
      assert Encode(Ints([|morebytes|])) == EncodeInt32(|morebytes|);
      Append4(head, EncodeFloats(forces), EncodeFloats(virial), EncodeInt32(|morebytes|), morebytes);
      Append4(before, EncodeToken("FORCEREADY"), EncodeFloats([energy]), EncodeInt32(|forces| / 3),
        RowsPayload(ForceReply(energy, forces, virial, morebytes)));
      return Ok(());
    }

    /** sendrecv_force */
    method SendRecvForce() returns (r: Result<ForceReply, IpiError>)
      requires !socket.closed
      modifies socket`incoming, socket`outgoing
      ensures socket.outgoing == old(socket.outgoing) + EncodeToken("GETFORCE")
      ensures WithRest(r, socket.incoming) == ReadForceReply(old(socket.incoming))
    {
      SendMsg("GETFORCE");
      var msg :- RecvMsg();
      if msg != "FORCEREADY" {
        return Err(UnexpectedReply("FORCEREADY", msg));
      }
      r := RecvForcePayload();
    }

    /** The reads of sendrecv_force after the FORCEREADY token. */
    method RecvForcePayload() returns (r: Result<ForceReply, IpiError>)
      requires !socket.closed
      modifies socket`incoming
      ensures WithRest(r, socket.incoming) == ReadForcePayload(old(socket.incoming))
    {
      var e :- RecvFloats([1]);
      var natoms :- RecvInt32();
      if natoms < 0 {
        return Err(NegativeAtomCount);
      }
      r := RecvRows(natoms, e[0]);
    }

    /** Forces, virial and extras, as sendrecv_force reads them. */
    method RecvRows(natoms: int, energy: F64) returns (r: Result<ForceReply, IpiError>)
      requires !socket.closed
      modifies socket`incoming
      ensures WithRest(r, socket.incoming) == ReadRows(old(socket.incoming), natoms, energy)
    {
      var forces :- RecvFloats([natoms, 3]);
      var virial :- RecvFloats([3, 3]);
      var morebytes :- RecvExtras();
      return Ok(ForceReply(energy, forces, virial, morebytes));
    }

    /** The extra-byte count, then the extra bytes only when it is positive
        (receiving 0 bytes would block on Python 2). */
    method RecvExtras() returns (r: Result<seq<Byte>, IpiError>)
      requires !socket.closed
      modifies socket`incoming
      ensures WithRest(r, socket.incoming) == ReadExtras(old(socket.incoming))
    {
      var nmorebytes :- RecvInt32();
      if nmorebytes > 0 {
        var b :- Recv([nmorebytes], Int8);
        return Ok(b.bs);
      } else {
        return Ok([]);
      }
    }

    /** status */
    method Status() returns (r: Result<string, IpiError>)
      requires !socket.closed
      modifies socket`incoming, socket`outgoing
      ensures socket.outgoing == old(socket.outgoing) + EncodeToken("STATUS")
      ensures WithRest(r, socket.incoming) == ReadToken(old(socket.incoming))
    {
      SendMsg("STATUS");
      r := RecvMsg();
    }

    /** end */
    method End()
      requires !socket.closed
      modifies socket`outgoing
      ensures socket.outgoing == old(socket.outgoing) + EncodeToken("EXIT")
    {
      SendMsg("EXIT");
    }

    /** calculate: one geometry-to-forces cycle. The inverse cell is part of
        the geometry the caller supplies. */
    method Calculate(g: Geometry) returns (r: Result<CalcResult, IpiError>)
      requires !socket.closed
      modifies socket`incoming, socket`outgoing
      ensures WithRest(r, socket.incoming) == ServerExchange(old(socket.incoming), g)
      ensures socket.outgoing == old(socket.outgoing) + ServerSent(old(socket.incoming), g)
    {
      ghost var before, input := socket.outgoing, socket.incoming;
      var msg := Status();
      if msg.Err? {
        assert ReadToken(input).Err?;
        return Err(msg.error);
      }
      assert ReadToken(input) == Ok((msg.value, socket.incoming));
      var sent := SendPosData(g);
      if sent.Err? {
        return Err(sent.error);
      }
      ghost var afterPos := socket.incoming;
      assert ServerExchange(input, g) == ExchangeAfterPosData(afterPos);
      assert ServerSent(input, g) == EncodeToken("STATUS") + PosDataMessage(g) + SentAfterPosData(afterPos);
      r := Exchange();
      Append3(before, EncodeToken("STATUS"), PosDataMessage(g), SentAfterPosData(afterPos));
    }

    /** The part of calculate after the positions are sent. */
    method Exchange() returns (r: Result<CalcResult, IpiError>)
      requires !socket.closed
      modifies socket`incoming, socket`outgoing
      ensures WithRest(r, socket.incoming) == ExchangeAfterPosData(old(socket.incoming))
      ensures socket.outgoing == old(socket.outgoing) + SentAfterPosData(old(socket.incoming))
    {
      ghost var input, sent := socket.incoming, socket.outgoing;
      var msg := Status();
      if msg.Err? {
        return Err(msg.error);
      }
      assert ReadToken(input) == Ok((msg.value, socket.incoming));
      if msg.value != "HAVEDATA" {
        return Err(UnexpectedReply("HAVEDATA", msg.value));
      }
      ghost var afterStatus := socket.incoming;
      var reply := SendRecvForce();
      Append2(sent, EncodeToken("STATUS"), EncodeToken("GETFORCE"));
      if reply.Err? {
        return Err(reply.error);
      }
      assert ReadForceReply(afterStatus) == Ok((reply.value, socket.incoming));
      return Ok(CalcResult(reply.value.energy, reply.value.forces, reply.value.virial, MorebytesEntry(reply.value.morebytes)));
    }
  }
}
