/** The two payload-carrying messages of the i-PI protocol, as laid out by
    IPIProtocol.sendposdata / recvposdata and sendforce / sendrecv_force
    (ase/calculators/ipi.py). Unit scaling by Bohr and Hartree is not part of
    this model: every float is already in the protocol's units. */
module Messages {
  import opened Wrappers
  import opened Wire

  /** A cell (3x3), its inverse (3x3) and N rows of 3 coordinates, flattened. */
  datatype Geometry = Geometry(cell: seq<F64>, icell: seq<F64>, positions: seq<F64>)

  /** The asserts at the top of sendposdata. */
  predicate PosShapesOk(g: Geometry) {
    |g.cell| == 9 && |g.icell| == 9 && |g.positions| % 3 == 0
  }

  /** A geometry the peer can read back: the right sizes, finite values and
      an atom count that fits in an int32. */
  predicate Sendable(g: Geometry) {
    PosShapesOk(g) && InInt32(|g.positions| / 3)
    && AllFinite(g.cell) && AllFinite(g.icell) && AllFinite(g.positions)
  }

  /** What sendposdata writes after the POSDATA token: cell, inverse cell,
      atom count (len of the N x 3 position array) and positions. */
  function PosDataPayload(g: Geometry): seq<Byte> {
    EncodeFloats(g.cell) + (EncodeFloats(g.icell)
      + (EncodeInt32(|g.positions| / 3) + EncodeFloats(g.positions)))
  }

  function PosDataMessage(g: Geometry): seq<Byte> {
    EncodeToken("POSDATA") + PosDataPayload(g)
  }

  /** recvposdata: a 3x3 cell, a 3x3 inverse cell, an int32 atom count and
      that many rows of 3 floats. */
  function ReadPosData(s: seq<Byte>): (r: Result<(Geometry, seq<Byte>), IpiError>)
    ensures r.Ok? ==> PosShapesOk(r.value.0) && |r.value.1| <= |s|
    ensures r.Ok? ==> AllFinite(r.value.0.cell) && AllFinite(r.value.0.icell) && AllFinite(r.value.0.positions)
  {
    var c :- ReadFloats(s, [3, 3]);
    var ic :- ReadFloats(c.1, [3, 3]);
    ReadPositions(ic.1, c.0, ic.0)
  }

  /** The second half of recvposdata: the atom count and the positions. */
  function ReadPositions(s: seq<Byte>, cell: seq<F64>, icell: seq<F64>): (r: Result<(Geometry, seq<Byte>), IpiError>)
    ensures r.Ok? ==> r.value.0.cell == cell && r.value.0.icell == icell && |r.value.1| <= |s|
    ensures r.Ok? ==> |r.value.0.positions| % 3 == 0 && AllFinite(r.value.0.positions)
  {
    var n :- ReadInt32(s);
    var p :- ReadFloats(n.1, [n.0, 3]);
    Ok((Geometry(cell, icell, p.0), p.1))
  }

  /** The client reads back exactly the geometry the server sent, and the
      stream continues right after it. */
  lemma PosDataRoundTrip(g: Geometry, rest: seq<Byte>)
    requires Sendable(g)
    ensures ReadPosData(PosDataPayload(g) + rest) == Ok((g, rest))
  {
    var natoms := |g.positions| / 3;
    var tail2 := EncodeInt32(natoms) + (EncodeFloats(g.positions) + rest);
    var tail1 := EncodeFloats(g.icell) + tail2;
    assert PosDataPayload(g) + rest == EncodeFloats(g.cell) + tail1;
    ReadFloatsOfEncoded(g.cell, [3, 3], tail1);
    ReadFloatsOfEncoded(g.icell, [3, 3], tail2);
    PositionsRoundTrip(g, rest);
  }

  /** The atom count and positions read back as sent. */
  lemma PositionsRoundTrip(g: Geometry, rest: seq<Byte>)
    requires Sendable(g)
    ensures ReadPositions(EncodeInt32(|g.positions| / 3) + (EncodeFloats(g.positions) + rest), g.cell, g.icell)
            == Ok((g, rest))
  {
    var natoms := |g.positions| / 3;
    ReadInt32OfEncoded(natoms, EncodeFloats(g.positions) + rest);
    ReadFloatsOfEncoded(g.positions, [natoms, 3], rest);
  }

  /** A stream that ends anywhere inside the POSDATA payload leaves
      recvposdata short of bytes: the socket is reported closed. */
  lemma PosDataPrefix(g: Geometry, k: nat)
    requires Sendable(g) && k < |PosDataPayload(g)|
    ensures ReadPosData(PosDataPayload(g)[..k]) == Err(SocketClosed)
  {
    var cells := EncodeFloats(g.cell);
    var icells := EncodeFloats(g.icell);
    var tail := EncodeInt32(|g.positions| / 3) + EncodeFloats(g.positions);
    var p := PosDataPayload(g);
    assert p == cells + (icells + tail);
    assert NonNegative([3, 3]) && Product([3, 3]) == 9;
    if k < 72 {
      assert ReadBytes(p[..k], 72) == Err(SocketClosed);
    } else {
      var rest1 := (icells + tail)[..k - 72];
      assert p[..k] == cells + rest1;
      ReadFloatsOfEncoded(g.cell, [3, 3], rest1);
      if k < 144 {
        assert ReadBytes(rest1, 72) == Err(SocketClosed);
      } else {
        var rest2 := tail[..k - 144];
        assert rest1 == icells + rest2;
        ReadFloatsOfEncoded(g.icell, [3, 3], rest2);
        PositionsPrefix(g, k - 144);
      }
    }
  }

  /** The same for a stream that ends inside the atom count or positions. */
  lemma PositionsPrefix(g: Geometry, k: nat)
    requires Sendable(g) && k < 4 + 8 * |g.positions|
    ensures ReadPositions((EncodeInt32(|g.positions| / 3) + EncodeFloats(g.positions))[..k], g.cell, g.icell)
            == Err(SocketClosed)
  {
    var n := |g.positions| / 3;
    var s := (EncodeInt32(n) + EncodeFloats(g.positions))[..k];
    if k < 4 {
      assert NonNegative([1]) && Product([1]) == 1;
      assert ReadBytes(s, 4) == Err(SocketClosed);
    } else {
      var tail := EncodeFloats(g.positions)[..k - 4];
      assert s == EncodeInt32(n) + tail;
      ReadInt32OfEncoded(n, tail);
      assert NonNegative([n, 3]) && Product([n, 3]) == 3 * n;
      assert ReadBytes(tail, 8 * (3 * n)) == Err(SocketClosed);
    }
  }

  /** What sendrecv_force returns, before unit scaling. */
  datatype ForceReply = ForceReply(energy: F64, forces: seq<F64>, virial: seq<F64>, morebytes: seq<Byte>)

  /** The asserts at the top of sendforce. */
  predicate ForceShapesOk(forces: seq<F64>, virial: seq<F64>) {
    |forces| % 3 == 0 && |virial| == 9
  }

  /** A reply the server can read back unchanged. */
  predicate Returnable(f: ForceReply) {
    ForceShapesOk(f.forces, f.virial) && IsFinite(f.energy)
    && AllFinite(f.forces) && AllFinite(f.virial)
    && InInt32(|f.forces| / 3) && InInt32(|f.morebytes|)
  }

  /** The extra-byte count and the extra bytes. */
  function ExtrasPayload(morebytes: seq<Byte>): seq<Byte> {
    EncodeInt32(|morebytes|) + morebytes
  }

  /** Forces, virial and the extras. */
  function RowsPayload(f: ForceReply): seq<Byte> {
    EncodeFloats(f.forces) + (EncodeFloats(f.virial) + ExtrasPayload(f.morebytes))
  }

  /** What sendforce writes after the FORCEREADY token: energy, atom count,
      forces, virial, extra-byte count, extra bytes. */
  function ForcePayload(f: ForceReply): seq<Byte> {
    EncodeFloats([f.energy]) + (EncodeInt32(|f.forces| / 3) + RowsPayload(f))
  }

  function ForceMessage(f: ForceReply): seq<Byte> {
    EncodeToken("FORCEREADY") + ForcePayload(f)
  }

  /** The extra-byte count, then the extra bytes only when that count is
      positive; otherwise no bytes at all. */
  function ReadExtras(s: seq<Byte>): (r: Result<(seq<Byte>, seq<Byte>), IpiError>)
    ensures r.Ok? ==> |r.value.1| <= |s|
    ensures ReadInt32(s).Ok? && ReadInt32(s).value.0 <= 0 ==> r == Ok(([], ReadInt32(s).value.1))
    ensures ReadInt32(s).Ok? && ReadInt32(s).value.0 > 0 ==>
              (r.Ok? <==> ReadInt32(s).value.0 <= |ReadInt32(s).value.1|)
    ensures r.Ok? && |r.value.0| > 0 ==> ReadInt32(s).Ok? && |r.value.0| == ReadInt32(s).value.0
  {
    var m :- ReadInt32(s);
    if m.0 > 0 then ReadRaw(m.1, m.0) else Ok(([], m.1))
  }

  /** Forces for natoms rows, the 3x3 virial and the extras. */
  function ReadRows(s: seq<Byte>, natoms: int, energy: F64): (r: Result<(ForceReply, seq<Byte>), IpiError>)
    ensures r.Ok? ==> r.value.0.energy == energy && ForceShapesOk(r.value.0.forces, r.value.0.virial)
    ensures r.Ok? ==> AllFinite(r.value.0.forces) && AllFinite(r.value.0.virial)
  {
    var f :- ReadFloats(s, [natoms, 3]);
    var v :- ReadFloats(f.1, [3, 3]);
    var m :- ReadExtras(v.1);
    Ok((ForceReply(energy, f.0, v.0, m.0), m.1))
  }

  /** The payload half of sendrecv_force: energy, an atom count asserted
      non-negative, then the rows. */
  function ReadForcePayload(s: seq<Byte>): (r: Result<(ForceReply, seq<Byte>), IpiError>)
    ensures r.Ok? ==> ForceShapesOk(r.value.0.forces, r.value.0.virial)
    ensures r.Ok? ==> IsFinite(r.value.0.energy) && AllFinite(r.value.0.forces) && AllFinite(r.value.0.virial)
    ensures r.Ok? ==> ReadFloats(s, [1]).Ok? && r.value.0.energy == ReadFloats(s, [1]).value.0[0]
    ensures (ReadFloats(s, [1]).Ok? && ReadInt32(ReadFloats(s, [1]).value.1).Ok?
             && ReadInt32(ReadFloats(s, [1]).value.1).value.0 < 0) ==> r == Err(NegativeAtomCount)
  {
    var e :- ReadFloats(s, [1]);
    var n :- ReadInt32(e.1);
    if n.0 < 0 then Err(NegativeAtomCount) else ReadRows(n.1, n.0, e.0[0])
  }

  /** The reply to GETFORCE must be FORCEREADY, followed by the payload. */
  function ReadForceReply(s: seq<Byte>): (r: Result<(ForceReply, seq<Byte>), IpiError>)
    ensures |s| < TokenLength ==> r == Err(SocketClosed)
    ensures r.Ok? ==> ReadToken(s).Ok? && ReadToken(s).value.0 == "FORCEREADY"
    ensures ReadToken(s).Ok? && ReadToken(s).value.0 != "FORCEREADY" ==>
              r == Err(UnexpectedReply("FORCEREADY", ReadToken(s).value.0))
    ensures ReadToken(s).Ok? && ReadToken(s).value.0 == "FORCEREADY" ==> r == ReadForcePayload(ReadToken(s).value.1)
  {
    var t :- ReadToken(s);
    if t.0 != "FORCEREADY" then Err(UnexpectedReply("FORCEREADY", t.0))
    else ReadForcePayload(t.1)
  }

  lemma ExtrasRoundTrip(morebytes: seq<Byte>, rest: seq<Byte>)
    requires InInt32(|morebytes|)
    ensures ReadExtras(ExtrasPayload(morebytes) + rest) == Ok((morebytes, rest))
  {
    var tail := morebytes + rest;
    assert ExtrasPayload(morebytes) + rest == EncodeInt32(|morebytes|) + tail;
    ReadInt32OfEncoded(|morebytes|, tail);
    if |morebytes| > 0 {
      ReadRawOfEncoded(morebytes, rest);
    } else {
      assert tail == rest;
    }
  }

  lemma RowsRoundTrip(f: ForceReply, rest: seq<Byte>)
    requires Returnable(f)
    ensures ReadRows(RowsPayload(f) + rest, |f.forces| / 3, f.energy) == Ok((f, rest))
  {
    var tail2 := ExtrasPayload(f.morebytes) + rest;
    var tail1 := EncodeFloats(f.virial) + tail2;
    assert RowsPayload(f) + rest == EncodeFloats(f.forces) + tail1;
    assert (|f.forces| / 3) * 3 == |f.forces|;
    ReadFloatsOfEncoded(f.forces, [|f.forces| / 3, 3], tail1);
    ReadFloatsOfEncoded(f.virial, [3, 3], tail2);
    ExtrasRoundTrip(f.morebytes, rest);
  }

  /** sendrecv_force reads fields in the order sendforce writes them, so the
      server gets back exactly what the client sent. */
  lemma ForceRoundTrip(f: ForceReply, rest: seq<Byte>)
    requires Returnable(f)
    ensures ReadForceReply(ForceMessage(f) + rest) == Ok((f, rest))
  {
    var tail2 := RowsPayload(f) + rest;
    var tail1 := EncodeInt32(|f.forces| / 3) + tail2;
    var payload := EncodeFloats([f.energy]) + tail1;
    assert ForceMessage(f) + rest == EncodeToken("FORCEREADY") + payload;
    VocabularyIsWireTokens("FORCEREADY");
    ReadTokenOfEncoded("FORCEREADY", payload);
    ReadFloatsOfEncoded([f.energy], [1], tail1);
    ReadInt32OfEncoded(|f.forces| / 3, tail2);
    RowsRoundTrip(f, rest);
  }
}
