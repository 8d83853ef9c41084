/** The byte-level codec of the i-PI socket protocol (ase/calculators/ipi.py,
    class IPIProtocol): 12-byte command tokens, little-endian 32-bit integers,
    opaque 64-bit floats, and typed arrays whose length is known from context.
    Everything here is a pure function of a byte stream; the socket that
    delivers the stream lives in module Sockets. */
module Wire {
  import opened Wrappers

  type Byte = b: int | 0 <= b < 256

  /** Every way an exchange can fail, named after what the source raises. */
  datatype IpiError =
    | SocketClosed                                     // SocketClosed: the peer closed the stream early
    | NonAscii                                         // UnicodeDecodeError on a received token
    | NegativeDimension                                // ValueError from np.empty on a negative count
    | NonFinite                                        // assert np.isfinite(a).all() in recv
    | NegativeAtomCount                                // assert natoms >= 0 in sendrecv_force
    | BadShape                                         // the size asserts of sendposdata and sendforce
    | UnexpectedReply(expected: string, got: string)   // assert msg == 'FORCEREADY' / 'HAVEDATA'
    | IllegalCommand(command: string, state: string)   // the client's state asserts
    | AmbiguousTruth                                   // ValueError: truth value of an array of 2+ elements
    | ServerClosed                                     // assert not self._closed
    | SubprocessTerminated(status: int)                // OSError raised by IPIServer._accept
    | ConflictingEndpoints                             // ValueError: both port and unixsocket given
    | CannotChange(bad: seq<string>)                   // PropertyNotImplementedError in IPICalculator

  // ---------------------------------------------------------------------
  // Command tokens
  // ---------------------------------------------------------------------

  const TokenLength: nat := 12

  /** The commands a server sends and the replies a client gives. */
  const Statements: set<string> := {"POSDATA", "GETFORCE", "STATUS", "INIT", "EXIT"}
  const Responses: set<string> := {"READY", "HAVEDATA", "FORCEREADY", "NEEDINIT"}

  predicate IsAscii(s: string) {
    forall i :: 0 <= i < |s| ==> s[i] as int < 128
  }

  /** The bytes that `bytes.rstrip()` removes: \t \n \v \f \r and space. */
  predicate IsWhitespace(b: Byte) {
    b == 32 || 9 <= b <= 13
  }

  /** A token that survives the trip: ASCII, at most 12 characters, and not
      ending in a character that rstrip would remove. */
  predicate IsWireToken(t: string) {
    IsAscii(t) && |t| <= TokenLength && (t == [] || !IsWhitespace(t[|t| - 1] as int))
  }

  /** str.encode('ascii') on the strings it accepts; callers that send
      demand IsAscii, so the reduction mod 256 never changes a code. */
  function AsciiBytes(s: string): (b: seq<Byte>)
    ensures |b| == |s|
    ensures IsAscii(s) ==> forall i :: 0 <= i < |s| ==> b[i] == s[i] as int
  {
    seq(|s|, i requires 0 <= i < |s| => s[i] as int % 256)
  }

  function Padding(n: nat): (p: seq<Byte>)
    ensures |p| == n
    ensures forall i :: 0 <= i < n ==> p[i] == 32
  {
    seq(n, _ => 32)
  }

  /** sendmsg: the token in ASCII, left-justified and space-padded to 12
      bytes. Like Python's ljust, a longer token is sent whole. */
  function EncodeToken(msg: string): (b: seq<Byte>)
    ensures |b| == if |msg| < TokenLength then TokenLength else |msg|
    ensures b[..|msg|] == AsciiBytes(msg)
    ensures forall i :: |msg| <= i < |b| ==> b[i] == 32
  {
    var raw := AsciiBytes(msg);
    if |raw| < TokenLength then raw + Padding(TokenLength - |raw|) else raw
  }

  /** bytes.rstrip() */
  function RStrip(b: seq<Byte>): seq<Byte>
    decreases |b|
  {
    if b != [] && IsWhitespace(b[|b| - 1]) then RStrip(b[..|b| - 1]) else b
  }

  /** rstrip keeps the longest prefix that does not end in whitespace and
      leaves only whitespace behind it. */
  lemma {:induction false} RStripSpec(b: seq<Byte>)
    ensures RStrip(b) <= b
    ensures RStrip(b) == [] || !IsWhitespace(RStrip(b)[|RStrip(b)| - 1])
    ensures forall i :: |RStrip(b)| <= i < |b| ==> IsWhitespace(b[i])
    decreases |b|
  {
    if b != [] && IsWhitespace(b[|b| - 1]) {
      RStripSpec(b[..|b| - 1]);
    }
  }

  predicate AllAscii(b: seq<Byte>) {
    forall i :: 0 <= i < |b| ==> b[i] < 128
  }

  /** bytes.decode('ascii') */
  function AsciiDecode(b: seq<Byte>): Result<string, IpiError> {
    if AllAscii(b) then Ok(seq(|b|, i requires 0 <= i < |b| => b[i] as char)) else Err(NonAscii)
  }

  /** Decoding fails exactly on a byte above 127, and otherwise inverts
      AsciiBytes. */
  lemma AsciiDecodeSpec(b: seq<Byte>)
    ensures AsciiDecode(b).Ok? <==> AllAscii(b)
    ensures AsciiDecode(b).Err? ==> AsciiDecode(b).error == NonAscii
    ensures AsciiDecode(b).Ok? ==> IsAscii(AsciiDecode(b).value) && AsciiBytes(AsciiDecode(b).value) == b
  {
  }

  /** recvmsg's decoding of the 12 bytes it read. */
  function DecodeToken(b: seq<Byte>): (r: Result<string, IpiError>)
    ensures r.Ok? <==> AllAscii(RStrip(b))
    ensures r.Ok? ==> IsAscii(r.value) && AsciiBytes(r.value) == RStrip(b)
  {
    AsciiDecode(RStrip(b))
  }

  lemma {:induction false} RStripPadding(raw: seq<Byte>, n: nat)
    ensures RStrip(raw + Padding(n)) == RStrip(raw)
  {
    if n > 0 {
      var s := raw + Padding(n);
      assert s[..|s| - 1] == raw + Padding(n - 1);
      RStripPadding(raw, n - 1);
    } else {
      assert raw + Padding(0) == raw;
    }
  }

  /** Every token that is ASCII, at most 12 characters long and does not end
      in whitespace is sent as exactly 12 bytes and decoded unchanged. */
  lemma TokenRoundTrip(msg: string)
    requires IsWireToken(msg)
    ensures |EncodeToken(msg)| == TokenLength
    ensures DecodeToken(EncodeToken(msg)) == Ok(msg)
  {
    var raw := AsciiBytes(msg);
    RStripPadding(raw, TokenLength - |raw|);
    assert RStrip(raw) == raw;
    AsciiDecodeOfAscii(msg);
  }

  lemma AsciiDecodeOfAscii(msg: string)
    requires IsAscii(msg)
    ensures AsciiDecode(AsciiBytes(msg)) == Ok(msg)
  {
    var raw := AsciiBytes(msg);
    assert AllAscii(raw);
    var d := seq(|raw|, i requires 0 <= i < |raw| => raw[i] as char);
    assert d == msg by {
      forall i | 0 <= i < |msg| ensures d[i] == msg[i] {
        assert raw[i] == msg[i] as int;
      }
    }
  }

  /** Every word of the protocol's vocabulary is a wire token. */
  lemma VocabularyIsWireTokens(t: string)
    requires t in Statements + Responses
    ensures IsWireToken(t)
    ensures DecodeToken(EncodeToken(t)) == Ok(t)
  {
    TokenRoundTrip(t);
  }

  // ---------------------------------------------------------------------
  // Reading a stream: what arrives is the bytes the peer sent, and the peer
  // closes after the last of them.
  // ---------------------------------------------------------------------

  /** Attaches what is left of the stream to a successful result. */
  function WithRest<T>(r: Result<T, IpiError>, rest: seq<Byte>): Result<(T, seq<Byte>), IpiError> {
    match r
    case Ok(v) => Ok((v, rest))
    case Err(e) => Err(e)
  }

  /** _recvall(n): the first n bytes, or SocketClosed when the peer closes
      before n bytes have arrived. */
  function ReadBytes(s: seq<Byte>, n: nat): (r: Result<(seq<Byte>, seq<Byte>), IpiError>)
    ensures r.Ok? <==> n <= |s|
    ensures r.Ok? ==> |r.value.0| == n && r.value.0 + r.value.1 == s
    ensures r.Err? ==> r.error == SocketClosed
  {
    if |s| < n then Err(SocketClosed) else Ok((s[..n], s[n..]))
  }

  /** recvmsg: one 12-byte token, stripped and decoded. */
  function ReadToken(s: seq<Byte>): (r: Result<(string, seq<Byte>), IpiError>)
    ensures r.Ok? ==> |s| >= TokenLength && r.value.1 == s[TokenLength..]
    ensures |s| < TokenLength ==> r == Err(SocketClosed)
  {
    var p :- ReadBytes(s, TokenLength);
    var msg :- DecodeToken(p.0);
    Ok((msg, p.1))
  }

  lemma ReadTokenOfEncoded(t: string, rest: seq<Byte>)
    requires IsWireToken(t)
    ensures ReadToken(EncodeToken(t) + rest) == Ok((t, rest))
  {
    TokenRoundTrip(t);
    var s := EncodeToken(t) + rest;
    assert s[..TokenLength] == EncodeToken(t) && s[TokenLength..] == rest;
  }

  // ---------------------------------------------------------------------
  // 32-bit integers, little-endian two's complement
  // ---------------------------------------------------------------------

  const Two31: int := 0x8000_0000
  const Two32: int := 0x1_0000_0000

  predicate InInt32(x: int) {
    -Two31 <= x < Two31
  }

  /** numpy's cast of an integer to int32: wrap-around modulo 2^32. */
  function WrapInt32(x: int): (y: int)
    ensures InInt32(y)
    ensures (x - y) % Two32 == 0
    ensures InInt32(x) ==> y == x
  {
    var u := x % Two32;
    if u < Two31 then u else u - Two32
  }

  /** np.asarray(x, np.int32).tobytes() */
  function EncodeInt32(x: int): (b: seq<Byte>)
    ensures |b| == 4
  {
    var u := x % Two32;
    [u % 256, u / 256 % 256, u / 65536 % 256, u / 16777216]
  }

  /** np.frombuffer(b, np.int32) of four bytes */
  function DecodeInt32(b: seq<Byte>): (x: int)
    requires |b| == 4
    ensures InInt32(x)
  {
    var u: int := b[0] as int + 256 * b[1] as int + 65536 * b[2] as int + 16777216 * b[3] as int;
    if u < Two31 then u else u - Two32
  }

  lemma BytesOfUnsigned(u: int)
    requires 0 <= u < Two32
    ensures u % 256 + 256 * (u / 256 % 256) + 65536 * (u / 65536 % 256) + 16777216 * (u / 16777216) == u
  {
    var q1 := u / 256;
    var q2 := q1 / 256;
    var q3 := q2 / 256;
    assert u == u % 256 + 256 * q1;
    assert q1 == q1 % 256 + 256 * q2;
    assert q2 == q2 % 256 + 256 * q3;
    assert q2 == u / 65536;
    assert q3 == u / 16777216;
  }

  /** Whatever integer is sent, the peer reads its int32 wrap-around; an
      integer in the int32 range is read back unchanged. */
  lemma Int32RoundTrip(x: int)
    ensures DecodeInt32(EncodeInt32(x)) == WrapInt32(x)
    ensures InInt32(x) ==> DecodeInt32(EncodeInt32(x)) == x
  {
    BytesOfUnsigned(x % Two32);
  }

  // ---------------------------------------------------------------------
  // 64-bit floats, kept as opaque 8-byte patterns
  // ---------------------------------------------------------------------

  type F64 = b: seq<Byte> | |b| == 8 witness [0, 0, 0, 0, 0, 0, 0, 0]

  /** IEEE 754 binary64 stored little-endian: a value is finite unless its 11
      exponent bits (the low 7 bits of byte 7, the high 4 bits of byte 6) are
      all ones. */
  predicate IsFinite(x: F64) {
    !(x[7] % 128 == 127 && x[6] / 16 == 15)
  }

  /** +0.0 */
  const Zero: F64 := [0, 0, 0, 0, 0, 0, 0, 0]

  function EncodeFloats(xs: seq<F64>): (b: seq<Byte>)
    ensures |b| == 8 * |xs|
  {
    if xs == [] then [] else xs[0] + EncodeFloats(xs[1..])
  }

  function DecodeFloats(b: seq<Byte>): (xs: seq<F64>)
    requires |b| % 8 == 0
    ensures |xs| == |b| / 8
    decreases |b|
  {
    if b == [] then [] else [b[..8]] + DecodeFloats(b[8..])
  }

  lemma {:induction false} FloatsRoundTrip(xs: seq<F64>)
    ensures DecodeFloats(EncodeFloats(xs)) == xs
  {
    if xs != [] {
      var b := EncodeFloats(xs);
      assert b[..8] == xs[0] && b[8..] == EncodeFloats(xs[1..]);
      FloatsRoundTrip(xs[1..]);
    }
  }

  function EncodeInts(xs: seq<int>): (b: seq<Byte>)
    ensures |b| == 4 * |xs|
  {
    if xs == [] then [] else EncodeInt32(xs[0]) + EncodeInts(xs[1..])
  }

  function DecodeInts(b: seq<Byte>): (xs: seq<int>)
    requires |b| % 4 == 0
    ensures |xs| == |b| / 4
    decreases |b|
  {
    if b == [] then [] else [DecodeInt32(b[..4])] + DecodeInts(b[4..])
  }

  lemma {:induction false} IntsRoundTrip(xs: seq<int>)
    requires forall i :: 0 <= i < |xs| ==> InInt32(xs[i])
    ensures DecodeInts(EncodeInts(xs)) == xs
  {
    if xs != [] {
      var b := EncodeInts(xs);
      assert b[..4] == EncodeInt32(xs[0]) && b[4..] == EncodeInts(xs[1..]);
      Int32RoundTrip(xs[0]);
      IntsRoundTrip(xs[1..]);
    }
  }

  // ---------------------------------------------------------------------
  // Typed arrays: recv(shape, dtype) and send(a, dtype)
  // ---------------------------------------------------------------------

  datatype DType = Float64 | Int32 | Int8

  function ItemSize(d: DType): nat {
    match d
    case Float64 => 8
    case Int32 => 4
    case Int8 => 1
  }

  /** The contents of a numpy array, flattened. */
  datatype Elements = Floats(fs: seq<F64>) | Ints(ns: seq<int>) | Raw(bs: seq<Byte>) {
    function Length(): nat {
      match this
      case Floats(fs) => |fs|
      case Ints(ns) => |ns|
      case Raw(bs) => |bs|
    }

    function Type(): DType {
      match this
      case Floats(_) => Float64
      case Ints(_) => Int32
      case Raw(_) => Int8
    }

    /** The elements can be sent without wrap-around. */
    predicate Representable() {
      Ints? ==> forall i :: 0 <= i < |ns| ==> InInt32(ns[i])
    }

    /** np.isfinite(a).all(): only floats can fail it. */
    predicate AllFinite() {
      Floats? ==> forall i :: 0 <= i < |fs| ==> IsFinite(fs[i])
    }
  }

  /** send(a, dtype): the array's raw bytes in native (little-endian) order. */
  function Encode(a: Elements): (b: seq<Byte>)
    ensures |b| == ItemSize(a.Type()) * a.Length()
  {
    match a
    case Floats(fs) => EncodeFloats(fs)
    case Ints(ns) => EncodeInts(ns)
    case Raw(bs) => bs
  }

  function Decode(d: DType, b: seq<Byte>): (a: Elements)
    requires |b| % ItemSize(d) == 0
    ensures a.Type() == d && a.Length() == |b| / ItemSize(d)
  {
    match d
    case Float64 => Floats(DecodeFloats(b))
    case Int32 => Ints(DecodeInts(b))
    case Int8 => Raw(b)
  }

  lemma DecodeEncode(a: Elements)
    requires a.Representable()
    ensures Decode(a.Type(), Encode(a)) == a
  {
    match a
    case Floats(fs) => FloatsRoundTrip(fs);
    case Ints(ns) => IntsRoundTrip(ns);
    case Raw(bs) =>
  }

  predicate NonNegative(shape: seq<int>) {
    forall i :: 0 <= i < |shape| ==> shape[i] >= 0
  }

  /** np.prod(shape) of a shape with no negative dimension. */
  function Product(shape: seq<int>): (n: nat)
    requires NonNegative(shape)
    ensures |shape| == 1 ==> n == shape[0]
    ensures |shape| == 2 ==> n == shape[0] * shape[1]
  {
    if shape == [] then 1 else shape[0] * Product(shape[1..])
  }

  /** recv(shape, dtype): np.empty refuses a negative dimension, then exactly
      itemsize * prod(shape) bytes are read, decoded and checked finite. */
  function ReadArray(s: seq<Byte>, shape: seq<int>, d: DType): (r: Result<(Elements, seq<Byte>), IpiError>)
    ensures r.Ok? ==> NonNegative(shape)
    ensures r.Ok? ==> r.value.0.Type() == d && r.value.0.Length() == Product(shape) && r.value.0.AllFinite()
    ensures r.Ok? ==> |s| >= ItemSize(d) * Product(shape) && r.value.1 == s[ItemSize(d) * Product(shape)..]
    ensures !NonNegative(shape) ==> r == Err(NegativeDimension)
    ensures NonNegative(shape) && |s| < ItemSize(d) * Product(shape) ==> r == Err(SocketClosed)
    ensures NonNegative(shape) && |s| >= ItemSize(d) * Product(shape) ==>
              (r.Err? <==> !Decode(d, s[..ItemSize(d) * Product(shape)]).AllFinite())
              && (r.Err? ==> r == Err(NonFinite))
  {
    if !NonNegative(shape) then Err(NegativeDimension)
    else
      var p :- ReadBytes(s, ItemSize(d) * Product(shape));
      var a := Decode(d, p.0);
      if a.AllFinite() then Ok((a, p.1)) else Err(NonFinite)
  }

  /** What send writes, recv reads back: the same elements, and the stream
      continues right after them. */
  lemma ReadArrayOfEncoded(a: Elements, shape: seq<int>, rest: seq<Byte>)
    requires NonNegative(shape) && Product(shape) == a.Length()
    requires a.Representable() && a.AllFinite()
    ensures ReadArray(Encode(a) + rest, shape, a.Type()) == Ok((a, rest))
  {
    var s := Encode(a) + rest;
    var n := ItemSize(a.Type()) * Product(shape);
    assert s[..n] == Encode(a) && s[n..] == rest;
    DecodeEncode(a);
  }

  predicate AllFinite(xs: seq<F64>) {
    forall i :: 0 <= i < |xs| ==> IsFinite(xs[i])
  }

  /** recv(shape, np.float64) */
  function ReadFloats(s: seq<Byte>, shape: seq<int>): (r: Result<(seq<F64>, seq<Byte>), IpiError>)
    ensures r.Ok? ==> NonNegative(shape) && |r.value.0| == Product(shape) && AllFinite(r.value.0)
    ensures r.Ok? ==> |r.value.1| <= |s|
  {
    var a :- ReadArray(s, shape, Float64);
    Ok((a.0.fs, a.1))
  }

  /** int(recv(1, np.int32)) */
  function ReadInt32(s: seq<Byte>): (r: Result<(int, seq<Byte>), IpiError>)
    ensures r.Ok? ==> InInt32(r.value.0) && |r.value.1| == |s| - 4
  {
    var a :- ReadArray(s, [1], Int32);
    Ok((a.0.ns[0], a.1))
  }

  /** recv(n, np.byte) */
  function ReadRaw(s: seq<Byte>, n: int): (r: Result<(seq<Byte>, seq<Byte>), IpiError>)
    ensures r.Ok? ==> n >= 0 && |r.value.0| == n && r.value.0 + r.value.1 == s
    ensures r.Ok? <==> 0 <= n <= |s|
  {
    var a :- ReadArray(s, [n], Int8);
    Ok((a.0.bs, a.1))
  }

  lemma ReadFloatsOfEncoded(xs: seq<F64>, shape: seq<int>, rest: seq<Byte>)
    requires NonNegative(shape) && Product(shape) == |xs| && AllFinite(xs)
    ensures ReadFloats(EncodeFloats(xs) + rest, shape) == Ok((xs, rest))
  {
    ReadArrayOfEncoded(Floats(xs), shape, rest);
  }

  lemma ReadInt32OfEncoded(x: int, rest: seq<Byte>)
    requires InInt32(x)
    ensures ReadInt32(EncodeInt32(x) + rest) == Ok((x, rest))
  {
    assert Encode(Ints([x])) == EncodeInt32(x);
    ReadArrayOfEncoded(Ints([x]), [1], rest);
  }

  lemma ReadRawOfEncoded(bs: seq<Byte>, rest: seq<Byte>)
    ensures ReadRaw(bs + rest, |bs|) == Ok((bs, rest))
  {
    ReadArrayOfEncoded(Raw(bs), [|bs|], rest);
  }
}
