/** The wire between proxy and agent, internal/agent/protocol.go: error codes and framing. The message
    encoding is an abstract codec. */
module Protocol {
  import opened Text
  import opened Vault

  /// ## Error codes

  /** The sentinels that have a code, in the order they are looked for. */
  const WIRE: seq<(Sentinel, string)> := [
    (ErrLocked, "locked"), (ErrNotFound, "notfound"), (ErrReadOnly, "readonly"),
    (ErrAuth, "auth"), (ErrUnsupported, "unsupported"), (ErrNotConfigured, "notconfigured")]

  function CodeFrom(e: Error, i: nat): string
    requires i <= |WIRE|
    decreases |WIRE| - i
  {
    if i == |WIRE| then "" else if WIRE[i].0 in e then WIRE[i].1 else CodeFrom(e, i + 1)
  }

  function ErrorCode(e: Error): string {
    CodeFrom(e, 0)
  }

  function CodeError(code: string): Error {
    if code == "locked" then {ErrLocked}
    else if code == "notfound" then {ErrNotFound}
    else if code == "readonly" then {ErrReadOnly}
    else if code == "auth" then {ErrAuth}
    else if code == "unsupported" then {ErrUnsupported}
    else if code == "notconfigured" then {ErrNotConfigured}
    else {}
  }

  /** What a caller can test for after the error went over the wire. */
  function Transported(e: Error): Error {
    CodeError(ErrorCode(e))
  }

  /** The part of an error that has a code. */
  function Coded(e: Error): Error {
    e * {ErrLocked, ErrNotFound, ErrReadOnly, ErrAuth, ErrUnsupported, ErrNotConfigured}
  }

  /** At most one of its sentinels has a code. */
  ghost predicate Simple(e: Error) {
    forall a, b | a in Coded(e) && b in Coded(e) :: a == b
  }

  lemma {:induction false} CodeFromIs(e: Error, i: nat)
    requires i <= |WIRE| && forall j | 0 <= j < i :: WIRE[j].0 !in e
    ensures var c := CodeError(CodeFrom(e, i));
            c <= Coded(e) && (c == {} <==> Coded(e) == {}) && forall a, b | a in c && b in c :: a == b
    decreases |WIRE| - i
  {
    if i < |WIRE| {
      if WIRE[i].0 in e {
        assert WIRE[i].0 in Coded(e);
      } else {
        CodeFromIs(e, i + 1);
      }
    } else {
      assert WIRE[0].0 !in e && WIRE[1].0 !in e && WIRE[2].0 !in e && WIRE[3].0 !in e && WIRE[4].0 !in e && WIRE[5].0 !in e;
      assert Coded(e) == {};
    }
  }

  /** The wire keeps the class of an error exactly when the error has at most one coded sentinel. */
  lemma TransportedIff(e: Error)
    ensures Transported(e) == Coded(e) <==> Simple(e)
    ensures Transported(e) <= Coded(e)
  {
    CodeFromIs(e, 0);
    var c := Transported(e);
    if Simple(e) && Coded(e) != {} {
      var x :| x in c;
      assert forall y | y in Coded(e) :: y == x;
    }
  }

  /** Otherwise one can be lost: a refusal that also reports the vault locked is not retried. */
  lemma AuthCanBeLost()
    ensures Transported({ErrLocked, ErrAuth}) == {ErrLocked}
  {
    assert WIRE[0].0 in {ErrLocked, ErrAuth};
  }

  /// ## Framing

  newtype byte = x: int | 0 <= x < 256

  const WORD := 0x1_0000_0000
  const MAX_FRAME := 0x100_0000

  /** Four bytes, big endian, of a length cut to 32 bits. */
  function Prefix(n: nat): seq<byte> {
    [(n / 0x100_0000 % 256) as byte, (n / 0x1_0000 % 256) as byte, (n / 256 % 256) as byte, (n % 256) as byte]
  }

  function Number(p: seq<byte>): nat
    requires |p| == 4
  {
    p[0] as nat * 0x100_0000 + p[1] as nat * 0x1_0000 + p[2] as nat * 256 + p[3] as nat
  }

  lemma PrefixNumber(n: nat)
    ensures Number(Prefix(n)) == n % WORD
  {
    var a, b, c := n / 256, n / 0x1_0000, n / 0x100_0000;
    assert b == a / 256 && c == b / 256;
    assert n == 256 * a + n % 256 && a == 256 * b + a % 256 && b == 256 * c + b % 256 && c == 256 * (c / 256) + c % 256;
    assert n == WORD * (c / 256) + Number(Prefix(n));
    assert 0 <= Number(Prefix(n)) < WORD;
  }

  function Framed(data: seq<byte>): seq<byte> {
    Prefix(|data|) + data
  }

  datatype FrameError = Short | TooLarge

  /** The next frame of a stream and what follows it. */
  function Unframed(stream: seq<byte>): Result<(seq<byte>, seq<byte>), FrameError> {
    if |stream| < 4 then Err(Short)
    else
      var n := Number(stream[..4]);
      if n > MAX_FRAME then Err(TooLarge)
      else if |stream| < 4 + n then Err(Short)
      else Ok((stream[4..4 + n], stream[4 + n..]))
  }

  /** A frame reads back, and leaves the stream at the next one, exactly when it is within the cap. The
      writer does not check: a longer one is written all the same. */
  lemma FrameIff(data: seq<byte>, rest: seq<byte>)
    ensures Unframed(Framed(data) + rest) == Ok((data, rest)) <==> |data| <= MAX_FRAME
  {
    hide Unframed, Framed;
    if |data| <= MAX_FRAME {
      FrameReadsBack(data, rest);
    } else {
      FrameTooLarge(data, rest);
    }
  }

  lemma FrameReadsBack(data: seq<byte>, rest: seq<byte>)
    requires |data| <= MAX_FRAME
    ensures Unframed(Framed(data) + rest) == Ok((data, rest))
  {
    hide Number;
    var stream := Framed(data) + rest;
    PrefixNumber(|data|);
    assert |Prefix(|data|)| == 4;
    hide Prefix;
    assert stream[..4] == Prefix(|data|);
    assert stream[4..4 + |data|] == data && stream[4 + |data|..] == rest;
  }

  /** What is read is within the cap, so it is not this frame. */
  lemma FrameTooLarge(data: seq<byte>, rest: seq<byte>)
    requires |data| > MAX_FRAME
    ensures Unframed(Framed(data) + rest) != Ok((data, rest))
  {
    hide Prefix, Number;
  }

  /** One direction of a connection. */
  class Pipe {
    var bytes: seq<byte>

    constructor ()
      ensures bytes == []
    {
      bytes := [];
    }

    method WriteFrame(data: seq<byte>)
      modifies this
      ensures bytes == old(bytes) + Framed(data)
    {
      bytes := bytes + Prefix(|data|);
      bytes := bytes + data;
      assert bytes == old(bytes) + Framed(data);
    }

    /** Consumes the next frame; after an error the stream is of no use. */
    method ReadFrame() returns (r: Result<seq<byte>, FrameError>)
      modifies this
      ensures match Unframed(old(bytes))
              case Ok((data, rest)) => r == Ok(data) && bytes == rest
              case Err(e) => r == Err(e)
    {
      if |bytes| < 4 {
        return Err(Short);
      }
      var n := Number(bytes[..4]);
      bytes := bytes[4..];
      if n > MAX_FRAME {
        return Err(TooLarge);
      }
      if |bytes| < n {
        return Err(Short);
      }
      assert bytes[..n] == old(bytes)[4..4 + n] && bytes[n..] == old(bytes)[4 + n..];
      r := Ok(bytes[..n]);
      bytes := bytes[n..];
    }
  }

  /** A message encoding, json in the source. */
  datatype Codec<!T> = Codec(encode: T -> seq<byte>, decode: seq<byte> -> Option<T>)

  ghost predicate Lossless<T(!new)>(c: Codec<T>) {
    forall x :: c.decode(c.encode(x)) == Some(x)
  }

  /** What arrives of a message sent as the only one on its way. */
  function Delivered<T>(c: Codec<T>, x: T): Option<T> {
    match Unframed(Framed(c.encode(x)))
    case Ok((data, _)) => c.decode(data)
    case Err(_) => None
  }

  /** Sends one message through a fresh pipe. */
  method Deliver<T>(c: Codec<T>, x: T) returns (r: Option<T>)
    ensures r == Delivered(c, x)
  {
    var pipe := new Pipe();
    pipe.WriteFrame(c.encode(x));
    assert [] + Framed(c.encode(x)) == Framed(c.encode(x));
    var data := pipe.ReadFrame();
    r := match data case Ok(d) => c.decode(d) case Err(_) => None;
  }

  lemma DeliveredWhole<T(!new)>(c: Codec<T>, x: T)
    requires Lossless(c) && |c.encode(x)| <= MAX_FRAME
    ensures Delivered(c, x) == Some(x)
  {
    FrameIff(c.encode(x), []);
    assert Framed(c.encode(x)) + [] == Framed(c.encode(x));
  }
}
