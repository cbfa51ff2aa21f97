/** The frames of mysyscall/mysendto.c, and how the proxy recognises them (packet_validation in
    tproxy/TcpNetwork.cpp). */
module Framing {
  import opened Options

  newtype byte = x: int | 0 <= x < 256

  type Bytes = seq<byte>

  const TWO_32 := 0x1_0000_0000

  const HEADER_SIZE := 8

  /** 0xdeadbeef in network order. */
  const MAGIC: Bytes := [0xde, 0xad, 0xbe, 0xef]

  // ---- 32-bit words in network order

  function ToNetwork(n: int): (b: Bytes)
    requires 0 <= n < TWO_32
    ensures |b| == 4
  {
    [(n / 0x100_0000) as byte, (n / 0x1_0000 % 0x100) as byte, (n / 0x100 % 0x100) as byte, (n % 0x100) as byte]
  }

  function FromNetwork(b: Bytes): (n: int)
    requires |b| == 4
    ensures 0 <= n < TWO_32
  {
    b[0] as int * 0x100_0000 + b[1] as int * 0x1_0000 + b[2] as int * 0x100 + b[3] as int
  }

  lemma NetworkRoundTrip(n: int)
    requires 0 <= n < TWO_32
    ensures FromNetwork(ToNetwork(n)) == n
  {
    assert n / 0x1_0000 == n / 0x100_0000 * 0x100 + n / 0x1_0000 % 0x100;
    assert n / 0x100 == n / 0x1_0000 * 0x100 + n / 0x100 % 0x100;
    assert n == n / 0x100 * 0x100 + n % 0x100;
  }

  // ---- Sending

  /** The control header; the length is cut to 32 bits. */
  function Header(len: nat): (h: Bytes)
    ensures |h| == HEADER_SIZE
  {
    MAGIC + ToNetwork(len % TWO_32)
  }

  function Frame(buf: Bytes): Bytes {
    Header(|buf|) + buf
  }

  function Frames(bufs: seq<Bytes>): Bytes {
    if bufs == [] then [] else Frame(bufs[0]) + Frames(bufs[1..])
  }

  /** What the thread-local nr_send_syscall may hold; 0 is none. */
  const SYS_SENDTO := 44

  class Sender {
    var nrSendSyscall: int
    var stream: Bytes

    constructor ()
      ensures nrSendSyscall == 0 && stream == []
    {
      nrSendSyscall := 0;
      stream := [];
    }

    /** real_sendto: all of the bytes, or -1 and none of them. */
    method RealSendto(buf: Bytes, fails: bool) returns (ret: int)
      modifies this`stream
      ensures ret == if fails then -1 else |buf|
      ensures stream == if fails then old(stream) else old(stream) + buf
    {
      if fails {
        ret := -1;
      } else {
        stream := stream + buf;
        ret := |buf|;
      }
    }

    method Hack(len: nat, fails: bool) returns (ret: int)
      modifies this`stream
      ensures ret == if fails then -1 else HEADER_SIZE
      ensures stream == if fails then old(stream) else old(stream) + Header(len)
    {
      ret := RealSendto(MAGIC + ToNetwork(len % TWO_32), fails);
    }

    /** A concerned buffer goes out as one frame.  If the header cannot be sent nothing is, and the record of the
        calling function is then left standing (as it is when that function is not intercepted); if the buffer itself
        cannot be sent, its header is already out. */
    method Sendto(
        buf: Bytes, intercepted: bool, concerned: bool, callerIntercepted: bool, hackFails: bool, sendFails: bool)
      returns (ret: int)
      modifies this
      ensures !(intercepted && concerned) ==>
                && stream == (if sendFails then old(stream) else old(stream) + buf)
                && ret == if sendFails then -1 else |buf|
      ensures intercepted && concerned && !hackFails && !sendFails ==>
                stream == old(stream) + Frame(buf) && ret == |buf|
      ensures intercepted && concerned && hackFails ==> stream == old(stream) && ret == -1
      ensures intercepted && concerned && !hackFails && sendFails ==>
                stream == old(stream) + Header(|buf|) && ret == -1
      ensures intercepted ==>
                nrSendSyscall ==
                if callerIntercepted && !(concerned && hackFails) then 0
                else if old(nrSendSyscall) == 0 then SYS_SENDTO else old(nrSendSyscall)
      ensures !intercepted ==> nrSendSyscall == old(nrSendSyscall)
    {
      if !intercepted {
        ret := RealSendto(buf, sendFails);
        return;
      }
      if nrSendSyscall == 0 {
        nrSendSyscall := SYS_SENDTO;
      }
      if concerned {
        ret := Hack(|buf|, hackFails);
        if ret == -1 {
          return;
        }
      }
      ret := RealSendto(buf, sendFails);
      if !callerIntercepted {
        return;
      }
      nrSendSyscall := 0;
    }
  }

  // ---- Recognising

  /** packet_validation: with fewer than four bytes the mask keeps the low-order end of the word,
      which is the end that has not arrived. */
  predicate PacketValidation(header: Bytes, size: nat)
    requires |header| == HEADER_SIZE
  {
    if size < 4 then header[4 - size..4] == MAGIC[4 - size..] else header[..4] == MAGIC
  }

  /** 256 to the number of bytes a mask keeps. */
  function Kept(size: nat): nat {
    match size
    case 0 => 1
    case 1 => 0x100
    case 2 => 0x1_0000
    case 3 => 0x100_0000
    case _ => TWO_32
  }

  lemma LowBytes(a: int, b: int, c: int, d: int)
    requires 0 <= a < 0x100 && 0 <= b < 0x100 && 0 <= c < 0x100 && 0 <= d < 0x100
    ensures var word := a * 0x100_0000 + b * 0x1_0000 + c * 0x100 + d;
            && word % 0x100 == d && word % 0x1_0000 == c * 0x100 + d
            && word % 0x100_0000 == b * 0x1_0000 + c * 0x100 + d && word % TWO_32 == word
  {
    var word := a * 0x100_0000 + b * 0x1_0000 + c * 0x100 + d;
    assert word == (a * 0x1_0000 + b * 0x100 + c) * 0x100 + d;
    assert word == (a * 0x100 + b) * 0x1_0000 + (c * 0x100 + d);
  }

  lemma Tail(header: Bytes, size: nat)
    requires |header| == HEADER_SIZE && 0 < size < 4
    ensures header[4 - size..4] == MAGIC[4 - size..] <==>
            && header[3] == 0xef && (size >= 2 ==> header[2] == 0xbe) && (size >= 3 ==> header[1] == 0xad)
  {
    var h, m := header[4 - size..4], MAGIC[4 - size..];
    assert forall i :: 0 <= i < size ==> h[i] == header[4 - size + i] && m[i] == MAGIC[4 - size + i];
    if h == m {
      assert h[size - 1] == m[size - 1];
      assert size >= 2 ==> h[size - 2] == m[size - 2];
      assert size >= 3 ==> h[size - 3] == m[size - 3];
    }
  }

  /** The comparison of the source: of the two words, in host order, the mask keeps as many low-order bytes as have
      arrived. */
  lemma ValidationIsMasked(header: Bytes, size: nat)
    requires |header| == HEADER_SIZE && size > 0
    ensures PacketValidation(header, size) <==> FromNetwork(header[..4]) % Kept(size) == 0xdead_beef % Kept(size)
  {
    LowBytes(header[0] as int, header[1] as int, header[2] as int, header[3] as int);
    LowBytes(0xde, 0xad, 0xbe, 0xef);
    if size < 4 {
      Tail(header, size);
    } else {
      assert header[..4] == [header[0], header[1], header[2], header[3]];
      WordIsMagic(header[..4]);
    }
  }

  lemma WordIsMagic(b: Bytes)
    requires |b| == 4
    ensures FromNetwork(b) == 0xdead_beef <==> b == MAGIC
  {
    if FromNetwork(b) == 0xdead_beef {
      NetworkRoundTripBack(b);
      NetworkRoundTripBack(MAGIC);
    }
  }

  function Size(header: Bytes): int
    requires |header| == HEADER_SIZE
  {
    FromNetwork(header[4..])
  }

  const NO_HEADER: Bytes := [0, 0, 0, 0, 0, 0, 0, 0]

  /** recv with MSG_PEEK into the header variable: the bytes that are there overwrite its front. */
  function Peek(header: Bytes, arrived: Bytes): (h: Bytes)
    requires |header| == HEADER_SIZE
    ensures |h| == HEADER_SIZE
  {
    if |arrived| >= HEADER_SIZE then arrived[..HEADER_SIZE] else arrived + header[|arrived|..]
  }

  /** On the first peek of a call, a partial header of a good frame is recognised exactly from its fourth byte on:
      one to three bytes are always rejected. */
  lemma FirstPeek(arrived: Bytes)
    requires 0 < |arrived| < HEADER_SIZE
    ensures PacketValidation(Peek(NO_HEADER, arrived), |arrived|) <==> |arrived| >= 4 && arrived[..4] == MAGIC
  {
    var h, n := Peek(NO_HEADER, arrived), |arrived|;
    if n < 4 {
      assert h[4 - n..4][n - 1] == 0 && MAGIC[4 - n..][n - 1] == 0xef;
    }
  }

  /** After a frame was read in the same call, its header still fills the rest of the variable,
      and every partial header of a good frame passes. */
  lemma LaterPeek(header: Bytes, arrived: Bytes)
    requires |header| == HEADER_SIZE && header[..4] == MAGIC && 0 < |arrived| < HEADER_SIZE
    requires forall i :: 0 <= i < |arrived| && i < 4 ==> arrived[i] == MAGIC[i]
    ensures PacketValidation(Peek(header, arrived), |arrived|)
  {
    var h := Peek(header, arrived);
    forall i | 0 <= i < 4 ensures h[i] == MAGIC[i] {
      assert header[i] == header[..4][i];
    }
    assert h[..4] == MAGIC;
  }

  // ---- Parsing

  /** The first frame of a byte sequence and what follows it, if a whole good frame is there. */
  function ParseFrame(b: Bytes): Option<(Bytes, Bytes)> {
    if |b| < HEADER_SIZE || b[..4] != MAGIC then None
    else
      var size := FromNetwork(b[4..HEADER_SIZE]);
      if |b| < HEADER_SIZE + size then None
      else Some((b[HEADER_SIZE..HEADER_SIZE + size], b[HEADER_SIZE + size..]))
  }

  lemma FrameHead(buf: Bytes, rest: Bytes)
    ensures var b := Frame(buf) + rest;
            && |b| == HEADER_SIZE + |buf| + |rest|
            && b[..HEADER_SIZE] == Header(|buf|)
            && b[..4] == MAGIC
            && FromNetwork(b[4..HEADER_SIZE]) == |buf| % TWO_32
            && b[HEADER_SIZE..HEADER_SIZE + |buf|] == buf
            && b[HEADER_SIZE + |buf|..] == rest
  {
    var b := Frame(buf) + rest;
    assert b[4..HEADER_SIZE] == ToNetwork(|buf| % TWO_32);
    NetworkRoundTrip(|buf| % TWO_32);
  }

  /** A framed buffer is read back, whatever follows it, exactly when its length fits in 32 bits. */
  lemma ParseFrameRoundTrip(buf: Bytes, rest: Bytes)
    ensures ParseFrame(Frame(buf) + rest) == Some((buf, rest)) <==> |buf| < TWO_32
  {
    FrameHead(buf, rest);
    var size := |buf| % TWO_32;
    if |buf| >= TWO_32 {
      assert size < |buf|;
    }
  }

  ghost predicate AllShort(bufs: seq<Bytes>) {
    forall b :: b in bufs ==> |b| < TWO_32
  }

  lemma Append3<T>(s: seq<T>, a: seq<T>, b: seq<T>)
    ensures s + a + b == s + (a + b)
  {
  }

  lemma {:induction false} FramesConcat(a: seq<Bytes>, b: seq<Bytes>)
    ensures Frames(a + b) == Frames(a) + Frames(b)
  {
    if a == [] {
      assert a + b == b && Frames(a) + Frames(b) == Frames(b);
    } else {
      FramesConcat(a[1..], b);
      assert (a + b)[0] == a[0] && (a + b)[1..] == a[1..] + b;
      Append3(Frame(a[0]), Frames(a[1..]), Frames(b));
    }
  }

  lemma FirstDecode(a: Bytes, x: Bytes, b: Bytes, y: Bytes)
    requires |a| < TWO_32 && |b| < TWO_32 && Frame(a) + x == Frame(b) + y
    ensures a == b && x == y
  {
    ParseFrameRoundTrip(a, x);
    ParseFrameRoundTrip(b, y);
  }

  lemma PrefixCons<T>(a: seq<T>, b: seq<T>)
    requires 0 < |a| <= |b| && a[0] == b[0] && a[1..] == b[1..][..|a| - 1]
    ensures a == b[..|a|] && b[1..][|a| - 1..] == b[|a|..]
  {
    assert b[1..][..|a| - 1] == b[1..|a|];
    assert a == [a[0]] + a[1..];
  }

  /** Frames can be cut in one way only: whoever has read some frames off a framed stream has read
      its first buffers, and the rest of the stream is the frames of the others. */
  lemma {:induction false} FramesDecode(got: seq<Bytes>, rest: Bytes, bufs: seq<Bytes>)
    requires AllShort(got) && AllShort(bufs) && Frames(got) + rest == Frames(bufs)
    ensures |got| <= |bufs| && got == bufs[..|got|] && rest == Frames(bufs[|got|..])
  {
    if got == [] {
      assert Frames(got) + rest == rest;
    } else {
      assert Frames(bufs) == Frame(got[0]) + (Frames(got[1..]) + rest);
      FrameHead(got[0], Frames(got[1..]) + rest);
      FirstDecode(got[0], Frames(got[1..]) + rest, bufs[0], Frames(bufs[1..]));
      FramesDecode(got[1..], rest, bufs[1..]);
      PrefixCons(got, bufs);
    }
  }

  /** Nothing is lost or split: two lists of short buffers with the same frames are the same list. */
  lemma FramesInjective(a: seq<Bytes>, b: seq<Bytes>)
    requires AllShort(a) && AllShort(b) && Frames(a) == Frames(b)
    ensures a == b
  {
    assert Frames(a) + [] == Frames(b);
    FramesDecode(a, [], b);
    FramesEmpty(b[|a|..]);
  }

  lemma FramesEmpty(bufs: seq<Bytes>)
    ensures Frames(bufs) == [] <==> bufs == []
  {
    if bufs != [] {
      FrameHead(bufs[0], Frames(bufs[1..]));
    }
  }

  lemma NetworkRoundTripBack(b: Bytes)
    requires |b| == 4
    ensures ToNetwork(FromNetwork(b)) == b
  {
    var n := FromNetwork(b);
    assert n / 0x100 == b[0] as int * 0x1_0000 + b[1] as int * 0x100 + b[2] as int;
    assert n / 0x1_0000 == b[0] as int * 0x100 + b[1] as int;
  }

  /** Bytes with the magic and their own length in front are the frame of the rest. */
  lemma WholeFrame(frame: Bytes)
    requires |frame| >= HEADER_SIZE && frame[..4] == MAGIC
    requires |frame| == HEADER_SIZE + FromNetwork(frame[4..HEADER_SIZE])
    ensures frame == Frame(frame[HEADER_SIZE..])
    ensures |frame[HEADER_SIZE..]| < TWO_32
  {
    NetworkRoundTripBack(frame[4..HEADER_SIZE]);
    assert frame == frame[..4] + frame[4..HEADER_SIZE] + frame[HEADER_SIZE..];
  }

  // ---- What one call of the receiver can meet

  /** What the header variable of a call holds after more bodies were read. */
  function LastHeader(header: Bytes, bodies: seq<Bytes>): (h: Bytes)
    requires |header| == HEADER_SIZE
    ensures |h| == HEADER_SIZE
  {
    if bodies == [] then header else Header(|bodies[|bodies| - 1]|)
  }

  /** What a peek sees of the bytes that are there. */
  function Peeked(there: nat): nat {
    if there < HEADER_SIZE then there else HEADER_SIZE
  }

  /** With so many of the following bytes there, the peek fails the validation. */
  predicate Rejected(header: Bytes, rest: Bytes, there: nat)
    requires |header| == HEADER_SIZE
  {
    && 0 < there <= |rest|
    && !PacketValidation(Peek(header, rest[..Peeked(there)]), Peeked(there))
  }

  /** A good header is there, but not all of its frame. */
  predicate Truncated(b: Bytes) {
    |b| >= HEADER_SIZE && b[..4] == MAGIC && |b| < HEADER_SIZE + FromNetwork(b[4..HEADER_SIZE])
  }

  lemma FramesStart(bufs: seq<Bytes>, there: nat)
    requires bufs != [] && |bufs[0]| < TWO_32 && there <= |Frames(bufs)|
    ensures var b := Frames(bufs);
            && |b| >= HEADER_SIZE && b[..4] == MAGIC
            && (Truncated(b[..there]) <==> HEADER_SIZE <= there < |Frame(bufs[0])|)
  {
    var b := Frames(bufs);
    FrameHead(bufs[0], Frames(bufs[1..]));
    assert b == Frame(bufs[0]) + Frames(bufs[1..]);
    if there >= HEADER_SIZE {
      assert b[..there][..4] == b[..4];
      assert b[..there][4..HEADER_SIZE] == b[..HEADER_SIZE][4..];
      assert b[4..HEADER_SIZE] == b[..HEADER_SIZE][4..];
      assert b[..HEADER_SIZE] == Header(|bufs[0]|);
      assert Header(|bufs[0]|)[4..] == ToNetwork(|bufs[0]|);
      NetworkRoundTrip(|bufs[0]|);
    }
  }

  /** On a stream of frames a call reads the first buffers and leaves the frames of the others.  With so many bytes of
      these there when it stops, it gives up on the framing exactly when its first peek sees one to three bytes, and it
      finds a truncated frame exactly when a header is there and the frame is not: never when all has arrived. */
  lemma FramedReception(bufs: seq<Bytes>, bodies: seq<Bytes>, rest: Bytes, there: nat)
    requires AllShort(bufs) && AllShort(bodies) && Frames(bufs) == Frames(bodies) + rest && there <= |rest|
    ensures |bodies| <= |bufs| && bodies == bufs[..|bodies|] && rest == Frames(bufs[|bodies|..])
    ensures rest == [] <==> bodies == bufs
    ensures Rejected(LastHeader(NO_HEADER, bodies), rest, there) <==> bodies == [] && 0 < there < 4
    ensures Truncated(rest[..there]) <==>
              |bodies| < |bufs| && HEADER_SIZE <= there < |Frame(bufs[|bodies|])|
    ensures there == |rest| ==> !Truncated(rest[..there]) && (there < HEADER_SIZE ==> rest == [])
  {
    DecodeAll(bodies, rest, bufs);
    FramesDecode(bodies, rest, bufs);
    if rest != [] {
      var left := bufs[|bodies|..];
      FramesEmpty(left);
      FramesStart(left, there);
      FrameHead(left[0], Frames(left[1..]));
      if there > 0 {
        PartialPeek(bodies, rest, there);
      }
    }
  }

  lemma PartialPeek(bodies: seq<Bytes>, rest: Bytes, there: nat)
    requires 0 < there <= |rest| && |rest| >= 4 && rest[..4] == MAGIC
    ensures Rejected(LastHeader(NO_HEADER, bodies), rest, there) <==> bodies == [] && there < 4
  {
    var arrived := rest[..Peeked(there)];
    if there >= HEADER_SIZE {
      assert arrived[..4] == rest[..4];
    } else if bodies == [] {
      FirstPeek(arrived);
      assert there >= 4 ==> arrived[..4] == rest[..4];
    } else {
      forall i | 0 <= i < |arrived| && i < 4 ensures arrived[i] == MAGIC[i] {
        assert rest[i] == rest[..4][i];
      }
      LaterPeek(LastHeader(NO_HEADER, bodies), arrived);
    }
  }

  /** Whoever has read some frames off a framed stream has read all of them exactly when nothing is left. */
  lemma DecodeAll(got: seq<Bytes>, rest: Bytes, bufs: seq<Bytes>)
    requires AllShort(got) && AllShort(bufs) && Frames(got) + rest == Frames(bufs)
    ensures |got| <= |bufs| && got == bufs[..|got|]
    ensures rest == [] <==> got == bufs
  {
    FramesDecode(got, rest, bufs);
    FramesEmpty(bufs[|got|..]);
    WholePrefix(got, bufs);
    assert rest == [] <==> bufs[|got|..] == [];
  }

  lemma WholePrefix<T>(a: seq<T>, b: seq<T>)
    requires |a| <= |b| && a == b[..|a|]
    ensures b[|a|..] == [] <==> a == b
  {
  }
}
