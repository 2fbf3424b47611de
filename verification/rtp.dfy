// RTP framing of voice packets (voice/udp/connection.go); section 5.1 of RFC 3550 gives the header.

module RTP {
  import opened Optional

  type byte = x: int | 0 <= x < 0x100
  type uint16 = x: int | 0 <= x < 0x1_0000
  type uint32 = x: int | 0 <= x < 0x1_0000_0000
  type bytes = seq<byte>

  const HEADER_SIZE := 12
  const BUFFER_SIZE := 1400
  const OVERHEAD := 16

  /** secretbox: what Seal seals, Open opens, and Open fails on anything too short. */
  datatype Box = Box(seal: (bytes, bytes, bytes) -> bytes, open: (bytes, bytes, bytes) -> Option<bytes>)

  ghost predicate IsBox(box: Box) {
    && (forall m, n, k :: |box.seal(m, n, k)| == |m| + OVERHEAD && box.open(box.seal(m, n, k), n, k) == Some(m))
    && (forall c, n, k :: box.open(c, n, k).Some? ==> |c| == |box.open(c, n, k).value| + OVERHEAD)
  }

  function Put16(v: uint16): bytes {
    [v / 0x100, v % 0x100]
  }

  function Get16(b: bytes): uint16
    requires |b| == 2
  {
    var high: int := b[0];
    high * 0x100 + b[1]
  }

  function Put32(v: uint32): bytes {
    Put16(v / 0x1_0000) + Put16(v % 0x1_0000)
  }

  function Get32(b: bytes): uint32
    requires |b| == 4
  {
    var high: int := Get16(b[..2]);
    high * 0x1_0000 + Get16(b[2..])
  }

  /** Version 2, no flags; payload type 0x78. */
  function Header(sequence: uint16, timestamp: uint32, ssrc: uint32): (h: bytes)
    ensures |h| == HEADER_SIZE
  {
    [0x80, 0x78] + Put16(sequence) + Put32(timestamp) + Put32(ssrc)
  }

  function Nonce(header: bytes): bytes {
    header + [0, 0, 0, 0, 0, 0, 0, 0, 0, 0, 0, 0]
  }

  /** A packet received: its header and its payload. */
  datatype Packet = Packet(header: bytes, opus: bytes) {
    function VersionFlags(): byte
      requires |header| == HEADER_SIZE
    {
      header[0]
    }

    function Type(): byte
      requires |header| == HEADER_SIZE
    {
      header[1]
    }

    function Sequence(): uint16
      requires |header| == HEADER_SIZE
    {
      Get16(header[2..4])
    }

    function Timestamp(): uint32
      requires |header| == HEADER_SIZE
    {
      Get32(header[4..8])
    }

    function SSRC(): uint32
      requires |header| == HEADER_SIZE
    {
      Get32(header[8..12])
    }
  }

  lemma Get16Put16(v: uint16)
    ensures Get16(Put16(v)) == v
  {
  }

  lemma Get32Put32(v: uint32)
    ensures Get32(Put32(v)) == v
  {
    hide Put16, Get16;
    Lengths(v / 0x1_0000, v);
    Lengths(v % 0x1_0000, v);
    assert Put32(v)[..2] == Put16(v / 0x1_0000) && Put32(v)[2..] == Put16(v % 0x1_0000);
    Get16Put16(v / 0x1_0000);
    Get16Put16(v % 0x1_0000);
  }

  /** The accessors decode what Write encodes. */
  lemma HeaderRoundTrip(sequence: uint16, timestamp: uint32, ssrc: uint32, opus: bytes)
    ensures var p := Packet(Header(sequence, timestamp, ssrc), opus);
            && p.VersionFlags() == 0x80 && p.Type() == 0x78
            && p.Sequence() == sequence && p.Timestamp() == timestamp && p.SSRC() == ssrc
  {
    hide Put16, Put32, Get16, Get32;
    var h := Header(sequence, timestamp, ssrc);
    assert |Put16(sequence)| == 2 && |Put32(timestamp)| == 4 && |Put32(ssrc)| == 4 by {
      Lengths(sequence, timestamp);
      Lengths(sequence, ssrc);
    }
    assert h[2..4] == Put16(sequence) && h[4..8] == Put32(timestamp) && h[8..12] == Put32(ssrc);
    Get16Put16(sequence);
    Get32Put32(timestamp);
    Get32Put32(ssrc);
  }

  lemma Lengths(v: uint16, w: uint32)
    ensures |Put16(v)| == 2 && |Put32(w)| == 4
  {
  }

  // Counters.

  function Wrap16(n: int): uint16 {
    n % 0x1_0000
  }

  function Wrap32(n: int): uint32 {
    n % 0x1_0000_0000
  }

  /** The n-th header from some starting values on. */
  function HeaderAt(sequence: uint16, timestamp: uint32, incr: uint32, ssrc: uint32, n: nat): bytes {
    Header(Wrap16(sequence + n), Wrap32(timestamp + n * incr), ssrc)
  }

  lemma HeadersDiffer(s: uint16, t: uint32, s': uint16, t': uint32, ssrc: uint32)
    ensures Header(s, t, ssrc) == Header(s', t', ssrc) <==> s == s' && t == t'
  {
    hide Header;
    HeaderRoundTrip(s, t, ssrc, []);
    HeaderRoundTrip(s', t', ssrc, []);
  }

  lemma Wrap32Equal(x: int, y: int)
    ensures Wrap32(x) == Wrap32(y) <==> Wrap32(y - x) == 0
  {
  }

  lemma Wrap16Equal(x: int, y: int)
    ensures Wrap16(x) == Wrap16(y) <==> Wrap16(y - x) == 0
  {
  }

  /** Two headers are the same exactly when both counters have gone around. */
  lemma SameHeaderIff(s: uint16, t: uint32, incr: uint32, ssrc: uint32, i: nat, j: nat)
    requires i <= j
    ensures HeaderAt(s, t, incr, ssrc, i) == HeaderAt(s, t, incr, ssrc, j)
            <==> Wrap16(j - i) == 0 && Wrap32((j - i) * incr) == 0
  {
    hide Header, Wrap16, Wrap32;
    HeadersDiffer(Wrap16(s + i), Wrap32(t + i * incr), Wrap16(s + j), Wrap32(t + j * incr), ssrc);
    Wrap16Equal(s + i, s + j);
    Wrap32Equal(t + i * incr, t + j * incr);
    assert (t + j * incr) - (t + i * incr) == (j - i) * incr;
  }

  /** After how many packets the headers of a documented increment repeat. */
  function Period(incr: uint32): nat {
    match incr
    case 480 => 0x800_0000
    case 960 => 0x400_0000
    case 1920 => 0x200_0000
    case 2880 => 0x400_0000
    case _ => 0
  }

  predicate Documented(incr: uint32) {
    incr in {480, 960, 1920, 2880}
  }

  // The increments are 15 or 45 times a power of two. An odd factor has an inverse modulo a power of
  // two, so it makes no difference.

  lemma Quotient32(n: nat) returns (t: nat)
    requires Wrap32(n) == 0
    ensures n == 0x1_0000_0000 * t
  {
    t := n / 0x1_0000_0000;
  }

  lemma Multiple32(t: int)
    ensures Wrap32(0x1_0000_0000 * t) == 0
  {
  }

  lemma Multiple16(t: int)
    ensures Wrap16(0x1_0000 * t) == 0
  {
  }

  lemma Divides480(d: nat, t: int)
    requires d * 480 == 0x1_0000_0000 * t
    ensures d % 0x800_0000 == 0
  {
    assert 15 * d == 0x800_0000 * t;
    assert d == 0x800_0000 * (116322031 * t - 13 * d);
  }

  lemma Wraps480(d: nat)
    ensures Wrap32(d * 480) == 0 <==> d % 0x800_0000 == 0
    ensures d % 0x800_0000 == 0 ==> Wrap16(d) == 0
  {
    hide Wrap16, Wrap32;
    if Wrap32(d * 480) == 0 {
      var t := Quotient32(d * 480);
      Divides480(d, t);
    }
    if d % 0x800_0000 == 0 {
      var k := d / 0x800_0000;
      assert d * 480 == 0x1_0000_0000 * (15 * k) && d == 0x1_0000 * (2048 * k);
      Multiple32(15 * k);
      Multiple16(2048 * k);
    }
  }

  lemma Divides960(d: nat, t: int)
    requires d * 960 == 0x1_0000_0000 * t
    ensures d % 0x400_0000 == 0
  {
    assert 15 * d == 0x400_0000 * t;
    assert d == 0x400_0000 * (49213167 * t - 11 * d);
  }

  lemma Wraps960(d: nat)
    ensures Wrap32(d * 960) == 0 <==> d % 0x400_0000 == 0
    ensures d % 0x400_0000 == 0 ==> Wrap16(d) == 0
  {
    hide Wrap16, Wrap32;
    if Wrap32(d * 960) == 0 {
      var t := Quotient32(d * 960);
      Divides960(d, t);
    }
    if d % 0x400_0000 == 0 {
      var k := d / 0x400_0000;
      assert d * 960 == 0x1_0000_0000 * (15 * k) && d == 0x1_0000 * (1024 * k);
      Multiple32(15 * k);
      Multiple16(1024 * k);
    }
  }

  lemma Divides1920(d: nat, t: int)
    requires d * 1920 == 0x1_0000_0000 * t
    ensures d % 0x200_0000 == 0
  {
    assert 15 * d == 0x200_0000 * t;
    assert d == 0x200_0000 * (15658735 * t - 7 * d);
  }

  lemma Wraps1920(d: nat)
    ensures Wrap32(d * 1920) == 0 <==> d % 0x200_0000 == 0
    ensures d % 0x200_0000 == 0 ==> Wrap16(d) == 0
  {
    hide Wrap16, Wrap32;
    if Wrap32(d * 1920) == 0 {
      var t := Quotient32(d * 1920);
      Divides1920(d, t);
    }
    if d % 0x200_0000 == 0 {
      var k := d / 0x200_0000;
      assert d * 1920 == 0x1_0000_0000 * (15 * k) && d == 0x1_0000 * (512 * k);
      Multiple32(15 * k);
      Multiple16(512 * k);
    }
  }

  lemma Divides2880(d: nat, t: int)
    requires d * 2880 == 0x1_0000_0000 * t
    ensures d % 0x400_0000 == 0
  {
    assert 45 * d == 0x400_0000 * t;
    assert d == 0x400_0000 * (16404389 * t - 11 * d);
  }

  lemma Wraps2880(d: nat)
    ensures Wrap32(d * 2880) == 0 <==> d % 0x400_0000 == 0
    ensures d % 0x400_0000 == 0 ==> Wrap16(d) == 0
  {
    hide Wrap16, Wrap32;
    if Wrap32(d * 2880) == 0 {
      var t := Quotient32(d * 2880);
      Divides2880(d, t);
    }
    if d % 0x400_0000 == 0 {
      var k := d / 0x400_0000;
      assert d * 2880 == 0x1_0000_0000 * (45 * k) && d == 0x1_0000 * (1024 * k);
      Multiple32(45 * k);
      Multiple16(1024 * k);
    }
  }

  lemma WrapsAtPeriod(incr: uint32, d: nat)
    requires Documented(incr)
    ensures Wrap32(d * incr) == 0 <==> d % Period(incr) == 0
    ensures d % Period(incr) == 0 ==> Wrap16(d) == 0
  {
    hide Wrap32, Wrap16;
    if incr == 480 {
      Wraps480(d);
    } else if incr == 960 {
      Wraps960(d);
    } else if incr == 1920 {
      Wraps1920(d);
    } else {
      Wraps2880(d);
    }
  }

  /** Headers repeat exactly after each period: two Writes at another distance never share one. */
  lemma HeadersRepeatIff(s: uint16, t: uint32, incr: uint32, ssrc: uint32, i: nat, j: nat)
    requires i <= j && Documented(incr)
    ensures HeaderAt(s, t, incr, ssrc, i) == HeaderAt(s, t, incr, ssrc, j) <==> (j - i) % Period(incr) == 0
  {
    hide HeaderAt, Wrap16, Wrap32, Period;
    SameHeaderIff(s, t, incr, ssrc, i, j);
    WrapsAtPeriod(incr, j - i);
  }

  /** Fewer than 2 to the 25th Writes apart, headers differ, and so do the nonces made of them. */
  lemma NearbyNoncesDiffer(s: uint16, t: uint32, incr: uint32, ssrc: uint32, i: nat, j: nat)
    requires i < j < i + 0x200_0000 && Documented(incr)
    ensures Nonce(HeaderAt(s, t, incr, ssrc, i)) != Nonce(HeaderAt(s, t, incr, ssrc, j))
  {
    hide HeaderAt;
    var h, h' := HeaderAt(s, t, incr, ssrc, i), HeaderAt(s, t, incr, ssrc, j);
    HeadersRepeatIff(s, t, incr, ssrc, i, j);
    assert |h| == |h'| == HEADER_SIZE by { HeaderSize(s, t, incr, ssrc, i); HeaderSize(s, t, incr, ssrc, j); }
    assert Nonce(h)[..HEADER_SIZE] == h && Nonce(h')[..HEADER_SIZE] == h';
  }

  lemma HeaderSize(s: uint16, t: uint32, incr: uint32, ssrc: uint32, n: nat)
    ensures |HeaderAt(s, t, incr, ssrc, n)| == HEADER_SIZE
  {
  }

  // Sending and receiving.

  function Datagram(box: Box, secret: bytes, header: bytes, m: bytes): bytes {
    header + box.seal(m, Nonce(header), secret)
  }

  /** What reading a datagram into the buffer leaves of it. */
  function Received(d: bytes): bytes {
    if |d| > BUFFER_SIZE then d[..BUFFER_SIZE] else d
  }

  /** Version 2, with or without the extension flag, and no other flags. */
  predicate Acceptable(d: bytes) {
    |d| >= HEADER_SIZE && d[0] in {0x80, 0x90}
  }

  /** The length of the header extension that a payload starts with. */
  function ExtensionSize(m: bytes): nat
    requires |m| >= 4
  {
    4 + 4 * Get16(m[2..4])
  }

  predicate HasExtension(header: bytes)
    requires |header| == HEADER_SIZE
  {
    header[0] / 0x10 % 2 == 1 && header[1] < 0x80
  }

  function Stripped(header: bytes, m: bytes): bytes
    requires |header| == HEADER_SIZE
  {
    if HasExtension(header) && |m| >= 4 && |m| > ExtensionSize(m) then m[ExtensionSize(m)..] else m
  }

  datatype ReadResult = ReadError | DecryptionFailed | Got(packet: Packet)

  function Opened(box: Box, secret: bytes, d: bytes): ReadResult
    requires |d| >= HEADER_SIZE
  {
    var header := d[..HEADER_SIZE];
    var m := box.open(d[HEADER_SIZE..], Nonce(header), secret);
    if m.None? then DecryptionFailed else Got(Packet(header, Stripped(header, m.value)))
  }

  datatype WriteResult = Wrote(n: nat) | TickerStopped | WriteError

  class Connection {
    const box: Box
    const ssrc: uint32
    var secret: bytes
    var frameDuration: nat   // the period of the frequency ticker, in milliseconds
    var timeIncr: uint32
    var sequence: uint16
    var timestamp: uint32
    const packet: array<byte>
    const recvBuf: array<byte>
    const recvOpus: array<byte>
    // The counters when the time increment was last set, and the Writes since then.
    ghost var firstSequence: uint16
    ghost var firstTimestamp: uint32
    ghost var writes: nat

    ghost predicate Valid()
      reads this, packet
    {
      && IsBox(box)
      && packet.Length == HEADER_SIZE && recvBuf.Length == BUFFER_SIZE && recvOpus.Length == BUFFER_SIZE
      && packet != recvBuf && packet != recvOpus && recvBuf != recvOpus
      && packet[0] == 0x80 && packet[1] == 0x78 && packet[8..12] == Put32(ssrc)
      && sequence == Wrap16(firstSequence + writes) && timestamp == Wrap32(firstTimestamp + writes * timeIncr)
    }

    constructor (box: Box, ssrc: uint32)
      requires IsBox(box)
      ensures Valid() && fresh(packet) && fresh(recvBuf) && fresh(recvOpus)
      ensures this.box == box && this.ssrc == ssrc && frameDuration == 20 && timeIncr == 960
      ensures sequence == 0 && timestamp == 0
    {
      this.box, this.ssrc := box, ssrc;
      secret, frameDuration, timeIncr, sequence, timestamp := [], 20, 960, 0, 0;
      firstSequence, firstTimestamp, writes := 0, 0, 0;
      packet := new byte[HEADER_SIZE](_ => 0);
      recvBuf := new byte[BUFFER_SIZE](_ => 0);
      recvOpus := new byte[BUFFER_SIZE](_ => 0);
      new;
      packet[0], packet[1] := 0x80, 0x78;
      PutBytes(packet, 8, Put32(ssrc));
    }

    method ResetFrequency(frameDuration: nat, timeIncr: uint32)
      requires Valid()
      modifies this
      ensures Valid() && this.frameDuration == frameDuration && this.timeIncr == timeIncr
      ensures writes == 0 && firstSequence == old(sequence) && firstTimestamp == old(timestamp)
      ensures sequence == old(sequence) && timestamp == old(timestamp) && secret == old(secret)
    {
      hide IsBox, Wrap16, Wrap32, Put32;
      StartsThere(sequence, timestamp, timeIncr);
      this.frameDuration, this.timeIncr := frameDuration, timeIncr;
      firstSequence, firstTimestamp, writes := sequence, timestamp, 0;
    }

    /** `ticks` says that the frequency clock ticks rather than stops, `writable` that the socket takes
        the datagram. The counters go on in every case. */
    method Write(b: bytes, ticks: bool, writable: bool) returns (r: WriteResult, sent: Option<bytes>)
      requires Valid()
      modifies this`sequence, this`timestamp, this`writes, packet
      ensures Valid() && writes == old(writes) + 1
      ensures sequence == Wrap16(old(sequence) + 1) && timestamp == Wrap32(old(timestamp) + timeIncr)
      ensures var h := HeaderAt(firstSequence, firstTimestamp, timeIncr, ssrc, old(writes));
              sent == if ticks then Some(Datagram(box, secret, h, b)) else None
      ensures r == if !ticks then TickerStopped else if writable then Wrote(|b|) else WriteError
    {
      hide IsBox, HeaderAt, Wrap16, Wrap32;
      var header := NextHeader();
      var toSend := header + box.seal(b, Nonce(header), secret);
      if !ticks {
        return TickerStopped, None;
      }
      sent := Some(toSend);
      if !writable {
        return WriteError, sent;
      }
      return Wrote(|b|), sent;
    }

    /** The part of Write that fills in the header and moves the counters on. */
    method NextHeader() returns (header: bytes)
      requires Valid()
      modifies this`sequence, this`timestamp, this`writes, packet
      ensures Valid() && writes == old(writes) + 1
      ensures sequence == Wrap16(old(sequence) + 1) && timestamp == Wrap32(old(timestamp) + timeIncr)
      ensures header == HeaderAt(firstSequence, firstTimestamp, timeIncr, ssrc, old(writes))
    {
      hide IsBox, Wrap16, Wrap32, Put16, Put32;
      Lengths(sequence, timestamp);
      Lengths(sequence, ssrc);
      HeaderBytes(packet[..], sequence, timestamp, ssrc);
      PutBytes(packet, 2, Put16(sequence));
      PutBytes(packet, 4, Put32(timestamp));
      header := packet[..];
      Next16(firstSequence + writes);
      Next32(firstTimestamp + writes * timeIncr, timeIncr);
      assert (writes + 1) * timeIncr == writes * timeIncr + timeIncr;
      sequence := Wrap16(sequence + 1);
      timestamp := Wrap32(timestamp + timeIncr);
      writes := writes + 1;
    }

    /** Reads datagrams until one has the right version; a read error ends the incoming ones. */
    method ReadPacket(incoming: seq<bytes>) returns (r: ReadResult, used: nat)
      requires Valid()
      modifies recvBuf, recvOpus
      ensures Valid() && used <= |incoming|
      ensures forall j :: 0 <= j < (if r == ReadError then used else used - 1) ==> !Acceptable(Received(incoming[j]))
      ensures if r == ReadError then used == |incoming|
              else 0 < used && Acceptable(Received(incoming[used - 1]))
                   && r == Opened(box, secret, Received(incoming[used - 1]))
    {
      hide IsBox, Wrap16, Wrap32, Put32, Nonce, Stripped;
      used := 0;
      while used < |incoming|
        invariant Valid() && used <= |incoming|
        invariant forall j :: 0 <= j < used ==> !Acceptable(Received(incoming[j]))
      {
        var d := Received(incoming[used]);
        PutBytes(recvBuf, 0, d);
        var i := |d|;
        used := used + 1;
        if i < HEADER_SIZE || (recvBuf[0] != 0x80 && recvBuf[0] != 0x90) {
          continue;
        }
        var header := recvBuf[..HEADER_SIZE];
        assert header == d[..HEADER_SIZE] && recvBuf[HEADER_SIZE..i] == d[HEADER_SIZE..];
        Shorter(d[HEADER_SIZE..], Nonce(header));
        var plain := box.open(recvBuf[HEADER_SIZE..i], Nonce(header), secret);
        if plain.None? {
          return DecryptionFailed, used;
        }
        var opus := StripExtension(header, plain.value);
        return Got(Packet(header, opus)), used;
      }
      return ReadError, used;
    }

    lemma Shorter(c: bytes, nonce: bytes)
      requires IsBox(box)
      ensures box.open(c, nonce, secret).Some? ==> |box.open(c, nonce, secret).value| <= |c|
    {
    }

    /** The end of ReadPacket, on a payload just decrypted into its buffer. */
    method StripExtension(header: bytes, plain: bytes) returns (opus: bytes)
      requires |header| == HEADER_SIZE && recvOpus.Length == BUFFER_SIZE && |plain| <= BUFFER_SIZE
      modifies recvOpus
      ensures opus == Stripped(header, plain)
    {
      PutBytes(recvOpus, 0, plain);
      opus := plain;
      if header[0] / 0x10 % 2 == 1 && !(header[1] >= 0x80) {
        // Bytes 2 and 3 of the buffer, which may be left over from an earlier packet.
        var extLen: int := Get16(recvOpus[2..4]);
        var shift := 4 + 4 * extLen;
        assert |opus| >= 4 ==> recvOpus[2..4] == opus[2..4];
        if |opus| > shift {
          opus := opus[shift..];
        }
      }
    }
  }

  /** Copies bytes into an array. */
  method PutBytes(a: array<byte>, at: nat, b: bytes)
    requires at + |b| <= a.Length
    modifies a
    ensures a[..] == old(a[..at]) + b + old(a[at + |b|..])
  {
    forall i | 0 <= i < |b| {
      a[at + i] := b[i];
    }
  }

  /** Both counters written over a header give the header with those counters. */
  lemma HeaderBytes(p: bytes, s: uint16, t: uint32, ssrc: uint32)
    requires |p| == HEADER_SIZE && p[0] == 0x80 && p[1] == 0x78 && p[8..12] == Put32(ssrc)
    ensures |Put16(s)| == 2 && |Put32(t)| == 4
    ensures var q := p[..2] + Put16(s) + p[4..];
            q[..4] + Put32(t) + q[8..] == Header(s, t, ssrc)
  {
    hide Put16, Put32;
    Lengths(s, t);
  }

  lemma StartsThere(s: uint16, t: uint32, incr: uint32)
    ensures Wrap16(s + 0) == s && Wrap32(t + 0 * incr) == t
  {
  }

  lemma Next16(n: int)
    ensures Wrap16(Wrap16(n) + 1) == Wrap16(n + 1)
  {
  }

  lemma Next32(n: int, incr: int)
    ensures Wrap32(Wrap32(n) + incr) == Wrap32(n + incr)
  {
  }

  /** A datagram fits the receiver's buffer exactly when the packet has at most 1372 bytes. */
  lemma FitsIff(box: Box, secret: bytes, s: uint16, t: uint32, ssrc: uint32, b: bytes)
    requires IsBox(box)
    ensures var d := Datagram(box, secret, Header(s, t, ssrc), b);
            |d| == 28 + |b| && (Received(d) == d <==> |b| <= 1372)
  {
    var d := Datagram(box, secret, Header(s, t, ssrc), b);
    assert |d| > 1400 ==> |Received(d)| < |d|;
  }

  /** The nonce is the header, filled up with zeros. */
  lemma NonceIs(header: bytes)
    requires |header| == 12
    ensures |Nonce(header)| == 24 && Nonce(header)[..12] == header
    ensures forall i :: 12 <= i < 24 ==> Nonce(header)[i] == 0
  {
    assert Nonce(header)[12..] == [0, 0, 0, 0, 0, 0, 0, 0, 0, 0, 0, 0];
    assert forall i :: 12 <= i < 24 ==> Nonce(header)[i] == Nonce(header)[12..][i - 12];
  }

  /** What is let through: section 5.1 of RFC 3550 with version 2, no padding and no contributing sources. */
  lemma AcceptableIff(d: bytes)
    ensures Acceptable(d) <==> |d| >= 12 && d[0] / 0x40 == 2 && d[0] / 0x20 % 2 == 0 && d[0] % 0x10 == 0
  {
    if d != [] {
      Fields(d[0]);
    }
  }

  lemma Fields(v: byte)
    ensures v / 0x40 == 2 && v / 0x20 % 2 == 0 && v % 0x10 == 0 <==> v == 0x80 || v == 0x90
  {
  }

  /** A packet that fits the receiver's buffer arrives as it was written. */
  lemma WriteReadRoundTrip(box: Box, secret: bytes, s: uint16, t: uint32, ssrc: uint32, b: bytes)
    requires IsBox(box) && |b| <= 1372
    ensures var d := Received(Datagram(box, secret, Header(s, t, ssrc), b));
            Acceptable(d) && Opened(box, secret, d) == Got(Packet(Header(s, t, ssrc), b))
  {
    var h := Header(s, t, ssrc);
    var d := Datagram(box, secret, h, b);
    assert h[0] == 0x80;
    assert d[..HEADER_SIZE] == h && d[HEADER_SIZE..] == box.seal(b, Nonce(h), secret);
  }

  /** The extension flag is set, and the marker, by which control packets are told from data, is not. */
  predicate Extended(header: bytes)
    requires |header| == 12
  {
    header[0] / 0x10 % 2 == 1 && header[1] < 0x80
  }

  /** Section 5.3.1 of RFC 3550: bytes 2 and 3 give the length in words after the first four bytes. */
  predicate IsExtension(extension: bytes) {
    |extension| >= 4
    && var high: int := extension[2]; |extension| == 4 + 4 * (256 * high + extension[3])
  }

  /** A payload that starts with a header extension loses it, unless nothing follows: section
      5.3.1 of RFC 3550 would leave an empty payload. */
  lemma ExtensionIsStrippedIff(header: bytes, extension: bytes, body: bytes)
    requires |header| == 12 && Extended(header) && IsExtension(extension)
    ensures Stripped(header, extension + body) == if body != [] then body else extension
  {
    var m := extension + body;
    assert m[2..4] == extension[2..4];
    if body != [] {
      assert m[|extension|..] == body;
    }
  }

  /** Nothing else is ever cut off. */
  lemma StrippedIff(header: bytes, m: bytes)
    requires |header| == 12
    ensures Stripped(header, m) != m <==> Extended(header) && exists n :: 0 <= n < |m| && IsExtension(m[..n])
  {
    hide IsExtension;
    if Stripped(header, m) != m {
      var n := ExtensionSize(m);
      CutsAnExtension(m);
      assert IsExtension(m[..n]);
    }
    if n :| Extended(header) && 0 <= n < |m| && IsExtension(m[..n]) {
      assert m == m[..n] + m[n..];
      ExtensionIsStrippedIff(header, m[..n], m[n..]);
      assert |m[n..]| < |m| by { AtLeastFour(m[..n]); }
    }
  }

  lemma CutsAnExtension(m: bytes)
    requires |m| >= 4 && |m| >= ExtensionSize(m)
    ensures IsExtension(m[..ExtensionSize(m)])
  {
    assert m[..ExtensionSize(m)][2..4] == m[2..4];
  }

  lemma AtLeastFour(extension: bytes)
    requires IsExtension(extension)
    ensures |extension| >= 4
  {
  }

  /** So a packet that carries an extension is received without it. */
  lemma ExtendedRoundTrip(box: Box, secret: bytes, header: bytes, extension: bytes, body: bytes)
    requires IsBox(box) && |header| == 12 && header[0] == 0x90 && header[1] < 0x80
    requires IsExtension(extension) && body != [] && |extension + body| <= 1372
    ensures var d := Received(Datagram(box, secret, header, extension + body));
            Acceptable(d) && Opened(box, secret, d) == Got(Packet(header, body))
  {
    hide Stripped, IsExtension;
    ExtensionIsStrippedIff(header, extension, body);
    var d := Datagram(box, secret, header, extension + body);
    assert d[..HEADER_SIZE] == header && d[HEADER_SIZE..] == box.seal(extension + body, Nonce(header), secret);
  }
}
