// Datagrams over a byte stream: each is sent behind a four-byte big-endian
// length, and read back into a caller's buffer however the stream is cut up.
module Frames {
  import opened Bytes
  import Seqs

  // No IP packet carries more, so both ends of a tunnel read into buffers of this size.
  const MAX_DATAGRAM: nat := 65535

  const HEADER: nat := 4

  // ---- the wire form

  // BigEndian.PutUint32 of uint32(n): lengths wrap at 2^32.
  function Header(n: nat): (h: seq<byte>)
    ensures |h| == HEADER
  {
    [(n / 0x100 / 0x100 / 0x100 % 0x100) as byte, (n / 0x100 / 0x100 % 0x100) as byte,
     (n / 0x100 % 0x100) as byte, (n % 0x100) as byte]
  }

  function Length(h: seq<byte>): nat
    requires |h| == HEADER
  {
    h[0] as nat * 0x100_0000 + h[1] as nat * 0x1_0000 + h[2] as nat * 0x100 + h[3] as nat
  }

  lemma HeaderWraps(n: nat)
    ensures Length(Header(n)) == n % 0x1_0000_0000
  {
    var q1 := n / 0x100;
    var q2 := q1 / 0x100;
    var q3 := q2 / 0x100;
    var q4 := q3 / 0x100;
    assert n == q1 * 0x100 + n % 0x100;
    assert q1 == q2 * 0x100 + q1 % 0x100;
    assert q2 == q3 * 0x100 + q2 % 0x100;
    assert q3 == q4 * 0x100 + q3 % 0x100;
    assert n == q4 * 0x1_0000_0000 + Length(Header(n));
    Remainder(n, q4, Length(Header(n)));
  }

  lemma Remainder(n: nat, q: nat, r: nat)
    requires n == q * 0x1_0000_0000 + r && r < 0x1_0000_0000
    ensures n % 0x1_0000_0000 == r
  {
  }

  // a comes before b: where they first differ, a has the smaller byte.
  predicate Before(a: seq<byte>, b: seq<byte>)
    requires |a| == |b|
  {
    a != [] && (a[0] < b[0] || (a[0] == b[0] && Before(a[1..], b[1..])))
  }

  lemma BeforeByLength(a: seq<byte>, b: seq<byte>)
    requires |a| == |b| == HEADER
    ensures Before(a, b) <==> Length(a) < Length(b)
  {
    var a1, b1 := a[1..], b[1..];
    var a2, b2 := a1[1..], b1[1..];
    var a3, b3 := a2[1..], b2[1..];
    assert a1[0] == a[1] && a2[0] == a[2] && a3[0] == a[3] && b1[0] == b[1] && b2[0] == b[2] && b3[0] == b[3];
    assert Before(a3, b3) <==> a[3] < b[3];
    assert Before(a2, b2) <==> a[2] < b[2] || (a[2] == b[2] && Before(a3, b3));
    assert Before(a1, b1) <==> a[1] < b[1] || (a[1] == b[1] && Before(a2, b2));
    assert Before(a, b) <==> a[0] < b[0] || (a[0] == b[0] && Before(a1, b1));
  }

  // Most significant byte first: headers are in the order of the lengths they
  // hold, and a short frame's begins with three zeros.
  lemma HeadersInOrder(n: nat, m: nat)
    requires n < 0x1_0000_0000 && m < 0x1_0000_0000
    ensures Before(Header(n), Header(m)) <==> n < m
    ensures n < 256 ==> Header(n) == [0, 0, 0, n as byte]
  {
    HeaderWraps(n);
    HeaderWraps(m);
    BeforeByLength(Header(n), Header(m));
  }

  function Frame(d: seq<byte>): seq<byte> {
    Header(|d|) + d
  }

  function Frames(ds: seq<seq<byte>>): seq<byte> {
    if ds == [] then [] else Frame(ds[0]) + Frames(ds[1..])
  }

  // ---- reading it

  // AtEnd and CutShort are io.EOF and io.ErrUnexpectedEOF, Broken any other
  // error of the connection.
  datatype Outcome = Got(payload: seq<byte>) | AtEnd | CutShort | TooLong(size: nat) | Broken

  datatype Reading = Reading(outcome: Outcome, rest: seq<byte>)

  // One readFrame of a stream that holds `wire` and then ends, into a buffer of `room` bytes.
  function Next(wire: seq<byte>, room: nat): Reading {
    if wire == [] then Reading(AtEnd, [])
    else if |wire| < HEADER then Reading(CutShort, [])
    else NextBody(Length(wire[..HEADER]), wire[HEADER..], room)
  }

  function NextBody(n: nat, body: seq<byte>, room: nat): Reading {
    if n > room then Reading(TooLong(n), body)
    else if n == 0 then Reading(Got([]), body)
    else if body == [] then Reading(AtEnd, [])
    else if |body| < n then Reading(CutShort, [])
    else Reading(Got(body[..n]), body[n..])
  }

  // What becomes of it if the stream does not end but fails.
  function IfBroken(broken: bool, o: Outcome): Outcome {
    if broken && (o.AtEnd? || o.CutShort?) then Broken else o
  }

  datatype Transcript = Transcript(datagrams: seq<seq<byte>>, last: Outcome)

  // Reading frames until one fails.
  function ReadAll(wire: seq<byte>, room: nat): Transcript
    decreases |wire|
  {
    var r := Next(wire, room);
    if r.outcome.Got? then
      var t := ReadAll(r.rest, room);
      Transcript([r.outcome.payload] + t.datagrams, t.last)
    else
      Transcript([], r.outcome)
  }

  lemma BehindHeader(h: seq<byte>, body: seq<byte>, room: nat)
    requires |h| == HEADER
    ensures Next(h + body, room) == NextBody(Length(h), body, room)
  {
    assert (h + body)[..HEADER] == h && (h + body)[HEADER..] == body;
  }

  lemma BodyIffFits(d: seq<byte>, rest: seq<byte>, room: nat)
    ensures NextBody(|d| % 0x1_0000_0000, d + rest, room) == Reading(Got(d), rest) <==>
            |d| <= room && |d| < 0x1_0000_0000
  {
    if |d| < 0x1_0000_0000 {
      assert (d + rest)[..|d|] == d && (d + rest)[|d|..] == rest;
    }
  }

  // A datagram arrives as it was sent exactly when it fits the reader's
  // buffer and its length fits the header.
  lemma ArrivesIffFits(d: seq<byte>, rest: seq<byte>, room: nat)
    ensures Next(Frame(d) + rest, room) == Reading(Got(d), rest) <==> |d| <= room && |d| < 0x1_0000_0000
    ensures room < |d| < 0x1_0000_0000 ==> Next(Frame(d) + rest, room) == Reading(TooLong(|d|), d + rest)
  {
    var h := Header(|d|);
    Seqs.Assoc(h, d, rest);
    HeaderWraps(|d|);
    BehindHeader(h, d + rest, room);
    BodyIffFits(d, rest, room);
  }

  predicate AllFit(ds: seq<seq<byte>>, room: nat) {
    forall i :: 0 <= i < |ds| ==> |ds[i]| <= room
  }

  // ---- a stream cut anywhere: no datagram is torn, invented or skipped

  // How many of the datagrams lie whole within the first k bytes.
  function Whole(ds: seq<seq<byte>>, k: nat): (n: nat)
    ensures n <= |ds|
  {
    if ds == [] || k < HEADER + |ds[0]| then 0 else 1 + Whole(ds[1..], k - HEADER - |ds[0]|)
  }

  // How much of the next frame got through.
  function Leftover(ds: seq<seq<byte>>, k: nat): nat {
    if ds == [] || k < HEADER + |ds[0]| then k else Leftover(ds[1..], k - HEADER - |ds[0]|)
  }

  lemma ReadStops(wire: seq<byte>, room: nat)
    ensures !Next(wire, room).outcome.Got? ==> ReadAll(wire, room) == Transcript([], Next(wire, room).outcome)
  {
  }

  lemma CutNext(h: seq<byte>, d: seq<byte>, later: seq<byte>, k: nat, room: nat)
    requires |h| == HEADER && Length(h) == |d| <= room
    requires k < HEADER + |d|
    ensures Next((h + d + later)[..k], room).outcome == if k == 0 || k == HEADER then AtEnd else CutShort
  {
    if k >= HEADER {
      TakeBehind(h, d, later, k);
      BehindHeader(h, (d + later)[..k - HEADER], room);
    }
  }

  lemma CutInside(d: seq<byte>, later: seq<byte>, k: nat, room: nat)
    requires |d| <= room < 0x1_0000_0000
    requires k < HEADER + |d|
    ensures ReadAll((Frame(d) + later)[..k], room) == Transcript([], if k == 0 || k == HEADER then AtEnd else CutShort)
  {
    HeaderWraps(|d|);
    CutNext(Header(|d|), d, later, k, room);
    ReadStops((Frame(d) + later)[..k], room);
  }

  lemma TakeBehind(h: seq<byte>, d: seq<byte>, later: seq<byte>, k: nat)
    requires |h| <= k <= |h| + |d|
    ensures (h + d + later)[..k] == h + (d + later)[..k - |h|]
  {
  }

  lemma ReadOneMore(d: seq<byte>, rest: seq<byte>, room: nat)
    requires |d| <= room < 0x1_0000_0000
    ensures ReadAll(Frame(d) + rest, room) == Transcript([d] + ReadAll(rest, room).datagrams, ReadAll(rest, room).last)
  {
    ArrivesIffFits(d, rest, room);
  }

  lemma ReadPast(d: seq<byte>, later: seq<byte>, cut: nat, room: nat)
    requires |d| <= room < 0x1_0000_0000 && cut <= |later|
    ensures ReadAll((Frame(d) + later)[..HEADER + |d| + cut], room) ==
            Transcript([d] + ReadAll(later[..cut], room).datagrams, ReadAll(later[..cut], room).last)
  {
    assert (Frame(d) + later)[..HEADER + |d| + cut] == Frame(d) + later[..cut];
    ReadOneMore(d, later[..cut], room);
  }

  // The reading that a cut after k bytes leaves, datagram by datagram.
  function Through(ds: seq<seq<byte>>, k: nat): Transcript {
    if ds == [] || k < HEADER + |ds[0]| then Transcript([], if k == 0 || k == HEADER then AtEnd else CutShort)
    else
      var t := Through(ds[1..], k - HEADER - |ds[0]|);
      Transcript([ds[0]] + t.datagrams, t.last)
  }

  lemma {:induction false} ThroughIs(ds: seq<seq<byte>>, k: nat)
    ensures Through(ds, k).datagrams == ds[..Whole(ds, k)]
    ensures Through(ds, k).last == if Leftover(ds, k) == 0 || Leftover(ds, k) == HEADER then AtEnd else CutShort
    decreases |ds|
  {
    if ds != [] && k >= HEADER + |ds[0]| {
      ThroughIs(ds[1..], k - HEADER - |ds[0]|);
    }
  }

  lemma {:induction false} ReadThrough(ds: seq<seq<byte>>, k: nat, room: nat)
    requires AllFit(ds, room) && room < 0x1_0000_0000
    requires k <= |Frames(ds)|
    ensures ReadAll(Frames(ds)[..k], room) == Through(ds, k)
    decreases |ds|
  {
    if ds == [] {
    } else if k < HEADER + |ds[0]| {
      CutInside(ds[0], Frames(ds[1..]), k, room);
    } else {
      var cut := k - HEADER - |ds[0]|;
      assert AllFit(ds[1..], room);
      ReadThrough(ds[1..], cut, room);
      ReadPast(ds[0], Frames(ds[1..]), cut, room);
    }
  }

  // Cut anywhere, the stream yields the datagrams that lie whole before the
  // cut. If it is cut between a length and its datagram, it reads like one
  // that ended well.
  lemma CutAnywhere(ds: seq<seq<byte>>, k: nat, room: nat)
    requires AllFit(ds, room) && room < 0x1_0000_0000
    requires k <= |Frames(ds)|
    ensures ReadAll(Frames(ds)[..k], room).datagrams == ds[..Whole(ds, k)]
    ensures ReadAll(Frames(ds)[..k], room).last ==
            if Leftover(ds, k) == 0 || Leftover(ds, k) == HEADER then AtEnd else CutShort
  {
    ReadThrough(ds, k, room);
    ThroughIs(ds, k);
  }

  lemma {:induction false} AllWhole(ds: seq<seq<byte>>)
    ensures Whole(ds, |Frames(ds)|) == |ds| && Leftover(ds, |Frames(ds)|) == 0
  {
    if ds != [] {
      AllWhole(ds[1..]);
    }
  }

  // Any list of datagrams an IP packet can carry is read back as it was written.
  lemma RoundTrip(ds: seq<seq<byte>>)
    requires AllFit(ds, 65535)
    ensures ReadAll(Frames(ds), MAX_DATAGRAM) == Transcript(ds, AtEnd)
  {
    AllWhole(ds);
    CutAnywhere(ds, |Frames(ds)|, MAX_DATAGRAM);
    assert Frames(ds)[..|Frames(ds)|] == Frames(ds);
    assert ds[..|ds|] == ds;
  }

  function Min(a: nat, b: nat): nat {
    if a < b then a else b
  }

  // ---- the two ends

  // A connection being written to, which breaks after `room` more bytes.
  class Sink {
    var sent: seq<byte>
    var room: nat

    constructor (room: nat)
      ensures sent == [] && this.room == room
    {
      sent, this.room := [], room;
    }

    method Write(b: seq<byte>) returns (ok: bool)
      modifies this
      ensures ok <==> |b| <= old(room)
      ensures sent == old(sent) + b[..Min(|b|, old(room))]
      ensures room == old(room) - Min(|b|, old(room))
    {
      var n := Min(|b|, room);
      sent, room := sent + b[..n], room - n;
      ok := n == |b|;
    }

    // A frame goes out whole, or the write fails with a proper prefix of it sent.
    method WriteFrame(b: seq<byte>) returns (ok: bool)
      modifies this
      ensures ok <==> |Frame(b)| <= old(room)
      ensures sent == old(sent) + Frame(b)[..Min(|Frame(b)|, old(room))]
      ensures room == old(room) - Min(|Frame(b)|, old(room))
    {
      ghost var before, space := sent, room;
      ok := Write(Header(|b|));
      if !ok {
        assert Frame(b)[..space] == Header(|b|)[..space];
        return;
      }
      if b == [] {
        assert Frame(b)[..HEADER] == Header(|b|)[..HEADER];
        return;
      }
      ghost var half := sent;
      ok := Write(b);
      ghost var n := Min(|b|, space - HEADER);
      assert Header(|b|)[..HEADER] == Header(|b|);
      assert Frame(b)[..HEADER + n] == Header(|b|) + b[..n];
      assert sent == before + (Header(|b|) + b[..n]);
    }
  }

  function Joined(chunks: seq<seq<byte>>): seq<byte> {
    if chunks == [] then [] else chunks[0] + Joined(chunks[1..])
  }

  // What is left when n bytes of the first piece have been taken.
  function Later(chunks: seq<seq<byte>>, n: nat): seq<seq<byte>>
    requires chunks != [] && n <= |chunks[0]|
  {
    if n == |chunks[0]| then chunks[1..] else [chunks[0][n..]] + chunks[1..]
  }

  lemma JoinedLater(chunks: seq<seq<byte>>, n: nat)
    requires chunks != [] && n <= |chunks[0]|
    ensures chunks[0][..n] + Joined(Later(chunks, n)) == Joined(chunks)
  {
    var c := chunks[0];
    assert c == c[..n] + c[n..];
    if n == |c| {
      assert c[..n] == c;
    } else {
      assert Later(chunks, n)[1..] == chunks[1..];
      Seqs.Assoc(c[..n], c[n..], Joined(chunks[1..]));
    }
  }

  method Copy(buf: array<byte>, lo: nat, piece: seq<byte>)
    requires lo + |piece| <= buf.Length
    modifies buf
    ensures buf[..lo] == old(buf[..lo])
    ensures buf[lo..lo + |piece|] == piece
    ensures buf[lo + |piece|..] == old(buf[lo + |piece|..])
  {
    forall i | 0 <= i < |piece| {
      buf[lo + i] := piece[i];
    }
  }

  // A connection being read from: the pieces in which its bytes will arrive,
  // and whether it then ends or breaks.
  class Source {
    const broken: bool
    var chunks: seq<seq<byte>>

    constructor (chunks: seq<seq<byte>>, broken: bool)
      ensures this.chunks == chunks && this.broken == broken
    {
      this.chunks, this.broken := chunks, broken;
    }

    // One io.Reader call for buf[lo..hi]: what has arrived, as far as it fits.
    method Read(buf: array<byte>, lo: nat, hi: nat) returns (n: nat, end: bool)
      requires lo < hi <= buf.Length
      modifies this, buf
      ensures n <= hi - lo
      ensures buf[lo..lo + n] + Joined(chunks) == old(Joined(chunks))
      ensures buf[..lo] == old(buf[..lo]) && buf[lo + n..] == old(buf[lo + n..])
      ensures end <==> old(chunks) == []
      ensures end ==> n == 0 && chunks == []
      ensures !end ==> |chunks| < |old(chunks)| || (n == hi - lo && |chunks| == |old(chunks)|)
    {
      if chunks == [] {
        return 0, true;
      }
      var c := chunks[0];
      n, end := Min(|c|, hi - lo), false;
      JoinedLater(chunks, n);
      chunks := Later(chunks, n);
      Copy(buf, lo, c[..n]);
    }

    // io.ReadFull into buf[..want].
    method ReadFull(buf: array<byte>, want: nat) returns (got: nat)
      requires 0 < want <= buf.Length
      modifies this, buf
      ensures got == Min(want, |old(Joined(chunks))|)
      ensures buf[..got] == old(Joined(chunks))[..got]
      ensures buf[got..] == old(buf[got..])
      ensures Joined(chunks) == old(Joined(chunks))[got..]
    {
      ghost var wire, was := Joined(chunks), buf[..];
      got := 0;
      var end := false;
      while got < want && !end
        invariant got <= want
        invariant buf[..got] + Joined(chunks) == wire
        invariant buf[got..] == was[got..]
        invariant end ==> chunks == []
        decreases |chunks|, want - got, !end
      {
        ghost var filled, from := buf[..got], got;
        var n;
        n, end := Read(buf, got, want);
        got := got + n;
        assert buf[..got] == filled + buf[from..got];
        assert was[got..] == was[from..][n..];
      }
    }

    // Reads one frame into buf[..n], whatever the pieces it arrives in.
    method ReadFrame(buf: array<byte>) returns (r: Outcome)
      modifies this, buf
      ensures r == IfBroken(broken, Next(old(Joined(chunks)), buf.Length).outcome)
      ensures Joined(chunks) == Next(old(Joined(chunks)), buf.Length).rest
      ensures r.Got? ==> |r.payload| <= buf.Length
                         && buf[..] == r.payload + old(buf[..])[|r.payload|..]
    {
      ghost var wire, was := Joined(chunks), buf[..];
      var header := new byte[HEADER];
      var got := ReadFull(header, HEADER);
      if got < HEADER {
        return if broken then Broken else if got == 0 then AtEnd else CutShort;
      }
      assert header[..] == header[..HEADER] == wire[..HEADER];
      var n := Length(header[..]);
      if n > buf.Length {
        return TooLong(n);
      }
      if n == 0 {
        assert buf[..] == [] + was[0..];
        return Got([]);
      }
      got := ReadFull(buf, n);
      if got < n {
        return if broken then Broken else if got == 0 then AtEnd else CutShort;
      }
      assert buf[..] == buf[..n] + buf[n..];
      r := Got(buf[..n]);
    }

    // The reading half of a tunnel: frame after frame into one buffer, until one fails.
    method ReadFrames(buf: array<byte>) returns (datagrams: seq<seq<byte>>, last: Outcome)
      modifies this, buf
      ensures datagrams == ReadAll(old(Joined(chunks)), buf.Length).datagrams
      ensures last == IfBroken(broken, ReadAll(old(Joined(chunks)), buf.Length).last)
    {
      ghost var all := ReadAll(Joined(chunks), buf.Length);
      datagrams := [];
      while true
        invariant Transcript(datagrams + ReadAll(Joined(chunks), buf.Length).datagrams,
                             ReadAll(Joined(chunks), buf.Length).last) == all
        decreases |Joined(chunks)|
      {
        ghost var rest := ReadAll(Joined(chunks), buf.Length).datagrams;
        last := ReadFrame(buf);
        if !last.Got? {
          assert datagrams + [] == datagrams;
          return;
        }
        ghost var later := ReadAll(Joined(chunks), buf.Length).datagrams;
        assert datagrams + ([last.payload] + later) == datagrams + [last.payload] + later;
        datagrams := datagrams + [last.payload];
      }
    }
  }
}
