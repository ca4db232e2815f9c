/** Length-prefixed framing of `network_bench/authenticators`: a big-endian 32-bit length, the
    payload, and the loops that cope with partial sends and receives. */
module Framing {
  import opened Bytes

  const LENGTH_FIELD: nat := 4
  const MAX_RETRIES: nat := 10000

  // ----- the codec -----

  /** Four bytes, most significant first; larger sizes lose their high bits. */
  function Be32(n: nat): (b: seq<byte>)
    ensures |b| == LENGTH_FIELD
  {
    [n / 0x100_0000 % 256, n / 0x1_0000 % 256, n / 0x100 % 256, n % 256]
  }

  function FromBe32(b: seq<byte>): nat
    requires LENGTH_FIELD <= |b|
  {
    b[0] as int * 0x100_0000 + b[1] as int * 0x1_0000 + b[2] as int * 0x100 + b[3]
  }

  /** The length field holds a size exactly when it fits 32 bits. */
  lemma LengthRoundTrip(n: nat)
    ensures FromBe32(Be32(n)) == n % TWO32
    ensures FromBe32(Be32(n)) == n <==> n < TWO32
  {
    var a, b, c := n / 0x100, n / 0x1_0000, n / 0x100_0000;
    assert n == a * 256 + n % 256;
    assert a == b * 256 + a % 256 by { assert b == a / 256; }
    assert b == c * 256 + b % 256 by { assert c == b / 256; }
    assert c == c / 256 * 256 + c % 256;
    assert n == c / 256 * TWO32 + FromBe32(Be32(n));
  }

  method ConvertIntToByteArray(dst: array<byte>, sz: nat)
    requires LENGTH_FIELD <= dst.Length
    modifies dst
    ensures dst[..] == Be32(sz) + old(dst[LENGTH_FIELD..])
    ensures 0x100_0000 * dst[0] as int + 0x1_0000 * dst[1] as int + 0x100 * dst[2] as int + dst[3] == sz % TWO32
  {
    LengthRoundTrip(sz);
    dst[0] := sz / 0x100_0000 % 256;
    dst[1] := sz / 0x1_0000 % 256;
    dst[2] := sz / 0x100 % 256;
    dst[3] := sz % 256;
  }

  function Frame(p: seq<byte>): seq<byte> { Be32(|p|) + p }

  method ConstructMessage(dst: array<byte>, payload: seq<byte>)
    requires LENGTH_FIELD + |payload| <= dst.Length
    modifies dst
    ensures dst[..] == Frame(payload) + old(dst[LENGTH_FIELD + |payload|..])
  {
    ConvertIntToByteArray(dst, |payload|);
    Memcpy(dst, LENGTH_FIELD, payload);
  }

  /** `destruct_message`: None when fewer than four bytes are at hand. */
  function DestructMessage(msg: seq<byte>): Option<nat> {
    if |msg| < LENGTH_FIELD then None else Some(FromBe32(msg))
  }

  // ----- the socket -----

  function Min(a: int, b: int): int { if a <= b then a else b }

  /** What one `recv` of at most `max` bytes returns, given what the network grants it:
      negative for "nothing yet", otherwise a count.  With no grants left the peer has closed. */
  function RecvCount(inbox: seq<byte>, grants: seq<int>, max: nat): (r: int)
    ensures r <= max && r <= |inbox|
  {
    if grants == [] then 0 else if grants[0] < 0 then -1 else Min(grants[0], Min(max, |inbox|))
  }

  function Rest(grants: seq<int>): seq<int> { if grants == [] then [] else grants[1..] }

  /** How many bytes `read_n` ends up with, and the grants it leaves. */
  function ReadCount(inbox: seq<byte>, grants: seq<int>, n: nat, got: nat, retries: nat): (r: (nat, seq<int>))
    requires got <= n && got <= |inbox| && retries <= MAX_RETRIES
    ensures got <= r.0 <= n && r.0 <= |inbox|
    decreases n - got, |grants|, MAX_RETRIES - retries
  {
    if got == n then (got, grants)
    else
      var now := RecvCount(inbox[got..], grants, n - got);
      if now == 0 then
        if retries >= MAX_RETRIES then (got, Rest(grants)) else ReadCount(inbox, Rest(grants), n, got, retries + 1)
      else if now > 0 then ReadCount(inbox, Rest(grants), n, got + now, 0)
      else ReadCount(inbox, Rest(grants), n, got, retries)
  }

  /** The read loop, from here, will end with this count and these grants. */
  predicate EndsAs(inbox: seq<byte>, grants: seq<int>, n: nat, got: nat, retries: nat, end: (nat, seq<int>)) {
    && got <= n && got <= |inbox| && retries <= MAX_RETRIES
    && ReadCount(inbox, grants, n, got, retries) == end
  }

  /** One turn of the read loop, after a receive that returned `now` and left `rest`. */
  lemma ReadStep(inbox: seq<byte>, grants: seq<int>, n: nat, got: nat, retries: nat, end: (nat, seq<int>),
                 now: int, rest: seq<int>)
    requires got < n && EndsAs(inbox, grants, n, got, retries, end)
    requires now == RecvCount(inbox[got..], grants, n - got) && rest == Rest(grants)
    ensures now == 0 && retries >= MAX_RETRIES ==> end == (got, rest)
    ensures now == 0 && retries < MAX_RETRIES ==> EndsAs(inbox, rest, n, got, retries + 1, end)
    ensures now > 0 ==> EndsAs(inbox, rest, n, got + now, 0, end)
    ensures now < 0 ==> EndsAs(inbox, rest, n, got, retries, end)
  {
  }

  /** Copying the next k bytes of `all` extends the part of the buffer already read. */
  lemma SpliceGrows(all: seq<byte>, was: seq<byte>, done: nat, k: nat)
    requires done + k <= |all| && done + k <= |was|
    ensures Splice(all[..done] + was[done..], done, all[done..][..k]) == all[..done + k] + was[done + k..]
    ensures all[done..][k..] == all[done + k..]
  {
  }

  predicate NonNegative(grants: seq<int>) {
    forall i :: 0 <= i < |grants| ==> grants[i] >= 0
  }

  /** One end of a connection: bytes to come in, bytes sent, and what the network will grant. */
  class Socket {
    var inbox: seq<byte>
    var grants: seq<int>
    var wire: seq<byte>
    var sendGrants: seq<int>

    constructor (inbox: seq<byte>, grants: seq<int>, sendGrants: seq<int>)
      ensures this.inbox == inbox && this.grants == grants && this.sendGrants == sendGrants && wire == []
    {
      this.inbox, this.grants, this.sendGrants, wire := inbox, grants, sendGrants, [];
    }

    method Recv(buffer: array<byte>, at: nat, max: nat) returns (r: int)
      requires at + max <= buffer.Length
      modifies this`inbox, this`grants, buffer
      ensures r == RecvCount(old(inbox), old(grants), max) && grants == Rest(old(grants))
      ensures r <= 0 ==> buffer[..] == old(buffer[..]) && inbox == old(inbox)
      ensures r > 0 ==> buffer[..] == Splice(old(buffer[..]), at, old(inbox)[..r]) && inbox == old(inbox)[r..]
    {
      r := RecvCount(inbox, grants, max);
      grants := Rest(grants);
      if r > 0 {
        Memcpy(buffer, at, inbox[..r]);
        inbox := inbox[r..];
      }
    }

    /** Reads n bytes, or fewer after more than MAX_RETRIES empty reads in a row. */
    method ReadN(buffer: array<byte>, n: nat) returns (bytesRead: nat)
      requires n <= buffer.Length
      modifies this`inbox, this`grants, buffer
      ensures (bytesRead, grants) == ReadCount(old(inbox), old(grants), n, 0, 0)
      ensures buffer[..] == old(inbox)[..bytesRead] + old(buffer[bytesRead..]) && inbox == old(inbox)[bytesRead..]
    {
      bytesRead := 0;
      var retries := 0;
      ghost var all, was, end := inbox, buffer[..], ReadCount(inbox, grants, n, 0, 0);
      while bytesRead < n
        invariant bytesRead <= n && bytesRead <= |all| && retries <= MAX_RETRIES
        invariant EndsAs(all, grants, n, bytesRead, retries, end)
        invariant buffer[..] == all[..bytesRead] + was[bytesRead..] && inbox == all[bytesRead..]
        decreases n - bytesRead, |grants|, MAX_RETRIES - retries
      {
        ghost var granted := grants;
        var now := Recv(buffer, bytesRead, n - bytesRead);
        ReadStep(all, granted, n, bytesRead, retries, end, now, grants);
        if now == 0 {
          if retries >= MAX_RETRIES {
            return;
          }
          retries := retries + 1;
        } else if now > 0 {
          SpliceGrows(all, was, bytesRead, now);
          bytesRead := bytesRead + now;
          retries := 0;
        }
      }
    }

    method SecureRecv() returns (r: Option<seq<byte>>)
      modifies this`inbox, this`grants
      ensures (r, inbox, grants) == Receive(old(inbox), old(grants))
    {
      var dlen := Calloc(LENGTH_FIELD);
      var got := ReadN(dlen, LENGTH_FIELD);
      if got != LENGTH_FIELD {
        return None;
      }
      var size := DestructMessage(dlen[..]);
      if size.None? {
        return None;
      }
      var buf := Calloc(size.value);
      assert dlen[..] == old(inbox)[..LENGTH_FIELD];
      got := ReadN(buf, size.value);
      if got != size.value {
        return None;
      }
      assert buf[..] == old(inbox)[LENGTH_FIELD..][..got];
      return Some(buf[..]);
    }

    /** One `send`: negative on error, otherwise how many bytes went out. */
    method Send(data: seq<byte>) returns (r: int)
      modifies this`wire, this`sendGrants
      ensures r == SendCount(old(sendGrants), |data|) && sendGrants == Rest(old(sendGrants))
      ensures wire == if r < 0 then old(wire) else old(wire) + data[..r]
    {
      r := SendCount(sendGrants, |data|);
      sendGrants := Rest(sendGrants);
      if r >= 0 { wire := wire + data[..r]; }
    }

    /** All of the data goes out, whatever the partial sends, or an error stops it part way. */
    method SecureSend(data: seq<byte>) returns (r: Option<nat>)
      modifies this`wire, this`sendGrants
      ensures r.Some? ==> r.value == |data| && wire == old(wire) + data
      ensures r.None? ==> exists k: nat :: k < |data| && wire == old(wire) + data[..k]
      ensures NonNegative(old(sendGrants)) ==> r.Some? && NonNegative(sendGrants)
    {
      var remaining: nat, tmp: nat := |data|, 0;
      while remaining > 0
        invariant tmp + remaining == |data| && wire == old(wire) + data[..tmp]
        invariant NonNegative(old(sendGrants)) ==> NonNegative(sendGrants)
        decreases remaining, |sendGrants|
      {
        var bytes := Send(data[tmp..]);
        if bytes < 0 {
          return None;
        }
        assert data[..tmp] + data[tmp..][..bytes] == data[..tmp + bytes];
        remaining := remaining - bytes;
        tmp := tmp + bytes;
      }
      assert data[..tmp] == data;
      return Some(|data|);
    }
  }

  /** With no send grants left the socket takes everything. */
  function SendCount(grants: seq<int>, len: nat): (r: int)
    ensures r <= len
  {
    if grants == [] then len else if grants[0] < 0 then -1 else Min(grants[0], len)
  }

  /** `secure_recv` on the bytes to come: the payload or a failure, and what is left over. */
  function Receive(inbox: seq<byte>, grants: seq<int>): (Option<seq<byte>>, seq<byte>, seq<int>) {
    var (h, g1) := ReadCount(inbox, grants, LENGTH_FIELD, 0, 0);
    if h != LENGTH_FIELD then (None, inbox[h..], g1)
    else
      var size, rest := FromBe32(inbox[..h]), inbox[h..];
      var (c, g2) := ReadCount(rest, g1, size, 0, 0);
      (if c != size then None else Some(rest[..c]), rest[c..], g2)
  }

  /** `recv_ack` gives up on a failed receive and on an empty payload. */
  function RecvAck(inbox: seq<byte>, grants: seq<int>): Option<seq<byte>> {
    match Receive(inbox, grants).0
    case None => None
    case Some(p) => if p == [] then None else Some(p)
  }

  /** Receives until a receive fails, at most k times. */
  function ReceiveAll(inbox: seq<byte>, grants: seq<int>, k: nat): seq<seq<byte>>
    decreases k
  {
    if k == 0 then []
    else
      var (p, rest, g) := Receive(inbox, grants);
      match p
      case None => []
      case Some(d) => [d] + ReceiveAll(rest, g, k - 1)
  }

  // ----- end to end -----

  function Stream(ps: seq<seq<byte>>): seq<byte> {
    if ps == [] then [] else Frame(ps[0]) + Stream(ps[1..])
  }

  /** Payloads whose size fits the length field. */
  predicate Sendable(ps: seq<seq<byte>>) {
    forall i :: 0 <= i < |ps| ==> |ps[i]| < TWO32
  }

  lemma SendableTail(ps: seq<seq<byte>>)
    requires Sendable(ps) && ps != []
    ensures |ps[0]| < TWO32 && Sendable(ps[1..])
  {
  }

  /** Sends one frame after another. */
  method SendAll(s: Socket, ps: seq<seq<byte>>) returns (ok: bool)
    modifies s`wire, s`sendGrants
    ensures ok ==> s.wire == old(s.wire) + Stream(ps)
    ensures NonNegative(old(s.sendGrants)) ==> ok
  {
    for k := 0 to |ps|
      invariant s.wire + Stream(ps[k..]) == old(s.wire) + Stream(ps)
      invariant NonNegative(old(s.sendGrants)) ==> NonNegative(s.sendGrants)
    {
      var msg := Calloc(LENGTH_FIELD + |ps[k]|);
      ConstructMessage(msg, ps[k]);
      ghost var before, rest := s.wire, Stream(ps[k + 1..]);
      assert msg[..] == Frame(ps[k]) && ps[k..][1..] == ps[k + 1..];
      var r := s.SecureSend(msg[..]);
      if r.None? {
        return false;
      }
      assert before + (Frame(ps[k]) + rest) == (before + Frame(ps[k])) + rest;
    }
    assert s.wire + [] == s.wire;
    return true;
  }

  /** A whole frame at the front of the stream is received intact, or the receive fails. */
  lemma FrontFrame(p: seq<byte>, more: seq<byte>, grants: seq<int>)
    requires |p| < TWO32
    ensures var (d, rest, g) := Receive(Frame(p) + more, grants);
            d.Some? ==> d.value == p && rest == more
  {
    var inbox := Frame(p) + more;
    assert inbox[..LENGTH_FIELD] == Be32(|p|) && inbox[LENGTH_FIELD..] == p + more;
    LengthRoundTrip(|p|);
  }

  lemma ConsPrefix(ps: seq<seq<byte>>, later: seq<seq<byte>>, all: seq<seq<byte>>)
    requires ps != [] && later <= ps[1..] && all == [ps[0]] + later
    ensures all <= ps
  {
  }

  lemma StreamStarts(ps: seq<seq<byte>>, more: seq<byte>)
    requires ps != []
    ensures Stream(ps) + more == Frame(ps[0]) + (Stream(ps[1..]) + more)
  {
  }

  lemma ReceiveAllStep(inbox: seq<byte>, grants: seq<int>, k: nat, d: Option<seq<byte>>, rest: seq<byte>, g: seq<int>)
    requires k > 0 && Receive(inbox, grants) == (d, rest, g)
    ensures ReceiveAll(inbox, grants, k) == if d.None? then [] else [d.value] + ReceiveAll(rest, g, k - 1)
  {
  }

  /** The first receive: the payload at the front and then the rest of the stream, or a failure. */
  lemma FirstReceive(p: seq<byte>, tail: seq<byte>, inbox: seq<byte>, grants: seq<int>, k: nat, all: seq<seq<byte>>)
    returns (got: bool, g: seq<int>, later: seq<seq<byte>>)
    requires |p| < TWO32 && inbox == Frame(p) + tail && k > 0 && all == ReceiveAll(inbox, grants, k)
    ensures later == ReceiveAll(tail, g, k - 1) && all == if got then [p] + later else []
  {
    var d, rest;
    FrontFrame(p, tail, grants);
    d, rest, g := Receive(inbox, grants).0, Receive(inbox, grants).1, Receive(inbox, grants).2;
    ReceiveAllStep(inbox, grants, k, d, rest, g);
    got, later := d.Some?, ReceiveAll(tail, g, k - 1);
  }

  lemma {:induction false} AllReceivedIsPrefix(ps: seq<seq<byte>>, more: seq<byte>, inbox: seq<byte>, grants: seq<int>, k: nat,
                                               all: seq<seq<byte>>)
    requires Sendable(ps) && k <= |ps| && inbox == Stream(ps) + more && all == ReceiveAll(inbox, grants, k)
    ensures all <= ps
    decreases k
  {
    if k > 0 {
      var tail := Stream(ps[1..]) + more;
      SendableTail(ps);
      StreamStarts(ps, more);
      var got, g, later := FirstReceive(ps[0], tail, inbox, grants, k, all);
      if got {
        AllReceivedIsPrefix(ps[1..], more, tail, g, k - 1, later);
        ConsPrefix(ps, later, all);
      }
    }
  }

  /** Safety under every chunking: whatever the grants, what has been received is a prefix of
      what was sent, message by message. */
  lemma ReceivedIsPrefix(ps: seq<seq<byte>>, more: seq<byte>, grants: seq<int>, k: nat)
    requires Sendable(ps) && k <= |ps|
    ensures ReceiveAll(Stream(ps) + more, grants, k) <= ps
  {
    AllReceivedIsPrefix(ps, more, Stream(ps) + more, grants, k, ReceiveAll(Stream(ps) + more, grants, k));
  }

  /** At most MAX_RETRIES empty reads between productive ones, z of them already seen. */
  predicate Patient(grants: seq<int>, z: nat) {
    if grants == [] then true
    else if grants[0] > 0 then Patient(grants[1..], 0)
    else if grants[0] == 0 then z < MAX_RETRIES && Patient(grants[1..], z + 1)
    else Patient(grants[1..], z)
  }

  function Productive(grants: seq<int>): nat {
    if grants == [] then 0 else (if grants[0] > 0 then 1 else 0) + Productive(grants[1..])
  }

  /** Patient grants with a productive one per byte fill every read. */
  lemma {:induction false} PatientReadFills(inbox: seq<byte>, grants: seq<int>, n: nat, got: nat, retries: nat)
    requires got <= n <= |inbox| && retries <= MAX_RETRIES
    requires Patient(grants, retries) && n - got <= Productive(grants)
    requires got == n ==> retries == 0
    ensures var (c, g) := ReadCount(inbox, grants, n, got, retries);
            c == n && Patient(g, 0) && Productive(grants) <= Productive(g) + (n - got)
    decreases n - got, |grants|
  {
    if got < n {
      var now := RecvCount(inbox[got..], grants, n - got);
      if now > 0 {
        PatientReadFills(inbox, grants[1..], n, got + now, 0);
      } else if now == 0 {
        PatientReadFills(inbox, grants[1..], n, got, retries + 1);
      } else {
        PatientReadFills(inbox, grants[1..], n, got, retries);
      }
    }
  }

  /** The empty reads before the first productive one; negative results do not count. */
  function EmptyReads(grants: seq<int>): nat {
    if grants == [] || grants[0] > 0 then 0
    else (if grants[0] == 0 then 1 else 0) + EmptyReads(grants[1..])
  }

  /** The other side of the retry limit: more than 10000 empty reads before a productive one
      end a read where it stands. */
  lemma {:induction false} ReadGivesUp(inbox: seq<byte>, grants: seq<int>, n: nat, got: nat, retries: nat)
    requires got < n && got <= |inbox| && retries <= MAX_RETRIES
    requires 10000 < retries + EmptyReads(grants)
    ensures ReadCount(inbox, grants, n, got, retries).0 == got
    decreases |grants|
  {
    if grants[0] < 0 {
      ReadGivesUp(inbox, grants[1..], n, got, retries);
    } else if retries < MAX_RETRIES {
      ReadGivesUp(inbox, grants[1..], n, got, retries + 1);
    }
  }

  lemma FrontFrameArrives(p: seq<byte>, more: seq<byte>, grants: seq<int>)
    requires |p| < TWO32 && Patient(grants, 0) && |Frame(p)| <= Productive(grants)
    ensures var (d, rest, g) := Receive(Frame(p) + more, grants);
            d == Some(p) && rest == more && Patient(g, 0) && Productive(grants) <= Productive(g) + |Frame(p)|
  {
    var inbox := Frame(p) + more;
    FrontFrame(p, more, grants);
    assert inbox[..LENGTH_FIELD] == Be32(|p|) && inbox[LENGTH_FIELD..] == p + more;
    LengthRoundTrip(|p|);
    PatientReadFills(inbox, grants, LENGTH_FIELD, 0, 0);
    var g1 := ReadCount(inbox, grants, LENGTH_FIELD, 0, 0).1;
    PatientReadFills(p + more, g1, |p|, 0, 0);
  }

  /** The first receive under a patient schedule: the payload at the front, then the rest. */
  lemma FirstArrives(p: seq<byte>, tail: seq<byte>, inbox: seq<byte>, grants: seq<int>, k: nat, all: seq<seq<byte>>)
    returns (g: seq<int>, later: seq<seq<byte>>)
    requires |p| < TWO32 && Patient(grants, 0) && |Frame(p)| <= Productive(grants)
    requires inbox == Frame(p) + tail && k > 0 && all == ReceiveAll(inbox, grants, k)
    ensures later == ReceiveAll(tail, g, k - 1) && all == [p] + later
    ensures Patient(g, 0) && Productive(grants) <= Productive(g) + |Frame(p)|
  {
    FrontFrameArrives(p, tail, grants);
    g := Receive(inbox, grants).2;
    ReceiveAllStep(inbox, grants, k, Some(p), tail, g);
    later := ReceiveAll(tail, g, k - 1);
  }

  lemma {:induction false} AllArrive(ps: seq<seq<byte>>, more: seq<byte>, inbox: seq<byte>, grants: seq<int>,
                                     all: seq<seq<byte>>)
    requires Sendable(ps) && Patient(grants, 0) && |Stream(ps)| <= Productive(grants)
    requires inbox == Stream(ps) + more && all == ReceiveAll(inbox, grants, |ps|)
    ensures all == ps
    decreases |ps|
  {
    if ps != [] {
      var rest, tail := ps[1..], Stream(ps[1..]) + more;
      SendableTail(ps);
      StreamStarts(ps, more);
      assert |Stream(ps)| == |Frame(ps[0])| + |Stream(rest)|;
      var g, later := FirstArrives(ps[0], tail, inbox, grants, |ps|, all);
      AllArrive(rest, more, tail, g, later);
      assert ps == [ps[0]] + rest;
    }
  }

  /** Completeness: under every patient chunking with enough productive reads, exactly the
      list that was sent is received. */
  lemma PatientReceiverGetsAll(ps: seq<seq<byte>>, more: seq<byte>, grants: seq<int>)
    requires Sendable(ps) && Patient(grants, 0) && |Stream(ps)| <= Productive(grants)
    ensures ReceiveAll(Stream(ps) + more, grants, |ps|) == ps
  {
    AllArrive(ps, more, Stream(ps) + more, grants, ReceiveAll(Stream(ps) + more, grants, |ps|));
  }

  /** `recv_ack` hands over a payload exactly when one was received and it is not empty. */
  lemma AckIsNonEmptyReceive(inbox: seq<byte>, grants: seq<int>)
    ensures var got := Receive(inbox, grants).0;
            && (RecvAck(inbox, grants).Some? <==> got.Some? && got.value != [])
            && (RecvAck(inbox, grants).Some? ==> RecvAck(inbox, grants) == got)
  {
  }

  /** `recv_ack` hands over a received frame exactly when its payload is not empty. */
  lemma AckNeedsPayload(p: seq<byte>, more: seq<byte>, grants: seq<int>)
    requires |p| < TWO32 && Patient(grants, 0) && |Frame(p)| <= Productive(grants)
    ensures RecvAck(Frame(p) + more, grants) == Some(p) <==> p != []
  {
    FrontFrameArrives(p, more, grants);
  }
}
