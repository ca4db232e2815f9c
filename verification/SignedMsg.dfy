/** Signed envelopes of `crypto/signed_msg.h`: digest, 64-bit length, plain text. */
module SignedMsg {
  import opened Bytes

  const HEADER: nat := HASH_SIZE + 8
  const TWO64: nat := TWO32 * TWO32

  function Sign(attest: Attest, m: seq<byte>): (b: seq<byte>)
    ensures |b| == HEADER + |m|
  {
    attest(m) + Le(|m|, 8) + m
  }

  method SignMsg(attest: Attest, plain: seq<byte>, buf: array<byte>) returns (ok: bool)
    requires HEADER + |plain| <= buf.Length
    modifies buf
    ensures ok && buf[..] == Sign(attest, plain) + old(buf[HEADER + |plain|..])
  {
    var digest := attest(plain);
    if |digest| != HASH_SIZE {
      return false;
    }
    ghost var before, header := buf[..], digest + Le(|plain|, 8);
    var offset := 0;
    Memcpy(buf, offset, digest);
    offset := offset + |digest|;
    Memcpy(buf, offset, Le(|plain|, 8));
    assert buf[..] == Splice(before, 0, header) by { SplicesJoin(before, 0, digest, Le(|plain|, 8)); }
    offset := offset + 8;
    Memcpy(buf, offset, plain);
    assert buf[..] == Splice(before, 0, header + plain) by { SplicesJoin(before, 0, header, plain); }
    SpliceAtFront(before, header + plain);
    return true;
  }

  /** The plain-text length an envelope claims. */
  function LengthOf(b: seq<byte>): nat
    requires HEADER <= |b|
  {
    FromLe(b[HASH_SIZE..HEADER])
  }

  /** The source reads as many bytes as the envelope claims, unchecked. */
  predicate Readable(b: seq<byte>) {
    HEADER <= |b| && HEADER + LengthOf(b) <= |b|
  }

  function PlainOf(b: seq<byte>): seq<byte>
    requires Readable(b)
  {
    b[HEADER..HEADER + LengthOf(b)]
  }

  predicate Accepts(attest: Attest, b: seq<byte>) {
    Readable(b) && attest(PlainOf(b)) == b[..HASH_SIZE]
  }

  /** `verify_get_msg`: the length as a 32-bit int and the plain text, or -1 and one zero byte. */
  method VerifyGetMsg(attest: Attest, b: seq<byte>) returns (size: int, data: array<byte>)
    requires Readable(b)
    ensures fresh(data)
    ensures Accepts(attest, b) ==> size == ToInt32(LengthOf(b)) && data[..] == PlainOf(b)
    ensures !Accepts(attest, b) ==> size == -1 && data[..] == Zeros(1)
  {
    var plainSz := FromLe(b[HASH_SIZE..HASH_SIZE + 8]);
    var digest := attest(b[HEADER..HEADER + plainSz]);
    if digest == b[..HASH_SIZE] {
      data := Calloc(plainSz);
      Memcpy(data, 0, b[HEADER..HEADER + plainSz]);
      size := ToInt32(plainSz);
    } else {
      size := -1;
      data := Calloc(1);
    }
  }

  /** Unwrapping a signed message gives the message back, whatever bytes follow it. */
  lemma SignedUnwraps(attest: Attest, m: seq<byte>, more: seq<byte>)
    requires |m| < TWO64
    ensures Accepts(attest, Sign(attest, m) + more)
    ensures LengthOf(Sign(attest, m) + more) == |m| && PlainOf(Sign(attest, m) + more) == m
  {
    var b := Sign(attest, m) + more;
    assert b[HASH_SIZE..HEADER] == Le(|m|, 8);
    Le64RoundTrip(|m|);
    assert b[..HASH_SIZE] == attest(m);
  }

  /** The reported size is the length exactly below 2^31. */
  lemma ReportedSize(attest: Attest, m: seq<byte>, more: seq<byte>)
    requires |m| < TWO64
    ensures LengthOf(Sign(attest, m) + more) == |m|
    ensures ToInt32(LengthOf(Sign(attest, m) + more)) == |m| <==> |m| < TWO31
  {
    SignedUnwraps(attest, m, more);
  }

  lemma PrefixInParts(b: seq<byte>, i: nat, j: nat, k: nat)
    requires i <= j <= k <= |b|
    ensures b[..i] + b[i..j] + b[j..k] == b[..k]
  {
  }

  lemma AcceptedIsSigned(attest: Attest, b: seq<byte>)
    requires Accepts(attest, b)
    ensures |PlainOf(b)| < TWO64 && Sign(attest, PlainOf(b)) == b[..HEADER + |PlainOf(b)|]
  {
    FromLeRoundTrip(b[HASH_SIZE..HEADER]);
    Widths();
    PrefixInParts(b, HASH_SIZE, HEADER, HEADER + LengthOf(b));
  }

  /** Verification accepts exactly the buffers that begin with a signed message. */
  lemma AcceptsExactlySigned(attest: Attest, b: seq<byte>)
    ensures Accepts(attest, b) <==> exists m: seq<byte> :: |m| < TWO64 && Sign(attest, m) <= b
  {
    if Accepts(attest, b) {
      AcceptedIsSigned(attest, b);
      assert Sign(attest, PlainOf(b)) <= b;
    }
    if m: seq<byte> :| |m| < TWO64 && Sign(attest, m) <= b {
      var more := b[|Sign(attest, m)|..];
      assert b == Sign(attest, m) + more;
      SignedUnwraps(attest, m, more);
    }
  }

  // ----- nesting -----

  /** m signed, then for each trailer in turn: the trailer appended and the whole signed again. */
  function Nest(attest: Attest, m: seq<byte>, trailers: seq<seq<byte>>): seq<byte>
    decreases |trailers|
  {
    if trailers == [] then Sign(attest, m)
    else Sign(attest, Nest(attest, m, trailers[..|trailers| - 1]) + trailers[|trailers| - 1])
  }

  /** Unwraps `depth` envelopes; None when one is not accepted. */
  function Unwrap(attest: Attest, b: seq<byte>, depth: nat): Option<seq<byte>>
    decreases depth
  {
    if depth == 0 then Some(b)
    else if !Accepts(attest, b) then None
    else Unwrap(attest, PlainOf(b), depth - 1)
  }

  lemma {:induction false} UnwrapDropsTrailer(attest: Attest, m: seq<byte>, trailers: seq<seq<byte>>, more: seq<byte>)
    requires |Nest(attest, m, trailers)| < TWO64
    ensures |m| < TWO64
    ensures Unwrap(attest, Nest(attest, m, trailers) + more, |trailers| + 1) == Some(m)
    decreases |trailers|
  {
    if trailers == [] {
      SignedUnwraps(attest, m, more);
    } else {
      var n := |trailers| - 1;
      var inner := Nest(attest, m, trailers[..n]) + trailers[n];
      SignedUnwraps(attest, inner, more);
      UnwrapDropsTrailer(attest, m, trailers[..n], trailers[n]);
    }
  }
}
