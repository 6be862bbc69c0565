/**
 * The certificate-pinned HTTPS primitive `fetchWithPin` (src/fetch.ts).
 *
 * The socket, the TLS handshake and the response stream are inputs here: the
 * peer certificate's `fingerprint256` text, the response's status code and the
 * finite sequence of body chunks the stream delivers.
 */
module Fetch {
  import opened Wrappers

  newtype byte = x: int | 0 <= x < 256

  /*
   * Fingerprint normalisation: `fingerprint256.replace(/:/g, '')`, then
   * `Buffer.from(hex, 'hex').toString('binary')`.
   */

  /** Removes every ':' and keeps every other character, in order. */
  function StripColons(s: string): (r: string)
    ensures ':' !in r
    ensures |r| <= |s|
    ensures ':' !in s ==> r == s
  {
    if s == [] then []
    else if s[0] == ':' then StripColons(s[1..])
    else
      assert s == [s[0]] + s[1..];
      [s[0]] + StripColons(s[1..])
  }

  /** Stripping keeps every character other than ':' with its number of occurrences. */
  lemma {:induction false} StripColonsKeepsOthers(s: string)
    ensures multiset(StripColons(s)) == multiset(s)[':' := 0]
  {
    if s != [] {
      StripColonsKeepsOthers(s[1..]);
      assert s == [s[0]] + s[1..];
      assert multiset(s) == multiset([s[0]]) + multiset(s[1..]);
    }
  }

  lemma {:induction false} StripColonsAppend(a: string, b: string)
    ensures StripColons(a + b) == StripColons(a) + StripColons(b)
  {
    if a == [] {
      assert a + b == b;
    } else {
      assert (a + b)[1..] == a[1..] + b;
      StripColonsAppend(a[1..], b);
    }
  }

  /** The value of one hexadecimal digit, either case; None for any other character. */
  function HexDigitValue(c: char): (r: Option<nat>)
    ensures r.Some? ==> r.value < 16
  {
    if '0' <= c <= '9' then Some(c as int - '0' as int)
    else if 'a' <= c <= 'f' then Some(c as int - 'a' as int + 10)
    else if 'A' <= c <= 'F' then Some(c as int - 'A' as int + 10)
    else None
  }

  /** The byte written by a high and a low hex digit. */
  function HexByte(hi: nat, lo: nat): (b: byte)
    requires hi < 16 && lo < 16
    ensures b as int == 16 * hi + lo
  {
    (16 * hi + lo) as byte
  }

  /** The byte written by the hex pair starting at index 2 * i of s, if both characters are digits. */
  function PairAt(s: string, i: nat): Option<byte>
    requires 2 * i + 1 < |s|
  {
    var hi, lo := HexDigitValue(s[2 * i]), HexDigitValue(s[2 * i + 1]);
    if hi.Some? && lo.Some? then Some(HexByte(hi.value, lo.value)) else None
  }

  /**
   * Node's hex decoding: one byte per pair of digits, stopping at the first
   * pair that holds a non-hex character; an odd trailing digit is dropped.
   */
  function HexDecode(s: string): (r: seq<byte>)
    ensures |r| <= |s| / 2
    ensures forall i :: 0 <= i < |r| ==> PairAt(s, i) == Some(r[i])
    ensures |r| < |s| / 2 ==> PairAt(s, |r|) == None
  {
    if |s| < 2 then []
    else match PairAt(s, 0)
      case Some(b) =>
        var rest := HexDecode(s[2..]);
        assert forall i :: 0 <= i < |rest| ==> PairAt(s, i + 1) == PairAt(s[2..], i) by {
          forall i | 0 <= i < |rest| {
            PairAtShift(s, i);
          }
        }
        assert |rest| < |s[2..]| / 2 ==> PairAt(s, |rest| + 1) == PairAt(s[2..], |rest|) by {
          if |rest| < |s[2..]| / 2 {
            PairAtShift(s, |rest|);
          }
        }
        [b] + rest
      case None => []
  }

  lemma PairAtShift(s: string, i: nat)
    requires 2 * i + 3 < |s|
    ensures PairAt(s, i + 1) == PairAt(s[2..], i)
  {
    assert s[2..][2 * i] == s[2 * (i + 1)];
    assert s[2..][2 * i + 1] == s[2 * (i + 1) + 1];
  }

  /** `toString('binary')`: each byte becomes the character with that code. */
  function Latin1(bs: seq<byte>): (r: string)
    ensures |r| == |bs|
    ensures forall i :: 0 <= i < |bs| ==> r[i] as int == bs[i] as int
  {
    if bs == [] then [] else [bs[0] as int as char] + Latin1(bs[1..])
  }

  lemma {:induction false} Latin1Injective(a: seq<byte>, b: seq<byte>)
    requires Latin1(a) == Latin1(b)
    ensures a == b
  {
    assert forall i :: 0 <= i < |a| ==> a[i] as int == Latin1(a)[i] as int == b[i] as int;
  }

  /** The binary digest the pin is compared with, from the peer's `fingerprint256` text. */
  function Normalize(fingerprint256: string): (r: string)
    ensures |r| <= |fingerprint256| / 2
  {
    Latin1(HexDecode(StripColons(fingerprint256)))
  }

  /** Outcome of the `secureConnect` check. */
  datatype Verdict = Match | Mismatch(expected: string, actual: string)

  /** The pin check: exact equality of the expected binary digest with the normalised peer one. */
  function Verify(expected: string, fingerprint256: string): (v: Verdict)
    ensures v == Match <==> Normalize(fingerprint256) == expected
    ensures v.Mismatch? ==> v.expected == expected && v.actual == Normalize(fingerprint256)
  {
    var binary := Normalize(fingerprint256);
    if binary != expected then Mismatch(expected, binary) else Match
  }

  /** A JavaScript `Error`, reduced to its message. */
  datatype FetchError = Error(message: string)

  const MismatchPrefix := "Fingerprint mismatch: expected "
  const MismatchSeparator := ", not "

  /** The error emitted on a mismatch: its message names the expected and the observed digest. */
  function MismatchError(expected: string, actual: string): (e: FetchError)
    ensures |e.message| == |MismatchPrefix| + |expected| + |MismatchSeparator| + |actual|
    ensures e.message[..|MismatchPrefix|] == MismatchPrefix
    ensures e.message[|MismatchPrefix|..|MismatchPrefix| + |expected|] == expected
    ensures e.message[|e.message| - |actual|..] == actual
  {
    Error(MismatchPrefix + expected + MismatchSeparator + actual)
  }

  /*
   * Reference formatting of a digest the way Node reports `fingerprint256`:
   * upper-case hex pairs joined by ':'.
   */

  function HexDigit(n: nat): (c: char)
    requires n < 16
    ensures HexDigitValue(c) == Some(n)
  {
    if n < 10 then ('0' as int + n) as char else ('A' as int + n - 10) as char
  }

  function HexPair(b: byte): (p: string)
    ensures |p| == 2 && ':' !in p
  {
    [HexDigit(b as int / 16), HexDigit(b as int % 16)]
  }

  /** The hex pairs of bs, without separators. */
  function HexString(bs: seq<byte>): string
  {
    if bs == [] then [] else HexPair(bs[0]) + HexString(bs[1..])
  }

  /** The colon-delimited form, e.g. [0xAB, 0xCD, 0xEF] gives "AB:CD:EF". */
  function ColonHex(bs: seq<byte>): string
  {
    if |bs| <= 1 then HexString(bs) else HexPair(bs[0]) + ":" + ColonHex(bs[1..])
  }

  lemma {:induction false} ColonHexLength(bs: seq<byte>)
    requires bs != []
    ensures |ColonHex(bs)| == 3 * |bs| - 1
  {
    if |bs| > 1 {
      ColonHexLength(bs[1..]);
    } else {
      assert HexString(bs) == HexPair(bs[0]) + HexString([]);
    }
  }

  lemma {:induction false} StripColonHex(bs: seq<byte>)
    ensures StripColons(ColonHex(bs)) == HexString(bs)
  {
    if |bs| > 1 {
      var p, rest := HexPair(bs[0]), ColonHex(bs[1..]);
      StripColonHex(bs[1..]);
      StripColonsAppend(p + ":", rest);
      StripColonsAppend(p, ":");
      assert StripColons(":") == [];
      calc {
        StripColons(ColonHex(bs));
        StripColons(p + ":" + rest);
        StripColons(p) + StripColons(":") + StripColons(rest);
        p + HexString(bs[1..]);
        HexString(bs);
      }
    } else if |bs| == 1 {
      assert HexString(bs) == HexPair(bs[0]) + HexString([]);
    }
  }

  /** The two digits of HexPair(b) decode to b. */
  lemma HexPairDecodes(b: byte, t: string)
    ensures PairAt(HexPair(b) + t, 0) == Some(b)
  {
    var s := HexPair(b) + t;
    var hi, lo := b as int / 16, b as int % 16;
    assert s[0] == HexDigit(hi) && s[1] == HexDigit(lo);
    assert 16 * hi + lo == b as int;
  }

  lemma {:induction false} HexDecodeHexString(bs: seq<byte>)
    ensures HexDecode(HexString(bs)) == bs
  {
    if bs != [] {
      var p, t := HexPair(bs[0]), HexString(bs[1..]);
      assert HexString(bs) == p + t;
      HexPairDecodes(bs[0], t);
      assert (p + t)[2..] == t;
      HexDecodeHexString(bs[1..]);
    }
  }

  /** Decoding inverts Node's colon-delimited format: a digest of n bytes normalises to exactly those n bytes. */
  lemma NormalizeColonHex(bs: seq<byte>)
    ensures Normalize(ColonHex(bs)) == Latin1(bs)
    ensures |Normalize(ColonHex(bs))| == |bs|
  {
    StripColonHex(bs);
    HexDecodeHexString(bs);
  }

  /** A SHA-256 fingerprint has 32 pairs in 95 characters and yields a 32-character binary digest. */
  lemma Sha256FingerprintLength(bs: seq<byte>)
    requires |bs| == 32
    ensures |ColonHex(bs)| == 95
    ensures |Normalize(ColonHex(bs))| == 32
  {
    ColonHexLength(bs);
    NormalizeColonHex(bs);
  }

  /** Expecting digest d against a peer presenting d passes the check. */
  lemma VerifyAcceptsPinnedPeer(d: seq<byte>)
    ensures Verify(Latin1(d), ColonHex(d)) == Match
  {
    NormalizeColonHex(d);
  }

  /** Expecting d1 against a peer presenting a different d2 fails, naming both digests. */
  lemma VerifyRejectsOtherPeer(d1: seq<byte>, d2: seq<byte>)
    requires d1 != d2
    ensures Verify(Latin1(d1), ColonHex(d2)) == Mismatch(Latin1(d1), Latin1(d2))
  {
    NormalizeColonHex(d2);
    if Latin1(d1) == Latin1(d2) {
      Latin1Injective(d1, d2);
    }
  }

  /*
   * Response aggregation.
   */

  /** The response handed back to the client (`HttpResponse`); the body is kept as bytes. */
  datatype HttpResponse = HttpResponse(status: Option<int>, ok: bool, body: seq<byte>)

  /** `statusCode ? statusCode >= 200 && statusCode < 300 : false` */
  function OkOf(statusCode: Option<int>): (ok: bool)
    ensures ok <==> statusCode.Some? && 200 <= statusCode.value < 300
  {
    match statusCode
    case None => false
    case Some(code) => if code != 0 then 200 <= code && code < 300 else false
  }

  /** For a three-digit status, ok is exactly the Successful 2xx class of section 15.3 of RFC 9110. */
  lemma {:induction false} OkIsSuccessfulClass(code: int)
    requires 100 <= code <= 599
    ensures OkOf(Some(code)) <==> code / 100 == 2
  {
  }

  /** The chunks joined in order. */
  function Concat(chunks: seq<seq<byte>>): seq<byte>
  {
    if chunks == [] then [] else chunks[0] + Concat(chunks[1..])
  }

  lemma {:induction false} ConcatAppend(a: seq<seq<byte>>, b: seq<seq<byte>>)
    ensures Concat(a + b) == Concat(a) + Concat(b)
  {
    if a == [] {
      assert a + b == b;
    } else {
      assert (a + b)[1..] == a[1..] + b;
      ConcatAppend(a[1..], b);
    }
  }

  /** Chunk k sits in the body right after chunks 0..k-1: no gap, no duplicate, no reordering. */
  lemma ConcatChunkAt(chunks: seq<seq<byte>>, k: nat)
    requires k < |chunks|
    ensures var at := |Concat(chunks[..k])|;
      at + |chunks[k]| <= |Concat(chunks)| && Concat(chunks)[at..at + |chunks[k]|] == chunks[k]
  {
    assert chunks == chunks[..k] + ([chunks[k]] + chunks[k + 1..]);
    ConcatAppend(chunks[..k], [chunks[k]] + chunks[k + 1..]);
    ConcatAppend([chunks[k]], chunks[k + 1..]);
    assert Concat([chunks[k]]) == chunks[k] + Concat([]);
  }

  lemma ConcatExample()
    ensures Concat([[72, 101], [108, 108, 111]]) == [72, 101, 108, 108, 111]
  {
    var he: seq<byte> := [72, 101];
    var llo: seq<byte> := [108, 108, 111];
    assert Concat([llo]) == llo + Concat([]);
    assert [he, llo][1..] == [llo];
  }

  /**
   * Drains the response stream: every chunk is pushed onto `chunks` in arrival
   * order, then the chunks are joined (`Buffer.concat`).
   */
  method Aggregate(statusCode: Option<int>, stream: seq<seq<byte>>) returns (response: HttpResponse)
    ensures response.status == statusCode
    ensures response.ok <==> statusCode.Some? && 200 <= statusCode.value < 300
    ensures response.body == Concat(stream)
  {
    var chunks: seq<seq<byte>> := [];
    for i := 0 to |stream|
      invariant chunks == stream[..i]
    {
      chunks := chunks + [stream[i]];
    }
    assert chunks == stream;
    var body: seq<byte> := [];
    for j := 0 to |chunks|
      invariant body == Concat(chunks[..j])
    {
      assert chunks[..j + 1] == chunks[..j] + [chunks[j]];
      ConcatAppend(chunks[..j], [chunks[j]]);
      assert Concat([chunks[j]]) == chunks[j] + Concat([]);
      body := body + chunks[j];
    }
    assert chunks[..|chunks|] == chunks;
    response := HttpResponse(statusCode, OkOf(statusCode), body);
  }

  /*
   * The promise behind `fetchWithPin`: settled at most once, by the response
   * callback or by the request's 'error' event, whichever comes first.
   */

  /** The response as `https.request` delivers it: its status code and the body chunks its stream will yield. */
  datatype IncomingMessage = IncomingMessage(statusCode: Option<int>, stream: seq<seq<byte>>)

  class PendingRequest {
    /** The settled promise value: None while pending. */
    var settled: Option<Result<IncomingMessage, FetchError>>
    /** Set once `request.destroy()` has run. */
    var destroyed: bool

    constructor ()
      ensures settled == None && !destroyed
    {
      settled := None;
      destroyed := false;
    }

    /** `resolve`: takes effect only while the promise is pending. */
    method Resolve(message: IncomingMessage)
      modifies this
      ensures settled == if old(settled) == None then Some(Success(message)) else old(settled)
      ensures destroyed == old(destroyed)
    {
      if settled == None {
        settled := Some(Success(message));
      }
    }

    /** `reject`, reached through the request's 'error' event: takes effect only while pending. */
    method Reject(error: FetchError)
      modifies this
      ensures settled == if old(settled) == None then Some(Failure(error)) else old(settled)
      ensures destroyed == old(destroyed)
    {
      if settled == None {
        settled := Some(Failure(error));
      }
    }

    /** `request.destroy()` */
    method Destroy()
      modifies this
      ensures destroyed && settled == old(settled)
    {
      destroyed := true;
    }

    /** The 'secureConnect' handler: on a mismatch, emit the error and destroy the request; on a match, nothing. */
    method OnSecureConnect(fingerprint: string, fingerprint256: string)
      modifies this
      ensures Verify(fingerprint, fingerprint256) == Match ==>
        settled == old(settled) && destroyed == old(destroyed)
      ensures Verify(fingerprint, fingerprint256).Mismatch? ==>
        destroyed &&
        settled == if old(settled) == None
          then Some(Failure(MismatchError(fingerprint, Normalize(fingerprint256))))
          else old(settled)
    {
      var verdict := Verify(fingerprint, fingerprint256);
      if verdict.Mismatch? {
        Reject(MismatchError(verdict.expected, verdict.actual));
        Destroy();
      }
    }
  }

  /**
   * One call of `fetchWithPin` whose handshake presented `fingerprint256` and
   * whose server answered with `message`: the pin check runs on the handshake,
   * the response settles the promise only if nothing settled it before, and
   * the body is aggregated only once the promise has resolved.
   */
  method FetchWithPin(fingerprint: string, fingerprint256: string, message: IncomingMessage)
    returns (result: Result<HttpResponse, FetchError>)
    ensures Verify(fingerprint, fingerprint256) == Match ==>
      result == Success(HttpResponse(message.statusCode, OkOf(message.statusCode), Concat(message.stream)))
    ensures Verify(fingerprint, fingerprint256).Mismatch? ==>
      result == Failure(MismatchError(fingerprint, Normalize(fingerprint256)))
  {
    var pending := new PendingRequest();
    pending.OnSecureConnect(fingerprint, fingerprint256);
    pending.Resolve(message);
    match pending.settled.value
    case Failure(e) =>
      result := Failure(e);
    case Success(incoming) =>
      var response := Aggregate(incoming.statusCode, incoming.stream);
      result := Success(response);
  }
}
