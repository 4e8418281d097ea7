/** Length-prefixed frames on a byte stream: four big-endian length bytes, then the
    payload. The stream arrives in pieces of any size. */
module Frame {
  import opened Common

  const MAX_FRAME_LEN: nat := 4 * 1024 * 1024
  const U32_MAX: nat := 0xffff_ffff

  datatype IpcError = UnexpectedEof(got: nat, expected: nat) | FrameTooLarge(len: nat, max: nat)

  // ----- Frames as bytes -----

  function BigEndian(n: nat): (r: Bytes)
    requires n <= U32_MAX
    ensures |r| == 4
  {
    [n / 0x100_0000, n / 0x1_0000 % 256, n / 256 % 256, n % 256]
  }

  function Append8(high: nat, b: Byte): nat {
    high * 256 + b
  }

  function FromBigEndian(h: Bytes): (n: nat)
    requires |h| == 4
    ensures n <= U32_MAX
  {
    Append8(Append8(Append8(h[0], h[1]), h[2]), h[3])
  }

  lemma BigEndianReads(n: nat)
    requires n <= U32_MAX
    ensures FromBigEndian(BigEndian(n)) == n
  {
    assert n / 0x1_0000 == n / 0x100_0000 * 256 + n / 0x1_0000 % 256;
    assert n / 256 == n / 0x1_0000 * 256 + n / 256 % 256;
  }

  function Encode(payload: Bytes): (r: Bytes)
    requires |payload| <= MAX_FRAME_LEN
    ensures |r| == 4 + |payload|
  {
    BigEndian(|payload|) + payload
  }

  /** One frame off the front of a stream, and what is left of the stream. */
  function Decode(s: Bytes): (Result<Bytes, IpcError>, Bytes) {
    if |s| < 4 then (Err(UnexpectedEof(|s|, 4)), [])
    else
      var (len, rest) := (FromBigEndian(s[..4]), s[4..]);
      if len > MAX_FRAME_LEN then (Err(FrameTooLarge(len, MAX_FRAME_LEN)), rest)
      else Taken(rest, len)
  }

  function Taken(s: Bytes, len: nat): (Result<Bytes, IpcError>, Bytes) {
    if |s| < len then (Err(UnexpectedEof(|s|, len)), []) else (Ok(s[..len]), s[len..])
  }

  /** The length a header stands for, byte by byte. */
  ghost predicate Announces(s: Bytes, len: int) {
    |s| >= 4 && len == s[0] as int * 16_777_216 + s[1] as int * 65_536 + s[2] as int * 256 + s[3] as int
  }

  lemma HeaderAnnounces(s: Bytes, len: int)
    requires |s| >= 4
    ensures Announces(s, len) <==> len == FromBigEndian(s[..4])
  {
  }

  /** A frame is its payload behind its length, high byte first. */
  lemma EncodeAnnounces(payload: Bytes)
    requires |payload| <= MAX_FRAME_LEN
    ensures var s := Encode(payload); Announces(s, |payload|) && s[4..] == payload
  {
    BigEndianReads(|payload|);
    assert Encode(payload)[..4] == BigEndian(|payload|);
    HeaderAnnounces(Encode(payload), |payload|);
  }

  /** What one read gets out of a stream: nothing whole if the header or the payload is cut
      short, a refusal if the header announces more than 4 MiB, else the announced bytes. */
  lemma DecodeIsExact(s: Bytes, len: int)
    requires |s| >= 4 ==> Announces(s, len)
    ensures var (r, rest) := Decode(s);
            && (|s| < 4 ==> r == Err(UnexpectedEof(|s|, 4)))
            && (|s| >= 4 && len > 4_194_304 ==> r == Err(FrameTooLarge(len, 4_194_304)))
            && (|s| >= 4 && |s| - 4 < len <= 4_194_304 ==> r == Err(UnexpectedEof(|s| - 4, len)))
            && (|s| >= 4 && len <= 4_194_304 && len <= |s| - 4 ==> r == Ok(s[4..4 + len]) && rest == s[4 + len..])
  {
    if |s| >= 4 {
      HeaderAnnounces(s, len);
      if 0 <= len <= |s| - 4 { assert s[4..][..len] == s[4..4 + len] && s[4..][len..] == s[4 + len..]; }
    }
  }

  // ----- The stream objects -----

  function Flat(pieces: seq<Bytes>): Bytes {
    if pieces == [] then [] else pieces[0] + Flat(pieces[1..])
  }

  function Min(a: nat, b: nat): nat {
    if a < b then a else b
  }

  class Sink {
    var out: Bytes

    constructor ()
      ensures out == []
    {
      out := [];
    }

    /** An oversized payload is refused before anything is written. */
    method WriteFrame(payload: Bytes) returns (r: Result<(), IpcError>)
      modifies this
      ensures r.Ok? <==> |payload| <= MAX_FRAME_LEN
      ensures out == if |payload| <= MAX_FRAME_LEN then old(out) + Encode(payload) else old(out)
      ensures r.Err? ==> r.error == FrameTooLarge(Min(|payload|, U32_MAX), MAX_FRAME_LEN)
    {
      if |payload| > U32_MAX { return Err(FrameTooLarge(U32_MAX, MAX_FRAME_LEN)); }
      if |payload| > MAX_FRAME_LEN { return Err(FrameTooLarge(|payload|, MAX_FRAME_LEN)); }
      out := out + BigEndian(|payload|);
      out := out + payload;
      return Ok(());
    }
  }

  class Reader {
    /** The pieces still to arrive, none of them empty. */
    var pieces: seq<Bytes>

    ghost predicate Valid()
      reads this
    {
      forall i :: 0 <= i < |pieces| ==> pieces[i] != []
    }

    ghost function Pending(): Bytes
      reads this
    {
      Flat(pieces)
    }

    constructor (pieces: seq<Bytes>)
      requires forall i :: 0 <= i < |pieces| ==> pieces[i] != []
      ensures Valid() && Pending() == Flat(pieces)
    {
      this.pieces := pieces;
    }

    /** Up to one piece into the buffer from `from` on; 0 only at the end of the stream. */
    method Read(buf: array<Byte>, from: nat) returns (n: nat)
      requires Valid() && from < buf.Length
      modifies this, buf
      ensures Valid() && n <= buf.Length - from && n <= |old(Pending())| && (n == 0 <==> old(Pending()) == [])
      ensures Pending() == old(Pending())[n..]
      ensures buf[..from + n] == old(buf[..from]) + old(Pending())[..n]
    {
      if pieces == [] {
        assert buf[..from] == old(buf[..from]) + [];
        return 0;
      }
      var piece, rest := pieces[0], pieces[1..];
      n := Min(|piece|, buf.Length - from);
      for i := 0 to n
        invariant pieces == old(pieces)
        invariant buf[..from + i] == old(buf[..from]) + piece[..i]
      {
        buf[from + i] := piece[i];
      }
      assert Pending()[..n] == piece[..n];
      pieces := if n == |piece| then rest else [piece[n..]] + rest;
      PieceTaken(piece, rest, n);
    }

    /** The read loop: fill the buffer, or report how much came before the end. */
    method Fill(buf: array<Byte>) returns (filled: nat)
      requires Valid()
      modifies this, buf
      ensures Valid() && filled == Min(|old(Pending())|, buf.Length)
      ensures buf[..filled] == old(Pending())[..filled] && Pending() == old(Pending())[filled..]
    {
      ghost var stream := Pending();
      filled := 0;
      while filled < buf.Length
        invariant Valid() && filled <= buf.Length && filled <= |stream|
        invariant Pending() == stream[filled..] && buf[..filled] == stream[..filled]
      {
        var n := Read(buf, filled);
        if n == 0 { return; }
        assert stream[..filled] + stream[filled..][..n] == stream[..filled + n];
        assert stream[filled..][n..] == stream[filled + n..];
        filled := filled + n;
      }
    }

    method ReadFrame() returns (r: Result<Bytes, IpcError>)
      requires Valid()
      modifies this
      ensures Valid() && (r, Pending()) == Decode(old(Pending()))
    {
      ghost var stream := Pending();
      var hdr := new Byte[4](_ => 0);
      var filled := Fill(hdr);
      if filled < 4 { return Err(UnexpectedEof(filled, 4)); }
      assert hdr[..] == hdr[..4] == stream[..4];
      var len := FromBigEndian(hdr[..]);
      if len > MAX_FRAME_LEN { return Err(FrameTooLarge(len, MAX_FRAME_LEN)); }
      r := ReadPayload(len);
    }

    method ReadPayload(len: nat) returns (r: Result<Bytes, IpcError>)
      requires Valid()
      modifies this
      ensures Valid() && (r, Pending()) == Taken(old(Pending()), len)
    {
      var buf := new Byte[len](_ => 0);
      var filled := Fill(buf);
      if filled < len { return Err(UnexpectedEof(filled, len)); }
      assert buf[..len] == buf[..];
      return Ok(buf[..]);
    }
  }

  lemma PieceTaken(piece: Bytes, rest: seq<Bytes>, n: nat)
    requires n <= |piece|
    ensures Flat(if n == |piece| then rest else [piece[n..]] + rest) == (piece + Flat(rest))[n..]
  {
    if n < |piece| { assert ([piece[n..]] + rest)[1..] == rest; }
  }

  // ----- Whole streams -----

  /** The payloads a reader gets out of a stream before the first error, and the error. */
  function DecodeAll(s: Bytes): (seq<Bytes>, IpcError)
    decreases |s|
  {
    match Decode(s)
    case (Err(e), _) => ([], e)
    case (Ok(payload), rest) => var (more, e) := DecodeAll(rest); ([payload] + more, e)
  }

  ghost function Behind(payloads: seq<Bytes>, r: (seq<Bytes>, IpcError)): (seq<Bytes>, IpcError) {
    (payloads + r.0, r.1)
  }

  lemma BehindOne(payloads: seq<Bytes>, s: Bytes)
    ensures Decode(s).0.Err? ==> Behind(payloads, DecodeAll(s)) == (payloads, Decode(s).0.error)
    ensures Decode(s).0.Ok? ==>
      |Decode(s).1| < |s| && Behind(payloads, DecodeAll(s)) == Behind(payloads + [Decode(s).0.value], DecodeAll(Decode(s).1))
  {
    if Decode(s).0.Ok? {
      var more := DecodeAll(Decode(s).1).0;
      assert payloads + ([Decode(s).0.value] + more) == payloads + [Decode(s).0.value] + more;
    } else {
      assert payloads + [] == payloads;
    }
  }

  method ReadAll(reader: Reader) returns (payloads: seq<Bytes>, e: IpcError)
    requires reader.Valid()
    modifies reader
    ensures (payloads, e) == DecodeAll(old(reader.Pending()))
  {
    ghost var stream := reader.Pending();
    payloads := [];
    assert [] + DecodeAll(stream).0 == DecodeAll(stream).0;
    while true
      invariant reader.Valid()
      invariant DecodeAll(stream) == Behind(payloads, DecodeAll(reader.Pending()))
      decreases |reader.Pending()|
    {
      BehindOne(payloads, reader.Pending());
      var r := reader.ReadFrame();
      if r.Err? { return payloads, r.error; }
      payloads := payloads + [r.value];
    }
  }

  ghost predicate Sendable(payloads: seq<Bytes>) {
    forall i :: 0 <= i < |payloads| ==> |payloads[i]| <= MAX_FRAME_LEN
  }

  /** What a writer puts on the stream for a list of payloads. */
  ghost function EncodeAll(payloads: seq<Bytes>): Bytes
    requires Sendable(payloads)
  {
    if payloads == [] then [] else Encode(payloads[0]) + EncodeAll(payloads[1..])
  }

  lemma DecodeEncoded(payload: Bytes, rest: Bytes)
    requires |payload| <= MAX_FRAME_LEN
    ensures Decode(Encode(payload) + rest) == (Ok(payload), rest)
  {
    BigEndianReads(|payload|);
    HeaderOff(BigEndian(|payload|), payload, rest);
  }

  lemma HeaderOff(h: Bytes, payload: Bytes, rest: Bytes)
    requires |h| == 4
    ensures var s := h + payload + rest;
            s[..4] == h && s[4..] == payload + rest && s[4..][..|payload|] == payload && s[4..][|payload|..] == rest
  {
    assert h + payload + rest == h + (payload + rest);
  }

  /** A frame cut short: inside its header or inside its payload. */
  lemma DecodeCut(payload: Bytes, k: nat)
    requires |payload| <= MAX_FRAME_LEN && k < |Encode(payload)|
    ensures Decode(Encode(payload)[..k]) == (Err(if k < 4 then UnexpectedEof(k, 4) else UnexpectedEof(k - 4, |payload|)), [])
  {
    BigEndianReads(|payload|);
    if k >= 4 { assert Encode(payload)[..k][..4] == BigEndian(|payload|); }
  }

  /** Every list of sendable payloads comes back whole, then a clean end: 0 of 4 bytes.
      `ReadFrame` sees only the joined pieces, so this holds for every way of cutting
      the stream into reads. */
  lemma {:induction false} StreamRoundTrip(payloads: seq<Bytes>)
    requires Sendable(payloads)
    ensures DecodeAll(EncodeAll(payloads)) == (payloads, UnexpectedEof(0, 4))
  {
    if payloads != [] {
      DecodeEncoded(payloads[0], EncodeAll(payloads[1..]));
      StreamRoundTrip(payloads[1..]);
      assert payloads == [payloads[0]] + payloads[1..];
    }
  }

  /** How a stream cut after `k` bytes ends: the number of complete frames and how many
      bytes of the next one arrived. */
  ghost predicate CutAt(payloads: seq<Bytes>, k: nat, m: nat, j: nat)
    requires Sendable(payloads)
  {
    m <= |payloads| && k == |EncodeAll(payloads[..m])| + j
      && (if m < |payloads| then j < |Encode(payloads[m])| else j == 0)
  }

  /** What the reader reports when `j` bytes of the next frame arrived. */
  ghost function CutError(payloads: seq<Bytes>, m: nat, j: nat): IpcError
    requires m <= |payloads|
  {
    if m < |payloads| && j >= 4 then UnexpectedEof(j - 4, |payloads[m]|) else UnexpectedEof(j, 4)
  }

  /** A stream cut anywhere yields the complete payloads before the cut, unchanged and in
      order, and then an unexpected end. */
  lemma {:induction false} TruncatedStream(payloads: seq<Bytes>, k: nat) returns (m: nat, j: nat)
    requires Sendable(payloads) && k <= |EncodeAll(payloads)|
    ensures CutAt(payloads, k, m, j)
    ensures DecodeAll(EncodeAll(payloads)[..k]) == (payloads[..m], CutError(payloads, m, j))
  {
    if payloads == [] {
      m, j := 0, 0;
    } else if k < |Encode(payloads[0])| {
      m, j := 0, k;
      assert EncodeAll(payloads)[..k] == Encode(payloads[0])[..k];
      DecodeCut(payloads[0], k);
    } else {
      var first := |Encode(payloads[0])|;
      m, j := TruncatedStream(payloads[1..], k - first);
      DecodeBehindFirst(payloads, k);
      CutBehindFirst(payloads, k, m, j);
      m := m + 1;
    }
  }

  lemma DecodeBehindFirst(payloads: seq<Bytes>, k: nat)
    requires payloads != [] && Sendable(payloads) && |Encode(payloads[0])| <= k <= |EncodeAll(payloads)|
    ensures var (more, e) := DecodeAll(EncodeAll(payloads[1..])[..k - |Encode(payloads[0])|]);
            DecodeAll(EncodeAll(payloads)[..k]) == ([payloads[0]] + more, e)
  {
    var rest := EncodeAll(payloads[1..])[..k - |Encode(payloads[0])|];
    assert EncodeAll(payloads)[..k] == Encode(payloads[0]) + rest;
    DecodeEncoded(payloads[0], rest);
  }

  lemma CutBehindFirst(payloads: seq<Bytes>, k: nat, m: nat, j: nat)
    requires payloads != [] && Sendable(payloads) && |Encode(payloads[0])| <= k
    requires CutAt(payloads[1..], k - |Encode(payloads[0])|, m, j)
    ensures CutAt(payloads, k, m + 1, j) && CutError(payloads, m + 1, j) == CutError(payloads[1..], m, j)
    ensures payloads[..m + 1] == [payloads[0]] + payloads[1..][..m]
  {
    assert payloads[..m + 1] == [payloads[0]] + payloads[1..][..m];
    assert payloads[..m + 1][1..] == payloads[1..][..m];
  }

  /** The clean end `0 of 4` is reported at a frame boundary, and in one other place: a
      cut right behind the header of a payload of exactly four bytes. */
  lemma CleanEndIsAmbiguous(payloads: seq<Bytes>, k: nat)
    requires Sendable(payloads) && k <= |EncodeAll(payloads)|
    ensures DecodeAll(EncodeAll(payloads)[..k]).1 == UnexpectedEof(0, 4)
       <==> exists m: nat :: CutAt(payloads, k, m, 0) || (m < |payloads| && |payloads[m]| == 4 && CutAt(payloads, k, m, 4))
  {
    var m, j := TruncatedStream(payloads, k);
    if j == 0 || (m < |payloads| && j == 4 && |payloads[m]| == 4) { assert CutAt(payloads, k, m, j); }
    forall m': nat, j': nat | CutAt(payloads, k, m', j') ensures m' == m && j' == j {
      CutIsUnique(payloads, k, m, j, m', j');
    }
  }

  lemma {:induction false} CutIsUnique(payloads: seq<Bytes>, k: nat, m: nat, j: nat, m': nat, j': nat)
    requires Sendable(payloads) && CutAt(payloads, k, m, j) && CutAt(payloads, k, m', j')
    ensures m == m' && j == j'
  {
    if m < m' { PrefixGrows(payloads, m, m'); }
    if m' < m { PrefixGrows(payloads, m', m); }
  }

  lemma {:induction false} PrefixGrows(payloads: seq<Bytes>, m: nat, n: nat)
    requires Sendable(payloads) && m < n <= |payloads|
    ensures |EncodeAll(payloads[..m])| + |Encode(payloads[m])| <= |EncodeAll(payloads[..n])|
  {
    assert payloads[..n][1..] == payloads[1..][..n - 1];
    if m > 0 {
      assert payloads[..m][1..] == payloads[1..][..m - 1];
      PrefixGrows(payloads[1..], m - 1, n - 1);
    }
  }
}
