/** Test payloads: one chunk repeated up to a total, by a reader and by the sending loops; and the upload cap. */
module ByteStreams {
  import opened Wrappers
  import opened Numbers

  newtype byte = x: int | 0 <= x < 256

  /** `n` bytes of the endless repetition of `chunk`, from offset `from`. */
  ghost function Periodic(chunk: seq<byte>, from: nat, n: nat): seq<byte>
    requires chunk != []
  {
    seq(n, i requires 0 <= i => chunk[(from + i) % |chunk|])
  }

  lemma MulAtLeast(k: int, m: int)
    requires k >= 1 && m >= 0
    ensures k * m >= m
  {
    assert (k - 1) * m >= 0;
  }

  lemma OnlyZeroMultiple(k: int, m: int, e: int)
    requires m > 0 && k * m == e && -m < e < m
    ensures k == 0
  {
    assert (-k) * m == -e;
    if k >= 1 { MulAtLeast(k, m); }
    if k <= -1 { MulAtLeast(-k, m); }
  }

  lemma ModOf(q: int, r: int, m: int)
    requires m > 0 && 0 <= r < m
    ensures (q * m + r) % m == r
  {
    var x := q * m + r;
    assert x == x / m * m + x % m;
    assert (x / m - q) * m == r - x % m;
    OnlyZeroMultiple(x / m - q, m, r - x % m);
  }

  lemma ModWithin(a: nat, i: nat, m: nat)
    requires m > 0 && a % m + i < m
    ensures (a + i) % m == a % m + i
  {
    var q, r := a / m, a % m;
    assert a == q * m + r;
    ModOf(q, r + i, m);
  }

  lemma ModWraps(a: nat, i: nat, m: nat)
    requires m > 0 && a % m + i == m
    ensures (a + i) % m == 0
  {
    var q, r := a / m, a % m;
    assert a == q * m + r;
    assert a + i == (q + 1) * m + 0;
    ModOf(q + 1, 0, m);
  }

  lemma PeriodicSplit(chunk: seq<byte>, from: nat, m: nat, n: nat)
    requires chunk != []
    ensures Periodic(chunk, from, m) + Periodic(chunk, from + m, n) == Periodic(chunk, from, m + n)
  {
  }

  /** Within one pass over the chunk the stream is a slice of it. */
  lemma PeriodicSlice(chunk: seq<byte>, from: nat, n: nat)
    requires chunk != [] && from % |chunk| + n <= |chunk|
    ensures Periodic(chunk, from, n) == chunk[from % |chunk|..from % |chunk| + n]
  {
    forall i | 0 <= i < n ensures Periodic(chunk, from, n)[i] == chunk[from % |chunk| + i] {
      ModWithin(from, i, |chunk|);
    }
  }

  /** The stream starts with the chunk and then repeats itself at the chunk's length. */
  lemma PeriodicIs(chunk: seq<byte>, n: nat, i: nat)
    requires chunk != [] && i < n
    ensures |Periodic(chunk, 0, n)| == n
    ensures i < |chunk| ==> Periodic(chunk, 0, n)[i] == chunk[i]
    ensures i + |chunk| < n ==> Periodic(chunk, 0, n)[i + |chunk|] == Periodic(chunk, 0, n)[i]
  {
    if i < |chunk| { ModSmall(i, |chunk|); }
    var q, r := i / |chunk|, i % |chunk|;
    assert i == q * |chunk| + r;
    assert i + |chunk| == (q + 1) * |chunk| + r;
    ModOf(q + 1, r, |chunk|);
  }

  lemma RepeatsFrom(chunk: seq<byte>, period: nat, n: nat, body: seq<byte>)
    requires chunk != [] && |chunk| == Min(period, n) && body == Periodic(chunk, 0, n)
    ensures forall i | 0 <= i < |body| && i < period :: body[i] == chunk[i]
    ensures forall i | 0 <= i < |body| - period :: body[i + period] == body[i]
  {
    assert |body| == n;
    hide Periodic;
    forall i | 0 <= i < n && i < period ensures body[i] == chunk[i] {
      PeriodicIs(chunk, n, i);
    }
    forall i | 0 <= i < n - period ensures body[i + period] == body[i] {
      PeriodicIs(chunk, n, i);
    }
  }

  // ---------------------------------------------------------------- repeatReader

  class RepeatReader {
    const chunk: seq<byte>
    var remaining: int
    var pos: nat
    ghost var sent: nat

    /** The cursor is where the bytes sent so far leave it. */
    ghost predicate Valid()
      reads this
    {
      chunk != [] ==> pos == sent % |chunk|
    }

    constructor (chunk: seq<byte>, remaining: int)
      ensures Valid() && this.chunk == chunk && this.remaining == remaining && sent == 0
    {
      this.chunk, this.remaining, this.pos, this.sent := chunk, remaining, 0, 0;
    }

    /** io.Reader: fills the caller's buffer as far as the total allows; None is io.EOF. */
    method Read(p: array<byte>) returns (n: Option<nat>)
      requires Valid()
      modifies this, p
      ensures Valid()
      ensures n.None? <==> old(remaining) <= 0 || chunk == []
      ensures n.None? ==> p[..] == old(p[..]) && remaining == old(remaining) && sent == old(sent)
      ensures n.Some? ==>
                && n.value == Min(p.Length, old(remaining))
                && p[..n.value] == Periodic(chunk, old(sent), n.value) && p[n.value..] == old(p[n.value..])
                && remaining == old(remaining) - n.value && sent == old(sent) + n.value
    {
      if remaining <= 0 || |chunk| == 0 {
        return None;
      }
      var max := p.Length;
      if max > remaining {
        max := remaining;
      }
      var total := 0;
      ghost var start := sent;
      while total < max
        invariant 0 <= total <= max && Valid() && sent == start + total && remaining == old(remaining)
        invariant p[..total] == Periodic(chunk, start, total)
        invariant p[total..] == old(p[total..])
      {
        var n := CopyPiece(p, total, max);
        PeriodicSplit(chunk, start, total, n);
        total := total + n;
      }
      remaining := remaining - total;
      n := Some(total);
    }

    /** One `copy` from the cursor to the end of the chunk, as far as the buffer goes. */
    method CopyPiece(p: array<byte>, at: nat, max: nat) returns (n: nat)
      requires Valid() && chunk != [] && at < max <= p.Length
      modifies this`pos, this`sent, p
      ensures Valid() && 0 < n <= max - at && sent == old(sent) + n
      ensures p[..at + n] == old(p[..at]) + Periodic(chunk, old(sent), n)
      ensures p[at + n..] == old(p[at + n..])
    {
      n := Min(max - at, |chunk| - pos);
      forall i | 0 <= i < n {
        p[at + i] := chunk[pos + i];
      }
      PeriodicSlice(chunk, sent, n);
      if pos + n < |chunk| { ModWithin(sent, n, |chunk|); } else { ModWraps(sent, n, |chunk|); }
      assert p[..at + n] == old(p[..at]) + chunk[pos..pos + n];
      ModSmall(pos + n, |chunk|);
      pos := (pos + n) % |chunk|;
      sent := sent + n;
    }
  }

  lemma ModSmall(x: nat, m: nat)
    requires m > 0 && x <= m
    ensures x % m == if x == m then 0 else x
  {
  }

  /** Whatever buffer sizes the consumer chooses, it sees the same stream, cut off at the total. */
  method ReadAll(reader: RepeatReader, sizes: seq<nat>) returns (out: seq<byte>)
    requires reader.Valid() && reader.chunk != [] && reader.sent == 0 && reader.remaining >= 0
    modifies reader
    ensures reader.Valid()
    ensures out == Periodic(reader.chunk, 0, Min(Sum(sizes), old(reader.remaining)))
    ensures |out| == Min(Sum(sizes), old(reader.remaining))
    ensures reader.remaining == old(reader.remaining) - |out|
  {
    out := [];
    for i := 0 to |sizes|
      invariant reader.Valid() && reader.sent == |out| && reader.remaining == old(reader.remaining) - |out|
      invariant out == Periodic(reader.chunk, 0, Min(Sum(sizes[..i]), old(reader.remaining)))
    {
      assert sizes[..i + 1][..i] == sizes[..i];
      var p := new byte[sizes[i]];
      var n := reader.Read(p);
      if n.Some? {
        PeriodicSplit(reader.chunk, 0, |out|, n.value);
        out := out + p[..n.value];
      }
    }
    assert sizes[..|sizes|] == sizes;
  }

  // ---------------------------------------------------------------- sending loops

  /** A connection that takes so many more bytes before the peer goes away. */
  class Connection {
    var out: seq<byte>
    var budget: nat

    method Write(b: seq<byte>) returns (ok: bool)
      modifies this
      ensures ok <==> |b| <= old(budget)
      ensures out == old(out) + b[..Min(|b|, old(budget))] && budget == old(budget) - Min(|b|, old(budget))
    {
      var n := Min(|b|, budget);
      out, budget := out + b[..n], budget - n;
      ok := n == |b|;
    }
  }

  /** After whole chunks, the start of another one goes on with the stream. */
  lemma NextPiece(chunk: seq<byte>, sent: nat, n: nat)
    requires chunk != [] && sent % |chunk| == 0 && n <= |chunk|
    ensures Periodic(chunk, 0, sent) + chunk[..n] == Periodic(chunk, 0, sent + n)
    ensures n == |chunk| ==> (sent + n) % |chunk| == 0
  {
    PeriodicSlice(chunk, sent, n);
    PeriodicSplit(chunk, 0, sent, n);
    if n == |chunk| { ModWraps(sent, n, |chunk|); }
  }

  /** The download loop of the node and of the center: always from the start of the chunk. */
  method SendChunks(chunk: seq<byte>, total: nat, conn: Connection)
    requires chunk != []
    modifies conn
    ensures conn.out == old(conn.out) + Periodic(chunk, 0, Min(total, old(conn.budget)))
  {
    assert conn.out + Periodic(chunk, 0, 0) == conn.out;
    hide Periodic;
    var sent := 0;
    while sent < total
      invariant 0 <= sent <= total && (sent < total ==> sent % |chunk| == 0)
      invariant sent <= old(conn.budget) && conn.budget == old(conn.budget) - sent
      invariant conn.out == old(conn.out) + Periodic(chunk, 0, sent)
    {
      var n := Min(|chunk|, total - sent);
      var ok := conn.Write(chunk[..n]);
      var written := Min(n, old(conn.budget) - sent);
      NextPiece(chunk, sent, written);
      assert chunk[..n][..written] == chunk[..written];
      assert old(conn.out) + Periodic(chunk, 0, sent) + chunk[..written] ==
             old(conn.out) + (Periodic(chunk, 0, sent) + chunk[..written]);
      if !ok {
        return;
      }
      sent := sent + n;
    }
  }

  function Flatten(pieces: seq<seq<byte>>): seq<byte> {
    if pieces == [] then [] else Flatten(pieces[..|pieces| - 1]) + pieces[|pieces| - 1]
  }

  /** The Python generators of the node's download and the center's upload body. */
  method Generate(chunk: seq<byte>, total: nat) returns (pieces: seq<seq<byte>>)
    requires chunk != [] || total == 0
    ensures chunk != [] ==> Flatten(pieces) == Periodic(chunk, 0, total)
    ensures chunk == [] ==> pieces == []
    ensures forall i | 0 <= i < |pieces| :: 0 < |pieces[i]| <= |chunk|
  {
    pieces := [];
    var sent := 0;
    while sent < total
      invariant 0 <= sent <= total && (chunk != [] && sent < total ==> sent % |chunk| == 0)
      invariant chunk != [] ==> Flatten(pieces) == Periodic(chunk, 0, sent)
      invariant chunk == [] ==> pieces == []
      invariant forall i | 0 <= i < |pieces| :: 0 < |pieces[i]| <= |chunk|
    {
      var n := Min(|chunk|, total - sent);
      PeriodicSlice(chunk, sent, n);
      PeriodicSplit(chunk, 0, sent, n);
      assert (pieces + [chunk[..n]])[..|pieces|] == pieces;
      pieces := pieces + [chunk[..n]];
      if n == |chunk| { ModWraps(sent, n, |chunk|); }
      sent := sent + n;
    }
  }

  /** A peer that leaves early has a prefix of the announced stream. */
  lemma PeriodicPrefix(chunk: seq<byte>, from: nat, m: nat, n: nat)
    requires chunk != [] && m <= n
    ensures Periodic(chunk, from, m) <= Periodic(chunk, from, n)
  {
    PeriodicSplit(chunk, from, m, n - m);
  }

  const DEFAULT_DOWNLOAD := 10_000_000

  const INT64_MAX := 0x7FFF_FFFF_FFFF_FFFF

  predicate IsInt64(n: int) {
    -INT64_MAX - 1 <= n <= INT64_MAX
  }

  /** The Python node's clamp, in closed form. */
  function ClampDownload(bytes: int, maxTestBytes: int): int {
    var capped := Min(bytes, maxTestBytes);
    if 1 >= capped then 1 else capped
  }

  /** What the Go node reads out of the query: numbers beyond int64 count as absent. */
  function RequestedBytes(query: Option<int>): int {
    if query.Some? && IsInt64(query.value) then query.value else DEFAULT_DOWNLOAD
  }

  /**
   * The Go node: announces as Content-Length what Python would, and sends it. `query` is the number asked
   * for, if any.
   */
  method HandleDownload(query: Option<int>, maxTestBytes: int, chunk: seq<byte>, conn: Connection) returns (length: nat)
    requires chunk != []
    modifies conn
    ensures length == ClampDownload(RequestedBytes(query), maxTestBytes)
    ensures maxTestBytes < 1 ==> length == 1
    ensures query.Some? && IsInt64(query.value) && maxTestBytes >= 1 ==>
              if query.value < 1 then length == 1
              else if query.value <= maxTestBytes then length == query.value else length == maxTestBytes
    ensures (query.None? || !IsInt64(query.value)) && maxTestBytes >= 1 ==>
              length == if maxTestBytes >= 10_000_000 then 10_000_000 else maxTestBytes
    ensures conn.out == old(conn.out) + Periodic(chunk, 0, Min(length, old(conn.budget)))
  {
    var total := DEFAULT_DOWNLOAD;
    if query.Some? && IsInt64(query.value) {
      total := query.value;
    }
    if total > maxTestBytes {
      total := maxTestBytes;
    }
    if total < 1 {
      total := 1;
    }
    length := total;
    SendChunks(chunk, length, conn);
  }

  /** The two nodes send the same number of bytes, except for some requests beyond int64. */
  lemma NodesAgree(bytes: int, maxTestBytes: int)
    requires IsInt64(maxTestBytes)
    ensures ClampDownload(RequestedBytes(Some(bytes)), maxTestBytes) == ClampDownload(bytes, maxTestBytes) <==>
            || IsInt64(bytes)
            || (bytes > INT64_MAX && maxTestBytes <= DEFAULT_DOWNLOAD)
            || maxTestBytes <= 1
  {
    assert ClampDownload(DEFAULT_DOWNLOAD, maxTestBytes) ==
           if maxTestBytes <= 1 then 1 else if maxTestBytes <= DEFAULT_DOWNLOAD then maxTestBytes else DEFAULT_DOWNLOAD;
    assert bytes < -INT64_MAX - 1 ==> ClampDownload(bytes, maxTestBytes) == 1;
    assert bytes > INT64_MAX ==> ClampDownload(bytes, maxTestBytes) == ClampDownload(maxTestBytes, maxTestBytes);
  }

  // ---------------------------------------------------------------- the upload cap

  /** int64 arithmetic. */
  function Wrap64(n: int): int {
    if n > INT64_MAX then n - 0x1_0000_0000_0000_0000 else n
  }

  datatype UploadResult = Counted(bytes: nat) | TooLarge

  /** What the cap promises for a body of `length` bytes. */
  function CapDecision(max: int, length: nat): UploadResult {
    if length <= max then Counted(length) else TooLarge
  }

  /** How much of a body of `length` bytes a limited reader lets through. */
  function Limited(length: nat, limit: int): nat {
    if limit <= 0 then 0 else Min(length, limit)
  }

  /** io.Copy from io.LimitReader: `arrivals` is how the body trickles in, `buffer` the copy buffer. */
  method CopyLimited(arrivals: seq<nat>, limit: int, buffer: nat) returns (total: nat)
    requires buffer > 0
    ensures total == Limited(Sum(arrivals), limit)
    ensures limit <= 0 ==> total == 0
    ensures limit > 0 ==> total == Min(Sum(arrivals), limit)
  {
    total := 0;
    var left := limit;
    var rest: seq<nat> := arrivals;
    while left > 0 && rest != []
      invariant total + Sum(rest) == Sum(arrivals)
      invariant limit > 0 ==> left == limit - total && left >= 0
      invariant limit <= 0 ==> total == 0 && left == limit
      decreases Sum(rest) + |rest|
    {
      var n := Min(rest[0], Min(buffer, left));
      SumCons(rest[0], rest[1..]);
      assert rest == [rest[0]] + rest[1..];
      if n == rest[0] {
        rest := rest[1..];
      } else {
        SumCons(rest[0] - n, rest[1..]);
        rest := [rest[0] - n] + rest[1..];
      }
      total := total + n;
      left := left - n;
    }
    assert rest == [] ==> Sum(rest) == 0;
  }

  /** What the node's Go handler does with a body of `length` bytes: the limit is an int64 sum. */
  function GoUpload(max: int, length: nat): UploadResult {
    var total := Limited(length, Wrap64(max + 1));
    if total > max then TooLarge else Counted(total)
  }

  method HandleUpload(arrivals: seq<nat>, maxTestBytes: int, buffer: nat) returns (r: UploadResult, consumed: nat)
    requires buffer > 0 && IsInt64(maxTestBytes)
    ensures r == GoUpload(maxTestBytes, Sum(arrivals))
    ensures maxTestBytes < INT64_MAX ==>
              if Sum(arrivals) <= maxTestBytes then r == Counted(Sum(arrivals)) else r == TooLarge
    ensures maxTestBytes == INT64_MAX ==> r == Counted(0)
    ensures 0 <= maxTestBytes < INT64_MAX ==> consumed == Min(Sum(arrivals), maxTestBytes + 1)
    ensures maxTestBytes >= 0 ==> consumed <= maxTestBytes + 1
    ensures consumed <= Sum(arrivals)
  {
    consumed := CopyLimited(arrivals, Wrap64(maxTestBytes + 1), buffer);
    if consumed > maxTestBytes {
      return TooLarge, consumed;
    }
    r := Counted(consumed);
  }

  /**
   * The Python handler adds up the chunks and stops at the first one over the cap. It decides as the cap
   * promises exactly if the stream has a chunk at all or the cap is not negative: without any chunk, nothing
   * is ever compared.
   */
  method PyHandleUpload(chunks: seq<nat>, maxTestBytes: int) returns (r: UploadResult)
    ensures r == CapDecision(maxTestBytes, Sum(chunks)) <==> chunks != [] || maxTestBytes >= 0
    ensures chunks == [] ==> r == Counted(0)
    ensures chunks != [] ==> if Sum(chunks) <= maxTestBytes then r == Counted(Sum(chunks)) else r == TooLarge
  {
    var total := 0;
    for i := 0 to |chunks|
      invariant total == Sum(chunks[..i]) && (i > 0 ==> total <= maxTestBytes)
    {
      assert chunks[..i + 1][..i] == chunks[..i];
      total := total + chunks[i];
      if total > maxTestBytes {
        SumPrefix(chunks, i + 1);
        return TooLarge;
      }
    }
    assert chunks[..|chunks|] == chunks;
    r := Counted(total);
  }

  /**
   * The Go cap is exact for every body unless it is the largest int64, where adding one overflows and nothing
   * is read.
   */
  lemma CapExactUnlessMax(max: int)
    requires IsInt64(max)
    ensures (forall length: nat :: GoUpload(max, length) == CapDecision(max, length)) <==> max != INT64_MAX
    ensures max == INT64_MAX ==> forall length: nat :: GoUpload(max, length) == Counted(0)
  {
    if max == INT64_MAX {
      assert GoUpload(max, 1) == Counted(0) != CapDecision(max, 1);
    }
  }

  datatype TransferSettings = TransferSettings(defaultBytes: int, maxTestBytes: int, streamChunkBytes: int)

  /** How much a measurement asks for. */
  function TransferSize(s: TransferSettings, requested: int): int {
    var n := if requested <= 0 then s.defaultBytes else requested;
    if n > s.maxTestBytes then s.maxTestBytes else n
  }

  /** A body as the network cuts it up: pieces of these sizes, and the rest. */
  function CutUp(body: seq<byte>, cuts: seq<nat>): seq<seq<byte>> {
    if cuts == [] then [body]
    else var n := Min(cuts[0], |body|); [body[..n]] + CutUp(body[n..], cuts[1..])
  }

  function Lengths(pieces: seq<seq<byte>>): (r: seq<nat>)
    ensures |r| == |pieces|
  {
    if pieces == [] then [] else [|pieces[0]|] + Lengths(pieces[1..])
  }

  function Joined(pieces: seq<seq<byte>>): seq<byte> {
    if pieces == [] then [] else pieces[0] + Joined(pieces[1..])
  }

  /** Cutting up loses nothing. */
  lemma {:induction false} CutUpKeeps(body: seq<byte>, cuts: seq<nat>)
    ensures Joined(CutUp(body, cuts)) == body && Sum(Lengths(CutUp(body, cuts))) == |body|
    decreases |cuts|
  {
    if cuts == [] {
      assert [body][1..] == [];
      SumCons(|body|, []);
      assert [|body|] + [] == [|body|];
      assert Joined([body]) == body + Joined([]);
    } else {
      var n := Min(cuts[0], |body|);
      var rest := CutUp(body[n..], cuts[1..]);
      CutUpKeeps(body[n..], cuts[1..]);
      assert ([body[..n]] + rest)[1..] == rest;
      SumCons(n, Lengths(rest));
      assert body[..n] + body[n..] == body;
    }
  }

  /**
   * measureUpload against a node: however the HTTP client sizes its reads (`sizes`, enough of them to drain
   * the reader) and the network cuts the body up, the node counts exactly the bytes that the center reports,
   * if they are within the node's cap.
   */
  method MeasureUpload(s: TransferSettings, requested: int, random: seq<byte>, sizes: seq<nat>, cuts: seq<nat>,
                       nodeMax: int, buffer: nat)
    returns (reported: int, body: seq<byte>, node: UploadResult)
    requires TransferSize(s, requested) > 0 && s.streamChunkBytes > 0
    requires |random| >= s.streamChunkBytes && buffer > 0 && IsInt64(nodeMax)
    requires Sum(sizes) >= TransferSize(s, requested)
    ensures reported == TransferSize(s, requested) == |body|
    ensures requested <= 0 && s.defaultBytes <= s.maxTestBytes ==> reported == s.defaultBytes
    ensures 0 < requested <= s.maxTestBytes ==> reported == requested
    ensures (if requested <= 0 then s.defaultBytes else requested) > s.maxTestBytes ==> reported == s.maxTestBytes
    ensures forall i | 0 <= i < |body| && i < s.streamChunkBytes :: body[i] == random[i]
    ensures forall i | 0 <= i < |body| - s.streamChunkBytes :: body[i + s.streamChunkBytes] == body[i]
    ensures body == Periodic(random[..Min(s.streamChunkBytes, reported)], 0, reported)
    ensures nodeMax != INT64_MAX ==> node == if reported <= nodeMax then Counted(reported) else TooLarge
    ensures nodeMax == INT64_MAX ==> node == Counted(0)
  {
    var numBytes := requested;
    if numBytes <= 0 {
      numBytes := s.defaultBytes;
    }
    if numBytes > s.maxTestBytes {
      numBytes := s.maxTestBytes;
    }
    var chunkSize := s.streamChunkBytes;
    if chunkSize > numBytes {
      chunkSize := numBytes;
    }
    var reader := new RepeatReader(random[..chunkSize], numBytes);
    body := ReadAll(reader, sizes);
    RepeatsFrom(random[..chunkSize], s.streamChunkBytes, numBytes, body);
    CutUpKeeps(body, cuts);
    CapExactUnlessMax(nodeMax);
    var consumed;
    node, consumed := HandleUpload(Lengths(CutUp(body, cuts)), nodeMax, buffer);
    reported := numBytes;
  }

  /** A size brought between one byte and a node's cap. */
  function Within(size: int, nodeMax: int): (r: int)
    requires nodeMax >= 1
    ensures 1 <= r <= nodeMax && (1 <= size <= nodeMax ==> r == size)
    ensures (size < 1 ==> r == 1) && (size > nodeMax ==> r == nodeMax)
  {
    if size < 1 then 1 else if size > nodeMax then nodeMax else size
  }

  /**
   * measureDownload against a Go node: a node that stays connected delivers exactly the size asked for, cut
   * down to the node's cap and raised to one byte; if it leaves early, the copy fails and nothing is reported.
   */
  method MeasureDownload(s: TransferSettings, requested: int, nodeMax: int, chunk: seq<byte>, conn: Connection)
    returns (reported: Option<nat>)
    requires chunk != [] && IsInt64(TransferSize(s, requested)) && conn.out == []
    modifies conn
    ensures reported.Some? <==> ClampDownload(TransferSize(s, requested), nodeMax) <= old(conn.budget)
    ensures reported.Some? ==> reported.value == |conn.out|
    ensures reported.Some? && nodeMax < 1 ==> reported.value == 1
    ensures reported.Some? && nodeMax >= 1 && requested <= 0 && s.defaultBytes <= s.maxTestBytes ==>
              reported.value == Within(s.defaultBytes, nodeMax)
    ensures reported.Some? && nodeMax >= 1 && 0 < requested <= s.maxTestBytes ==>
              reported.value == Within(requested, nodeMax)
    ensures reported.Some? && nodeMax >= 1
            && (if requested <= 0 then s.defaultBytes else requested) > s.maxTestBytes ==>
              reported.value == Within(s.maxTestBytes, nodeMax)
  {
    var numBytes := requested;
    if numBytes <= 0 {
      numBytes := s.defaultBytes;
    }
    if numBytes > s.maxTestBytes {
      numBytes := s.maxTestBytes;
    }
    var length := HandleDownload(Some(numBytes), nodeMax, chunk, conn);
    reported := if |conn.out| == length then Some(|conn.out|) else None;
  }
}
