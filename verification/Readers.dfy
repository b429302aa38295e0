/** Readers as the proxy sees them, and the buffer-or-stream decision. */
module Readers {
  import opened Common

  /** How a reader ends: cleanly or with an error. */
  datatype End = Eof | Broken

  /**
   * What is left of a reader: chunks of any size, including empty ones, then the end.
   * An eager reader reports its end together with the last chunk, a lazy one by a read of its own.
   */
  datatype Source = Source(chunks: seq<Bytes>, end: End, eager: bool)

  datatype Status = More | Over(end: End)

  function Content(s: Source): Bytes {
    Flatten(s.chunks)
  }

  function Flatten(chunks: seq<Bytes>): Bytes {
    if chunks == [] then [] else chunks[0] + Flatten(chunks[1..])
  }

  /** The last chunk holds bytes. */
  predicate EndsFull(s: Source) {
    s.chunks != [] && s.chunks[|s.chunks| - 1] != []
  }

  /** One Read into a slice of max bytes. */
  function Read(s: Source, max: nat): (r: (Bytes, Status, Source))
    requires max > 0
    ensures |r.0| <= max && Content(s) == r.0 + Content(r.2)
    ensures r.2.end == s.end && r.2.eager == s.eager
    ensures r.1.Over? ==> r.1.end == s.end && r.2.chunks == []
    ensures r.1.More? ==> |Content(r.2)| + |r.2.chunks| < |Content(s)| + |s.chunks|
    ensures r.2.chunks != [] ==> (EndsFull(r.2) <==> EndsFull(s))
    ensures r.1.Over? && r.0 != [] ==> s.eager && EndsFull(s)
    ensures r.1.More? && r.2.chunks == [] ==> !s.eager
  {
    if s.chunks == [] then ([], Over(s.end), s)
    else
      var chunk := s.chunks[0];
      if |chunk| <= max then
        var rest := s.(chunks := s.chunks[1..]);
        (chunk, if s.eager && rest.chunks == [] then Over(s.end) else More, rest)
      else
        var rest := s.(chunks := [chunk[max..]] + s.chunks[1..]);
        assert rest.chunks[1..] == s.chunks[1..];
        assert Content(s) == chunk[..max] + Content(rest);
        (chunk[..max], More, rest)
  }

  /** bytes.NewReader and bytes.NewBuffer. */
  function FromBytes(b: Bytes): (r: Source)
    ensures Content(r) == b
  {
    assert [b][1..] == [] && b + Flatten([]) == b;
    Source([b], Eof, false)
  }

  /** io.MultiReader over a buffer and the reader it was filled from. */
  function Concat(head: Bytes, tail: Source): (r: Source)
    ensures Content(r) == head + Content(tail) && r.end == tail.end
  {
    var r := Source([head] + tail.chunks, tail.end, tail.eager && tail.chunks != []);
    assert r.chunks[1..] == tail.chunks;
    r
  }

  /** What a reader can still do. */
  function Size(r: Source): nat {
    |Content(r)| + |r.chunks|
  }

  /** What is left after the first n bytes. */
  function Rest(r: Source, n: nat): Source
    decreases |r.chunks|
  {
    if n == 0 || r.chunks == [] then r
    else if |r.chunks[0]| <= n then Rest(r.(chunks := r.chunks[1..]), n - |r.chunks[0]|)
    else r.(chunks := [r.chunks[0][n..]] + r.chunks[1..])
  }

  lemma {:induction false} RestHoldsTheRest(r: Source, n: nat)
    requires n <= |Content(r)|
    ensures Content(Rest(r, n)) == Content(r)[n..] && Rest(r, n).end == r.end
    decreases |r.chunks|
  {
    if n > 0 && r.chunks != [] && |r.chunks[0]| <= n {
      RestHoldsTheRest(r.(chunks := r.chunks[1..]), n - |r.chunks[0]|);
    } else if n > 0 && r.chunks != [] {
      assert Rest(r, n).chunks[1..] == r.chunks[1..];
    }
  }

  /** The reader that starts over: the bytes read so far, then what is left. */
  function Restarted(r: Source, limit: nat): Source
    requires limit <= |Content(r)|
  {
    Concat(Content(r)[..limit], Rest(r, limit))
  }

  /** A reader that starts over yields the whole body, from its first byte, and ends like it. */
  lemma RestartedYieldsAll(r: Source, limit: nat)
    requires limit <= |Content(r)|
    ensures Content(Restarted(r, limit)) == Content(r) && Restarted(r, limit).end == r.end
  {
    RestHoldsTheRest(r, limit);
  }

  /** A read does not change what is left after the bytes that may still be read. */
  lemma ReadKeepsRest(r: Source, n: nat, max: nat)
    requires 0 < max <= n
    ensures var (data, _, rest) := Read(r, max); Rest(rest, n - |data|) == Rest(r, n)
  {
    if r.chunks != [] && |r.chunks[0]| > max {
      var rest := r.(chunks := [r.chunks[0][max..]] + r.chunks[1..]);
      assert rest.chunks[1..] == r.chunks[1..];
    }
  }

  /** An error that arrives with the very last byte, and not after it. */
  predicate BreaksOnLastByte(r: Source) {
    r.end.Broken? && r.eager && EndsFull(r)
  }

  lemma {:induction false} LastChunkHasContent(chunks: seq<Bytes>)
    requires chunks != [] && chunks[|chunks| - 1] != []
    ensures Flatten(chunks) != []
  {
    if |chunks| > 1 {
      LastChunkHasContent(chunks[1..]);
    }
  }

  datatype Buffered =
    | Failed                // the read error is returned
    | Whole(body: Bytes)    // a buffer, and a nil reader
    | Stream(reader: Source) // a nil buffer, and a reader that starts over

  /** The whole body fits below the limit. */
  predicate Fits(r: Source, limit: int) {
    r.end.Eof? && |Content(r)| < limit
  }

  /** The read error is met; only at exactly the limit does it matter when the reader reports it. */
  predicate Fails(r: Source, limit: int) {
    r.end.Broken? && (|Content(r)| < limit || (|Content(r)| == limit > 0 && BreaksOnLastByte(r)))
  }

  /** At exactly the limit, an error that comes with the last byte is reported, and one that comes after it is not. */
  lemma ErrorAtTheLimit(body: Bytes)
    requires body != []
    ensures Fails(Source([body], Broken, true), |body|) && !Fails(Source([body], Broken, false), |body|)
  {
    assert [body][1..] == [] && body + Flatten([]) == body;
  }

  /** io.Copy of a limited reader into a buffer. */
  method CopyLimited(r: Source, limit: int) returns (buf: Bytes, left: Source, end: End)
    ensures if limit <= 0 then buf == [] && left == r && end.Eof? else Filling(r, limit, buf, limit - |buf|, left, Over(end))
  {
    buf, left := [], r;
    if limit <= 0 {
      return buf, left, Eof;
    }
    var n := limit;
    var status := More;
    while status.More?
      invariant n == limit - |buf| && Filling(r, limit, buf, n, left, status)
      decreases status.More?, Size(left)
    {
      var size: nat :| size > 0;  // the free space the buffer happens to have
      buf, n, left, status := FillOnce(r, limit, buf, n, left, if size < n then size else n);
    }
    end := status.end;
  }

  /** One read into the buffer, of at most max bytes. */
  method FillOnce(ghost r: Source, ghost limit: int, buf0: Bytes, n0: int, left0: Source, max: nat)
    returns (buf: Bytes, n: int, left: Source, status: Status)
    requires Filling(r, limit, buf0, n0, left0, More) && 0 < max <= n0
    ensures n == limit - |buf| && Filling(r, limit, buf, n, left, status)
    ensures status.More? ==> Size(left) < Size(left0)
  {
    FillingGoesOn(r, limit, buf0, n0, left0, max);
    var (data, s, rest) := Read(left0, max);
    buf, n, left := buf0 + data, n0 - |data|, rest;
    status := if s.More? && n <= 0 then Over(Eof) else s;
  }

  method ReaderToBuffer(r: Source, limit: int) returns (res: Buffered, left: Source)
    ensures limit >= 0 ==> (res.Failed? <==> Fails(r, limit)) && (res.Whole? <==> Fits(r, limit))
    ensures limit >= 0 && res.Whole? ==> res.body == Content(r)
    ensures res.Stream? ==> 0 <= limit <= |Content(r)| && res.reader == Restarted(r, limit)
    ensures limit < 0 ==> res == Whole([]) && left == r
    ensures |Content(left)| <= |Content(r)| <= |Content(left)| + (if limit < 0 then 0 else limit)
    ensures Content(left) == Content(r)[|Content(r)| - |Content(left)|..]
  {
    var buf, end;
    buf, left, end := CopyLimited(r, limit);
    if limit > 0 {
      FillingEnds(r, limit, buf, limit - |buf|, left, Over(end));
    }
    if end.Broken? {
      return Failed, left;
    }
    if |buf| == limit {
      return Stream(Concat(buf, left)), left;
    }
    return Whole(buf), left;
  }

  /** The state of the copy into the buffer: n bytes may still be read. */
  ghost predicate Filling(r: Source, limit: int, buf: Bytes, n: int, left: Source, status: Status) {
    && Content(r) == buf + Content(left) && |buf| + n == limit && n >= 0 && Rest(left, n) == Rest(r, limit)
    && left.end == r.end && left.eager == r.eager
    && (left.chunks != [] ==> (EndsFull(left) <==> EndsFull(r)))
    && (status.More? ==> n > 0 && (left.chunks == [] ==> !BreaksOnLastByte(r)))
    && (status == Over(Broken) ==> left.chunks == [] && r.end.Broken? && (n == 0 ==> BreaksOnLastByte(r)))
    && (status == Over(Eof) ==> n == 0 || (left.chunks == [] && r.end.Eof?))
    && (status == Over(Eof) && left.chunks == [] ==> !BreaksOnLastByte(r))
  }

  lemma FillingGoesOn(r: Source, limit: int, buf: Bytes, n: int, left: Source, max: nat)
    requires Filling(r, limit, buf, n, left, More) && 0 < max <= n
    ensures var (data, s, rest) := Read(left, max);
            var still := n - |data|;
            Filling(r, limit, buf + data, still, rest, if s.More? && still <= 0 then Over(Eof) else s)
  {
    ReadKeepsRest(left, n, max);
  }

  lemma FillingEnds(r: Source, limit: int, buf: Bytes, n: int, left: Source, status: Status)
    requires limit > 0 && Filling(r, limit, buf, n, left, status) && status.Over?
    ensures status.end.Broken? <==> Fails(r, limit)
    ensures status.end.Eof? ==> (|buf| == limit <==> !Fits(r, limit)) && (Fits(r, limit) ==> buf == Content(r))
    ensures status.end.Eof? && |buf| == limit ==> limit <= |Content(r)| && Concat(buf, left) == Restarted(r, limit)
  {
    if EndsFull(left) {
      LastChunkHasContent(left.chunks);
    }
  }
}
