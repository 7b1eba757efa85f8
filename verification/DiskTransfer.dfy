/**
 Disk migration between two node agents: the sender cuts a file into offset-tagged chunks of whatever sizes its reads
 return, the receiver seeks and writes each chunk, and reports progress when the byte count passes 100 MiB marks.
 */
module DiskTransfer {
  import opened Base

  type Byte = b: int | 0 <= b < 256

  datatype Chunk = Chunk(data: seq<Byte>, offset: int, total: int)

  const BUFFER_SIZE := 64 * 1024
  const REPORT_EVERY := 100 * 1024 * 1024
  const MAX_MESSAGE := 64 * 1024 * 1024

  // ----- files -----

  function Zeros(n: nat): (z: seq<Byte>)
    ensures |z| == n && forall i :: 0 <= i < n ==> z[i] == 0
  {
    seq(n, _ => 0)
  }

  /** The contents after writing data at an offset: a gap is filled with zeros, and writing nothing changes nothing. */
  function WriteAt(f: seq<Byte>, offset: nat, data: seq<Byte>): seq<Byte> {
    if data == [] then f
    else
      var base := if |f| < offset then f + Zeros(offset - |f|) else f;
      base[..offset] + data + (if offset + |data| <= |base| then base[offset + |data|..] else [])
  }

  /** Byte by byte, g is f with the data at the offset: old contents elsewhere, zeros in the gap. */
  ghost predicate Written(f: seq<Byte>, offset: nat, data: seq<Byte>, g: seq<Byte>) {
    && |g| == (if offset + |data| > |f| then offset + |data| else |f|)
    && forall p :: 0 <= p < |g| ==>
         g[p] == if offset <= p < offset + |data| then data[p - offset] else if p < |f| then f[p] else 0
  }

  lemma WrittenBytes(f: seq<Byte>, offset: nat, data: seq<Byte>)
    ensures data != [] ==> Written(f, offset, data, WriteAt(f, offset, data))
    ensures data == [] ==> WriteAt(f, offset, data) == f
  {
  }

  class DiskFile {
    var contents: seq<Byte>
    var position: nat

    /** os.Create truncates. */
    constructor ()
      ensures contents == [] && position == 0
    {
      contents, position := [], 0;
    }

    method Seek(offset: int) returns (ok: bool)
      modifies `position
      ensures ok == (offset >= 0)
      ensures position == if ok then offset else old(position)
    {
      ok := offset >= 0;
      if ok {
        position := offset;
      }
    }

    method Write(data: seq<Byte>)
      modifies this
      ensures contents == WriteAt(old(contents), old(position), data)
      ensures position == old(position) + |data|
    {
      contents := WriteAt(contents, position, data);
      position := position + |data|;
    }

    /** The receiver's step for one chunk: seek, then write. A failing write may leave the first bytes of the data. */
    method Place(c: Chunk, fails: bool, partial: nat) returns (ok: bool)
      modifies this
      ensures ok == (c.offset >= 0 && !fails)
      ensures c.offset >= 0 ==> contents == WriteAt(old(contents), c.offset, if fails then Torn(c.data, partial) else c.data)
      ensures c.offset < 0 ==> contents == old(contents)
    {
      ok := Seek(c.offset);
      if ok {
        Write(if fails then Torn(c.data, partial) else c.data);
        ok := !fails;
      }
    }
  }

  /** What a failing write leaves of its data. */
  function Torn(data: seq<Byte>, partial: nat): seq<Byte> {
    if partial < |data| then data[..partial] else data
  }

  // ----- sender -----

  /** The bytes carried by the first n chunks. */
  function Bytes(cs: seq<Chunk>): nat {
    if cs == [] then 0 else Bytes(cs[..|cs| - 1]) + |cs[|cs| - 1].data|
  }

  /** The chunk carries the content's own bytes at its offset. */
  predicate Piece(content: seq<Byte>, c: Chunk) {
    0 <= c.offset <= c.offset + |c.data| <= |content| && c.data == content[c.offset..c.offset + |c.data|]
  }

  /** The data chunks are consecutive pieces of the content from its start. */
  ghost predicate InOrder(content: seq<Byte>, cs: seq<Chunk>) {
    forall i: nat :: i < |cs| ==> Placed(content, cs, i)
  }

  predicate Placed(content: seq<Byte>, cs: seq<Chunk>, i: nat)
    requires i < |cs|
  {
    Piece(content, cs[i]) && cs[i].offset == Bytes(cs[..i])
  }

  lemma BytesSnoc(cs: seq<Chunk>, c: Chunk)
    ensures Bytes(cs + [c]) == Bytes(cs) + |c.data|
  {
    assert (cs + [c])[..|cs|] == cs;
  }

  /** What has been streamed: consecutive non-empty pieces, none larger than the read buffer. */
  ghost predicate Streamed(content: seq<Byte>, cs: seq<Chunk>) {
    && InOrder(content, cs)
    && Bytes(cs) <= |content|
    && forall i :: 0 <= i < |cs| ==> 0 < |cs[i].data| <= BUFFER_SIZE && cs[i].total == |content|
  }

  lemma InOrderSnoc(content: seq<Byte>, cs: seq<Chunk>, c: Chunk)
    requires InOrder(content, cs) && Piece(content, c) && c.offset == Bytes(cs)
    ensures InOrder(content, cs + [c])
  {
    var cs' := cs + [c];
    forall i: nat | i < |cs'|
      ensures Placed(content, cs', i)
    {
      if i < |cs| {
        assert cs'[..i] == cs[..i] && Placed(content, cs, i);
      } else {
        assert cs'[..i] == cs;
      }
    }
  }

  lemma StreamedSnoc(content: seq<Byte>, cs: seq<Chunk>, c: Chunk)
    requires Streamed(content, cs) && Piece(content, c) && c.offset == Bytes(cs)
    requires 0 < |c.data| <= BUFFER_SIZE && c.total == |content|
    ensures Streamed(content, cs + [c]) && Bytes(cs + [c]) == Bytes(cs) + |c.data|
  {
    BytesSnoc(cs, c);
    InOrderSnoc(content, cs, c);
  }

  /** Every read offers at least the 64 KiB that the buffer holds. */
  ghost predicate FillsBuffer(sizes: seq<int>) {
    forall i :: 0 <= i < |sizes| ==> sizes[i] >= 64 * 1024
  }

  /** Every chunk fills the buffer, except one that ends the content. */
  ghost predicate FullChunks(content: seq<Byte>, cs: seq<Chunk>) {
    forall k :: 0 <= k < |cs| ==> |cs[k].data| == 64 * 1024 || cs[k].offset + |cs[k].data| == |content|
  }

  lemma FullSnoc(content: seq<Byte>, cs: seq<Chunk>, c: Chunk)
    requires FullChunks(content, cs) && (|c.data| == 64 * 1024 || c.offset + |c.data| == |content|)
    ensures FullChunks(content, cs + [c])
  {
  }

  /** What the chunk loop has sent so far. */
  ghost predicate Sending(content: seq<Byte>, sizes: seq<int>, sent: seq<Chunk>, bytesSent: nat) {
    && Streamed(content, sent) && bytesSent == Bytes(sent) && |sent| <= bytesSent
    && (FillsBuffer(sizes) ==> FullChunks(content, sent))
  }

  lemma SendNext(content: seq<Byte>, sizes: seq<int>, sent: seq<Chunk>, bytesSent: nat, c: Chunk)
    requires Sending(content, sizes, sent, bytesSent) && Piece(content, c) && c.offset == bytesSent && c.total == |content|
    requires 0 < |c.data| <= BUFFER_SIZE
    requires FillsBuffer(sizes) ==> |c.data| == 64 * 1024 || c.offset + |c.data| == |content|
    ensures Sending(content, sizes, sent + [c], bytesSent + |c.data|)
  {
    StreamedSnoc(content, sent, c);
    if FillsBuffer(sizes) {
      FullSnoc(content, sent, c);
    }
  }

  ghost predicate NoneFailed(sizes: seq<int>, n: nat) {
    forall i :: 0 <= i < n && i < |sizes| ==> sizes[i] >= 0
  }

  ghost predicate NeverStalls(sizes: seq<int>) {
    forall i :: 0 <= i < |sizes| ==> sizes[i] > 0
  }

  /** TransferDisk once the file is open: the metadata chunk, then the chunk loop. sizes[k] is how many bytes the k-th
      read offers (short reads allowed), negative when it fails; made counts the reads; running out of reads before the
      end of the file is a failure too. The stream accepts the first sends messages and fails the next. */
  method TransferDisk(content: seq<Byte>, sizes: seq<int>, sends: nat)
    returns (meta: Option<Chunk>, sent: seq<Chunk>, made: nat, ok: bool)
    ensures meta == if sends > 0 then Some(Chunk([], 0, |content|)) else None
    ensures Streamed(content, sent) && |sent| <= Bytes(sent) && (sent == [] || |sent| < sends)
    ensures ok ==> meta.Some? && Bytes(sent) == |content|
    ensures FillsBuffer(sizes) ==> FullChunks(content, sent)
    ensures made <= |sizes| && (made > 0 ==> NoneFailed(sizes, made - 1))
    ensures ok ==> made > 0 && sizes[made - 1] >= 0
    ensures !ok ==> sends == 0 || |sent| + 1 == sends || (made > 0 && sizes[made - 1] < 0) || made == |sizes|
    ensures sends > |content| && |sizes| > |content| && NeverStalls(sizes) ==> ok
  {
    meta, sent, made, ok := None, [], 0, false;
    if sends == 0 {
      return;
    }
    meta := Some(Chunk([], 0, |content|));
    var bytesSent := 0;
    while made < |sizes|
      invariant made <= |sizes| && NoneFailed(sizes, made)
      invariant Sending(content, sizes, sent, bytesSent) && |sent| < sends
      invariant NeverStalls(sizes) ==> made <= bytesSent
    {
      var size := sizes[made];
      made := made + 1;
      if size < 0 {
        return;
      }
      var left := |content| - bytesSent;
      var n := if size < BUFFER_SIZE then size else BUFFER_SIZE;
      n := if n < left then n else left;
      if n > 0 {
        if |sent| + 1 == sends {
          return;
        }
        var c := Chunk(content[bytesSent..bytesSent + n], bytesSent, |content|);
        SendNext(content, sizes, sent, bytesSent, c);
        sent := sent + [c];
        bytesSent := bytesSent + n;
      }
      if left == 0 {
        ok := true;
        return;
      }
    }
  }

  // ----- receiver -----

  predicate Seekable(cs: seq<Chunk>) {
    forall i :: 0 <= i < |cs| ==> cs[i].offset >= 0
  }

  /** The file f after the chunks are written in the order they arrive. */
  function Received(f: seq<Byte>, cs: seq<Chunk>): seq<Byte>
    requires Seekable(cs)
  {
    if cs == [] then f else WriteAt(Received(f, cs[..|cs| - 1]), cs[|cs| - 1].offset, cs[|cs| - 1].data)
  }

  function TruncDiv(a: int, b: int): int
    requires b > 0
  {
    if a >= 0 then a / b else -((-a) / b)
  }

  /** The progress field of a report: the product is an int64. */
  function Percent(received: int, total: int): int
    requires total > 0
  {
    TruncDiv(Wrap(received * 100), total)
  }

  /** The progress test: the count after a chunk of the given size. */
  predicate Fires(received: int, size: nat) {
    received % REPORT_EVERY < size
  }

  /** The bytes field of the report, if any, once the count has reached received with a chunk of the given size. */
  function ReportAt(total: int, received: nat, size: nat): seq<nat> {
    if total > 0 && Fires(received, size) then [received] else []
  }

  /** The bytes fields of the reports while the chunks after the first arrive. */
  function Reports(first: Chunk, cs: seq<Chunk>): seq<nat> {
    if cs == [] then []
    else
      var n := |cs| - 1;
      Reports(first, cs[..n]) + ReportAt(first.total, |first.data| + Bytes(cs), |cs[n].data|)
  }

  /** What the receiver has after the first chunk and the given others. */
  ghost predicate Progress(first: Chunk, cs: seq<Chunk>, contents: seq<Byte>, bytes: nat, reports: seq<nat>) {
    && Seekable(cs)
    && contents == Received(first.data, cs)
    && bytes == |first.data| + Bytes(cs)
    && reports == Reports(first, cs)
  }

  lemma OneMore(first: Chunk, cs: seq<Chunk>, i: nat, contents: seq<Byte>, bytes: nat, reports: seq<nat>)
    requires i < |cs| && cs[i].offset >= 0 && Progress(first, cs[..i], contents, bytes, reports)
    ensures var n := bytes + |cs[i].data|;
            Progress(first, cs[..i + 1], WriteAt(contents, cs[i].offset, cs[i].data), n,
                     reports + ReportAt(first.total, n, |cs[i].data|))
  {
    assert cs[..i + 1][..i] == cs[..i];
  }

  /** The file after the first n chunks and the first bytes of the next one. */
  function TornAt(f: seq<Byte>, cs: seq<Chunk>, n: nat, partial: nat): seq<Byte>
    requires n < |cs| && Seekable(cs[..n]) && cs[n].offset >= 0
  {
    WriteAt(Received(f, cs[..n]), cs[n].offset, Torn(cs[n].data, partial))
  }

  /** What a failed call leaves: the first bytes of the first chunk; or some chunks and perhaps a part of the next one. */
  ghost predicate Interrupted(first: Chunk, rest: seq<Chunk>, contents: seq<Byte>) {
    || contents <= first.data
    || (exists n: nat :: StoppedAt(first, rest, contents, n))
    || (exists n: nat, partial: nat :: CutAt(first, rest, contents, n, partial))
  }

  ghost predicate StoppedAt(first: Chunk, rest: seq<Chunk>, contents: seq<Byte>, n: nat) {
    n <= |rest| && Seekable(rest[..n]) && contents == Received(first.data, rest[..n])
  }

  /** The file holds exactly the chunks that were counted. */
  ghost predicate Counted(first: Chunk, rest: seq<Chunk>, contents: seq<Byte>, bytes: nat) {
    exists n: nat :: StoppedAt(first, rest, contents, n) && bytes == |first.data| + Bytes(rest[..n])
  }

  ghost predicate CutAt(first: Chunk, rest: seq<Chunk>, contents: seq<Byte>, n: nat, partial: nat) {
    n < |rest| && Seekable(rest[..n]) && rest[n].offset >= 0 && contents == TornAt(first.data, rest, n, partial)
  }

  lemma Stopped(first: Chunk, rest: seq<Chunk>, i: nat, contents: seq<Byte>, bytes: nat, reports: seq<nat>)
    requires i <= |rest| && Progress(first, rest[..i], contents, bytes, reports)
    ensures Interrupted(first, rest, contents) && Counted(first, rest, contents, bytes)
  {
    assert StoppedAt(first, rest, contents, i);
  }

  lemma Cut(first: Chunk, rest: seq<Chunk>, i: nat, contents: seq<Byte>, bytes: nat, reports: seq<nat>, partial: nat)
    requires i < |rest| && rest[i].offset >= 0 && Progress(first, rest[..i], contents, bytes, reports)
    ensures Interrupted(first, rest, WriteAt(contents, rest[i].offset, Torn(rest[i].data, partial)))
  {
    assert CutAt(first, rest, WriteAt(contents, rest[i].offset, Torn(rest[i].data, partial)), i, partial);
  }

  lemma FirstProgress(first: Chunk, rest: seq<Chunk>)
    ensures Progress(first, rest[..0], WriteAt([], 0, first.data), |first.data|, [])
  {
    WrittenBytes([], 0, first.data);
    assert WriteAt([], 0, first.data) == first.data;
  }

  lemma LastProgress(first: Chunk, rest: seq<Chunk>, contents: seq<Byte>, bytes: nat, reports: seq<nat>)
    requires Progress(first, rest[..|rest|], contents, bytes, reports)
    ensures Progress(first, rest, contents, bytes, reports)
  {
    assert rest[..|rest|] == rest;
  }

  lemma TornFirst(first: Chunk, rest: seq<Chunk>, partial: nat)
    ensures Interrupted(first, rest, WriteAt([], 0, Torn(first.data, partial)))
  {
    WrittenBytes([], 0, Torn(first.data, partial));
    assert WriteAt([], 0, Torn(first.data, partial)) == Torn(first.data, partial);
  }

  /** ReceiveDisk once the target path is accepted. It fails on a negative offset; the file accepts the first writes
      calls and fails the next after partial bytes; broken says that the stream ends with an error after rest. */
  method ReceiveDisk(first: Chunk, rest: seq<Chunk>, writes: nat, partial: nat, broken: bool)
    returns (file: DiskFile, bytesReceived: nat, reports: seq<nat>, ok: bool)
    ensures fresh(file)
    ensures ok <==> Seekable(rest) && |rest| < writes && !broken
    ensures ok ==> Progress(first, rest, file.contents, bytesReceived, reports)
    ensures !ok ==> Interrupted(first, rest, file.contents)
    ensures |rest| < writes ==> Counted(first, rest, file.contents, bytesReceived)
  {
    file := new DiskFile();
    bytesReceived, reports, ok := 0, [], false;
    if writes == 0 {
      file.Write(Torn(first.data, partial));
      TornFirst(first, rest, partial);
      return;
    }
    file.Write(first.data);
    bytesReceived := |first.data|;
    FirstProgress(first, rest);
    for i := 0 to |rest|
      invariant fresh(file) && !ok && i < writes
      invariant Progress(first, rest[..i], file.contents, bytesReceived, reports)
    {
      ghost var before := file.contents;
      var placed := file.Place(rest[i], i + 1 == writes, partial);
      if !placed {
        if rest[i].offset < 0 {
          Stopped(first, rest, i, before, bytesReceived, reports);
        } else {
          Cut(first, rest, i, before, bytesReceived, reports, partial);
        }
        return;
      }
      OneMore(first, rest, i, before, bytesReceived, reports);
      bytesReceived := bytesReceived + |rest[i].data|;
      reports := reports + ReportAt(first.total, bytesReceived, |rest[i].data|);
    }
    Stopped(first, rest, |rest|, file.contents, bytesReceived, reports);
    LastProgress(first, rest, file.contents, bytesReceived, reports);
    ok := !broken;
  }
}
