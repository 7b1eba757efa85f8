/** The received file is the sent one, in any delivery order, and progress is reported once per 100 MiB mark. */
module DiskRoundTrip {
  import opened Base
  import opened DiskTransfer

  // ----- what a file holds after any pieces of the content arrive -----

  predicate Covers(c: Chunk, p: int) {
    c.offset <= p < c.offset + |c.data|
  }

  predicate Covered(cs: seq<Chunk>, p: int) {
    exists i :: 0 <= i < |cs| && Covers(cs[i], p)
  }

  predicate Pieces(content: seq<Byte>, cs: seq<Chunk>) {
    forall i :: 0 <= i < |cs| ==> Piece(content, cs[i])
  }

  /** The file ends at the last covered byte, shows the content where it was covered, and zeros in the gaps. */
  ghost predicate Image(content: seq<Byte>, cs: seq<Chunk>, f: seq<Byte>) {
    && |f| <= |content|
    && (forall p :: 0 <= p < |f| ==> f[p] == if Covered(cs, p) then content[p] else 0)
    && (forall p :: |f| <= p ==> !Covered(cs, p))
    && (f != [] ==> Covered(cs, |f| - 1))
  }

  lemma CoveredSnoc(cs: seq<Chunk>, c: Chunk, p: int)
    ensures Covered(cs + [c], p) <==> Covered(cs, p) || Covers(c, p)
  {
    if Covered(cs, p) {
      var i :| 0 <= i < |cs| && Covers(cs[i], p);
      assert Covers((cs + [c])[i], p);
    }
    if Covers(c, p) {
      assert Covers((cs + [c])[|cs|], p);
    }
  }

  lemma WrittenImage(content: seq<Byte>, cs: seq<Chunk>, f: seq<Byte>, c: Chunk, g: seq<Byte>)
    requires Image(content, cs, f) && Piece(content, c)
    requires if c.data == [] then g == f else Written(f, c.offset, c.data, g)
    ensures Image(content, cs + [c], g)
  {
    forall p: int
      ensures Covered(cs + [c], p) <==> Covered(cs, p) || Covers(c, p)
    {
      CoveredSnoc(cs, c, p);
    }
  }

  lemma {:induction false} ReceivedImage(content: seq<Byte>, cs: seq<Chunk>)
    requires Pieces(content, cs)
    ensures Seekable(cs) && Image(content, cs, Received([], cs))
  {
    if cs != [] {
      var n := |cs| - 1;
      assert cs == cs[..n] + [cs[n]];
      ReceivedImage(content, cs[..n]);
      var f := Received([], cs[..n]);
      WrittenBytes(f, cs[n].offset, cs[n].data);
      WrittenImage(content, cs[..n], f, cs[n], WriteAt(f, cs[n].offset, cs[n].data));
    }
  }

  /** Any pieces of the content, in any order and number, rebuild it exactly when its last byte arrived and every byte
      that never arrived is zero. */
  lemma RebuildsExactly(content: seq<Byte>, cs: seq<Chunk>)
    requires Pieces(content, cs)
    ensures Seekable(cs)
    ensures Received([], cs) == content <==>
            && (content == [] || Covered(cs, |content| - 1))
            && forall p :: 0 <= p < |content| && content[p] != 0 ==> Covered(cs, p)
  {
    ReceivedImage(content, cs);
  }

  // ----- the sender's own chunks -----

  lemma {:induction false} InOrderCovers(content: seq<Byte>, cs: seq<Chunk>, p: nat)
    requires InOrder(content, cs) && p < Bytes(cs)
    ensures Covered(cs, p)
  {
    var n := |cs| - 1;
    assert cs == cs[..n] + [cs[n]];
    CoveredSnoc(cs[..n], cs[n], p);
    assert Placed(content, cs, n);
    if p < Bytes(cs[..n]) {
      InOrderPrefix(content, cs, n);
      InOrderCovers(content, cs[..n], p);
    }
  }

  lemma InOrderPrefix(content: seq<Byte>, cs: seq<Chunk>, k: nat)
    requires InOrder(content, cs) && k <= |cs|
    ensures InOrder(content, cs[..k])
  {
    forall i: nat | i < k
      ensures Placed(content, cs[..k], i)
    {
      assert Placed(content, cs, i) && cs[..k][..i] == cs[..i];
    }
  }

  lemma InOrderPieces(content: seq<Byte>, cs: seq<Chunk>)
    requires InOrder(content, cs)
    ensures Pieces(content, cs)
  {
    forall i | 0 <= i < |cs|
      ensures Piece(content, cs[i])
    {
      assert Placed(content, cs, i);
    }
  }

  /** Reordering or repeating the data chunks of a complete transfer still rebuilds the source file. */
  lemma AnyDeliveryRebuilds(content: seq<Byte>, sent: seq<Chunk>, arrived: seq<Chunk>)
    requires Streamed(content, sent) && Bytes(sent) == |content|
    requires forall c :: c in arrived <==> c in sent
    ensures Seekable(arrived) && Received([], arrived) == content
  {
    InOrderPieces(content, sent);
    forall i | 0 <= i < |arrived|
      ensures Piece(content, arrived[i])
    {
      assert arrived[i] in sent;
    }
    forall p: nat | p < |content|
      ensures Covered(arrived, p)
    {
      InOrderCovers(content, sent, p);
      var i :| 0 <= i < |sent| && Covers(sent[i], p);
      assert sent[i] in arrived;
      var j :| 0 <= j < |arrived| && arrived[j] == sent[i];
      assert Covers(arrived[j], p);
    }
    RebuildsExactly(content, arrived);
  }

  /** In order, the file is the prefix of the source that has been counted, after every chunk. */
  lemma {:induction false} InOrderIsPrefix(content: seq<Byte>, cs: seq<Chunk>)
    requires InOrder(content, cs)
    ensures Seekable(cs) && Bytes(cs) <= |content| && Received([], cs) == content[..Bytes(cs)]
  {
    if cs != [] {
      var n := |cs| - 1;
      InOrderPrefix(content, cs, n);
      InOrderIsPrefix(content, cs[..n]);
      assert Placed(content, cs, n);
      WrittenBytes(content[..Bytes(cs[..n])], cs[n].offset, cs[n].data);
      assert Seekable(cs) by {
        InOrderPieces(content, cs);
      }
    }
  }

  /** Extending a prefix by the content's own next bytes gives a prefix. */
  lemma TornPrefix(content: seq<Byte>, n: nat, data: seq<Byte>)
    requires n + |data| <= |content| && data == content[n..n + |data|]
    ensures WriteAt(content[..n], n, data) == content[..n + |data|]
  {
    WrittenBytes(content[..n], n, data);
  }

  lemma StoppedIsPrefix(content: seq<Byte>, first: Chunk, cs: seq<Chunk>, contents: seq<Byte>, n: nat)
    requires InOrder(content, cs) && first.data == [] && StoppedAt(first, cs, contents, n)
    ensures Bytes(cs[..n]) <= |content| && contents == content[..Bytes(cs[..n])]
  {
    InOrderPrefix(content, cs, n);
    InOrderIsPrefix(content, cs[..n]);
  }

  lemma CutIsPrefix(content: seq<Byte>, first: Chunk, cs: seq<Chunk>, contents: seq<Byte>, n: nat, partial: nat)
    requires InOrder(content, cs) && first.data == [] && CutAt(first, cs, contents, n, partial)
    ensures contents <= content
  {
    StoppedIsPrefix(content, first, cs, Received(first.data, cs[..n]), n);
    assert Placed(content, cs, n);
    TornPrefix(content, cs[n].offset, Torn(cs[n].data, partial));
  }

  /** Wherever receiving in-order chunks is interrupted, also within a write, the file is a prefix of the source. */
  lemma InterruptedIsPrefix(content: seq<Byte>, first: Chunk, cs: seq<Chunk>, contents: seq<Byte>)
    requires InOrder(content, cs) && first.data == [] && Interrupted(first, cs, contents)
    ensures contents <= content
  {
    if n: nat :| StoppedAt(first, cs, contents, n) {
      StoppedIsPrefix(content, first, cs, contents, n);
    } else if n: nat, partial: nat :| CutAt(first, cs, contents, n, partial) {
      CutIsPrefix(content, first, cs, contents, n, partial);
    }
  }

  /** Unless a write failed, it is the prefix of the counted length. */
  lemma CountedIsPrefix(content: seq<Byte>, first: Chunk, cs: seq<Chunk>, contents: seq<Byte>, bytes: nat)
    requires InOrder(content, cs) && first.data == [] && Counted(first, cs, contents, bytes)
    ensures bytes <= |content| && contents == content[..bytes]
  {
    var n: nat :| StoppedAt(first, cs, contents, n) && bytes == |first.data| + Bytes(cs[..n]);
    StoppedIsPrefix(content, first, cs, contents, n);
  }

  /** Round trip: sender and receiver over a stream that loses what was sent after the first arrived chunks. A copy that
      both complete is the source file, whatever the reads returned; any other leaves a prefix of it. Only a failure to
      read, send, deliver or write prevents completion. */
  method CopyDisk(content: seq<Byte>, sizes: seq<int>, sends: nat, arrived: nat, writes: nat, partial: nat)
    returns (file: DiskFile?, bytes: nat, ok: bool)
    ensures ok ==> file != null && file.contents == content && bytes == |content|
    ensures file != null ==> file.contents <= content
    ensures file != null && writes > |content| ==> bytes <= |content| && file.contents == content[..bytes]
    ensures file == null <==> sends == 0
    ensures sends > |content| && |sizes| > |content| && NeverStalls(sizes) && arrived >= |content| && writes > |content| ==> ok
  {
    var meta, sent, made, sentAll := TransferDisk(content, sizes, sends);
    if meta.None? {
      return null, 0, false;
    }
    var delivered := if arrived < |sent| then sent[..arrived] else sent;
    InOrderPrefix(content, sent, |delivered|);
    assert delivered == sent[..|delivered|];
    InOrderIsPrefix(content, delivered);
    var reports;
    file, bytes, reports, ok := ReceiveDisk(meta.value, delivered, writes, partial, !sentAll || arrived < |sent|);
    if !ok {
      InterruptedIsPrefix(content, meta.value, delivered, file.contents);
    }
    if |delivered| < writes {
      CountedIsPrefix(content, meta.value, delivered, file.contents, bytes);
    }
  }

  // ----- progress -----

  /** The test fires exactly when the chunk passes a multiple of 100 MiB. */
  lemma FiresAtMarks(before: nat, size: nat)
    ensures Fires(before + size, size) <==> before / REPORT_EVERY < (before + size) / REPORT_EVERY
  {
    var q, r := before / REPORT_EVERY, before % REPORT_EVERY;
    var q', r' := (before + size) / REPORT_EVERY, (before + size) % REPORT_EVERY;
    assert q' * REPORT_EVERY + r' == q * REPORT_EVERY + r + size;
    if q == q' {
      assert r' == r + size;
    } else {
      assert q' >= q + 1;
      assert r' <= r + size - REPORT_EVERY;
    }
  }

  lemma OneMarkAtMost(before: nat, size: nat)
    requires size <= MAX_MESSAGE
    ensures before / REPORT_EVERY <= (before + size) / REPORT_EVERY <= before / REPORT_EVERY + 1
  {
  }

  /** With chunks within the message cap there is one report per mark passed. */
  lemma {:induction false} ReportsCountMarks(first: Chunk, cs: seq<Chunk>)
    requires first.total > 0 && forall i :: 0 <= i < |cs| ==> |cs[i].data| <= 64 * 1024 * 1024
    ensures |Reports(first, cs)| == (|first.data| + Bytes(cs)) / REPORT_EVERY - |first.data| / REPORT_EVERY
  {
    if cs != [] {
      var n := |cs| - 1;
      ReportsCountMarks(first, cs[..n]);
      var before, size := |first.data| + Bytes(cs[..n]), |cs[n].data|;
      FiresAtMarks(before, size);
      OneMarkAtMost(before, size);
    }
  }

  /** Chunk i takes the count past a 100 MiB mark. */
  ghost predicate Passes(first: Chunk, cs: seq<Chunk>, i: nat, n: nat) {
    && i < |cs| && n == |first.data| + Bytes(cs[..i + 1])
    && (|first.data| + Bytes(cs[..i])) / (100 * 1024 * 1024) < n / (100 * 1024 * 1024)
  }

  ghost predicate Passed(first: Chunk, cs: seq<Chunk>, n: nat) {
    exists i: nat :: Passes(first, cs, i, n)
  }

  lemma PassesEarlier(first: Chunk, cs: seq<Chunk>, m: nat, i: nat, n: nat)
    requires i < m <= |cs|
    ensures Passes(first, cs, i, n) <==> Passes(first, cs[..m], i, n)
  {
    assert cs[..m][..i + 1] == cs[..i + 1] && cs[..m][..i] == cs[..i];
  }

  /** The last chunk passes a mark exactly when it makes a report. */
  lemma PassesLast(first: Chunk, cs: seq<Chunk>, n: nat)
    requires cs != [] && first.total > 0
    ensures var m := |cs| - 1;
            Passes(first, cs, m, n) <==> n in ReportAt(first.total, |first.data| + Bytes(cs), |cs[m].data|)
  {
    var m := |cs| - 1;
    assert cs[..m + 1] == cs;
    FiresAtMarks(|first.data| + Bytes(cs[..m]), |cs[m].data|);
  }

  lemma PassedSplit(first: Chunk, cs: seq<Chunk>, n: nat)
    requires cs != []
    ensures Passed(first, cs, n) <==> Passed(first, cs[..|cs| - 1], n) || Passes(first, cs, |cs| - 1, n)
  {
    var m := |cs| - 1;
    if i: nat :| Passes(first, cs, i, n) && i != m {
      PassesEarlier(first, cs, m, i, n);
    }
    if i: nat :| Passes(first, cs[..m], i, n) {
      PassesEarlier(first, cs, m, i, n);
    }
  }

  /** The reports are the byte counts after the chunks that passed a mark, and no others. */
  lemma {:induction false} ReportsExactly(first: Chunk, cs: seq<Chunk>, n: nat)
    ensures n in Reports(first, cs) <==> first.total > 0 && Passed(first, cs, n)
  {
    if cs != [] {
      ReportsExactly(first, cs[..|cs| - 1], n);
      PassedSplit(first, cs, n);
      if first.total > 0 {
        PassesLast(first, cs, n);
      }
    }
  }

  lemma DivMonotone(a: int, b: int, t: int)
    requires t > 0 && a <= b
    ensures a / t <= b / t
  {
    if a / t > b / t {
      MulMonotone(t, b / t + 1, a / t);
      assert false;
    }
  }

  lemma DivExact(t: int, k: int)
    requires t > 0
    ensures (t * k) / t == k
  {
    var q := (t * k) / t;
    if q < k {
      MulMonotone(t, q + 1, k);
    } else if q > k {
      MulMonotone(t, k + 1, q);
    }
  }

  /** Below 2^63 / 100 bytes the product does not overflow. */
  lemma PercentExact(received: nat, total: nat)
    requires 0 < total && received <= (TWO_63 - 1) / 100
    ensures Percent(received, total) == received * 100 / total
  {
    assert 0 <= received * 100 < TWO_63;
    assert Wrap(received * 100) == received * 100;
  }

  /** The percentage then lies between 0 and 100. */
  lemma PercentInRange(received: nat, total: nat)
    requires 0 < total && received <= total <= (TWO_63 - 1) / 100
    ensures Percent(received, total) == received * 100 / total && 0 <= Percent(received, total) <= 100
  {
    PercentExact(received, total);
    DivMonotone(0, received * 100, total);
    DivMonotone(received * 100, total * 100, total);
    DivExact(total, 0);
    DivExact(total, 100);
  }

  ghost predicate Rising(counts: seq<nat>, top: nat) {
    && (forall i, j :: 0 <= i < j < |counts| ==> counts[i] <= counts[j])
    && (forall i :: 0 <= i < |counts| ==> counts[i] <= top)
  }

  /** Reports come with rising byte counts up to what has arrived. */
  lemma {:induction false} ReportsRise(first: Chunk, cs: seq<Chunk>)
    ensures Rising(Reports(first, cs), |first.data| + Bytes(cs))
  {
    if cs != [] {
      ReportsRise(first, cs[..|cs| - 1]);
    }
  }

  /** In order, the reported percentages lie between 0 and 100 and never fall. */
  lemma PercentagesRise(content: seq<Byte>, first: Chunk, cs: seq<Chunk>, i: nat, j: nat)
    requires InOrder(content, cs) && first.data == [] && first.total == |content|
    requires 0 < |content| <= (TWO_63 - 1) / 100 && i <= j < |Reports(first, cs)|
    ensures var rs := Reports(first, cs);
            0 <= Percent(rs[i], |content|) <= Percent(rs[j], |content|) <= 100
  {
    var rs := Reports(first, cs);
    ReportsRise(first, cs);
    InOrderIsPrefix(content, cs);
    PercentInRange(rs[i], |content|);
    PercentInRange(rs[j], |content|);
    DivMonotone(rs[i] * 100, rs[j] * 100, |content|);
  }
}
