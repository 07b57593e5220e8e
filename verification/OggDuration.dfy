/** The duration of an Opus stream: a scan over Ogg pages (RFC 3533, section 6) for the largest granule position, which
    counts samples at 48 kHz (RFC 7845, section 4). */
module OggDuration {
  import opened Options

  type Byte = b: int | 0 <= b < 256

  /** The capture pattern that opens a page: O, g, g, S. */
  const CAPTURE: seq<Byte> := [0x4f, 0x67, 0x67, 0x53]

  const TWO_TO_THE_63: int := 0x8000_0000_0000_0000
  const TWO_TO_THE_64: int := 0x1_0000_0000_0000_0000

  function Max(a: int, b: int): int {
    if a < b then b else a
  }

  function Sum(bytes: seq<Byte>): nat {
    if bytes == [] then 0 else bytes[0] + Sum(bytes[1..])
  }

  function Unsigned(bytes: seq<Byte>): nat {
    if bytes == [] then 0 else bytes[0] + 256 * Unsigned(bytes[1..])
  }

  /** The granule position: eight bytes, little endian, two's complement. */
  function Granule(bytes: seq<Byte>): int {
    var u := Unsigned(bytes);
    if u < TWO_TO_THE_63 then u else u - TWO_TO_THE_64
  }

  // ---- The scan ----

  predicate Synced(data: seq<Byte>, pos: nat) {
    pos + 4 <= |data|
    && data[pos] == 0x4f && data[pos + 1] == 0x67 && data[pos + 2] == 0x67 && data[pos + 3] == 0x53
  }

  /** The largest granule seen from a position on, starting from the largest so far. */
  function Scan(data: seq<Byte>, pos: nat, best: int): int
    decreases if pos < |data| then |data| - pos else 0
  {
    if pos + 27 > |data| then best
    else if !Synced(data, pos) then Scan(data, pos + 1, best)
    else
      var table := pos + 27 + data[pos + 26];
      if table > |data| then Max(best, GranuleAt(data, pos))
      else Scan(data, table + Sum(data[pos + 27..table]), Max(best, GranuleAt(data, pos)))
  }

  function GranuleAt(data: seq<Byte>, pos: nat): int
    requires pos + 27 <= |data|
  {
    Granule(data[pos + 6..pos + 14])
  }

  /** A byte source with a cursor, which may stand behind the end. */
  class Reader {
    const data: seq<Byte>
    var pos: nat

    constructor (data: seq<Byte>)
      ensures this.data == data && pos == 0
    {
      this.data := data;
      pos := 0;
    }

    /** Reads what there is, up to `n` bytes. */
    method Read(n: nat) returns (bytes: seq<Byte>)
      modifies this
      ensures pos == old(pos) + |bytes|
      ensures if old(pos) >= |data| then bytes == []
              else if old(pos) + n <= |data| then bytes == data[old(pos)..old(pos) + n] else bytes == data[old(pos)..]
    {
      if pos >= |data| {
        return [];
      }
      bytes := if pos + n <= |data| then data[pos..pos + n] else data[pos..];
      pos := pos + |bytes|;
    }

    /** Reads `n` bytes or fails. */
    method ReadFull(n: nat) returns (bytes: Option<seq<Byte>>)
      modifies this
      ensures pos >= old(pos)
      ensures bytes.Some? <==> n == 0 || old(pos) + n <= |data|
      ensures bytes.Some? ==> pos == old(pos) + n && |bytes.value| == n
      ensures bytes.Some? && n > 0 ==> bytes.value == data[old(pos)..old(pos) + n]
    {
      if n == 0 {
        return Some([]);
      }
      var got := Read(n);
      bytes := if |got| == n then Some(got) else None;
    }

    method Seek(to: nat)
      modifies this
      ensures pos == to
    {
      pos := to;
    }
  }

  /** The rest of a page whose header has been read: its granule, and a jump over its segments. */
  method TakePage(r: Reader, head: seq<Byte>, total: int) returns (best: int, more: bool)
    requires |head| == 27 && 27 <= r.pos <= |r.data| && head == r.data[r.pos - 27..r.pos] && head[0..4] == CAPTURE
    modifies r
    ensures r.pos >= old(r.pos)
    ensures Scan(r.data, old(r.pos) - 27, total) == if more then Scan(r.data, r.pos, best) else best
  {
    HeadRead(r.data, r.pos - 27, head);
    var granule := Granule(head[6..14]);
    best := if granule > total then granule else total;
    var segments := r.ReadFull(head[26]);
    if segments.None? {
      return best, false;
    }
    assert segments.value == r.data[old(r.pos)..old(r.pos) + head[26]];
    var size := SumLoop(segments.value);
    r.Seek(r.pos + size);
    more := true;
  }

  method GetOpusDuration(r: Reader) returns (seconds: real)
    modifies r
    ensures seconds == Scan(r.data, 0, 0) as real / 48000.0
  {
    r.Seek(0);
    var total := 0;
    while true
      invariant Scan(r.data, r.pos, total) == Scan(r.data, 0, 0)
      decreases if r.pos < |r.data| then |r.data| - r.pos else 0
    {
      var start := r.pos;
      var head := r.Read(27);
      if |head| < 27 {
        break;
      }
      HeadRead(r.data, start, head);
      if head[0..4] != CAPTURE {
        r.Seek(r.pos - 26);
        continue;
      }
      var more;
      total, more := TakePage(r, head, total);
      if !more {
        break;
      }
    }
    seconds := total as real / 48000.0;
  }

  lemma HeadRead(data: seq<Byte>, pos: nat, head: seq<Byte>)
    requires pos + 27 <= |data| && head == data[pos..pos + 27]
    ensures head[0..4] == CAPTURE <==> Synced(data, pos)
    ensures Granule(head[6..14]) == GranuleAt(data, pos)
    ensures head[26] == data[pos + 26]
  {
    assert forall k :: 0 <= k < 27 ==> head[k] == data[pos + k];
    assert head[6..14] == data[pos + 6..pos + 14];
    assert head[0..4] == [data[pos], data[pos + 1], data[pos + 2], data[pos + 3]];
  }

  method SumLoop(bytes: seq<Byte>) returns (sum: nat)
    ensures sum == Sum(bytes)
  {
    sum := 0;
    for k := 0 to |bytes|
      invariant Sum(bytes) == sum + Sum(bytes[k..])
    {
      sum := sum + bytes[k];
      assert bytes[k..][1..] == bytes[k + 1..];
    }
  }

  // ---- Printing pages ----

  function LittleEndian(v: nat, n: nat): seq<Byte> {
    if n == 0 then [] else [v % 256] + LittleEndian(v / 256, n - 1)
  }

  function Pow256(n: nat): nat {
    if n == 0 then 1 else 256 * Pow256(n - 1)
  }

  lemma {:induction false} LittleEndianReadsBack(v: nat, n: nat)
    requires v < Pow256(n)
    ensures |LittleEndian(v, n)| == n && Unsigned(LittleEndian(v, n)) == v
  {
    if n > 0 {
      LittleEndianReadsBack(v / 256, n - 1);
      assert LittleEndian(v, n)[1..] == LittleEndian(v / 256, n - 1);
    }
  }

  type Int64 = g: int | -TWO_TO_THE_63 <= g < TWO_TO_THE_63

  function PrintGranule(granule: Int64): seq<Byte> {
    LittleEndian(if granule < 0 then granule + TWO_TO_THE_64 else granule, 8)
  }

  lemma GranuleReadsBack(granule: Int64)
    ensures |PrintGranule(granule)| == 8 && Granule(PrintGranule(granule)) == granule
  {
    assert Pow256(8) == TWO_TO_THE_64 by {
      assert Pow256(2) == 65536;
      assert Pow256(4) == 0x1_0000_0000;
      assert Pow256(6) == 0x1_0000_0000_0000;
    }
    LittleEndianReadsBack(if granule < 0 then granule + TWO_TO_THE_64 else granule, 8);
  }

  type SegmentTable = t: seq<Byte> | |t| < 256

  /** Version and type; granule; serial number, sequence number and checksum; the segment sizes; the segments. */
  datatype Page = Page(kind: seq<Byte>, granule: Int64, serial: seq<Byte>, segments: SegmentTable, body: seq<Byte>)

  predicate IsPage(p: Page) {
    |p.kind| == 2 && |p.serial| == 12 && |p.body| == Sum(p.segments)
  }

  function Head(p: Page): seq<Byte> {
    CAPTURE + p.kind + PrintGranule(p.granule) + p.serial + [|p.segments|]
  }

  function Print(p: Page): seq<Byte> {
    Head(p) + p.segments + p.body
  }

  lemma HeadFields(p: Page)
    requires IsPage(p)
    ensures |Head(p)| == 27 && Head(p)[26] == |p.segments|
    ensures Head(p)[0] == 'O' as int && Head(p)[1] == Head(p)[2] == 'g' as int && Head(p)[3] == 'S' as int
    ensures Synced(Head(p), 0) && GranuleAt(Head(p), 0) == p.granule
  {
    GranuleReadsBack(p.granule);
    assert Head(p)[6..14] == PrintGranule(p.granule);
  }

  /** Bytes in which the capture pattern does not occur. */
  predicate CaptureFree(junk: seq<Byte>) {
    forall q: nat :: q < |junk| ==> !Synced(junk, q)
  }

  /** A page after some bytes that belong to no page. */
  datatype Piece = Piece(junk: seq<Byte>, page: Page)

  predicate IsStream(pieces: seq<Piece>) {
    forall k :: 0 <= k < |pieces| ==> CaptureFree(pieces[k].junk) && IsPage(pieces[k].page)
  }

  function PrintAll(pieces: seq<Piece>): seq<Byte> {
    if pieces == [] then [] else pieces[0].junk + (Print(pieces[0].page) + PrintAll(pieces[1..]))
  }

  function Largest(pieces: seq<Piece>, best: int): int {
    if pieces == [] then best else Largest(pieces[1..], Max(best, pieces[0].page.granule))
  }

  lemma {:induction false} LargestIsMaximum(pieces: seq<Piece>, best: int)
    ensures Largest(pieces, best) >= best
    ensures forall k :: 0 <= k < |pieces| ==> Largest(pieces, best) >= pieces[k].page.granule
    ensures Largest(pieces, best) == best
      || exists k :: 0 <= k < |pieces| && Largest(pieces, best) == pieces[k].page.granule
  {
    if pieces != [] {
      var best' := Max(best, pieces[0].page.granule);
      LargestIsMaximum(pieces[1..], best');
      forall k | 0 <= k < |pieces| ensures Largest(pieces, best) >= pieces[k].page.granule {
        if k > 0 {
          assert pieces[1..][k - 1] == pieces[k];
        }
      }
      if Largest(pieces, best) != best' {
        var k :| 0 <= k < |pieces| - 1 && Largest(pieces, best) == pieces[1..][k].page.granule;
        assert pieces[k + 1] == pieces[1..][k];
      }
    }
  }

  // ---- The scan inverts the printer ----

  /** `part` stands in `data` at `pos`. */
  predicate At(data: seq<Byte>, pos: nat, part: seq<Byte>) {
    pos + |part| <= |data| && data[pos..pos + |part|] == part
  }

  lemma AtSplits(data: seq<Byte>, pos: nat, a: seq<Byte>, b: seq<Byte>)
    requires At(data, pos, a + b)
    ensures At(data, pos, a) && At(data, pos + |a|, b)
  {
    var ab := data[pos..pos + |a| + |b|];
    assert data[pos..pos + |a|] == ab[..|a|] == a;
    assert data[pos + |a|..pos + |a| + |b|] == ab[|a|..] == b;
  }

  lemma AtByte(data: seq<Byte>, pos: nat, part: seq<Byte>, k: nat)
    requires At(data, pos, part) && k < |part|
    ensures data[pos + k] == part[k]
  {
    assert data[pos..pos + |part|][k] == part[k];
  }

  /**
   No byte of the capture pattern but the first is an O, so a pattern cannot begin in the junk and
   end in the page.
  */
  lemma JunkIsNotSynced(data: seq<Byte>, pos: nat, junk: seq<Byte>, q: nat)
    requires At(data, pos, junk) && CaptureFree(junk) && q < |junk|
    requires |data| == pos + |junk| || data[pos + |junk|] == CAPTURE[0]
    ensures !Synced(data, pos + q)
  {
    if q + 4 <= |junk| {
      assert !Synced(junk, q);
      AtByte(data, pos, junk, q);
      AtByte(data, pos, junk, q + 1);
      AtByte(data, pos, junk, q + 2);
      AtByte(data, pos, junk, q + 3);
    }
  }

  lemma {:induction false} ScanSkipsJunk(data: seq<Byte>, pos: nat, n: nat, best: int)
    requires pos + n + 27 <= |data|
    requires forall q :: pos <= q < pos + n ==> !Synced(data, q)
    ensures Scan(data, pos, best) == Scan(data, pos + n, best)
    decreases n
  {
    if n > 0 {
      ScanSkipsJunk(data, pos + 1, n - 1, best);
    }
  }

  lemma {:induction false} ScanEndsInJunk(data: seq<Byte>, pos: nat, best: int)
    requires forall q :: pos <= q < |data| ==> !Synced(data, q)
    ensures Scan(data, pos, best) == best
    decreases if pos < |data| then |data| - pos else 0
  {
    if pos + 27 <= |data| {
      ScanEndsInJunk(data, pos + 1, best);
    }
  }

  lemma HeadStands(data: seq<Byte>, pos: nat, p: Page)
    requires IsPage(p) && At(data, pos, Head(p))
    ensures pos + 27 <= |data| && Synced(data, pos) && data[pos] == CAPTURE[0]
    ensures data[pos + 26] == |p.segments| && GranuleAt(data, pos) == p.granule
  {
    HeadFields(p);
    var head := data[pos..pos + 27];
    assert head == Head(p);
    HeadRead(data, pos, head);
    HeadRead(head, 0, head[0..27]);
    assert head[0..27] == head;
  }

  lemma ScanTakesPage(data: seq<Byte>, pos: nat, p: Page, best: int)
    requires IsPage(p) && At(data, pos, Print(p))
    ensures |Print(p)| >= 27 && data[pos] == CAPTURE[0]
    ensures Scan(data, pos, best) == Scan(data, pos + |Print(p)|, Max(best, p.granule))
  {
    HeadFields(p);
    AtSplits(data, pos, Head(p) + p.segments, p.body);
    AtSplits(data, pos, Head(p), p.segments);
    HeadStands(data, pos, p);
    assert data[pos + 27..pos + 27 + |p.segments|] == p.segments;
  }

  lemma ScanReachesPage(data: seq<Byte>, pos: nat, junk: seq<Byte>, best: int)
    requires CaptureFree(junk) && At(data, pos, junk)
    requires pos + |junk| + 27 <= |data| && data[pos + |junk|] == CAPTURE[0]
    ensures Scan(data, pos, best) == Scan(data, pos + |junk|, best)
  {
    forall q | pos <= q < pos + |junk| ensures !Synced(data, q) {
      JunkIsNotSynced(data, pos, junk, q - pos);
    }
    ScanSkipsJunk(data, pos, |junk|, best);
  }

  lemma ScanTakesPiece(data: seq<Byte>, pos: nat, piece: Piece, printed: seq<Byte>, best: int)
    requires CaptureFree(piece.junk) && IsPage(piece.page) && printed == Print(piece.page)
    requires At(data, pos, piece.junk) && At(data, pos + |piece.junk|, printed)
    ensures Scan(data, pos, best) == Scan(data, pos + |piece.junk| + |printed|, Max(best, piece.page.granule))
  {
    ScanTakesPage(data, pos + |piece.junk|, piece.page, best);
    ScanReachesPage(data, pos, piece.junk, best);
  }

  lemma {:induction false} ScanTakesPieces(data: seq<Byte>, pos: nat, pieces: seq<Piece>, best: int)
    requires IsStream(pieces) && At(data, pos, PrintAll(pieces))
    ensures Scan(data, pos, best) == Scan(data, pos + |PrintAll(pieces)|, Largest(pieces, best))
    decreases |pieces|
  {
    if pieces != [] {
      var piece, rest := pieces[0], pieces[1..];
      var next, best' := pos + |piece.junk| + |Print(piece.page)|, Max(best, piece.page.granule);
      assert Scan(data, pos, best) == Scan(data, next, best') && At(data, next, PrintAll(rest)) by {
        ScanTakesFirst(data, pos, piece, PrintAll(rest), best);
      }
      assert pos + |PrintAll(pieces)| == next + |PrintAll(rest)|;
      ScanTakesPieces(data, next, rest, best');
    }
  }

  lemma ScanTakesFirst(data: seq<Byte>, pos: nat, piece: Piece, more: seq<Byte>, best: int)
    requires CaptureFree(piece.junk) && IsPage(piece.page) && At(data, pos, piece.junk + (Print(piece.page) + more))
    ensures var next := pos + |piece.junk| + |Print(piece.page)|;
      At(data, next, more) && Scan(data, pos, best) == Scan(data, next, Max(best, piece.page.granule))
  {
    AtSplits(data, pos, piece.junk, Print(piece.page) + more);
    AtSplits(data, pos + |piece.junk|, Print(piece.page), more);
    ScanTakesPiece(data, pos, piece, Print(piece.page), best);
  }

  /** Main result: the duration of a stream is its largest non-negative granule position, whatever stands between the
      pages, inside them or behind them, as long as no capture pattern stands between pages. */
  lemma DurationOfStream(pieces: seq<Piece>, tail: seq<Byte>)
    requires IsStream(pieces) && CaptureFree(tail)
    ensures Scan(PrintAll(pieces) + tail, 0, 0) == Largest(pieces, 0)
  {
    var data, end := PrintAll(pieces) + tail, |PrintAll(pieces)|;
    ScanTakesStart(pieces, tail);
    forall q | end <= q < |data| ensures !Synced(data, q) {
      JunkIsNotSynced(data, end, tail, q - end);
    }
    ScanEndsInJunk(data, end, Largest(pieces, 0));
  }

  lemma ScanTakesStart(pieces: seq<Piece>, tail: seq<Byte>)
    requires IsStream(pieces)
    ensures var data, end := PrintAll(pieces) + tail, |PrintAll(pieces)|;
      At(data, end, tail) && Scan(data, 0, 0) == Scan(data, end, Largest(pieces, 0))
  {
    var data := PrintAll(pieces) + tail;
    assert data[0..|data|] == data;
    AtSplits(data, 0, PrintAll(pieces), tail);
    ScanTakesPieces(data, 0, pieces, 0);
  }

  /** A stream that stops inside a page counts that page exactly when its 27 header bytes are there. */
  lemma DurationOfTruncatedStream(pieces: seq<Piece>, last: Page, cut: nat)
    requires IsStream(pieces) && IsPage(last) && cut <= |Print(last)|
    ensures Scan(PrintAll(pieces) + Print(last)[..cut], 0, 0)
      == Largest(pieces, if cut >= 27 then Max(0, last.granule) else 0)
  {
    var part := Print(last)[..cut];
    var data, end := PrintAll(pieces) + part, |PrintAll(pieces)|;
    ScanTakesStart(pieces, part);
    HeadFields(last);
    if cut >= 27 {
      ScanTakesCutPage(data, end, last, cut, Largest(pieces, 0));
      LargestCommutes(pieces, 0, last.granule);
    }
  }

  lemma ScanTakesCutPage(data: seq<Byte>, pos: nat, p: Page, cut: nat, best: int)
    requires IsPage(p) && 27 <= cut <= |Print(p)| && |data| == pos + cut && At(data, pos, Print(p)[..cut])
    ensures Scan(data, pos, best) == Max(best, p.granule)
  {
    HeadFields(p);
    var part, table := Print(p)[..cut], 27 + |p.segments|;
    assert part == Head(p) + part[27..];
    AtSplits(data, pos, Head(p), part[27..]);
    HeadStands(data, pos, p);
    if cut >= table {
      SegmentsStand(data, pos, p, cut);
    }
  }

  lemma SegmentsStand(data: seq<Byte>, pos: nat, p: Page, cut: nat)
    requires IsPage(p) && |Head(p)| == 27
    requires 27 + |p.segments| <= cut <= |Print(p)| && At(data, pos, Print(p)[..cut])
    ensures pos + 27 + |p.segments| <= |data| && data[pos + 27..pos + 27 + |p.segments|] == p.segments
  {
    var part, table := Print(p)[..cut], 27 + |p.segments|;
    assert part == Head(p) + (p.segments + part[table..]);
    AtSplits(data, pos, Head(p), p.segments + part[table..]);
    AtSplits(data, pos + 27, p.segments, part[table..]);
  }

  lemma {:induction false} LargestCommutes(pieces: seq<Piece>, best: int, granule: int)
    ensures Max(Largest(pieces, best), granule) == Largest(pieces, Max(best, granule))
  {
    if pieces != [] {
      LargestCommutes(pieces[1..], Max(best, pieces[0].page.granule), granule);
      assert Max(Max(best, pieces[0].page.granule), granule) == Max(Max(best, granule), pieces[0].page.granule);
    }
  }
}
