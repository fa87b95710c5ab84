/** What the Ogg scan finds in a stream of well-formed pages, with other bytes in between. */
module OggPages {
  import opened Basics
  import opened OggScan

  /** `flags` are the version and type bytes; `ids` the serial number, sequence number and checksum. */
  datatype Page = Page(flags: seq<Byte>, granule: int, ids: seq<Byte>, table: seq<Byte>, body: seq<Byte>)

  predicate WellFormed(p: Page) {
    && |p.flags| == 2 && |p.ids| == 12 && |p.table| < 256
    && -TWO_63 <= p.granule < TWO_63
    && |p.body| == Sum(p.table)
  }

  function ToLittleEndian(n: nat, width: nat): (bytes: seq<Byte>)
    ensures |bytes| == width
  {
    if width == 0 then [] else [n % 256] + ToLittleEndian(n / 256, width - 1)
  }

  function Unsigned(granule: int): nat
    requires -TWO_63 <= granule < TWO_63
  {
    if granule < 0 then granule + TWO_64 else granule
  }

  function Head(p: Page): seq<Byte>
    requires WellFormed(p)
  {
    MAGIC + p.flags + ToLittleEndian(Unsigned(p.granule), 8) + p.ids + [|p.table|]
  }

  function Encode(p: Page): seq<Byte>
    requires WellFormed(p)
  {
    Head(p) + p.table + p.body
  }

  // ---------------------------------------------------------------- granule positions

  function Power(width: nat): nat {
    if width == 0 then 1 else 256 * Power(width - 1)
  }

  lemma {:induction false} LittleEndianRoundTrip(n: nat, width: nat)
    requires n < Power(width)
    ensures LittleEndian(ToLittleEndian(n, width)) == n
  {
    if width > 0 {
      LittleEndianRoundTrip(n / 256, width - 1);
      assert ToLittleEndian(n, width)[1..] == ToLittleEndian(n / 256, width - 1);
    }
  }

  lemma PowerPlusFour(width: nat)
    ensures Power(width + 4) == 0x1_0000_0000 * Power(width)
  {
    assert Power(width + 2) == 0x1_0000 * Power(width);
    assert Power(width + 4) == 0x1_0000 * Power(width + 2);
  }

  lemma PowerOfEight(width: nat)
    requires width == 8
    ensures Power(width) == TWO_64
  {
    PowerPlusFour(width - 8);
    PowerPlusFour(width - 4);
  }

  lemma GranuleRoundTrip(granule: int, width: nat)
    requires -TWO_63 <= granule < TWO_63 && width == 8
    ensures Signed(LittleEndian(ToLittleEndian(Unsigned(granule), width))) == granule
  {
    PowerOfEight(width);
    LittleEndianRoundTrip(Unsigned(granule), width);
  }

  // ---------------------------------------------------------------- one page

  /** `part` stands in `data` at `pos`. */
  predicate Stands(data: seq<Byte>, pos: nat, part: seq<Byte>) {
    pos + |part| <= |data| && forall i | 0 <= i < |part| :: data[pos + i] == part[i]
  }

  lemma StandsFirst(data: seq<Byte>, pos: nat, part: seq<Byte>, after: seq<Byte>)
    requires Stands(data, pos, part + after)
    ensures Stands(data, pos, part)
  {
    assert forall i | 0 <= i < |part| :: (part + after)[i] == part[i];
  }

  lemma StandsNext(data: seq<Byte>, pos: nat, before: seq<Byte>, part: seq<Byte>)
    requires Stands(data, pos, before + part)
    ensures Stands(data, pos + |before|, part)
  {
    forall i | 0 <= i < |part| ensures data[pos + |before| + i] == part[i] {
      assert (before + part)[|before| + i] == part[i];
    }
  }

  lemma StandsSlice(data: seq<Byte>, pos: nat, part: seq<Byte>)
    requires Stands(data, pos, part)
    ensures data[pos..pos + |part|] == part
  {
  }

  lemma HeadStands(data: seq<Byte>, pos: nat, p: Page)
    requires WellFormed(p) && Stands(data, pos, Head(p))
    ensures pos + HEADER <= |data| && MagicAt(data, pos)
    ensures GranuleAt(data, pos) == p.granule && data[pos + 26] == |p.table|
  {
    var head, word := Head(p), ToLittleEndian(Unsigned(p.granule), 8);
    assert head[0] == MAGIC[0] && head[1] == MAGIC[1] && head[2] == MAGIC[2] && head[3] == MAGIC[3];
    assert head[26] == |p.table|;
    forall i | 0 <= i < 8 ensures data[pos + 6 + i] == word[i] {
      assert head[6 + i] == word[i];
    }
    StandsSlice(data, pos + 6, word);
    GranuleRoundTrip(p.granule, 8);
  }

  /** A page is visited once, and the scan goes on behind it. */
  lemma VisitsPage(data: seq<Byte>, pos: nat, p: Page)
    requires WellFormed(p) && Stands(data, pos, Encode(p))
    ensures Visits(data, pos) == [pos] + Visits(data, pos + |Encode(p)|)
    ensures pos + HEADER <= |data| && GranuleAt(data, pos) == p.granule
  {
    StandsFirst(data, pos, Head(p) + p.table, p.body);
    StandsFirst(data, pos, Head(p), p.table);
    HeadStands(data, pos, p);
    StandsNext(data, pos, Head(p), p.table);
    StandsSlice(data, pos + HEADER, p.table);
    VisitsHeader(data, pos, p.table);
  }

  lemma VisitsHeader(data: seq<Byte>, pos: nat, table: seq<Byte>)
    requires pos + HEADER <= |data| && MagicAt(data, pos) && data[pos + 26] == |table|
    requires pos + HEADER + |table| <= |data| && data[pos + HEADER..pos + HEADER + |table|] == table
    ensures Visits(data, pos) == [pos] + Visits(data, pos + HEADER + |table| + Sum(table))
  {
  }

  // ---------------------------------------------------------------- bytes between pages

  /** No page header begins in these bytes. */
  predicate Quiet(gap: seq<Byte>) {
    forall k | 0 <= k <= |gap| - 4 :: !MagicAt(gap, k)
  }

  lemma QuietRest(gap: seq<Byte>)
    requires Quiet(gap) && gap != []
    ensures Quiet(gap[1..])
  {
    forall k | 0 <= k <= |gap[1..]| - 4 ensures !MagicAt(gap[1..], k) {
      assert !MagicAt(gap, k + 1);
    }
  }

  /** The scan walks over quiet bytes that a page or the end of the data follows. */
  lemma {:induction false} SkipsGap(data: seq<Byte>, pos: nat, gap: seq<Byte>)
    requires Stands(data, pos, gap) && Quiet(gap)
    requires pos + |gap| < |data| ==> data[pos + |gap|] == MAGIC[0]
    ensures Visits(data, pos) == Visits(data, pos + |gap|)
    decreases |gap|
  {
    if gap != [] && pos + HEADER <= |data| {
      NoMagicInGap(data, pos, gap);
      QuietRest(gap);
      assert gap == [gap[0]] + gap[1..];
      StandsNext(data, pos, [gap[0]], gap[1..]);
      SkipsGap(data, pos + 1, gap[1..]);
    }
  }

  lemma NoMagicInGap(data: seq<Byte>, pos: nat, gap: seq<Byte>)
    requires Stands(data, pos, gap) && Quiet(gap) && gap != [] && pos + 4 <= |data|
    requires pos + |gap| < |data| ==> data[pos + |gap|] == MAGIC[0]
    ensures !MagicAt(data, pos)
  {
    assert data[pos] == gap[0] && (|gap| > 1 ==> data[pos + 1] == gap[1]) && (|gap| > 2 ==> data[pos + 2] == gap[2]);
    if |gap| >= 4 {
      assert data[pos + 3] == gap[3] && !MagicAt(gap, 0);
    }
  }

  // ---------------------------------------------------------------- whole streams

  datatype Framed = Framed(gap: seq<Byte>, page: Page)

  predicate Proper(fs: seq<Framed>) {
    forall i | 0 <= i < |fs| :: Quiet(fs[i].gap) && WellFormed(fs[i].page)
  }

  /** Pages, each with bytes in front of it, and bytes at the end. */
  function Stream(fs: seq<Framed>, tail: seq<Byte>): seq<Byte>
    requires Proper(fs)
  {
    if fs == [] then tail else fs[0].gap + Encode(fs[0].page) + Stream(fs[1..], tail)
  }

  /** Where the pages begin when the stream begins at `pos`. */
  function Starts(fs: seq<Framed>, pos: nat): seq<nat>
    requires Proper(fs)
  {
    if fs == [] then []
    else var start := pos + |fs[0].gap|; [start] + Starts(fs[1..], start + |Encode(fs[0].page)|)
  }

  function LargestGranule(fs: seq<Framed>, best: int): int {
    if fs == [] then best else LargestGranule(fs[1..], Max(best, fs[0].page.granule))
  }

  lemma {:induction false} VisitsStarts(data: seq<Byte>, pos: nat, fs: seq<Framed>, tail: seq<Byte>)
    requires Proper(fs) && Quiet(tail) && Stands(data, pos, Stream(fs, tail)) && pos + |Stream(fs, tail)| == |data|
    ensures Visits(data, pos) == Starts(fs, pos)
    ensures Headers(data, Starts(fs, pos))
    ensures forall best :: Largest(data, Starts(fs, pos), best) == LargestGranule(fs, best)
    decreases |fs|
  {
    if fs == [] {
      SkipsGap(data, pos, tail);
    } else {
      var start := pos + |fs[0].gap|;
      var next := start + |Encode(fs[0].page)|;
      FirstFrame(data, pos, fs[0], Stream(fs[1..], tail));
      VisitsStarts(data, next, fs[1..], tail);
      StartsUnfold(data, fs, pos, start, next);
    }
  }

  /** The first frame of a stream: the gap is skipped, the page visited, the rest stands behind it. */
  lemma FirstFrame(data: seq<Byte>, pos: nat, f: Framed, rest: seq<Byte>)
    requires Quiet(f.gap) && WellFormed(f.page) && Stands(data, pos, f.gap + Encode(f.page) + rest)
    ensures var start := pos + |f.gap|; var next := start + |Encode(f.page)|;
      && Visits(data, pos) == [start] + Visits(data, next) && Stands(data, next, rest)
      && start + HEADER <= |data| && GranuleAt(data, start) == f.page.granule
  {
    var gap, page := f.gap, Encode(f.page);
    StandsNext(data, pos, gap + page, rest);
    StandsFirst(data, pos, gap + page, rest);
    StandsFirst(data, pos, gap, page);
    StandsNext(data, pos, gap, page);
    assert page[0] == MAGIC[0] && data[pos + |gap| + 0] == page[0];
    SkipsGap(data, pos, gap);
    VisitsPage(data, pos + |gap|, f.page);
  }

  lemma StartsUnfold(data: seq<Byte>, fs: seq<Framed>, pos: nat, start: nat, next: nat)
    requires Proper(fs) && fs != [] && start == pos + |fs[0].gap| && next == start + |Encode(fs[0].page)|
    requires start + HEADER <= |data| && GranuleAt(data, start) == fs[0].page.granule
    requires Headers(data, Starts(fs[1..], next))
    requires forall best :: Largest(data, Starts(fs[1..], next), best) == LargestGranule(fs[1..], best)
    ensures Headers(data, Starts(fs, pos))
    ensures forall best :: Largest(data, Starts(fs, pos), best) == LargestGranule(fs, best)
  {
    assert Starts(fs, pos) == [start] + Starts(fs[1..], next);
    assert Starts(fs, pos)[1..] == Starts(fs[1..], next);
  }

  /** On every stream of well-formed pages, with quiet bytes around them, the scan visits each page
      exactly once and yields the maximum of zero and the signed granule positions. */
  lemma ScanOfPages(fs: seq<Framed>, tail: seq<Byte>)
    requires Proper(fs) && Quiet(tail)
    ensures Visits(Stream(fs, tail), 0) == Starts(fs, 0)
    ensures Scan(Stream(fs, tail), 0, 0) == LargestGranule(fs, 0)
  {
    var data := Stream(fs, tail);
    VisitsStarts(data, 0, fs, tail);
    ScanIsLargest(data, 0, 0);
  }

  /** The maximum is zero or the granule position of a page, and no page exceeds it. */
  lemma {:induction false} LargestGranuleIsMaximum(fs: seq<Framed>, best: int)
    ensures best <= LargestGranule(fs, best)
    ensures forall i | 0 <= i < |fs| :: fs[i].page.granule <= LargestGranule(fs, best)
    ensures LargestGranule(fs, best) == best ||
      exists i :: 0 <= i < |fs| && fs[i].page.granule == LargestGranule(fs, best)
  {
    if fs != [] {
      var more := Max(best, fs[0].page.granule);
      LargestGranuleIsMaximum(fs[1..], more);
      assert forall i | 1 <= i < |fs| :: fs[i] == fs[1..][i - 1];
    }
  }
}
