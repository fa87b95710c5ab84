/** The scan over the pages of an Ogg container that finds the length of an Opus file. */
module OggScan {
  import opened Basics

  const HEADER := 27
  /** The bytes of "OggS". */
  const MAGIC: seq<Byte> := [0x4F, 0x67, 0x67, 0x53]
  const TWO_63 := 0x8000_0000_0000_0000
  const TWO_64 := 0x1_0000_0000_0000_0000
  const SAMPLE_RATE := 48000.0

  function Sum(table: seq<Byte>): nat {
    if table == [] then 0 else Sum(table[..|table| - 1]) + table[|table| - 1]
  }

  /** The sum of a table, one byte at a time or part by part. */
  lemma {:induction false} SumAdds(a: seq<Byte>, b: seq<Byte>, x: Byte)
    ensures Sum([]) == 0 && Sum([x]) == x && Sum(a + b) == Sum(a) + Sum(b)
  {
    assert [x][..0] == [];
    if b == [] {
      assert a + b == a;
    } else {
      assert (a + b)[..|a + b| - 1] == a + b[..|b| - 1];
      SumAdds(a, b[..|b| - 1], x);
    }
  }

  function LittleEndian(bytes: seq<Byte>): nat {
    if bytes == [] then 0 else bytes[0] + 256 * LittleEndian(bytes[1..])
  }

  /** An unsigned 64-bit word read as a signed one. */
  function Signed(word: int): int {
    if word >= TWO_63 then word - TWO_64 else word
  }

  function Max(a: int, b: int): int {
    if b > a then b else a
  }

  predicate MagicAt(data: seq<Byte>, pos: nat)
    requires pos + 4 <= |data|
  {
    data[pos] == MAGIC[0] && data[pos + 1] == MAGIC[1] && data[pos + 2] == MAGIC[2] && data[pos + 3] == MAGIC[3]
  }

  function GranuleAt(data: seq<Byte>, pos: nat): int
    requires pos + HEADER <= |data|
  {
    Signed(LittleEndian(data[pos + 6..pos + 14]))
  }

  /** Where the segment table of the page ends. */
  function TableEnd(data: seq<Byte>, pos: nat): nat
    requires pos + HEADER <= |data|
  {
    pos + HEADER + data[pos + 26]
  }

  /** The running maximum with which the scan that stands at `pos` with maximum `best` ends. */
  function Scan(data: seq<Byte>, pos: nat, best: int): int
    decreases |data| - pos
  {
    if pos + HEADER > |data| then best
    else if !MagicAt(data, pos) then Scan(data, pos + 1, best)
    else
      var more, end := Max(best, GranuleAt(data, pos)), TableEnd(data, pos);
      if end > |data| then more else Scan(data, end + Sum(data[pos + HEADER..end]), more)
  }

  /** The positions at which the scan that stands at `pos` reads a page header. */
  function Visits(data: seq<Byte>, pos: nat): seq<nat>
    decreases |data| - pos
  {
    if pos + HEADER > |data| then []
    else if !MagicAt(data, pos) then Visits(data, pos + 1)
    else if TableEnd(data, pos) > |data| then [pos]
    else [pos] + Visits(data, TableEnd(data, pos) + Sum(data[pos + HEADER..TableEnd(data, pos)]))
  }

  ghost predicate Headers(data: seq<Byte>, visits: seq<nat>) {
    forall i | 0 <= i < |visits| :: visits[i] + HEADER <= |data|
  }

  /** The largest of `best` and the granule positions of the visited pages. */
  ghost function Largest(data: seq<Byte>, visits: seq<nat>, best: int): int
    requires Headers(data, visits)
  {
    if visits == [] then best else Largest(data, visits[1..], Max(best, GranuleAt(data, visits[0])))
  }

  lemma {:induction false} VisitsAreHeaders(data: seq<Byte>, pos: nat)
    ensures Headers(data, Visits(data, pos))
    decreases |data| - pos
  {
    if pos + HEADER <= |data| {
      if !MagicAt(data, pos) {
        VisitsAreHeaders(data, pos + 1);
      } else if TableEnd(data, pos) <= |data| {
        VisitsAreHeaders(data, TableEnd(data, pos) + Sum(data[pos + HEADER..TableEnd(data, pos)]));
      }
    }
  }

  /** The scan finds the maximum over exactly the visited pages. */
  lemma {:induction false} ScanIsLargest(data: seq<Byte>, pos: nat, best: int)
    ensures Headers(data, Visits(data, pos)) && Scan(data, pos, best) == Largest(data, Visits(data, pos), best)
    decreases |data| - pos
  {
    VisitsAreHeaders(data, pos);
    if pos + HEADER <= |data| {
      if !MagicAt(data, pos) {
        ScanIsLargest(data, pos + 1, best);
      } else {
        var more, end := Max(best, GranuleAt(data, pos)), TableEnd(data, pos);
        if end <= |data| {
          var next := end + Sum(data[pos + HEADER..end]);
          ScanIsLargest(data, next, more);
          assert Visits(data, pos)[1..] == Visits(data, next);
        } else {
          assert Visits(data, pos)[1..] == [];
        }
      }
    }
  }

  // ---------------------------------------------------------------- readers that fall short

  /** A reader returns as many bytes as it has, or fewer than asked for, or an error. */
  datatype Answer = Full | Short(got: nat) | Failing

  /** What one turn of the loop meets. */
  datatype Turn = Turn(header: Answer, tableOk: bool, seekOk: bool)

  const SMOOTH := Turn(Full, true, true)

  /** An empty table needs no reading. */
  predicate TableRead(turn: Turn, size: int) {
    size == 0 || turn.tableOk
  }

  /** The scan with a reader that may fall short: an error while a header is read is reported, anything else
      that goes wrong ends the scan with the maximum so far. */
  function ScanWith(data: seq<Byte>, pos: nat, best: int, turns: nat -> Turn, k: nat): Option<int>
    decreases |data| - pos
  {
    if turns(k).header.Failing? then None
    else if turns(k).header.Short? || pos + HEADER > |data| then Some(best)
    else if !MagicAt(data, pos) then
      if turns(k).seekOk then ScanWith(data, pos + 1, best, turns, k + 1) else Some(best)
    else
      var more, end := Max(best, GranuleAt(data, pos)), TableEnd(data, pos);
      if end > |data| || !TableRead(turns(k), end - pos - HEADER) || !turns(k).seekOk then Some(more)
      else ScanWith(data, end + Sum(data[pos + HEADER..end]), more, turns, k + 1)
  }

  /** A reader that never falls short gives the full scan. */
  lemma {:induction false} SmoothScan(data: seq<Byte>, pos: nat, best: int, turns: nat -> Turn, k: nat)
    requires forall i: nat :: turns(i) == SMOOTH
    ensures ScanWith(data, pos, best, turns, k) == Some(Scan(data, pos, best))
    decreases |data| - pos
  {
    if pos + HEADER <= |data| {
      if !MagicAt(data, pos) {
        SmoothScan(data, pos + 1, best, turns, k + 1);
      } else if TableEnd(data, pos) <= |data| {
        var end := TableEnd(data, pos);
        SmoothScan(data, end + Sum(data[pos + HEADER..end]), Max(best, GranuleAt(data, pos)), turns, k + 1);
      }
    }
  }

  /** Whatever the reader does, a reported result is the maximum over the first pages of the full scan. */
  lemma {:induction false} ScanWithIsPrefix(data: seq<Byte>, pos: nat, best: int, turns: nat -> Turn, k: nat)
    returns (n: nat)
    requires ScanWith(data, pos, best, turns, k).Some?
    ensures n <= |Visits(data, pos)| && Headers(data, Visits(data, pos)[..n])
    ensures ScanWith(data, pos, best, turns, k) == Some(Largest(data, Visits(data, pos)[..n], best))
    decreases |data| - pos
  {
    VisitsAreHeaders(data, pos);
    var visits := Visits(data, pos);
    n := 0;
    if !turns(k).header.Short? && pos + HEADER <= |data| {
      if !MagicAt(data, pos) {
        if turns(k).seekOk {
          n := ScanWithIsPrefix(data, pos + 1, best, turns, k + 1);
        }
      } else {
        var more, end := Max(best, GranuleAt(data, pos)), TableEnd(data, pos);
        if end > |data| || !TableRead(turns(k), end - pos - HEADER) || !turns(k).seekOk {
          n := 1;
          assert visits[..1] == [pos] && visits[..1][1..] == [];
        } else {
          var next := end + Sum(data[pos + HEADER..end]);
          var m := ScanWithIsPrefix(data, next, more, turns, k + 1);
          n := m + 1;
          assert visits[..n][1..] == Visits(data, next)[..m];
        }
      }
    }
  }

  /** An error is reported only when reading a header fails, and always when the first one does. */
  lemma {:induction false} ErrorsAreHeaders(data: seq<Byte>, pos: nat, best: int, turns: nat -> Turn, k: nat)
    ensures turns(k).header.Failing? ==> ScanWith(data, pos, best, turns, k) == None
    ensures ScanWith(data, pos, best, turns, k) == None ==> exists j: nat :: j >= k && turns(j).header.Failing?
    decreases |data| - pos
  {
    if ScanWith(data, pos, best, turns, k) == None && !turns(k).header.Failing? {
      if !MagicAt(data, pos) {
        ErrorsAreHeaders(data, pos + 1, best, turns, k + 1);
      } else {
        var more, end := Max(best, GranuleAt(data, pos)), TableEnd(data, pos);
        ErrorsAreHeaders(data, end + Sum(data[pos + HEADER..end]), more, turns, k + 1);
      }
    }
  }

  lemma {:induction false} LargestGrows(data: seq<Byte>, visits: seq<nat>, best: int, n: nat)
    requires Headers(data, visits) && n <= |visits|
    ensures Headers(data, visits[..n]) && best <= Largest(data, visits[..n], best) <= Largest(data, visits, best)
    decreases visits
  {
    if visits != [] {
      var more := Max(best, GranuleAt(data, visits[0]));
      if n == 0 {
        LargestGrows(data, visits[1..], more, 0);
      } else {
        assert visits[..n][1..] == visits[1..][..n - 1];
        LargestGrows(data, visits[1..], more, n - 1);
      }
    }
  }

  /** So an interrupted scan never reports more than the file has. */
  lemma NeverTooLong(data: seq<Byte>, turns: nat -> Turn)
    ensures var r := ScanWith(data, 0, 0, turns, 0); r.Some? ==> 0 <= r.value <= Scan(data, 0, 0)
  {
    if ScanWith(data, 0, 0, turns, 0).Some? {
      var n := ScanWithIsPrefix(data, 0, 0, turns, 0);
      ScanIsLargest(data, 0, 0);
      LargestGrows(data, Visits(data, 0), 0, n);
    }
  }

  // ---------------------------------------------------------------- the scan

  /** A seekable reader. */
  class Reader {
    const data: seq<Byte>
    var pos: nat

    constructor (data: seq<Byte>)
      ensures this.data == data && pos == 0
    {
      this.data := data;
      pos := 0;
    }

    /** At most `n` bytes; nothing past the end. */
    method Read(n: nat, answer: Answer) returns (chunk: seq<Byte>, ok: bool)
      modifies this`pos
      ensures ok <==> !answer.Failing?
      ensures answer.Full? && old(pos) + n <= |data| ==> chunk == data[old(pos)..old(pos) + n]
      ensures n > 0 && (!answer.Full? || old(pos) + n > |data|) ==> |chunk| < n
      ensures |chunk| <= n && pos == old(pos) + |chunk|
    {
      chunk, ok := [], !answer.Failing?;
      var most := match answer case Full => n case Short(got) => if got < n then got else n - 1 case Failing => 0;
      if pos < |data| && most > 0 {
        var end := if pos + most <= |data| then pos + most else |data|;
        chunk := data[pos..end];
        pos := end;
      }
    }

    /** Exactly `n` bytes, by reading on until they are there. */
    method ReadFull(n: nat, readOk: bool) returns (chunk: seq<Byte>, ok: bool)
      modifies this`pos
      ensures ok <==> n == 0 || (readOk && old(pos) + n <= |data|)
      ensures ok && n > 0 ==> chunk == data[old(pos)..old(pos) + n]
      ensures ok && n == 0 ==> chunk == []
      ensures ok ==> pos == old(pos) + n
    {
      if n == 0 {
        return [], true;
      }
      chunk, ok := Read(n, if readOk then Full else Failing);
      ok := ok && |chunk| == n;
    }

    /** Moves by an offset; a position before the start is an error and changes nothing. */
    method SeekCurrent(offset: int, seekOk: bool) returns (ok: bool)
      modifies this`pos
      ensures ok <==> seekOk && old(pos) + offset >= 0
      ensures pos == if ok then old(pos) + offset else old(pos)
    {
      ok := seekOk && pos + offset >= 0;
      if ok {
        pos := pos + offset;
      }
    }
  }

  method SumOf(table: seq<Byte>) returns (size: nat)
    ensures size == Sum(table)
  {
    size := 0;
    for i := 0 to |table|
      invariant size == Sum(table[..i])
    {
      assert table[..i + 1][..i] == table[..i];
      size := size + table[i];
    }
    assert table[..|table|] == table;
  }

  /** Reads the segment table and moves past the page. */
  method SkipPage(r: Reader, segments: nat, turn: Turn) returns (open: bool)
    requires r.pos <= |r.data|
    modifies r`pos
    ensures open <==> old(r.pos) + segments <= |r.data| && TableRead(turn, segments) && turn.seekOk
    ensures open ==> r.pos == old(r.pos) + segments + Sum(r.data[old(r.pos)..old(r.pos) + segments])
  {
    ghost var at := r.pos;
    var table, filled := r.ReadFull(segments, turn.tableOk);
    if !filled {
      return false;
    }
    assert table == r.data[at..at + segments];
    var size := SumOf(table);
    open := r.SeekCurrent(size, turn.seekOk);
  }

  /** What the loop reads from a header is what stands in the file. */
  lemma HeaderRead(data: seq<Byte>, at: nat, buf: seq<Byte>)
    requires at + HEADER <= |data| && buf == data[at..at + HEADER]
    ensures buf[..4] == MAGIC <==> MagicAt(data, at)
    ensures buf[6..14] == data[at + 6..at + 14] && TableEnd(data, at) == at + HEADER + buf[26]
  {
    assert |MAGIC| == 4 && forall i | 0 <= i < HEADER :: buf[i] == data[at + i];
  }

  /** The loop; no result when a header cannot be read. */
  method TotalGranules(r: Reader, turns: nat -> Turn) returns (result: Option<int>)
    requires r.pos == 0
    modifies r`pos
    ensures result == ScanWith(r.data, 0, 0, turns, 0)
  {
    var total, k, open := 0, 0, true;
    ghost var data := r.data;
    while open
      invariant ScanWith(data, 0, 0, turns, 0) == if open then ScanWith(data, r.pos, total, turns, k) else Some(total)
      decreases open, |data| - r.pos
    {
      ghost var at := r.pos;
      var buf, ok := r.Read(HEADER, turns(k).header);
      if !ok {
        return None;
      }
      if |buf| < HEADER {
        open := false;
      } else if buf[..4] != MAGIC {
        HeaderRead(data, at, buf);
        open := r.SeekCurrent(-26, turns(k).seekOk);
      } else {
        HeaderRead(data, at, buf);
        var granulePos := Signed(LittleEndian(buf[6..14]));
        if granulePos > total {
          total := granulePos;
        }
        open := SkipPage(r, buf[26], turns(k));
      }
      k := k + 1;
    }
    result := Some(total);
  }

  /** The duration in seconds, if the file can be rewound and its headers can be read. */
  method GetOpusDuration(r: Reader, rewindOk: bool, turns: nat -> Turn) returns (seconds: Option<real>)
    modifies r`pos
    ensures var total := ScanWith(r.data, 0, 0, turns, 0);
      seconds == if rewindOk && total.Some? then Some(total.value as real / 48000.0) else None
  {
    if !rewindOk {
      return None;
    }
    r.pos := 0;
    var total := TotalGranules(r, turns);
    seconds := if total.Some? then Some(total.value as real / SAMPLE_RATE) else None;
  }
}
