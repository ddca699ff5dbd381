/** thumbs/mobi/mobi.go: big-endian numbers, sections and EXTH records of a MOBI file.  Where the Go code panics the
    result is None. */
module Mobi {
  import opened InfoSet

  type Byte = b: int | 0 <= b < 256

  const NUMBER_OF_PDB_RECORDS := 76
  const FIRST_PDB_RECORD := 78
  const MOBI_HEADER_BASE := 16
  const MOBI_HEADER_LENGTH := 20

  /** A Go slice: `data` reaches to its capacity, of which the first `len` bytes are in the slice. */
  datatype Slice = Slice(data: seq<Byte>, len: nat)

  predicate Valid(s: Slice) { s.len <= |s.data| }

  /** s[lo:hi], which may reach beyond the length up to the capacity. */
  function Sub(s: Slice, lo: int, hi: int): (r: Option<Slice>)
    ensures r.Some? ==> Valid(r.value)
  {
    if 0 <= lo <= hi <= |s.data| then Some(Slice(s.data[lo..], hi - lo)) else None
  }

  function Bytes(s: Slice): seq<Byte>
    requires Valid(s)
  {
    s.data[..s.len]
  }

  function GetInt16(s: Slice, ofs: int): Option<int>
    requires Valid(s)
  {
    if 0 <= ofs && ofs + 2 <= s.len then Some(s.data[ofs] as int * 256 + s.data[ofs + 1] as int) else None
  }

  function Signed(n: int): int { if n < 0x8000_0000 then n else n - 0x1_0000_0000 }

  function GetInt32(s: Slice, ofs: int): Option<int>
    requires Valid(s)
  {
    if 0 <= ofs && ofs + 4 <= s.len then Some(Signed(Unsigned(s.data[ofs..ofs + 4]))) else None
  }

  function Unsigned(b: seq<Byte>): (n: int)
    requires |b| == 4
    ensures 0 <= n < 0x1_0000_0000
  {
    var b0: int, b1: int, b2: int, b3: int := b[0], b[1], b[2], b[3];
    b0 * 0x100_0000 + b1 * 0x1_0000 + b2 * 0x100 + b3
  }

  // ---------------------------------------------------------------------------------- big-endian numbers

  predicate Fits32(n: int) { -0x8000_0000 <= n < 0x8000_0000 }

  function Be32(n: int): (bs: seq<Byte>)
    requires Fits32(n)
    ensures |bs| == 4
  {
    var u := if n < 0 then n + 0x1_0000_0000 else n;
    [u / 0x100_0000, u / 0x1_0000 % 0x100, u / 0x100 % 0x100, u % 0x100]
  }

  lemma Be32Read(n: int)
    requires Fits32(n)
    ensures Signed(Unsigned(Be32(n))) == n
  {
    var u := if n < 0 then n + 0x1_0000_0000 else n;
    assert u / 0x1_0000 == u / 0x100 / 0x100 && u / 0x100_0000 == u / 0x100 / 0x100 / 0x100;
  }

  /** `bs` stands in the slice at `at`. */
  predicate Holds(s: Slice, at: int, bs: seq<Byte>) {
    0 <= at && at + |bs| <= s.len <= |s.data| && s.data[at..at + |bs|] == bs
  }

  lemma HoldsParts(s: Slice, at: int, a: seq<Byte>, b: seq<Byte>)
    requires Holds(s, at, a + b)
    ensures Holds(s, at, a) && Holds(s, at + |a|, b)
  {
    var all := s.data[at..at + |a + b|];
    assert all[..|a|] == a && all[|a|..] == b;
    assert s.data[at..at + |a|] == all[..|a|] && s.data[at + |a|..at + |a| + |b|] == all[|a|..];
  }

  lemma HoldsInt(s: Slice, at: int, n: int)
    requires Fits32(n) && Holds(s, at, Be32(n))
    ensures GetInt32(s, at) == Some(n)
  {
    hide Unsigned, Signed, Be32;
    Be32Read(n);
  }

  /** A number of two bytes, the high one first. */
  lemma HoldsShort(s: Slice, at: int, n: nat)
    requires n < 0x1_0000 && Holds(s, at, [n / 256, n % 256])
    ensures GetInt16(s, at) == Some(n)
  {
    var bs: seq<Byte> := [n / 256, n % 256];
    assert s.data[at..at + 2][0] == bs[0] && s.data[at..at + 2][1] == bs[1];
  }

  /** A number of four bytes, the high one first and the sign in its high bit. */
  lemma HoldsBytes(s: Slice, at: int, a: Byte, b: Byte, c: Byte, d: Byte)
    requires Holds(s, at, [a, b, c, d])
    ensures GetInt32(s, at)
            == Some(((a as int * 256 + b as int) * 256 + c as int) * 256 + d as int
                    - if a >= 128 then 0x1_0000_0000 else 0)
  {
  }

  /** A number can be read exactly where all its bytes are in the slice. */
  lemma IntRange(s: Slice, at: int)
    requires Valid(s)
    ensures GetInt16(s, at).Some? <==> 0 <= at && at + 2 <= s.len
    ensures GetInt32(s, at).Some? <==> 0 <= at && at + 4 <= s.len
  {
  }

  // ---------------------------------------------------------------------------------- sections

  datatype Range = Range(start: int, end: int)

  function GetSectionAddr(s: Slice, secno: int): Option<Range>
    requires Valid(s)
  {
    var nsec := GetInt16(s, NUMBER_OF_PDB_RECORDS);
    if nsec.None? || secno < 0 || secno >= nsec.value then None
    else
      var start := GetInt32(s, FIRST_PDB_RECORD + secno * 8);
      var end := if secno == nsec.value - 1 then Some(s.len as int)
          else GetInt32(s, FIRST_PDB_RECORD + (secno + 1) * 8);
      if start.None? || end.None? then None else Some(Range(start.value, end.value))
  }

  function ReadSection(s: Slice, secno: int): (r: Option<Slice>)
    requires Valid(s)
    ensures r.Some? ==> Valid(r.value)
  {
    match GetSectionAddr(s, secno)
    case None => None
    case Some(a) => Sub(s, a.start, a.end)
  }

  /** A table of sections: their number at 76, and from 78 on an entry of eight bytes for each, which starts with its
      offset.  The offsets are in the file and do not decrease. */
  ghost predicate Table(s: Slice, offs: seq<int>) {
    && Valid(s) && 0 < |offs| < 0x1_0000 && Holds(s, 76, [|offs| / 256, |offs| % 256])
    && (forall k :: 0 <= k < |offs| ==> EntryOK(s, offs, k))
    && forall j, k :: 0 <= j < k < |offs| ==> offs[j] <= offs[k]
  }

  predicate EntryOK(s: Slice, offs: seq<int>, k: int)
    requires 0 <= k < |offs|
  {
    0 <= offs[k] <= s.len && Fits32(offs[k]) && Holds(s, 78 + 8 * k, Be32(offs[k]))
  }

  /** A section is read from its offset to the next one, the last one to the end of the file.  The code panics when
      there is no such section, when its entry or the next one is not all there, and when the two offsets are no range
      of the data. */
  lemma SectionRead(s: Slice, n: nat, k: int, start: int, end: int)
    requires n < 0x1_0000 && Holds(s, 76, [n / 256, n % 256])
    ensures !(0 <= k < n) ==> ReadSection(s, k).None?
    ensures 0 <= k < n && s.len < (if k == n - 1 then 82 + 8 * k else 90 + 8 * k) ==> ReadSection(s, k).None?
    ensures 0 <= k < n && Fits32(start) && Holds(s, 78 + 8 * k, Be32(start))
              && (if k == n - 1 then end == s.len else Fits32(end) && Holds(s, 86 + 8 * k, Be32(end)))
            ==> ReadSection(s, k) == if 0 <= start <= end <= |s.data| then Some(Slice(s.data[start..], end - start))
                                     else None
  {
    hide GetInt16, GetInt32, Be32, Sub;
    HoldsShort(s, 76, n);
    if 0 <= k < n {
      IntRange(s, 78 + 8 * k);
      IntRange(s, 86 + 8 * k);
      if Fits32(start) && Holds(s, 78 + 8 * k, Be32(start)) { HoldsInt(s, 78 + 8 * k, start); }
      if Fits32(end) && Holds(s, 86 + 8 * k, Be32(end)) { HoldsInt(s, 86 + 8 * k, end); }
      SubIs(s, start, end);
    }
  }

  lemma SubIs(s: Slice, lo: int, hi: int)
    ensures Sub(s, lo, hi) == if 0 <= lo <= hi <= |s.data| then Some(Slice(s.data[lo..], hi - lo)) else None
  {
  }

  /** The sections before the `k`th, one after the other. */
  function Sections(s: Slice, k: nat): Option<seq<Byte>>
    requires Valid(s)
  {
    if k == 0 then Some([])
    else
      match (Sections(s, k - 1), ReadSection(s, k - 1))
      case (Some(before), Some(last)) => Some(before + Bytes(last))
      case _ => None
  }

  /** Where the `k`th section starts; the last one ends where the file does. */
  function Cut(s: Slice, offs: seq<int>, k: int): int {
    if 0 <= k < |offs| then offs[k] else s.len
  }

  lemma SectionIs(s: Slice, offs: seq<int>, k: int)
    requires Table(s, offs) && 0 <= k < |offs|
    ensures 0 <= Cut(s, offs, k) <= Cut(s, offs, k + 1) <= s.len <= |s.data|
    ensures ReadSection(s, k).Some?
            && Bytes(ReadSection(s, k).value) == s.data[Cut(s, offs, k)..Cut(s, offs, k + 1)]
  {
    hide ReadSection, Be32;
    var b, c := Cut(s, offs, k), Cut(s, offs, k + 1);
    assert EntryOK(s, offs, k);
    if k + 1 < |offs| { assert EntryOK(s, offs, k + 1); }
    SectionRead(s, |offs|, k, b, c);
    assert s.data[b..][..c - b] == s.data[b..c];
  }

  lemma {:induction false} SectionsUpTo(s: Slice, offs: seq<int>, k: nat)
    requires Table(s, offs) && k <= |offs|
    ensures 0 <= offs[0] <= Cut(s, offs, k) <= s.len <= |s.data|
    ensures Sections(s, k) == Some(s.data[offs[0]..Cut(s, offs, k)])
  {
    hide ReadSection, Bytes, Table;
    TableStart(s, offs);
    if k == 0 {
      assert s.data[offs[0]..offs[0]] == [];
    } else {
      SectionsUpTo(s, offs, k - 1);
      SectionIs(s, offs, k - 1);
      var a, b, c := offs[0], Cut(s, offs, k - 1), Cut(s, offs, k);
      assert s.data[a..b] + s.data[b..c] == s.data[a..c];
    }
  }

  lemma TableStart(s: Slice, offs: seq<int>)
    requires Table(s, offs)
    ensures |offs| > 0 && 0 <= offs[0] <= s.len <= |s.data|
  {
    assert EntryOK(s, offs, 0);
  }

  /** The sections tile the file: each is what lies between its offset and the next one, the last one ends with the
      file, and together they are the file from the first offset on. */
  lemma SectionsTile(s: Slice, offs: seq<int>)
    requires Table(s, offs)
    ensures 0 <= offs[0] <= s.len && Sections(s, |offs|) == Some(s.data[offs[0]..s.len])
    ensures forall k :: 0 <= k < |offs| ==> Tile(s, offs, k)
  {
    hide Table, ReadSection;
    SectionsUpTo(s, offs, |offs|);
    forall k | 0 <= k < |offs| ensures Tile(s, offs, k) { SectionIs(s, offs, k); }
  }

  predicate Tile(s: Slice, offs: seq<int>, k: int)
    requires Valid(s) && 0 <= k < |offs|
  {
    var end := if k + 1 < |offs| then offs[k + 1] else s.len;
    && ReadSection(s, k).Some? && 0 <= offs[k] <= end <= s.len
    && Bytes(ReadSection(s, k).value) == s.data[offs[k]..end]
  }

  // ---------------------------------------------------------------------------------- EXTH records

  /** The records from `ebase` on, `enum` of them: those with the wanted id. */
  function ExthFrom(rec0: Slice, ebase: int, enum: int, recnum: int): Option<seq<seq<Byte>>>
    requires Valid(rec0)
    decreases enum
  {
    if enum <= 0 then Some([])
    else
      var id, len := GetInt32(rec0, ebase), GetInt32(rec0, ebase + 4);
      if id.None? || len.None? then None
      else
        var value := Sub(rec0, ebase + 8, ebase + len.value);
        if id.value == recnum && value.None? then None
        else
          Prepend(if id.value == recnum then [Bytes(value.value)] else [],
                  ExthFrom(rec0, ebase + len.value, enum - 1, recnum))
  }

  function ReadExthSpec(rec0: Slice, recnum: int): Option<seq<seq<Byte>>>
    requires Valid(rec0)
  {
    var h := GetInt32(rec0, MOBI_HEADER_LENGTH);
    if h.None? then None
    else
      var ebase := MOBI_HEADER_BASE + h.value;
      var enum := GetInt32(rec0, ebase + 8);
      if GetInt32(rec0, ebase + 4).None? || enum.None? then None else ExthFrom(rec0, ebase + 12, enum.value, recnum)
  }

  /** readExth */
  method ReadExth(rec0: Slice, recnum: int) returns (r: Option<seq<seq<Byte>>>)
    requires Valid(rec0)
    ensures r == ReadExthSpec(rec0, recnum)
  {
    hide GetInt32, Sub;
    var h := GetInt32(rec0, MOBI_HEADER_LENGTH);
    if h.None? { return None; }
    var ebase := MOBI_HEADER_BASE + h.value;
    var total, count := GetInt32(rec0, ebase + 4), GetInt32(rec0, ebase + 8);
    if total.None? || count.None? { return None; }
    ebase := ebase + 12;
    var enum := count.value;
    var values: seq<seq<Byte>> := [];
    PrependNone(ExthFrom(rec0, ebase, enum, recnum));
    while enum > 0
      invariant ReadExthSpec(rec0, recnum) == Prepend(values, ExthFrom(rec0, ebase, enum, recnum))
      decreases enum
    {
      var exthID, exthLen := GetInt32(rec0, ebase), GetInt32(rec0, ebase + 4);
      if exthID.None? || exthLen.None? { return None; }
      if exthID.value == recnum {
        var value := Sub(rec0, ebase + 8, ebase + exthLen.value);
        if value.None? { return None; }
        PrependOne(values, Bytes(value.value), ExthFrom(rec0, ebase + exthLen.value, enum - 1, recnum));
        values := values + [Bytes(value.value)];
      } else {
        PrependNone(ExthFrom(rec0, ebase + exthLen.value, enum - 1, recnum));
      }
      enum := enum - 1;
      ebase := ebase + exthLen.value;
    }
    assert values + [] == values;
    return Some(values);
  }

  function Prepend(values: seq<seq<Byte>>, rest: Option<seq<seq<Byte>>>): Option<seq<seq<Byte>>> {
    match rest
    case None => None
    case Some(r) => Some(values + r)
  }

  lemma PrependNone(rest: Option<seq<seq<Byte>>>)
    ensures Prepend([], rest) == rest
  {
    if rest.Some? { assert [] + rest.value == rest.value; }
  }

  lemma PrependOne(values: seq<seq<Byte>>, value: seq<Byte>, rest: Option<seq<seq<Byte>>>)
    ensures Prepend(values + [value], rest) == Prepend(values, Prepend([value], rest))
  {
    if rest.Some? { assert values + [value] + rest.value == values + ([value] + rest.value); }
  }

  // ---------------------------------------------------------------------------------- writing and reading back

  datatype Record = Record(id: int, payload: seq<Byte>)

  predicate RecordOK(r: Record) { Fits32(r.id) && 8 + |r.payload| < 0x8000_0000 }

  function WriteRecord(r: Record): seq<Byte>
    requires RecordOK(r)
  {
    Be32(r.id) + Be32(8 + |r.payload|) + r.payload
  }

  ghost predicate RecordsOK(recs: seq<Record>) {
    |recs| < 0x8000_0000 && forall r :: r in recs ==> RecordOK(r)
  }

  ghost function WriteRecords(recs: seq<Record>): seq<Byte>
    requires RecordsOK(recs)
  {
    if recs == [] then [] else WriteRecord(recs[0]) + WriteRecords(recs[1..])
  }

  function Payloads(recs: seq<Record>, recnum: int): seq<seq<Byte>> {
    if recs == [] then [] else (if recs[0].id == recnum then [recs[0].payload] else []) + Payloads(recs[1..], recnum)
  }

  lemma HoldsRecord(s: Slice, at: int, r: Record)
    requires RecordOK(r) && Holds(s, at, WriteRecord(r))
    ensures GetInt32(s, at) == Some(r.id) && GetInt32(s, at + 4) == Some(8 + |r.payload|)
    ensures Sub(s, at + 8, at + 8 + |r.payload|).Some? && Bytes(Sub(s, at + 8, at + 8 + |r.payload|).value) == r.payload
  {
    hide Be32, GetInt32;
    HoldsParts(s, at, Be32(r.id) + Be32(8 + |r.payload|), r.payload);
    HoldsParts(s, at, Be32(r.id), Be32(8 + |r.payload|));
    HoldsInt(s, at, r.id);
    HoldsInt(s, at + 4, 8 + |r.payload|);
    assert s.data[at + 8..][..|r.payload|] == s.data[at + 8..at + 8 + |r.payload|];
  }

  /** The records that a list was written to are read as what the list has; `more` are still to come. */
  lemma {:induction false} ReadRecords(s: Slice, at: int, recs: seq<Record>, more: nat, recnum: int)
    requires RecordsOK(recs) && Holds(s, at, WriteRecords(recs))
    ensures ExthFrom(s, at, |recs| + more, recnum)
            == Prepend(Payloads(recs, recnum), ExthFrom(s, at + |WriteRecords(recs)|, more, recnum))
    decreases |recs|
  {
    hide GetInt32, Sub, WriteRecord, Holds, Bytes, Prepend;
    HoldsValid(s, at, WriteRecords(recs));
    var rest := ExthFrom(s, at + |WriteRecords(recs)|, more, recnum);
    if recs == [] {
      PrependNone(rest);
    } else {
      var r, tail := recs[0], recs[1..];
      HoldsParts(s, at, WriteRecord(r), WriteRecords(tail));
      HoldsRecord(s, at, r);
      WriteLength(r);
      ReadRecords(s, at + 8 + |r.payload|, tail, more, recnum);
      PrependMore(if r.id == recnum then [r.payload] else [], Payloads(tail, recnum), rest);
    }
  }

  lemma PrependMore(a: seq<seq<Byte>>, b: seq<seq<Byte>>, rest: Option<seq<seq<Byte>>>)
    ensures Prepend(a, Prepend(b, rest)) == Prepend(a + b, rest)
  {
    if rest.Some? { assert a + (b + rest.value) == (a + b) + rest.value; }
  }

  lemma PrependIs(values: seq<seq<Byte>>, rest: seq<seq<Byte>>)
    ensures Prepend(values, Some(rest)) == Some(values + rest)
  {
  }

  lemma HoldsValid(s: Slice, at: int, bs: seq<Byte>)
    requires Holds(s, at, bs)
    ensures Valid(s)
  {
  }

  lemma WriteLength(r: Record)
    requires RecordOK(r)
    ensures |WriteRecord(r)| == 8 + |r.payload|
  {
  }

  /** A header as it is built: at 20 its length, from which the records' own header follows behind another 16 bytes,
      with their number in its third field and the records behind that. */
  ghost predicate Header(rec0: Slice, h: int, count: int, recs: seq<Record>)
    requires RecordsOK(recs)
  {
    && Fits32(h) && Fits32(count) && Holds(rec0, 20, Be32(h)) && rec0.len >= 16 + h + 12
    && Holds(rec0, 16 + h + 8, Be32(count)) && Holds(rec0, 16 + h + 12, WriteRecords(recs)) && 16 + h + 4 >= 0
  }

  lemma ReadHeader(rec0: Slice, h: int, count: int, recs: seq<Record>, recnum: int)
    requires RecordsOK(recs) && Header(rec0, h, count, recs)
    ensures Valid(rec0) && ReadExthSpec(rec0, recnum) == ExthFrom(rec0, 16 + h + 12, count, recnum)
  {
    hide GetInt32, Be32, WriteRecords, ExthFrom;
    HoldsInt(rec0, 20, h);
    HoldsInt(rec0, 16 + h + 8, count);
    IntRange(rec0, 16 + h + 4);
  }

  /** Reading the records of a header that was built from a list gives exactly the payloads with the wanted id, in
      order, whatever stands before and after them. */
  lemma ReadsBack(rec0: Slice, h: int, recs: seq<Record>, recnum: int)
    requires RecordsOK(recs) && Header(rec0, h, |recs|, recs)
    ensures ReadExthSpec(rec0, recnum) == Some(Payloads(recs, recnum))
  {
    hide Header, WriteRecords, ReadExthSpec;
    ReadHeader(rec0, h, |recs|, recs, recnum);
    HeaderHolds(rec0, h, |recs|, recs);
    ReadRecords(rec0, 16 + h + 12, recs, 0, recnum);
    PrependIs(Payloads(recs, recnum), []);
    assert Payloads(recs, recnum) + [] == Payloads(recs, recnum);
  }

  lemma HeaderHolds(rec0: Slice, h: int, count: int, recs: seq<Record>)
    requires RecordsOK(recs) && Header(rec0, h, count, recs)
    ensures Holds(rec0, 16 + h + 12, WriteRecords(recs)) && Valid(rec0)
  {
  }

  /** The code panics when the header announces more records than it has room for, and reads none when it announces none
      or fewer. */
  lemma ReadsTooFar(rec0: Slice, h: int, count: int, recs: seq<Record>, recnum: int)
    requires RecordsOK(recs) && Header(rec0, h, count, recs)
    ensures count > |recs| && 16 + h + 12 + |WriteRecords(recs)| + 8 > rec0.len ==> ReadExthSpec(rec0, recnum).None?
    ensures count <= 0 ==> ReadExthSpec(rec0, recnum) == Some([])
  {
    hide Header, WriteRecords, ReadExthSpec, GetInt32;
    ReadHeader(rec0, h, count, recs, recnum);
    if count > |recs| {
      HeaderHolds(rec0, h, count, recs);
      ReadRecords(rec0, 16 + h + 12, recs, count - |recs|, recnum);
      IntRange(rec0, 16 + h + 12 + |WriteRecords(recs)| + 4);
    }
  }
}
