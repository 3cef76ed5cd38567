/** A range of a file shown as its bytes, sixteen a line, and the reader that
    reads such a dump back. */
module HexDump {
  import opened Basics
  import opened Utf8

  const HEX_BUDGET: nat := 4096

  // ---- The dump ------------------------------------------------------------------------------

  function HexDigit(d: nat): (c: char)
    requires d < 16
  {
    if d < 10 then (48 + d) as char else (87 + d) as char
  }

  /** A number in hex, with leading zeros up to a width. */
  function HexNumber(n: nat, width: nat): string
    decreases n, width
  {
    if n == 0 && width == 0 then ""
    else HexNumber(n / 16, if width == 0 then 0 else width - 1) + [HexDigit(n % 16)]
  }

  function HexByte(b: Byte): string {
    [HexDigit(b / 16), HexDigit(b % 16)]
  }

  /** The bytes in pairs, a space before each pair. */
  function Pairs(line: seq<Byte>): string {
    if line == [] then "" else Pair(line[..Paired(|line|)]) + Pairs(line[Paired(|line|)..])
  }

  function Paired(n: nat): (k: nat)
    ensures k <= n && k <= 2 && (n > 0 ==> k > 0)
  {
    if n <= 2 then n else 2
  }

  function Pair(pair: seq<Byte>): string {
    " " + HexBytes(pair)
  }

  function HexBytes(bytes: seq<Byte>): string {
    if bytes == [] then "" else HexByte(bytes[0]) + HexBytes(bytes[1..])
  }

  /** The columns the pairs take. */
  function Width(n: nat): nat {
    n * 2 + (n + 1) / 2
  }

  /** Short lines are padded, so the characters stay in their column: a line has
      at most sixteen bytes, and the padding is never negative. */
  function Padding(n: nat): (k: nat)
    requires n <= 16
    ensures Width(n) + k == 42 && k >= 2
  {
    40 - Width(n) + 2
  }

  function Spaces(k: nat): string {
    if k == 0 then "" else " " + Spaces(k - 1)
  }

  function Shown(b: Byte): char {
    if 32 <= b <= 126 then b as char else '.'
  }

  function Characters(line: seq<Byte>): string {
    if line == [] then "" else [Shown(line[0])] + Characters(line[1..])
  }

  /** A line of the dump: where it is in the file, and its bytes. */
  datatype Row = Row(at: nat, bytes: Sixteen)

  type Sixteen = s: seq<Byte> | |s| <= 16

  function DumpLine(row: Row): string {
    HexNumber(row.at, 8) + ":" + Pairs(row.bytes) + Spaces(Padding(|row.bytes|)) + Characters(row.bytes) + "\n"
  }

  function DumpRows(rows: seq<Row>): string {
    if rows == [] then "" else DumpLine(rows[0]) + DumpRows(rows[1..])
  }

  /** The bytes from `i` on, sixteen to a row. */
  function Rows(bytes: seq<Byte>, base: nat, i: nat): seq<Row>
    requires i <= |bytes|
    decreases |bytes| - i
  {
    if i == |bytes| then []
    else
      var n := if |bytes| - i <= 16 then |bytes| - i else 16;
      [Row(base + i, bytes[i..i + n])] + Rows(bytes, base, i + n)
  }

  function Dump(bytes: seq<Byte>, base: nat): string {
    DumpRows(Rows(bytes, base, 0))
  }

  lemma PairsStep(line: seq<Byte>, i: nat)
    requires i < |line|
    ensures var k := Paired(|line| - i);
            Pairs(line[i..]) == Pair(line[i..i + k]) + Pairs(line[i + k..])
  {
    var k := Paired(|line| - i);
    assert line[i..][..k] == line[i..i + k] && line[i..][k..] == line[i + k..];
  }

  lemma AddString(a: string, b: string, c: string, whole: string)
    requires a + (b + c) == whole
    ensures (a + b) + c == whole
  {
    assert (a + b) + c == a + (b + c);
  }

  method WriteHex(pair: seq<Byte>) returns (out: string)
    ensures out == HexBytes(pair)
  {
    out := "";
    var i := 0;
    while i < |pair|
      invariant i <= |pair|
      invariant out + HexBytes(pair[i..]) == HexBytes(pair)
    {
      assert pair[i..][1..] == pair[i + 1..];
      AddString(out, HexByte(pair[i]), HexBytes(pair[i + 1..]), HexBytes(pair));
      out := out + HexByte(pair[i]);
      i := i + 1;
    }
  }

  method WritePairs(line: seq<Byte>) returns (out: string)
    ensures out == Pairs(line)
  {
    out := "";
    var i := 0;
    while i < |line|
      invariant i <= |line|
      invariant out + Pairs(line[i..]) == Pairs(line)
    {
      var k := Paired(|line| - i);
      var hex := WriteHex(line[i..i + k]);
      PairsStep(line, i);
      AddString(out, " " + hex, Pairs(line[i + k..]), Pairs(line));
      out := out + (" " + hex);
      i := i + k;
    }
  }

  lemma DumpStep(bytes: seq<Byte>, base: nat, i: nat, n: nat, out: string, line: string, whole: string)
    requires i < |bytes| && n == if |bytes| - i <= 16 then |bytes| - i else 16
    requires out + DumpRows(Rows(bytes, base, i)) == whole && line == DumpLine(Row(base + i, bytes[i..i + n]))
    ensures (out + line) + DumpRows(Rows(bytes, base, i + n)) == whole
  {
    assert Rows(bytes, base, i)[1..] == Rows(bytes, base, i + n);
    AddString(out, line, DumpRows(Rows(bytes, base, i + n)), whole);
  }

  /** The dump, written a line at a time. */
  method HexDumpOf(bytes: seq<Byte>, base: nat) returns (out: string)
    ensures out == Dump(bytes, base)
  {
    hide DumpLine;
    out := "";
    var i := 0;
    ghost var whole := Dump(bytes, base);
    while i < |bytes|
      invariant i <= |bytes|
      invariant out + DumpRows(Rows(bytes, base, i)) == whole
    {
      var n := if |bytes| - i <= 16 then |bytes| - i else 16;
      var line := WriteLine(base + i, bytes[i..i + n]);
      DumpStep(bytes, base, i, n, out, line, whole);
      out := out + line;
      i := i + n;
    }
  }

  method WriteLine(at: nat, line: Sixteen) returns (out: string)
    ensures out == DumpLine(Row(at, line))
  {
    out := HexNumber(at, 8) + ":";
    var pairs := WritePairs(line);
    out := out + pairs + Spaces(Padding(|line|)) + Characters(line) + "\n";
  }

  // ---- Reading a dump back -------------------------------------------------------------------

  /** The characters beside a line are its bytes: each that prints as itself, and
      a dot for any other. */
  predicate Beside(line: seq<Byte>, shown: string) {
    |shown| == |line| && forall i :: 0 <= i < |line| ==> shown[i] as nat == if 32 <= line[i] <= 126 then line[i] else 46
  }

  /** A reader of dumps, a character at a time: the offset up to a colon, then
      forty-two columns of hex digits and spaces, then characters to the end of
      the line, which must be those of the bytes read. */
  datatype Reader =
    | InOffset(rows: seq<Row>, at: nat)
    | InHex(rows: seq<Row>, at: nat, line: seq<Byte>, column: nat, half: Option<nat>)
    | InCharacters(rows: seq<Row>, at: nat, line: seq<Byte>, shown: string)
    | Lost

  function DigitValue(c: char): (d: Option<nat>)
    ensures d.Some? ==> d.value < 16
  {
    if '0' <= c <= '9' then Some(c as nat - 48)
    else if 'a' <= c <= 'f' then Some(c as nat - 87)
    else None
  }

  function ReadChar(r: Reader, c: char): Reader {
    match r
    case InOffset(rows, at) =>
      if c == ':' then InHex(rows, at, [], 0, None)
      else (match DigitValue(c)
            case Some(d) => InOffset(rows, at * 16 + d)
            case None => Lost)
    case InHex(rows, at, line, column, half) =>
      if c == ' ' then
        (if half.Some? then Lost
         else if column + 1 == 42 then InCharacters(rows, at, line, "")
         else InHex(rows, at, line, column + 1, None))
      else (match DigitValue(c)
            case None => Lost
            case Some(d) =>
              match half
              case None => InHex(rows, at, line, column + 1, Some(d))
              case Some(h) => if h < 16 then InHex(rows, at, line + [h * 16 + d], column + 1, None) else Lost)
    case InCharacters(rows, at, line, shown) =>
      if c != '\n' then InCharacters(rows, at, line, shown + [c])
      else if |line| <= 16 && Beside(line, shown) then InOffset(rows + [Row(at, line)], 0)
      else Lost
    case Lost => Lost
  }

  function Read(r: Reader, text: string): Reader
    decreases |text|
  {
    if text == "" then r else Read(ReadChar(r, text[0]), text[1..])
  }

  lemma {:induction false} ReadTwo(r: Reader, a: string, b: string)
    ensures Read(r, a + b) == Read(Read(r, a), b)
    decreases |a|
  {
    if a == "" {
      assert a + b == b;
    } else {
      assert (a + b)[0] == a[0] && (a + b)[1..] == a[1..] + b;
      ReadTwo(ReadChar(r, a[0]), a[1..], b);
    }
  }

  lemma ReadNone(r: Reader)
    ensures Read(r, "") == r
  {
  }

  lemma ReadOne(r: Reader, c: char)
    ensures Read(r, [c]) == ReadChar(r, c)
  {
    assert [c][1..] == "";
  }

  lemma DigitReadsBack(d: nat)
    requires d < 16
    ensures DigitValue(HexDigit(d)) == Some(d) && HexDigit(d) != ' ' && HexDigit(d) != ':'
  {
  }

  /** An offset is written in eight digits, while it can be; so a line's colon is its
      ninth character. */
  lemma {:induction false} NumberIsWide(n: nat, width: nat, top: nat)
    requires n < top && top == Power(width)
    ensures |HexNumber(n, width)| == width
    decreases width
  {
    if width > 0 {
      assert n / 16 < top / 16 == Power(width - 1);
      NumberIsWide(n / 16, width - 1, top / 16);
    }
  }

  function Power(width: nat): (top: nat)
    ensures top > 0
  {
    if width == 0 then 1 else 16 * Power(width - 1)
  }

  lemma ALineBegins(row: Row)
    requires row.at < 0x1_0000_0000
    ensures |DumpLine(row)| > 8 && DumpLine(row)[8] == ':'
  {
    assert Power(2) == 256 && Power(4) == 65536 && Power(8) == 0x1_0000_0000;
    NumberIsWide(row.at, 8, Power(8));
    hide HexNumber, Pairs, Spaces, Characters, Power;
  }

  lemma {:induction false} ReadsNumber(rows: seq<Row>, n: nat, width: nat)
    ensures Read(InOffset(rows, 0), HexNumber(n, width)) == InOffset(rows, n)
    decreases n, width
  {
    if n != 0 || width != 0 {
      var front := HexNumber(n / 16, if width == 0 then 0 else width - 1);
      ReadsNumber(rows, n / 16, if width == 0 then 0 else width - 1);
      ReadTwo(InOffset(rows, 0), front, [HexDigit(n % 16)]);
      ReadOne(InOffset(rows, n / 16), HexDigit(n % 16));
      DigitReadsBack(n % 16);
    }
  }

  lemma ReadsDigits(r: Reader, c: char, d: char, high: nat, low: nat)
    requires r.InHex? && r.half.None? && c != ' ' && d != ' '
    requires DigitValue(c) == Some(high) && DigitValue(d) == Some(low) && high * 16 + low < 256
    ensures Read(r, [c, d]) == r.(line := r.line + [high * 16 + low], column := r.column + 2)
  {
    hide Read, DigitValue;
    var half := InHex(r.rows, r.at, r.line, r.column + 1, Some(high));
    var done := InHex(r.rows, r.at, r.line + [high * 16 + low], r.column + 2, None);
    assert ReadChar(r, c) == half;
    assert ReadChar(half, d) == done;
    ReadsBoth(r, c, d, half, done);
  }

  lemma ReadsBoth(r: Reader, c: char, d: char, r1: Reader, r2: Reader)
    requires ReadChar(r, c) == r1 && ReadChar(r1, d) == r2
    ensures Read(r, [c, d]) == r2
  {
    hide Read, ReadChar;
    ReadOne(r, c);
    ReadOne(r1, d);
    ReadTwo(r, [c], [d]);
    assert [c] + [d] == [c, d];
  }

  lemma ReadsByte(r: Reader, b: Byte)
    requires r.InHex? && r.half.None?
    ensures Read(r, HexByte(b)) == r.(line := r.line + [b], column := r.column + 2)
  {
    hide Read, ReadChar, HexDigit;
    DigitReadsBack(b / 16);
    DigitReadsBack(b % 16);
    ReadsDigits(r, HexDigit(b / 16), HexDigit(b % 16), b / 16, b % 16);
  }

  lemma {:induction false} ReadsBytes(r: Reader, bytes: seq<Byte>)
    requires r.InHex? && r.half.None?
    ensures Read(r, HexBytes(bytes)) == r.(line := r.line + bytes, column := r.column + 2 * |bytes|)
    decreases |bytes|
  {
    if bytes == [] {
      assert r.line + bytes == r.line;
    } else {
      ReadsByte(r, bytes[0]);
      var next := r.(line := r.line + [bytes[0]], column := r.column + 2);
      ReadTwo(r, HexByte(bytes[0]), HexBytes(bytes[1..]));
      ReadsBytes(next, bytes[1..]);
      assert next.line + bytes[1..] == r.line + bytes;
    }
  }

  lemma ReadsSpace(r: Reader)
    requires r.InHex? && r.half.None? && r.column + 1 < 42
    ensures Read(r, " ") == r.(column := r.column + 1)
  {
    ReadOne(r, ' ');
  }

  lemma ReadsPair(r: Reader, pair: seq<Byte>)
    requires r.InHex? && r.half.None? && r.column + 1 < 42
    ensures Read(r, Pair(pair)) == r.(line := r.line + pair, column := r.column + 1 + 2 * |pair|)
  {
    ReadsSpace(r);
    ReadTwo(r, " ", HexBytes(pair));
    ReadsBytes(r.(column := r.column + 1), pair);
  }

  lemma {:induction false} ReadsPairs(r: Reader, line: seq<Byte>)
    requires r.InHex? && r.half.None? && r.column + Width(|line|) < 42
    ensures Read(r, Pairs(line)) == r.(line := r.line + line, column := r.column + Width(|line|))
    decreases |line|
  {
    hide Read, ReadChar, Pair;
    if line == [] {
      ReadNone(r);
      assert r.line + line == r.line;
    } else {
      var k := Paired(|line|);
      var pair, rest := line[..k], line[k..];
      ReadsPair(r, pair);
      var next := r.(line := r.line + pair, column := r.column + 1 + 2 * k);
      ReadTwo(r, Pair(pair), Pairs(rest));
      ReadsPairs(next, rest);
      assert next.line + rest == r.line + line by { assert pair + rest == line; }
    }
  }

  lemma {:induction false} ReadsSpaces(r: Reader, k: nat)
    requires r.InHex? && r.half.None? && k >= 1 && r.column + k == 42
    ensures Read(r, Spaces(k)) == InCharacters(r.rows, r.at, r.line, "")
    decreases k
  {
    ReadTwo(r, " ", Spaces(k - 1));
    ReadOne(r, ' ');
    if k > 1 { ReadsSpaces(r.(column := r.column + 1), k - 1); }
  }

  lemma {:induction false} ReadsCharacters(r: Reader, line: seq<Byte>)
    requires r.InCharacters?
    ensures Read(r, Characters(line)) == r.(shown := r.shown + Characters(line))
    decreases |line|
  {
    hide Read, Shown;
    if line == [] {
      ReadNone(r);
      assert r.shown + "" == r.shown;
    } else {
      var next := r.(shown := r.shown + [Shown(line[0])]);
      ShownStaysInLine(line[0]);
      ReadFirst(r, Characters(line));
      assert Characters(line)[0] == Shown(line[0]) && Characters(line)[1..] == Characters(line[1..]);
      ReadsCharacters(next, line[1..]);
      assert next.shown + Characters(line[1..]) == r.shown + Characters(line);
    }
  }

  lemma ReadFirst(r: Reader, text: string)
    requires text != ""
    ensures Read(r, text) == Read(ReadChar(r, text[0]), text[1..])
  {
  }

  lemma ShownStaysInLine(b: Byte)
    ensures Shown(b) != '\n'
  {
  }

  lemma {:induction false} CharactersAreBeside(line: seq<Byte>)
    ensures Beside(line, Characters(line))
  {
    if line != [] { CharactersAreBeside(line[1..]); }
  }

  lemma ReadsLine(rows: seq<Row>, row: Row)
    ensures Read(InOffset(rows, 0), DumpLine(row)) == InOffset(rows + [row], 0)
  {
    var n := |row.bytes|;
    ReadsNumber(rows, row.at, 8);
    ReadOne(InOffset(rows, row.at), ':');
    var hex := InHex(rows, row.at, [], 0, None);
    ReadsPairs(hex, row.bytes);
    var padded := hex.(line := [] + row.bytes, column := 0 + Width(n));
    ReadsSpaces(padded, Padding(n));
    var start := InCharacters(rows, row.at, [] + row.bytes, "");
    ReadsCharacters(start, row.bytes);
    CharactersAreBeside(row.bytes);
    var characters := start.(shown := "" + Characters(row.bytes));
    assert "" + Characters(row.bytes) == Characters(row.bytes);
    ReadOne(characters, '\n');
    assert [] + row.bytes == row.bytes;
    ReadsSix(InOffset(rows, 0), HexNumber(row.at, 8), ":", Pairs(row.bytes), Spaces(Padding(n)), Characters(row.bytes), "\n",
             InOffset(rows, row.at), hex, padded, start, characters);
  }

  lemma ReadsSix(r: Reader, a: string, b: string, c: string, d: string, e: string, f: string,
                 r1: Reader, r2: Reader, r3: Reader, r4: Reader, r5: Reader)
    requires Read(r, a) == r1 && Read(r1, b) == r2 && Read(r2, c) == r3 && Read(r3, d) == r4 && Read(r4, e) == r5
    ensures Read(r, a + b + c + d + e + f) == Read(r5, f)
  {
    ReadTwo(r, a, b);
    ReadTwo(r, a + b, c);
    ReadTwo(r, a + b + c, d);
    ReadTwo(r, a + b + c + d, e);
    ReadTwo(r, a + b + c + d + e, f);
  }

  lemma {:induction false} DumpReadsOn(done: seq<Row>, rows: seq<Row>)
    ensures Read(InOffset(done, 0), DumpRows(rows)) == InOffset(done + rows, 0)
    decreases |rows|
  {
    hide DumpLine;
    if rows == [] {
      assert done + rows == done;
    } else {
      ReadTwo(InOffset(done, 0), DumpLine(rows[0]), DumpRows(rows[1..]));
      ReadsLine(done, rows[0]);
      DumpReadsOn(done + [rows[0]], rows[1..]);
      assert done + [rows[0]] + rows[1..] == done + rows;
    }
  }

  function BytesOf(rows: seq<Row>): seq<Byte> {
    if rows == [] then [] else rows[0].bytes + BytesOf(rows[1..])
  }

  /** The rows hold the bytes. */
  lemma {:induction false} RowsHoldTheBytes(bytes: seq<Byte>, base: nat, i: nat)
    requires i <= |bytes|
    ensures BytesOf(Rows(bytes, base, i)) == bytes[i..]
    decreases |bytes| - i
  {
    if i < |bytes| {
      var n := if |bytes| - i <= 16 then |bytes| - i else 16;
      RowsHoldTheBytes(bytes, base, i + n);
      BytesOfTwo(Row(base + i, bytes[i..i + n]), Rows(bytes, base, i + n));
      assert bytes[i..i + n] + bytes[i + n..] == bytes[i..];
    }
  }

  lemma BytesOfTwo(row: Row, rest: seq<Row>)
    ensures BytesOf([row] + rest) == row.bytes + BytesOf(rest)
  {
    assert ([row] + rest)[1..] == rest;
  }

  /** Each row says where in the file it is. */
  lemma {:induction false} RowsAreInPlace(bytes: seq<Byte>, base: nat, i: nat, k: nat)
    requires i <= |bytes| && k < |Rows(bytes, base, i)|
    ensures Rows(bytes, base, i)[k].at == base + i + 16 * k
    decreases k
  {
    if k > 0 { RowsAreInPlace(bytes, base, i + 16, k - 1); }
  }

  /** The main claim about a dump: read back, it is the bytes, every line is at
      the offset it names, and the characters beside it are its own. */
  lemma DumpReadsBack(bytes: seq<Byte>, base: nat)
    ensures var r := Read(InOffset([], 0), Dump(bytes, base));
            && r.InOffset? && r.at == 0 && BytesOf(r.rows) == bytes
            && forall k :: 0 <= k < |r.rows| ==> r.rows[k].at == base + 16 * k
  {
    hide Read;
    var rows := Rows(bytes, base, 0);
    DumpReadsOn([], rows);
    RowsHoldTheBytes(bytes, base, 0);
    assert [] + rows == rows && bytes[0..] == bytes;
    forall k | 0 <= k < |rows| ensures rows[k].at == base + 16 * k {
      RowsAreInPlace(bytes, base, 0, k);
    }
  }

  // ---- Pages of a file ---------------------------------------------------------------------------

  datatype Page = Page(offset: nat, content: string, next: Option<nat>)

  function ReadHex(file: seq<Byte>, offset: nat, fromEnd: bool): Page {
    var size := |file|;
    var start := if fromEnd then (if size <= HEX_BUDGET then 0 else size - HEX_BUDGET)
                 else if offset <= size then offset else size;
    var len := if size - start <= HEX_BUDGET then size - start else HEX_BUDGET;
    var end := start + len;
    Page(start, Dump(file[start..end], start), if end < size then Some(end) else None)
  }

  /** What a page shows, read back. */
  function ReadBack(page: Page): seq<Byte> {
    var r := Read(InOffset([], 0), page.content);
    if r.InOffset? then BytesOf(r.rows) else []
  }

  /** The pages that following the next offset leads through. */
  function FollowHex(file: seq<Byte>, offset: nat): seq<Page>
    decreases |file| - offset
  {
    var page := ReadHex(file, offset, false);
    [page] + if page.next.Some? then FollowHex(file, page.next.value) else []
  }

  function ReadAllBack(pages: seq<Page>): seq<Byte> {
    if pages == [] then [] else ReadBack(pages[0]) + ReadAllBack(pages[1..])
  }

  lemma PageShows(file: seq<Byte>, offset: nat, fromEnd: bool)
    ensures var page := ReadHex(file, offset, fromEnd);
            && page.offset == (if fromEnd then (if |file| <= 4096 then 0 else |file| - 4096)
                               else if offset <= |file| then offset else |file|)
            && page.next == (if page.offset + 4096 < |file| then Some(page.offset + 4096) else None)
            && (page.next.Some? ==> page.offset < page.next.value < |file|)
            && ReadBack(page) == file[page.offset..if page.next.Some? then page.next.value else |file|]
            && (fromEnd ==> page.next.None?)
  {
    hide Read, Dump, BytesOf;
    var page := ReadHex(file, offset, fromEnd);
    var end := if page.next.Some? then page.next.value else |file|;
    DumpReadsBack(file[page.offset..end], page.offset);
  }

  lemma PageGoesOn(file: seq<Byte>, offset: nat)
    requires offset <= |file|
    ensures var page := ReadHex(file, offset, false);
            if page.next.Some? then offset < page.next.value < |file| && ReadBack(page) == file[offset..page.next.value]
            else ReadBack(page) == file[offset..|file|]
  {
    hide ReadHex, ReadBack;
    PageShows(file, offset, false);
  }

  /** Following the next offset from anywhere in a file, and reading the dumps
      back, gives the rest of the file. */
  lemma {:induction false} PagesAreTheFile(file: seq<Byte>, offset: nat)
    requires offset <= |file|
    ensures ReadAllBack(FollowHex(file, offset)) == file[offset..]
    decreases |file| - offset
  {
    hide ReadHex, ReadBack, Read, Dump, BytesOf;
    PageGoesOn(file, offset);
    var page := ReadHex(file, offset, false);
    if page.next.Some? {
      var next := page.next.value;
      PagesAreTheFile(file, next);
      assert FollowHex(file, offset)[1..] == FollowHex(file, next);
      assert file[offset..next] + file[next..] == file[offset..];
    } else {
      assert FollowHex(file, offset)[1..] == [];
      assert file[offset..|file|] == file[offset..];
    }
  }
}
