/** Reading a file for the model: both ends of one that is too long, and the
    offset to read on from. */
module ReadObject {
  import opened Basics
  import opened Utf8

  const READ_BUDGET: nat := 32768
  const HEAD_SHARE: nat := 70

  /** Seventy hundredths of the budget, rounded down, and the rest: see `Shares`. */
  const HEAD_LEN: nat := 22937
  const TAIL_LEN: nat := 9831
  const NEWLINE: Byte := 10

  lemma Shares()
    ensures HEAD_LEN == READ_BUDGET * HEAD_SHARE / 100 && TAIL_LEN == READ_BUDGET - HEAD_LEN
  {
  }

  /** A stored file. The host names some files as binary, and refuses to hand
      over the beginning of one as text. */
  datatype File = File(bytes: seq<Byte>, named: bool)

  datatype Reply =
    | NotRead(error: SliceError)
    | OneLine(size: nat)
    | All(offset: nat, text: seq<Byte>)
    | End(earlier: nat, text: seq<Byte>)
    | BothEnds(head: seq<Byte>, skipped: nat, from: nat, tail: seq<Byte>)

  function Min(a: nat, b: nat): nat {
    if a <= b then a else b
  }

  /** What the host hands over for a range: no further than the file goes. */
  function Range(bytes: seq<Byte>, offset: nat, len: nat): seq<Byte> {
    bytes[Min(offset, |bytes|)..Min(offset + len, |bytes|)]
  }

  function SliceAt(file: File, offset: nat, len: nat): Result<seq<Byte>, SliceError> {
    if offset == 0 && file.named then Err(HostRefused) else SliceOf(Range(file.bytes, offset, len))
  }

  predicate NoNewline(s: seq<Byte>, from: nat, to: nat)
    requires to <= |s|
  {
    forall k :: from <= k < to ==> s[k] != NEWLINE
  }

  function FirstNewline(s: seq<Byte>, at: nat): (k: Option<nat>)
    requires at <= |s|
    ensures k.None? ==> NoNewline(s, at, |s|)
    ensures k.Some? ==> at <= k.value < |s| && s[k.value] == NEWLINE && NoNewline(s, at, k.value)
    decreases |s| - at
  {
    if at == |s| then None
    else if s[at] == NEWLINE then Some(at)
    else FirstNewline(s, at + 1)
  }

  function LastNewline(s: seq<Byte>, to: nat): (k: Option<nat>)
    requires to <= |s|
    ensures k.None? ==> NoNewline(s, 0, to)
    ensures k.Some? ==> k.value < to && s[k.value] == NEWLINE && NoNewline(s, k.value + 1, to)
  {
    if to == 0 then None
    else if s[to - 1] == NEWLINE then Some(to - 1)
    else LastNewline(s, to - 1)
  }

  /** Trims a fragment back to whole lines: from the end of a head, from the
      start of a tail. */
  function WholeLines(fragment: seq<Byte>, dropFromStart: bool): seq<Byte> {
    if dropFromStart then
      match FirstNewline(fragment, 0)
      case Some(at) => fragment[at + 1..]
      case None => fragment
    else
      match LastNewline(fragment, |fragment|)
      case Some(at) => fragment[..at]
      case None => fragment
  }

  function ReadEnd(file: File): Reply {
    var size := |file.bytes|;
    var start := if size <= READ_BUDGET then 0 else size - READ_BUDGET;
    EndOf(start, SliceAt(file, start, READ_BUDGET))
  }

  function EndOf(start: nat, window: Result<seq<Byte>, SliceError>): Reply {
    match window
    case Err(e) => NotRead(e)
    case Ok(text) => End(start, if start > 0 then WholeLines(text, true) else text)
  }

  function ReadFrom(file: File, offset: nat): Reply {
    var size := |file.bytes|;
    var remaining := if size <= offset then 0 else size - offset;
    if remaining <= READ_BUDGET then
      AllOf(offset, SliceAt(file, offset, if remaining == 0 then 1 else remaining))
    else
      BothEndsOf(size, offset, SliceAt(file, offset, HEAD_LEN), SliceAt(file, size - TAIL_LEN, TAIL_LEN))
  }

  function AllOf(offset: nat, window: Result<seq<Byte>, SliceError>): Reply {
    match window
    case Err(e) => NotRead(e)
    case Ok(text) => All(offset, text)
  }

  function BothEndsOf(size: nat, offset: nat, head: Result<seq<Byte>, SliceError>,
                      tail: Result<seq<Byte>, SliceError>): Reply
    requires size >= TAIL_LEN
  {
    if head.Err? then NotRead(head.error)
    else if tail.Err? then NotRead(tail.error)
    else if NoNewline(head.value, 0, |head.value|) && NoNewline(tail.value, 0, |tail.value|) then OneLine(size)
    else
      var shownHead, shownTail := WholeLines(head.value, false), WholeLines(tail.value, true);
      var from, tailStart := offset + |shownHead|, size - TAIL_LEN;
      BothEnds(shownHead, if tailStart <= from then 0 else tailStart - from, from, shownTail)
  }

  // ---- Newlines and boundaries -------------------------------------------------------------

  predicate IsBoundary(file: seq<Byte>, at: nat) {
    IsText(file) && at <= |file| && NextBoundary(file, at) == at
  }

  /** A newline is a character by itself, whatever range it is seen through. */
  lemma {:induction false} NewlineIsWhole(s: seq<Byte>, at: nat, a: nat, k: nat, b: nat)
    requires at <= k < b <= |s| && a <= k && TextFrom(s, at) && s[k] == NEWLINE
    ensures NextFrom(s, at, a) <= k < LastFrom(s, at, b)
    decreases |s| - at
  {
    CharShape(s, at);
    if at < k {
      NewlineIsWhole(s, at + CharAt(s, at), a, k, b);
    }
  }

  /** The boundary a look ends at is a boundary. */
  lemma {:induction false} LastIsABoundary(s: seq<Byte>, at: nat, b: nat)
    requires at <= b <= |s| && TextFrom(s, at)
    ensures NextFrom(s, at, LastFrom(s, at, b)) == LastFrom(s, at, b)
    decreases |s| - at
  {
    var n := CharAt(s, at);
    if n != 0 && at + n <= b {
      LastIsABoundary(s, at + n, b);
    }
  }

  lemma {:induction false} EndIsLast(s: seq<Byte>, at: nat)
    requires at <= |s| && TextFrom(s, at)
    ensures LastFrom(s, at, |s|) == |s|
    decreases |s| - at
  {
    if at < |s| { EndIsLast(s, at + CharAt(s, at)); }
  }

  // ---- What is shown -----------------------------------------------------------------------------

  predicate Readable(file: File) {
    IsText(file.bytes) && !file.named
  }

  /** A window far wider than a character always shows some text, and no newline
      in it is lost to the trimming at its ends. */
  lemma WindowShows(file: File, a: nat, len: nat)
    requires Readable(file) && len > 6 && a + len <= |file.bytes|
    ensures var i, j := NextBoundary(file.bytes, a), LastBoundary(file.bytes, a + len);
            && a <= i < j <= a + len
            && SliceAt(file, a, len) == Ok(file.bytes[i..j])
            && NoNewline(file.bytes, a, i) && NoNewline(file.bytes, j, a + len)
  {
    var bytes, b := file.bytes, a + len;
    SliceBetweenBoundaries(bytes, a, b);
    forall k | a <= k < b && bytes[k] == NEWLINE
      ensures NextBoundary(bytes, a) <= k < LastBoundary(bytes, b)
    {
      NewlineIsWhole(bytes, 0, a, k, b);
    }
  }

  /** Where the head stops: at the last newline of its window, or where the
      window has none, at its last boundary. The text is all of the window but a
      few bytes at its ends, none of them a newline. */
  lemma HeadStops(bytes: seq<Byte>, a: nat, i: nat, j: nat, b: nat) returns (stop: nat)
    requires a <= i < j <= b <= |bytes| && NoNewline(bytes, a, i) && NoNewline(bytes, j, b)
    ensures i <= stop <= b && WholeLines(bytes[i..j], false) == bytes[i..stop]
    ensures NoNewline(bytes[i..j], 0, j - i) <==> NoNewline(bytes, a, b)
    ensures if NoNewline(bytes, a, b) then i < stop == j
            else stop < b && bytes[stop] == NEWLINE && NoNewline(bytes, stop + 1, b)
  {
    var text := bytes[i..j];
    assert forall k :: i <= k < j ==> bytes[k] == text[k - i];
    match LastNewline(text, |text|)
    case None => stop := j;
    case Some(at) => stop := i + at;
  }

  /** Where the tail starts: after the first newline of its window, or where the
      window has none, at its first boundary. */
  lemma TailStarts(bytes: seq<Byte>, a: nat, i: nat) returns (start: nat)
    requires a <= i <= |bytes| && NoNewline(bytes, a, i)
    ensures a <= start <= |bytes| && WholeLines(bytes[i..], true) == bytes[start..]
    ensures NoNewline(bytes[i..], 0, |bytes| - i) <==> NoNewline(bytes, a, |bytes|)
    ensures if NoNewline(bytes, a, |bytes|) then start == i
            else start > a && bytes[start - 1] == NEWLINE && NoNewline(bytes, a, start - 1)
  {
    var text := bytes[i..];
    assert forall k :: i <= k < |bytes| ==> bytes[k] == text[k - i];
    match FirstNewline(text, 0)
    case None => start := i;
    case Some(at) => start := i + at + 1;
  }

  predicate TailHasNewline(bytes: seq<Byte>)
    requires TAIL_LEN <= |bytes|
  {
    !NoNewline(bytes, |bytes| - TAIL_LEN, |bytes|)
  }

  /** What a window begins with is left out up to its first newline; where it has
      none, up to its first boundary. */
  predicate DropsFirstLine(bytes: seq<Byte>, window: nat, start: nat)
    requires IsText(bytes) && window <= |bytes|
  {
    && window <= start <= |bytes|
    && if NoNewline(bytes, window, |bytes|) then start == NextBoundary(bytes, window)
       else window < start && bytes[start - 1] == NEWLINE && NoNewline(bytes, window, start - 1)
  }

  /** What a reply to a long text is, in the file's own terms: the head is the
      bytes from `at` to `stop`, the tail those from `start`, all of its window but
      the first line of it. */
  predicate Shows(bytes: seq<Byte>, offset: nat, r: Reply, at: nat, stop: nat, start: nat)
    requires IsText(bytes) && offset + READ_BUDGET < |bytes|
  {
    var size, blank := |bytes|, NoNewline(bytes, offset, offset + HEAD_LEN);
    && offset <= at <= stop <= offset + HEAD_LEN <= size - TAIL_LEN && DropsFirstLine(bytes, size - TAIL_LEN, start)
    && (if blank then at < stop
        else stop < offset + HEAD_LEN && bytes[stop] == NEWLINE && NoNewline(bytes, stop + 1, offset + HEAD_LEN))
    && r == if blank && !TailHasNewline(bytes) then OneLine(size)
            else BothEnds(bytes[at..stop], size - TAIL_LEN - (offset + (stop - at)), offset + (stop - at), bytes[start..])
  }

  lemma BothEndsGiven(bytes: seq<Byte>, offset: nat, at: nat, j: nat, tailAt: nat)
    returns (stop: nat, start: nat)
    requires IsText(bytes) && offset + READ_BUDGET < |bytes| && offset <= at < j <= offset + HEAD_LEN
    requires NoNewline(bytes, offset, at) && NoNewline(bytes, j, offset + HEAD_LEN)
    requires |bytes| - TAIL_LEN <= tailAt == NextBoundary(bytes, |bytes| - TAIL_LEN) <= |bytes|
    requires NoNewline(bytes, |bytes| - TAIL_LEN, tailAt)
    ensures Shows(bytes, offset, BothEndsOf(|bytes|, offset, Ok(bytes[at..j]), Ok(bytes[tailAt..])), at, stop, start)
    ensures NoNewline(bytes, offset, offset + HEAD_LEN) ==> stop == j
  {
    stop := HeadStops(bytes, offset, at, j, offset + HEAD_LEN);
    start := TailStarts(bytes, |bytes| - TAIL_LEN, tailAt);
  }

  lemma TailWindowShows(file: File)
    requires Readable(file) && TAIL_LEN < |file.bytes|
    ensures var a, size := |file.bytes| - TAIL_LEN, |file.bytes|;
            var i := NextBoundary(file.bytes, a);
            a <= i <= size && NoNewline(file.bytes, a, i) && SliceAt(file, a, TAIL_LEN) == Ok(file.bytes[i..])
  {
    WindowShows(file, |file.bytes| - TAIL_LEN, TAIL_LEN);
    EndIsLast(file.bytes, 0);
    var i := NextBoundary(file.bytes, |file.bytes| - TAIL_LEN);
    assert file.bytes[i..] == file.bytes[i..|file.bytes|];
  }

  lemma ReadsTwoWindows(file: File, offset: nat, head: seq<Byte>, tail: seq<Byte>)
    requires offset + READ_BUDGET < |file.bytes|
    requires SliceAt(file, offset, HEAD_LEN) == Ok(head)
    requires SliceAt(file, |file.bytes| - TAIL_LEN, TAIL_LEN) == Ok(tail)
    ensures ReadFrom(file, offset) == BothEndsOf(|file.bytes|, offset, Ok(head), Ok(tail))
  {
  }

  lemma StopIsABoundary(bytes: seq<Byte>, offset: nat, stop: nat)
    requires IsText(bytes) && offset + HEAD_LEN <= |bytes| && offset <= stop <= offset + HEAD_LEN
    requires if NoNewline(bytes, offset, offset + HEAD_LEN) then stop == LastBoundary(bytes, offset + HEAD_LEN)
             else stop < offset + HEAD_LEN && bytes[stop] == NEWLINE
    ensures IsBoundary(bytes, stop)
  {
    if NoNewline(bytes, offset, offset + HEAD_LEN) {
      LastIsABoundary(bytes, 0, offset + HEAD_LEN);
    } else {
      NewlineIsWhole(bytes, 0, stop, stop, stop + 1);
    }
  }

  /** Both ends of a long text: the head is the bytes up to the offset named
      (from the first boundary at the offset asked for), the two windows never
      overlap, and what is left out is said to the byte, but for what the tail
      drops of its first line. */
  lemma BothEndsAreTheFiles(file: File, offset: nat) returns (stop: nat, start: nat)
    requires Readable(file) && offset + READ_BUDGET < |file.bytes|
    ensures Shows(file.bytes, offset, ReadFrom(file, offset), NextBoundary(file.bytes, offset), stop, start)
    ensures IsBoundary(file.bytes, stop)
  {
    hide SliceAt, ReadFrom, BothEndsOf, Shows, IsBoundary, LastBoundary, NextBoundary;
    var bytes := file.bytes;
    WindowShows(file, offset, HEAD_LEN);
    TailWindowShows(file);
    var i, j, k := NextBoundary(bytes, offset), LastBoundary(bytes, offset + HEAD_LEN), NextBoundary(bytes, |bytes| - TAIL_LEN);
    stop, start := BothEndsGiven(bytes, offset, i, j, k);
    ReadsTwoWindows(file, offset, bytes[i..j], bytes[k..]);
    StopIsABoundary(bytes, offset, stop);
  }

  /** A file named as binary is not handed over from its beginning, and is from
      anywhere else: a read of it is refused where it would show the beginning, and
      elsewhere shows what it would of any file. */
  lemma ANamedFile(bytes: seq<Byte>, offset: nat)
    ensures ReadFrom(File(bytes, true), 0) == NotRead(HostRefused)
    ensures offset > 0 ==> ReadFrom(File(bytes, true), offset) == ReadFrom(File(bytes, false), offset)
    ensures ReadEnd(File(bytes, true)) == if |bytes| <= 32768 then NotRead(HostRefused) else ReadEnd(File(bytes, false))
  {
    hide SliceAt, SliceOf, BothEndsOf, AllOf, EndOf;
    var size := |bytes|;
    OfANamedFile(bytes, 0, HEAD_LEN);
    OfANamedFile(bytes, 0, READ_BUDGET);
    OfANamedFile(bytes, 0, if size == 0 then 1 else size);
    OfANamedFile(bytes, offset, HEAD_LEN);
    OfANamedFile(bytes, offset, if size <= offset then 1 else size - offset);
    if size > READ_BUDGET {
      OfANamedFile(bytes, size - TAIL_LEN, TAIL_LEN);
      OfANamedFile(bytes, size - READ_BUDGET, READ_BUDGET);
    }
    RefusalsAreTold(size, 0);
  }

  lemma OfANamedFile(bytes: seq<Byte>, at: nat, len: nat)
    ensures SliceAt(File(bytes, true), at, len) == if at == 0 then Err(HostRefused) else SliceAt(File(bytes, false), at, len)
  {
  }

  lemma RefusalsAreTold(size: nat, at: nat)
    ensures AllOf(at, Err(HostRefused)) == EndOf(at, Err(HostRefused)) == NotRead(HostRefused)
    ensures forall tail :: size >= TAIL_LEN ==> BothEndsOf(size, at, Err(HostRefused), tail) == NotRead(HostRefused)
  {
  }

  /** And any read is refused where a window it would show is no text: with both ends
      to show, either. */
  lemma ReadsAreRefusedIff(file: File, offset: nat)
    requires !file.named
    ensures var size := |file.bytes|;
            && (size <= offset + 32768 ==>
                  (ReadFrom(file, offset).NotRead? <==> SliceOf(file.bytes[Min(offset, size)..]).Err?))
            && (offset + 32768 < size ==>
                  (ReadFrom(file, offset).NotRead? <==>
                     SliceOf(file.bytes[offset..offset + HEAD_LEN]).Err? || SliceOf(file.bytes[size - TAIL_LEN..]).Err?))
            && (ReadEnd(file).NotRead? <==> SliceOf(file.bytes[if size <= 32768 then 0 else size - 32768..]).Err?)
  {
    hide SliceOf, WholeLines, NoNewline;
    var bytes, size := file.bytes, |file.bytes|;
    var end := if size <= 32768 then 0 else size - 32768;
    RangeToTheEnd(bytes, end, 32768);
    if offset + 32768 < size {
      RangeToTheEnd(bytes, size - TAIL_LEN, TAIL_LEN);
    } else {
      var at := Min(offset, size);
      RangeToTheEnd(bytes, at, if offset < size then size - offset else 1);
      assert size <= offset ==> Range(bytes, offset, 1) == Range(bytes, at, 1);
    }
  }

  lemma RangeToTheEnd(bytes: seq<Byte>, at: nat, len: nat)
    requires at <= |bytes| <= at + len
    ensures Range(bytes, at, len) == bytes[at..]
  {
  }

  lemma SliceToTheEnd(bytes: seq<Byte>, offset: nat)
    requires IsText(bytes) && offset <= |bytes|
    ensures SliceOf(bytes[offset..|bytes|]) == Ok(bytes[NextBoundary(bytes, offset)..])
  {
    SliceBetweenBoundaries(bytes, offset, |bytes|);
    EndIsLast(bytes, 0);
    var i := NextBoundary(bytes, offset);
    assert bytes[i..|bytes|] == bytes[i..];
  }

  /** What is left, where it fits: all of it from the first boundary on, and an
      offset past the end shows nothing. */
  lemma RestIsShown(file: File, offset: nat)
    requires Readable(file) && |file.bytes| <= offset + READ_BUDGET
    ensures ReadFrom(file, offset) ==
              All(offset, if offset <= |file.bytes| then file.bytes[NextBoundary(file.bytes, offset)..] else [])
  {
    var bytes, size := file.bytes, |file.bytes|;
    SliceToTheEnd(bytes, if offset <= size then offset else size);
    if offset < size {
      assert Range(bytes, offset, size - offset) == bytes[offset..size];
    } else {
      assert Range(bytes, offset, 1) == bytes[size..size];
    }
  }

  lemma EndWindow(file: File, earlier: nat) returns (i: nat)
    requires Readable(file)
    requires earlier == if |file.bytes| <= READ_BUDGET then 0 else |file.bytes| - READ_BUDGET
    ensures earlier <= i == NextBoundary(file.bytes, earlier) <= |file.bytes|
    ensures NoNewline(file.bytes, earlier, i) && (earlier == 0 ==> i == 0)
    ensures SliceAt(file, earlier, READ_BUDGET) == Ok(file.bytes[i..])
  {
    var bytes, size := file.bytes, |file.bytes|;
    i := NextBoundary(bytes, earlier);
    SliceToTheEnd(bytes, earlier);
    assert Range(bytes, earlier, READ_BUDGET) == bytes[earlier..size];
    if earlier > 0 { WindowShows(file, earlier, READ_BUDGET); }
  }

  lemma EndGiven(bytes: seq<Byte>, earlier: nat, i: nat) returns (start: nat)
    requires IsText(bytes) && earlier <= |bytes| && earlier <= i == NextBoundary(bytes, earlier) <= |bytes| && NoNewline(bytes, earlier, i) && (earlier == 0 ==> i == 0)
    ensures start <= |bytes| && EndOf(earlier, Ok(bytes[i..])) == End(earlier, bytes[start..])
    ensures if earlier == 0 then start == 0 else DropsFirstLine(bytes, earlier, start)
  {
    hide NoNewline, WholeLines;
    if earlier == 0 {
      start := 0;
    } else {
      start := TailStarts(bytes, earlier, i);
    }
  }

  /** The end of a file: all of a file that fits, and of another all of the budget's
      last bytes but the first, possibly partial, line of them. */
  lemma EndIsTheFiles(file: File) returns (start: nat)
    requires Readable(file)
    ensures var size := |file.bytes|;
            var earlier := if size <= READ_BUDGET then 0 else size - READ_BUDGET;
            && start <= size && ReadEnd(file) == End(earlier, file.bytes[start..])
            && if earlier == 0 then start == 0 else DropsFirstLine(file.bytes, earlier, start)
  {
    var earlier := if |file.bytes| <= READ_BUDGET then 0 else |file.bytes| - READ_BUDGET;
    hide SliceAt, EndOf, NextBoundary, DropsFirstLine;
    var i := EndWindow(file, earlier);
    start := EndGiven(file.bytes, earlier, i);
  }

  // ---- Reading on from the offset named --------------------------------------------------------

  /** Reads from an offset, and on from each offset named, until the rest fits;
      nothing where a reply names no offset further on. */
  function Follow(file: File, offset: nat): Option<seq<seq<Byte>>>
    decreases |file.bytes| - offset
  {
    match ReadFrom(file, offset)
    case All(_, text) => Some([text])
    case BothEnds(head, _, from, _) =>
      if from <= offset || |file.bytes| < from then None
      else
        (match Follow(file, from)
         case None => None
         case Some(rest) => Some([head] + rest))
    case _ => None
  }

  function Joined(pieces: seq<seq<Byte>>): seq<Byte> {
    if pieces == [] then [] else pieces[0] + Joined(pieces[1..])
  }

  /** A newline followed by a line longer than a head. */
  predicate BlockedAt(bytes: seq<Byte>, p: nat) {
    p + READ_BUDGET < |bytes| && bytes[p] == NEWLINE && NoNewline(bytes, p + 1, p + HEAD_LEN)
  }

  /** No newline in either end. */
  predicate NothingToCut(bytes: seq<Byte>) {
    READ_BUDGET < |bytes| && NoNewline(bytes, 0, HEAD_LEN) && !TailHasNewline(bytes)
  }

  /** The offset named is further on, except where the read began at a newline
      followed by a line longer than a head: then it is the offset asked for. */
  lemma HintMovesOnIff(file: File, offset: nat)
    requires Readable(file) && offset + READ_BUDGET < |file.bytes| && IsBoundary(file.bytes, offset)
    ensures var r := ReadFrom(file, offset);
            && (r.OneLine? || r.BothEnds?)
            && (r.BothEnds? ==> && offset <= r.from <= |file.bytes| && r.head == file.bytes[offset..r.from]
                                && IsBoundary(file.bytes, r.from)
                                && (offset < r.from <==> !BlockedAt(file.bytes, offset))
                                && r.from + r.skipped == |file.bytes| - TAIL_LEN)
  {
    var stop, start := BothEndsAreTheFiles(file, offset);
  }

  lemma FollowGoesOn(file: File, offset: nat, r: Reply)
    requires r == ReadFrom(file, offset) && !r.All?
    ensures Follow(file, offset) ==
              if r.BothEnds? && offset < r.from <= |file.bytes| && Follow(file, r.from).Some?
              then Some([r.head] + Follow(file, r.from).value) else None
  {
  }

  lemma JoinedGrows(bytes: seq<Byte>, offset: nat, from: nat, rest: seq<seq<Byte>>)
    requires offset <= from <= |bytes| && Joined(rest) == bytes[from..]
    ensures Joined([bytes[offset..from]] + rest) == bytes[offset..]
  {
    assert ([bytes[offset..from]] + rest)[1..] == rest;
  }

  /** Whatever the offsets named led to, the pieces are the file, each byte once. */
  lemma {:induction false} PiecesAreTheFile(file: File, offset: nat)
    requires Readable(file) && IsBoundary(file.bytes, offset) && Follow(file, offset).Some?
    ensures Joined(Follow(file, offset).value) == file.bytes[offset..]
    decreases |file.bytes| - offset
  {
    if |file.bytes| <= offset + READ_BUDGET {
      RestIsShown(file, offset);
      assert Joined([file.bytes[offset..]]) == file.bytes[offset..];
    } else {
      HintMovesOnIff(file, offset);
      var r := ReadFrom(file, offset);
      FollowGoesOn(file, offset, r);
      PiecesAreTheFile(file, r.from);
      JoinedGrows(file.bytes, offset, r.from, Follow(file, r.from).value);
    }
  }

  lemma {:induction false} FollowingEnds(file: File, offset: nat)
    requires Readable(file) && IsBoundary(file.bytes, offset)
    requires forall p :: !BlockedAt(file.bytes, p)
    requires offset + READ_BUDGET < |file.bytes| ==>
               TailHasNewline(file.bytes) || !NoNewline(file.bytes, offset, offset + HEAD_LEN)
    ensures Follow(file, offset).Some?
    decreases |file.bytes| - offset
  {
    if |file.bytes| <= offset + READ_BUDGET {
      RestIsShown(file, offset);
    } else {
      var stop, start := BothEndsAreTheFiles(file, offset);
      HintMovesOnIff(file, offset);
      FollowGoesOn(file, offset, ReadFrom(file, offset));
      FollowingEnds(file, stop);
    }
  }

  lemma {:induction false} FollowingIsBlocked(file: File, offset: nat, p: nat)
    requires Readable(file) && IsBoundary(file.bytes, offset) && offset <= p && BlockedAt(file.bytes, p)
    ensures Follow(file, offset).None?
    decreases |file.bytes| - offset
  {
    var r := ReadFrom(file, offset);
    HintMovesOnIff(file, offset);
    FollowGoesOn(file, offset, r);
    if r.BothEnds? && offset < r.from {
      hide ReadFrom, Follow, BlockedAt, IsBoundary;
      StopsBeforeABlock(file, offset, p);
      FollowingIsBlocked(file, r.from, p);
    }
  }

  /** No offset named is past a newline that blocks. */
  lemma StopsBeforeABlock(file: File, offset: nat, p: nat)
    requires Readable(file) && offset <= p && BlockedAt(file.bytes, p)
    ensures ReadFrom(file, offset).BothEnds? ==> ReadFrom(file, offset).from <= p
  {
    hide ReadFrom;
    var stop, start := BothEndsAreTheFiles(file, offset);
  }

  /** Reading on from the beginning of a text gets to its end exactly when no
      newline in it is followed by a line longer than a head (short of the last
      part, which is shown whole), and there is a newline in one end or the
      other. */
  lemma FollowingEndsIff(file: File)
    requires Readable(file)
    ensures Follow(file, 0).Some? <==>
              !NothingToCut(file.bytes) && forall p :: !BlockedAt(file.bytes, p)
  {
    if p :| BlockedAt(file.bytes, p) {
      FollowingIsBlocked(file, 0, p);
    } else if NothingToCut(file.bytes) {
      var stop, start := BothEndsAreTheFiles(file, 0);
    } else {
      FollowingEnds(file, 0);
    }
  }

  /** The line that begins at a byte, or goes on there, ends within a head, with
      room for the newline before it. */
  predicate LineEndsSoon(bytes: seq<Byte>, p: nat) {
    p + HEAD_LEN - 1 <= |bytes| ==> !NoNewline(bytes, p, p + HEAD_LEN - 1)
  }

  ghost predicate LinesFit(bytes: seq<Byte>) {
    forall p: nat :: LineEndsSoon(bytes, p)
  }

  /** The main claim: a text whose lines all fit is read to its end by following
      the offsets named, and what was shown on the way is exactly the text. */
  lemma FollowingReadsTheFile(file: File)
    requires Readable(file) && LinesFit(file.bytes)
    ensures Follow(file, 0).Some? && Joined(Follow(file, 0).value) == file.bytes
  {
    var bytes := file.bytes;
    forall p: nat ensures !BlockedAt(bytes, p) {
      assert LineEndsSoon(bytes, p + 1);
    }
    assert LineEndsSoon(bytes, 0);
    FollowingEndsIff(file);
    PiecesAreTheFile(file, 0);
    assert bytes[0..] == bytes;
  }

  lemma {:induction false} AsciiIsText(s: seq<Byte>, at: nat)
    requires at <= |s| && forall k :: 0 <= k < |s| ==> s[k] <= 0x7F
    ensures TextFrom(s, at)
    decreases |s| - at
  {
    if at < |s| { AsciiIsText(s, at + 1); }
  }

  /** A newline and then one long line: the offset named is the one just read
      from, again and again, though the file has lines and a tail to cut. */
  lemma ALongLineNamesItsOwnOffset()
    ensures var file := File([NEWLINE] + seq(40000, k => 65) + [NEWLINE], false);
            && Readable(file) && !NothingToCut(file.bytes) && Follow(file, 0).None?
            && ReadFrom(file, 0).BothEnds? && ReadFrom(file, 0).from == 0
  {
    var bytes := [NEWLINE] + seq(40000, k => 65) + [NEWLINE];
    var file := File(bytes, false);
    AsciiIsText(bytes, 0);
    assert BlockedAt(bytes, 0) && bytes[0] == NEWLINE;
    FollowingIsBlocked(file, 0, 0);
    var stop, start := BothEndsAreTheFiles(file, 0);
    HintMovesOnIff(file, 0);
  }
}
