/** Text as bytes: UTF-8 as sections 3 and 4 of RFC 3629 define it, and what the
    default agent makes of a range of bytes that may begin and end inside a
    character. */
module Utf8 {
  import opened Basics

  type Byte = b: nat | b < 256

  /** A byte that continues a character: 10xxxxxx. */
  predicate IsTail(b: Byte) {
    0x80 <= b <= 0xBF
  }

  predicate TailsFrom(s: seq<Byte>, from: nat, to: nat) {
    to <= |s| && forall i :: from <= i < to ==> IsTail(s[i])
  }

  /** The length of the character that begins at a byte, by the grammar of
      section 4; zero where none does. */
  function CharAt(s: seq<Byte>, at: nat): (n: nat)
    requires at <= |s|
    ensures n <= 4 && at + n <= |s|
  {
    var left := |s| - at;
    if left == 0 then 0
    else if s[at] <= 0x7F then 1
    else if 0xC2 <= s[at] <= 0xDF then
      if left >= 2 && IsTail(s[at + 1]) then 2 else 0
    else if 0xE0 <= s[at] <= 0xEF then
      if left >= 3 && IsTail(s[at + 1]) && IsTail(s[at + 2]) &&
         (s[at] == 0xE0 ==> s[at + 1] >= 0xA0) && (s[at] == 0xED ==> s[at + 1] <= 0x9F) then 3 else 0
    else if 0xF0 <= s[at] <= 0xF4 then
      if left >= 4 && IsTail(s[at + 1]) && IsTail(s[at + 2]) && IsTail(s[at + 3]) &&
         (s[at] == 0xF0 ==> s[at + 1] >= 0x90) && (s[at] == 0xF4 ==> s[at + 1] <= 0x8F) then 4 else 0
    else 0
  }

  // ---- What the grammar means ----------------------------------------------------------------

  /** The code points that are characters: no halves of a pair (section 3). */
  predicate Scalar(point: nat) {
    point < 0xD800 || 0xE000 <= point <= 0x10FFFF
  }

  /** A character's bytes: its bits, six to each byte but the first (section 3). */
  function Encoded(point: nat): (bytes: seq<Byte>)
    requires Scalar(point)
  {
    if point < 0x80 then [point]
    else if point < 0x800 then [0xC0 + point / 64, 0x80 + point % 64]
    else if point < 0x1_0000 then [0xE0 + point / 64 / 64, 0x80 + point / 64 % 64, 0x80 + point % 64]
    else [0xF0 + point / 64 / 64 / 64, 0x80 + point / 64 / 64 % 64, 0x80 + point / 64 % 64, 0x80 + point % 64]
  }

  /** The code point that a character's bytes stand for. */
  function PointAt(s: seq<Byte>, at: nat): (point: nat)
    requires at <= |s| && CharAt(s, at) > 0
  {
    var n := CharAt(s, at);
    if n == 1 then s[at]
    else if n == 2 then More(s[at] as int - 0xC0, s[at + 1])
    else if n == 3 then More(More(s[at] as int - 0xE0, s[at + 1]), s[at + 2])
    else More(More(More(s[at] as int - 0xF0, s[at + 1]), s[at + 2]), s[at + 3])
  }

  /** Six bits more. */
  function More(high: nat, tail: Byte): (point: nat)
    requires IsTail(tail)
    ensures point / 64 == high && point % 64 == tail as int - 0x80
  {
    high * 64 + (tail as int - 0x80)
  }

  lemma EncodedIsAChar(s: seq<Byte>, at: nat, point: nat)
    requires Scalar(point) && at + |Encoded(point)| <= |s| && s[at..at + |Encoded(point)|] == Encoded(point)
    ensures CharAt(s, at) == |Encoded(point)|
  {
    var bytes := Encoded(point);
    assert forall i :: 0 <= i < |bytes| ==> s[at + i] == bytes[i];
  }

  lemma ACharIsEncoded(s: seq<Byte>, at: nat)
    requires at <= |s| && CharAt(s, at) > 0
    ensures Scalar(PointAt(s, at)) && |Encoded(PointAt(s, at))| == CharAt(s, at)
    ensures forall i :: 0 <= i < CharAt(s, at) ==> s[at + i] == Encoded(PointAt(s, at))[i]
  {
  }

  /** Some character has these bytes. */
  predicate Encodes(point: nat, bytes: seq<Byte>) {
    Scalar(point) && Encoded(point) == bytes
  }

  /** The grammar of section 4 is the encoding of section 3: where it finds a
      character, those bytes encode one, and where bytes encode one, it finds it. */
  lemma CharAtIff(s: seq<Byte>, at: nat, n: nat)
    requires at + n <= |s| && n > 0
    ensures var bytes := s[at..at + n];
            CharAt(s, at) == n <==> exists point: nat :: Encodes(point, bytes)
  {
    hide CharAt, Encoded, PointAt;
    var bytes := s[at..at + n];
    if CharAt(s, at) == n {
      ACharIsEncoded(s, at);
      assert bytes == Encoded(PointAt(s, at));
      assert Encodes(PointAt(s, at), bytes);
    }
    forall point: nat | Encodes(point, bytes) ensures CharAt(s, at) == n {
      EncodedIsAChar(s, at, point);
    }
  }

  /** How far a byte string is valid from a byte on, as a decoder reports it. */
  function ValidFrom(s: seq<Byte>, at: nat): (to: nat)
    requires at <= |s|
    ensures at <= to <= |s|
    decreases |s| - at
  {
    var n := CharAt(s, at);
    if n == 0 then at else ValidFrom(s, at + n)
  }

  predicate IsText(s: seq<Byte>) {
    TextFrom(s, 0)
  }

  predicate TextFrom(s: seq<Byte>, at: nat)
    requires at <= |s|
  {
    ValidFrom(s, at) == |s|
  }

  /** The characters of a text from `at` on that lie wholly inside a range of
      its bytes, joined. */
  function Inside(s: seq<Byte>, at: nat, from: nat, to: nat): seq<Byte>
    requires at <= |s| && TextFrom(s, at)
    decreases |s| - at
  {
    if at == |s| then []
    else
      var n := CharAt(s, at);
      (if from <= at && at + n <= to then s[at..at + n] else []) + Inside(s, at + n, from, to)
  }

  /** The first boundary between characters at or after byte `a`, looking from
      the boundary `at`. */
  function NextFrom(s: seq<Byte>, at: nat, a: nat): (i: nat)
    requires at <= |s| && a <= |s| && TextFrom(s, at)
    ensures at <= i <= |s| && a <= i
    decreases |s| - at
  {
    if a <= at then at else NextFrom(s, at + CharAt(s, at), a)
  }

  function NextBoundary(s: seq<Byte>, a: nat): nat
    requires IsText(s) && a <= |s|
  {
    NextFrom(s, 0, a)
  }

  /** The last boundary at or before byte `b`, looking from the boundary `at`. */
  function LastFrom(s: seq<Byte>, at: nat, b: nat): (j: nat)
    requires at <= b <= |s|
    ensures at <= j <= b
    decreases b - at
  {
    var n := CharAt(s, at);
    if n == 0 || b < at + n then at else LastFrom(s, at + n, b)
  }

  function LastBoundary(s: seq<Byte>, b: nat): nat
    requires b <= |s|
  {
    LastFrom(s, 0, b)
  }

  // ---- What the agent makes of a range ---------------------------------------------------

  datatype SliceError = NotText | HostRefused

  /** The bytes that continue a character begun before the range: at most three
      are dropped. */
  function LeadingTails(bytes: seq<Byte>, dropped: nat): (n: nat)
    requires dropped <= |bytes| && dropped <= 3
    ensures dropped <= n <= |bytes| && n <= 3
    decreases 3 - dropped
  {
    if dropped < |bytes| && dropped < 3 && IsTail(bytes[dropped]) then LeadingTails(bytes, dropped + 1) else dropped
  }

  /** What trails off is dropped; what is no text at all is refused. */
  function TrimEnd(rest: seq<Byte>): Result<seq<Byte>, SliceError> {
    var end := ValidFrom(rest, 0);
    if end == |rest| then Ok(rest)
    else if end == 0 then Err(NotText)
    else Ok(rest[..end])
  }

  /** The text of a range: what leads in to a character is dropped, then what
      trails off. */
  function SliceOf(bytes: seq<Byte>): Result<seq<Byte>, SliceError> {
    TrimEnd(bytes[LeadingTails(bytes, 0)..])
  }

  /** The decoder: whether the bytes are text, and if not, how far they are. */
  method FromUtf8(bytes: seq<Byte>) returns (ok: bool, validUpTo: nat)
    ensures ok <==> IsText(bytes)
    ensures validUpTo == ValidFrom(bytes, 0)
  {
    validUpTo := 0;
    var n := CharAt(bytes, 0);
    while n != 0
      invariant validUpTo <= |bytes| && n == CharAt(bytes, validUpTo)
      invariant ValidFrom(bytes, 0) == ValidFrom(bytes, validUpTo)
      decreases |bytes| - validUpTo
    {
      validUpTo := validUpTo + n;
      n := CharAt(bytes, validUpTo);
    }
    ok := validUpTo == |bytes|;
  }

  method Slice(bytes: seq<Byte>) returns (text: Result<seq<Byte>, SliceError>)
    ensures text == SliceOf(bytes)
  {
    var start := 0;
    while start < |bytes| && start < 3 && IsTail(bytes[start])
      invariant start <= |bytes| && start <= 3
      invariant LeadingTails(bytes, 0) == LeadingTails(bytes, start)
    {
      start := start + 1;
    }
    var rest := bytes[start..];
    var ok, end := FromUtf8(rest);
    if ok {
      return Ok(rest);
    }
    if end == 0 {
      return Err(NotText);
    }
    return Ok(rest[..end]);
  }

  // ---- Boundaries ----------------------------------------------------------------------------

  lemma CharShape(s: seq<Byte>, at: nat)
    requires at <= |s| && CharAt(s, at) > 0
    ensures !IsTail(s[at]) && TailsFrom(s, at + 1, at + CharAt(s, at))
    ensures s[at] <= 0x7F ==> CharAt(s, at) == 1
  {
  }

  /** A character is decided by its own bytes: seen through a window it is the
      same character, or where the window cuts it, none. */
  lemma CharInWindow(s: seq<Byte>, i: nat, b: nat, at: nat)
    requires i <= at <= b <= |s|
    ensures CharAt(s[i..b], at - i) == if at + CharAt(s, at) <= b then CharAt(s, at) else 0
  {
    var w := s[i..b];
    assert forall k :: 0 <= k < |w| ==> w[k] == s[i + k];
  }

  /** From any byte of a text at most three bytes lead in to the next boundary,
      all of them continuing a character; what begins there is text. */
  lemma {:induction false} NextIsNear(s: seq<Byte>, at: nat, a: nat)
    requires at <= a <= |s| && TextFrom(s, at)
    ensures var i := NextFrom(s, at, a);
            i - a <= 3 && TailsFrom(s, a, i) && (i < |s| ==> !IsTail(s[i])) && TextFrom(s, i)
    decreases |s| - at
  {
    if at < |s| {
      CharShape(s, at);
      var next := at + CharAt(s, at);
      if at < a {
        if next < a {
          NextIsNear(s, next, a);
        } else if next < |s| {
          assert TextFrom(s, next) && ValidFrom(s, next) == |s|;
          assert CharAt(s, next) > 0;
          CharShape(s, next);
        }
      }
    }
  }

  /** A text cut anywhere is valid up to the last boundary before the cut. */
  lemma {:induction false} WindowIsValidTo(s: seq<Byte>, i: nat, at: nat, b: nat)
    requires i <= at <= b <= |s|
    ensures i + ValidFrom(s[i..b], at - i) == LastFrom(s, at, b)
    decreases b - at
  {
    CharInWindow(s, i, b, at);
    var n := CharAt(s, at);
    if n != 0 && at + n <= b {
      WindowIsValidTo(s, i, at + n, b);
    }
  }

  lemma {:induction false} LastIsNear(s: seq<Byte>, at: nat, b: nat)
    requires at <= b <= |s| && TextFrom(s, at)
    ensures var j := LastFrom(s, at, b);
            b - j <= 3 && TextFrom(s, j)
    decreases b - at
  {
    var n := CharAt(s, at);
    if n != 0 && at + n <= b {
      LastIsNear(s, at + n, b);
    }
  }

  /** The last boundary is the same, from whichever boundary before it one looks. */
  lemma {:induction false} LastFromNext(s: seq<Byte>, at: nat, a: nat, b: nat)
    requires at <= |s| && TextFrom(s, at) && a <= |s| && NextFrom(s, at, a) <= b <= |s|
    ensures LastFrom(s, NextFrom(s, at, a), b) == LastFrom(s, at, b)
    decreases |s| - at
  {
    if at < a {
      LastFromNext(s, at + CharAt(s, at), a, b);
    }
  }

  lemma {:induction false} LeadingTailsAre(bytes: seq<Byte>, dropped: nat, n: nat)
    requires dropped <= n <= 3 && n <= |bytes| && TailsFrom(bytes, dropped, n)
    requires n < |bytes| && n < 3 ==> !IsTail(bytes[n])
    ensures LeadingTails(bytes, dropped) == n
    decreases n - dropped
  {
    if dropped < n {
      LeadingTailsAre(bytes, dropped + 1, n);
    }
  }

  lemma RangeLeadsIn(file: seq<Byte>, a: nat, b: nat)
    requires IsText(file) && a <= b <= |file|
    ensures var i := NextBoundary(file, a);
            LeadingTails(file[a..b], 0) == (if i <= b then i else b) - a
  {
    var window, i := file[a..b], NextBoundary(file, a);
    NextIsNear(file, 0, a);
    var n := (if i <= b then i else b) - a;
    assert forall k :: 0 <= k < |window| ==> window[k] == file[a + k];
    LeadingTailsAre(window, 0, n);
  }

  lemma RangeFromABoundary(file: seq<Byte>, a: nat, b: nat)
    requires IsText(file) && a <= |file| && NextBoundary(file, a) <= b <= |file|
    ensures var i := NextBoundary(file, a);
            i + ValidFrom(file[i..b], 0) == LastBoundary(file, b)
  {
    WindowIsValidTo(file, NextBoundary(file, a), NextBoundary(file, a), b);
    LastFromNext(file, 0, a, b);
  }

  lemma TrimmedBetween(file: seq<Byte>, i: nat, j: nat, b: nat)
    requires i <= j <= b <= |file| && i + ValidFrom(file[i..b], 0) == j
    ensures TrimEnd(file[i..b]) == if i < j then Ok(file[i..j]) else if b <= i then Ok([]) else Err(NotText)
  {
    assert file[i..b][..j - i] == file[i..j];
  }

  lemma SliceFrom(file: seq<Byte>, a: nat, start: nat, b: nat)
    requires a <= start <= b <= |file| && a + LeadingTails(file[a..b], 0) == start
    ensures SliceOf(file[a..b]) == TrimEnd(file[start..b])
  {
    assert file[a..b][start - a..] == file[start..b];
  }

  /** The main claim about a range of a text: what comes back is exactly what
      lies between the first boundary in the range and the last, at most three
      bytes short at each end. A range that holds no whole character is empty
      text where it ends before any character in it begins, and otherwise no
      text at all. */
  lemma SliceBetweenBoundaries(file: seq<Byte>, a: nat, b: nat)
    requires IsText(file) && a <= b <= |file|
    ensures var i, j := NextBoundary(file, a), LastBoundary(file, b);
            && i - a <= 3 && b - j <= 3
            && SliceOf(file[a..b]) ==
                 if i < j then Ok(file[i..j])
                 else if b <= i then Ok([])
                 else Err(NotText)
  {
    var i, j := NextBoundary(file, a), LastBoundary(file, b);
    NextIsNear(file, 0, a);
    LastIsNear(file, 0, b);
    RangeLeadsIn(file, a, b);
    if i <= b {
      SliceFrom(file, a, i, b);
      RangeFromABoundary(file, a, b);
      TrimmedBetween(file, i, j, b);
    } else {
      SliceFrom(file, a, b, b);
      TrimmedBetween(file, b, b, b);
    }
  }

  /** What lies between two boundaries. */
  function Between(file: seq<Byte>, i: nat, j: nat): seq<Byte>
    requires j <= |file|
  {
    if i < j then file[i..j] else []
  }

  lemma BetweenGrows(file: seq<Byte>, i: nat, next: nat, j: nat)
    requires i < next <= j <= |file|
    ensures file[i..next] + Between(file, next, j) == Between(file, i, j)
  {
  }

  /** Between the boundaries lie exactly the characters wholly in the range. */
  lemma {:induction false} InsideIsBetween(s: seq<Byte>, at: nat, a: nat, b: nat)
    requires at <= b <= |s| && a <= b && TextFrom(s, at)
    ensures Inside(s, at, a, b) == Between(s, NextFrom(s, at, a), LastFrom(s, at, b))
    decreases |s| - at
  {
    if at < |s| {
      var next := at + CharAt(s, at);
      if next <= b {
        InsideIsBetween(s, next, a, b);
        BetweenGrows(s, at, next, LastFrom(s, next, b));
      } else {
        NothingInside(s, next, a, b);
      }
    }
  }

  lemma {:induction false} NothingInside(s: seq<Byte>, at: nat, from: nat, to: nat)
    requires to < at <= |s| && TextFrom(s, at)
    ensures Inside(s, at, from, to) == []
    decreases |s| - at
  {
    if at < |s| { NothingInside(s, at + CharAt(s, at), from, to); }
  }

  /** So a range that holds a whole character comes back as exactly the
      characters wholly inside it, and loses at most three bytes at each end. */
  lemma SliceIsTheWholeCharacters(file: seq<Byte>, a: nat, b: nat)
    requires IsText(file) && a <= b <= |file|
    requires Inside(file, 0, a, b) != []
    ensures SliceOf(file[a..b]) == Ok(Inside(file, 0, a, b))
    ensures (b - a) - |Inside(file, 0, a, b)| <= 6
  {
    InsideIsBetween(file, 0, a, b);
    SliceBetweenBoundaries(file, a, b);
  }
}
