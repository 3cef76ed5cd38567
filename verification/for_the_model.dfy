/** Cutting a tool's result down to what the model should see: whole lines, up
    to whichever of two ceilings comes first. */
module ForTheModel {
  import opened Utf8

  const MAX_TOOL_LINES: nat := 2000
  const MAX_TOOL_BYTES: nat := 51200
  const NEWLINE: Byte := 10
  const RETURN: Byte := 13

  datatype Shown =
    | Whole(text: seq<Byte>)
    | FirstLineTooLong(length: nat)
    | Cut(kept: seq<Byte>, byLines: bool, lines: nat, totalLines: nat, totalBytes: nat, offset: nat)

  // ---- Lines ----------------------------------------------------------------------------------

  /** Where the line that begins or goes on at a byte has its newline, or the end
      of the text. */
  function NewlineFrom(s: seq<Byte>, at: nat): (k: nat)
    requires at <= |s|
    ensures at <= k <= |s| && (k < |s| ==> s[k] == NEWLINE)
    ensures forall i :: at <= i < k ==> s[i] != NEWLINE
    decreases |s| - at
  {
    if at == |s| || s[at] == NEWLINE then at else NewlineFrom(s, at + 1)
  }

  /** Where the line's text ends: a return before the newline is not part of it,
      while one that ends the text is. */
  function TextEnd(s: seq<Byte>, at: nat): (k: nat)
    requires at < |s|
    ensures at <= k <= NewlineFrom(s, at)
  {
    var k := NewlineFrom(s, at);
    if k < |s| && at < k && s[k - 1] == RETURN then k - 1 else k
  }

  /** Where the next line begins. */
  function Next(s: seq<Byte>, at: nat): (next: nat)
    requires at < |s|
    ensures at < next <= |s| && TextEnd(s, at) <= next
  {
    var k := NewlineFrom(s, at);
    if k == |s| then k else k + 1
  }

  function CountLines(s: seq<Byte>, at: nat): nat
    requires at <= |s|
    decreases |s| - at
  {
    if at == |s| then 0 else 1 + CountLines(s, Next(s, at))
  }

  /** Where the n-th line after `at` begins. */
  function StartOf(s: seq<Byte>, at: nat, n: nat): (start: nat)
    requires at <= |s| && n <= CountLines(s, at)
    ensures at <= start <= |s|
    decreases n
  {
    if n == 0 then at else StartOf(s, Next(s, at), n - 1)
  }

  /** The first n lines, each with a newline after it. */
  function Joined(s: seq<Byte>, at: nat, n: nat): seq<Byte>
    requires at <= |s| && n <= CountLines(s, at)
    decreases n
  {
    if n == 0 then [] else s[at..TextEnd(s, at)] + [NEWLINE] + Joined(s, Next(s, at), n - 1)
  }

  /** How many of the first n lines lost a return before their newline. */
  function Returns(s: seq<Byte>, at: nat, n: nat): nat
    requires at <= |s| && n <= CountLines(s, at)
    decreases n
  {
    if n == 0 then 0
    else (if TextEnd(s, at) < NewlineFrom(s, at) then 1 else 0) + Returns(s, Next(s, at), n - 1)
  }

  /** What ends a line, and is not shown: a newline, with the return before it where
      there is one; the last line may end with the text, and then nothing of it is
      left out. Within the line there is no newline. */
  lemma WhatEndsALine(s: seq<Byte>, at: nat)
    requires at < |s|
    ensures var end, next := TextEnd(s, at), Next(s, at);
            && 10 !in s[at..end]
            && (s[end..next] == [10] || s[end..next] == [13, 10] || (s[end..next] == [] && next == |s|))
            && (s[end..next] == [10] && at < end ==> s[end - 1] != 13)
  {
    var k, end, next := NewlineFrom(s, at), TextEnd(s, at), Next(s, at);
    assert forall i :: 0 <= i < end - at ==> s[at..end][i] == s[at + i];
    if k < |s| && end < k {
      assert s[end..next] == [s[end], s[end + 1]];
    } else if k < |s| {
      assert s[end..next] == [s[end]];
    }
  }

  // ---- The cut -----------------------------------------------------------------------------------

  /** How many more lines are kept. */
  function Keep(s: seq<Byte>, at: nat, kept: nat, lines: nat): (n: nat)
    requires at <= |s|
    ensures n <= CountLines(s, at)
    decreases |s| - at
  {
    if at == |s| then 0
    else
      var length := TextEnd(s, at) - at;
      if lines >= MAX_TOOL_LINES || kept + length + 1 > MAX_TOOL_BYTES then 0
      else 1 + Keep(s, Next(s, at), kept + length + 1, lines + 1)
  }

  function ShowOf(full: seq<Byte>): Shown {
    var totalLines := CountLines(full, 0);
    if totalLines <= MAX_TOOL_LINES && |full| <= MAX_TOOL_BYTES then Whole(full)
    else if full != [] && TextEnd(full, 0) > MAX_TOOL_BYTES then FirstLineTooLong(TextEnd(full, 0))
    else
      var n := Keep(full, 0, 0, 0);
      var kept := Joined(full, 0, n);
      Cut(kept, n >= MAX_TOOL_LINES, n, totalLines, |full|, |kept|)
  }

  /** The lines are counted one by one. */
  method Count(s: seq<Byte>) returns (n: nat)
    ensures n == CountLines(s, 0)
  {
    n := 0;
    var at := 0;
    while at < |s|
      invariant at <= |s| && n + CountLines(s, at) == CountLines(s, 0)
    {
      at := Next(s, at);
      n := n + 1;
    }
  }

  method Show(full: seq<Byte>) returns (shown: Shown)
    ensures shown == ShowOf(full)
  {
    hide Keep, Joined;
    var totalLines := Count(full);
    if totalLines <= MAX_TOOL_LINES && |full| <= MAX_TOOL_BYTES {
      return Whole(full);
    }
    if full != [] && TextEnd(full, 0) > MAX_TOOL_BYTES {
      return FirstLineTooLong(TextEnd(full, 0));
    }
    var kept, lines := KeepLines(full);
    return Cut(kept, lines >= MAX_TOOL_LINES, lines, totalLines, |full|, |kept|);
  }

  /** What is left to do, `lines` lines in. */
  predicate KeptSoFar(s: seq<Byte>, at: nat, kept: seq<Byte>, lines: nat, n: nat) {
    && at <= |s| && lines <= n && n == lines + Keep(s, at, |kept|, lines) && n <= CountLines(s, 0)
    && kept + Joined(s, at, n - lines) == Joined(s, 0, n)
  }

  lemma KeepOneMore(s: seq<Byte>, at: nat, kept: seq<Byte>, lines: nat, n: nat)
    requires KeptSoFar(s, at, kept, lines, n) && at < |s| && lines < MAX_TOOL_LINES
    requires |kept| + (TextEnd(s, at) - at) + 1 <= MAX_TOOL_BYTES
    ensures KeptSoFar(s, Next(s, at), kept + s[at..TextEnd(s, at)] + [NEWLINE], lines + 1, n)
  {
    Associate(kept, s[at..TextEnd(s, at)], [NEWLINE], Joined(s, Next(s, at), n - lines - 1));
  }

  method KeepLines(full: seq<Byte>) returns (kept: seq<Byte>, lines: nat)
    ensures lines == Keep(full, 0, 0, 0) && kept == Joined(full, 0, lines)
  {
    kept, lines := [], 0;
    var at := 0;
    ghost var n := Keep(full, 0, 0, 0);
    assert [] + Joined(full, 0, n) == Joined(full, 0, n);
    while at < |full|
      invariant KeptSoFar(full, at, kept, lines, n)
    {
      var line := full[at..TextEnd(full, at)];
      if lines >= MAX_TOOL_LINES || |kept| + |line| + 1 > MAX_TOOL_BYTES {
        break;
      }
      KeepOneMore(full, at, kept, lines, n);
      kept := kept + line;
      kept := kept + [NEWLINE];
      at := Next(full, at);
      lines := lines + 1;
    }
    assert Keep(full, at, |kept|, lines) == 0 && kept + [] == kept;
  }

  lemma Associate(a: seq<Byte>, b: seq<Byte>, c: seq<Byte>, d: seq<Byte>)
    ensures a + (b + c + d) == (a + b) + c + d
  {
  }

  // ---- What is shown is all that fits ---------------------------------------------------------

  /** The first m lines are within both ceilings. */
  predicate Fits(s: seq<Byte>, m: nat) {
    m <= CountLines(s, 0) && m <= MAX_TOOL_LINES && |Joined(s, 0, m)| <= MAX_TOOL_BYTES
  }

  lemma OneLineLonger(s: seq<Byte>, at: nat, n: nat)
    requires at < |s| && 0 < n <= CountLines(s, at)
    ensures n - 1 <= CountLines(s, Next(s, at))
    ensures |Joined(s, at, n)| == TextEnd(s, at) - at + 1 + |Joined(s, Next(s, at), n - 1)|
  {
  }

  lemma {:induction false} MoreLinesAreLonger(s: seq<Byte>, at: nat, m: nat, n: nat)
    requires at <= |s| && m <= n <= CountLines(s, at)
    ensures |Joined(s, at, m)| + (n - m) <= |Joined(s, at, n)|
    decreases n
  {
    if n > 0 {
      OneLineLonger(s, at, n);
      if m > 0 { OneLineLonger(s, at, m); }
      assert m == 0 ==> Joined(s, at, m) == [];
      hide Joined, CountLines, TextEnd, Next;
      MoreLinesAreLonger(s, Next(s, at), if m > 0 then m - 1 else 0, n - 1);
    }
  }

  lemma KeepsOneMoreIff(s: seq<Byte>, at: nat, kept: nat, lines: nat)
    requires at <= |s|
    ensures var n := Keep(s, at, kept, lines);
            && (n > 0 <==> at < |s| && lines < MAX_TOOL_LINES && kept + (TextEnd(s, at) - at) + 1 <= MAX_TOOL_BYTES)
            && (n > 0 ==> n == 1 + Keep(s, Next(s, at), kept + (TextEnd(s, at) - at) + 1, lines + 1))
            && (at < |s| ==> CountLines(s, at) == 1 + CountLines(s, Next(s, at)))
            && Joined(s, at, 0) == []
  {
  }

  lemma {:induction false} KeepIsMost(s: seq<Byte>, at: nat, kept: nat, lines: nat)
    requires at <= |s| && kept <= MAX_TOOL_BYTES && lines <= MAX_TOOL_LINES
    ensures var n := Keep(s, at, kept, lines);
            && lines + n <= MAX_TOOL_LINES && kept + |Joined(s, at, n)| <= MAX_TOOL_BYTES
            && (n < CountLines(s, at) ==>
                  lines + n >= MAX_TOOL_LINES || kept + |Joined(s, at, n + 1)| > MAX_TOOL_BYTES)
    decreases |s| - at
  {
    var n := Keep(s, at, kept, lines);
    KeepsOneMoreIff(s, at, kept, lines);
    if n < CountLines(s, at) { OneLineLonger(s, at, n + 1); }
    if n > 0 {
      OneLineLonger(s, at, n);
      hide Joined, CountLines, Keep, TextEnd, Next;
      KeepIsMost(s, Next(s, at), kept + (TextEnd(s, at) - at) + 1, lines + 1);
    }
  }

  /** Of a result too large, exactly the longest run of whole lines within both
      ceilings is shown: every shorter run fits, and no longer one does. */
  lemma TheMostIsShown(full: seq<Byte>, m: nat)
    requires ShowOf(full).Cut?
    ensures var shown := ShowOf(full);
            && Fits(full, shown.lines) && shown.kept == Joined(full, 0, shown.lines)
            && (Fits(full, m) <==> m <= shown.lines)
            && (shown.byLines <==> shown.lines == MAX_TOOL_LINES)
  {
    hide Joined, Keep;
    KeepIsMost(full, 0, 0, 0);
    var n := Keep(full, 0, 0, 0);
    if m <= n {
      MoreLinesAreLonger(full, 0, m, n);
    } else if m <= CountLines(full, 0) {
      MoreLinesAreLonger(full, 0, n + 1, m);
    }
  }

  /** What fits is shown whole; what does not is cut, or where not one line of it
      fits, for want of a line that would, only its first line's length is told. */
  lemma ThreeAnswers(full: seq<Byte>)
    ensures var shown, count := ShowOf(full), CountLines(full, 0);
            match shown
            case Whole(text) => text == full && |full| <= MAX_TOOL_BYTES && count <= MAX_TOOL_LINES
            case FirstLineTooLong(length) =>
              count > 0 && length == TextEnd(full, 0) > MAX_TOOL_BYTES && forall m: nat :: Fits(full, m) ==> m == 0
            case Cut(_, _, lines, totalLines, totalBytes, offset) =>
              && (totalLines > MAX_TOOL_LINES || totalBytes > MAX_TOOL_BYTES)
              && totalLines == count && totalBytes == |full| && offset == |shown.kept|
              && (lines > 0 <==> Fits(full, 1))
  {
    if ShowOf(full).FirstLineTooLong? {
      forall m: nat | 0 < m <= CountLines(full, 0) ensures !Fits(full, m) {
        MoreLinesAreLonger(full, 0, 1, m);
        FirstLineFits(full);
      }
    } else if ShowOf(full).Cut? {
      TheMostIsShown(full, 1);
    }
  }

  lemma FirstLineFits(full: seq<Byte>)
    requires full != []
    ensures |Joined(full, 0, 1)| == TextEnd(full, 0) + 1
  {
    assert Joined(full, 0, 1) == full[0..TextEnd(full, 0)] + [NEWLINE] + Joined(full, Next(full, 0), 0);
  }

  /** Nothing is shown, and the offset named is the one just read from, exactly
      where the first line fills the budget to the byte. */
  lemma NothingIsShownIff(full: seq<Byte>)
    requires ShowOf(full).Cut?
    ensures ShowOf(full).offset == 0 <==> TextEnd(full, 0) == MAX_TOOL_BYTES
    ensures ShowOf(full).offset == 0 <==> ShowOf(full).lines == 0
  {
    var n := Keep(full, 0, 0, 0);
    MoreLinesAreLonger(full, 0, 0, n);
  }

  // ---- The offset named ---------------------------------------------------------------------------

  lemma LengthOfLine(s: seq<Byte>, at: nat, rest: seq<Byte>)
    requires at < |s|
    ensures |s[at..TextEnd(s, at)] + [NEWLINE] + rest| == TextEnd(s, at) - at + 1 + |rest|
    ensures NewlineFrom(s, at) - TextEnd(s, at) == if TextEnd(s, at) < NewlineFrom(s, at) then 1 else 0
    ensures if NewlineFrom(s, at) < |s| then Next(s, at) == NewlineFrom(s, at) + 1 && s[Next(s, at) - 1] == NEWLINE
            else Next(s, at) == |s| && s[|s| - 1] != NEWLINE
  {
    hide NewlineFrom;
  }

  /** What the lines shown took of the text: a byte more for each return dropped,
      a byte less for a newline the text did not end with. */
  lemma {:induction false} LengthOfJoined(s: seq<Byte>, at: nat, n: nat)
    requires at <= |s| && n <= CountLines(s, at)
    ensures var start := StartOf(s, at, n);
            var added := if n > 0 && start == |s| && s[|s| - 1] != NEWLINE then 1 else 0;
            |Joined(s, at, n)| + Returns(s, at, n) == start - at + added
    decreases n
  {
    if n > 0 {
      var next := Next(s, at);
      LengthOfJoined(s, next, n - 1);
      LengthOfLine(s, at, Joined(s, next, n - 1));
      hide NewlineFrom, TextEnd, Next;
    }
  }

  lemma {:induction false} AllLinesEndTheText(s: seq<Byte>, at: nat, n: nat)
    requires at <= |s| && n <= CountLines(s, at)
    ensures StartOf(s, at, n) == |s| <==> n == CountLines(s, at)
    decreases n
  {
    if n > 0 { AllLinesEndTheText(s, Next(s, at), n - 1); }
  }

  /** The offset named is where the text not shown begins, exactly where no line
      shown lost a return before its newline; each one lost puts the offset a
      byte further short of it. */
  lemma TheOffsetIsTheRestIff(full: seq<Byte>)
    requires ShowOf(full).Cut?
    ensures var shown := ShowOf(full);
            var rest := StartOf(full, 0, shown.lines);
            && (shown.offset == rest <==> Returns(full, 0, shown.lines) == 0)
            && (shown.lines < shown.totalLines ==> shown.offset + Returns(full, 0, shown.lines) == rest)
  {
    KeepIsMost(full, 0, 0, 0);
    var n := Keep(full, 0, 0, 0);
    LengthOfJoined(full, 0, n);
    AllLinesEndTheText(full, 0, n);
  }

  lemma LineAndRest(s: seq<Byte>, at: nat, start: nat)
    requires at < |s| && RETURN !in s && Next(s, at) <= start <= |s| && (start < |s| || s[|s| - 1] == NEWLINE)
    ensures NewlineFrom(s, at) < |s|
    ensures s[at..TextEnd(s, at)] + [NEWLINE] + s[Next(s, at)..start] == s[at..start]
  {
    var k := NewlineFrom(s, at);
    assert TextEnd(s, at) == k;
    assert k < |s|;
  }

  lemma {:induction false} NoReturnsNothingLost(s: seq<Byte>, at: nat, n: nat)
    requires at <= |s| && n <= CountLines(s, at) && RETURN !in s
    ensures Returns(s, at, n) == 0
    ensures StartOf(s, at, n) < |s| ==> Joined(s, at, n) == s[at..StartOf(s, at, n)]
    decreases n
  {
    if n > 0 {
      NoReturnsNothingLost(s, Next(s, at), n - 1);
      assert TextEnd(s, at) == NewlineFrom(s, at);
      if StartOf(s, at, n) < |s| { LineAndRest(s, at, StartOf(s, at, n)); }
    }
  }

  /** Text without returns is shown as it is, up to the offset named, and what is
      left starts there. */
  lemma WhatIsShownIsThePrefix(full: seq<Byte>)
    requires ShowOf(full).Cut? && RETURN !in full
    ensures var shown := ShowOf(full);
            && shown.offset < |full| && shown.kept == full[..shown.offset]
            && shown.offset == StartOf(full, 0, shown.lines) && shown.lines < shown.totalLines
  {
    hide Joined, StartOf, Keep, Returns;
    var n := Keep(full, 0, 0, 0);
    NoReturnsNothingLost(full, 0, n);
    KeepIsMost(full, 0, 0, 0);
    LengthOfJoined(full, 0, n);
    AllLinesEndTheText(full, 0, n);
  }

  /** A return before a newline: one byte is shown, and the offset named is that
      of the newline, not of the line not shown. */
  lemma AReturnMovesTheOffset()
    ensures var full := [RETURN, NEWLINE] + seq(60000, k => 97);
            ShowOf(full).Cut? && ShowOf(full).offset == 1 && StartOf(full, 0, ShowOf(full).lines) == 2
  {
    var full: seq<Byte> := [RETURN, NEWLINE] + seq(60000, k => 97);
    assert full[0] == RETURN && full[1] == NEWLINE && |full| == 60002;
    assert NewlineFrom(full, 0) == 1 && TextEnd(full, 0) == 0 && Next(full, 0) == 2;
    assert NewlineFrom(full, 2) == |full| && TextEnd(full, 2) == |full|;
    assert Keep(full, 2, 1, 1) == 0 && Keep(full, 0, 0, 0) == 1;
    assert Joined(full, 0, 1) == [NEWLINE] + [];
    assert StartOf(full, 0, 1) == StartOf(full, 2, 0) == 2;
  }

  /** A first line of exactly the budget: nothing is shown, and the offset named
      is the beginning. */
  lemma AFullFirstLineShowsNothing()
    ensures var full := seq(51200, k => 97) + [NEWLINE, 97];
            ShowOf(full).Cut? && ShowOf(full).lines == 0 && ShowOf(full).offset == 0
  {
    var full: seq<Byte> := seq(51200, k => 97) + [NEWLINE, 97];
    assert full[51200] == NEWLINE && full[51199] == 97;
    assert forall i :: 0 <= i < 51200 ==> full[i] == 97;
    assert NewlineFrom(full, 0) == 51200 && TextEnd(full, 0) == 51200;
    assert Keep(full, 0, 0, 0) == 0;
  }
}
