/** The URLs an operation can have. Publishing a skill refuses any other: braces
    outside the path, or in a segment that is not one parameter, and a query or a
    fragment. What is proved of templates with closed braces is so proved of every
    operation there is. */
module PublishedUrls {
  import opened Basics
  import opened Utf8
  import opened OperationUrl
  import opened PathSegments

  /** Letters, digits and underscores. */
  predicate NameByte(b: Byte) {
    48 <= b <= 57 || 65 <= b <= 90 || 97 <= b <= 122 || b == 95
  }

  predicate ParamName(name: Bytes) {
    name != [] && forall i :: 0 <= i < |name| ==> NameByte(name[i])
  }

  predicate NoBraces(url: Bytes, at: nat, end: nat)
    requires end <= |url|
  {
    forall k :: at <= k < end ==> url[k] != OPEN && url[k] != CLOSE
  }

  /** A segment that holds a brace is one parameter and nothing else. */
  predicate SegmentOk(url: Bytes, at: nat, end: nat)
    requires at <= end <= |url|
  {
    || NoBraces(url, at, end)
    || (at + 2 < end && url[at] == OPEN && url[end - 1] == CLOSE && ParamName(url[at + 1..end - 1]))
  }

  predicate SegmentsOk(url: Bytes, at: nat)
    requires at <= |url|
    decreases |url| - at
  {
    var end := NextSlash(url, at);
    SegmentOk(url, at, end) && (end < |url| ==> SegmentsOk(url, end + 1))
  }

  function PathStart(url: Bytes): (start: nat)
    ensures start <= |url|
  {
    NextSlash(url, SchemeEnd(url, 0))
  }

  /** What publishing asks of a URL's braces, and of its having neither query nor
      fragment. That the rest of it parses, with the scheme http or https, is not
      needed here. */
  predicate Published(url: Bytes) {
    OPEN !in url[..PathStart(url)] && QUESTION !in url && HASH !in url && SegmentsOk(url, PathStart(url))
  }

  // ---- What publishing gives ----------------------------------------------------------------

  function SegmentTokens(url: Bytes, at: nat, end: nat): seq<Token>
    requires at <= end <= |url| && SegmentOk(url, at, end)
  {
    if NoBraces(url, at, end) then Lits(url[at..end]) else [Group(url[at + 1..end - 1])]
  }

  lemma LitStep(s: Bytes, i: nat)
    requires i < |s| && s[i] != OPEN && TokensFrom(s, i + 1).Some?
    ensures TokensFrom(s, i) == Some([Lit(s[i])] + TokensFrom(s, i + 1).value)
  {
    hide NextBrace;
    assert TokenAt(s, i) == Some((Lit(s[i]), i + 1));
  }

  lemma GroupStep(s: Bytes, i: nat, k: nat)
    requires i < k < |s| && s[i] == OPEN && s[k] == CLOSE && NextBrace(s, i + 1) == k && TokensFrom(s, k + 1).Some?
    ensures TokensFrom(s, i) == Some([Group(s[i + 1..k])] + TokensFrom(s, k + 1).value)
  {
    hide NextBrace;
    assert TokenAt(s, i) == Some((Group(s[i + 1..k]), k + 1));
  }

  lemma LitThenLits(s: Bytes, i: nat, k: nat, rest: seq<Token>)
    requires i < k <= |s|
    ensures [Lit(s[i])] + (Lits(s[i + 1..k]) + rest) == Lits(s[i..k]) + rest
  {
    assert s[i..k][1..] == s[i + 1..k];
  }

  lemma {:induction false} LitsUpTo(s: Bytes, i: nat, k: nat)
    requires i <= k <= |s| && TokensFrom(s, k).Some? && forall j :: i <= j < k ==> s[j] != OPEN
    ensures TokensFrom(s, i) == Some(Lits(s[i..k]) + TokensFrom(s, k).value)
    decreases k - i
  {
    hide TokensFrom;
    if i < k {
      LitsUpTo(s, i + 1, k);
      LitStep(s, i);
      LitThenLits(s, i, k, TokensFrom(s, k).value);
    } else {
      assert s[i..k] == [];
      assert Lits(s[i..k]) + TokensFrom(s, k).value == TokensFrom(s, k).value;
    }
  }

  lemma {:induction false} NextBraceIs(s: Bytes, i: nat, k: nat)
    requires i <= k < |s| && (s[k] == OPEN || s[k] == CLOSE) && forall j :: i <= j < k ==> s[j] != OPEN && s[j] != CLOSE
    ensures NextBrace(s, i) == k
    decreases k - i
  {
    if i < k { NextBraceIs(s, i + 1, k); }
  }

  lemma ParameterEnds(url: Bytes, at: nat, end: nat)
    requires at + 2 < end <= |url| && url[end - 1] == CLOSE && ParamName(url[at + 1..end - 1])
    ensures NextBrace(url, at + 1) == end - 1
  {
    var name := url[at + 1..end - 1];
    forall j | at + 1 <= j < end - 1 ensures url[j] != OPEN && url[j] != CLOSE {
      assert NameByte(name[j - at - 1]);
    }
    NextBraceIs(url, at + 1, end - 1);
  }

  /** One segment's tokens, before those that follow it. */
  lemma SegmentIsTokens(url: Bytes, at: nat, end: nat)
    requires at <= end <= |url| && SegmentOk(url, at, end) && TokensFrom(url, end).Some?
    ensures TokensFrom(url, at) == Some(SegmentTokens(url, at, end) + TokensFrom(url, end).value)
  {
    hide TokensFrom, NextBrace, ParamName, Lits;
    if NoBraces(url, at, end) {
      LitsUpTo(url, at, end);
    } else {
      ParameterEnds(url, at, end);
      GroupStep(url, at, end - 1);
    }
  }

  /** The tokens of what follows a segment. */
  function Following(url: Bytes, end: nat): Option<seq<Token>>
    requires end <= |url|
  {
    if end < |url| then TokensFrom(url, end + 1) else Some([])
  }

  lemma NoTokensAtTheEnd(url: Bytes)
    ensures TokensFrom(url, |url|) == Some([])
  {
  }

  lemma {:induction false} TokensOfSegments(url: Bytes, at: nat)
    requires at <= |url| && SegmentsOk(url, at)
    ensures var end := NextSlash(url, at);
            && Following(url, end).Some?
            && TokensFrom(url, at) ==
                 Some(SegmentTokens(url, at, end) + if end < |url| then [Lit(SLASH)] + Following(url, end).value else [])
    decreases |url| - at
  {
    hide SegmentTokens, SegmentOk, NextSlash, TokensFrom;
    var end := NextSlash(url, at);
    if end < |url| {
      TokensOfSegments(url, end + 1);
      LitStep(url, end);
    } else {
      NoTokensAtTheEnd(url);
    }
    SegmentIsTokens(url, at, end);
  }

  lemma {:induction false} TokenSegmentsAfter(run: seq<Token>, rest: seq<Token>)
    requires Lit(SLASH) !in run
    ensures TokenSegments(run + rest) == [run + TokenSegments(rest)[0]] + TokenSegments(rest)[1..]
    decreases |run|
  {
    if run == [] {
      assert run + rest == rest && [] + TokenSegments(rest)[0] == TokenSegments(rest)[0];
    } else {
      assert (run + rest)[0] == run[0] && (run + rest)[1..] == run[1..] + rest;
      TokenSegmentsAfter(run[1..], rest);
      assert [run[0]] + (run[1..] + TokenSegments(rest)[0]) == run + TokenSegments(rest)[0];
    }
  }

  lemma {:induction false} LitsHave(s: Bytes)
    ensures forall t :: t in Lits(s) ==> t.Lit? && t.b in s
  {
    if s != [] { LitsHave(s[1..]); }
  }

  lemma SegmentTokensAre(url: Bytes, at: nat, end: nat)
    requires at <= end <= |url| && SegmentOk(url, at, end) && forall k :: at <= k < end ==> url[k] != SLASH
    ensures Lit(SLASH) !in SegmentTokens(url, at, end) && WholeOrLiteral(SegmentTokens(url, at, end))
    ensures forall t :: t in SegmentTokens(url, at, end) && t.Group? ==> ParamName(t.name)
  {
    if NoBraces(url, at, end) {
      var s := url[at..end];
      LitsHave(s);
      assert SLASH !in s;
      assert forall k :: 0 <= k < |Lits(s)| ==> Lits(s)[k] in Lits(s);
    }
  }

  /** The tokens of a published path: parameters with names of the grammar, each a
      segment of its own, and text. */
  lemma {:induction false} PublishedTokens(url: Bytes, at: nat)
    requires at <= |url| && SegmentsOk(url, at)
    ensures TokensFrom(url, at).Some?
    ensures forall t :: t in TokensFrom(url, at).value && t.Group? ==> ParamName(t.name)
    ensures forall s :: s in TokenSegments(TokensFrom(url, at).value) ==> WholeOrLiteral(s)
    decreases |url| - at
  {
    hide SegmentTokens, TokensFrom, WholeOrLiteral, ParamName, SegmentOk;
    var end := NextSlash(url, at);
    TokensOfSegments(url, at);
    SegmentTokensAre(url, at, end);
    var first := SegmentTokens(url, at, end);
    assert first + [] == first;
    if end < |url| {
      var rest := Following(url, end).value;
      PublishedTokens(url, end + 1);
      TokenSegmentsAfter(first, [Lit(SLASH)] + rest);
      SlashTokenBegins([Lit(SLASH)] + rest);
      assert ([Lit(SLASH)] + rest)[1..] == rest;
    } else {
      TokenSegmentsAfter(first, []);
    }
  }

  lemma OwnParamIsAName(url: Bytes, at: nat, end: nat)
    requires at <= end <= |url| && SegmentOk(url, at, end)
    ensures forall n :: n in OwnParam(url, at, end) ==> ParamName(n)
  {
  }

  lemma {:induction false} PublishedParams(url: Bytes, at: nat)
    requires at <= |url| && SegmentsOk(url, at)
    ensures forall n :: n in ParamsFrom(url, at) ==> ParamName(n)
    decreases |url| - at
  {
    hide ParamName;
    var end := NextSlash(url, at);
    OwnParamIsAName(url, at, end);
    if end < |url| { PublishedParams(url, end + 1); }
  }

  lemma NamesHaveNoMarks(name: Bytes)
    requires ParamName(name)
    ensures BraceFree(name) && OPEN !in name && CLOSE !in name && SLASH !in name
  {
  }

  /** Every URL published has closed braces, names without any, and a path that is
      plain. */
  lemma PublishedIsPlain(op: Operation)
    requires Published(op.url)
    ensures Closed(op.url) && PlainPath(op) && forall n :: n in PathParams(op.url) ==> BraceFree(n)
    ensures forall s :: s in TokenSegments(PathTokens(op).value) ==> WholeOrLiteral(s)
  {
    hide SegmentsOk, ParamName, BraceFree, TokensFrom, TokenSegments, WholeOrLiteral;
    var url, start, at := op.url, PathStart(op.url), PathAt(op.url);
    PublishedTokens(url, start);
    PublishedParams(url, start);
    ClosedFrom(url, start);
    PathBeginsOk(url);
    PublishedTokens(url, at);
    forall n | n in PathParams(url) ensures BraceFree(n) { NamesHaveNoMarks(n); }
    forall k | 0 <= k < |PathTokens(op).value| && PathTokens(op).value[k].Group?
      ensures SLASH !in PathTokens(op).value[k].name
    {
      NamesHaveNoMarks(PathTokens(op).value[k].name);
    }
  }

  lemma ClosedFrom(url: Bytes, start: nat)
    requires start <= |url| && OPEN !in url[..start] && TokensFrom(url, start).Some?
    ensures Closed(url)
  {
    assert forall j :: 0 <= j < start ==> url[j] == url[..start][j];
    LitsUpTo(url, 0, start);
  }

  lemma PathBeginsOk(url: Bytes)
    requires Published(url)
    ensures SegmentsOk(url, PathAt(url)) && OPEN !in url[..PathAt(url)]
  {
    var start := PathStart(url);
    if start < |url| {
      assert NextSlash(url, start) == start;
      assert url[..start + 1] == url[..start] + [SLASH];
    }
  }

  // ---- Of every operation there is -------------------------------------------------------------

  /** The parameters of a path are put in all at once, and in whatever order. */
  lemma EveryPathIsPutInAtOnce(op: Operation, given: map<Bytes, Value>, others: seq<Bytes>)
    requires Published(op.url) && SetOf(others) == SetOf(PathParams(op.url))
    ensures Closed(op.url)
    ensures var names := PathParams(op.url);
            var values := PathValues(names, given);
            && PathOf(op, given) == Render(PutIn(TokensFrom(op.url, 0).value, SetOf(names), values))
            && PathOf(op, given) == Substitute(op.url, others, values)
  {
    hide Substitute, PutIn, Render, PathParams;
    var names := PathParams(op.url);
    var values := PathValues(names, given);
    PublishedIsPlain(op);
    ThePathIsPutInAtOnce(op, given);
    forall i | 0 <= i < |names| ensures BraceFree(names[i]) && OPEN !in values[names[i]] {
      EncodedHasNoMarks(RawValue(given, names[i]));
    }
    forall i | 0 <= i < |others| ensures others[i] in values && BraceFree(others[i]) && OPEN !in values[others[i]] {
      assert others[i] in SetOf(others);
      EncodedHasNoMarks(RawValue(given, others[i]));
    }
    PathIsPutInAtOnce(op.url, names, others, values);
  }

  /** The segments of a path are read as they were built, if and only if no segment
      of it is dots, the template's own or a parameter's value. */
  lemma EverySegmentSurvivesIff(op: Operation, given: map<Bytes, Value>)
    requires Published(op.url)
    ensures PlainPath(op)
    ensures var template := TokenSegments(PathTokens(op).value);
            SegmentsRead(op, given) == BuiltSegments(op, given) <==>
              forall k :: 0 <= k < |template| ==> !ComesToDots(template[k], PathParams(op.url), given)
  {
    PublishedIsPlain(op);
    SegmentsSurviveUnlessAValueIsDots(op, given);
  }

  /** What a segment of the path says: the template's own text as it is, and a
      parameter, decoded, the text of the argument given for it, or nothing where none
      was. */
  lemma EverySegmentDecodes(op: Operation, given: map<Bytes, Value>, k: nat)
    requires Published(op.url) && PlainPath(op) && k < |TokenSegments(PathTokens(op).value)|
    ensures var template, built := TokenSegments(PathTokens(op).value), BuiltSegments(op, given);
            && |built| == |template|
            && if |template[k]| == 1 && template[k][0].Group? && template[k][0].name in PathParams(op.url)
               then PercentDecode(built[k]) == RawValue(given, template[k][0].name)
               else built[k] == Render(template[k])
  {
    PublishedIsPlain(op);
    SegmentsOfThePath(op, given);
    hide BuiltSegments, Render, PutIn, PathValues, PathParams, TokenSegments, PathTokens, PlainPath;
    var names, segment := PathParams(op.url), TokenSegments(PathTokens(op).value)[k];
    var values := PathValues(names, given);
    assert BuiltSegments(op, given)[k] == Render(PutIn(segment, SetOf(names), values));
    assert WholeOrLiteral(segment);
    if |segment| == 1 && segment[0].Group? {
      AParameterFilled(segment[0].name, names, given);
      assert segment == [Group(segment[0].name)];
    } else {
      LiteralsStay(segment, SetOf(names), values);
    }
  }

  lemma AParameterFilled(name: Bytes, names: seq<Bytes>, given: map<Bytes, Value>)
    requires SetOf(names) <= PathValues(names, given).Keys
    ensures var filled := Render(PutIn([Group(name)], SetOf(names), PathValues(names, given)));
            if name in names then PercentDecode(filled) == RawValue(given, name) else filled == Render([Group(name)])
  {
    hide Render, PutIn, PercentEncode, PercentDecode;
    var values := PathValues(names, given);
    FilledOneMore(Group(name), [], SetOf(names), values);
    PathSegments.NothingRenders(SetOf(names), values);
    assert [Group(name)] + [] == [Group(name)];
    assert name in names <==> name in SetOf(names);
    DecodeEncode(RawValue(given, name));
    var filled := FilledToken(Group(name), SetOf(names), values);
    assert filled + [] == filled;
    RenderOne(Group(name));
  }

  lemma RenderOne(t: Token)
    ensures Render([t]) == TokenText(t)
  {
    assert [t][1..] == [];
  }

  /** And what is sent is read as the path and the parameters that went in. */
  lemma EveryCallIsRead(op: Operation, given: map<Bytes, Value>)
    requires Published(op.url) && Call(op, given).Sent?
    ensures var (path, query) := SplitOnce(Call(op, given).url, QUESTION);
            var pairs := Pairs(op.query, given);
            && path == PathOf(op, given)
            && (if pairs == [] then query == [] else ReadQuery(query) == pairs)
  {
    WhatIsSentIsRead(op, given);
  }

  // ---- A value that takes a segment away ------------------------------------------------------

  /** `https://h/` and then `a/{x}/b`. */
  const BASE: Bytes := [104, 116, 116, 112, 115, 58, SLASH, SLASH, 104, SLASH]
  const ONE_PARAMETER: Bytes := BASE + [97, SLASH, OPEN, 120, CLOSE, SLASH, 98]

  /** The failing input: of `https://h/a/{x}/b`, given two dots for `x`, the path
      built has three segments, and the path read is `/b`. */
  lemma TwoDotsTakeASegment()
    ensures var op, given := Operation(ONE_PARAMETER, [], [], []), map[[120] := Text([DOT, DOT])];
            && Published(op.url) && PathAt(op.url) == |BASE|
            && BuiltSegments(op, given) == [[97], [DOT, DOT], [98]]
            && SegmentsRead(op, given) == [[98]]
  {
    hide Segments, RemoveDots, PercentEncode, Substitute;
    var x: Bytes := [120];
    OneOwnParam();
    DotsEncode();
    DotsFilled(map[x := [DOT, DOT]]);
    ValueIsDots();
    SplitsInThree();
    OneRemoved();
  }

  lemma ValueIsDots()
    ensures PathValues([[120]], map[[120] := Text([DOT, DOT])]) == map[[120] := [DOT, DOT]]
  {
    DotsEncode();
  }

  lemma OneOwnParam()
    ensures PathParams(ONE_PARAMETER) == [[120]] && PathAt(ONE_PARAMETER) == |BASE| == 10 && Published(ONE_PARAMETER)
  {
    hide NextSlash, SchemeEnd;
    var url := ONE_PARAMETER;
    assert url == [104, 116, 116, 112, 115, 58, SLASH, SLASH, 104, SLASH, 97, SLASH, OPEN, 120, CLOSE, SLASH, 98];
    SchemeEndIs(url, 0, 5);
    NextSlashIs(url, 8, 9);
    NextSlashIs(url, 9, 9);
    NextSlashIs(url, 10, 11);
    NextSlashIs(url, 12, 15);
    NextSlashIs(url, 16, 17);
    OneParam();
    OneIsOk();
  }

  lemma OneParam()
    requires var url := ONE_PARAMETER;
             NextSlash(url, 9) == 9 && NextSlash(url, 10) == 11 && NextSlash(url, 12) == 15 && NextSlash(url, 16) == 17
    ensures ParamsFrom(ONE_PARAMETER, 9) == [[120]]
  {
    hide NextSlash;
    var url := ONE_PARAMETER;
    assert OwnParam(url, 16, 17) == [] && OwnParam(url, 10, 11) == [] && OwnParam(url, 9, 9) == [];
    assert OwnParam(url, 12, 15) == [url[13..14]] && url[13..14] == [120];
    assert ParamsFrom(url, 16) == [] + [];
    assert ParamsFrom(url, 12) == [[120]] + ParamsFrom(url, 16);
    assert ParamsFrom(url, 10) == [] + ParamsFrom(url, 12);
    assert ParamsFrom(url, 9) == [] + ParamsFrom(url, 10);
  }

  lemma OneIsOk()
    requires var url := ONE_PARAMETER;
             NextSlash(url, 9) == 9 && NextSlash(url, 10) == 11 && NextSlash(url, 12) == 15 && NextSlash(url, 16) == 17
    ensures SegmentsOk(ONE_PARAMETER, 9)
  {
    hide NextSlash;
    var url := ONE_PARAMETER;
    assert url[13..14] == [120];
    assert SegmentsOk(url, 16);
    assert SegmentsOk(url, 12);
    assert SegmentsOk(url, 10);
  }

  lemma DotsFilled(values: map<Bytes, Bytes>)
    requires [120] in values && values[[120]] == [DOT, DOT]
    ensures Substitute(ONE_PARAMETER[10..], [[120]], values) == [97, SLASH] + ([DOT, DOT] + [SLASH, 98])
  {
    hide Replace;
    var x: Bytes, tail: Bytes := [120], [SLASH, 98];
    var rest := ONE_PARAMETER[10..];
    assert rest == [97, SLASH] + (Pattern(x) + tail);
    ReplacePasses([97, SLASH], Pattern(x) + tail, x, [DOT, DOT]);
    ReplaceHits(tail, Pattern(x), [DOT, DOT]);
    assert tail + [] == tail;
    ReplacePasses(tail, [], x, [DOT, DOT]);
    ReplaceEmpty(Pattern(x), [DOT, DOT]);
    assert [x][1..] == [];
    assert Substitute(rest, [x], values) == Substitute(Replace(rest, Pattern(x), [DOT, DOT]), [], values);
  }

  lemma SplitsInThree()
    ensures Segments([97, SLASH] + ([DOT, DOT] + [SLASH, 98])) == [[97], [DOT, DOT], [98]]
  {
    var end: Bytes, after: Bytes := [98], [SLASH, 98];
    assert end == [98] + [] && Segments([]) == [[]];
    SegmentsAfter([98], []);
    assert [98] + [] == end;
    assert after == [SLASH] + end && after[1..] == end;
    assert Segments(after) == [[]] + Segments(end);
    SegmentsAfter([DOT, DOT], after);
    assert [DOT, DOT] + [] == [DOT, DOT];
    var rest := [SLASH] + ([DOT, DOT] + after);
    assert rest[1..] == [DOT, DOT] + after;
    assert Segments(rest) == [[]] + Segments([DOT, DOT] + after);
    assert [97, SLASH] + ([DOT, DOT] + after) == [97] + rest;
    SegmentsAfter([97], rest);
    assert [97] + [] == [97];
  }

  lemma OneRemoved()
    ensures RemoveDots([[97], [DOT, DOT], [98]], 0, []) == [[98]]
  {
    var segments: seq<Bytes> := [[97], [DOT, DOT], [98]];
    assert DOTS[0] + DOTS[0] == segments[1];
    OrdinaryByte(97);
    OrdinaryByte(98);
    assert RemoveDots(segments, 3, [[98]]) == [[98]];
    assert RemoveDots(segments, 2, []) == RemoveDots(segments, 3, [] + [[98]]);
    assert RemoveDots(segments, 1, [[97]]) == RemoveDots(segments, 2, [[97]][..0] + []);
    assert RemoveDots(segments, 0, []) == RemoveDots(segments, 1, [] + [[97]]);
  }

  lemma OrdinaryByte(b: Byte)
    requires b != DOT && b != PERCENT
    ensures !IsDots([b])
  {
    assert forall i, j :: 0 <= i < 3 && 0 <= j < 3 ==> |DOTS[i] + DOTS[j]| > 1;
  }

  // ---- Why a brace inside another is refused -----------------------------------------------

  const INNER: Bytes := [97]
  const OUTER: Bytes := [120, 86]
  const NESTED: Bytes := [OPEN, 120, OPEN, 97, CLOSE, CLOSE]

  lemma InnerPutIn()
    ensures Replace(NESTED, Pattern(INNER), [86]) == Pattern(OUTER)
  {
    var pattern := Pattern(INNER);
    assert NESTED == [OPEN] + ([120] + (pattern + [CLOSE]));
    assert pattern[1] != NESTED[1];
    ReplaceMisses(OPEN, [120] + (pattern + [CLOSE]), pattern, [86]);
    ReplacePasses([120], pattern + [CLOSE], INNER, [86]);
    ReplaceHits([CLOSE], pattern, [86]);
    ReplacePasses([CLOSE], [], INNER, [86]);
    assert [CLOSE] + [] == [CLOSE];
  }

  lemma OuterIsNotThere()
    ensures Replace(NESTED, Pattern(OUTER), [49]) == NESTED
  {
    var pattern, rest := Pattern(OUTER), [97, CLOSE, CLOSE];
    assert NESTED == [OPEN] + ([120] + ([OPEN] + rest));
    assert pattern[2] != NESTED[2];
    ReplaceMisses(OPEN, [120] + ([OPEN] + rest), pattern, [49]);
    ReplacePasses([120], [OPEN] + rest, OUTER, [49]);
    assert ([OPEN] + rest)[1] != pattern[1];
    ReplaceMisses(OPEN, rest, pattern, [49]);
    ReplacePasses(rest, [], OUTER, [49]);
    assert rest + [] == rest;
  }

  /** Two parameters, and a segment with a brace opened inside another: `first`,
      `second` and then `q{x{a}}`. */
  function NestedUrl(first: Bytes, second: Bytes): Bytes {
    [SLASH] + Pattern(first) + [SLASH] + Pattern(second) + ([SLASH, 113] + NESTED)
  }

  lemma InnerIsFirst()
    ensures PathParams(NestedUrl(INNER, OUTER)) == [INNER, OUTER] && !Published(NestedUrl(INNER, OUTER))
  {
    hide NextSlash;
    var url := NestedUrl(INNER, OUTER);
    assert url == [SLASH, OPEN, 97, CLOSE, SLASH, OPEN, 120, 86, CLOSE, SLASH, 113, OPEN, 120, OPEN, 97, CLOSE, CLOSE];
    NoScheme(url, 0);
    NextSlashIs(url, 0, 0);
    NextSlashIs(url, 1, 4);
    NextSlashIs(url, 5, 9);
    NextSlashIs(url, 10, 17);
    InnerAndNext();
    InnerRefused();
  }

  lemma InnerAndNext()
    requires var url := NestedUrl(INNER, OUTER);
             NextSlash(url, 0) == 0 && NextSlash(url, 1) == 4 && NextSlash(url, 5) == 9 && NextSlash(url, 10) == 17 == |url|
    ensures ParamsFrom(NestedUrl(INNER, OUTER), 0) == [INNER, OUTER]
  {
    hide NextSlash;
    var url := NestedUrl(INNER, OUTER);
    assert OwnParam(url, 10, 17) == [];
    assert OwnParam(url, 5, 9) == [url[6..8]] && url[6..8] == OUTER;
    assert OwnParam(url, 1, 4) == [url[2..3]] && url[2..3] == INNER;
    assert ParamsFrom(url, 10) == [] + [];
    assert ParamsFrom(url, 5) == [OUTER] + ParamsFrom(url, 10);
    assert ParamsFrom(url, 1) == [INNER] + ParamsFrom(url, 5);
    assert ParamsFrom(url, 0) == [] + ParamsFrom(url, 1);
  }

  lemma InnerRefused()
    requires var url := NestedUrl(INNER, OUTER);
             NextSlash(url, 0) == 0 && NextSlash(url, 1) == 4 && NextSlash(url, 5) == 9 && NextSlash(url, 10) == 17 == |url|
    ensures !SegmentsOk(NestedUrl(INNER, OUTER), 0)
  {
    hide NextSlash;
    var url := NestedUrl(INNER, OUTER);
    assert url[10] == 113 && url[11] == OPEN;
    assert !SegmentsOk(url, 10);
    assert !SegmentsOk(url, 5) && !SegmentsOk(url, 1);
  }

  lemma OuterIsFirst()
    ensures PathParams(NestedUrl(OUTER, INNER)) == [OUTER, INNER] && !Published(NestedUrl(OUTER, INNER))
  {
    hide NextSlash;
    var url := NestedUrl(OUTER, INNER);
    assert url == [SLASH, OPEN, 120, 86, CLOSE, SLASH, OPEN, 97, CLOSE, SLASH, 113, OPEN, 120, OPEN, 97, CLOSE, CLOSE];
    NoScheme(url, 0);
    NextSlashIs(url, 0, 0);
    NextSlashIs(url, 1, 5);
    NextSlashIs(url, 6, 9);
    NextSlashIs(url, 10, 17);
    OuterAndNext();
    OuterRefused();
  }

  lemma OuterAndNext()
    requires var url := NestedUrl(OUTER, INNER);
             NextSlash(url, 0) == 0 && NextSlash(url, 1) == 5 && NextSlash(url, 6) == 9 && NextSlash(url, 10) == 17 == |url|
    ensures ParamsFrom(NestedUrl(OUTER, INNER), 0) == [OUTER, INNER]
  {
    hide NextSlash;
    var url := NestedUrl(OUTER, INNER);
    assert OwnParam(url, 10, 17) == [];
    assert OwnParam(url, 6, 9) == [url[7..8]] && url[7..8] == INNER;
    assert OwnParam(url, 1, 5) == [url[2..4]] && url[2..4] == OUTER;
    assert ParamsFrom(url, 10) == [] + [];
    assert ParamsFrom(url, 6) == [INNER] + ParamsFrom(url, 10);
    assert ParamsFrom(url, 1) == [OUTER] + ParamsFrom(url, 6);
    assert ParamsFrom(url, 0) == [] + ParamsFrom(url, 1);
  }

  lemma OuterRefused()
    requires var url := NestedUrl(OUTER, INNER);
             NextSlash(url, 0) == 0 && NextSlash(url, 1) == 5 && NextSlash(url, 6) == 9 && NextSlash(url, 10) == 17 == |url|
    ensures !SegmentsOk(NestedUrl(OUTER, INNER), 0)
  {
    hide NextSlash;
    var url := NestedUrl(OUTER, INNER);
    assert url[10] == 113 && url[11] == OPEN;
    assert !SegmentsOk(url, 10);
    assert !SegmentsOk(url, 6) && !SegmentsOk(url, 1);
  }

  /** The inner parameter put in first completes the outer one's name. */
  lemma InnerThenOuter()
    ensures var values := map[INNER := [86], OUTER := [49]];
            Substitute(NestedUrl(INNER, OUTER), [INNER, OUTER], values) == [SLASH, 86, SLASH, 49, SLASH, 113, 49]
  {
    hide Replace;
    var values := map[INNER := [86], OUTER := [49]];
    var rest := [SLASH, 113] + NESTED;
    var middle := [SLASH] + (Pattern(OUTER) + rest);
    assert NestedUrl(INNER, OUTER) == [SLASH] + (Pattern(INNER) + middle);
    ReplacePasses([SLASH], Pattern(INNER) + middle, INNER, [86]);
    ReplaceHits(middle, Pattern(INNER), [86]);
    ReplacePasses([SLASH], Pattern(OUTER) + rest, INNER, [86]);
    GroupPassedOver(OUTER, rest, INNER, [86]);
    ReplacePasses([SLASH, 113], NESTED, INNER, [86]);
    InnerPutIn();
    var once := [SLASH] + ([86] + ([SLASH] + (Pattern(OUTER) + ([SLASH, 113] + Pattern(OUTER)))));
    assert Replace(NestedUrl(INNER, OUTER), Pattern(INNER), [86]) == once;
    assert once == [SLASH, 86, SLASH] + (Pattern(OUTER) + ([SLASH, 113] + (Pattern(OUTER) + [])));
    ReplacePasses([SLASH, 86, SLASH], Pattern(OUTER) + ([SLASH, 113] + (Pattern(OUTER) + [])), OUTER, [49]);
    ReplaceHits([SLASH, 113] + (Pattern(OUTER) + []), Pattern(OUTER), [49]);
    ReplacePasses([SLASH, 113], Pattern(OUTER) + [], OUTER, [49]);
    ReplaceHits([], Pattern(OUTER), [49]);
    ReplaceEmpty(Pattern(OUTER), [49]);
    TwoSubstitutions(NestedUrl(INNER, OUTER), INNER, OUTER, values);
  }

  /** The outer one put in first finds no place there. */
  lemma OuterThenInner()
    ensures var values := map[INNER := [86], OUTER := [49]];
            Substitute(NestedUrl(OUTER, INNER), [OUTER, INNER], values) == [SLASH, 49, SLASH, 86, SLASH, 113] + Pattern(OUTER)
  {
    hide Replace;
    var values := map[INNER := [86], OUTER := [49]];
    var rest := [SLASH, 113] + NESTED;
    var middle := [SLASH] + (Pattern(INNER) + rest);
    assert NestedUrl(OUTER, INNER) == [SLASH] + (Pattern(OUTER) + middle);
    ReplacePasses([SLASH], Pattern(OUTER) + middle, OUTER, [49]);
    ReplaceHits(middle, Pattern(OUTER), [49]);
    ReplacePasses([SLASH], Pattern(INNER) + rest, OUTER, [49]);
    GroupPassedOver(INNER, rest, OUTER, [49]);
    ReplacePasses([SLASH, 113], NESTED, OUTER, [49]);
    OuterIsNotThere();
    var once := [SLASH, 49, SLASH] + (Pattern(INNER) + rest);
    assert Replace(NestedUrl(OUTER, INNER), Pattern(OUTER), [49]) == once;
    ReplacePasses([SLASH, 49, SLASH], Pattern(INNER) + rest, INNER, [86]);
    ReplaceHits(rest, Pattern(INNER), [86]);
    ReplacePasses([SLASH, 113], NESTED, INNER, [86]);
    InnerPutIn();
    TwoSubstitutions(NestedUrl(OUTER, INNER), OUTER, INNER, values);
  }

  lemma TwoSubstitutions(url: Bytes, a: Bytes, b: Bytes, values: map<Bytes, Bytes>)
    requires a in values && b in values
    ensures Substitute(url, [a, b], values) == Replace(Replace(url, Pattern(a), values[a]), Pattern(b), values[b])
  {
    hide Replace;
    assert [a, b][1..] == [b] && [b][1..] == [];
    assert Substitute(Replace(url, Pattern(a), values[a]), [b], values)
        == Substitute(Replace(Replace(url, Pattern(a), values[a]), Pattern(b), values[b]), [], values);
  }

  /** Such a URL is not published, and this is why: what one parameter puts in can
      complete another's name, and then the order of the segments decides. Of the
      parameters `a` and `xV` and a segment `q{x{a}}`, given `V` and `1`, the last
      segment is `q1` where `a` comes first and `q{xV}` where `xV` does. */
  lemma NestedBracesDependOnTheOrder()
    ensures var given := map[INNER := Text([86]), OUTER := Text([49])];
            var op, swapped := Operation(NestedUrl(INNER, OUTER), [], [], []), Operation(NestedUrl(OUTER, INNER), [], [], []);
            && PathParams(op.url) == [INNER, OUTER] && PathParams(swapped.url) == [OUTER, INNER]
            && !Published(op.url) && !Published(swapped.url)
            && PathOf(op, given) == [SLASH, 86, SLASH, 49, SLASH, 113, 49]
            && PathOf(swapped, given) == [SLASH, 49, SLASH, 86, SLASH, 113] + Pattern(OUTER)
  {
    hide Substitute, PathParams, NestedUrl, PathValues, Published;
    var given := map[INNER := Text([86]), OUTER := Text([49])];
    InnerIsFirst();
    OuterIsFirst();
    InnerThenOuter();
    OuterThenInner();
    BothValues([INNER, OUTER]);
    BothValues([OUTER, INNER]);
  }

  lemma BothValues(names: seq<Bytes>)
    requires names == [INNER, OUTER] || names == [OUTER, INNER]
    ensures PathValues(names, map[INNER := Text([86]), OUTER := Text([49])]) == map[INNER := [86], OUTER := [49]]
  {
    hide PercentEncode, TextOf;
    var given := map[INNER := Text([86]), OUTER := Text([49])];
    TextsEncode();
    assert PathValue(given, INNER) == [86] && PathValue(given, OUTER) == [49];
    assert forall n :: n in names <==> n in {INNER, OUTER};
    assert PathValues(names, given) == map[INNER := [86], OUTER := [49]];
  }

  lemma TextsEncode()
    ensures PercentEncode(TextOf(Text([86]))) == [86] && PercentEncode(TextOf(Text([49]))) == [49]
  {
    assert [86][1..] == [] && [49][1..] == [];
  }
}
