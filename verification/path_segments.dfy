/** The path of a request as it is read: split at its slashes, its dot-segments
    removed (section 5.2.4 of RFC 3986). A value put into a path cannot add a
    segment; where it is dots, it can take one away. */
module PathSegments {
  import opened Basics
  import opened Utf8
  import opened OperationUrl

  const DOT: Byte := 46
  const HASH: Byte := 35

  /** A dot, as itself or as a path may spell it. */
  const DOTS: seq<Bytes> := [[DOT], [PERCENT, 50, 101], [PERCENT, 50, 69]]

  predicate IsSingleDot(segment: Bytes) {
    segment in DOTS
  }

  predicate IsDoubleDot(segment: Bytes) {
    exists i, j :: 0 <= i < 3 && 0 <= j < 3 && segment == DOTS[i] + DOTS[j]
  }

  predicate IsDots(segment: Bytes) {
    IsSingleDot(segment) || IsDoubleDot(segment)
  }

  /** The removal of dot-segments (section 5.2.4 of RFC 3986), a segment at a time:
      one dot is nothing, two take the segment before them away, and at the end
      either leaves an empty segment. */
  function RemoveDots(segments: seq<Bytes>, i: nat, kept: seq<Bytes>): seq<Bytes>
    requires i <= |segments|
    decreases |segments| - i
  {
    if i == |segments| then kept
    else
      var last := if i + 1 == |segments| then [[]] else [];
      if IsDoubleDot(segments[i]) then
        RemoveDots(segments, i + 1, (if kept == [] then [] else kept[..|kept| - 1]) + last)
      else if IsSingleDot(segments[i]) then RemoveDots(segments, i + 1, kept + last)
      else RemoveDots(segments, i + 1, kept + [segments[i]])
  }

  predicate NoDots(segments: seq<Bytes>) {
    forall k :: 0 <= k < |segments| ==> !IsDots(segments[k])
  }

  lemma EmptyIsNoDot()
    ensures !IsDots([])
  {
  }

  lemma {:induction false} NoDotsAreLeft(segments: seq<Bytes>, i: nat, kept: seq<Bytes>)
    requires i <= |segments| && NoDots(kept)
    ensures NoDots(RemoveDots(segments, i, kept))
    decreases |segments| - i
  {
    hide IsDoubleDot, IsSingleDot;
    if i < |segments| {
      EmptyIsNoDot();
      var last := if i + 1 == |segments| then [[]] else [];
      if IsDoubleDot(segments[i]) {
        NoDotsAreLeft(segments, i + 1, (if kept == [] then [] else kept[..|kept| - 1]) + last);
      } else if IsSingleDot(segments[i]) {
        NoDotsAreLeft(segments, i + 1, kept + last);
      } else {
        NoDotsAreLeft(segments, i + 1, kept + [segments[i]]);
      }
    }
  }

  lemma {:induction false} NothingToRemove(segments: seq<Bytes>, i: nat)
    requires i <= |segments| && NoDots(segments)
    ensures RemoveDots(segments, i, segments[..i]) == segments
    decreases |segments| - i
  {
    hide IsDoubleDot, IsSingleDot;
    if i < |segments| {
      assert !IsDots(segments[i]);
      assert segments[..i] + [segments[i]] == segments[..i + 1];
      NothingToRemove(segments, i + 1);
    } else {
      assert segments[..i] == segments;
    }
  }

  /** Segments survive exactly where none of them is dots. */
  lemma SegmentsSurviveIff(segments: seq<Bytes>)
    ensures RemoveDots(segments, 0, []) == segments <==> NoDots(segments)
  {
    NoDotsAreLeft(segments, 0, []);
    if NoDots(segments) {
      assert segments[..0] == [];
      NothingToRemove(segments, 0);
    }
  }

  /** Encoding leaves dots alone, and makes none. */
  lemma EncodedDots(value: Bytes)
    ensures IsDots(PercentEncode(value)) <==> value == [DOT] || value == [DOT, DOT]
  {
    hide IsSingleDot, IsDoubleDot;
    var e := PercentEncode(value);
    DecodeEncode(value);
    if IsDots(e) {
      DotsDecode(e);
    }
    if value == [DOT] || value == [DOT, DOT] {
      DotsEncode();
    }
  }

  lemma DotsEncode()
    ensures PercentEncode([DOT]) == [DOT] && PercentEncode([DOT, DOT]) == [DOT, DOT]
    ensures IsDots([DOT]) && IsDots([DOT, DOT])
  {
    assert [DOT][1..] == [] && [DOT, DOT][1..] == [DOT];
    assert PercentEncode([DOT]) == [DOT] + PercentEncode([]) == [DOT];
    assert DOTS[0] + DOTS[0] == [DOT, DOT] && DOTS[0] == [DOT];
  }

  lemma DotDecodes(k: nat, rest: Bytes)
    requires k < 3
    ensures PercentDecode(DOTS[k] + rest) == [DOT] + PercentDecode(rest)
  {
    var s := DOTS[k] + rest;
    assert s[|DOTS[k]|..] == rest;
    assert forall i :: 0 <= i < |DOTS[k]| ==> s[i] == DOTS[k][i];
  }

  lemma DotsDecode(segment: Bytes)
    requires IsDots(segment)
    ensures PercentDecode(segment) == [DOT] || PercentDecode(segment) == [DOT, DOT]
  {
    if IsSingleDot(segment) {
      var k :| 0 <= k < 3 && DOTS[k] == segment;
      DotDecodes(k, []);
      assert DOTS[k] + [] == segment;
    } else {
      var i, j :| 0 <= i < 3 && 0 <= j < 3 && segment == DOTS[i] + DOTS[j];
      DotDecodes(i, DOTS[j]);
      DotDecodes(j, []);
      assert DOTS[j] + [] == DOTS[j];
    }
  }

  /** The segments of a path, between its slashes. */
  function Segments(path: Bytes): (segments: seq<Bytes>)
    ensures segments != []
  {
    if path == [] then [[]]
    else
      var rest := Segments(path[1..]);
      if path[0] == SLASH then [[]] + rest else [[path[0]] + rest[0]] + rest[1..]
  }

  /** And of a template. */
  function TokenSegments(ts: seq<Token>): (segments: seq<seq<Token>>)
    ensures segments != []
  {
    if ts == [] then [[]]
    else
      var rest := TokenSegments(ts[1..]);
      if ts[0] == Lit(SLASH) then [[]] + rest else [[ts[0]] + rest[0]] + rest[1..]
  }

  function Filled(segments: seq<seq<Token>>, names: set<Bytes>, values: map<Bytes, Bytes>): seq<Bytes>
    requires names <= values.Keys
  {
    seq(|segments|, k requires 0 <= k < |segments| => Render(PutIn(segments[k], names, values)))
  }

  lemma {:induction false} SegmentsAfter(run: Bytes, rest: Bytes)
    requires SLASH !in run
    ensures Segments(run + rest) == [run + Segments(rest)[0]] + Segments(rest)[1..]
    decreases |run|
  {
    if run == [] {
      assert run + rest == rest && [] + Segments(rest)[0] == Segments(rest)[0];
    } else {
      assert (run + rest)[0] == run[0] && (run + rest)[1..] == run[1..] + rest;
      SegmentsAfter(run[1..], rest);
      assert [run[0]] + (run[1..] + Segments(rest)[0]) == run + Segments(rest)[0];
    }
  }

  /** A path's segments, from one slash to the next. */
  lemma SegmentsFrom(url: Bytes, at: nat)
    requires at <= |url|
    ensures var end := NextSlash(url, at);
            Segments(url[at..]) == [url[at..end]] + if end < |url| then Segments(url[end + 1..]) else []
  {
    hide Segments;
    var end := NextSlash(url, at);
    var run := url[at..end];
    assert SLASH !in run;
    NoSegmentsLeft();
    if end < |url| {
      assert url[at..] == run + ([SLASH] + url[end + 1..]);
      SegmentsAfter(run, [SLASH] + url[end + 1..]);
      SlashBegins(url[end + 1..]);
      assert run + [] == run;
    } else {
      assert url[at..] == run + [];
      SegmentsAfter(run, []);
      assert run + [] == run;
    }
  }

  lemma NoSegmentsLeft()
    ensures Segments([]) == [[]]
  {
  }

  /** A path's parameters are exactly the names that stand in braces as a segment. */
  lemma {:induction false} AParameterIsASegment(url: Bytes, at: nat, name: Bytes)
    requires at <= |url| && SLASH !in name
    ensures name in ParamsFrom(url, at) <==> Pattern(name) in Segments(url[at..])
    decreases |url| - at
  {
    hide Segments, OwnParam, NextSlash, Pattern, ParamsFrom;
    var end := NextSlash(url, at);
    SegmentsFrom(url, at);
    InBraces(url, at, end, name);
    ParamsUnfold(url, at);
    var own, more, rest := OwnParam(url, at, end), [], [];
    if end < |url| {
      AParameterIsASegment(url, end + 1, name);
      more, rest := ParamsFrom(url, end + 1), Segments(url[end + 1..]);
    }
    BothHave(name, ParamsFrom(url, at), own, more, Pattern(name), Segments(url[at..]), url[at..end], rest);
  }

  lemma ParamsUnfold(url: Bytes, at: nat)
    requires at <= |url|
    ensures var end := NextSlash(url, at);
            ParamsFrom(url, at) == OwnParam(url, at, end) + if end < |url| then ParamsFrom(url, end + 1) else []
  {
  }

  lemma BothHave(name: Bytes, names: seq<Bytes>, own: seq<Bytes>, more: seq<Bytes>,
                 pattern: Bytes, segments: seq<Bytes>, segment: Bytes, rest: seq<Bytes>)
    requires names == own + more && segments == [segment] + rest
    requires (name in own <==> pattern == segment) && (name in more <==> pattern in rest)
    ensures name in names <==> pattern in segments
  {
  }

  lemma InBraces(url: Bytes, at: nat, end: nat, name: Bytes)
    requires at <= end <= |url|
    ensures name in OwnParam(url, at, end) <==> Pattern(name) == url[at..end]
  {
    var s := url[at..end];
    if name in OwnParam(url, at, end) {
      assert s == [OPEN] + url[at + 1..end - 1] + [CLOSE];
    }
    if Pattern(name) == s {
      assert |s| == |name| + 2 && s[0] == OPEN && s[|s| - 1] == CLOSE;
      assert forall k :: 0 <= k < |name| ==> s[k + 1] == Pattern(name)[k + 1] == name[k];
      assert url[at + 1..end - 1] == name;
    }
  }

  predicate NoSlashInside(ts: seq<Token>, values: map<Bytes, Bytes>) {
    forall k :: 0 <= k < |ts| && ts[k].Group? ==>
      SLASH !in ts[k].name && (ts[k].name in values ==> SLASH !in values[ts[k].name])
  }

  /** What a token is filled in as. */
  function FilledToken(t: Token, names: set<Bytes>, values: map<Bytes, Bytes>): Bytes
    requires names <= values.Keys
  {
    if t.Group? && t.name in names then values[t.name] else TokenText(t)
  }

  lemma FilledOne(ts: seq<Token>, names: set<Bytes>, values: map<Bytes, Bytes>)
    requires names <= values.Keys && ts != []
    ensures Render(PutIn(ts, names, values)) == FilledToken(ts[0], names, values) + Render(PutIn(ts[1..], names, values))
  {
    var rest := PutIn(ts[1..], names, values);
    if ts[0].Group? && ts[0].name in names {
      LitsRender(values[ts[0].name]);
      RenderTwo(Lits(values[ts[0].name]), rest);
    } else {
      RenderTwo([ts[0]], rest);
      assert Render([ts[0]]) == TokenText(ts[0]) + Render([]) by { assert [ts[0]][1..] == []; }
    }
  }

  lemma FilledIntoFirst(t: Token, rest: seq<seq<Token>>, names: set<Bytes>, values: map<Bytes, Bytes>)
    requires names <= values.Keys && rest != []
    ensures Filled([[t] + rest[0]] + rest[1..], names, values) ==
              [FilledToken(t, names, values) + Filled(rest, names, values)[0]] + Filled(rest, names, values)[1..]
  {
    hide Render, PutIn, FilledToken;
    FilledOneMore(t, rest[0], names, values);
    var all := [[t] + rest[0]] + rest[1..];
    assert forall k :: 1 <= k < |rest| ==> all[k] == rest[k];
  }

  lemma FilledOneMore(t: Token, rest: seq<Token>, names: set<Bytes>, values: map<Bytes, Bytes>)
    requires names <= values.Keys
    ensures Render(PutIn([t] + rest, names, values)) == FilledToken(t, names, values) + Render(PutIn(rest, names, values))
  {
    hide Render, PutIn, FilledToken;
    FilledOne([t] + rest, names, values);
    assert ([t] + rest)[1..] == rest;
  }

  /** The path filled in has the template's segments, each filled in. */
  lemma {:induction false} SegmentsAreFilled(ts: seq<Token>, names: set<Bytes>, values: map<Bytes, Bytes>)
    requires names <= values.Keys && NoSlashInside(ts, values)
    ensures Segments(Render(PutIn(ts, names, values))) == Filled(TokenSegments(ts), names, values)
    decreases |ts|
  {
    hide Segments, TokenSegments, PutIn, Render;
    if ts == [] {
      NothingFilled(names, values);
    } else {
      var rest := Render(PutIn(ts[1..], names, values));
      SegmentsAreFilled(ts[1..], names, values);
      FilledOne(ts, names, values);
      if ts[0] == Lit(SLASH) {
        SlashSplits(ts, rest, names, values);
      } else {
        assert SLASH !in FilledToken(ts[0], names, values);
        SegmentsAfter(FilledToken(ts[0], names, values), rest);
        FilledIntoFirst(ts[0], TokenSegments(ts[1..]), names, values);
        NoSlashSplitsNot(ts);
      }
    }
  }

  lemma NothingFilled(names: set<Bytes>, values: map<Bytes, Bytes>)
    requires names <= values.Keys
    ensures Segments(Render(PutIn([], names, values))) == Filled(TokenSegments([]), names, values)
  {
  }

  lemma NoSlashSplitsNot(ts: seq<Token>)
    requires ts != [] && ts[0] != Lit(SLASH)
    ensures TokenSegments(ts) == [[ts[0]] + TokenSegments(ts[1..])[0]] + TokenSegments(ts[1..])[1..]
  {
  }

  lemma SlashSplits(ts: seq<Token>, rest: Bytes, names: set<Bytes>, values: map<Bytes, Bytes>)
    requires names <= values.Keys && ts != [] && ts[0] == Lit(SLASH)
    requires Segments(rest) == Filled(TokenSegments(ts[1..]), names, values)
    ensures Segments([SLASH] + rest) == Filled(TokenSegments(ts), names, values)
  {
    hide Segments, TokenSegments, Filled;
    SlashBegins(rest);
    SlashTokenBegins(ts);
    EmptyFilledFirst(TokenSegments(ts[1..]), names, values);
  }

  lemma SlashBegins(rest: Bytes)
    ensures Segments([SLASH] + rest) == [[]] + Segments(rest)
  {
    assert ([SLASH] + rest)[1..] == rest;
  }

  lemma SlashTokenBegins(ts: seq<Token>)
    requires ts != [] && ts[0] == Lit(SLASH)
    ensures TokenSegments(ts) == [[]] + TokenSegments(ts[1..])
  {
  }

  lemma EmptyFilledFirst(rest: seq<seq<Token>>, names: set<Bytes>, values: map<Bytes, Bytes>)
    requires names <= values.Keys
    ensures Filled([[]] + rest, names, values) == [[]] + Filled(rest, names, values)
  {
    hide Render, PutIn;
    NothingRenders(names, values);
    var all := [[]] + rest;
    assert forall k :: 1 <= k < |all| ==> all[k] == rest[k - 1];
  }

  lemma NothingRenders(names: set<Bytes>, values: map<Bytes, Bytes>)
    requires names <= values.Keys
    ensures Render(PutIn([], names, values)) == []
  {
  }

  // ---- An operation's path ----------------------------------------------------------------------

  /** Where the path's first segment begins: after its first slash. */
  function PathAt(url: Bytes): (at: nat)
    ensures at <= |url|
  {
    var slash := NextSlash(url, SchemeEnd(url, 0));
    if slash < |url| then slash + 1 else slash
  }

  /** The template of an operation's path. */
  function PathTokens(op: Operation): Option<seq<Token>> {
    TokensFrom(op.url, PathAt(op.url))
  }

  /** A URL whose braces are in its path and closed, each pair in one segment, with
      neither query nor fragment of its own. */
  predicate PlainPath(op: Operation) {
    && OPEN !in op.url[..PathAt(op.url)] && QUESTION !in op.url && HASH !in op.url
    && PathTokens(op).Some? && (forall n :: n in PathParams(op.url) ==> BraceFree(n))
    && forall k :: 0 <= k < |PathTokens(op).value| && PathTokens(op).value[k].Group? ==> SLASH !in PathTokens(op).value[k].name
  }

  /** The segments of the path an operation's URL is built with, and those left of
      them once a reader has removed the dots. */
  function BuiltSegments(op: Operation, given: map<Bytes, Value>): seq<Bytes> {
    Segments(Substitute(op.url[PathAt(op.url)..], PathParams(op.url), PathValues(PathParams(op.url), given)))
  }

  function SegmentsRead(op: Operation, given: map<Bytes, Value>): seq<Bytes> {
    RemoveDots(BuiltSegments(op, given), 0, [])
  }

  /** What a parameter's value is, before it is encoded. */
  function RawValue(given: map<Bytes, Value>, name: Bytes): Bytes {
    if name in given then TextOf(given[name]) else []
  }

  lemma {:induction false} SubstituteAfter(base: Bytes, rest: Bytes, names: seq<Bytes>, values: map<Bytes, Bytes>)
    requires OPEN !in base && forall i :: 0 <= i < |names| ==> names[i] in values
    ensures Substitute(base + rest, names, values) == base + Substitute(rest, names, values)
    decreases |names|
  {
    if names != [] {
      ReplacePasses(base, rest, names[0], values[names[0]]);
      SubstituteAfter(base, Replace(rest, Pattern(names[0]), values[names[0]]), names[1..], values);
    }
  }

  /** The template's segments, filled in, are the path's; nothing before the path
      is touched. */
  lemma SegmentsOfThePath(op: Operation, given: map<Bytes, Value>)
    requires PlainPath(op)
    ensures var names := PathParams(op.url);
            && SetOf(names) <= PathValues(names, given).Keys
            && BuiltSegments(op, given) == Filled(TokenSegments(PathTokens(op).value), SetOf(names), PathValues(names, given))
    ensures var at, names := PathAt(op.url), PathParams(op.url);
            PathOf(op, given) == op.url[..at] + Substitute(op.url[at..], names, PathValues(names, given))
  {
    hide Substitute, Render, PutIn, Segments, TokenSegments, TokensFrom, PathParams;
    var at, names, ts := PathAt(op.url), PathParams(op.url), PathTokens(op).value;
    var values := PathValues(names, given);
    TokensRender(op.url, at);
    forall i | 0 <= i < |names| ensures BraceFree(names[i]) && OPEN !in values[names[i]] {
      EncodedHasNoMarks(RawValue(given, names[i]));
    }
    OneAtATimeIsAllAtOnce(ts, names, values);
    forall n | n in values ensures SLASH !in values[n] {
      EncodedHasNoMarks(RawValue(given, n));
    }
    SegmentsAreFilled(ts, SetOf(names), values);
    assert op.url == op.url[..at] + op.url[at..];
    SubstituteAfter(op.url[..at], op.url[at..], names, values);
  }

  /** The segments of a path survive exactly where no segment of its template is,
      filled in, one dot or two. */
  lemma SegmentsSurviveUnlessDots(op: Operation, given: map<Bytes, Value>)
    requires PlainPath(op)
    ensures var names, template := PathParams(op.url), TokenSegments(PathTokens(op).value);
            && |BuiltSegments(op, given)| == |template|
            && SetOf(names) <= PathValues(names, given).Keys
            && (SegmentsRead(op, given) == BuiltSegments(op, given) <==>
                  forall k :: 0 <= k < |template| ==> !IsDots(Render(PutIn(template[k], SetOf(names), PathValues(names, given)))))
  {
    hide Substitute, Render, PutIn, Segments, TokenSegments, TokensFrom, PathParams, IsDots, RemoveDots;
    SegmentsOfThePath(op, given);
    SegmentsSurviveIff(BuiltSegments(op, given));
    var names, template := PathParams(op.url), TokenSegments(PathTokens(op).value);
    assert forall k :: 0 <= k < |template| ==>
      BuiltSegments(op, given)[k] == Render(PutIn(template[k], SetOf(names), PathValues(names, given)));
  }

  /** A segment that is one parameter, or is the template's own. */
  predicate WholeOrLiteral(segment: seq<Token>) {
    (|segment| == 1 && segment[0].Group?) || (forall k :: 0 <= k < |segment| ==> segment[k].Lit?)
  }

  lemma {:induction false} LiteralsStay(ts: seq<Token>, names: set<Bytes>, values: map<Bytes, Bytes>)
    requires names <= values.Keys && forall k :: 0 <= k < |ts| ==> ts[k].Lit?
    ensures PutIn(ts, names, values) == ts
    decreases |ts|
  {
    if ts != [] { LiteralsStay(ts[1..], names, values); }
  }

  lemma ParameterIsDotsIff(name: Bytes, names: seq<Bytes>, given: map<Bytes, Value>)
    requires SetOf(names) <= PathValues(names, given).Keys
    ensures IsDots(Render(PutIn([Group(name)], SetOf(names), PathValues(names, given)))) <==>
              name in names && RawValue(given, name) in {[DOT], [DOT, DOT]}
  {
    hide IsDots, Render, PutIn, PercentEncode;
    var values := PathValues(names, given);
    FilledOneMore(Group(name), [], SetOf(names), values);
    NothingRenders(SetOf(names), values);
    assert [Group(name)] + [] == [Group(name)];
    assert name in names <==> name in SetOf(names);
    EncodedDots(RawValue(given, name));
    BracesAreNoDots(name);
    var filled := FilledToken(Group(name), SetOf(names), values);
    assert filled + [] == filled;
  }

  /** A segment of the template that is dots itself, or a parameter given as dots. */
  predicate ComesToDots(segment: seq<Token>, names: seq<Bytes>, given: map<Bytes, Value>) {
    if |segment| == 1 && segment[0].Group?
    then segment[0].name in names && RawValue(given, segment[0].name) in {[DOT], [DOT, DOT]}
    else IsDots(Render(segment))
  }

  lemma SegmentIsDotsIff(segment: seq<Token>, names: seq<Bytes>, given: map<Bytes, Value>)
    requires WholeOrLiteral(segment) && SetOf(names) <= PathValues(names, given).Keys
    ensures IsDots(Render(PutIn(segment, SetOf(names), PathValues(names, given)))) <==> ComesToDots(segment, names, given)
  {
    hide IsDots, Render, PutIn, PathValues;
    if |segment| == 1 && segment[0].Group? {
      ParameterIsDotsIff(segment[0].name, names, given);
      assert segment == [Group(segment[0].name)];
    } else {
      LiteralsStay(segment, SetOf(names), PathValues(names, given));
    }
  }

  lemma BracesAreNoDots(name: Bytes)
    ensures !IsDots(Pattern(name))
  {
    assert Pattern(name)[0] == OPEN;
    assert forall i, j :: 0 <= i < 3 && 0 <= j < 3 ==> (DOTS[i] + DOTS[j])[0] == DOTS[i][0] != OPEN;
  }

  /** The main claim: where each segment of the template is one parameter or its
      own text, the path's segments are read as they were built, if and only if no
      text is dots and no parameter is given as one dot or two. */
  lemma SegmentsSurviveUnlessAValueIsDots(op: Operation, given: map<Bytes, Value>)
    requires PlainPath(op)
    requires forall k :: 0 <= k < |TokenSegments(PathTokens(op).value)| ==> WholeOrLiteral(TokenSegments(PathTokens(op).value)[k])
    ensures var template := TokenSegments(PathTokens(op).value);
            SegmentsRead(op, given) == BuiltSegments(op, given) <==>
              forall k :: 0 <= k < |template| ==> !ComesToDots(template[k], PathParams(op.url), given)
  {
    SegmentsSurviveUnlessDots(op, given);
    hide BuiltSegments, SegmentsRead, Render, PutIn, PathValues, PathParams, IsDots, WholeOrLiteral, ComesToDots;
    var names, template := PathParams(op.url), TokenSegments(PathTokens(op).value);
    forall k | 0 <= k < |template|
      ensures IsDots(Render(PutIn(template[k], SetOf(names), PathValues(names, given)))) <==> ComesToDots(template[k], names, given)
    {
      SegmentIsDotsIff(template[k], names, given);
    }
  }
}
