/** The request an operation declares, built from the arguments a model gave:
    what is refused before anything is sent, the path with its parameters in
    place, and the query. Percent-encoding is that of sections 2.1 and 2.3 of
    RFC 3986. */
module OperationUrl {
  import opened Basics
  import opened Utf8

  type Bytes = seq<Byte>

  const SLASH: Byte := 47
  const OPEN: Byte := 123
  const CLOSE: Byte := 125
  const PERCENT: Byte := 37
  const QUESTION: Byte := 63
  const EQUALS: Byte := 61
  const AND: Byte := 38

  // ---- Percent-encoding --------------------------------------------------------------------

  predicate Unreserved(b: Byte) {
    65 <= b <= 90 || 97 <= b <= 122 || 48 <= b <= 57 || b == 45 || b == 95 || b == 46 || b == 126
  }

  function HexUpper(d: nat): (b: Byte)
    requires d < 16
    ensures Unreserved(b)
  {
    if d < 10 then 48 + d else 55 + d
  }

  function EncodeByte(b: Byte): Bytes {
    if Unreserved(b) then [b] else [PERCENT, HexUpper(b / 16), HexUpper(b % 16)]
  }

  function PercentEncode(value: Bytes): Bytes {
    if value == [] then [] else EncodeByte(value[0]) + PercentEncode(value[1..])
  }

  lemma EncodeStep(out: Bytes, value: Bytes, i: nat, whole: Bytes)
    requires i < |value| && out + PercentEncode(value[i..]) == whole
    ensures (out + EncodeByte(value[i])) + PercentEncode(value[i + 1..]) == whole
  {
    assert value[i..][1..] == value[i + 1..];
  }

  method Encode(value: Bytes) returns (out: Bytes)
    ensures out == PercentEncode(value)
  {
    hide EncodeByte;
    out := [];
    var i := 0;
    ghost var whole := PercentEncode(value);
    while i < |value|
      invariant i <= |value|
      invariant out + PercentEncode(value[i..]) == whole
    {
      EncodeStep(out, value, i, whole);
      out := out + EncodeByte(value[i]);
      i := i + 1;
    }
  }

  const DIGITS := "0123456789ABCDEF"

  /** The characters left as they are are those of section 2.3 of RFC 3986, and the
      digits of the others are upper-case, as its section 2.1 would have them. */
  lemma ByteIsEncoded(b: Byte)
    ensures var c := b as char;
            EncodeByte(b) == [b] <==>
              'A' <= c <= 'Z' || 'a' <= c <= 'z' || '0' <= c <= '9' || c == '-' || c == '.' || c == '_' || c == '~'
    ensures EncodeByte(b) != [b] ==> EncodeByte(b) == [37, DIGITS[b / 16] as int, DIGITS[b % 16] as int]
  {
  }

  function HexValue(b: Byte): Option<nat> {
    if 48 <= b <= 57 then Some(b - 48)
    else if 65 <= b <= 70 then Some(b - 55)
    else if 97 <= b <= 102 then Some(b - 87)
    else None
  }

  /** What the server reads: a percent sign and two hex digits are a byte, and
      anything else is itself. */
  function PercentDecode(s: Bytes): Bytes {
    if s == [] then []
    else if s[0] == PERCENT && |s| >= 3 && HexValue(s[1]).Some? && HexValue(s[2]).Some?
            && HexValue(s[1]).value * 16 + HexValue(s[2]).value < 256
    then [HexValue(s[1]).value * 16 + HexValue(s[2]).value] + PercentDecode(s[3..])
    else [s[0]] + PercentDecode(s[1..])
  }

  lemma DecodesByte(b: Byte, rest: Bytes)
    ensures PercentDecode(EncodeByte(b) + rest) == [b] + PercentDecode(rest)
  {
    var e := EncodeByte(b);
    assert (e + rest)[|e|..] == rest;
    assert forall i :: 0 <= i < |e| ==> (e + rest)[i] == e[i];
    if !Unreserved(b) {
      assert HexValue(HexUpper(b / 16)) == Some(b / 16) && HexValue(HexUpper(b % 16)) == Some(b % 16);
    }
  }

  /** Decoding what was encoded gives it back, for any bytes at all. */
  lemma {:induction false} DecodeEncode(value: Bytes)
    ensures PercentDecode(PercentEncode(value)) == value
  {
    if value != [] {
      DecodesByte(value[0], PercentEncode(value[1..]));
      DecodeEncode(value[1..]);
    }
  }

  /** An encoded value is letters, digits, four marks and percent signs. Of these
      only dots mean anything to a URL, and only where they are a whole segment:
      see `PathSegments`. */
  lemma {:induction false} EncodedIsInert(value: Bytes)
    ensures forall i :: 0 <= i < |PercentEncode(value)| ==>
              Unreserved(PercentEncode(value)[i]) || PercentEncode(value)[i] == PERCENT
  {
    if value != [] { EncodedIsInert(value[1..]); }
  }

  // ---- Path parameters ------------------------------------------------------------------------

  /** Where the path of a URL begins: the first slash after the scheme. */
  function SchemeEnd(url: Bytes, i: nat): (end: nat)
    requires i <= |url|
    ensures end <= |url|
    decreases |url| - i
  {
    if i + 3 > |url| then 0
    else if url[i] == 58 && url[i + 1] == SLASH && url[i + 2] == SLASH then i + 3
    else SchemeEnd(url, i + 1)
  }

  function NextSlash(url: Bytes, i: nat): (k: nat)
    requires i <= |url|
    ensures i <= k <= |url| && (k < |url| ==> url[k] == SLASH)
    ensures forall j :: i <= j < k ==> url[j] != SLASH
    decreases |url| - i
  {
    if i == |url| || url[i] == SLASH then i else NextSlash(url, i + 1)
  }

  /** The names of the segments from a byte on that are `{name}`. */
  function ParamsFrom(url: Bytes, at: nat): seq<Bytes>
    requires at <= |url|
    decreases |url| - at
  {
    var end := NextSlash(url, at);
    OwnParam(url, at, end) + if end < |url| then ParamsFrom(url, end + 1) else []
  }

  function OwnParam(url: Bytes, at: nat, end: nat): seq<Bytes>
    requires at <= end <= |url|
  {
    if end - at >= 2 && url[at] == OPEN && url[end - 1] == CLOSE then [url[at + 1..end - 1]] else []
  }

  function PathParams(url: Bytes): seq<Bytes> {
    ParamsFrom(url, NextSlash(url, SchemeEnd(url, 0)))
  }

  function Pattern(name: Bytes): Bytes {
    [OPEN] + name + [CLOSE]
  }

  /** Every occurrence of a pattern replaced, from the left. */
  function Replace(s: Bytes, pattern: Bytes, into: Bytes): Bytes
    requires pattern != []
    decreases |s|
  {
    if s == [] then []
    else if pattern <= s then into + Replace(s[|pattern|..], pattern, into)
    else [s[0]] + Replace(s[1..], pattern, into)
  }

  /** The parameters put in one at a time. */
  function Substitute(url: Bytes, names: seq<Bytes>, values: map<Bytes, Bytes>): Bytes
    requires forall i :: 0 <= i < |names| ==> names[i] in values
    decreases |names|
  {
    if names == [] then url
    else Substitute(Replace(url, Pattern(names[0]), values[names[0]]), names[1..], values)
  }

  // ---- Templates whose braces are closed -----------------------------------------------------

  datatype Token = Lit(b: Byte) | Group(name: Bytes)

  predicate BraceFree(s: Bytes) {
    OPEN !in s && CLOSE !in s
  }

  predicate TokenOk(t: Token) {
    match t
    case Lit(b) => b != OPEN
    case Group(name) => BraceFree(name)
  }

  predicate TokensOk(ts: seq<Token>) {
    forall i :: 0 <= i < |ts| ==> TokenOk(ts[i])
  }

  function Render(ts: seq<Token>): Bytes {
    if ts == [] then []
    else TokenText(ts[0]) + Render(ts[1..])
  }

  function Lits(s: Bytes): seq<Token> {
    if s == [] then [] else [Lit(s[0])] + Lits(s[1..])
  }

  /** All of some parameters put in at once. */
  function PutIn(ts: seq<Token>, names: set<Bytes>, values: map<Bytes, Bytes>): seq<Token>
    requires names <= values.Keys
  {
    if ts == [] then []
    else PutOne(ts[0], names, values) + PutIn(ts[1..], names, values)
  }

  function PutOne(t: Token, names: set<Bytes>, values: map<Bytes, Bytes>): seq<Token>
    requires names <= values.Keys
  {
    if t.Group? && t.name in names then Lits(values[t.name]) else [t]
  }

  lemma ReplaceMisses(b: Byte, rest: Bytes, pattern: Bytes, into: Bytes)
    requires pattern != [] && !(pattern <= [b] + rest)
    ensures Replace([b] + rest, pattern, into) == [b] + Replace(rest, pattern, into)
  {
    assert ([b] + rest)[1..] == rest;
  }

  lemma ReplaceHits(rest: Bytes, pattern: Bytes, into: Bytes)
    requires pattern != []
    ensures Replace(pattern + rest, pattern, into) == into + Replace(rest, pattern, into)
  {
    assert (pattern + rest)[|pattern|..] == rest;
  }

  /** Bytes that open nothing are passed over. */
  lemma {:induction false} ReplacePasses(run: Bytes, rest: Bytes, name: Bytes, into: Bytes)
    requires OPEN !in run
    ensures Replace(run + rest, Pattern(name), into) == run + Replace(rest, Pattern(name), into)
    decreases |run|
  {
    if run == [] {
      assert run + rest == rest;
    } else {
      assert run + rest == [run[0]] + (run[1..] + rest);
      assert Pattern(name)[0] == OPEN;
      ReplaceMisses(run[0], run[1..] + rest, Pattern(name), into);
      ReplacePasses(run[1..], rest, name, into);
      assert run + Replace(rest, Pattern(name), into) == [run[0]] + (run[1..] + Replace(rest, Pattern(name), into));
    }
  }

  /** One group is another's pattern only where the names are the same. */
  lemma GroupsDiffer(name: Bytes, other: Bytes, rest: Bytes)
    requires BraceFree(name) && BraceFree(other) && Pattern(name) <= Pattern(other) + rest
    ensures name == other
  {
    var s := Pattern(other) + rest;
    assert forall i :: 0 <= i < |Pattern(name)| ==> Pattern(name)[i] == s[i];
    assert forall i :: 1 <= i <= |name| ==> s[i] == name[i - 1] && s[i] != CLOSE;
    assert forall i :: 1 <= i <= |other| ==> s[i] == other[i - 1] && s[i] != CLOSE;
    assert s[|name| + 1] == CLOSE && s[|other| + 1] == CLOSE;
    assert |name| == |other| && forall i :: 0 <= i < |name| ==> name[i] == s[i + 1] == other[i];
  }

  lemma {:induction false} RenderTwo(a: seq<Token>, b: seq<Token>)
    ensures Render(a + b) == Render(a) + Render(b)
    decreases |a|
  {
    if a == [] {
      assert a + b == b;
    } else {
      assert (a + b)[0] == a[0] && (a + b)[1..] == a[1..] + b;
      RenderTwo(a[1..], b);
    }
  }

  lemma {:induction false} LitsRender(s: Bytes)
    ensures Render(Lits(s)) == s
  {
    if s != [] {
      assert Lits(s)[1..] == Lits(s[1..]);
      LitsRender(s[1..]);
    }
  }

  lemma {:induction false} LitsOk(s: Bytes)
    requires OPEN !in s
    ensures TokensOk(Lits(s))
  {
    if s != [] { LitsOk(s[1..]); }
  }

  /** Replacing one parameter's pattern in such a template puts in that parameter
      and disturbs no other. */
  lemma {:induction false} ReplacePutsIn(ts: seq<Token>, name: Bytes, values: map<Bytes, Bytes>)
    requires TokensOk(ts) && BraceFree(name) && name in values
    ensures Replace(Render(ts), Pattern(name), values[name]) == Render(PutIn(ts, {name}, values))
    decreases |ts|
  {
    if ts != [] {
      var rest := Render(ts[1..]);
      ReplacePutsIn(ts[1..], name, values);
      match ts[0] {
        case Lit(b) =>
          ReplacePasses([b], rest, name, values[name]);
          RenderTwo([ts[0]], PutIn(ts[1..], {name}, values));
        case Group(other) =>
          if other == name {
            ReplaceHits(rest, Pattern(name), values[name]);
            LitsRender(values[name]);
            RenderTwo(Lits(values[name]), PutIn(ts[1..], {name}, values));
          } else {
            GroupPassedOver(other, rest, name, values[name]);
            RenderTwo([ts[0]], PutIn(ts[1..], {name}, values));
          }
      }
    }
  }

  lemma BraceFreeMeans(name: Bytes)
    requires BraceFree(name)
    ensures OPEN !in name
  {
  }

  lemma GroupPassedOver(other: Bytes, rest: Bytes, name: Bytes, into: Bytes)
    requires BraceFree(name) && BraceFree(other) && other != name
    ensures Replace(Pattern(other) + rest, Pattern(name), into) == Pattern(other) + Replace(rest, Pattern(name), into)
  {
    hide Replace, BraceFree;
    var run := other + [CLOSE];
    assert OPEN !in run by { BraceFreeMeans(other); }
    if Pattern(name) <= Pattern(other) + rest { GroupsDiffer(name, other, rest); }
    assert Pattern(other) + rest == [OPEN] + (run + rest);
    ReplaceMisses(OPEN, run + rest, Pattern(name), into);
    ReplacePasses(run, rest, name, into);
    assert Pattern(other) + Replace(rest, Pattern(name), into) == [OPEN] + (run + Replace(rest, Pattern(name), into));
  }

  lemma {:induction false} PutInLits(s: Bytes, names: set<Bytes>, values: map<Bytes, Bytes>)
    requires names <= values.Keys
    ensures PutIn(Lits(s), names, values) == Lits(s)
  {
    if s != [] {
      assert Lits(s)[1..] == Lits(s[1..]);
      PutInLits(s[1..], names, values);
    }
  }

  lemma PutInOnto(t: Token, rest: seq<Token>, names: set<Bytes>, values: map<Bytes, Bytes>)
    requires names <= values.Keys
    ensures PutIn([t] + rest, names, values) == PutOne(t, names, values) + PutIn(rest, names, values)
  {
    assert ([t] + rest)[1..] == rest;
  }

  lemma HeadAndRest(a: seq<Token>, b: seq<Token>)
    requires a != []
    ensures a == [a[0]] + a[1..] && a + b == [a[0]] + (a[1..] + b)
  {
  }

  lemma Associates(a: seq<Token>, b: seq<Token>, c: seq<Token>)
    ensures a + (b + c) == (a + b) + c
  {
  }

  lemma {:induction false} PutInTwo(a: seq<Token>, b: seq<Token>, names: set<Bytes>, values: map<Bytes, Bytes>)
    requires names <= values.Keys
    ensures PutIn(a + b, names, values) == PutIn(a, names, values) + PutIn(b, names, values)
    decreases |a|
  {
    if a == [] {
      assert a + b == b;
    } else {
      hide PutIn, PutOne;
      PutInTwo(a[1..], b, names, values);
      HeadAndRest(a, b);
      PutInOnto(a[0], a[1..], names, values);
      PutInOnto(a[0], a[1..] + b, names, values);
      Associates(PutOne(a[0], names, values), PutIn(a[1..], names, values), PutIn(b, names, values));
    }
  }

  /** One more parameter, put in first, is as if put in with the rest. */
  lemma {:induction false} PutInOneMore(ts: seq<Token>, name: Bytes, names: set<Bytes>, values: map<Bytes, Bytes>)
    requires names <= values.Keys && name in values
    ensures PutIn(PutIn(ts, {name}, values), names, values) == PutIn(ts, {name} + names, values)
    decreases |ts|
  {
    if ts != [] {
      var rest := PutIn(ts[1..], {name}, values);
      PutInOneMore(ts[1..], name, names, values);
      if ts[0].Group? && ts[0].name == name {
        PutInTwo(Lits(values[name]), rest, names, values);
        PutInLits(values[name], names, values);
      } else {
        PutInTwo([ts[0]], rest, names, values);
      }
    }
  }

  lemma {:induction false} PutInIsOk(ts: seq<Token>, names: set<Bytes>, values: map<Bytes, Bytes>)
    requires TokensOk(ts) && names <= values.Keys
    requires forall n :: n in names ==> OPEN !in values[n]
    ensures TokensOk(PutIn(ts, names, values))
    decreases |ts|
  {
    if ts != [] {
      PutInIsOk(ts[1..], names, values);
      assert TokenOk(ts[0]);
      if ts[0].Group? && ts[0].name in names { LitsOk(values[ts[0].name]); }
    }
  }

  lemma {:induction false} PutInNone(ts: seq<Token>, values: map<Bytes, Bytes>)
    ensures PutIn(ts, {}, values) == ts
    decreases |ts|
  {
    if ts != [] { PutInNone(ts[1..], values); }
  }

  ghost function SetOf(names: seq<Bytes>): set<Bytes> {
    set i | 0 <= i < |names| :: names[i]
  }

  predicate NamesOk(names: seq<Bytes>, values: map<Bytes, Bytes>) {
    forall i :: 0 <= i < |names| ==> names[i] in values && BraceFree(names[i]) && OPEN !in values[names[i]]
  }

  /** The main claim about the path: where the template's braces are closed and
      the names hold none, putting the parameters in one at a time is putting
      them all in at once. */
  lemma {:induction false} OneAtATimeIsAllAtOnce(ts: seq<Token>, names: seq<Bytes>, values: map<Bytes, Bytes>)
    requires TokensOk(ts) && NamesOk(names, values)
    ensures Substitute(Render(ts), names, values) == Render(PutIn(ts, SetOf(names), values))
    decreases |names|
  {
    if names == [] {
      assert SetOf(names) == {};
      PutInNone(ts, values);
    } else {
      var name, more := names[0], names[1..];
      ReplacePutsIn(ts, name, values);
      PutInIsOk(ts, {name}, values);
      OneAtATimeIsAllAtOnce(PutIn(ts, {name}, values), more, values);
      PutInOneMore(ts, name, SetOf(more), values);
      assert SetOf(names) == {name} + SetOf(more);
    }
  }

  /** So the order of the parameters is of no account. */
  lemma OrderIsOfNoAccount(ts: seq<Token>, names: seq<Bytes>, others: seq<Bytes>, values: map<Bytes, Bytes>)
    requires TokensOk(ts) && NamesOk(names, values) && NamesOk(others, values) && SetOf(names) == SetOf(others)
    ensures Substitute(Render(ts), names, values) == Substitute(Render(ts), others, values)
  {
    OneAtATimeIsAllAtOnce(ts, names, values);
    OneAtATimeIsAllAtOnce(ts, others, values);
  }

  /** The first brace from a byte on. */
  function NextBrace(s: Bytes, i: nat): (k: nat)
    requires i <= |s|
    ensures i <= k <= |s| && (k < |s| ==> s[k] == OPEN || s[k] == CLOSE)
    ensures forall j :: i <= j < k ==> s[j] != OPEN && s[j] != CLOSE
    decreases |s| - i
  {
    if i == |s| || s[i] == OPEN || s[i] == CLOSE then i else NextBrace(s, i + 1)
  }

  function TokenText(t: Token): Bytes {
    match t
    case Lit(b) => [b]
    case Group(name) => Pattern(name)
  }

  /** The token at a byte, and where it ends. */
  function TokenAt(s: Bytes, i: nat): (t: Option<(Token, nat)>)
    requires i < |s|
    ensures t.Some? ==> i < t.value.1 <= |s| && TokenOk(t.value.0) && TokenText(t.value.0) == s[i..t.value.1]
  {
    if s[i] != OPEN then Some((Lit(s[i]), i + 1))
    else
      var k := NextBrace(s, i + 1);
      if k == |s| || s[k] == OPEN then None else Some((Group(s[i + 1..k]), k + 1))
  }

  /** The template's tokens, where every brace opened is closed before the next
      one opens. */
  function TokensFrom(s: Bytes, i: nat): Option<seq<Token>>
    requires i <= |s|
    decreases |s| - i
  {
    if i == |s| then Some([])
    else
      match TokenAt(s, i)
      case None => None
      case Some((t, k)) => Onto(t, TokensFrom(s, k))
  }

  function Onto(t: Token, rest: Option<seq<Token>>): Option<seq<Token>> {
    if rest.None? then None else Some([t] + rest.value)
  }

  lemma OntoRenders(t: Token, s: Bytes, i: nat, k: nat, rest: seq<Token>)
    requires i <= k <= |s| && TokensOk(rest) && Render(rest) == s[k..]
    requires TokenOk(t) && TokenText(t) == s[i..k]
    ensures TokensOk([t] + rest) && Render([t] + rest) == s[i..]
  {
    assert ([t] + rest)[1..] == rest;
    assert s[i..k] + s[k..] == s[i..];
  }

  lemma {:induction false} TokensRender(s: Bytes, i: nat)
    requires i <= |s| && TokensFrom(s, i).Some?
    ensures TokensOk(TokensFrom(s, i).value) && Render(TokensFrom(s, i).value) == s[i..]
    decreases |s| - i
  {
    hide Render, TokensOk, TokenAt, TokenText, TokenOk;
    if i == |s| {
      NothingRenders();
    } else {
      var (t, k) := TokenAt(s, i).value;
      TokensRender(s, k);
      OntoRenders(t, s, i, k, TokensFrom(s, k).value);
    }
  }

  lemma NothingRenders()
    ensures TokensOk([]) && Render([]) == []
  {
  }

  predicate Closed(url: Bytes) {
    TokensFrom(url, 0).Some?
  }

  /** The same, of a URL: all at once, and in any order. */
  lemma PathIsPutInAtOnce(url: Bytes, names: seq<Bytes>, others: seq<Bytes>, values: map<Bytes, Bytes>)
    requires Closed(url) && NamesOk(names, values) && NamesOk(others, values) && SetOf(names) == SetOf(others)
    ensures Substitute(url, names, values) == Render(PutIn(TokensFrom(url, 0).value, SetOf(names), values))
    ensures Substitute(url, names, values) == Substitute(url, others, values)
  {
    var ts := TokensFrom(url, 0).value;
    TokensRender(url, 0);
    assert url[0..] == url;
    OneAtATimeIsAllAtOnce(ts, names, values);
    OrderIsOfNoAccount(ts, names, others, values);
  }

  lemma {:induction false} NextSlashIs(url: Bytes, i: nat, k: nat)
    requires i <= k <= |url| && (k < |url| ==> url[k] == SLASH) && forall j :: i <= j < k ==> url[j] != SLASH
    ensures NextSlash(url, i) == k
    decreases k - i
  {
    if i < k { NextSlashIs(url, i + 1, k); }
  }

  lemma {:induction false} NoScheme(url: Bytes, i: nat)
    requires i <= |url| && forall k :: 0 <= k < |url| ==> url[k] != 58
    ensures SchemeEnd(url, i) == 0
    decreases |url| - i
  {
    if i + 3 <= |url| { NoScheme(url, i + 1); }
  }

  lemma {:induction false} SchemeEndIs(url: Bytes, i: nat, k: nat)
    requires i <= k && k + 3 <= |url| && url[k] == 58 && url[k + 1] == SLASH && url[k + 2] == SLASH
    requires forall j :: i <= j < k ==> url[j] != 58
    ensures SchemeEnd(url, i) == k + 3
    decreases k - i
  {
    if i < k { SchemeEndIs(url, i + 1, k); }
  }

  lemma ReplaceEmpty(pattern: Bytes, into: Bytes)
    requires pattern != []
    ensures Replace([], pattern, into) == []
  {
  }

  // ---- Segments ------------------------------------------------------------------------------------

  function Count(c: Byte, s: Bytes): nat {
    if s == [] then 0 else (if s[0] == c then 1 else 0) + Count(c, s[1..])
  }

  lemma {:induction false} CountTwo(c: Byte, a: Bytes, b: Bytes)
    ensures Count(c, a + b) == Count(c, a) + Count(c, b)
    decreases |a|
  {
    if a == [] {
      assert a + b == b;
    } else {
      assert (a + b)[1..] == a[1..] + b;
      CountTwo(c, a[1..], b);
    }
  }

  lemma {:induction false} CountIsZeroIff(c: Byte, s: Bytes)
    ensures Count(c, s) == 0 <==> c !in s
  {
    if s != [] { CountIsZeroIff(c, s[1..]); }
  }

  lemma {:induction false} ReplaceKeepsCount(c: Byte, s: Bytes, pattern: Bytes, into: Bytes)
    requires pattern != [] && c !in pattern && c !in into
    ensures Count(c, Replace(s, pattern, into)) == Count(c, s)
    decreases |s|
  {
    if s == [] {
    } else if pattern <= s {
      var rest := s[|pattern|..];
      assert s == pattern + rest;
      ReplaceKeepsCount(c, rest, pattern, into);
      CountTwo(c, pattern, rest);
      CountTwo(c, into, Replace(rest, pattern, into));
      CountIsZeroIff(c, pattern);
      CountIsZeroIff(c, into);
    } else {
      ReplaceKeepsCount(c, s[1..], pattern, into);
      CountTwo(c, [s[0]], Replace(s[1..], pattern, into));
    }
  }

  predicate NoneHas(c: Byte, names: seq<Bytes>, values: map<Bytes, Bytes>) {
    forall i :: 0 <= i < |names| ==> names[i] in values && c !in names[i] && c !in values[names[i]]
  }

  lemma {:induction false} SubstituteKeepsCount(c: Byte, url: Bytes, names: seq<Bytes>, values: map<Bytes, Bytes>)
    requires c != OPEN && c != CLOSE && NoneHas(c, names, values)
    ensures Count(c, Substitute(url, names, values)) == Count(c, url)
    decreases |names|
  {
    if names != [] {
      var replaced := Replace(url, Pattern(names[0]), values[names[0]]);
      ReplaceKeepsCount(c, url, Pattern(names[0]), values[names[0]]);
      SubstituteKeepsCount(c, replaced, names[1..], values);
    }
  }

  predicate InOneSegment(url: Bytes, name: Bytes) {
    SLASH !in name && forall b :: b in name ==> b in url
  }

  lemma OwnParamIsInOneSegment(url: Bytes, at: nat)
    requires at <= |url|
    ensures forall n :: n in OwnParam(url, at, NextSlash(url, at)) ==> InOneSegment(url, n)
  {
    var end := NextSlash(url, at);
    if end - at >= 2 {
      var name := url[at + 1..end - 1];
      assert forall i :: 0 <= i < |name| ==> name[i] == url[at + 1 + i];
    }
  }

  /** A parameter's name is all in one segment of the URL. */
  lemma {:induction false} ParamsAreInOneSegment(url: Bytes, at: nat)
    requires at <= |url|
    ensures forall n :: n in ParamsFrom(url, at) ==> InOneSegment(url, n)
    decreases |url| - at
  {
    hide OwnParam, InOneSegment;
    OwnParamIsInOneSegment(url, at);
    var end := NextSlash(url, at);
    if end < |url| { ParamsAreInOneSegment(url, end + 1); }
  }

  // ---- The query -------------------------------------------------------------------------------------

  /** An argument: text as itself, and anything else with its JSON text. */
  datatype Value =
    | Null
    | Text(text: Bytes)
    | List(items: seq<Value>, json: Bytes)
    | Other(json: Bytes)

  const NULL_TEXT: Bytes := [110, 117, 108, 108]

  function TextOf(v: Value): Bytes {
    match v
    case Null => NULL_TEXT
    case Text(text) => text
    case List(_, json) => json
    case Other(json) => json
  }

  datatype Pair = Pair(name: Bytes, value: Bytes)

  function Repeated(name: Bytes, values: seq<Value>): seq<Pair> {
    if values == [] then [] else [Pair(name, TextOf(values[0]))] + Repeated(name, values[1..])
  }

  /** The query's parameters: none for what was not given, and a list's repeated. */
  function Pairs(names: seq<Bytes>, given: map<Bytes, Value>): seq<Pair> {
    if names == [] then []
    else
      (if names[0] !in given || given[names[0]].Null? then []
       else if given[names[0]].List? then Repeated(names[0], given[names[0]].items)
       else Repeated(names[0], [given[names[0]]]))
      + Pairs(names[1..], given)
  }

  /** An argument's text: a string as itself, and anything else its JSON, `null` too. */
  lemma TextsAre(text: Bytes, items: seq<Value>)
    ensures TextOf(Null) == [110, 117, 108, 108] && TextOf(Text(text)) == text
    ensures TextOf(List(items, text)) == text && TextOf(Other(text)) == text
  {
  }

  /** The values that a reader of pairs finds under a name, in order. */
  function ValuesOf(pairs: seq<Pair>, name: Bytes): seq<Bytes> {
    if pairs == [] then [] else (if pairs[0].name == name then [pairs[0].value] else []) + ValuesOf(pairs[1..], name)
  }

  /** What was given under a name: nothing, where it was not or was null; each item of
      a list; or the one value. */
  function ValuesGiven(given: map<Bytes, Value>, name: Bytes): seq<Bytes> {
    if name !in given || given[name].Null? then []
    else if given[name].List? then
      seq(|given[name].items|, i requires 0 <= i < |given[name].items| => TextOf(given[name].items[i]))
    else [TextOf(given[name])]
  }

  lemma {:induction false} ValuesOfTwo(a: seq<Pair>, b: seq<Pair>, name: Bytes)
    ensures ValuesOf(a + b, name) == ValuesOf(a, name) + ValuesOf(b, name)
    decreases a
  {
    if a == [] {
      assert a + b == b;
    } else {
      assert (a + b)[1..] == a[1..] + b;
      ValuesOfTwo(a[1..], b, name);
    }
  }

  lemma {:induction false} ValuesRepeated(name: Bytes, values: seq<Value>, other: Bytes)
    ensures ValuesOf(Repeated(name, values), other) ==
              if name == other then seq(|values|, i requires 0 <= i < |values| => TextOf(values[i])) else []
    decreases values
  {
    hide TextOf;
    if values != [] {
      var rest := Repeated(name, values[1..]);
      ValuesRepeated(name, values[1..], other);
      assert ([Pair(name, TextOf(values[0]))] + rest)[1..] == rest;
      assert forall i :: 0 < i < |values| ==> values[i] == values[1..][i - 1];
    }
  }

  lemma OnePairs(name: Bytes, given: map<Bytes, Value>, other: Bytes)
    ensures ValuesOf(Pairs([name], given), other) == if name == other then ValuesGiven(given, name) else []
  {
    hide ValuesOf, TextOf;
    assert [name][1..] == [];
    NoPairs(given);
    var pairs := Pairs([name], given);
    if name !in given || given[name].Null? {
      assert pairs == [];
      NoValues(other);
    } else {
      var values := if given[name].List? then given[name].items else [given[name]];
      assert pairs == Repeated(name, values) + [] == Repeated(name, values);
      ValuesRepeated(name, values, other);
    }
  }

  lemma NoPairs(given: map<Bytes, Value>)
    ensures Pairs([], given) == []
  {
  }

  lemma NoValues(name: Bytes)
    ensures ValuesOf([], name) == []
  {
  }

  lemma PairsOnto(name: Bytes, rest: seq<Bytes>, given: map<Bytes, Value>)
    ensures Pairs([name] + rest, given) == Pairs([name], given) + Pairs(rest, given)
  {
    hide Repeated;
    assert ([name] + rest)[1..] == rest && [name][1..] == [];
    NoPairs(given);
  }

  /** Under each declared name the query has exactly what was given under it, a list's
      items one by one, and under any other nothing. */
  lemma {:induction false} TheQueryHas(names: seq<Bytes>, given: map<Bytes, Value>, name: Bytes)
    requires forall i, j :: 0 <= i < j < |names| ==> names[i] != names[j]
    ensures ValuesOf(Pairs(names, given), name) == if name in names then ValuesGiven(given, name) else []
    decreases names
  {
    hide Pairs, ValuesOf, ValuesGiven;
    if names == [] {
      NoPairs(given);
      NoValues(name);
    } else {
      var rest := names[1..];
      assert names == [names[0]] + rest;
      assert forall k :: 0 <= k < |rest| ==> rest[k] == names[k + 1];
      PairsOnto(names[0], rest, given);
      ValuesOfTwo(Pairs([names[0]], given), Pairs(rest, given), name);
      OnePairs(names[0], given, name);
      TheQueryHas(rest, given, name);
      assert ValuesGiven(given, name) + [] == ValuesGiven(given, name) && [] + ValuesGiven(given, name) == ValuesGiven(given, name);
    }
  }

  function PairText(p: Pair): Bytes {
    PercentEncode(p.name) + [EQUALS] + PercentEncode(p.value)
  }

  function QueryText(pairs: seq<Pair>): Bytes
    requires pairs != []
  {
    PairText(pairs[0]) + if |pairs| == 1 then [] else [AND] + QueryText(pairs[1..])
  }

  function IndexFrom(s: Bytes, c: Byte, i: nat): (k: nat)
    requires i <= |s|
    ensures i <= k <= |s| && (k < |s| ==> s[k] == c)
    ensures forall j :: i <= j < k ==> s[j] != c
    decreases |s| - i
  {
    if i == |s| || s[i] == c then i else IndexFrom(s, c, i + 1)
  }

  /** What comes before the first of a byte, and what after. */
  function SplitOnce(s: Bytes, c: Byte): (Bytes, Bytes) {
    var k := IndexFrom(s, c, 0);
    (s[..k], if k < |s| then s[k + 1..] else [])
  }

  function ReadPair(s: Bytes): Pair {
    var (name, value) := SplitOnce(s, EQUALS);
    Pair(PercentDecode(name), PercentDecode(value))
  }

  /** What the server reads a query as. */
  function ReadQuery(s: Bytes): seq<Pair>
    decreases |s|
  {
    [ReadPair(SplitOnce(s, AND).0)] + if IndexFrom(s, AND, 0) < |s| then ReadQuery(SplitOnce(s, AND).1) else []
  }

  lemma SplitsAtTheFirst(a: Bytes, c: Byte, rest: Bytes)
    requires c !in a
    ensures SplitOnce(a + [c] + rest, c) == (a, rest) && IndexFrom(a + [c] + rest, c, 0) == |a|
    ensures SplitOnce(a, c) == (a, []) && IndexFrom(a, c, 0) == |a|
  {
    var s := a + [c] + rest;
    assert s[|a|] == c && forall i :: 0 <= i < |a| ==> s[i] == a[i];
    assert s[..|a|] == a && s[|a| + 1..] == rest && a[..|a|] == a;
  }

  lemma EncodedHasNoMarks(value: Bytes)
    ensures EQUALS !in PercentEncode(value) && AND !in PercentEncode(value)
    ensures QUESTION !in PercentEncode(value) && SLASH !in PercentEncode(value)
    ensures BraceFree(PercentEncode(value))
  {
    EncodedIsInert(value);
  }

  lemma PairReadsBack(p: Pair)
    ensures ReadPair(PairText(p)) == p && AND !in PairText(p)
  {
    hide PercentEncode, PercentDecode;
    EncodedHasNoMarks(p.name);
    EncodedHasNoMarks(p.value);
    SplitsAtTheFirst(PercentEncode(p.name), EQUALS, PercentEncode(p.value));
    DecodeEncode(p.name);
    DecodeEncode(p.value);
  }

  /** The main claim about the query: read back, it is exactly the parameters
      that went in, in order, a list's repeated. */
  lemma {:induction false} QueryReadsBack(pairs: seq<Pair>)
    requires pairs != []
    ensures ReadQuery(QueryText(pairs)) == pairs
    decreases |pairs|
  {
    hide PairText, ReadPair;
    var first := PairText(pairs[0]);
    PairReadsBack(pairs[0]);
    if |pairs| == 1 {
      assert first + [] == first;
      SplitsAtTheFirst(first, AND, []);
    } else {
      var rest := QueryText(pairs[1..]);
      QueryReadsBack(pairs[1..]);
      assert QueryText(pairs) == first + [AND] + rest;
      SplitsAtTheFirst(first, AND, rest);
    }
  }

  // ---- The request ----------------------------------------------------------------------------------

  const ACTION: Bytes := [97, 99, 116, 105, 111, 110]

  /** An operation as its skill declares it; `required` is its schema's list. */
  datatype Operation = Operation(url: Bytes, query: seq<Bytes>, body: seq<Bytes>, required: seq<Bytes>)

  datatype Outcome =
    | NotSent(missing: seq<Bytes>, unknown: set<Bytes>)
    | Sent(url: Bytes, body: Option<map<Bytes, Value>>)

  predicate Known(op: Operation, name: Bytes) {
    name == ACTION || name in PathParams(op.url) || name in op.body || name in op.query
  }

  predicate Present(given: map<Bytes, Value>, name: Bytes) {
    name in given && !given[name].Null?
  }

  function Missing(required: seq<Bytes>, given: map<Bytes, Value>): (missing: seq<Bytes>)
    ensures forall n :: n in missing <==> n in required && !Present(given, n)
  {
    if required == [] then []
    else (if Present(given, required[0]) then [] else [required[0]]) + Missing(required[1..], given)
  }

  /** The names missing, in the schema's order: each name of it on its own, and then
      those after it. */
  lemma MissingInOrder(name: Bytes, rest: seq<Bytes>, given: map<Bytes, Value>)
    ensures Missing([], given) == []
    ensures Missing([name] + rest, given) == (if name in given && !given[name].Null? then [] else [name]) + Missing(rest, given)
  {
    assert ([name] + rest)[1..] == rest;
  }

  /** A path parameter that was not given is nothing at all, and one given as null
      is the word. */
  function PathValue(given: map<Bytes, Value>, name: Bytes): Bytes {
    PercentEncode(if name in given then TextOf(given[name]) else [])
  }

  function PathValues(names: seq<Bytes>, given: map<Bytes, Value>): map<Bytes, Bytes> {
    map n | n in names :: PathValue(given, n)
  }

  function PathOf(op: Operation, given: map<Bytes, Value>): Bytes {
    Substitute(op.url, PathParams(op.url), PathValues(PathParams(op.url), given))
  }

  function UrlOf(op: Operation, given: map<Bytes, Value>): Bytes {
    var pairs := Pairs(op.query, given);
    if pairs == [] then PathOf(op, given) else PathOf(op, given) + [QUESTION] + QueryText(pairs)
  }

  function Call(op: Operation, given: map<Bytes, Value>): Outcome {
    var unknown := set k | k in given && !Known(op, k);
    var missing := Missing(op.required, given);
    if unknown != {} || missing != [] then NotSent(missing, unknown)
    else Sent(UrlOf(op, given),
              if op.body == [] then None else Some(map k | k in op.body && Present(given, k) :: given[k]))
  }

  method PutParameters(url: Bytes, names: seq<Bytes>, given: map<Bytes, Value>) returns (out: Bytes)
    ensures out == Substitute(url, names, PathValues(names, given))
  {
    out := url;
    var i := 0;
    ghost var values := PathValues(names, given);
    while i < |names|
      invariant i <= |names|
      invariant Substitute(out, names[i..], values) == Substitute(url, names, values)
    {
      var value := Encode(if names[i] in given then TextOf(given[names[i]]) else []);
      assert names[i..][1..] == names[i + 1..] && values[names[i]] == value;
      out := Replace(out, Pattern(names[i]), value);
      i := i + 1;
    }
  }

  /** A request goes out exactly when everything required was given and nothing
      was given that the operation does not take. */
  lemma SentIff(op: Operation, given: map<Bytes, Value>)
    ensures Call(op, given).Sent? <==>
              && (forall n :: n in op.required ==> Present(given, n))
              && (forall k :: k in given ==> Known(op, k))
  {
    var missing := Missing(op.required, given);
    if missing != [] { assert missing[0] in missing; }
    var unknown := set k | k in given && !Known(op, k);
    if unknown != {} { var k :| k in unknown; }
    if Call(op, given).Sent? {
      assert missing == [] && unknown == {};
      forall n | n in op.required ensures Present(given, n) { assert n !in missing; }
      forall k | k in given ensures Known(op, k) { assert k !in unknown; }
    }
  }

  /** And what is told otherwise is what was missing, in the schema's order, and
      what the operation does not take. */
  lemma ToldWhatIsWrong(op: Operation, given: map<Bytes, Value>)
    requires Call(op, given).NotSent?
    ensures forall n :: n in Call(op, given).missing <==> n in op.required && (n !in given || given[n].Null?)
    ensures forall k :: k in Call(op, given).unknown <==>
              k in given && k != ACTION && k !in PathParams(op.url) && k !in op.body && k !in op.query
  {
  }

  /** The body has exactly the declared names that were given and not null, each with
      its value, and there is one exactly where any name is declared. */
  lemma TheBodyHas(op: Operation, given: map<Bytes, Value>, name: Bytes)
    requires Call(op, given).Sent?
    ensures Call(op, given).body.Some? <==> op.body != []
    ensures op.body != [] ==>
              var body := Call(op, given).body.value;
              && (name in body <==> name in op.body && name in given && !given[name].Null?)
              && (name in body ==> body[name] == given[name])
  {
  }

  /** A value adds no segment to what is built: the path has the slashes its
      template has. What a reader then takes away is in `PathSegments`. */
  lemma ValuesAddNoSegments(op: Operation, given: map<Bytes, Value>)
    ensures Count(SLASH, PathOf(op, given)) == Count(SLASH, op.url)
  {
    hide Substitute;
    var names := PathParams(op.url);
    var values := PathValues(names, given);
    ParamsAreInOneSegment(op.url, NextSlash(op.url, SchemeEnd(op.url, 0)));
    forall i | 0 <= i < |names| ensures SLASH !in names[i] && SLASH !in values[names[i]] {
      assert InOneSegment(op.url, names[i]);
      EncodedHasNoMarks(if names[i] in given then TextOf(given[names[i]]) else []);
    }
    SubstituteKeepsCount(SLASH, op.url, names, values);
  }

  /** Nor does it begin a query: a path has a question mark only where its
      template does. */
  lemma ValuesBeginNoQuery(op: Operation, given: map<Bytes, Value>)
    requires QUESTION !in op.url
    ensures QUESTION !in PathOf(op, given)
  {
    hide Substitute;
    var names := PathParams(op.url);
    var values := PathValues(names, given);
    ParamsAreInOneSegment(op.url, NextSlash(op.url, SchemeEnd(op.url, 0)));
    forall i | 0 <= i < |names| ensures QUESTION !in names[i] && QUESTION !in values[names[i]] {
      assert InOneSegment(op.url, names[i]);
      EncodedHasNoMarks(if names[i] in given then TextOf(given[names[i]]) else []);
    }
    SubstituteKeepsCount(QUESTION, op.url, names, values);
    CountIsZeroIff(QUESTION, op.url);
    CountIsZeroIff(QUESTION, PathOf(op, given));
  }

  /** What goes out is read as the path and the parameters that went in, where
      the template holds no question mark of its own. */
  lemma WhatIsSentIsRead(op: Operation, given: map<Bytes, Value>)
    requires QUESTION !in op.url && Call(op, given).Sent?
    ensures var (path, query) := SplitOnce(Call(op, given).url, QUESTION);
            var pairs := Pairs(op.query, given);
            && path == PathOf(op, given)
            && (if pairs == [] then query == [] else ReadQuery(query) == pairs)
  {
    hide QueryText, ReadQuery;
    ValuesBeginNoQuery(op, given);
    var pairs := Pairs(op.query, given);
    assert Call(op, given).url == UrlOf(op, given);
    if pairs == [] {
      SplitsAtTheFirst(PathOf(op, given), QUESTION, []);
    } else {
      SplitsAtTheFirst(PathOf(op, given), QUESTION, QueryText(pairs));
      QueryReadsBack(pairs);
    }
  }

  /** And the path is the template with every parameter in place at once, where
      the template's braces are closed and no segment runs two together. */
  lemma ThePathIsPutInAtOnce(op: Operation, given: map<Bytes, Value>)
    requires Closed(op.url) && forall n :: n in PathParams(op.url) ==> BraceFree(n)
    ensures var names := PathParams(op.url);
            PathOf(op, given) == Render(PutIn(TokensFrom(op.url, 0).value, SetOf(names), PathValues(names, given)))
  {
    hide Substitute, PutIn;
    var names := PathParams(op.url);
    var values := PathValues(names, given);
    forall i | 0 <= i < |names| ensures BraceFree(names[i]) && OPEN !in values[names[i]] {
      EncodedHasNoMarks(if names[i] in given then TextOf(given[names[i]]) else []);
    }
    PathIsPutInAtOnce(op.url, names, names, values);
  }
}
