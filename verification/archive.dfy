/** Archives: the names that may be written under a destination, expansion under
    its limits, creation, and the round trip. An archive is its entries in order;
    the zip format is not modelled. */
module Archive {
  import opened Basics
  import opened Utf8

  // ---- Names ------------------------------------------------------------------------------------

  predicate NoSlash(s: string) {
    forall i :: 0 <= i < |s| ==> s[i] != '/'
  }

  predicate NoBackslash(s: string) {
    forall i :: 0 <= i < |s| ==> s[i] != '\\'
  }

  function Forward(s: string): (r: string)
    ensures |r| == |s| && NoBackslash(r)
    ensures NoBackslash(s) ==> r == s
  {
    if s == "" then "" else [if s[0] == '\\' then '/' else s[0]] + Forward(s[1..])
  }

  function SlashFrom(s: string, i: nat): (k: nat)
    requires i <= |s|
    ensures i <= k <= |s| && (k < |s| ==> s[k] == '/')
    ensures forall j :: i <= j < k ==> s[j] != '/'
    decreases |s| - i
  {
    if i == |s| || s[i] == '/' then i else SlashFrom(s, i + 1)
  }

  /** The parts between slashes, from a character on. */
  function Split(s: string, i: nat): (parts: seq<string>)
    requires i <= |s|
    ensures parts != []
    decreases |s| - i
  {
    var k := SlashFrom(s, i);
    [s[i..k]] + if k < |s| then Split(s, k + 1) else []
  }

  function Join(parts: seq<string>): string {
    if parts == [] then ""
    else if |parts| == 1 then parts[0]
    else parts[0] + "/" + Join(parts[1..])
  }

  predicate Dropped(part: string) {
    part == "" || part == "."
  }

  function Kept(parts: seq<string>): seq<string> {
    if parts == [] then [] else (if Dropped(parts[0]) then [] else [parts[0]]) + Kept(parts[1..])
  }

  const UP := ".."

  function SafeName(raw: string): Option<string> {
    var parts := Kept(Split(Forward(raw), 0));
    if parts == [] || UP in parts then None else Some(Join(parts))
  }

  /** What such a name is: parts between single slashes, none of them nothing,
      the same folder or the one above, and no backslash. */
  predicate PartOk(part: string) {
    !Dropped(part) && part != UP && NoSlash(part) && NoBackslash(part)
  }

  predicate PartsOk(parts: seq<string>) {
    forall i :: 0 <= i < |parts| ==> PartOk(parts[i])
  }

  predicate Clean(name: string) {
    PartsOk(Split(name, 0))
  }

  lemma JoinOneMore(first: string, rest: seq<string>)
    requires rest != []
    ensures Join([first] + rest) == first + "/" + Join(rest)
  {
    assert ([first] + rest)[1..] == rest;
  }

  lemma CutAtSlash(s: string, i: nat, k: nat)
    requires i <= k < |s| && s[k] == '/'
    ensures s[i..k] + "/" + s[k + 1..] == s[i..]
  {
  }

  lemma {:induction false} JoinSplit(s: string, i: nat)
    requires i <= |s|
    ensures Join(Split(s, i)) == s[i..]
    decreases |s| - i
  {
    hide Join, Split, SlashFrom;
    var k := SlashFrom(s, i);
    if k < |s| {
      SplitUnfolds(s, i, k);
      JoinSplit(s, k + 1);
      JoinOneMore(s[i..k], Split(s, k + 1));
      CutAtSlash(s, i, k);
    } else {
      SplitEnds(s, i);
      JoinOne(s[i..]);
    }
  }

  lemma SplitEnds(s: string, i: nat)
    requires i <= |s| && SlashFrom(s, i) == |s|
    ensures Split(s, i) == [s[i..]]
  {
    assert s[i..|s|] == s[i..];
  }

  lemma JoinOne(part: string)
    ensures Join([part]) == part
  {
  }

  lemma SlashIs(s: string, i: nat, k: nat)
    requires i <= k <= |s| && (k < |s| ==> s[k] == '/') && forall j :: i <= j < k ==> s[j] != '/'
    ensures SlashFrom(s, i) == k
  {
  }

  /** A text that begins with a part and then a slash splits there. */
  lemma SplitsOff(s: string, i: nat, first: string, rest: string)
    requires i <= |s| && s[i..] == first + "/" + rest && NoSlash(first)
    ensures i + |first| < |s| && s[i + |first| + 1..] == rest
    ensures Split(s, i) == [first] + Split(s, i + |first| + 1)
  {
    hide Split;
    var k := i + |first|;
    assert forall j :: i <= j < k ==> s[j] == s[i..][j - i] == first[j - i];
    assert s[k] == s[i..][|first|] == '/';
    SlashIs(s, i, k);
    assert s[i..k] == s[i..][..|first|] == first;
    assert s[k + 1..] == s[i..][|first| + 1..] == rest;
    SplitUnfolds(s, i, k);
  }

  lemma SplitUnfolds(s: string, i: nat, k: nat)
    requires i <= k < |s| && SlashFrom(s, i) == k
    ensures Split(s, i) == [s[i..k]] + Split(s, k + 1)
  {
  }

  lemma {:induction false} SplitJoin(s: string, i: nat, parts: seq<string>)
    requires i <= |s| && parts != [] && s[i..] == Join(parts)
    requires forall j :: 0 <= j < |parts| ==> NoSlash(parts[j])
    ensures Split(s, i) == parts
    decreases |parts|
  {
    hide Split;
    if |parts| == 1 {
      SplitWhole(s, i);
      assert parts == [s[i..]];
    } else {
      SplitsOff(s, i, parts[0], Join(parts[1..]));
      SplitJoin(s, i + |parts[0]| + 1, parts[1..]);
      assert [parts[0]] + parts[1..] == parts;
    }
  }

  lemma SplitWhole(s: string, i: nat)
    requires i <= |s| && NoSlash(s[i..])
    ensures Split(s, i) == [s[i..]]
  {
    assert forall j :: i <= j < |s| ==> s[j] == s[i..][j - i];
    SlashIs(s, i, |s|);
    assert s[i..|s|] == s[i..];
  }

  lemma {:induction false} PartsHaveNoSlash(s: string, i: nat)
    requires i <= |s| && NoBackslash(s)
    ensures forall j :: 0 <= j < |Split(s, i)| ==> NoSlash(Split(s, i)[j]) && NoBackslash(Split(s, i)[j])
    decreases |s| - i
  {
    var k := SlashFrom(s, i);
    if k < |s| { PartsHaveNoSlash(s, k + 1); }
  }

  lemma {:induction false} KeptAre(parts: seq<string>)
    requires forall j :: 0 <= j < |parts| ==> NoSlash(parts[j]) && NoBackslash(parts[j])
    requires UP !in Kept(parts)
    ensures PartsOk(Kept(parts))
  {
    if parts != [] { KeptAre(parts[1..]); }
  }

  lemma {:induction false} OkPartsAreKept(parts: seq<string>)
    requires PartsOk(parts)
    ensures Kept(parts) == parts && UP !in parts
  {
    if parts != [] { OkPartsAreKept(parts[1..]); }
  }

  lemma {:induction false} OkPartsJoin(parts: seq<string>)
    requires PartsOk(parts)
    ensures NoBackslash(Join(parts))
  {
    if |parts| == 1 {
      assert PartOk(parts[0]);
    } else if parts != [] {
      OkPartsJoin(parts[1..]);
      assert PartOk(parts[0]);
    }
  }

  /** What is given back is clean, and is the parts that were kept. */
  lemma SafeNameIsClean(raw: string)
    requires SafeName(raw).Some?
    ensures Clean(SafeName(raw).value)
    ensures Split(SafeName(raw).value, 0) == Kept(Split(Forward(raw), 0))
  {
    hide Split, Join, Kept;
    var parts := Kept(Split(Forward(raw), 0));
    PartsHaveNoSlash(Forward(raw), 0);
    KeptAre(Split(Forward(raw), 0));
    var name := Join(parts);
    assert name[0..] == name;
    forall j | 0 <= j < |parts| ensures NoSlash(parts[j]) { assert PartOk(parts[j]); }
    SplitJoin(name, 0, parts);
  }

  /** The names given back unchanged are exactly the clean ones. */
  lemma CleanIffKept(name: string)
    ensures Clean(name) <==> SafeName(name) == Some(name)
  {
    hide Split, Join, Kept;
    if Clean(name) {
      JoinSplit(name, 0);
      assert name[0..] == name;
      OkPartsJoin(Split(name, 0));
      OkPartsAreKept(Split(name, 0));
    } else if SafeName(name) == Some(name) {
      SafeNameIsClean(name);
    }
  }

  /** A name is refused exactly where none of its parts is a name, or one is of the
      folder above. */
  lemma RefusedNameIff(raw: string)
    ensures SafeName(raw).None? <==>
              var parts := Split(Forward(raw), 0);
              (forall p :: p in parts ==> p == "" || p == ".") || ".." in parts
  {
    KeptHas(Split(Forward(raw), 0));
    var parts, kept := Split(Forward(raw), 0), Kept(Split(Forward(raw), 0));
    if kept != [] { assert kept[0] in kept; }
  }

  lemma {:induction false} KeptHas(parts: seq<string>)
    ensures forall p :: p in Kept(parts) <==> p in parts && p != "" && p != "."
  {
    if parts != [] { KeptHas(parts[1..]); }
  }

  lemma {:induction false} ForwardIs(s: string, i: nat)
    requires i < |s|
    ensures Forward(s)[i] == if s[i] == '\\' then '/' else s[i]
    decreases i
  {
    if i > 0 { ForwardIs(s[1..], i - 1); }
  }

  lemma SafeNameTwice(raw: string)
    requires SafeName(raw).Some?
    ensures SafeName(SafeName(raw).value) == SafeName(raw)
  {
    SafeNameIsClean(raw);
    CleanIffKept(SafeName(raw).value);
  }

  // ---- Expansion --------------------------------------------------------------------------------

  const MAX_ENTRIES: nat := 10_000
  const MAX_ENTRY_BYTES: nat := 33_554_432
  const MAX_EXPANDED_BYTES: nat := 1_073_741_824

  /** An entry: its name, whether it is a folder, the size it declares, and what
      it inflates to, where it inflates at all. */
  datatype Entry = Entry(name: string, dir: bool, declared: nat, data: Option<seq<Byte>>)

  datatype File = File(name: string, data: seq<Byte>)

  /** How far an expansion is: what was handed to the writer, what of it landed,
      and the entries left out. */
  datatype Progress = Progress(handed: seq<File>, written: seq<File>, skipped: seq<nat>)

  datatype Failure = TooManyEntries | Unreadable | PastTheLimit | WriteRefused

  datatype Expanded = Done(progress: Progress) | Failed(why: Failure, progress: Progress)

  function TotalBytes(files: seq<File>): nat {
    if files == [] then 0 else TotalBytes(files[..|files| - 1]) + |files[|files| - 1].data|
  }

  /** What becomes of one entry, where it does not end the expansion. */
  datatype Verdict = Folder | Skip | Unread | Hand(file: File)

  function Judge(e: Entry): Verdict {
    if e.dir then Folder
    else
      match SafeName(e.name)
      case None => Skip
      case Some(name) =>
        if e.declared > MAX_ENTRY_BYTES then Skip
        else if e.data.None? then Unread
        else if |e.data.value| > MAX_ENTRY_BYTES then Skip
        else Hand(File(name, e.data.value))
  }

  /** The entries from the i-th on; the writes `refused` are those of the entries
      named there. */
  function ExpandFrom(archive: seq<Entry>, i: nat, refused: set<nat>, p: Progress): Expanded
    requires i <= |archive|
    decreases |archive| - i
  {
    if i == |archive| then Done(p)
    else
      match Judge(archive[i])
      case Folder => ExpandFrom(archive, i + 1, refused, p)
      case Skip => ExpandFrom(archive, i + 1, refused, p.(skipped := p.skipped + [i]))
      case Unread => Failed(Unreadable, p)
      case Hand(file) =>
        if TotalBytes(p.handed) + |file.data| > MAX_EXPANDED_BYTES then Failed(PastTheLimit, p)
        else
          var handed := p.(handed := p.handed + [file]);
          if i !in refused then ExpandFrom(archive, i + 1, refused, handed.(written := p.written + [file]))
          else if p.written == [] then Failed(WriteRefused, handed)
          else ExpandFrom(archive, i + 1, refused, handed.(skipped := p.skipped + [i]))
  }

  const NOTHING := Progress([], [], [])

  function Expand(archive: seq<Entry>, refused: set<nat>): Expanded {
    if |archive| > MAX_ENTRIES then Failed(TooManyEntries, NOTHING) else ExpandFrom(archive, 0, refused, NOTHING)
  }

  lemma OneMoreFile(files: seq<File>, f: File)
    ensures TotalBytes(files + [f]) == TotalBytes(files) + |f.data|
  {
    assert (files + [f])[..|files|] == files;
  }

  method ExpandInto(archive: seq<Entry>, refused: set<nat>) returns (r: Expanded)
    ensures r == Expand(archive, refused)
  {
    if |archive| > MAX_ENTRIES {
      return Failed(TooManyEntries, NOTHING);
    }
    var handed: seq<File>, written: seq<File>, skipped: seq<nat>, bytes := [], [], [], 0;
    var i := 0;
    while i < |archive|
      invariant i <= |archive| && bytes == TotalBytes(handed)
      invariant Expand(archive, refused) == ExpandFrom(archive, i, refused, Progress(handed, written, skipped))
    {
      var entry := archive[i];
      i := i + 1;
      if entry.dir {
        continue;
      }
      var name := SafeName(entry.name);
      if name.None? || entry.declared > MAX_ENTRY_BYTES {
        skipped := skipped + [i - 1];
        continue;
      }
      if entry.data.None? {
        return Failed(Unreadable, Progress(handed, written, skipped));
      }
      var data := entry.data.value;
      if |data| > MAX_ENTRY_BYTES {
        skipped := skipped + [i - 1];
        continue;
      }
      if bytes + |data| > MAX_EXPANDED_BYTES {
        return Failed(PastTheLimit, Progress(handed, written, skipped));
      }
      var file := File(name.value, data);
      OneMoreFile(handed, file);
      bytes := bytes + |data|;
      handed := handed + [file];
      if i - 1 in refused {
        if written == [] {
          return Failed(WriteRefused, Progress(handed, written, skipped));
        }
        skipped := skipped + [i - 1];
        continue;
      }
      written := written + [file];
    }
    return Done(Progress(handed, written, skipped));
  }

  function Folders(archive: seq<Entry>, i: nat): nat
    requires i <= |archive|
  {
    if i == 0 then 0 else Folders(archive, i - 1) + if archive[i - 1].dir then 1 else 0
  }

  /** What is handed to the writer, at every entry. */
  predicate Within(handed: seq<File>) {
    && TotalBytes(handed) <= MAX_EXPANDED_BYTES
    && forall k :: 0 <= k < |handed| ==> Clean(handed[k].name) && |handed[k].data| <= MAX_ENTRY_BYTES
  }

  lemma JudgedIsSafe(e: Entry)
    requires Judge(e).Hand?
    ensures Clean(Judge(e).file.name) && |Judge(e).file.data| <= MAX_ENTRY_BYTES
  {
    SafeNameIsClean(e.name);
  }

  lemma {:induction false} HandedStaysWithin(archive: seq<Entry>, i: nat, refused: set<nat>, p: Progress)
    requires i <= |archive| && Within(p.handed)
    ensures Within(ExpandFrom(archive, i, refused, p).progress.handed)
    decreases |archive| - i
  {
    hide Judge, Clean;
    if i < |archive| {
      match Judge(archive[i])
      case Folder => HandedStaysWithin(archive, i + 1, refused, p);
      case Skip => HandedStaysWithin(archive, i + 1, refused, p.(skipped := p.skipped + [i]));
      case Unread =>
      case Hand(file) =>
        JudgedIsSafe(archive[i]);
        OneMoreFile(p.handed, file);
        if TotalBytes(p.handed) + |file.data| <= MAX_EXPANDED_BYTES {
          var handed := p.(handed := p.handed + [file]);
          if i !in refused {
            HandedStaysWithin(archive, i + 1, refused, handed.(written := p.written + [file]));
          } else if p.written != [] {
            HandedStaysWithin(archive, i + 1, refused, handed.(skipped := p.skipped + [i]));
          }
        }
    }
  }

  predicate LandedWasHanded(p: Progress) {
    forall f :: f in p.written ==> f in p.handed
  }

  lemma LandedStill(p: Progress, file: File, i: nat)
    requires LandedWasHanded(p)
    ensures LandedWasHanded(p.(skipped := p.skipped + [i])) && LandedWasHanded(p.(handed := p.handed + [file]))
    ensures LandedWasHanded(p.(handed := p.handed + [file], skipped := p.skipped + [i]))
    ensures LandedWasHanded(p.(handed := p.handed + [file], written := p.written + [file]))
  {
  }

  lemma {:induction false} EntriesAreCounted(archive: seq<Entry>, i: nat, refused: set<nat>, p: Progress)
    requires i <= |archive| && LandedWasHanded(p) && |p.written| + |p.skipped| + Folders(archive, i) == i
    ensures var r := ExpandFrom(archive, i, refused, p);
            && LandedWasHanded(r.progress)
            && (r.Done? ==> |r.progress.written| + |r.progress.skipped| + Folders(archive, |archive|) == |archive|)
            && (r.Failed? && r.why.WriteRefused? ==> r.progress.written == [])
    decreases |archive| - i
  {
    if i < |archive| {
      assert archive[i].dir <==> Judge(archive[i]).Folder?;
      hide Judge, TotalBytes, LandedWasHanded;
      match Judge(archive[i])
      case Folder => EntriesAreCounted(archive, i + 1, refused, p);
      case Skip =>
        LandedStill(p, File("", []), i);
        EntriesAreCounted(archive, i + 1, refused, p.(skipped := p.skipped + [i]));
      case Unread =>
      case Hand(file) =>
        LandedStill(p, file, i);
        if TotalBytes(p.handed) + |file.data| <= MAX_EXPANDED_BYTES {
          var handed := p.(handed := p.handed + [file]);
          if i !in refused {
            EntriesAreCounted(archive, i + 1, refused, handed.(written := p.written + [file]));
          } else if p.written != [] {
            EntriesAreCounted(archive, i + 1, refused, handed.(skipped := p.skipped + [i]));
          }
        }
    }
  }

  /** For any archive, however it ends: the bytes handed to the writer are within
      the limit, every name handed is clean, and what landed was handed. Ended
      well, every entry is written, skipped or a folder; ended by the writer,
      nothing had landed. */
  lemma AnyExpansion(archive: seq<Entry>, refused: set<nat>)
    ensures var r := Expand(archive, refused);
            && Within(r.progress.handed) && LandedWasHanded(r.progress)
            && (r.Done? ==> |r.progress.written| + |r.progress.skipped| + Folders(archive, |archive|) == |archive|)
            && (r.Failed? && r.why.WriteRefused? ==> r.progress.written == [])
  {
    if |archive| <= MAX_ENTRIES {
      HandedStaysWithin(archive, 0, refused, NOTHING);
      EntriesAreCounted(archive, 0, refused, NOTHING);
    }
  }

  // ---- What becomes of each entry ---------------------------------------------------------------

  /** An entry that is left out of what is written: a name refused, or too large, by
      what it declares or by what it inflates to. */
  predicate LeftOut(e: Entry) {
    !e.dir && (SafeName(e.name).None? || e.declared > 33_554_432 || (e.data.Some? && |e.data.value| > 33_554_432))
  }

  /** One that cannot be read, though its name and what it declares are fit. */
  predicate CannotBeRead(e: Entry) {
    !e.dir && SafeName(e.name).Some? && e.declared <= 33_554_432 && e.data.None?
  }

  /** The entries of an archive that are to be written, under their tidied names. */
  function Fit(archive: seq<Entry>, i: nat): seq<File>
    requires i <= |archive|
    decreases |archive| - i
  {
    if i == |archive| then []
    else
      var e := archive[i];
      (if e.dir || LeftOut(e) || e.data.None? then [] else [File(SafeName(e.name).value, e.data.value)]) + Fit(archive, i + 1)
  }

  lemma JudgedAs(e: Entry)
    ensures Judge(e).Folder? <==> e.dir
    ensures Judge(e).Skip? <==> LeftOut(e)
    ensures Judge(e).Unread? <==> CannotBeRead(e)
    ensures Judge(e).Hand? ==> e.data.Some? && SafeName(e.name).Some? && Judge(e).file == File(SafeName(e.name).value, e.data.value)
  {
    hide SafeName;
  }

  lemma FitIs(archive: seq<Entry>, i: nat)
    requires i < |archive|
    ensures Fit(archive, i) == (if Judge(archive[i]).Hand? then [Judge(archive[i]).file] else []) + Fit(archive, i + 1)
  {
    hide SafeName;
    JudgedAs(archive[i]);
  }

  lemma {:induction false} DoneFromIff(archive: seq<Entry>, i: nat, p: Progress)
    requires i <= |archive| && TotalBytes(p.handed) <= MAX_EXPANDED_BYTES
    ensures var r := ExpandFrom(archive, i, {}, p);
            r.Done? <==> (forall k :: i <= k < |archive| ==> !CannotBeRead(archive[k])) &&
                         TotalBytes(p.handed) + TotalBytes(Fit(archive, i)) <= MAX_EXPANDED_BYTES
    ensures ExpandFrom(archive, i, {}, p).Failed? ==> ExpandFrom(archive, i, {}, p).why in {Unreadable, PastTheLimit}
    decreases |archive| - i
  {
    hide Judge, Fit, LeftOut, CannotBeRead, TotalBytes;
    if i == |archive| {
      NothingFits(archive);
    } else {
      JudgedAs(archive[i]);
      FitIs(archive, i);
      var rest := Fit(archive, i + 1);
      assert [] + rest == rest;
      match Judge(archive[i])
      case Folder => DoneFromIff(archive, i + 1, p);
      case Skip => DoneFromIff(archive, i + 1, p.(skipped := p.skipped + [i]));
      case Unread =>
      case Hand(file) =>
        OneFileFirst(file, rest);
        OneMoreFile(p.handed, file);
        if TotalBytes(p.handed) + |file.data| <= MAX_EXPANDED_BYTES {
          DoneFromIff(archive, i + 1, Progress(p.handed + [file], p.written + [file], p.skipped));
        }
    }
  }

  lemma NothingFits(archive: seq<Entry>)
    ensures Fit(archive, |archive|) == [] && TotalBytes([]) == 0
  {
  }

  lemma {:induction false} WrittenFrom(archive: seq<Entry>, i: nat, p: Progress)
    requires i <= |archive| && ExpandFrom(archive, i, {}, p).Done?
    ensures var r := ExpandFrom(archive, i, {}, p).progress;
            && r.written == p.written + Fit(archive, i)
            && forall k: nat :: k in r.skipped <==> k in p.skipped || (i <= k < |archive| && LeftOut(archive[k]))
    decreases |archive| - i
  {
    hide Judge, Fit, LeftOut, CannotBeRead, TotalBytes;
    if i == |archive| {
      NothingFits(archive);
    } else {
      JudgedAs(archive[i]);
      FitIs(archive, i);
      var rest := Fit(archive, i + 1);
      assert [] + rest == rest;
      match Judge(archive[i])
      case Folder => WrittenFrom(archive, i + 1, p);
      case Skip => WrittenFrom(archive, i + 1, p.(skipped := p.skipped + [i]));
      case Unread =>
      case Hand(file) =>
        WrittenFrom(archive, i + 1, Progress(p.handed + [file], p.written + [file], p.skipped));
        FilesAssociate(p.written, [file], rest);
    }
  }

  lemma FilesAssociate(a: seq<File>, b: seq<File>, c: seq<File>)
    ensures a + b + c == a + (b + c)
  {
  }

  lemma {:induction false} OneFileFirst(first: File, rest: seq<File>)
    ensures TotalBytes([first] + rest) == |first.data| + TotalBytes(rest)
    decreases |rest|
  {
    if rest == [] {
      assert [first] + rest == [] + [first];
      OneMoreFile([], first);
    } else {
      var n := |rest| - 1;
      OneFileFirst(first, rest[..n]);
      OneMoreFile([first] + rest[..n], rest[n]);
      assert [first] + rest == [first] + rest[..n] + [rest[n]];
    }
  }

  /** Where the writer refuses nothing: an expansion ends well if and only if there
      are not too many entries, every entry to be written can be read, and they are all
      within the limit; then exactly those are written, in order, and exactly those
      left out are told of. */
  lemma WhatIsExpandedIff(archive: seq<Entry>)
    ensures var r := Expand(archive, {});
            && (r.Done? <==> && |archive| <= 10_000 && TotalBytes(Fit(archive, 0)) <= 1_073_741_824
                             && forall k :: 0 <= k < |archive| ==> !CannotBeRead(archive[k]))
            && (r.Done? ==>
                  && r.progress.written == Fit(archive, 0)
                  && (forall k: nat :: k in r.progress.skipped <==> k < |archive| && LeftOut(archive[k])))
            && (r == Failed(TooManyEntries, NOTHING) <==> |archive| > 10_000)
  {
    hide Fit, LeftOut, CannotBeRead;
    if |archive| <= MAX_ENTRIES {
      DoneFromIff(archive, 0, NOTHING);
      if Expand(archive, {}).Done? { WrittenFrom(archive, 0, NOTHING); }
    }
    assert [] + Fit(archive, 0) == Fit(archive, 0);
  }

  // ---- Creation ---------------------------------------------------------------------------------

  datatype Created = Archived(archive: seq<Entry>, count: nat) | NotOpened | TooMany | NothingToArchive

  /** Entries written as they come; one that cannot be opened ends it. */
  function CreateFrom(files: seq<Option<File>>, i: nat, archive: seq<Entry>): Created
    requires i <= |files|
    decreases |files| - i
  {
    if i == |files| then (if i == 0 then NothingToArchive else Archived(archive, i))
    else if files[i].None? then NotOpened
    else if i + 1 > MAX_ENTRIES then TooMany
    else CreateFrom(files, i + 1, archive + [EntryOf(files[i].value)])
  }

  function EntryOf(f: File): Entry {
    Entry(f.name, false, |f.data|, Some(f.data))
  }

  predicate AllOpen(files: seq<Option<File>>, i: nat, to: nat)
    requires to <= |files|
  {
    forall k :: i <= k < to ==> files[k].Some?
  }

  lemma {:induction false} CreatedFromIff(files: seq<Option<File>>, i: nat, archive: seq<Entry>)
    requires i <= |files| && i <= 10_000 && |archive| == i && (i > 0 || archive == [])
    ensures var r := CreateFrom(files, i, archive);
            && (r.Archived? <==> 0 < |files| <= 10_000 && AllOpen(files, i, |files|))
            && (r.NothingToArchive? <==> files == [])
            && (r.TooMany? <==> |files| > 10_000 && AllOpen(files, i, 10_001))
            && (r.Archived? ==>
                  && r.count == |files| == |r.archive| && archive <= r.archive
                  && forall k :: i <= k < |files| ==>
                       r.archive[k] == Entry(files[k].value.name, false, |files[k].value.data|, Some(files[k].value.data)))
    decreases |files| - i
  {
    if i < |files| && files[i].Some? && i + 1 <= 10_000 {
      CreatedFromIff(files, i + 1, archive + [EntryOf(files[i].value)]);
    }
  }

  /** What archiving comes to: there is an archive if and only if there is a file and
      there are not too many, and each opens; it then has an entry for each, in order,
      with its name and its bytes. Of the first ten thousand and one, one that cannot
      be opened is told before there are too many. */
  lemma CreatedIff(files: seq<Option<File>>)
    ensures var r := CreateFrom(files, 0, []);
            && (r.Archived? <==> 0 < |files| <= 10_000 && AllOpen(files, 0, |files|))
            && (r.NothingToArchive? <==> files == [])
            && (r.TooMany? <==> |files| > 10_000 && AllOpen(files, 0, 10_001))
            && (r.Archived? ==>
                  && r.count == |files| == |r.archive|
                  && forall k :: 0 <= k < |files| ==>
                       r.archive[k] == Entry(files[k].value.name, false, |files[k].value.data|, Some(files[k].value.data)))
  {
    CreatedFromIff(files, 0, []);
  }

  method CreateInto(files: seq<Option<File>>) returns (r: Created)
    ensures r == CreateFrom(files, 0, [])
  {
    var archive, count := [], 0;
    while count < |files|
      invariant count <= |files| && CreateFrom(files, count, archive) == CreateFrom(files, 0, [])
    {
      if files[count].None? {
        return NotOpened;
      }
      if count + 1 > MAX_ENTRIES {
        return TooMany;
      }
      archive := archive + [EntryOf(files[count].value)];
      count := count + 1;
    }
    if count == 0 {
      return NothingToArchive;
    }
    return Archived(archive, count);
  }

  function Entries(files: seq<File>): seq<Entry> {
    seq(|files|, i requires 0 <= i < |files| => EntryOf(files[i]))
  }

  function Opened(files: seq<File>): seq<Option<File>> {
    seq(|files|, i requires 0 <= i < |files| => Some(files[i]))
  }

  lemma {:induction false} CreatedIs(files: seq<File>, i: nat)
    requires i <= |files| <= MAX_ENTRIES && files != []
    ensures CreateFrom(Opened(files), i, Entries(files)[..i]) == Archived(Entries(files), |files|)
    decreases |files| - i
  {
    if i < |files| {
      assert Entries(files)[..i] + [EntryOf(files[i])] == Entries(files)[..i + 1];
      CreatedIs(files, i + 1);
    } else {
      assert Entries(files)[..i] == Entries(files);
    }
  }

  lemma {:induction false} PartOfTotal(files: seq<File>, i: nat)
    requires i <= |files|
    ensures TotalBytes(files[..i]) <= TotalBytes(files)
    decreases |files| - i
  {
    if i < |files| {
      PartOfTotal(files, i + 1);
      assert files[..i + 1] == files[..i] + [files[i]];
      OneMoreFile(files[..i], files[i]);
    } else {
      assert files[..i] == files;
    }
  }

  lemma JudgedAsItWas(f: File)
    requires Clean(f.name) && |f.data| <= MAX_ENTRY_BYTES
    ensures Judge(EntryOf(f)) == Hand(f)
  {
    CleanIffKept(f.name);
  }

  lemma {:induction false} ExpandsAll(files: seq<File>, i: nat)
    requires i <= |files| && Within(files)
    ensures ExpandFrom(Entries(files), i, {}, Progress(files[..i], files[..i], [])) == Done(Progress(files, files, []))
    decreases |files| - i
  {
    hide Judge, Clean;
    if i < |files| {
      assert files[..i + 1] == files[..i] + [files[i]];
      OneMoreFile(files[..i], files[i]);
      PartOfTotal(files, i + 1);
      JudgedAsItWas(files[i]);
      assert Judge(Entries(files)[i]) == Hand(files[i]);
      ExpandsAll(files, i + 1);
    } else {
      assert files[..i] == files;
    }
  }

  /** The round trip: what was archived is written back exactly, name and bytes,
      in order, if and only if the names are clean and the sizes within limits. */
  lemma WhatGoesInComesOutIff(files: seq<File>)
    requires 0 < |files| <= MAX_ENTRIES
    ensures var created := CreateFrom(Opened(files), 0, []);
            && created.Archived? && created.count == |files|
            && var r := Expand(created.archive, {});
               (r.Done? && r.progress.written == files <==> Within(files))
  {
    CreatedIs(files, 0);
    assert Entries(files)[..0] == [];
    var r := Expand(Entries(files), {});
    if Within(files) {
      ExpandsAll(files, 0);
      assert files[..0] == [];
    }
    AnyExpansion(Entries(files), {});
    AllHandedAreWritten(Entries(files), 0, NOTHING);
  }

  lemma {:induction false} AllHandedAreWritten(archive: seq<Entry>, i: nat, p: Progress)
    requires i <= |archive| && p.handed == p.written
    ensures ExpandFrom(archive, i, {}, p).progress.handed == ExpandFrom(archive, i, {}, p).progress.written
    decreases |archive| - i
  {
    if i < |archive| {
      match Judge(archive[i])
      case Folder => AllHandedAreWritten(archive, i + 1, p);
      case Skip => AllHandedAreWritten(archive, i + 1, p.(skipped := p.skipped + [i]));
      case Unread =>
      case Hand(file) =>
        if TotalBytes(p.handed) + |file.data| <= MAX_EXPANDED_BYTES {
          AllHandedAreWritten(archive, i + 1, Progress(p.handed + [file], p.written + [file], p.skipped));
        }
    }
  }

  // ---- What goes in, and where it comes back -----------------------------------------------

  function TrimSlashes(s: string): string {
    if s != "" && s[|s| - 1] == '/' then TrimSlashes(s[..|s| - 1]) else s
  }

  /** Where the last slash of a path ends, or the beginning. */
  function AfterLastSlash(s: string, to: nat): (k: nat)
    requires to <= |s|
    ensures k <= to && (k > 0 ==> s[k - 1] == '/') && forall j :: k <= j < to ==> s[j] != '/'
  {
    if to == 0 || s[to - 1] == '/' then to else AfterLastSlash(s, to - 1)
  }

  /** A path listed exactly is one file, named as it is inside its folder;
      otherwise what was asked for is a folder. */
  function ResolveInputs(asked: string, listed: seq<string>, under: seq<string>): (string, seq<string>) {
    if asked in listed then (asked[..AfterLastSlash(asked, |asked|)], [asked]) else (asked + "/", under)
  }

  /** The archive itself is not one of its inputs. */
  function Inputs(found: seq<string>, archive: string): (inputs: seq<string>)
    ensures forall p :: p in inputs <==> p in found && p != archive
  {
    if found == [] then [] else (if found[0] == archive then [] else [found[0]]) + Inputs(found[1..], archive)
  }

  /** In the order found. */
  lemma {:induction false} InputsInOrder(before: seq<string>, after: seq<string>, archive: string)
    requires archive !in before
    ensures Inputs(before + after, archive) == before + Inputs(after, archive)
    ensures Inputs([archive] + after, archive) == Inputs(after, archive)
    decreases before
  {
    assert ([archive] + after)[1..] == after;
    if before == [] {
      assert before + after == after;
    } else {
      assert (before + after)[1..] == before[1..] + after;
      InputsInOrder(before[1..], after, archive);
    }
  }

  function Relative(prefix: string, path: string): string {
    if prefix <= path then path[|prefix|..] else path
  }

  function Target(destination: string, name: string): string {
    TrimSlashes(destination) + "/" + name
  }

  /** However many slashes the destination ends with, one stands before the name. */
  lemma TargetHasOneSlash(destination: string, name: string)
    ensures Target(destination + "/", name) == Target(destination, name)
    ensures (destination == "" || destination[|destination| - 1] != '/') ==> Target(destination, name) == destination + "/" + name
  {
    assert (destination + "/")[..|destination|] == destination;
  }

  /** A path that names one file archives that file and no other, by its bare name. */
  lemma OneFileByItsName(asked: string, listed: seq<string>, under: seq<string>)
    requires asked in listed
    ensures var (prefix, found) := ResolveInputs(asked, listed, under);
            && found == [asked] && prefix + Relative(prefix, asked) == asked && NoSlash(Relative(prefix, asked))
  {
    var k := AfterLastSlash(asked, |asked|);
    assert asked[..k] <= asked && asked[..k] + asked[k..] == asked;
  }

  function FilesOf(store: map<string, seq<Byte>>, prefix: string, paths: seq<string>): seq<File>
    requires forall p :: p in paths ==> p in store
  {
    seq(|paths|, i requires 0 <= i < |paths| => File(Relative(prefix, paths[i]), store[paths[i]]))
  }

  /** A path listed as no file is a folder: all that is under it, but for the slash. */
  lemma OtherwiseAFolder(asked: string, listed: seq<string>, under: seq<string>)
    requires asked !in listed
    ensures ResolveInputs(asked, listed, under).0 == asked + "/" && ResolveInputs(asked, listed, under).1 == under
  {
  }

  /** A folder archived and expanded where it was puts every file back at its own
      path with its own bytes, where the names are clean and within limits. */
  lemma AFolderComesBack(asked: string, listed: seq<string>, under: seq<string>, store: map<string, seq<Byte>>, archive: string)
    requires asked !in listed && TrimSlashes(asked) == asked
    requires forall p :: p in under ==> p in store && asked + "/" <= p
    requires 0 < |Inputs(under, archive)| <= MAX_ENTRIES
    requires Within(FilesOf(store, asked + "/", Inputs(under, archive)))
    ensures ResolveInputs(asked, listed, under) == (asked + "/", under)
    ensures var paths := Inputs(under, archive);
            var r := Expand(Entries(FilesOf(store, asked + "/", paths)), {});
            && r.Done? && |r.progress.written| == |paths|
            && forall k :: 0 <= k < |paths| ==>
                 && Target(asked, r.progress.written[k].name) == paths[k]
                 && r.progress.written[k].data == store[paths[k]]
  {
    hide Expand, Within, Target, TrimSlashes, Relative;
    var paths, prefix := Inputs(under, archive), asked + "/";
    var files := FilesOf(store, prefix, paths);
    FilesComeBack(files);
    forall k | 0 <= k < |paths| ensures Target(asked, files[k].name) == paths[k] {
      assert paths[k] in under;
      BackAtItsPath(asked, paths[k]);
    }
  }

  lemma FilesComeBack(files: seq<File>)
    requires 0 < |files| <= MAX_ENTRIES && Within(files)
    ensures var r := Expand(Entries(files), {}); r.Done? && r.progress.written == files
  {
    hide Within, Expand;
    WhatGoesInComesOutIff(files);
    CreatedIs(files, 0);
    assert Entries(files)[..0] == [];
  }

  lemma BackAtItsPath(asked: string, path: string)
    requires TrimSlashes(asked) == asked && asked + "/" <= path
    ensures Target(asked, Relative(asked + "/", path)) == path
  {
    var prefix := asked + "/";
    assert path == prefix + path[|prefix|..];
  }

  // ---- A stored archive, read through a window ------------------------------------------------

  /** A word of the machine the agent is compiled for: thirty-two bits. */
  const WORD: nat := 0x1_0000_0000
  const LONG: nat := 0x1_0000_0000_0000_0000

  /** How much of what is left is asked for: what is left, in the machine's word. */
  function Want(size: nat, pos: nat, len: nat): (n: nat)
    ensures n <= len && (pos <= size ==> pos + n <= size) && (pos > size ==> n == 0)
  {
    if pos >= size || len == 0 then 0
    else
      var left := (size - pos) % WORD;
      if len <= left then len else left
  }

  datatype From = Start(at: nat) | End(delta: int) | Current(delta: int)

  class Remote {
    const file: seq<Byte>
    var pos: nat

    constructor (file: seq<Byte>)
      ensures this.file == file && pos == 0
    {
      this.file, pos := file, 0;
    }

    /** The next bytes of the object, into a buffer; nothing at its end -- and
        nothing where what is left is a whole number of words. */
    method Read(buf: array<Byte>) returns (n: nat)
      modifies buf, this`pos
      ensures n == Want(|file|, old(pos), buf.Length) && pos == old(pos) + n
      ensures n == 0 || (old(pos) + n <= |file| && buf[..n] == file[old(pos)..old(pos) + n])
      ensures forall k :: n <= k < buf.Length ==> buf[k] == old(buf[k])
      ensures n == 0 <==> buf.Length == 0 || old(pos) >= |file| || (|file| - old(pos)) % WORD == 0
    {
      n := Want(|file|, pos, buf.Length);
      if n == 0 {
        return;
      }
      var i := 0;
      while i < n
        invariant i <= n && pos == old(pos) && pos + n <= |file|
        invariant forall k :: 0 <= k < i ==> buf[k] == file[pos + k]
        invariant forall k :: i <= k < buf.Length ==> buf[k] == old(buf[k])
      {
        buf[i] := file[pos + i];
        i := i + 1;
      }
      pos := pos + n;
    }

    /** Refused before the start; past the end is allowed, and reads nothing. */
    method Seek(to: From) returns (ok: bool)
      modifies this`pos
      ensures var next := match to case Start(at) => at case End(n) => |file| + n case Current(n) => old(pos) + n;
              && (ok <==> 0 <= next)
              && pos == if ok then next % LONG else old(pos)
    {
      var next: int;
      match to {
        case Start(at) => next := at;
        case End(n) => next := |file| + n;
        case Current(n) => next := pos + n;
      }
      if next < 0 {
        return false;
      }
      pos := next % LONG;
      return true;
    }
  }

  /** All that reading until nothing more comes gives, with a buffer of one size. */
  function ReadToEnd(size: nat, pos: nat, len: nat): nat
    requires pos <= size
    decreases size - pos
  {
    var n := Want(size, pos, len);
    if n == 0 then 0 else n + ReadToEnd(size, pos + n, len)
  }

  lemma {:induction false} ReadToEndIs(size: nat, pos: nat, len: nat)
    requires pos <= size && 0 < len
    ensures ReadToEnd(size, pos, len) == (size - pos) % WORD
    decreases size - pos
  {
    var n := Want(size, pos, len);
    if n > 0 {
      ReadToEndIs(size, pos + n, len);
      LessOfAWord(size - pos, n);
    }
  }

  lemma LessOfAWord(left: nat, n: nat)
    requires n <= left % WORD
    ensures (left - n) % WORD == left % WORD - n
  {
    var q := left / WORD;
    assert left == q * WORD + left % WORD;
    assert left - n == q * WORD + (left % WORD - n);
  }

  /** Reading to the end gives the rest of the object exactly where the rest is
      less than a word; of a larger one it stops short by whole words. */
  lemma ReadsItAllIff(size: nat, pos: nat, len: nat)
    requires pos <= size && 0 < len
    ensures ReadToEnd(size, pos, len) == size - pos <==> size - pos < WORD
  {
    ReadToEndIs(size, pos, len);
  }
}
