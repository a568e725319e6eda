/** The raw manifest parser: cutting a file into documents and scanning each for its metadata. */
module Manifest {
  import opened Strings
  import opened Status

  datatype Resource = Resource(kind: string, name: string, namespace: string, apiVersion: string, content: string)

  const NO_META := Resource("", "", "", "", "")
  const SEPARATOR := "\n---"

  // ---------------------------------------------------------------- metadata scan

  /** The four keys a line can carry. */
  datatype Field = ApiVersion | Kind | Name | Namespace {
    function Key(): string {
      match this
      case ApiVersion => "apiVersion:"
      case Kind => "kind:"
      case Name => "name:"
      case Namespace => "namespace:"
    }

    function Of(res: Resource): string {
      match this
      case ApiVersion => res.apiVersion
      case Kind => res.kind
      case Name => res.name
      case Namespace => res.namespace
    }

    /** The line carries this key, once trimmed. */
    predicate SetBy(line: string) {
      Key() <= TrimSpace(line)
    }

    function ValueOn(line: string): string
      requires SetBy(line)
    {
      TrimSpace(TrimSpace(line)[|Key()|..])
    }

    ghost predicate LastSetBy(lines: seq<string>, i: int) {
      0 <= i < |lines| && SetBy(lines[i]) && forall j :: i < j < |lines| ==> !SetBy(lines[j])
    }

    function OrElse(line: string, otherwise: string): string {
      if SetBy(line) then ValueOn(line) else otherwise
    }
  }

  /** What one line leaves of the metadata collected so far. */
  function ScanLine(res: Resource, line: string): Resource {
    res.(apiVersion := ApiVersion.OrElse(line, res.apiVersion),
         kind := Kind.OrElse(line, res.kind),
         name := Name.OrElse(line, res.name),
         namespace := Namespace.OrElse(line, res.namespace))
  }

  function ScanLines(lines: seq<string>): Resource {
    if lines == [] then NO_META else ScanLine(ScanLines(lines[..|lines| - 1]), lines[|lines| - 1])
  }

  lemma ScanOneMore(lines: seq<string>, i: nat)
    requires i < |lines|
    ensures ScanLines(lines[..i + 1]) == ScanLine(ScanLines(lines[..i]), lines[i])
  {
    assert lines[..i + 1][..i] == lines[..i];
  }

  function Meta(content: string): Resource {
    ScanLines(Split(content, "\n"))
  }

  method ExtractResourceMeta(content: string) returns (res: Resource)
    ensures res == Meta(content)
  {
    res := NO_META;
    var lines := Split(content, "\n");
    for i := 0 to |lines|
      invariant res == ScanLines(lines[..i])
    {
      var line := lines[i];
      if ApiVersion.SetBy(line) {
        res := res.(apiVersion := ApiVersion.ValueOn(line));
      }
      if Kind.SetBy(line) {
        res := res.(kind := Kind.ValueOn(line));
      }
      if Name.SetBy(line) {
        res := res.(name := Name.ValueOn(line));
      }
      if Namespace.SetBy(line) {
        res := res.(namespace := Namespace.ValueOn(line));
      }
      ScanOneMore(lines, i);
    }
    assert lines[..|lines|] == lines;
  }

  lemma ScanLineField(res: Resource, line: string, f: Field)
    ensures f.Of(ScanLine(res, line)) == f.OrElse(line, f.Of(res))
  {
  }

  ghost predicate NeverSet(lines: seq<string>, f: Field) {
    forall i :: 0 <= i < |lines| ==> !f.SetBy(lines[i])
  }

  lemma {:induction false} UnsetFieldIsEmpty(lines: seq<string>, f: Field)
    requires NeverSet(lines, f)
    ensures f.Of(ScanLines(lines)) == ""
  {
    if lines != [] {
      UnsetFieldIsEmpty(lines[..|lines| - 1], f);
      ScanLineField(ScanLines(lines[..|lines| - 1]), lines[|lines| - 1], f);
    }
  }

  lemma LastSetByInit(lines: seq<string>, f: Field, i: nat)
    requires f.LastSetBy(lines, i) && i < |lines| - 1
    ensures f.LastSetBy(lines[..|lines| - 1], i) && !f.SetBy(lines[|lines| - 1])
  {
    hide TrimSpace;
  }

  /** Every field holds the value on the last line that carries its key, anywhere in the document;
      a field is empty without such a line, or when that line's value is blank. */
  lemma {:induction false} FieldIsLastMatch(lines: seq<string>, f: Field, i: nat)
    requires f.LastSetBy(lines, i)
    ensures f.Of(ScanLines(lines)) == f.ValueOn(lines[i])
  {
    hide ScanLine, TrimSpace;
    var n := |lines| - 1;
    ScanLineField(ScanLines(lines[..n]), lines[n], f);
    if i < n {
      LastSetByInit(lines, f, i);
      FieldIsLastMatch(lines[..n], f, i);
    }
  }

  /** White space, then this key, `n` characters into the line. */
  ghost predicate KeyAt(line: string, key: string, n: nat) {
    n + |key| <= |line| && AllSpace(line[..n]) && line[n..n + |key|] == key
  }

  ghost predicate LastKeyAt(lines: seq<string>, key: string, i: int, n: nat) {
    && 0 <= i < |lines| && KeyAt(lines[i], key, n)
    && forall j, k: nat :: i < j < |lines| ==> !KeyAt(lines[j], key, k)
  }

  ghost predicate KeyNowhere(lines: seq<string>, key: string) {
    forall i, n: nat :: 0 <= i < |lines| ==> !KeyAt(lines[i], key, n)
  }

  lemma KeyIsTrimmed(f: Field)
    ensures f.Key() != [] && !IsSpace(f.Key()[0]) && !IsSpace(f.Key()[|f.Key()| - 1])
  {
  }

  lemma SetByKeyAt(f: Field, line: string, n: nat)
    requires KeyAt(line, f.Key(), n)
    ensures f.SetBy(line) && f.ValueOn(line) == TrimSpace(line[n + |f.Key()|..])
  {
    hide TrimSpace;
    var key, rest := f.Key(), line[n + |f.Key()|..];
    KeyIsTrimmed(f);
    var left, right := TrimParts(rest);
    var value := TrimSpace(rest);
    if value == [] {
      assert line == line[..n] + key + (left + right);
      TrimUnique(line[..n], key, left + right);
      TrimIdempotent(key[|key|..]);
    } else {
      var carried := key + (left + value);
      assert line == line[..n] + carried + right;
      assert carried[|carried| - 1] == value[|value| - 1];
      TrimUnique(line[..n], carried, right);
      assert carried[|key|..] == left + value;
      assert left + value == left + value + [];
      TrimUnique(left, value, []);
    }
  }

  lemma SetByFindsKey(f: Field, line: string) returns (n: nat)
    requires f.SetBy(line)
    ensures KeyAt(line, f.Key(), n)
  {
    hide TrimSpace;
    var left, right := TrimParts(line);
    n := |left|;
    assert line[n..n + |f.Key()|] == TrimSpace(line)[..|f.Key()|];
  }

  lemma {:induction false} FieldFromKey(lines: seq<string>, f: Field, i: int, n: nat)
    requires LastKeyAt(lines, f.Key(), i, n)
    ensures f.Of(ScanLines(lines)) == TrimSpace(lines[i][n + |f.Key()|..])
  {
    hide KeyAt, ScanLines, TrimSpace, AllSpace;
    forall j | i < j < |lines| ensures !f.SetBy(lines[j]) {
      if f.SetBy(lines[j]) {
        var k := SetByFindsKey(f, lines[j]);
      }
    }
    assert n + |f.Key()| <= |lines[i]| by { KeyFits(lines[i], f.Key(), n); }
    SetByKeyAt(f, lines[i], n);
    FieldIsLastMatch(lines, f, i);
  }

  lemma KeyFits(line: string, key: string, n: nat)
    requires KeyAt(line, key, n)
    ensures n + |key| <= |line|
  {
  }

  lemma {:induction false} FieldWithoutKey(lines: seq<string>, f: Field)
    requires KeyNowhere(lines, f.Key())
    ensures f.Of(ScanLines(lines)) == ""
  {
    hide KeyAt, ScanLines, TrimSpace, AllSpace;
    forall i | 0 <= i < |lines| ensures !f.SetBy(lines[i]) {
      if f.SetBy(lines[i]) {
        var n := SetByFindsKey(f, lines[i]);
      }
    }
    UnsetFieldIsEmpty(lines, f);
  }

  /** The metadata, key by key: each field holds what follows its key, trimmed, on the last line that is
      white space up to that key. */
  lemma {:induction false} MetadataFromKeys(content: string, i: int, n: nat)
    ensures var lines, meta := Split(content, "\n"), Meta(content);
            && (LastKeyAt(lines, "apiVersion:", i, n) ==> meta.apiVersion == TrimSpace(lines[i][n + 11..]))
            && (LastKeyAt(lines, "kind:", i, n) ==> meta.kind == TrimSpace(lines[i][n + 5..]))
            && (LastKeyAt(lines, "name:", i, n) ==> meta.name == TrimSpace(lines[i][n + 5..]))
            && (LastKeyAt(lines, "namespace:", i, n) ==> meta.namespace == TrimSpace(lines[i][n + 10..]))
  {
    hide LastKeyAt, Split, ScanLines, TrimSpace;
    var lines := Split(content, "\n");
    forall f: Field | LastKeyAt(lines, f.Key(), i, n)
      ensures 0 <= i < |lines| && n + |f.Key()| <= |lines[i]|
      ensures f.Of(ScanLines(lines)) == TrimSpace(lines[i][n + |f.Key()|..])
    {
      LastKeyFits(lines, f.Key(), i, n);
      FieldFromKey(lines, f, i, n);
    }
    assert ApiVersion.Key() == "apiVersion:" && Kind.Key() == "kind:";
    assert Name.Key() == "name:" && Namespace.Key() == "namespace:";
  }

  lemma LastKeyFits(lines: seq<string>, key: string, i: int, n: nat)
    requires LastKeyAt(lines, key, i, n)
    ensures 0 <= i < |lines| && n + |key| <= |lines[i]|
  {
  }

  /** ... and is empty without such a line. */
  lemma {:induction false} MetadataWithoutKeys(content: string)
    ensures var lines, meta := Split(content, "\n"), Meta(content);
            && (KeyNowhere(lines, "apiVersion:") ==> meta.apiVersion == "")
            && (KeyNowhere(lines, "kind:") ==> meta.kind == "")
            && (KeyNowhere(lines, "name:") ==> meta.name == "")
            && (KeyNowhere(lines, "namespace:") ==> meta.namespace == "")
            && meta.content == ""
  {
    hide KeyNowhere, Split;
    var lines := Split(content, "\n");
    ScanKeepsContent(lines);
    hide ScanLines;
    forall f: Field | KeyNowhere(lines, f.Key()) ensures f.Of(ScanLines(lines)) == "" {
      FieldWithoutKey(lines, f);
    }
    assert ApiVersion.Key() == "apiVersion:" && Kind.Key() == "kind:";
    assert Name.Key() == "name:" && Namespace.Key() == "namespace:";
  }

  lemma {:induction false} ScanKeepsContent(lines: seq<string>)
    ensures ScanLines(lines).content == ""
  {
    if lines != [] {
      ScanKeepsContent(lines[..|lines| - 1]);
    }
  }

  // ---------------------------------------------------------------- documents

  /** The resource in one piece of a file, if it holds one. */
  function ParsePiece(piece: string): (r: seq<Resource>)
    ensures |r| <= 1
  {
    var doc := TrimSpace(piece);
    var res := Meta(doc);
    if doc == "" || res.kind == "" then [] else [res.(content := doc)]
  }

  function ParsePieces(pieces: seq<string>): seq<Resource> {
    if pieces == [] then [] else ParsePiece(pieces[0]) + ParsePieces(pieces[1..])
  }

  lemma ParseFrom(pieces: seq<string>, i: nat)
    requires i < |pieces|
    ensures ParsePieces(pieces[i..]) == ParsePiece(pieces[i]) + ParsePieces(pieces[i + 1..])
  {
    hide ParsePiece;
    assert pieces[i..][1..] == pieces[i + 1..];
  }

  /** All the resources in a file, in order. */
  function Parse(content: string): seq<Resource> {
    ParsePieces(Split(content, SEPARATOR))
  }

  method ParseYAMLDocuments(content: string) returns (resources: seq<Resource>)
    ensures resources == Parse(content)
  {
    resources := [];
    var docs := Split(content, SEPARATOR);
    for i := 0 to |docs|
      invariant resources + ParsePieces(docs[i..]) == Parse(content)
    {
      ParseFrom(docs, i);
      ghost var rest := ParsePieces(docs[i + 1..]);
      ParsedSoFar(resources, ParsePiece(docs[i]), rest);
      hide ParsePieces, TrimSpace, Meta, Parse;
      var doc := TrimSpace(docs[i]);
      if doc == "" {
        continue;
      }
      var res := ExtractResourceMeta(doc);
      if res.kind == "" {
        continue;
      }
      res := res.(content := doc);
      resources := resources + [res];
    }
    assert resources + [] == resources;
  }

  lemma ParsedSoFar(before: seq<Resource>, piece: seq<Resource>, rest: seq<Resource>)
    ensures before + (piece + rest) == (before + piece) + rest
    ensures before + [] == before
  {
  }

  // ---------------------------------------------------------------- the directory walk

  datatype FileContent = Text(text: string) | Unreadable(err: string)

  /** What the walk of the manifest directory comes by, in the order it does. */
  datatype Visit = WalkFailed(err: string) | Directory(path: string) | File(path: string, content: FileContent)

  datatype ParseResult = Manifests(resources: seq<Resource>) | ParseError(err: string)

  /** A path from the last dot of its last element on, as seen in its first `n` characters. */
  function ExtensionIn(path: string, n: nat): string
    requires n <= |path|
  {
    if n == 0 || path[n - 1] == '/' then ""
    else if path[n - 1] == '.' then path[n - 1..]
    else ExtensionIn(path, n - 1)
  }

  function Lower(s: string): string {
    seq(|s|, i requires 0 <= i < |s| =>
      if 'A' <= s[i] <= 'Z' then ((s[i] as int) + 32) as char else s[i])
  }

  predicate IsManifest(path: string) {
    Lower(ExtensionIn(path, |path|)) in [".yaml", ".yml", ".json"]
  }

  /** What stops the walk at this visit, if anything does. */
  function Failure(v: Visit): Option<string> {
    match v
    case WalkFailed(err) => Some(err)
    case Directory(_) => None
    case File(path, content) =>
      if IsManifest(path) && content.Unreadable? then Some("failed to read " + path + ": " + content.err) else None
  }

  /** The texts of the manifest files among the visits. */
  function Texts(visits: seq<Visit>): seq<string> {
    if visits == [] then []
    else
      var last := visits[|visits| - 1];
      Texts(visits[..|visits| - 1])
      + if last.File? && IsManifest(last.path) && last.content.Text? then [last.content.text] else []
  }

  function ParseFiles(files: seq<string>): seq<Resource> {
    if files == [] then [] else ParseFiles(files[..|files| - 1]) + Parse(files[|files| - 1])
  }

  lemma ParseOneMoreVisit(visits: seq<Visit>, i: nat)
    requires i < |visits|
    ensures var v := visits[i];
            ParseFiles(Texts(visits[..i + 1]))
            == ParseFiles(Texts(visits[..i]))
               + if v.File? && IsManifest(v.path) && v.content.Text? then Parse(v.content.text) else []
  {
    hide Parse, IsManifest;
    assert visits[..i + 1][..i] == visits[..i];
    var texts, more := Texts(visits[..i]), Texts(visits[..i + 1]);
    if more == texts + [] {
      assert more == texts;
    } else {
      assert more[..|more| - 1] == texts;
    }
  }

  /** The parse fails if and only if the walk reports an error or a manifest file cannot be read, with
      the first such error; otherwise it gives the resources of the manifest files, in order. */
  method ParseRaw(visits: seq<Visit>) returns (r: ParseResult)
    ensures r.Manifests? <==> forall i :: 0 <= i < |visits| ==> Failure(visits[i]).None?
    ensures r.Manifests? ==> r.resources == ParseFiles(Texts(visits))
    ensures r.ParseError? ==>
              exists i :: 0 <= i < |visits| && Failure(visits[i]) == Some(r.err)
                          && forall j :: 0 <= j < i ==> Failure(visits[j]).None?
  {
    hide Parse, IsManifest, ParseFiles, Texts;
    var resources := [];
    assert ParseFiles(Texts(visits[..0])) == [] by { NothingToParse(); }
    for i := 0 to |visits|
      invariant resources == ParseFiles(Texts(visits[..i]))
      invariant forall j :: 0 <= j < i ==> Failure(visits[j]).None?
    {
      ParseOneMoreVisit(visits, i);
      match visits[i] {
        case WalkFailed(err) => return ParseError(err);
        case Directory(_) =>
        case File(path, content) =>
          if IsManifest(path) {
            if content.Unreadable? {
              return ParseError("failed to read " + path + ": " + content.err);
            }
            var parsed := ParseYAMLDocuments(content.text);
            resources := resources + parsed;
          }
      }
    }
    assert visits[..|visits|] == visits;
    return Manifests(resources);
  }

  lemma NothingToParse()
    ensures ParseFiles(Texts([])) == []
  {
  }

  /** The same letter in either case; `lower` is the lower-case one. */
  predicate SameLetter(c: char, lower: char) {
    c == lower || ('a' <= lower <= 'z' && c as int == lower as int - 32)
  }

  ghost predicate EndsIn(path: string, ending: string) {
    |ending| <= |path|
    && forall k :: 0 <= k < |ending| ==> SameLetter(path[|path| - |ending| + k], ending[k])
  }

  lemma {:induction false} ExtensionIsSuffix(path: string, n: nat)
    requires n <= |path|
    ensures var e := ExtensionIn(path, n); e != "" ==> |e| <= |path| && path[|path| - |e|..] == e
  {
    if n > 0 && path[n - 1] != '/' && path[n - 1] != '.' {
      ExtensionIsSuffix(path, n - 1);
    }
  }

  lemma {:induction false} ExtensionFound(path: string, n: nat, m: nat)
    requires m < n <= |path| && path[m] == '.'
    requires forall k :: m < k < n ==> path[k] != '.' && path[k] != '/'
    ensures ExtensionIn(path, n) == path[m..]
  {
    if n > m + 1 {
      ExtensionFound(path, n - 1, m);
    }
  }

  lemma LowerIs(s: string, ending: string)
    requires ending in [".yaml", ".yml", ".json"]
    ensures Lower(s) == ending <==> |s| == |ending| && forall k :: 0 <= k < |s| ==> SameLetter(s[k], ending[k])
  {
    if |s| == |ending| && forall k :: 0 <= k < |s| ==> SameLetter(s[k], ending[k]) {
      forall k | 0 <= k < |s| ensures Lower(s)[k] == ending[k] {
      }
    }
    if Lower(s) == ending {
      forall k | 0 <= k < |s| ensures SameLetter(s[k], ending[k]) {
        assert Lower(s)[k] == ending[k];
      }
    }
  }

  predicate DotAndLetters(ending: string) {
    ending != "" && ending[0] == '.' && forall k :: 0 < k < |ending| ==> 'a' <= ending[k] <= 'z'
  }

  lemma {:induction false} EndingIsExtension(path: string, ending: string)
    requires DotAndLetters(ending) && EndsIn(path, ending)
    ensures ExtensionIn(path, |path|) == path[|path| - |ending|..]
  {
    hide ExtensionIn;
    var m := |path| - |ending|;
    assert SameLetter(path[m + 0], ending[0]);
    forall k | m < k < |path| ensures path[k] != '.' && path[k] != '/' {
      assert SameLetter(path[m + (k - m)], ending[k - m]);
    }
    ExtensionFound(path, |path|, m);
  }

  lemma EndingsAreLetters(ending: string)
    requires ending in [".yaml", ".yml", ".json"]
    ensures DotAndLetters(ending)
  {
  }

  lemma {:induction false} ExtensionLowersTo(path: string, ending: string)
    requires ending in [".yaml", ".yml", ".json"]
    ensures Lower(ExtensionIn(path, |path|)) == ending <==> EndsIn(path, ending)
  {
    hide ExtensionIn, Lower, SameLetter, DotAndLetters;
    var e := ExtensionIn(path, |path|);
    EndingsAreLetters(ending);
    ExtensionIsSuffix(path, |path|);
    LowerIs(e, ending);
    if EndsIn(path, ending) {
      EndingIsExtension(path, ending);
    }
    assert |e| == |ending| ==> forall k :: 0 <= k < |ending| ==> e[k] == path[|path| - |ending| + k];
  }

  /** A file is taken for a manifest if and only if its path ends in .yaml, .yml or .json, in any case. */
  lemma IsManifestIff(path: string)
    ensures IsManifest(path) <==> EndsIn(path, ".yaml") || EndsIn(path, ".yml") || EndsIn(path, ".json")
  {
    hide EndsIn, Lower, ExtensionIn;
    ExtensionLowersTo(path, ".yaml");
    ExtensionLowersTo(path, ".yml");
    ExtensionLowersTo(path, ".json");
  }

  lemma {:induction false} ParseFilesConcat(a: seq<string>, b: seq<string>)
    ensures ParseFiles(a + b) == ParseFiles(a) + ParseFiles(b)
  {
    hide Parse;
    if b == [] {
      assert a + b == a;
    } else {
      assert (a + b)[..|a + b| - 1] == a + b[..|b| - 1];
      ParseFilesConcat(a, b[..|b| - 1]);
    }
  }

  lemma {:induction false} TextsConcat(a: seq<Visit>, b: seq<Visit>)
    ensures Texts(a + b) == Texts(a) + Texts(b)
  {
    hide IsManifest;
    if b == [] {
      assert a + b == a;
    } else {
      assert (a + b)[..|a + b| - 1] == a + b[..|b| - 1];
      TextsConcat(a, b[..|b| - 1]);
    }
  }

  /** A walk gives the resources of its visits, one after the other: those of the text of a manifest file,
      and none for anything else. */
  lemma {:induction false} WalkIsVisitByVisit(before: seq<Visit>, v: Visit, after: seq<Visit>)
    ensures ParseFiles(Texts(before + [v] + after))
            == ParseFiles(Texts(before))
               + (if v.File? && v.content.Text?
                     && (EndsIn(v.path, ".yaml") || EndsIn(v.path, ".yml") || EndsIn(v.path, ".json"))
                  then Parse(v.content.text) else [])
               + ParseFiles(Texts(after))
    ensures ParseFiles(Texts([])) == []
  {
    hide EndsIn, Parse, IsManifest, Texts, ParseFiles;
    TextsConcat(before + [v], after);
    TextsConcat(before, [v]);
    ParseFilesConcat(Texts(before + [v]), Texts(after));
    ParseFilesConcat(Texts(before), Texts([v]));
    OneVisit(v);
    NothingToParse();
  }

  lemma OneVisit(v: Visit)
    ensures ParseFiles(Texts([v]))
            == if v.File? && v.content.Text?
                  && (EndsIn(v.path, ".yaml") || EndsIn(v.path, ".yml") || EndsIn(v.path, ".json"))
               then Parse(v.content.text) else []
  {
    hide EndsIn, Parse, IsManifest;
    assert [v][..0] == [];
    if v.File? && v.content.Text? {
      IsManifestIff(v.path);
      if IsManifest(v.path) {
        assert Texts([v]) == [v.content.text];
        assert [v.content.text][..0] == [];
      }
    }
  }

  /** What stops a walk: an error of its own, or a manifest file that cannot be read. */
  lemma StopsWalkIff(v: Visit, err: string)
    ensures Failure(v) == Some(err) <==>
            || v == WalkFailed(err)
            || (v.File? && v.content.Unreadable? && err == "failed to read " + v.path + ": " + v.content.err
                && (EndsIn(v.path, ".yaml") || EndsIn(v.path, ".yml") || EndsIn(v.path, ".json")))
  {
    hide EndsIn, IsManifest;
    if v.File? {
      IsManifestIff(v.path);
    }
  }

  // ---------------------------------------------------------------- laws

  lemma SeparatorIsBorderless()
    ensures Borderless(SEPARATOR)
  {
    forall k | 0 < k < |SEPARATOR| ensures SEPARATOR[k..] != SEPARATOR[..|SEPARATOR| - k] {
      assert SEPARATOR[k..][0] == '-' && SEPARATOR[..|SEPARATOR| - k][0] == '\n';
    }
  }

  lemma {:induction false} ParsePiecesConcat(a: seq<string>, b: seq<string>)
    ensures ParsePieces(a + b) == ParsePieces(a) + ParsePieces(b)
  {
    hide ParsePiece;
    if a == [] {
      assert a + b == b;
    } else {
      assert (a + b)[0] == a[0] && (a + b)[1..] == a[1..] + b;
      ParsePiecesConcat(a[1..], b);
    }
  }

  /** Text before and after a separator is parsed independently, whatever the text is. */
  lemma ParseConcat(a: string, b: string)
    ensures Parse(a + SEPARATOR + b) == Parse(a) + Parse(b)
  {
    SeparatorIsBorderless();
    SplitConcat(a, SEPARATOR, b);
    ParsePiecesConcat(Split(a, SEPARATOR), Split(b, SEPARATOR));
  }

  lemma ParseSingle(s: string)
    requires !Contains(s, SEPARATOR)
    ensures Parse(s) == ParsePiece(s)
  {
    SplitClean(s, SEPARATOR);
    assert ParsePieces([s][1..]) == [];
  }

  /** A text without a separator in it is one document, whatever white space stands around it. */
  lemma ParseOneDocument(s: string)
    requires !Contains(s, SEPARATOR)
    ensures var doc := TrimSpace(s);
            Parse(s) == if Meta(doc).kind == "" then [] else [Meta(doc).(content := doc)]
  {
    EmptyHasNoKind();
    ParseSingle(s);
  }

  lemma TrimKeepsClean(s: string)
    requires !Contains(s, SEPARATOR)
    ensures !Contains(TrimSpace(s), SEPARATOR)
  {
    hide TrimSpace, Contains;
    var left, right := TrimParts(s);
    CleanInside(left, TrimSpace(s), right, SEPARATOR);
  }

  lemma {:induction false} ResourceComesFromPiece(pieces: seq<string>, m: nat) returns (k: nat)
    requires m < |ParsePieces(pieces)|
    ensures k < |pieces| && ParsePiece(pieces[k]) == [ParsePieces(pieces)[m]]
  {
    hide ParsePiece;
    var n := |ParsePiece(pieces[0])|;
    if m < n {
      k := 0;
    } else {
      k := ResourceComesFromPiece(pieces[1..], m - n);
      k := k + 1;
    }
  }

  /** Parsing is a projection: the content kept for a resource parses to that resource alone. */
  lemma ParseProjection(s: string, r: Resource)
    requires r in Parse(s)
    ensures Parse(r.content) == [r]
    ensures IsDocument(r.content) && |r.content| <= |s|
  {
    var m :| 0 <= m < |Parse(s)| && Parse(s)[m] == r;
    var k := ResourceComesFromPiece(Split(s, SEPARATOR), m);
    var piece := Split(s, SEPARATOR)[k];
    SplitPiecesAreClean(s, SEPARATOR, k);
    SplitPieceLength(s, SEPARATOR, k);
    TrimKeepsClean(piece);
    var _, _ := TrimParts(piece);
    TrimIdempotent(TrimSpace(piece));
    ParseSingle(TrimSpace(piece));
  }

  lemma {:induction false} SplitPieceLength(s: string, sep: string, k: nat)
    requires sep != [] && k < |Split(s, sep)|
    ensures |Split(s, sep)[k]| <= |s|
    decreases |s|
  {
    var i := IndexFrom(s, sep, 0);
    if i >= 0 && k > 0 {
      SplitPieceLength(s[i + |sep|..], sep, k - 1);
    }
  }

  /** A text that stands for itself: trimmed, in one piece, and with a kind. */
  ghost predicate IsDocument(doc: string) {
    Trimmed(doc) && !Contains(doc, SEPARATOR) && Meta(doc).kind != ""
  }

  /** The resources hold exactly these texts, in order. */
  ghost predicate ContentsAre(resources: seq<Resource>, docs: seq<string>) {
    |resources| == |docs| && forall i :: 0 <= i < |docs| ==> resources[i].content == docs[i]
  }

  lemma EmptyHasNoKind()
    ensures Meta("").kind == ""
  {
    assert Split("", "\n") == [""];
    assert [""][..0] == [];
    assert ScanLines([""]) == ScanLine(NO_META, "");
    ScanLineField(NO_META, "", Kind);
  }

  lemma DocumentParses(doc: string)
    requires IsDocument(doc)
    ensures ParsePiece(doc) == [Meta(doc).(content := doc)] == Parse(doc)
  {
    EmptyHasNoKind();
    TrimIdempotent(doc);
    ParseSingle(doc);
  }

  /** What the pieces between joined documents parse to: each but the first starts on a new line. */
  function ParseEach(docs: seq<string>): seq<Resource> {
    if docs == [] then [] else Parse("\n" + docs[0]) + ParseEach(docs[1..])
  }

  const GLUE := "\n---\n"

  lemma GlueIsSeparatorAndBreak(before: string, rest: string)
    ensures before + GLUE + rest == before + SEPARATOR + ("\n" + rest)
  {
    assert GLUE == SEPARATOR + "\n";
  }

  lemma {:induction false} ParseTail(docs: seq<string>)
    requires docs != []
    ensures Parse("\n" + Join(docs, GLUE)) == ParseEach(docs)
  {
    if |docs| == 1 {
      assert ParseEach(docs[1..]) == [];
    } else {
      var line, rest := "\n" + docs[0], Join(docs[1..], GLUE);
      assert "\n" + (docs[0] + GLUE + rest) == line + GLUE + rest;
      GlueIsSeparatorAndBreak(line, rest);
      ParseConcat(line, "\n" + rest);
      ParseTail(docs[1..]);
    }
  }

  lemma {:induction false} ParseJoined(docs: seq<string>)
    requires docs != []
    ensures Parse(Join(docs, GLUE)) == Parse(docs[0]) + ParseEach(docs[1..])
  {
    if |docs| == 1 {
      assert ParseEach(docs[1..]) == [];
    } else {
      var rest := Join(docs[1..], GLUE);
      GlueIsSeparatorAndBreak(docs[0], rest);
      ParseConcat(docs[0], "\n" + rest);
      ParseTail(docs[1..]);
    }
  }

  lemma CleanAfter(doc: string, n: nat)
    requires !Contains(doc, SEPARATOR) && n <= |doc|
    ensures !Contains(doc[n..], SEPARATOR)
  {
    assert doc == doc[..n] + doc[n..] + "";
    CleanInside(doc[..n], doc[n..], "", SEPARATOR);
  }

  /** A document that begins like a separator loses its head when a line break precedes it. */
  lemma SeparatorLookalikeIsCut(doc: string)
    requires !Contains(doc, SEPARATOR) && "---" <= doc
    ensures Parse("\n" + doc) == ParsePiece(doc[3..])
  {
    var rest := doc[3..];
    assert doc == "---" + rest;
    assert SEPARATOR == "\n" + "---";
    assert "\n" + doc == "" + SEPARATOR + rest;
    ParseConcat("", rest);
    assert !Contains("", SEPARATOR);
    ParseSingle("");
    CleanAfter(doc, 3);
    ParseSingle(rest);
  }

  lemma SeparatorAfterBreak(doc: string)
    ensures OccursAt("\n" + doc, SEPARATOR, 0) ==> "---" <= doc
  {
    var s := "\n" + doc;
    if OccursAt(s, SEPARATOR, 0) {
      assert SEPARATOR[1..] == "---";
      assert s[0..4][1..] == doc[..3];
    }
  }

  lemma SeparatorPastBreak(doc: string, j: int)
    requires OccursAt("\n" + doc, SEPARATOR, j) && j > 0
    ensures OccursAt(doc, SEPARATOR, j - 1)
  {
    assert doc[j - 1..j - 1 + |SEPARATOR|] == ("\n" + doc)[j..j + |SEPARATOR|];
  }

  lemma LineBreakKeepsClean(doc: string)
    requires !Contains(doc, SEPARATOR) && !("---" <= doc)
    ensures !Contains("\n" + doc, SEPARATOR)
  {
    SeparatorAfterBreak(doc);
    forall j | OccursAt("\n" + doc, SEPARATOR, j) ensures false {
      if j > 0 {
        SeparatorPastBreak(doc, j);
      }
    }
  }

  lemma LineBreakIsTrimmed(doc: string)
    requires IsDocument(doc) && !("---" <= doc)
    ensures Parse("\n" + doc) == [Meta(doc).(content := doc)]
  {
    hide TrimSpace, Meta, Parse;
    LineBreakKeepsClean(doc);
    ParseSingle("\n" + doc);
    assert "\n" + doc + "" == "\n" + doc;
    TrimUnique("\n", doc, "");
    TrimIdempotent(doc);
    DocumentParses(doc);
  }

  /** After a line break a document parses to itself, unless it begins like a separator. */
  lemma ParseOnNewLine(doc: string)
    requires IsDocument(doc)
    ensures |Parse("\n" + doc)| <= 1
    ensures ContentsAre(Parse("\n" + doc), [doc]) <==> !("---" <= doc)
  {
    if "---" <= doc {
      SeparatorLookalikeIsCut(doc);
      assert |TrimSpace(doc[3..])| < |doc|;
      var rs := ParsePiece(doc[3..]);
      assert rs != [] ==> rs[0].content != [doc][0];
    } else {
      LineBreakIsTrimmed(doc);
    }
  }

  ghost predicate AllDocuments(docs: seq<string>) {
    forall i :: 0 <= i < |docs| ==> IsDocument(docs[i])
  }

  ghost predicate NoneLooksLikeSeparator(docs: seq<string>) {
    forall i :: 0 <= i < |docs| ==> !("---" <= docs[i])
  }

  /** Two runs of resources hold a head and a tail of texts only if each run holds its own. */
  lemma ContentsSplit(a: seq<Resource>, b: seq<Resource>, head: string, tail: seq<string>)
    requires |a| <= 1 && |b| <= |tail|
    ensures ContentsAre(a + b, [head] + tail) <==> ContentsAre(a, [head]) && ContentsAre(b, tail)
  {
    var ds := [head] + tail;
    if ContentsAre(a + b, ds) {
      forall i | 0 <= i < |tail| ensures b[i].content == tail[i] {
        assert (a + b)[i + 1].content == ds[i + 1];
      }
      assert (a + b)[0].content == ds[0];
    }
  }

  lemma NoneLooksSplit(doc: string, rest: seq<string>)
    ensures NoneLooksLikeSeparator([doc] + rest) <==> !("---" <= doc) && NoneLooksLikeSeparator(rest)
  {
    var docs := [doc] + rest;
    assert docs[0] == doc;
    assert forall i :: 0 <= i < |rest| ==> docs[i + 1] == rest[i];
  }

  lemma {:induction false} EachParsesBack(docs: seq<string>)
    requires AllDocuments(docs)
    ensures |ParseEach(docs)| <= |docs|
    ensures ContentsAre(ParseEach(docs), docs) <==> NoneLooksLikeSeparator(docs)
  {
    hide Parse, IsDocument;
    if docs != [] {
      var doc, rest := docs[0], docs[1..];
      ParseOnNewLine(doc);
      EachParsesBack(rest);
      assert docs == [doc] + rest;
      ContentsSplit(Parse("\n" + doc), ParseEach(rest), doc, rest);
      NoneLooksSplit(doc, rest);
    }
  }

  lemma KeptContentsAreDocuments(s: string, docs: seq<string>)
    requires ContentsAre(Parse(s), docs)
    ensures AllDocuments(docs)
  {
    forall i | 0 <= i < |docs| ensures IsDocument(docs[i]) {
      ParseProjection(s, Parse(s)[i]);
    }
  }

  lemma {:induction false} DocumentsRoundTrip(docs: seq<string>)
    requires AllDocuments(docs) && docs != []
    ensures ContentsAre(Parse(Join(docs, GLUE)), docs) <==> NoneLooksLikeSeparator(docs[1..])
  {
    hide Parse, ParsePiece, ParseEach, Join, Meta, NoneLooksLikeSeparator;
    var doc, rest := docs[0], docs[1..];
    ParseJoined(docs);
    DocumentParses(doc);
    EachParsesBack(rest);
    assert docs == [doc] + rest;
    ContentsSplit(Parse(doc), ParseEach(rest), doc, rest);
    assert ContentsAre(Parse(doc), [doc]);
  }

  /** Texts joined by a separator line parse back to exactly themselves, in order, if and only if each
      is a document and none after the first begins with "---". */
  lemma {:induction false} RoundTrip(docs: seq<string>)
    ensures ContentsAre(Parse(Join(docs, GLUE)), docs) <==>
            AllDocuments(docs) && (docs == [] || NoneLooksLikeSeparator(docs[1..]))
  {
    if docs == [] {
      assert !Contains("", SEPARATOR);
      ParseSingle("");
    } else {
      if ContentsAre(Parse(Join(docs, GLUE)), docs) {
        KeptContentsAreDocuments(Join(docs, GLUE), docs);
      }
      if AllDocuments(docs) {
        DocumentsRoundTrip(docs);
      }
    }
  }
}
