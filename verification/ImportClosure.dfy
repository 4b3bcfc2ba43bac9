/** apps/plan/ptp_bundle.cpp: relative paths that stay within their directory, and
    `copyModelDependencies`, which copies a model and everything it imports. */
module RelativePaths {
  // A path's names; a separator or dot on its own is a name of "" or ".".
  datatype Path = Path(rooted: bool, names: seq<string>)

  // The names split at the separators.
  function Split(s: string): (names: seq<string>)
    ensures names != []
  {
    if s == "" then [""]
    else if s[0] == '/' then [""] + Split(s[1..])
    else
      var rest := Split(s[1..]);
      [[s[0]] + rest[0]] + rest[1..]
  }

  // Names put together with a separator between each two.
  ghost function Joined(names: seq<string>): string
    requires names != []
  {
    if |names| == 1 then names[0] else names[0] + "/" + Joined(names[1..])
  }

  /** The names hold no separator and put together again are the string. */
  lemma {:induction false} SplitJoins(s: string)
    ensures Joined(Split(s)) == s && forall k | 0 <= k < |Split(s)| :: '/' !in Split(s)[k]
  {
    if s != "" {
      SplitJoins(s[1..]);
      var rest := Split(s[1..]);
      if s[0] == '/' { JoinedAfter("", rest); } else { JoinedOn(s[0], rest); }
    }
  }

  lemma JoinedAfter(name: string, rest: seq<string>)
    requires rest != []
    ensures Joined([name] + rest) == name + "/" + Joined(rest)
  {
    assert ([name] + rest)[1..] == rest;
  }

  lemma JoinedOn(c: char, rest: seq<string>)
    requires rest != []
    ensures Joined([[c] + rest[0]] + rest[1..]) == [c] + Joined(rest)
  {
    var names := [[c] + rest[0]] + rest[1..];
    assert names[1..] == rest[1..];
    if |rest| > 1 { assert [c] + (rest[0] + "/" + Joined(rest[1..])) == ([c] + rest[0]) + "/" + Joined(rest[1..]); }
  }

  function PathOf(s: string): Path {
    if s == "" then Path(false, []) else Path(s[0] == '/', Split(s))
  }

  predicate Idle(name: string) {
    name == "" || name == "."
  }

  // One more name, after those kept so far.
  function Push(rooted: bool, kept: seq<string>, name: string): seq<string> {
    if Idle(name) then kept
    else if name == ".." && kept != [] && kept[|kept| - 1] != ".." then kept[..|kept| - 1]
    else if name == ".." && rooted then kept
    else kept + [name]
  }

  function Kept(rooted: bool, names: seq<string>): seq<string> {
    if names == [] then [] else Push(rooted, Kept(rooted, names[..|names| - 1]), names[|names| - 1])
  }

  // Dots, empty names and name-parent pairs taken away; nothing left is the directory itself.
  function Normal(p: Path): Path {
    var kept := Kept(p.rooted, p.names);
    if p.names == [] then p else if kept == [] then Path(p.rooted, ["."]) else Path(p.rooted, kept)
  }

  predicate SafeRelative(p: Path) {
    p.names != [] && !p.rooted && ".." !in Normal(p).names
  }

  // How deep below its directory a relative path has come after its first k names.
  ghost function Depth(names: seq<string>, k: nat): int
    requires k <= |names|
  {
    if k == 0 then 0
    else Depth(names, k - 1) + if Idle(names[k - 1]) then 0 else if names[k - 1] == ".." then -1 else 1
  }

  ghost predicate StaysWithin(names: seq<string>) {
    forall k | 0 <= k <= |names| :: Depth(names, k) >= 0
  }

  lemma DepthPrefix(names: seq<string>, n: nat, k: nat)
    requires k <= n <= |names|
    ensures Depth(names[..n], k) == Depth(names, k)
  {
    if k > 0 { DepthPrefix(names, n, k - 1); }
  }

  lemma WithinMore(names: seq<string>)
    requires names != []
    ensures StaysWithin(names) <==> StaysWithin(names[..|names| - 1]) && Depth(names, |names|) >= 0
  {
    var n := |names| - 1;
    if StaysWithin(names) {
      forall k | 0 <= k <= |names[..n]| ensures Depth(names[..n], k) >= 0 {
        DepthPrefix(names, n, k);
        assert Depth(names, k) >= 0;
      }
    }
    if StaysWithin(names[..n]) && Depth(names, |names|) >= 0 {
      forall k | 0 <= k <= |names| ensures Depth(names, k) >= 0 {
        if k <= n {
          DepthPrefix(names, n, k);
          assert Depth(names[..n], k) >= 0;
        }
      }
    }
  }

  // While a path stays within, the names kept are its depth; once out, a parent stays in front.
  lemma {:induction false} KeptDepth(names: seq<string>)
    ensures StaysWithin(names) ==> |Kept(false, names)| == Depth(names, |names|) && ".." !in Kept(false, names)
    ensures !StaysWithin(names) ==> Kept(false, names) != [] && Kept(false, names)[0] == ".."
  {
    if names == [] {
      assert Depth(names, 0) == 0;
    } else {
      var n := |names| - 1;
      KeptDepth(names[..n]);
      WithinMore(names);
      DepthPrefix(names, n, n);
      hide StaysWithin;
      var init := Kept(false, names[..n]);
      if StaysWithin(names[..n]) {
        assert init != [] ==> init[|init| - 1] in init;
      }
    }
  }

  /** A path is safe exactly when it is relative, has names, and never climbs out on its way. */
  lemma SafeIffStaysWithin(p: Path)
    ensures SafeRelative(p) <==> p.names != [] && !p.rooted && StaysWithin(p.names)
  {
    if !p.rooted { KeptDepth(p.names); }
  }

  lemma {:induction false} KeptIsKept(names: seq<string>)
    requires forall k | 0 <= k < |names| :: !Idle(names[k]) && names[k] != ".."
    ensures Kept(false, names) == names
  {
    if names != [] { KeptIsKept(names[..|names| - 1]); }
  }

  lemma {:induction false} KeptClean(rooted: bool, names: seq<string>)
    ensures forall k | 0 <= k < |Kept(rooted, names)| :: !Idle(Kept(rooted, names)[k])
  {
    if names != [] { KeptClean(rooted, names[..|names| - 1]); }
  }

  /** Normalizing a safe path again changes nothing: each file has one normal name. */
  lemma NormalStable(p: Path)
    requires SafeRelative(p)
    ensures Normal(Normal(p)) == Normal(p) && SafeRelative(Normal(p))
  {
    var kept := Kept(false, p.names);
    KeptClean(false, p.names);
    if kept != [] {
      KeptIsKept(kept);
    } else {
      assert ["."][..0] == [];
      assert Kept(false, ["."]) == [];
    }
  }
}

module ImportClosure {
  import opened RelativePaths

  const KEYWORD := "import:"

  predicate Blank(c: char) {
    c == ' ' || c == '\t'
  }

  function SkipBlank(s: string): (r: string)
    ensures |r| <= |s|
  {
    if s != "" && Blank(s[0]) then SkipBlank(s[1..]) else s
  }

  // C++'s whitespace, which a stream skips before a field and stops at after it.
  predicate White(c: char) {
    Blank(c) || c == '\n' || c == '\r' || c == 11 as char || c == 12 as char
  }

  function SkipWhite(s: string): string {
    if s != "" && White(s[0]) then SkipWhite(s[1..]) else s
  }

  function Word(s: string): string {
    if s == "" || White(s[0]) then "" else [s[0]] + Word(s[1..])
  }

  // The inside of a quoted field: a backslash takes the next character as it is.
  function Inside(s: string): string {
    if s == "" || s[0] == '"' then ""
    else if s[0] == '\\' then if |s| == 1 then "" else [s[1]] + Inside(s[2..])
    else [s[0]] + Inside(s[1..])
  }

  function Field(s: string): string {
    var t := SkipWhite(s);
    if t != "" && t[0] == '"' then Inside(t[1..]) else Word(t)
  }

  predicate IsImport(line: string) {
    KEYWORD <= SkipBlank(line)
  }

  function Imported(line: string): string
    requires IsImport(line)
  {
    Field(SkipBlank(line)[|KEYWORD|..])
  }

  // ----- Which lines import which names -----

  ghost predicate AllBlank(s: string) {
    forall c | c in s :: c == ' ' || c == '\t'
  }

  // A space, or a tab, newline, vertical tab, form feed or carriage return.
  ghost predicate Space(c: char) {
    c == ' ' || 9 <= c as int <= 13
  }

  lemma WhiteIsSpace()
    ensures forall c :: White(c) <==> Space(c)
  {
  }

  ghost predicate AllWhite(s: string) {
    forall c | c in s :: Space(c)
  }

  // Characters as they are, and any character after a backslash.
  ghost predicate Spells(body: string, name: string) {
    if body == "" then name == ""
    else if body[0] == '\\' then |body| > 1 && name != "" && name[0] == body[1] && Spells(body[2..], name[1..])
    else body[0] != '"' && name != "" && name[0] == body[0] && Spells(body[1..], name[1..])
  }

  // A quoted field ends at a quote; at the line's end it may lack one, and a backslash there is lost.
  ghost predicate Quotes(t: string, name: string) {
    exists body, rest :: t == body + rest && Spells(body, name) && (rest == "" || rest[0] == '"' || rest == "\\")
  }

  // A bare field ends at whitespace.
  ghost predicate Bares(t: string, name: string) {
    name <= t && (forall c | c in name :: !Space(c)) && (name < t ==> Space(t[|name|]))
  }

  // Blanks, the keyword, whitespace and a field that names the import.
  ghost predicate Splits(line: string, pre: string, mid: string, t: string) {
    line == pre + "import:" + mid + t && AllBlank(pre) && AllWhite(mid) && (t == "" || !Space(t[0]))
  }

  ghost predicate Names(t: string, name: string) {
    if t != "" && t[0] == '"' then Quotes(t[1..], name) else Bares(t, name)
  }

  ghost predicate LineImports(line: string, name: string) {
    exists pre, mid, t :: Splits(line, pre, mid, t) && Names(t, name)
  }

  lemma {:induction false} SkipBlankSplits(s: string) returns (pre: string)
    ensures s == pre + SkipBlank(s) && AllBlank(pre)
  {
    pre := "";
    if s != "" && Blank(s[0]) {
      var more := SkipBlankSplits(s[1..]);
      pre := [s[0]] + more;
    }
  }

  lemma {:induction false} SkipBlankOver(pre: string, t: string)
    requires AllBlank(pre) && (t == "" || !Blank(t[0]))
    ensures SkipBlank(pre + t) == t
  {
    if pre == "" {
      assert pre + t == t;
    } else {
      assert pre[0] in pre && (pre + t)[1..] == pre[1..] + t;
      assert forall c | c in pre[1..] :: c in pre;
      SkipBlankOver(pre[1..], t);
    }
  }

  lemma {:induction false} SkipWhiteSplits(s: string) returns (mid: string)
    ensures s == mid + SkipWhite(s) && AllWhite(mid) && (SkipWhite(s) == "" || !White(SkipWhite(s)[0]))
  {
    WhiteIsSpace();
    mid := "";
    if s != "" && White(s[0]) {
      var more := SkipWhiteSplits(s[1..]);
      mid := [s[0]] + more;
    }
  }

  lemma {:induction false} SkipWhiteOver(mid: string, t: string)
    requires AllWhite(mid) && (t == "" || !White(t[0]))
    ensures SkipWhite(mid + t) == t
  {
    WhiteIsSpace();
    if mid == "" {
      assert mid + t == t;
    } else {
      assert mid[0] in mid && (mid + t)[1..] == mid[1..] + t;
      assert forall c | c in mid[1..] :: c in mid;
      SkipWhiteOver(mid[1..], t);
    }
  }

  lemma {:induction false} WordIff(t: string, name: string)
    ensures Word(t) == name <==> Bares(t, name)
  {
    WhiteIsSpace();
    if t != "" && !White(t[0]) {
      if name != "" {
        WordIff(t[1..], name[1..]);
        if Bares(t, name) { BaresLess(t, name); }
        if name[0] == t[0] && Bares(t[1..], name[1..]) { BaresMore(t, name); }
      }
    }
  }

  lemma BaresLess(t: string, name: string)
    requires Bares(t, name) && name != ""
    ensures t[0] == name[0] && Bares(t[1..], name[1..])
  {
    WhiteIsSpace();
    assert name[1..] <= t[1..];
    assert forall c | c in name[1..] :: c in name;
  }

  lemma BaresMore(t: string, name: string)
    requires t != "" && name != "" && t[0] == name[0] && !White(t[0]) && Bares(t[1..], name[1..])
    ensures Bares(t, name)
  {
    WhiteIsSpace();
    assert name == [name[0]] + name[1..] && t == [t[0]] + t[1..];
    assert forall c | c in name :: c == name[0] || c in name[1..];
  }

  lemma {:induction false} InsideSplits(s: string) returns (body: string, rest: string)
    ensures s == body + rest && Spells(body, Inside(s)) && (rest == "" || rest[0] == '"' || rest == "\\")
  {
    if s == "" || s[0] == '"' || s == "\\" {
      body, rest := "", s;
    } else if s[0] == '\\' {
      var more, left := InsideSplits(s[2..]);
      body, rest := s[..2] + more, left;
      assert body[2..] == more;
    } else {
      var more, left := InsideSplits(s[1..]);
      body, rest := s[..1] + more, left;
      assert body[1..] == more;
    }
  }

  lemma {:induction false} InsideOver(body: string, rest: string, name: string)
    requires Spells(body, name) && (rest == "" || rest[0] == '"' || rest == "\\")
    ensures Inside(body + rest) == name
  {
    if body == "" {
      assert body + rest == rest;
    } else if body[0] == '\\' {
      assert (body + rest)[2..] == body[2..] + rest;
      InsideOver(body[2..], rest, name[1..]);
    } else {
      assert (body + rest)[1..] == body[1..] + rest;
      InsideOver(body[1..], rest, name[1..]);
    }
  }

  lemma InsideIff(t: string, name: string)
    ensures Inside(t) == name <==> Quotes(t, name)
  {
    var body, rest := InsideSplits(t);
    if Quotes(t, name) {
      var b, r :| t == b + r && Spells(b, name) && (r == "" || r[0] == '"' || r == "\\");
      InsideOver(b, r, name);
    }
  }

  /** A line imports a name exactly when it is blanks, the keyword, whitespace, and then the name
      bare, or in quotes with backslashes. */
  lemma ImportedIff(line: string, name: string)
    ensures LineImports(line, name) <==> IsImport(line) && Imported(line) == name
  {
    hide Splits, Names, Field;
    if IsImport(line) && Imported(line) == name { ImportSplits(line, name); }
    if LineImports(line, name) {
      var pre, mid, t :| Splits(line, pre, mid, t) && Names(t, name);
      SplitImports(line, pre, mid, t, name);
    }
  }

  lemma FieldNames(s: string, name: string)
    ensures Field(s) == name <==> Names(SkipWhite(s), name)
  {
    hide Inside, Word, Quotes, Bares;
    var t := SkipWhite(s);
    if t != "" && t[0] == '"' { InsideIff(t[1..], name); } else { WordIff(t, name); }
  }

  lemma ImportSplits(line: string, name: string)
    requires IsImport(line) && Imported(line) == name
    ensures LineImports(line, name)
  {
    hide Names, Field, SkipWhite, SkipBlank;
    var pre := SkipBlankSplits(line);
    var s := SkipBlank(line)[|KEYWORD|..];
    var mid := SkipWhiteSplits(s);
    FieldNames(s, name);
    assert SkipBlank(line) == "import:" + s;
    assert line == pre + "import:" + mid + SkipWhite(s);
    assert Splits(line, pre, mid, SkipWhite(s));
  }

  lemma SplitImports(line: string, pre: string, mid: string, t: string, name: string)
    requires Splits(line, pre, mid, t) && Names(t, name)
    ensures IsImport(line) && Imported(line) == name
  {
    hide Names, Field, SkipWhite, SkipBlank;
    var rest := "import:" + (mid + t);
    assert line == pre + rest && rest[0] == 'i';
    SkipBlankOver(pre, rest);
    SkipWhiteOver(mid, t);
    assert rest[|KEYWORD|..] == mid + t;
    FieldNames(mid + t, name);
  }

  // A name in quotes, its own quotes and backslashes each after a backslash.
  ghost function Escaped(name: string): string {
    if name == "" then ""
    else (if name[0] == '"' || name[0] == '\\' then ['\\', name[0]] else [name[0]]) + Escaped(name[1..])
  }

  lemma {:induction false} EscapedSpells(name: string)
    ensures Spells(Escaped(name), name)
  {
    if name != "" {
      EscapedSpells(name[1..]);
      var body := Escaped(name);
      assert body[if body[0] == '\\' then 2 else 1..] == Escaped(name[1..]);
    }
  }

  /** Any name at all can be imported: quoted, it is read back as it was, whatever follows. */
  lemma {:induction false} QuotedIsReadBack(pre: string, mid: string, name: string, rest: string)
    requires AllBlank(pre) && AllWhite(mid)
    ensures var line := pre + "import:" + mid + "\"" + Escaped(name) + "\"" + rest;
            IsImport(line) && Imported(line) == name
  {
    var line, t := pre + "import:" + mid + "\"" + Escaped(name) + "\"" + rest, "\"" + Escaped(name) + "\"" + rest;
    hide IsImport, Imported, Spells, Escaped;
    EscapedSpells(name);
    assert t[1..] == Escaped(name) + ("\"" + rest);
    assert Quotes(t[1..], name);
    assert Splits(line, pre, mid, t);
    ImportedIff(line, name);
  }

  datatype Failure = NoFilename | Escapes(Path) | NotRegular(Path) | CopyFailed(Path) | EmptyImport(Path) | NotPortable(Path, Path)

  datatype Outcome = Copied(files: set<Path>) | Failed(why: Failure)

  // The model's directory: the regular files in it with their lines, and those that cannot be
  // copied or read.
  datatype Source = Source(files: map<Path, seq<string>>, broken: set<Path>)

  predicate HasSuffix(name: string, suffix: string) {
    |name| >= |suffix| && name[|name| - |suffix|..] == suffix
  }

  // A name's extension is .ztk when something stands before it.
  predicate IsChain(p: Path) {
    p.names != [] && |p.names[|p.names| - 1]| > 4 && HasSuffix(p.names[|p.names| - 1], ".ztk")
  }

  function LinesOf(s: Source, p: Path): seq<string> {
    if p in s.files && IsChain(p) then s.files[p] else []
  }

  // A line of a copied file asks for this path.
  predicate Asks(line: string, q: Path) {
    IsImport(line) && q == Normal(PathOf(Imported(line)))
  }

  // The last name is something and then .ztk.
  ghost predicate NamedChain(p: Path) {
    p.names != [] && exists stem :: stem != "" && p.names[|p.names| - 1] == stem + ".ztk"
  }

  // A line imports this path under some name.
  ghost predicate AsksFor(line: string, q: Path) {
    exists name :: LineImports(line, name) && q == Normal(PathOf(name))
  }

  // A model file with a line that imports the other.
  ghost predicate Imports(s: Source, p: Path, q: Path) {
    p in s.files && NamedChain(p) && exists k :: 0 <= k < |s.files[p]| && AsksFor(s.files[p][k], q)
  }

  predicate LineFine(line: string) {
    IsImport(line) ==> Imported(line) != "" && SafeRelative(Normal(PathOf(Imported(line))))
  }

  // Every name a line imports is some name, and safe.
  ghost predicate AsksSafely(line: string) {
    forall name | LineImports(line, name) :: name != "" && SafeRelative(Normal(PathOf(name)))
  }

  // A file that can be copied and whose imports, if it is a model file, are all safe.
  ghost predicate Fine(s: Source, p: Path) {
    && SafeRelative(p) && p in s.files && p !in s.broken
    && (NamedChain(p) ==> forall k | 0 <= k < |s.files[p]| :: AsksSafely(s.files[p][k]))
  }

  lemma ChainNamed(p: Path)
    ensures IsChain(p) <==> NamedChain(p)
  {
    if IsChain(p) {
      var name := p.names[|p.names| - 1];
      assert name == name[..|name| - 4] + ".ztk";
    }
  }

  lemma LineMeans(line: string)
    ensures (forall q :: Asks(line, q) <==> AsksFor(line, q)) && (LineFine(line) <==> AsksSafely(line))
  {
    hide LineImports, Imported, IsImport, Normal, PathOf, SafeRelative;
    forall name ensures LineImports(line, name) <==> IsImport(line) && Imported(line) == name { ImportedIff(line, name); }
    if IsImport(line) { assert LineImports(line, Imported(line)); }
  }

  lemma LinesMean(s: Source, p: Path)
    requires p in s.files
    ensures forall q :: Imports(s, p, q) <==> exists k :: 0 <= k < |LinesOf(s, p)| && Asks(LinesOf(s, p)[k], q)
    ensures Fine(s, p) <==> SafeRelative(p) && p !in s.broken && forall k | 0 <= k < |LinesOf(s, p)| :: LineFine(LinesOf(s, p)[k])
  {
    hide Asks, AsksFor, LineFine, AsksSafely, SafeRelative, IsChain, NamedChain;
    ChainNamed(p);
    forall k | 0 <= k < |s.files[p]|
      ensures (forall q :: Asks(s.files[p][k], q) <==> AsksFor(s.files[p][k], q)) && (LineFine(s.files[p][k]) <==> AsksSafely(s.files[p][k]))
    {
      LineMeans(s.files[p][k]);
    }
    if IsChain(p) { assert LinesOf(s, p) == s.files[p]; } else { assert LinesOf(s, p) == []; }
  }

  // A chain of imports from the model.
  ghost predicate Chain(s: Source, model: Path, c: seq<Path>) {
    c != [] && c[0] == model && forall k | 0 <= k < |c| - 1 :: Imports(s, c[k], c[k + 1])
  }

  ghost predicate Needed(s: Source, model: Path, p: Path) {
    exists c :: Chain(s, model, c) && c[|c| - 1] == p
  }

  lemma NeedsMore(s: Source, model: Path, p: Path, q: Path)
    requires Needed(s, model, p) && Imports(s, p, q)
    ensures Needed(s, model, q)
  {
    var c :| Chain(s, model, c) && c[|c| - 1] == p;
    var d := c + [q];
    forall k | 0 <= k < |d| - 1 ensures Imports(s, d[k], d[k + 1]) {
      if k < |c| - 1 { assert d[k] == c[k] && d[k + 1] == c[k + 1]; }
    }
    assert Chain(s, model, d);
  }

  lemma ModelNeeded(s: Source, model: Path)
    ensures Needed(s, model, model)
  {
    assert Chain(s, model, [model]);
  }

  ghost predicate ClosedUnder(s: Source, model: Path, t: set<Path>) {
    model in t && forall p, q | p in t && Imports(s, p, q) :: q in t
  }

  /** What is needed is exactly what every closed set holds. */
  lemma NeededInClosed(s: Source, model: Path, t: set<Path>, c: seq<Path>)
    requires ClosedUnder(s, model, t) && Chain(s, model, c)
    ensures c[|c| - 1] in t
  {
    if |c| > 1 {
      var init := c[..|c| - 1];
      forall k | 0 <= k < |init| - 1 ensures Imports(s, init[k], init[k + 1]) { assert Imports(s, c[k], c[k + 1]); }
      NeededInClosed(s, model, t, init);
      assert Imports(s, c[|c| - 2], c[|c| - 2 + 1]);
    }
  }

  // A failure over an import of this file: some line of it imports the empty name, or that path.
  ghost predicate BadImport(s: Source, p: Path, why: Failure)
    requires p in s.files
  {
    match why
    case EmptyImport(at) => at == p && exists k :: 0 <= k < |s.files[p]| && LineImports(s.files[p][k], "")
    case NotPortable(at, q) => at == p && Imports(s, p, q) && !SafeRelative(q)
    case _ => false
  }

  // A failure over a file that is needed, for a reason that is so.
  ghost predicate Justified(s: Source, model: Path, why: Failure) {
    match why
    case NoFilename => model.names == []
    case Escapes(p) => Needed(s, model, p) && !SafeRelative(p)
    case NotRegular(p) => Needed(s, model, p) && p !in s.files
    case CopyFailed(p) => Needed(s, model, p) && p in s.broken
    case EmptyImport(p) => Needed(s, model, p) && p in s.files && BadImport(s, p, why)
    case NotPortable(p, _) => Needed(s, model, p) && p in s.files && BadImport(s, p, why)
  }

  lemma BadLine(s: Source, p: Path, k: nat)
    requires p in s.files && k < |LinesOf(s, p)| && IsImport(LinesOf(s, p)[k])
    ensures var name := Imported(LinesOf(s, p)[k]);
            && (name == "" ==> BadImport(s, p, EmptyImport(p)))
            && (!SafeRelative(Normal(PathOf(name))) ==> BadImport(s, p, NotPortable(p, Normal(PathOf(name)))))
  {
    hide LineImports, Normal, PathOf, SafeRelative, Imports, Imported, IsImport;
    var line, name := LinesOf(s, p)[k], Imported(LinesOf(s, p)[k]);
    ImportedIff(line, name);
    LinesMean(s, p);
    assert Asks(line, Normal(PathOf(name)));
  }

  // Adds a file's imports to those pending, or stops at the first bad one.
  method Scan(s: Source, p: Path, pending: set<Path>) returns (more: set<Path>, why: Outcome)
    requires p in s.files
    requires SafeRelative(p) && p !in s.broken
    ensures why.Copied? ==> Fine(s, p) && forall q :: q in more <==> q in pending || Imports(s, p, q)
    ensures why.Failed? ==> !Fine(s, p) && BadImport(s, p, why.why)
  {
    hide Fine, Imports, SafeRelative, IsImport, Imported, Normal, PathOf;
    LinesMean(s, p);
    more := pending;
    var lines, k := LinesOf(s, p), 0;
    while k < |lines|
      invariant 0 <= k <= |lines|
      invariant forall i | 0 <= i < k :: LineFine(lines[i])
      invariant forall q :: q in more <==> q in pending || exists i :: 0 <= i < k && Asks(lines[i], q)
    {
      ghost var before := more;
      if IsImport(lines[k]) {
        var imported := Imported(lines[k]);
        BadLine(s, p, k);
        if imported == "" { return more, Failed(EmptyImport(p)); }
        var dependency := Normal(PathOf(imported));
        if !SafeRelative(dependency) { return more, Failed(NotPortable(p, dependency)); }
        more := more + {dependency};
      }
      assert forall q :: q in more <==> q in before || Asks(lines[k], q);
      k := k + 1;
    }
    why := Copied({});
  }

  // The worklist: everything handled or waiting is needed, and imports of the handled are known.
  ghost predicate Working(s: Source, model: Path, pending: set<Path>, copied: set<Path>, log: seq<Path>) {
    && (forall p | p in pending || p in copied :: Needed(s, model, p))
    && (model in pending || model in copied)
    && (forall p | p in copied :: Fine(s, p))
    && (forall p, q | p in copied && Imports(s, p, q) :: q in pending || q in copied)
    && (forall p :: p in copied <==> p in log)
    && (forall i, j | 0 <= i < j < |log| :: log[i] != log[j])
    && copied <= s.files.Keys
  }

  ghost predicate AllFine(s: Source, model: Path) {
    forall p | Needed(s, model, p) :: Fine(s, p)
  }

  lemma {:induction false} StepKeeps(s: Source, model: Path, waiting: set<Path>, copied: set<Path>, log: seq<Path>, p: Path, more: set<Path>)
    requires Working(s, model, waiting, copied, log) && p in waiting && p !in copied && Fine(s, p)
    requires forall q :: q in more <==> q in waiting - {p} || Imports(s, p, q)
    ensures Working(s, model, more, copied + {p}, log + [p])
  {
    hide Imports, Needed, Fine;
    assert p in s.files by { FineKnown(s, p); }
    forall q | q in more || q in copied + {p} ensures Needed(s, model, q) {
      if q !in waiting && q !in copied { NeedsMore(s, model, p, q); }
    }
    assert forall i | 0 <= i < |log| :: log[i] in copied;
  }

  lemma FineKnown(s: Source, p: Path)
    requires Fine(s, p)
    ensures p in s.files && SafeRelative(p)
  {
  }

  // With nothing waiting, what was copied is closed, and every closed set holds it.
  lemma {:induction false} Least(s: Source, model: Path, copied: set<Path>, log: seq<Path>)
    requires Working(s, model, {}, copied, log)
    ensures ClosedUnder(s, model, copied) && AllFine(s, model)
    ensures forall p :: p in copied <==> Needed(s, model, p)
    ensures forall t | ClosedUnder(s, model, t) :: copied <= t
    ensures forall p | p in copied :: SafeRelative(p)
  {
    hide Imports, Fine;
    assert ClosedUnder(s, model, copied);
    forall p | Needed(s, model, p) ensures p in copied {
      var c :| Chain(s, model, c) && c[|c| - 1] == p;
      NeededInClosed(s, model, copied, c);
    }
    forall t | ClosedUnder(s, model, t) ensures copied <= t {
      forall p | p in copied ensures p in t {
        var c :| Chain(s, model, c) && c[|c| - 1] == p;
        NeededInClosed(s, model, t, c);
      }
    }
    forall p | p in copied ensures SafeRelative(p) { FineKnown(s, p); }
  }

  lemma NotAllFine(s: Source, model: Path, p: Path)
    requires Needed(s, model, p) && !Fine(s, p)
    ensures !AllFine(s, model)
  {
  }

  lemma WorkBegins(s: Source, model: Path)
    ensures Working(s, model, {model}, {}, [])
  {
    ModelNeeded(s, model);
  }

  lemma FewerLeft(all: set<Path>, copied: set<Path>, p: Path)
    requires p in all && p !in copied
    ensures |all - (copied + {p})| < |all - copied|
  {
    assert all - copied == all - (copied + {p}) + {p};
  }

  lemma AlreadyCopied(s: Source, model: Path, waiting: set<Path>, copied: set<Path>, log: seq<Path>, p: Path)
    requires Working(s, model, waiting, copied, log) && p in copied
    ensures Working(s, model, waiting - {p}, copied, log)
  {
    hide Needed, Fine, Imports;
  }

  lemma WorkKnown(s: Source, model: Path, waiting: set<Path>, copied: set<Path>, log: seq<Path>)
    requires Working(s, model, waiting, copied, log)
    ensures forall p | p in waiting :: Needed(s, model, p)
    ensures (forall p :: p in copied <==> p in log) && forall i, j | 0 <= i < j < |log| :: log[i] != log[j]
  {
    hide Needed, Fine, Imports;
  }

  lemma NothingNamed(s: Source, model: Path)
    requires model.names == []
    ensures Justified(s, model, NoFilename)
  {
  }

  // A needed file that is not fine stops the copy, for one of these reasons.
  lemma Stops(s: Source, model: Path, p: Path)
    requires Needed(s, model, p)
    ensures !SafeRelative(p) ==> !AllFine(s, model) && Justified(s, model, Escapes(p))
    ensures p !in s.files ==> !AllFine(s, model) && Justified(s, model, NotRegular(p))
    ensures p in s.broken ==> !AllFine(s, model) && Justified(s, model, CopyFailed(p))
    ensures p in s.files && !Fine(s, p) ==> !AllFine(s, model)
    ensures p in s.files ==> forall why | BadImport(s, p, why) :: Justified(s, model, why)
  {
    hide Needed, SafeRelative, NamedChain, AsksSafely;
    if !Fine(s, p) { NotAllFine(s, model, p); }
    hide BadImport, Fine, AllFine;
    if p in s.files {
      forall why | BadImport(s, p, why) ensures Justified(s, model, why) { BadImportJustifies(s, model, p, why); }
    }
  }

  lemma BadImportJustifies(s: Source, model: Path, p: Path, why: Failure)
    requires Needed(s, model, p) && p in s.files && BadImport(s, p, why)
    ensures Justified(s, model, why)
  {
    hide Needed, SafeRelative, Imports, LineImports;
  }

  /** Succeeds exactly when every file the model needs is fine; then copies exactly those, each
      once: the least set that holds the model and is closed under import. Imports may be cyclic. */
  method CopyModelDependencies(s: Source, model: Path) returns (r: Outcome, log: seq<Path>)
    ensures model.names != [] ==> (r.Copied? <==> AllFine(s, model))
    ensures model.names == [] ==> r == Failed(NoFilename)
    ensures r.Failed? ==> Justified(s, model, r.why)
    ensures r.Copied? ==> ClosedUnder(s, model, r.files) && (forall t | ClosedUnder(s, model, t) :: r.files <= t)
    ensures r.Copied? ==> (forall p :: p in r.files <==> Needed(s, model, p)) && forall p | p in r.files :: SafeRelative(p)
    ensures r.Copied? ==> forall p :: p in r.files <==> p in log
    ensures forall i, j | 0 <= i < j < |log| :: log[i] != log[j]
  {
    hide Needed, Imports, ClosedUnder, Normal, BadImport, Working, Justified, Fine, AllFine, SafeRelative;
    log := [];
    if model.names == [] {
      assert Justified(s, model, NoFilename) by { NothingNamed(s, model); }
      return Failed(NoFilename), log;
    }
    var pending: set<Path>, copied: set<Path> := {model}, {};
    WorkBegins(s, model);
    while pending != {}
      invariant Working(s, model, pending, copied, log)
      decreases |s.files.Keys - copied|, |pending|
    {
      var relative :| relative in pending;
      ghost var waiting := pending;
      WorkKnown(s, model, waiting, copied, log);
      Stops(s, model, relative);
      pending := pending - {relative};
      if !SafeRelative(relative) { return Failed(Escapes(relative)), log; }
      if relative in copied {
        AlreadyCopied(s, model, waiting, copied, log, relative);
        continue;
      }
      if relative !in s.files { return Failed(NotRegular(relative)), log; }
      if relative in s.broken { return Failed(CopyFailed(relative)), log; }
      var more, why := Scan(s, relative, pending);
      if why.Failed? { return why, log; }
      StepKeeps(s, model, waiting, copied, log, relative, more);
      FewerLeft(s.files.Keys, copied, relative);
      pending, copied, log := more, copied + {relative}, log + [relative];
    }
    WorkKnown(s, model, pending, copied, log);
    Least(s, model, copied, log);
    return Copied(copied), log;
  }
}
