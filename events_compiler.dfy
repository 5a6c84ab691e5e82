/**
 * The build step that gathers the event types of every store and prints
 * the module that re-exports them: each store directory holding an
 * `Events.ts` contributes the names of its exported types, and the printed
 * module imports them, unions them into one `Event` type and lists every
 * store's `events` object.
 *
 * An event map is the sequence of its entries in iteration order.
 */
module EventsCompiler {
  import opened Wrappers
  import opened Text

  /** One store's events: its name, the path its events are imported from, and the exported type names. */
  datatype EventCompilation = EventCompilation(name: string, path: string, events: seq<string>)

  type EventMap = seq<(string, EventCompilation)>

  predicate IsLetter(c: char)
  {
    'a' <= c <= 'z' || 'A' <= c <= 'Z'
  }

  const ExportType := "export type "

  /** The line matches `/export type [a-zA-Z]+/`: somewhere it holds "export type " followed by a letter. */
  predicate IsExportLine(line: string)
  {
    exists i :: 0 <= i < |line| && OccursAt(line, ExportType, i) && i + |ExportType| < |line| && IsLetter(line[i + |ExportType|])
  }

  /** Two separators in a string make at least three parts. */
  lemma TwoSeparatorsThreeParts(s: string, sep: char, i: nat, j: nat)
    requires i < j < |s| && s[i] == sep && s[j] == sep
    ensures |Split(s, sep)| >= 3
  {
    var m := IndexOf(s, sep);
    assert m <= i;
    var rest := s[m + 1..];
    assert rest[j - m - 1] == sep;
    assert IndexOf(rest, sep) <= j - m - 1;
    SplitUnfold(s, sep);
    SplitUnfold(rest, sep);
  }

  /** A matching line has two spaces, so its third space-separated word exists. */
  lemma ExportLineHasThirdWord(line: string)
    requires IsExportLine(line)
    ensures |Split(line, ' ')| >= 3
  {
    var i :| 0 <= i < |line| && OccursAt(line, ExportType, i) && i + |ExportType| < |line| && IsLetter(line[i + |ExportType|]);
    assert line[i + 6] == ExportType[6] == ' ';
    assert line[i + 11] == ExportType[11] == ' ';
    TwoSeparatorsThreeParts(line, ' ', i + 6, i + 11);
  }

  /** `line.split(" ")[2]`. */
  function ThirdWord(line: string): (word: string)
    requires IsExportLine(line)
    ensures ' ' !in word
  {
    ExportLineHasThirdWord(line);
    Split(line, ' ')[2]
  }

  /** The names `getExports` collects from the lines of a file: the third word of each matching line, in line order. */
  function ExportNames(lines: seq<string>): (names: seq<string>)
    ensures |names| <= |lines|
    ensures forall k :: 0 <= k < |names| ==> ' ' !in names[k]
  {
    if lines == [] then []
    else
      var last := lines[|lines| - 1];
      ExportNames(lines[..|lines| - 1]) + if IsExportLine(last) then [ThirdWord(last)] else []
  }

  /** `getExports` over the file's content: a scan of its lines. */
  method GetExports(content: string) returns (output: seq<string>)
    ensures output == ExportNames(Split(content, '\n'))
  {
    var lines := Split(content, '\n');
    output := [];
    var i := 0;
    while i < |lines|
      invariant 0 <= i <= |lines|
      invariant output == ExportNames(lines[..i])
    {
      assert lines[..i + 1][..i] == lines[..i];
      if IsExportLine(lines[i]) {
        output := output + [ThirdWord(lines[i])];
      }
      i := i + 1;
    }
    assert lines[..i] == lines;
  }

  /** The declaration `export type <name>`. */
  function Declaration(name: string): string
  {
    ExportType + name
  }

  function Declarations(names: seq<string>): (lines: seq<string>)
    ensures |lines| == |names|
    ensures forall k :: 0 <= k < |names| ==> lines[k] == Declaration(names[k])
  {
    seq(|names|, k requires 0 <= k < |names| => Declaration(names[k]))
  }

  /** A name that can follow "export type ": it starts with a letter and holds no space or line break. */
  predicate IsTypeName(name: string)
  {
    name != [] && IsLetter(name[0]) && ' ' !in name && '\n' !in name
  }

  lemma DeclarationYieldsName(name: string)
    requires IsTypeName(name)
    ensures IsExportLine(Declaration(name)) && ThirdWord(Declaration(name)) == name
  {
    var line := Declaration(name);
    assert OccursAt(line, ExportType, 0) by {
      assert line[..|ExportType|] == ExportType;
    }
    assert line[|ExportType|] == name[0];
    assert line == "export" + [' '] + ("type" + [' '] + name);
    SplitAtFirst("export", "type" + [' '] + name, ' ');
    SplitAtFirst("type", name, ' ');
    SplitWithoutSeparator(name, ' ');
  }

  /** A file made of one declaration per line yields exactly the declared names, in order. */
  lemma ExportsOfDeclarations(names: seq<string>)
    requires forall k :: 0 <= k < |names| ==> IsTypeName(names[k])
    ensures ExportNames(Declarations(names)) == names
  {
    var lines := Declarations(names);
    forall k | 0 <= k < |lines|
      ensures IsExportLine(lines[k]) && ThirdWord(lines[k]) == names[k]
    {
      DeclarationYieldsName(names[k]);
    }
    ExportsOfMatchingLines(lines, names);
  }

  /** Lines that all match give their third words, in order. */
  lemma {:induction false} ExportsOfMatchingLines(lines: seq<string>, names: seq<string>)
    requires |lines| == |names|
    requires forall k :: 0 <= k < |lines| ==> IsExportLine(lines[k]) && ThirdWord(lines[k]) == names[k]
    ensures ExportNames(lines) == names
  {
    if lines != [] {
      var n := |lines| - 1;
      ExportsOfMatchingLines(lines[..n], names[..n]);
      assert names == names[..n] + [names[n]];
    }
  }

  /** The content of such a file, lines joined by "\n", gives the same names. */
  lemma FileOfDeclarations(names: seq<string>)
    requires forall k :: 0 <= k < |names| ==> IsTypeName(names[k])
    ensures ExportNames(Split(Join(Declarations(names), "\n"), '\n')) == names
  {
    ExportsOfDeclarations(names);
    if names == [] {
      assert Split("", '\n') == [""];
      assert !IsExportLine("");
      assert [""][..0] == [];
    } else {
      var lines := Declarations(names);
      forall k | 0 <= k < |lines| ensures '\n' !in lines[k] {
        assert lines[k] == ExportType + names[k];
      }
      SplitJoin(lines, '\n');
    }
  }

  /*
   * Store name, key and import path of a directory holding `Events.ts`
   */

  /** `path.split("/").pop()?.toLowerCase()`: never undefined, since a split always yields a part. */
  function StoreName(path: string): (name: string)
  {
    var segments := Split(path, '/');
    ToLower(segments[|segments| - 1])
  }

  /** The store name of a directory is its own lower-cased name. */
  lemma StoreNameOfDirectory(parent: string, dir: string)
    requires '/' !in dir
    ensures StoreName(parent + "/" + dir) == ToLower(dir)
  {
    SplitConcat(parent, dir, '/');
    SplitWithoutSeparator(dir, '/');
  }

  /** `path.replace(root + "/", "")`: the map key. */
  function Key(path: string, root: string): string
  {
    ReplaceFirst(path, root + "/", "")
  }

  /** The key of a directory under the root is its path relative to the root. */
  lemma KeyOfDirectory(root: string, relative: string)
    ensures Key(root + "/" + relative, root) == relative
  {
    var path := root + "/" + relative;
    assert OccursAt(path, root + "/", 0) by {
      assert path[..|root| + 1] == root + "/";
    }
    assert path[|root| + 1..] == relative;
  }

  /** The path with its first `root` replaced by ".", then `/Events.ts`. */
  function EventsFile(path: string, root: string): string
  {
    ReplaceFirst(path + "/" + "Events.ts", root, ".")
  }

  /** The import path as written: the first ".ts" anywhere in the path is removed. */
  function ImportPathAsWritten(path: string, root: string): string
  {
    ReplaceFirst(EventsFile(path, root), ".ts", "")
  }

  lemma EventsFileUnderRoot(root: string, relative: string)
    ensures EventsFile(root + "/" + relative, root) == "./" + relative + "/Events.ts"
  {
    var s := root + "/" + relative + "/" + "Events.ts";
    assert s[..|root|] == root;
    FindFirstAt(s, root, 0);
    assert s[|root|..] == "/" + relative + "/Events.ts";
  }

  /** The first ".ts" in `./a.tsx/Events.ts` is the one inside the directory name. */
  lemma FirstExtensionInExample(dotted: string)
    requires dotted == "./a.tsx/Events.ts"
    ensures ReplaceFirst(dotted, ".ts", "") == "./ax/Events.ts"
  {
    assert dotted[3..6] == ".ts";
    assert dotted[0..3] == "./a" && dotted[1..4] == "/a." && dotted[2..5] == "a.t";
    FindFirstAt(dotted, ".ts", 3);
    assert dotted[..3] == "./a";
    assert dotted[6..] == "x/Events.ts";
  }

  /**
   * For the store directory `src/a.tsx` under the root `src`, the import
   * path as written loses the directory's own ".ts" and keeps the file's
   * extension.
   */
  lemma ImportPathAsWrittenBreaks(root: string, path: string)
    requires root == "src" && path == "src/a.tsx"
    ensures ImportPathAsWritten(path, root) == "./ax/Events.ts"
  {
    var dir := "a.tsx";
    assert path == root + "/" + dir;
    EventsFileUnderRoot(root, dir);
    FirstExtensionInExample("./" + dir + "/Events.ts");
  }

  /** For the same directory the intended import path is `./a.tsx/Events`. */
  lemma ImportPathOfExample(root: string, path: string)
    requires root == "src" && path == "src/a.tsx"
    ensures ImportPath(path, root) == "./a.tsx/Events"
  {
    var dir := "a.tsx";
    assert path == root + "/" + dir;
    ImportPathUnderRoot(root, dir);
  }

  /** The import path as intended: the module `path/Events`, with the first `root` replaced by ".". */
  function ImportPath(path: string, root: string): string
  {
    ReplaceFirst(path + "/Events", root, ".")
  }

  lemma ImportPathUnderRoot(root: string, relative: string)
    ensures ImportPath(root + "/" + relative, root) == "./" + relative + "/Events"
  {
    var s := root + "/" + relative + "/Events";
    assert s[..|root|] == root;
    FindFirstAt(s, root, 0);
    assert s[|root|..] == "/" + relative + "/Events";
  }

  /** A directory under the root is imported from "./" + its key + "/Events". */
  lemma ImportPathOfDirectory(root: string, relative: string)
    ensures ImportPath(root + "/" + relative, root) == "./" + Key(root + "/" + relative, root) + "/Events"
  {
    KeyOfDirectory(root, relative);
    ImportPathUnderRoot(root, relative);
  }

  /** ".ts" occurs at `j` exactly when the three characters there are '.', 't' and 's'. */
  lemma ExtensionAt(s: string, j: nat)
    ensures OccursAt(s, ".ts", j) <==> j + 3 <= |s| && s[j] == '.' && s[j + 1] == 't' && s[j + 2] == 's'
  {
    if j + 3 <= |s| {
      assert s[j..j + 3] == [s[j], s[j + 1], s[j + 2]];
    }
  }

  /** In `./relative/Events.ts`, no ".ts" starts before the file's own extension. */
  lemma NoExtensionBeforeFile(relative: string, j: nat)
    requires !Includes(relative, ".ts") && j < |relative| + 9
    ensures !OccursAt("./" + relative + "/Events.ts", ".ts", j)
  {
    var s := "./" + relative + "/Events.ts";
    ExtensionAt(s, j);
    if j < 2 {
      assert s[1] == '/';
    } else if j + 3 <= |relative| + 2 {
      ExtensionAt(relative, j - 2);
      assert s[j] == relative[j - 2] && s[j + 1] == relative[j - 1] && s[j + 2] == relative[j];
    } else if j < |relative| + 2 {
      assert s[|relative| + 2] == '/';
    } else {
      assert s[j] == "/Events.ts"[j - |relative| - 2];
    }
  }

  /**
   * When the directory's path relative to the root holds no ".ts", the
   * first ".ts" is the file's own extension, and the import path as written
   * is the intended one.
   */
  lemma ImportPathAgreesWithoutExtension(root: string, relative: string)
    requires !Includes(relative, ".ts")
    ensures ImportPathAsWritten(root + "/" + relative, root) == ImportPath(root + "/" + relative, root)
  {
    EventsFileUnderRoot(root, relative);
    ImportPathUnderRoot(root, relative);
    var s := "./" + relative + "/Events.ts";
    var i := |relative| + 9;
    forall j | 0 <= j < i ensures !OccursAt(s, ".ts", j) {
      NoExtensionBeforeFile(relative, j);
    }
    assert s[i..i + 3] == ".ts";
    FindFirstAt(s, ".ts", i);
    assert s[..i] == "./" + relative + "/Events";
    assert s[i + 3..] == "";
  }

  /** The entry `getEvents` records for a store directory with an `Events.ts` file of the given content. */
  method CompileEntry(path: string, root: string, content: string) returns (key: string, entry: EventCompilation)
    ensures key == Key(path, root)
    ensures entry == EventCompilation(StoreName(path), ImportPath(path, root), ExportNames(Split(content, '\n')))
  {
    var events := GetExports(content);
    key := Key(path, root);
    entry := EventCompilation(StoreName(path), ImportPath(path, root), events);
  }

  /*
   * Printing
   */

  /** One import block: the store's event types and its `events` aliased `<name>Events`. */
  function ImportBlock(entry: EventCompilation): string
  {
    "import {\n  " + Join(entry.events, ",\n  ") + ",\n  events as " + entry.name + "Events\n} from \"" + entry.path + "\";\n"
  }

  /** The import blocks of the entries, in entry order. */
  function Imports(events: EventMap): (text: string)
    ensures events == [] ==> text == ""
  {
    if events == [] then ""
    else Imports(events[..|events| - 1]) + ImportBlock(events[|events| - 1].1)
  }

  lemma {:induction false} ImportsAppend(a: EventMap, b: EventMap)
    ensures Imports(a + b) == Imports(a) + Imports(b)
    decreases |b|
  {
    if b == [] {
      assert a + b == a;
    } else {
      var init := b[..|b| - 1];
      assert (a + b)[..|a + b| - 1] == a + init;
      assert (a + b)[|a + b| - 1] == b[|b| - 1];
      var block := ImportBlock(b[|b| - 1].1);
      ImportsAppend(a, init);
      assert Imports(a + b) == Imports(a + init) + block;
      assert Imports(b) == Imports(init) + block;
      AppendAssociates(Imports(a), Imports(init), block);
    }
  }

  /** Each entry's block appears in the imports right after the blocks of the entries before it. */
  lemma EachEntryImported(events: EventMap, i: nat)
    requires i < |events|
    ensures var text := Imports(events);
      var at := |Imports(events[..i])|;
      var block := ImportBlock(events[i].1);
      at + |block| <= |text| && text[at..at + |block|] == block
  {
    assert events == events[..i] + [events[i]] + events[i + 1..];
    ImportsAppend(events[..i] + [events[i]], events[i + 1..]);
    ImportsAppend(events[..i], [events[i]]);
    assert [events[i]][..0] == [];
  }

  /** `getEventImports`: the blocks appended one by one, then a final line break. */
  method GetEventImports(events: EventMap) returns (imports: string)
    ensures imports == Imports(events) + "\n"
    ensures events == [] ==> imports == "\n"
  {
    imports := "";
    var i := 0;
    while i < |events|
      invariant 0 <= i <= |events|
      invariant imports == Imports(events[..i])
    {
      assert events[..i + 1][..i] == events[..i];
      imports := imports + ImportBlock(events[i].1);
      i := i + 1;
    }
    assert events[..i] == events;
    imports := imports + "\n";
  }

  /** `<name>: <name>Events`: a store's line in the `events` object. */
  function StoreLine(entry: EventCompilation): string
  {
    entry.name + ": " + entry.name + "Events"
  }

  function StoreLines(events: EventMap): (lines: seq<string>)
    ensures |lines| == |events|
    ensures forall k :: 0 <= k < |events| ==> lines[k] == StoreLine(events[k].1)
  {
    seq(|events|, k requires 0 <= k < |events| => StoreLine(events[k].1))
  }

  /** Every entry's event names, concatenated in entry order. */
  function AllEventNames(events: EventMap): (names: seq<string>)
    ensures forall x :: x in names <==> exists k :: 0 <= k < |events| && x in events[k].1.events
  {
    if events == [] then []
    else
      var init := events[..|events| - 1];
      var prior := AllEventNames(init);
      assert forall k :: 0 <= k < |init| ==> init[k] == events[k];
      prior + events[|events| - 1].1.events
  }

  /** The three sections `getExportPrint` joins. */
  function UnionType(events: seq<string>): string
  {
    "export type Event =\n  | " + Join(events, "\n  | ") + ";\n\n"
  }

  function ExportList(events: seq<string>): string
  {
    "export {\n  " + Join(events, ",\n  ") + "\n};\n\n"
  }

  function EventsObject(stores: seq<string>): string
  {
    "export const events = {\n  " + Join(stores, ",\n") + "\n};\n"
  }

  /** `getExportPrint`: the union type, then the export list, then the events object. */
  method GetExportPrint(stores: seq<string>, events: seq<string>) returns (text: string)
    ensures text == UnionType(events) + ExportList(events) + EventsObject(stores)
  {
    var sections: seq<string> := [];
    sections := sections + [UnionType(events)];
    sections := sections + [ExportList(events)];
    sections := sections + [EventsObject(stores)];
    text := sections[0] + sections[1] + sections[2];
  }

  /** `getEventExports`: one store line per entry and every entry's events, in entry order, printed. */
  method GetEventExports(events: EventMap) returns (text: string)
    ensures text == UnionType(AllEventNames(events)) + ExportList(AllEventNames(events)) + EventsObject(StoreLines(events))
  {
    var stores: seq<string> := [];
    var exports: seq<string> := [];
    var i := 0;
    while i < |events|
      invariant 0 <= i <= |events|
      invariant stores == StoreLines(events[..i])
      invariant exports == AllEventNames(events[..i])
    {
      assert events[..i + 1][..i] == events[..i];
      stores := stores + [StoreLine(events[i].1)];
      exports := exports + events[i].1.events;
      i := i + 1;
    }
    assert events[..i] == events;
    text := GetExportPrint(stores, exports);
  }
}
