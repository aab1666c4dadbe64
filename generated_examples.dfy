/** Small parse trees shaped like the repository's example UI files, and
    the interface text each revision prints for them (compare
    `examples/memoryTypes.ts` and `examples/ui.ts`). */
module GeneratedExamples {
  import opened SyntaxTree
  import opened TypeMapper
  import opened Interfaces
  import R = RustMain
  import D = DenoMain

  function Labelled(kind: string, fieldName: string, text: string): Node {
    Node(kind, Some(fieldName), text, [])
  }

  function TypeName(text: string): Node {
    Node("user_type_identifier", None, text, [])
  }

  function Property(name: string, typeText: string): Node {
    Node("property", None, "", [Labelled("identifier", "name", name), Labelled("type", "type", typeText)])
  }

  function Component(name: string, members: seq<Node>): Node {
    Node("component_definition", None, "", [TypeName(name), Node("block", None, "", members)])
  }

  // ---------------------------------------------------------------------
  // The type mapper and the sanitizer.

  lemma NestedArrays()
    ensures MapType("[[int]]", {}) == "number[][]"
  {
    assert Inner("[[int]]") == "[int]";
    assert Inner("[int]") == "int";
  }

  lemma ArrayOfDeclared()
    ensures MapType("[TileData]", {"TileData"}) == "TileData[]"
    ensures MapType("[TileData]", {}) == "any[]"
  {
    assert Inner("[TileData]") == "TileData";
  }

  /** Sanitizing a name with one hyphen between two hyphen-free parts. */
  lemma Hyphenated(a: string, b: string)
    requires '-' !in a && '-' !in b
    ensures MapName(a + "-" + b) == a + "_" + b
  {
    MapNameAtHyphen(a, b);
    MapNameIdempotent(a);
    MapNameIdempotent(b);
  }

  lemma SanitizedCpuData()
    ensures MapName("cpu-data") == "cpu_data"
  {
    Hyphenated("cpu", "data");
    assert "cpu" + "-" + "data" == "cpu-data";
    assert "cpu" + "_" + "data" == "cpu_data";
  }

  // ---------------------------------------------------------------------
  // The memory game, printed by the TypeScript revision.

  function TileData(): Node {
    Node("struct_definition", None, "", [TypeName("TileData"),
      Node("struct_block", None, "", [
        Labelled("identifier", "name", "image"), Labelled("type", "type", "image"),
        Labelled("identifier", "name", "image-visible"), Labelled("type", "type", "bool"),
        Labelled("identifier", "name", "solved"), Labelled("type", "type", "bool")])])
  }

  lemma TileDataName()
    ensures D.TsStructName(TileData()) == "TileData"
  {
    assert ChildTextOfKind(TileData(), "user_type_identifier") == Some("TileData");
  }

  /** Names and types pair up in order; names are not yet sanitized. */
  lemma TileDataFields()
    ensures D.TsStructFields(TileData()) == [Member("image", "image"), Member("image-visible", "bool"), Member("solved", "bool")]
  {
    var n := TileData();
    var cs := n.children[1].children;
    assert FieldTexts(cs, "name") == ["image", "image-visible", "solved"] by {
      assert FieldTexts(cs[4..], "name") == ["solved"];
      assert cs[2..][2..] == cs[4..];
      assert FieldTexts(cs[2..], "name") == ["image-visible", "solved"];
    }
    assert FieldTexts(cs, "type") == ["image", "bool", "bool"] by {
      assert FieldTexts(cs[4..], "type") == ["bool"];
      assert cs[2..][2..] == cs[4..];
      assert FieldTexts(cs[2..], "type") == ["bool", "bool"];
    }
    assert n.children[1..] == [n.children[1]];
    assert D.StructBlocksFields(n.children) == D.StructBlocksFields(n.children[1..]);
    assert D.StructBlocksFields(n.children[1..]) == D.TsBlockFields(n.children[1]) + [];
  }

  /** `image` is not a declared name, so it prints as `any`. */
  lemma UndeclaredImageLine()
    ensures MemberLine(Member("image", "image"), {"TileData"}) == "  image: any;"
  {
  }

  function MainWindow(): Node {
    Component("MainWindow", [
      Property("disable-tiles", "bool"),
      Property("memory-tiles", "[TileData]"),
      Node("callback", None, "", [Labelled("identifier", "name", "check-if-pair-solved")])])
  }

  lemma MainWindowName()
    ensures D.TsComponentName(MainWindow()) == "MainWindow"
  {
    assert ChildTextOfKind(MainWindow(), "user_type_identifier") == Some("MainWindow");
  }

  /** The block's properties in order; the callback is not a property. */
  lemma MainWindowProperties()
    ensures ComponentProperties(MainWindow()) == [Member("disable-tiles", "bool"), Member("memory-tiles", "[TileData]")]
  {
    var n := MainWindow();
    assert ScannedBlock(n.children) == Some(1);
    var cs := n.children[1].children;
    assert BlockProperties(cs[2..]) == [];
    assert BlockProperties(cs[1..]) == [Member("memory-tiles", "[TileData]")];
  }

  /** The callback, with no argument types and no return type. */
  lemma MainWindowCallbacks()
    ensures D.ComponentCallbacks(MainWindow()) == [D.Callback("check-if-pair-solved", [], None)]
  {
    var n := MainWindow();
    assert ScannedBlock(n.children) == Some(1);
    var cs := n.children[1].children;
    assert FieldTexts(cs[2].children, "arguments") == [];
    assert D.BlockCallbacks(cs[1..]) == [D.CallbackOf(cs[2])];
  }

  // ---------------------------------------------------------------------
  // The CPU monitor, printed by the Rust revision.

  function CpuData(): Node {
    Node("struct_definition", None, "", [TypeName("CPUData"),
      Node("struct_block", None, "", [
        Labelled("identifier", "name", "number"), Labelled("type", "type", "int"),
        Labelled("identifier", "name", "active"), Labelled("type", "type", "bool")])])
  }

  lemma CpuDataFields()
    ensures R.StructName(CpuData()) == "CPUData"
    ensures R.StructFields(CpuData()) == [Member("number", "int"), Member("active", "bool")]
  {
    var n := CpuData();
    assert ChildTextOfKind(n, "user_type_identifier") == Some("CPUData");
    assert IndexOfKind(n.children, "struct_block") == Some(1);
    var cs := n.children[1].children;
    assert FieldTexts(cs, "name") == ["number", "active"] by {
      assert FieldTexts(cs[2..], "name") == ["active"];
    }
    assert FieldTexts(cs, "type") == ["int", "bool"] by {
      assert FieldTexts(cs[2..], "type") == ["bool"];
    }
  }

  lemma CpuDataLines()
    ensures MemberLines([Member("number", "int"), Member("active", "bool")], {"CPUData"}) == ["  number: number;", "  active: boolean;"]
  {
    var r := MemberLines([Member("number", "int"), Member("active", "bool")], {"CPUData"});
    assert r[0] == "  number: number;";
    assert r[1] == "  active: boolean;";
  }

  function Window(): Node {
    Component("Window", [
      Node("property_assignment", None, "", [Labelled("identifier", "property", "title"), Labelled("string_value", "value", "\"CPU\"")]),
      Property("cpu-data", "[CPUData]")])
  }

  lemma WindowMembers()
    ensures R.ComponentName(Window()) == "Window"
    ensures ComponentProperties(Window()) == [Member("title", "\"CPU\""), Member("cpu-data", "[CPUData]")]
  {
    var n := Window();
    assert ChildTextOfKind(n, "user_type_identifier") == Some("Window");
    assert ScannedBlock(n.children) == Some(1);
    var cs := n.children[1].children;
    assert BlockProperties(cs[1..]) == [Member("cpu-data", "[CPUData]")];
  }

  /** A property-assignment value is not a type, so it degrades to `any`;
      `[CPUData]` resolves once the struct has been declared, and only
      then. */
  lemma WindowLines()
    ensures MemberLine(Member("title", "\"CPU\""), {"CPUData"}) == "  title: any;"
    ensures MemberLine(Member("cpu_data", "[CPUData]"), {"CPUData"}) == "  cpu_data: CPUData[];"
    ensures MemberLine(Member("cpu_data", "[CPUData]"), {}) == "  cpu_data: any[];"
  {
    TitleLine(Member("title", "\"CPU\""), {"CPUData"});
    CpuDataArrayLine(Member("cpu_data", "[CPUData]"), {"CPUData"}, "CPUData");
    CpuDataArrayLine(Member("cpu_data", "[CPUData]"), {}, "CPUData");
  }

  lemma TitleLine(m: Member, seen: set<string>)
    requires m == Member("title", "\"CPU\"") && seen == {"CPUData"}
    ensures MemberLine(m, seen) == "  title: any;"
  {
    assert m.typeText !in seen && !IsBracketed(m.typeText) && !IsPrimitive(m.typeText);
    NamePassthrough(m.typeText, seen);
  }

  lemma CpuDataArrayLine(m: Member, seen: set<string>, core: string)
    requires m == Member("cpu_data", "[CPUData]") && core == "CPUData"
    ensures core in seen ==> MemberLine(m, seen) == "  cpu_data: CPUData[];"
    ensures core !in seen ==> MemberLine(m, seen) == "  cpu_data: any[];"
  {
    assert m.typeText == "[" + core + "]";
    assert !IsBracketed(core) && !IsPrimitive(core);
    ArrayLaw(core, seen);
    NamePassthrough(core, seen);
    var image := if core in seen then core else Wildcard;
    assert MemberLine(m, seen) == "  " + m.name + ": " + (image + "[]") + ";";
    CpuDataText(m.name, image);
  }

  lemma CpuDataText(name: string, image: string)
    requires name == "cpu_data"
    ensures image == "CPUData" ==> "  " + name + ": " + (image + "[]") + ";" == "  cpu_data: CPUData[];"
    ensures image == Wildcard ==> "  " + name + ": " + (image + "[]") + ";" == "  cpu_data: any[];"
  {
  }

  // ---------------------------------------------------------------------
  // Whole interfaces of the memory game (`examples/memoryTypes.ts`).

  /** A name whose sanitized form is read off character by character. */
  lemma SanitizedAs(raw: string, clean: string)
    requires |raw| == |clean| && forall i :: 0 <= i < |raw| ==> clean[i] == Sanitize(raw[i])
    ensures MapName(raw) == clean
  {
  }

  // The member names of the two example files, sanitized one by one
  // (each in a proof of its own, which keeps every proof small).

  lemma SanitizedImage() ensures MapName("image") == "image" { SanitizedAs("image", "image"); }
  lemma SanitizedSolved() ensures MapName("solved") == "solved" { SanitizedAs("solved", "solved"); }
  lemma SanitizedTitle() ensures MapName("title") == "title" { SanitizedAs("title", "title"); }
  lemma SanitizedImageVisible() ensures MapName("image-visible") == "image_visible" { SanitizedAs("image-visible", "image_visible"); }
  lemma SanitizedDisableTiles() ensures MapName("disable-tiles") == "disable_tiles" { SanitizedAs("disable-tiles", "disable_tiles"); }
  lemma SanitizedMemoryTiles() ensures MapName("memory-tiles") == "memory_tiles" { SanitizedAs("memory-tiles", "memory_tiles"); }
  lemma SanitizedCheckIfPairSolved() ensures MapName("check-if-pair-solved") == "check_if_pair_solved" { SanitizedAs("check-if-pair-solved", "check_if_pair_solved"); }

  /** Two and three members renamed, given their sanitized names. */
  lemma RenamedTwo(ms: seq<Member>, a: string, b: string)
    requires |ms| == 2 && MapName(ms[0].name) == a && MapName(ms[1].name) == b
    ensures Renamed(ms) == [Member(a, ms[0].typeText), Member(b, ms[1].typeText)]
  {
  }

  lemma RenamedThree(ms: seq<Member>, a: string, b: string, c: string)
    requires |ms| == 3 && MapName(ms[0].name) == a && MapName(ms[1].name) == b && MapName(ms[2].name) == c
    ensures Renamed(ms) == [Member(a, ms[0].typeText), Member(b, ms[1].typeText), Member(c, ms[2].typeText)]
  {
  }

  /** Field names of `TileData` once sanitized. */
  lemma TileDataRenamed()
    ensures Renamed(D.TsStructFields(TileData()))
      == [Member("image", "image"), Member("image_visible", "bool"), Member("solved", "bool")]
  {
    TileDataFields();
    SanitizedImage();
    SanitizedImageVisible();
    SanitizedSolved();
    RenamedThree(D.TsStructFields(TileData()), "image", "image_visible", "solved");
  }

  /** `image` is no declared name and prints as `any`; `bool` is a
      primitive. */
  lemma TileDataLines()
    ensures MemberLines([Member("image", "image"), Member("image_visible", "bool"), Member("solved", "bool")], {"TileData"})
      == ["  image: any;", "  image_visible: boolean;", "  solved: boolean;"]
  {
    var ms := [Member("image", "image"), Member("image_visible", "bool"), Member("solved", "bool")];
    var r := MemberLines(ms, {"TileData"});
    assert r[0] == "  image: any;" by { assert r[0] == MemberLine(ms[0], {"TileData"}); }
    assert r[1] == "  image_visible: boolean;" by { assert r[1] == MemberLine(ms[1], {"TileData"}); }
    assert r[2] == "  solved: boolean;" by { assert r[2] == MemberLine(ms[2], {"TileData"}); }
  }

  /** The `TileData` interface: header, sanitized field names, `image`
      degrading to `any`, closing brace; the struct's name is declared. */
  lemma TileDataInterface()
    ensures D.TsStructOutput(TileData(), {}) == Out([
      "export interface TileData {",
      "  image: any;",
      "  image_visible: boolean;",
      "  solved: boolean;",
      "}"], {"TileData"})
  {
    TileDataOutput(TileData(), {});
  }

  /** The same, with the tree and the set as variables, so that the
      verifier does not evaluate the walk over the literal tree. */
  lemma TileDataOutput(n: Node, none: set<string>)
    requires n == TileData() && none == {}
    ensures D.TsStructOutput(n, none) == Out([
      "export interface TileData {",
      "  image: any;",
      "  image_visible: boolean;",
      "  solved: boolean;",
      "}"], {"TileData"})
  {
    TileDataName();
    var body := MemberLines(Renamed(D.TsStructFields(n)), {"TileData"});
    assert body == ["  image: any;", "  image_visible: boolean;", "  solved: boolean;"] by {
      TileDataRenamed();
      TileDataLines();
    }
    StructAssembled(n, "TileData", body);
    TileDataText(Header("TileData"), body);
  }

  lemma TileDataText(header: string, body: seq<string>)
    requires header == Header("TileData")
    requires body == ["  image: any;", "  image_visible: boolean;", "  solved: boolean;"]
    ensures [header] + body + ["}"] == [
      "export interface TileData {",
      "  image: any;",
      "  image_visible: boolean;",
      "  solved: boolean;",
      "}"]
  {
    assert header == "export interface TileData {";
  }

  lemma StructAssembled(n: Node, name: string, body: seq<string>)
    requires D.TsStructName(n) == name
    requires MemberLines(Renamed(D.TsStructFields(n)), {name}) == body
    ensures D.TsStructOutput(n, {}) == Out([Header(name)] + body + ["}"], {name})
  {
    var s: set<string> := {};
    assert s + {name} == {name};
  }

  /** The one callback of `MainWindow`: no arguments, no return type, so
      an empty argument list and ` => void`. */
  lemma CheckIfPairSolvedLine()
    ensures D.CallbackLine(D.Callback("check-if-pair-solved", [], None), {"TileData"})
      == "  check_if_pair_solved: () => void;"
  {
    D.VoidCallbackLine(D.Callback("check-if-pair-solved", [], None), {"TileData"});
    SanitizedCheckIfPairSolved();
    CheckIfPairSolvedText(MapName("check-if-pair-solved"));
  }

  lemma CheckIfPairSolvedText(name: string)
    requires name == "check_if_pair_solved"
    ensures "  " + name + ": () => void;" == "  check_if_pair_solved: () => void;"
  {
  }

  /** Property names of `MainWindow` once sanitized. */
  lemma MainWindowRenamed()
    ensures Renamed(ComponentProperties(MainWindow()))
      == [Member("disable_tiles", "bool"), Member("memory_tiles", "[TileData]")]
  {
    MainWindowProperties();
    SanitizedDisableTiles();
    SanitizedMemoryTiles();
    RenamedTwo(ComponentProperties(MainWindow()), "disable_tiles", "memory_tiles");
  }

  /** `[TileData]` resolves because the struct was declared first. */
  lemma MainWindowLines()
    ensures MemberLines([Member("disable_tiles", "bool"), Member("memory_tiles", "[TileData]")], {"TileData"})
      == ["  disable_tiles: boolean;", "  memory_tiles: TileData[];"]
  {
    var ms := [Member("disable_tiles", "bool"), Member("memory_tiles", "[TileData]")];
    BoolLine("disable_tiles", {"TileData"}, "  disable_tiles: boolean;");
    MemoryTilesLine(ms[1], {"TileData"});
    LinesOfTwo(ms, {"TileData"}, "  disable_tiles: boolean;", "  memory_tiles: TileData[];");
  }

  lemma MemoryTilesLine(m: Member, seen: set<string>)
    requires m == Member("memory_tiles", "[TileData]") && seen == {"TileData"}
    ensures MemberLine(m, seen) == "  memory_tiles: TileData[];"
  {
    var core := "TileData";
    assert m.typeText == "[" + core + "]";
    assert core in seen;
    DeclaredArrayLine(m.name, core, seen);
    MemoryTilesText(m.name, core);
  }

  lemma MemoryTilesText(name: string, core: string)
    requires name == "memory_tiles" && core == "TileData"
    ensures "  " + name + ": " + core + "[];" == "  memory_tiles: TileData[];"
  {
  }

  /** Two members print as their two lines. */
  lemma LinesOfTwo(ms: seq<Member>, seen: set<string>, a: string, b: string)
    requires |ms| == 2 && MemberLine(ms[0], seen) == a && MemberLine(ms[1], seen) == b
    ensures MemberLines(ms, seen) == [a, b]
  {
    var r := MemberLines(ms, seen);
    assert r[0] == a && r[1] == b;
  }

  /** A `bool` member prints as `boolean`. */
  lemma BoolLine(name: string, seen: set<string>, line: string)
    requires line == "  " + name + ": boolean;"
    ensures MemberLine(Member(name, "bool"), seen) == line
  {
    PrimitivesIgnoreSeen(seen);
  }

  /** An array of a declared struct prints as that struct's name and `[]`. */
  lemma DeclaredArrayLine(name: string, core: string, seen: set<string>)
    requires core in seen && !IsBracketed(core) && !IsPrimitive(core)
    ensures MemberLine(Member(name, "[" + core + "]"), seen) == "  " + name + ": " + core + "[];"
  {
    ArrayLaw(core, seen);
    NamePassthrough(core, seen);
  }

  /** The `MainWindow` interface: properties, then the callback, then
      `run`. */
  lemma MainWindowInterface()
    ensures D.TsComponentOutput(MainWindow(), {"TileData"}).lines == [
      "export interface MainWindow {",
      "  disable_tiles: boolean;",
      "  memory_tiles: TileData[];",
      "  check_if_pair_solved: () => void;",
      "  run: () => Promise<void>;",
      "}"]
  {
    MainWindowName();
    var props := MemberLines(Renamed(ComponentProperties(MainWindow())), {"TileData"});
    assert props == ["  disable_tiles: boolean;", "  memory_tiles: TileData[];"] by {
      MainWindowRenamed();
      MainWindowLines();
    }
    var cbs := D.CallbackLines(D.ComponentCallbacks(MainWindow()), {"TileData"});
    assert cbs == ["  check_if_pair_solved: () => void;"] by {
      MainWindowCallbacks();
      CheckIfPairSolvedLine();
    }
    ComponentAssembled(MainWindow(), {"TileData"}, "MainWindow", props, cbs);
    MainWindowText(Header("MainWindow"), props, cbs);
  }

  lemma MainWindowText(header: string, props: seq<string>, cbs: seq<string>)
    requires header == Header("MainWindow")
    requires props == ["  disable_tiles: boolean;", "  memory_tiles: TileData[];"]
    requires cbs == ["  check_if_pair_solved: () => void;"]
    ensures [header] + props + cbs + [RunLine, "}"] == [
      "export interface MainWindow {",
      "  disable_tiles: boolean;",
      "  memory_tiles: TileData[];",
      "  check_if_pair_solved: () => void;",
      "  run: () => Promise<void>;",
      "}"]
  {
    assert header == "export interface MainWindow {";
  }

  lemma ComponentAssembled(n: Node, seen: set<string>, name: string, props: seq<string>, cbs: seq<string>)
    requires D.TsComponentName(n) == name
    requires MemberLines(Renamed(ComponentProperties(n)), seen) == props
    requires D.CallbackLines(D.ComponentCallbacks(n), seen) == cbs
    ensures D.TsComponentOutput(n, seen).lines == [Header(name)] + props + cbs + [RunLine, "}"]
  {
  }

  // ---------------------------------------------------------------------
  // Declaration order matters: a reference resolves only backwards.

  /** Property names of `Window` once sanitized. */
  lemma WindowRenamed()
    ensures Renamed(ComponentProperties(Window())) == [Member("title", "\"CPU\""), Member("cpu_data", "[CPUData]")]
  {
    WindowMembers();
    SanitizedTitle();
    SanitizedCpuData();
    RenamedTwo(ComponentProperties(Window()), "title", "cpu_data");
  }

  /** A component that uses `[CPUData]` before the struct is declared
      prints `any[]`; after it, `CPUData[]`. */
  lemma ForwardReferenceDegrades()
    ensures R.ComponentOutput(Window(), {}).lines[2] == "  cpu_data: any[];"
    ensures R.ComponentOutput(Window(), R.StructOutput(CpuData(), {}).seen).lines[2] == "  cpu_data: CPUData[];"
  {
    WindowBeforeCpuData();
    WindowAfterCpuData(R.StructOutput(CpuData(), {}).seen);
  }

  lemma WindowBeforeCpuData()
    ensures R.ComponentOutput(Window(), {}).lines[2] == "  cpu_data: any[];"
  {
    WindowLines();
    CpuDataLine(Window(), {}, "  cpu_data: any[];");
  }

  lemma WindowAfterCpuData(seen: set<string>)
    requires seen == R.StructOutput(CpuData(), {}).seen
    ensures R.ComponentOutput(Window(), seen).lines[2] == "  cpu_data: CPUData[];"
  {
    assert seen == {"CPUData"} by {
      var none: set<string> := {};
      CpuDataFields();
      assert none + {"CPUData"} == {"CPUData"};
    }
    WindowLines();
    CpuDataLine(Window(), seen, "  cpu_data: CPUData[];");
  }

  /** The same over whole walks: with `Window` before `CPUData` in the
      file, its `cpu-data` line prints `any[]`; with the struct first, the
      line (after the struct's four lines) prints `CPUData[]`. The trees
      are passed as variables so that the walk is not evaluated on them. */
  lemma ForwardReferenceWalk(w: Node, c: Node)
    requires w == Window() && c == CpuData()
    ensures |R.Walk([w, c], {}).lines| > 2 && R.Walk([w, c], {}).lines[2] == "  cpu_data: any[];"
    ensures |R.Walk([c, w], {}).lines| > 6 && R.Walk([c, w], {}).lines[6] == "  cpu_data: CPUData[];"
  {
    WindowFirst(w, c, {});
    CpuDataFirst(c, w, {});
  }

  lemma WindowSilent()
    ensures R.Silent(Window().children)
  {
    var b := Window().children[1];
    assert R.Silent(b.children[0].children) && R.Silent(b.children[1].children);
  }

  lemma CpuDataSilent()
    ensures R.Silent(CpuData().children)
  {
    assert R.Silent(CpuData().children[1].children);
  }

  lemma WindowFirst(w: Node, c: Node, none: set<string>)
    requires w == Window() && c == CpuData() && none == {}
    ensures |R.Walk([w, c], none).lines| > 2 && R.Walk([w, c], none).lines[2] == "  cpu_data: any[];"
  {
    WindowSilent();
    CpuDataSilent();
    R.TwoLeafDeclarations(w, c, none);
    var va := R.Visit(w, none);
    WindowVisit(w, none, va);
    WindowBeforeCpuData();
    LineOfPrefix(va.lines, R.Visit(c, va.seen).lines, 2);
  }

  lemma CpuDataFirst(c: Node, w: Node, none: set<string>)
    requires c == CpuData() && w == Window() && none == {}
    ensures |R.Walk([c, w], none).lines| > 6 && R.Walk([c, w], none).lines[6] == "  cpu_data: CPUData[];"
  {
    CpuDataSilent();
    WindowSilent();
    R.TwoLeafDeclarations(c, w, none);
    var vc := R.Visit(c, none);
    assert |vc.lines| == 4 && vc.seen == {"CPUData"} by { CpuDataVisit(c, none, vc); }
    var vw := R.Visit(w, vc.seen);
    WindowVisit(w, vc.seen, vw);
    WindowAfterCpuData(vc.seen);
    LineOfSuffix(vc.lines, vw.lines, 2);
  }

  /** What the Rust dispatch prints for `Window`: its four-line interface. */
  lemma WindowVisit(w: Node, seen: set<string>, v: Out)
    requires w == Window() && v == R.Visit(w, seen)
    ensures v == R.ComponentOutput(w, seen) && |v.lines| == 4
  {
    assert w.kind == "component_definition";
    assert |ComponentProperties(w)| == 2 by { WindowMembers(); }
    ComponentLineCount(w, seen);
  }

  lemma ComponentLineCount(n: Node, seen: set<string>)
    ensures |R.ComponentOutput(n, seen).lines| == |ComponentProperties(n)| + 2
  {
  }

  lemma CpuDataVisit(c: Node, none: set<string>, v: Out)
    requires c == CpuData() && none == {} && v == R.Visit(c, none)
    ensures |v.lines| == 4 && v.seen == {"CPUData"}
  {
    assert v == R.StructOutput(c, none);
    CpuDataFields();
    assert none + {"CPUData"} == {"CPUData"};
  }

  lemma LineOfPrefix(x: seq<string>, y: seq<string>, k: nat)
    requires k < |x|
    ensures |x + y| > k && (x + y)[k] == x[k]
  {
  }

  lemma LineOfSuffix(x: seq<string>, y: seq<string>, k: nat)
    requires k < |y|
    ensures |x + y| > |x| + k && (x + y)[|x| + k] == y[k]
  {
  }

  /** The `cpu-data` line of `Window`, whatever the set of declared names. */
  lemma CpuDataLine(w: Node, seen: set<string>, line: string)
    requires w == Window()
    requires MemberLine(Member("cpu_data", "[CPUData]"), seen) == line
    ensures R.ComponentOutput(w, seen).lines[2] == line
  {
    WindowRenamed();
    ComponentLine(w, seen, 1);
  }

  /** Line `k + 1` of a component interface is its `k`-th property. */
  lemma ComponentLine(n: Node, seen: set<string>, k: nat)
    requires k < |ComponentProperties(n)|
    ensures R.ComponentOutput(n, seen).lines[k + 1] == MemberLine(Renamed(ComponentProperties(n))[k], seen)
  {
    var body := MemberLines(Renamed(ComponentProperties(n)), seen);
    assert R.ComponentOutput(n, seen).lines == [Header(R.ComponentName(n))] + body + ["}"];
    assert ([Header(R.ComponentName(n))] + body + ["}"])[k + 1] == body[k];
  }

  // ---------------------------------------------------------------------
  // The whole memory-game file.

  /** `export component MainWindow ...` next to `struct TileData ...`. */
  function MemoryGame(): Node {
    Node("source_file", None, "", [TileData(), Node("export", None, "export", []), MainWindow()])
  }

  /** Nothing under the struct or the component is a struct or an
      `export`. */
  lemma MemoryGameQuiet()
    ensures D.Quiet(TileData().children) && D.Quiet(MainWindow().children)
  {
    var b := MainWindow().children[1];
    assert D.Quiet(b.children[0].children) && D.Quiet(b.children[1].children) && D.Quiet(b.children[2].children);
  }

  /** A struct, then an exported component, with nothing printable
      under either: the walk prints the struct's interface, then the
      component's, the latter mapped against the set the struct left. */
  lemma StructThenExported(cs: seq<Node>, seen: set<string>)
    requires |cs| == 3 && cs[0].kind == "struct_definition" && cs[1].kind == "export" && cs[2].kind == "component_definition"
    requires D.Quiet(cs[0].children) && D.Quiet(cs[2].children)
    ensures var st := D.TsStructOutput(cs[0], seen);
      D.TsWalk(cs, seen) == Out(st.lines + D.TsComponentOutput(cs[2], st.seen).lines, st.seen)
  {
    var st := D.TsStructOutput(cs[0], seen);
    var co := D.TsComponentOutput(cs[2], st.seen);
    D.TsWalkQuiet(cs[0].children, st.seen);
    D.TsWalkQuiet(cs[2].children, st.seen);
    assert !D.ExportsComponent(cs);
    assert D.TsSubtree(cs[0], seen) == st by {
      assert st.lines + [] == st.lines;
    }
    assert D.TsWalk(cs[1..], st.seen) == co by {
      assert D.ExportsComponent(cs[1..]) && cs[1..][1] == cs[2] && cs[1..][2..] == [];
      assert D.TsExported(cs[2], st.seen) == co by {
        assert co.lines + [] == co.lines;
      }
      assert co.lines + [] == co.lines;
    }
  }

  /** A root that is neither a struct nor an `export` prints what its
      children print. */
  lemma UnderRoot(root: Node, seen: set<string>)
    requires root.kind != "struct_definition" && root.kind != "export"
    ensures D.TsWalk([root], seen) == D.TsWalk(root.children, seen)
  {
    assert [root][1..] == [];
    var c := D.TsWalk(root.children, seen);
    assert [] + c.lines + [] == c.lines;
  }

  lemma MemoryGameText(a: seq<string>, b: seq<string>)
    requires a == ["export interface TileData {", "  image: any;", "  image_visible: boolean;", "  solved: boolean;", "}"]
    requires b == ["export interface MainWindow {", "  disable_tiles: boolean;", "  memory_tiles: TileData[];",
      "  check_if_pair_solved: () => void;", "  run: () => Promise<void>;", "}"]
    ensures a + b == [
      "export interface TileData {",
      "  image: any;",
      "  image_visible: boolean;",
      "  solved: boolean;",
      "}",
      "export interface MainWindow {",
      "  disable_tiles: boolean;",
      "  memory_tiles: TileData[];",
      "  check_if_pair_solved: () => void;",
      "  run: () => Promise<void>;",
      "}"]
  {
  }

  /** The TypeScript revision prints exactly the two interfaces of
      `examples/memoryTypes.ts`, the struct before the component, and
      declares only `TileData`. */
  lemma MemoryGameOutput()
    ensures D.TsWalk([MemoryGame()], {}) == Out([
      "export interface TileData {",
      "  image: any;",
      "  image_visible: boolean;",
      "  solved: boolean;",
      "}",
      "export interface MainWindow {",
      "  disable_tiles: boolean;",
      "  memory_tiles: TileData[];",
      "  check_if_pair_solved: () => void;",
      "  run: () => Promise<void>;",
      "}"], {"TileData"})
  {
    MemoryGameQuiet();
    UnderRoot(MemoryGame(), {});
    StructThenExported(MemoryGame().children, {});
    TileDataInterface();
    MainWindowInterface();
    MemoryGameText(D.TsStructOutput(TileData(), {}).lines, D.TsComponentOutput(MainWindow(), {"TileData"}).lines);
  }
}
