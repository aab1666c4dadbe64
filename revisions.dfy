/** How the two revisions of the translator relate. The type mapper, the
    name sanitizer and the property scan are shared definitions, so they
    agree by construction; what differs is how struct fields are paired,
    how declaration names fall back, and which components are printed. */
module Revisions {
  import opened SyntaxTree
  import opened Interfaces
  import R = RustMain
  import D = DenoMain

  /** Truncating and padding agree on the pairs both produce, and agree
      entirely exactly when there are at least as many types as names. */
  lemma ZipPrefixOfPadZip(names: seq<string>, types: seq<string>)
    ensures var z := R.Zip(names, types);
      var p := D.PadZip(names, types);
      |z| <= |p| && z == p[..|z|] && (z == p <==> |names| <= |types|)
  {
    var z := R.Zip(names, types);
    var p := D.PadZip(names, types);
    assert forall i :: 0 <= i < |z| ==> z[i] == p[i];
    if |names| <= |types| {
      assert forall i :: 0 <= i < |p| ==> z[i] == p[i];
    }
  }

  /** For a struct with a single `struct_block`, the Rust fields are a
      prefix of the TypeScript fields, and the two are equal exactly when
      no name lacks a type (before names are sanitized). */
  lemma StructFieldsAcrossRevisions(n: Node, i: nat)
    requires n.kind == "struct_definition" && i < |n.children| && n.children[i].kind == "struct_block"
    requires forall j :: 0 <= j < |n.children| && j != i ==> n.children[j].kind != "struct_block"
    ensures var rust := R.StructFields(n);
      var ts := D.TsStructFields(n);
      |rust| <= |ts| && rust == ts[..|rust|]
      && (rust == ts <==> |FieldTexts(n.children[i].children, "name")| <= |FieldTexts(n.children[i].children, "type")|)
  {
    D.OneFieldPerName(n, i);
    assert IndexOfKind(n.children, "struct_block") == Some(i);
    ZipPrefixOfPadZip(FieldTexts(n.children[i].children, "name"), FieldTexts(n.children[i].children, "type"));
  }

  /** The declaration names agree unless the identifier's text is empty,
      where only the TypeScript revision falls back to the placeholder. */
  lemma NamesAcrossRevisions(n: Node)
    ensures ChildTextOfKind(n, "user_type_identifier") != Some("") ==>
      R.StructName(n) == D.TsStructName(n) && R.ComponentName(n) == D.TsComponentName(n)
    ensures ChildTextOfKind(n, "user_type_identifier") == Some("") ==>
      R.StructName(n) == "" && D.TsStructName(n) == "UnnamedStruct"
  {
  }

  /** The Rust revision prints every component it reaches, exported or
      not. */
  lemma RustPrintsBareComponent(c: Node, seen: set<string>)
    requires c.kind == "component_definition"
    ensures |R.Walk([c], seen).lines| >= 2 && R.Walk([c], seen).lines[0] == Header(R.ComponentName(c))
  {
    var v := R.Visit(c, seen);
    assert v == R.ComponentOutput(c, seen);
    var t := R.Subtree(c, seen);
    assert [c][1..] == [];
    assert R.Walk([c], seen).lines == t.lines + [];
    HeadOfAppend(v.lines, R.Walk(c.children, v.seen).lines);
  }

  /** The TypeScript revision prints nothing of a component that no
      `export` marker precedes, and prints an exported one. */
  lemma TsPrintsOnlyExported(e: Node, c: Node, seen: set<string>)
    requires e.kind == "export" && c.kind == "component_definition"
    ensures D.TsWalk([c], seen) == D.TsWalk(c.children, seen)
    ensures |D.TsWalk([e, c], seen).lines| >= 3 && D.TsWalk([e, c], seen).lines[0] == Header(D.TsComponentName(c))
  {
    assert [c][1..] == [];
    D.BareComponentSilent(c, seen);
    assert D.TsWalk([c], seen).lines == D.TsSubtree(c, seen).lines + [];
    assert D.ExportsComponent([e, c]) && [e, c][1] == c && [e, c][2..] == [];
    var v := D.TsComponentOutput(c, seen);
    var t := D.TsExported(c, seen);
    assert D.TsWalk([e, c], seen).lines == t.lines + [];
    assert t.lines == v.lines + D.TsWalk(c.children, v.seen).lines;
    D.TsComponentLayout(c, seen);
    HeadOfAppend(v.lines, D.TsWalk(c.children, v.seen).lines);
  }

  lemma HeadOfAppend<T>(a: seq<T>, b: seq<T>)
    requires a != []
    ensures |a + b| >= |a| && (a + b)[0] == a[0]
  {
  }
}
