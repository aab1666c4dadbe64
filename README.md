# slintgen in Dafny

A model of slintgen, which translates Slint UI sources into TypeScript
interface declarations. The translator walks the tree-sitter parse tree of a
`.slint` file. For every `struct_definition` it prints one
`export interface` block, and for every component it prints another. Field,
property and callback types are mapped from Slint to TypeScript. A running set
of declared struct names lets a later field typed with an earlier struct (or
an array of it) resolve to that name instead of `any`.

The repository holds two revisions of the translator, and both are modelled:

- `src/main.rs` (module `RustMain`). It prints every `component_definition`
  it reaches. Struct fields are zipped (truncated to the shorter of the name
  and type lists), and struct field names are printed unsanitized.
- `deno/main.ts` (module `DenoMain`). It prints a component only when an
  `export` node's next sibling is a `component_definition`. It pads missing
  field types with `""`, sanitizes struct field names, collects callbacks and
  closes every component with `run: () => Promise<void>;`.

Layout:

- `syntax_tree.dfy` (`SyntaxTree`): the parse tree as an immutable datatype
  `Node(kind, field, text, children)`. The field label (`name`, `type`,
  `property`, `value`, `return_type`, `arguments`) sits on the child. This
  module also holds the tree queries: first child of a kind, children under a
  field label, and the pre-order listing.
- `type_mapper.dfy` (`TypeMapper`): `map_type`/`mapType` and
  `map_name`/`mapName`. The two revisions define them with identical rules,
  so each is defined once and both revisions use it. The claim that `mapType`
  agrees with `map_type` on every input therefore holds by construction.
- `interfaces.dfy` (`Interfaces`): what the revisions share. This covers the
  raw `(name, type)` member, the property scan of a component's block, the
  line layout of an interface, and a fold over a flat node list.
- `rust_main.dfy`, `deno_main.dfy`: each revision's extractors and walker.
  Each pairs a specification (recursive functions over the tree that yield
  the printed lines and the final set of declared names) with the imperative
  code (a `Translator` class whose `seen` and `output` fields the methods
  update, with loops over the children). Every method's `ensures` ties its
  new state to the specification.
- `revisions.dfy` (`Revisions`): where the two revisions agree and where they
  differ.
- `generated_examples.dfy` (`GeneratedExamples`): small trees shaped like the
  repository's example UIs, and the exact lines they produce. These are
  compared with `examples/memoryTypes.ts` and `examples/ui.ts`.

Behaviour of the code that the model keeps as written:

- The property scan reads only the first `block` child that has children.
  After the inner loop, the cursor is left on that block's last child, so the
  outer `goto_next_sibling` fails.
- In the Rust revision, the struct scan ends at the first `struct_block`,
  because `children_by_field_name(.., &mut field_cursor)` re-roots the
  scanning cursor there.
- The Rust revision does not sanitize struct field names.
- The TypeScript revision pads missing field types rather than truncating.
- In the TypeScript revision, an empty declaration name (falsy in JavaScript)
  falls back to the placeholder, and so does an empty return type (which
  prints as `void`).

## Model

| member | source | states |
|---|---|---|
| SyntaxTree.IndexOfKind | src/main.rs:194-208 | the index found holds a child of the kind and no earlier child has it; none is found exactly when no child has the kind |
| SyntaxTree.FindChildByKind | src/main.rs:194-208 | the loop over the direct children returns the text of the first child of the given kind, or None when there is none |
| SyntaxTree.FieldChild | deno/main.ts:130-134 | the child returned is the first one carrying the field label (no earlier child carries it); None exactly when no child carries it |
| SyntaxTree.FieldTexts | src/main.rs:173-178 | the texts returned are exactly those of the children under the field label, never more than the children |
| SyntaxTree.FieldTextsConcat | deno/main.ts:182-187 | collecting field texts distributes over concatenated child lists, so document order is kept |
| SyntaxTree.CollectFieldTexts | deno/main.ts:182-187 | the push loop over `childrenForFieldName` yields exactly the field texts in document order |
| SyntaxTree.PreOrderCoversForest | src/main.rs:26-52 | the pre-order listing contains every root and everything listed below any root; its length is the forest's node count, counted by a recursion of the same shape as the listing |
| TypeMapper.MapType | deno/main.ts:213-230 | `map_type`/`mapType` itself; its properties are stated by `MapTypeLayers`, `ArrayLaw`, `PrimitivesIgnoreSeen`, `NamePassthrough`, `WildcardExactly` and `MoreDeclaredNames` |
| TypeMapper.Inner | src/main.rs:215-218 | the inner text of a bracketed type is two characters shorter, so the array recursion terminates |
| TypeMapper.MapTypeLayers | src/main.rs:210-225 | the mapped type is the image of the unbracketed core followed by one `[]` per bracket layer |
| TypeMapper.ArrayLaw | src/main.rs:215-218 | `[T]` maps to the mapping of `T` followed by `[]` |
| TypeMapper.PrimitivesIgnoreSeen | src/main.rs:211-214 | `int`, `bool`, `string` map to `number`, `boolean`, `string` whatever names are declared |
| TypeMapper.NamePassthrough | src/main.rs:219-223 | an unbracketed non-primitive name maps to itself when declared and to `any` otherwise |
| TypeMapper.WildcardExactly | src/main.rs:210-225 | the result is bare `any` exactly when there is no bracket layer and the name neither is primitive nor declared (or is a declared `any`) |
| TypeMapper.MoreDeclaredNames | src/main.rs:219-223 | declaring more names changes a result only from `any` plus array layers, and never changes a resolved one |
| TypeMapper.MapName | src/main.rs:227-229 | same length as the input, every `-` replaced by `_`, every other character kept, no `-` left |
| TypeMapper.MapNameIdempotent | deno/main.ts:232-234 | a hyphen-free name is unchanged, and sanitizing twice equals sanitizing once |
| TypeMapper.MapNameConcat | deno/main.ts:232-234 | sanitizing distributes over concatenation, so every hyphen is replaced, not only the first |
| TypeMapper.MapNameAtHyphen | deno/main.ts:232-234 | a hyphen between two parts becomes an underscore and both parts are sanitized |
| TypeMapper.MapNameCounts | src/main.rs:227-229 | underscores of the result are the input's underscores plus its hyphens; the result has no hyphen |
| Interfaces.Header | src/main.rs:64 | `export interface N {`; stated on examples by `GeneratedExamples.TileDataInterface` and `MainWindowInterface` |
| Interfaces.MemberLine | src/main.rs:66 | `  name: mapped;` with the type mapped against the current set; stated by `GeneratedExamples.UndeclaredImageLine`, `WindowLines` and `RustMain.StructSeesItself` |
| Interfaces.MemberLines | src/main.rs:65-67 | one `  name: mapped;` line per member, in member order |
| Interfaces.Renamed | src/main.rs:86 | the members keep their order and type text, with sanitized names |
| Interfaces.PropertyOf | src/main.rs:107-140 | `(name, type)` for a `property`, `(property, value)` for a `property_assignment`, nothing for other kinds; used by `BlockProperties` |
| Interfaces.BlockProperties | src/main.rs:105-144 | one member per property-like child, never more than the children; document order is stated by `BlockPropertiesConcat` and the loop by `RustMain.CollectProperties` |
| Interfaces.BlockPropertiesConcat | src/main.rs:106-144 | collecting properties distributes over concatenated children, so they come out in document order |
| Interfaces.ScannedBlock | src/main.rs:102-150 | the block scanned is the first `block` child with children; none exactly when there is no such child |
| Interfaces.FoldAppend | src/main.rs:26-52 | folding the per-node dispatch over concatenated node lists is folding over each part in turn, threading the declared names |
| RustMain.Zip | src/main.rs:179-182 | the i-th name is paired with the i-th type, and the length is that of the shorter list |
| RustMain.ExtractStructFields | src/main.rs:156-192 | the loop yields the zipped fields of the first `struct_block` of a struct, and nothing for any other node |
| RustMain.StructFieldsPairing | src/main.rs:170-183 | a struct's fields pair `name` and `type` children of its block position by position and truncate to the shorter list |
| RustMain.CollectProperties | src/main.rs:105-144 | with the unwrapped fields present, the inner loop yields `(name, type)` per `property` and `(property, value)` per `property_assignment`, in order, skipping other kinds |
| RustMain.ExtractComponentProperties | src/main.rs:91-154 | the component's properties are those of its scanned block; nothing for a node that is not a component |
| RustMain.StructName | src/main.rs:56-57 | the first `user_type_identifier` text, else `UnnamedStruct`; never fails; compared with the TypeScript choice by `Revisions.NamesAcrossRevisions` |
| RustMain.ComponentName | src/main.rs:77-78 | the first `user_type_identifier` text, else `UnnamedComponent`; never fails; shown by `Revisions.RustPrintsBareComponent` |
| RustMain.StructOutput | src/main.rs:54-69 | what `process_struct` prints and the grown set; tied to the code by `Translator.ProcessStruct`, its field lines stated by `StructSeesItself` |
| RustMain.ComponentOutput | src/main.rs:71-89 | what `process_component` prints, set unchanged; tied to the code by `Translator.ProcessComponent`, shown on an example by `GeneratedExamples.ForwardReferenceDegrades` |
| RustMain.Visit | src/main.rs:31-39 | the dispatch on a node's kind; tied to the code by `Translator.Dispatch` |
| RustMain.Subtree | src/main.rs:28-45 | a node's dispatch followed by the walk of its children; tied to the code by `Translator.ProcessSubtree` |
| RustMain.Walk | src/main.rs:26-52 | the sibling walk; tied to the code by `Translator.ProcessNode`, and a pre-order fold by `WalkIsPreOrderFold` and `WalkDeclares` |
| RustMain.Translator.constructor | src/main.rs:20-23 | the set of declared names starts empty and the output holds only the lint header |
| RustMain.Translator.PrintMembers | src/main.rs:65-67 | appends one member line per member and leaves the declared names unchanged |
| RustMain.Translator.ProcessStruct | src/main.rs:54-69 | adds the struct's name to the declared names before mapping, then appends header, unsanitized field lines, `}` |
| RustMain.Translator.ProcessComponent | src/main.rs:71-89 | appends header, sanitized property lines and `}`, and never adds to the declared names |
| RustMain.Translator.Dispatch | src/main.rs:31-39 | structs and components are processed, every other kind prints nothing |
| RustMain.Translator.ProcessSubtree | src/main.rs:28-45 | dispatches on the node, then walks its children, with output and names as the subtree specification says |
| RustMain.Translator.ProcessNode | src/main.rs:26-52 | the sibling loop appends exactly what the walk specification prints and leaves the declared names it computes |
| RustMain.TreeReadyEveryNode | src/main.rs:107-140 | the walk's precondition (fields present wherever the Rust code unwraps) holds exactly when every node of the tree meets it |
| RustMain.WalkIsPreOrderFold | src/main.rs:26-52 | the walk dispatches on every node exactly once, in pre-order, a node before its descendants |
| RustMain.WalkSilent | src/main.rs:26-52 | a forest with no struct and no component prints nothing and declares nothing |
| RustMain.LeafDeclaration | src/main.rs:26-52 | a declaration with nothing printable below it prints its own block, then the walk goes on with its siblings from the set it leaves |
| RustMain.TwoLeafDeclarations | src/main.rs:26-52 | two such declarations side by side print in file order, the second mapped against the set the first leaves |
| RustMain.WalkDeclares | src/main.rs:54-58 | after a walk the declared names are the old ones plus the name of every struct in the tree: the set only grows, and only structs add to it |
| RustMain.StructSeesItself | src/main.rs:56-66 | a field typed with the struct's own name (under any number of brackets) prints as that name plus one `[]` per layer |
| DenoMain.DeclName | deno/main.ts:70-71 | the name is the first `user_type_identifier` text when that is non-empty, otherwise the fallback; never empty when the fallback is not |
| DenoMain.PadZip | deno/main.ts:188-192 | exactly one entry per name, typed with the i-th type where there is one and `""` beyond the types |
| DenoMain.ExtractStructFields | deno/main.ts:168-199 | the loop appends the padded fields of every `struct_block` of a struct, in block order |
| DenoMain.DropCommas | deno/main.ts:135-137 | keeps exactly the argument texts that are not `","`, and no more of them than there were; order and repeats are stated by `DropCommasConcat` |
| DenoMain.DropCommasConcat | deno/main.ts:135-137 | filtering distributes over concatenation, so kept argument texts keep their order and repeats, which fixes the `argi` numbering |
| DenoMain.CallbackOf | deno/main.ts:129-144 | a callback's name (or `""`), its comma-free argument texts and its return type (or null); stated through `DropCommas`, `DropCommasConcat` and `SyntaxTree.FieldChild` |
| DenoMain.BlockCallbacks | deno/main.ts:127-159 | one callback per `callback` child, never more than the children; their document order is stated by `BlockCallbacksConcat` |
| DenoMain.BlockCallbacksConcat | deno/main.ts:127-159 | collecting callbacks distributes over concatenated children, so callbacks come out in document order |
| DenoMain.CollectMembers | deno/main.ts:126-159 | the inner loop yields the block's properties and its callbacks, each in document order; a missing field reads as `""` and a missing return type as null |
| DenoMain.ExtractComponentProperties | deno/main.ts:112-166 | the component's properties and callbacks are those of its scanned block |
| DenoMain.Decimal | deno/main.ts:101 | the index is rendered as at least one decimal digit |
| DenoMain.DecimalRoundTrip | deno/main.ts:101 | the rendered index reads back as that index and has no leading zero |
| DenoMain.ArgTexts | deno/main.ts:100-102 | the i-th entry is `argi: Ti` with `Ti` the mapped i-th argument type |
| DenoMain.Join | deno/main.ts:102 | `Array.prototype.join`; stated by `JoinAppend` and `ArgumentList` |
| DenoMain.JoinAppend | deno/main.ts:102 | joining two non-empty lists puts exactly one separator between their joins |
| DenoMain.VoidCallbackLine | deno/main.ts:103-106 | a callback without arguments and without (or with an empty) return type renders as `  name: () => void;` |
| DenoMain.ArgumentList | deno/main.ts:100-102 | the argument list is the earlier arguments joined by `, ` followed by the last one as `argN-1: TN-1` |
| DenoMain.ReturnText | deno/main.ts:103-105 | ` => T` for a non-empty return type, ` => void` for null or `""`; stated by `VoidCallbackLine` |
| DenoMain.CallbackLine | deno/main.ts:100-106 | one rendered callback line; stated by `VoidCallbackLine` and `ArgumentList` |
| DenoMain.CallbackLines | deno/main.ts:99-107 | one rendered line per callback, in callback order |
| DenoMain.TsStructOutput | deno/main.ts:65-81 | what `processStruct` prints and the grown set; tied to the code by `TsTranslator.ProcessStruct`, padded fields stated by `PaddedFieldIsAny` |
| DenoMain.TsComponentOutput | deno/main.ts:83-110 | what `processComponent` prints; tied to the code by `TsTranslator.ProcessComponent`, layout stated by `TsComponentLayout` and `TsComponentCallbacks` |
| DenoMain.TsVisit | deno/main.ts:44-56 | the `switch` on a node not diverted by `export`: only a struct prints; used by `TsWalkWithoutExports` |
| DenoMain.TsSubtree | deno/main.ts:40-61 | a node's dispatch followed by the walk of its children; tied to the code by `TsTranslator.ProcessSubtree` |
| DenoMain.TsExported | deno/main.ts:48-61 | the component after `export` and the walk of its children; tied to the code by `TsTranslator.ProcessExported` |
| DenoMain.TsWalk | deno/main.ts:36-63 | the sibling walk; tied to the code by `TsTranslator.ProcessNode`; on every forest, `export` nodes included, it is the fold over its stops (`TsWalkIsListingFold`) and declares exactly the listed structs (`TsWalkDeclares`) |
| DenoMain.TsTranslator.constructor | deno/main.ts:31-32 | the set of declared names starts empty and the output holds only the lint header |
| DenoMain.TsTranslator.PrintRenamed | deno/main.ts:96-98 | appends one line per member with sanitized name and mapped type; the declared names are unchanged |
| DenoMain.TsTranslator.PrintCallbacks | deno/main.ts:99-107 | appends one rendered line per callback; the declared names are unchanged |
| DenoMain.TsTranslator.ProcessStruct | deno/main.ts:65-81 | adds the struct's name before mapping, then appends header, sanitized field lines and `}` |
| DenoMain.TsTranslator.ProcessComponent | deno/main.ts:83-110 | appends header, property lines, callback lines, the `run` line and `}`, and never adds to the declared names |
| DenoMain.TsTranslator.ProcessSubtree | deno/main.ts:40-61 | a node not diverted by `export` is dispatched (only structs print), then its children are walked |
| DenoMain.TsTranslator.ProcessExported | deno/main.ts:48-55 | with the cursor moved onto the component, it is processed and its children are walked |
| DenoMain.TsTranslator.ProcessNode | deno/main.ts:36-63 | the sibling loop, stepping over `export` and its component together, appends exactly what the walk specification prints |
| DenoMain.StructBlocksFieldsConcat | deno/main.ts:176-194 | entries from every `struct_block` are appended, block after block |
| DenoMain.OneFieldPerName | deno/main.ts:182-192 | with one `struct_block`, a struct has exactly one field per `name` child, however many types there are |
| DenoMain.PaddedFieldIsAny | deno/main.ts:190 | a field whose type was padded with `""` prints as `any` |
| DenoMain.BareComponentSilent | deno/main.ts:44-55 | a `component_definition` not preceded by `export` prints nothing of its own |
| DenoMain.TsWalkSeen | deno/main.ts:70-72 | the walk only adds to the declared names and never adds the empty name |
| DenoMain.TsWalkQuiet | deno/main.ts:36-63 | a forest with no struct and no `export` prints nothing and declares nothing |
| DenoMain.TsListing | deno/main.ts:36-63 | the cursor's stops in order: an `export` followed by a component is one stop on that component, followed by the component's children, never the `export`'s own; every exported stop is a `component_definition` |
| DenoMain.StepOutput | deno/main.ts:44-55 | an exported component prints its interface; at any other stop only a struct prints |
| DenoMain.TsWalkIsListingFold | deno/main.ts:36-63 | on every forest the walk prints and declares what folding over its stops does: each exported component prints once, at the place of its `export`, in document order with the structs |
| DenoMain.TsWalkDeclares | deno/main.ts:70-72 | after a walk the declared names are exactly the old ones plus the name of every struct the cursor stops on |
| DenoMain.TsWalkWithoutExports | deno/main.ts:36-63 | without `export` nodes the walk is a fold over the pre-order listing: every struct prints once, in document order |
| DenoMain.TsComponentLayout | deno/main.ts:95-109 | a component interface opens with its header, lists every property in order and always ends with the `run` line and `}` |
| DenoMain.TsComponentCallbacks | deno/main.ts:99-107 | between the properties and the `run` line come exactly the callback lines, in order |
| Revisions.ZipPrefixOfPadZip | src/main.rs:179-182 | truncating is a prefix of padding, and the two agree exactly when there are at least as many types as names |
| Revisions.StructFieldsAcrossRevisions | deno/main.ts:182-192 | with one `struct_block`, the Rust fields are a prefix of the TypeScript ones, and equal exactly when no name lacks a type |
| Revisions.NamesAcrossRevisions | deno/main.ts:70-71 | the revisions choose the same declaration names except for an empty identifier, where only the TypeScript one falls back |
| Revisions.RustPrintsBareComponent | src/main.rs:35-37 | the Rust revision prints a component with no `export` before it |
| Revisions.TsPrintsOnlyExported | deno/main.ts:48-55 | a lone component prints only what its children print, and the same component behind `export` opens with its header (the general statement is `DenoMain.TsWalkIsListingFold`, where only exported stops print components) |
| GeneratedExamples.NestedArrays | src/main.rs:215-218 | `[[int]]` maps to `number[][]` |
| GeneratedExamples.ArrayOfDeclared | examples/memoryTypes.ts:9 | `[TileData]` maps to `TileData[]` once declared and to `any[]` before |
| GeneratedExamples.Hyphenated | src/main.rs:227-229 | joining two hyphen-free names with `-` sanitizes to joining them with `_` |
| GeneratedExamples.UndeclaredImageLine | examples/memoryTypes.ts:3 | a field typed with the undeclared name `image` prints as `any` |
| GeneratedExamples.SanitizedCpuData | examples/ui.ts:22 | `cpu-data` is printed as `cpu_data` |
| GeneratedExamples.TileDataFields | examples/memoryTypes.ts:2-6 | the struct's fields pair names and types in order, names not yet sanitized |
| GeneratedExamples.TileDataInterface | examples/memoryTypes.ts:2-6 | the `TileData` interface is printed exactly as in the example file |
| GeneratedExamples.MainWindowProperties | examples/memoryTypes.ts:8-9 | the block's two properties are collected in order; the callback is not a property |
| GeneratedExamples.MainWindowCallbacks | examples/memoryTypes.ts:10 | the callback is collected with no arguments and no return type |
| GeneratedExamples.CheckIfPairSolvedLine | examples/memoryTypes.ts:10 | the callback prints as `  check_if_pair_solved: () => void;` |
| GeneratedExamples.MainWindowInterface | examples/memoryTypes.ts:7-12 | the `MainWindow` interface is printed exactly as in the example file, ending with the `run` line |
| GeneratedExamples.MemoryGameOutput | examples/memoryTypes.ts:2-12 | walking the whole file prints exactly both interfaces, struct first, and declares only `TileData` |
| GeneratedExamples.CpuDataFields | examples/ui.ts:2-5 | the Rust revision names the struct `CPUData` and reads its two fields in order |
| GeneratedExamples.CpuDataLines | examples/ui.ts:3-4 | `int` and `bool` fields print as `number` and `boolean` |
| GeneratedExamples.WindowMembers | examples/ui.ts:20-22 | a property assignment contributes its value text, a property its type, in order |
| GeneratedExamples.WindowLines | examples/ui.ts:21-22 | an assigned value prints as `any`; `[CPUData]` prints as `CPUData[]` once declared |
| GeneratedExamples.ForwardReferenceWalk | src/main.rs:26-69 | walking a file with the component before the struct prints its `[CPUData]` property as `any[]`; with the struct first it prints `CPUData[]` |
| GeneratedExamples.ForwardReferenceDegrades | src/main.rs:219-223 | a reference to a struct declared later degrades to `any[]`, and resolves once the struct came first |

## Left out

- Both `main` functions: argument parsing, file reading, parser and grammar
  initialisation, `fetch` of the grammar, and printing to standard output.
  The lint-suppression header is the first line of the translator's output
  (the class constructors), and output is a sequence of lines.
- The tree-sitter parser and its `TreeCursor`: the tree is a finite
  immutable datatype, and the cursor's moves are loops over child sequences.
- UTF-8 decoding of node byte ranges: node text is a given string.
- The Rust `unwrap()` panics on missing fields are preconditions
  (`ComponentReady`, `TreeReady`) of the Rust methods, not modelled aborts.
  The Rust property specification reads a missing field as `""`, which is
  never reached under those preconditions.
- The cursor position after `children_by_field_name(.., &mut field_cursor)`
  depends on library code that is not part of this model. The Rust struct
  scan is modelled as ending at the first `struct_block`, which agrees with
  any cursor behaviour when a struct has at most one `struct_block`.
- `examples/memory.ts` (runtime, randomness, timers) is not part of this
  model. The generated files serve only as expected outputs.
