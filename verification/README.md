# Verification of facet's graph walks, macros and text algorithms

A Dafny model of the parts of facet whose correctness depends on whole runs rather
than on single lines: recursive walks over cyclic type metadata, a builder that
interns a cyclic graph, two template languages over token trees, and text algorithms
with an exact meaning. `dafny verify dfyconfig.toml` checks the whole project.

The code in the repository that works by mutation is modelled by classes and methods
with loops; each is proved against a specification function, and the theorems are
about that function. `Shapes`, `Tokens`, `Utf8` and `Wrappers` hold what several
modules share.

| module | what it models |
|---|---|
| `TaxonBridge` | `Builder`: interning the shapes reachable from a root into a dense batch, placeholder first |
| `Walk`, `WalkLaw`, `WalkTheory` | `walk_shape` with an arbitrary stateful visitor; the law of its trace, protocol, depth, exactness, completeness, order |
| `Replay` | the accessors, `resolve_leaf_field` and `format_with_shape`, replaying walked paths |
| `PluginEval`, `PluginLaws`, `DeriveStrip` | the plugin template evaluator with its context stack; what each directive emits; removal of `derive` items |
| `Template`, `TemplateText`, `TemplateEval`, `TemplateLaws` | the template parser; the printer and how its text reads back; the evaluator and what a template means |
| `Spans` | `format_unified` writing text and a span map |
| `StringText`, `Chunkiness` | raw literals, truncation, the saturating size estimate |
| `Worklist` | the loop that prints a type and its nested types |
| `Unescape`, `Rename` | the escape decoder; word splitting and case conversion |

A `&'static Shape` is an id, and the metadata is a finite map from ids to shapes, so
equal ids mean equal shapes. Cycles are ordinary edges of that graph.

## Where the model shows the code and its promises to differ

- `strip_derive_attrs` documents that attributes with nothing left, and
  `namespace::key` items, are removed (facet-macros-impl/src/plugin.rs:205-212). The
  code removes only items starting with `derive`; the branch that would drop an
  attribute cannot be reached, because the rebuilt body always has two tokens. An
  attribute is left as `#[facet()]` exactly when each of its items is empty or starts
  with `derive` (`DeriveStrip.EmptiedExactly`; `#[facet(derive(X))]` is one,
  `DeriveStrip.DeriveLeavesEmptyAttribute`), and tokens after the parenthesised group
  are lost exactly when there are any (`DeriveStrip.TrailingLost`).
- `\xNN` is documented as ASCII only (facet-macro-parse/src/unescaping.rs:178); every
  pair of digits is accepted (`Unescape.HexBeyondAscii`).
- The raw literal written by `format_str_value` has one hash too few: no string that
  contains a quote reads back from it (`StringText.EmittedEndsEarly`). What is written
  reads back exactly for strings without quotes and backslashes
  (`StringText.FormatStrValue`).
- An `@if` without `@else` followed by any other `@` is a parse error
  (facet-macro-template/src/parse.rs:161-175), so such templates are not in normal form.
- `Display` of a template does not always read back, because items are written with
  nothing in between. It does exactly when no item runs into the next one and no group
  lacks delimiters (`TemplateText.ParsedReadsBack`). Two joints fail: a variable before a
  word (`#a` and `b` give `#ab`, `TemplateText.DisplayIsAmbiguous`), and a word before a
  `#` (`r` and `#x` give the raw identifier `r#x`, `TemplateText.DisplayMakesRaw`).
- Paths through a set, an n-dimensional array or a `Result` are walked but cannot be
  replayed (`Replay.ReplayAgreement` gives the exact condition,
  `Replay.SetDoesNotReplay` an example).
- Snake case does not always undo Pascal or camel case; `Rename.SnakeUndoesPascal` and
  `Rename.SnakeUndoesCamel` say exactly when, `Rename.PascalLosesWords` and
  `Rename.CamelLosesWords` give names that are not recovered.

## Model

| member | source | states |
|---|---|---|
| TaxonBridge.Builder.RefOf | facet-core/src/taxon_bridge.rs:69-75 | the batch grew by exactly the undiscovered shapes below the stripped shape, depth first; earlier entries are untouched, new ones finished, and the answer is the number of the stripped shape |
| TaxonBridge.Builder.Intern | facet-core/src/taxon_bridge.rs:77-94 | the same for one shape, through the placeholder and the recursion back into it; it terminates by unseen keys, then pointer height |
| TaxonBridge.Builder.KindOf | facet-core/src/taxon_bridge.rs:96-148 | the kind returned is the translation of the shape against the final numbering |
| TaxonBridge.Builder.KindFromType | facet-core/src/taxon_bridge.rs:150-179 | the same for the type of a shape without a container definition |
| TaxonBridge.Builder.EnumVariants | facet-core/src/taxon_bridge.rs:203-213 | each variant gets its index, name and a payload that is stable under the later growth of the batch |
| TaxonBridge.SchemasOf | facet-core/src/taxon_bridge.rs:30-34 | the batch is the image of the discovery order from the root, and every entry says what its shape's metadata says: scalar, container with its element, length or variants, names, fields with their order and `required`, payload sorts, external labels |
| TaxonBridge.SchemaOf | facet-core/src/taxon_bridge.rs:42-45 | the root schema has number 0 and says what the metadata of the stripped root says |
| TaxonBridge.GrewTwice | facet-core/src/taxon_bridge.rs:77-94 | interning one list of children and then another is interning both: finished entries never change |
| TaxonBridge.GrewNew | facet-core/src/taxon_bridge.rs:83-93 | overwriting the placeholder after the recursion completes exactly that entry |
| TaxonBridge.TranslateStable | facet-core/src/taxon_bridge.rs:96-179 | a kind translated once stays right however many shapes are discovered later |
| TaxonBridge.DiscoverIsReachability | facet-core/src/taxon_bridge.rs:30-94 | entries are in bijection with the non-pointer shapes reachable from the root, and the root is entry 0 |
| TaxonBridge.DiscoverClosed | facet-core/src/taxon_bridge.rs:77-94 | every child of a discovered shape is discovered |
| TaxonBridge.DiscoverReached | facet-core/src/taxon_bridge.rs:77-94 | nothing unreachable is discovered |
| TaxonBridge.FaithfulImage | facet-core/src/taxon_bridge.rs:30-250 | ids are dense, no reference is out of range, entry i refers to entry j just when shape j is a stripped child of shape i, and no placeholder `Dynamic` survives |
| TaxonBridge.KindRefsTranslate | facet-core/src/taxon_bridge.rs:96-148 | the references inside a kind are the numbers of the stripped children, in order |
| TaxonBridge.TranslateFits | facet-core/src/taxon_bridge.rs:96-179 | the kind of a shape that is no pointer says what its metadata says, and refers to what its children denote |
| TaxonBridge.PayloadOfFits | facet-core/src/taxon_bridge.rs:215-241 | the sort of a payload is fixed by field count and struct kind, and its parts are the fields, in order |
| TaxonBridge.StripDenotes | facet-core/src/taxon_bridge.rs:252-262 | following pointers by metadata from a shape ends at its stripped shape, which is no pointer |
| TaxonBridge.PreorderNumbers | facet-core/src/taxon_bridge.rs:30-94 | following the batch's own references from entry 0, left to right and depth first, visits the entries in the order of their numbers |
| Walk.Walker.WalkRecursive | facet-path/src/walk.rs:93-130 | visitor state, callbacks, path and ancestors end as the pure walk says; the ancestor stack is restored even on a stop |
| Walk.Walker.WalkChildren | facet-path/src/walk.rs:146-313 | the loops with early returns visit exactly the edge list of the shape, in order |
| Walk.Walker.WalkVariants | facet-path/src/walk.rs:146-313 | the variant and field steps pushed around the nested loops are those of the edges |
| Walk.WalkShape | facet-path/src/walk.rs:82-91 | trace, final state and status obey the law of a walk, stated over the trace and the visitor alone |
| Walk.RunPrefixed | facet-path/src/walk.rs:170-310 | a step pushed once around a loop acts like the step pushed with every field |
| Walk.WalkIsLawful | facet-path/src/walk.rs:93-130 | each callback is the one that the trace before it and the visitor's decisions call for, and it ends when none is |
| WalkLaw.SkippedIsLeft | facet-path/src/walk.rs:101-123 | an `enter` decided `SkipChildren`, or `Recurse` on an open shape, is followed at once by the `leave` of the same path and shape |
| WalkLaw.StopIsLast | facet-path/src/walk.rs:101-123 | the walk is stopped if and only if its last callback was decided `Stop`, no earlier one was, and the final state is the visitor's |
| WalkLaw.AllChildren | facet-path/src/walk.rs:119-129 | when a node decided `Recurse` that is no cycle is left, the `enter`s directly below it were those of its edges, in order |
| WalkLaw.ChildrenSoFar | facet-path/src/walk.rs:119-129 | until then they are a prefix of its edges |
| WalkLaw.LawfulUnique | facet-path/src/walk.rs:93-130 | no other trace, state or status obeys the law |
| WalkLaw.EdgesAreChildren | facet-path/src/walk.rs:146-313 | the edges of a shape are exactly the children that its metadata gives it, an option before its type and the type before the container |
| WalkTheory.WalkProtocol | facet-path/src/walk.rs:82-130 | for every visitor: a completed walk is one well-nested word whose leaves match path and shape of their enters; a stopped one is such a word cut just after an enter |
| WalkTheory.WalkDepth | facet-path/src/walk.rs:93-130 | no path is longer than twice the number of ids |
| WalkTheory.EnteredHasRoute | facet-path/src/walk.rs:93-313 | whatever is entered lies at the end of a route that no cut interrupts, whatever the visitor does |
| WalkTheory.RouteIsEntered | facet-path/src/walk.rs:93-313 | with an always-Recurse visitor the end of every uncut route is entered |
| WalkTheory.ExactWalk | facet-path/src/walk.rs:93-313 | with an always-Recurse visitor a path is entered just when it is a route whose proper ancestors are pairwise distinct |
| WalkTheory.Shortcut | facet-path/src/walk.rs:99-129 | every route can be shortened to one that is not cut, with the same end |
| WalkTheory.CompleteWalk | facet-path/src/walk.rs:99-129 | every shape reachable from the root is entered, although revisited ancestors are not expanded |
| WalkTheory.WalkOrdered | facet-path/src/lib.rs:82-149 | for any visitor the entered paths are strictly increasing in the derived order, so none is entered twice |
| WalkTheory.ForksLess | facet-path/src/lib.rs:133-149 | paths that part at a step compare as the steps do, whatever follows |
| WalkTheory.PathOrder | facet-path/src/lib.rs:82-149 | the order of paths is total and transitive |
| Replay.RouteReplays | facet-path/src/lib.rs:383-481 | a route replays to the shape at its end just when it crosses no lossy container, and fails otherwise |
| Replay.ReplayAgreement | facet-path/src/lib.rs:313-481 | a path entered under any visitor replays to the shape entered just when it crosses no set, n-dimensional array or `Result` |
| Replay.LenientTracksStrict | facet-path/src/lib.rs:211-299 | the navigator of `format_with_shape` is on the strict one's shape as long as that one succeeds |
| Replay.ResolveLeafField | facet-path/src/lib.rs:313-374 | the loop finds the field that the strict navigation of all but the last step leads to, and nothing in every other case |
| Replay.LeafFieldOfRoute | facet-path/src/lib.rs:313-374 | on a walked path ending in a field it is the very field the walk went through, and nothing exactly when the path is lossy or does not end in a field |
| Replay.FormatWithShape | facet-path/src/lib.rs:211-299 | the loop appends one text per step, seen from the lenient cursor |
| Replay.FormatEdge | facet-path/src/lib.rs:211-299 | an edge formats as its field, variant or element text and leaves the navigator on the child |
| Replay.FormatRoute | facet-path/src/lib.rs:211-299 | a route that crosses nothing lossy formats as the names of its edges, one after the other |
| Replay.FormatEntered | facet-path/src/lib.rs:211-299 | so does every path entered by the walk, under any visitor |
| Replay.IndexText | facet-path/src/lib.rs:235-275 | after any path, an element, map key or map value step appends its own index, in decimal |
| Replay.OtherText | facet-path/src/lib.rs:262-290 | the step into an option appends its name, and the pointer, inner and proxy steps nothing |
| Replay.SetDoesNotReplay | facet-path/src/lib.rs:417-425 | in the graph of a set of bytes the walk enters the element, and its path does not replay |
| PluginEval.PushSetsOneSlot | facet-macros-impl/src/plugin.rs:637-668 | pushing a frame overwrites one of the three slots the stack stands for |
| PluginEval.EvalContext.EvaluateWithContext | facet-macros-impl/src/plugin.rs:772-794 | the stack machine emits what the pure evaluator with three slots emits, and leaves the stack as it was |
| PluginEval.EvalContext.HandleDirective | facet-macros-impl/src/plugin.rs:797-861 | after `@`: the emitted tokens, the consumed tokens and the unchanged stack, for every directive and every malformed one |
| PluginEval.EvalContext.HandleForVariant | facet-macros-impl/src/plugin.rs:916-938 | the body once in each variant's environment |
| PluginEval.EvalContext.HandleForField | facet-macros-impl/src/plugin.rs:941-969 | the body once in each field's environment, from the innermost context |
| PluginEval.EvalContext.HandleIfAttr | facet-macros-impl/src/plugin.rs:972-1002 | the body under the first attribute that matches, field before variant before container |
| PluginEval.EvalContext.HandleIfFieldAttr | facet-macros-impl/src/plugin.rs:1005-1045 | the body under the first field that has a match, with both slots bound |
| PluginEval.EvalContext.HandleIfAnyFieldAttr | facet-macros-impl/src/plugin.rs:1048-1078 | the body once, unbound, when some field has a match |
| PluginEval.EvalContext.HandleCondition | facet-macros-impl/src/plugin.rs:1081-1170 | the body once or not at all, by the kind of the type or of the current variant |
| PluginEval.Shadowed | facet-macros-impl/src/plugin.rs:646-668 | a frame is invisible below another of its sort, wherever they stand in the stack |
| PluginEval.ExpandIdentity | facet-macros-impl/src/plugin.rs:772-794 | a template with no `@` at any depth is emitted unchanged |
| PluginEval.ExpandIgnoresAttr | facet-macros-impl/src/plugin.rs:772-1078 | a template that never mentions `attr_args` cannot tell which attribute matched |
| PluginLaws.IfAttrAsksInnermost | facet-macros-impl/src/plugin.rs:693-710 | `@if_attr` asks the field if there is one, else the variant, else the type, and emits its body with the first match bound, or nothing |
| PluginLaws.DocIsInnermost | facet-macros-impl/src/plugin.rs:1316-1322 | `@doc` is the documentation of the same innermost thing |
| PluginLaws.OuterIsHidden | facet-macros-impl/src/plugin.rs:693-710 | inside a field neither depends on the variant or the type, inside a variant neither depends on the type |
| PluginLaws.ForFieldVisits | facet-macros-impl/src/plugin.rs:941-969 | `@for_field` visits the fields of the variant in scope, else of the struct, in order and with their index |
| PluginLaws.ForVariantVisits | facet-macros-impl/src/plugin.rs:916-938 | `@for_variant` visits every variant of an enum, in order, and nothing of a struct |
| PluginLaws.ConditionEmits | facet-macros-impl/src/plugin.rs:1081-1170 | each of the five conditionals emits its body exactly for its kind of type or variant |
| PluginLaws.FieldAttrFindsFirst | facet-macros-impl/src/plugin.rs:1005-1078 | the first field with a match is found, with its first match; it is bound by one directive and not by the other |
| PluginLaws.FieldAttrFindsNone | facet-macros-impl/src/plugin.rs:1005-1078 | both emit nothing when no field has a match |
| PluginLaws.QueryBlockNothing | facet-macros-impl/src/plugin.rs:724-747 | a query that is not `ns::key`, or fields where there are none, emit nothing |
| PluginLaws.EmitterEmits | facet-macros-impl/src/plugin.rs:867-1472 | what each directive without a body emits, from the type, variant, field and attribute in scope: names, patterns, defaults and format strings |
| PluginLaws.PatternOnlyEmits | facet-macros-impl/src/plugin.rs:1220-1276 | the pattern binds exactly the fields with a match and ignores the others |
| DeriveStrip.StripDeriveAttrs | facet-macros-impl/src/plugin.rs:213-245 | position by position the input with the facet attributes filtered; none is dropped |
| DeriveStrip.StripContent | facet-macros-impl/src/plugin.rs:290-330 | the loop with its pending item computes cut, filter and join |
| DeriveStrip.SegmentsRebuild | facet-macros-impl/src/plugin.rs:290-330 | the stretches that content is cut into, with the commas put back, are the content |
| DeriveStrip.StrippedItems | facet-macros-impl/src/plugin.rs:290-330 | the remaining items are exactly those that do not start with `derive`, in order |
| DeriveStrip.StripIdempotent | facet-macros-impl/src/plugin.rs:213-330 | stripping twice is stripping once |
| DeriveStrip.StripLeavesNoDerive | facet-macros-impl/src/plugin.rs:213-353 | no top-level facet attribute of the result has an item starting with `derive` |
| DeriveStrip.EmptiedExactly | facet-macros-impl/src/plugin.rs:205-330 | an attribute is left as `#[facet()]` if and only if each item is empty or starts with `derive` |
| DeriveStrip.TrailingLost | facet-macros-impl/src/plugin.rs:253-283 | an attribute is treated as if nothing stood after its parenthesised group, and gets shorter exactly when something did |
| DeriveStrip.DeriveLeavesEmptyAttribute | facet-macros-impl/src/plugin.rs:213-283 | `#[facet(derive(X))]` becomes `#[facet()]` |
| Template.ParseTemplate | facet-macro-template/src/parse.rs:8-84 | the loop with its literal accumulator computes the parsing function, error for error |
| Template.ParseForFrom | facet-macro-template/src/parse.rs:86-130 | a loop header and body, and what is left in the iterator |
| Template.ParseIfFrom | facet-macro-template/src/parse.rs:132-195 | condition, body and optional else, and what is left in the iterator |
| Template.ParsePrints | facet-macro-template/src/parse.rs:8-195 | no token is changed, lost or reordered: the parsed items, spelled out token by token, are the consumed tokens |
| Template.PrintParses | facet-macro-template/src/parse.rs:8-195 | parsing the tokens of a normal-form template gives that template |
| Template.RoundTrip | facet-macro-template/src/parse.rs:8-195 | parse succeeds with a template if and only if that template is in normal form and the input is its tokens |
| Template.Parse | facet-macro-template/src/parse.rs:8-195 | an error is reported only when the input is the tokens of no normal-form template |
| TemplateText.Formatter.WriteTemplate | facet-macro-template/src/ast.rs:56-63 | the formatter gets the text of the items, one after the other with nothing between |
| TemplateText.Formatter.WriteItem | facet-macro-template/src/ast.rs:65-87 | the text of one item, its bodies included |
| TemplateText.DisplayReads | facet-macro-template/src/ast.rs:56-87 | the displayed text of a normal-form template reads as its tokens if and only if no item, at any depth, runs into the next one and no group lacks delimiters |
| TemplateText.TextRoundTrip | facet-macro-template/src/ast.rs:56-87 | displaying, reading and parsing gives the template back under exactly that condition |
| TemplateText.ParsedReadsBack | facet-macro-template/src/ast.rs:56-87 | whenever parsing succeeds, the displayed template reads as the original tokens under exactly that condition |
| TemplateText.ShowReads | facet-macro-template/src/ast.rs:68-70 | a token stream shown as text reads back, unless its last token clashes with the next character, and then it does not |
| TemplateText.DisplayIsAmbiguous | facet-macro-template/src/ast.rs:71 | two different normal-form templates are displayed as `#ab` |
| TemplateText.DisplayMakesRaw | facet-macro-template/src/ast.rs:70-71 | `r` before `#x` is displayed as `r#x`, which reads as one raw identifier |
| TemplateEval.EvaluateTemplate | facet-macro-template/src/eval.rs:38-47 | the loop gives the first error or panic, or all outputs in order |
| TemplateEval.EvaluateItem | facet-macro-template/src/eval.rs:50-102 | variables, loops over child contexts that leave the parent alone, and conditions |
| TemplateEval.EvaluateExpr | facet-macro-template/src/eval.rs:105-168 | the loop over members, calls and indices computes the step function, error for error |
| TemplateEval.Coincidence | facet-macro-template/src/eval.rs:38-168 | contexts that agree on the free variables give the same tokens, error or panic, through shadowing and swallowed errors |
| TemplateEval.RenamedItems | facet-macro-template/src/eval.rs:38-168 | renaming a free variable in template and context keeps the outcome, but for the name in one error |
| TemplateEval.RenameBinding | facet-macro-template/src/eval.rs:67-88 | a loop variable can be renamed to any name its body does not use |
| TemplateLaws.IfTrue | facet-macro-template/src/eval.rs:90-99 | an `@if` whose condition interpolates to tokens that read as neither `false` nor nothing stands for its body, in any template |
| TemplateLaws.IfFalse | facet-macro-template/src/eval.rs:90-99 | one that reads as `false` or nothing, or fails, stands for its else body, or nothing |
| TemplateLaws.IfPanics | facet-macro-template/src/eval.rs:229-238 | a panic in the condition is not caught |
| TemplateLaws.IfBoolean | facet-macro-template/src/eval.rs:90-99 | on a boolean variable the then body stands for true and the else body for false |
| TemplateLaws.IfHasAttr | facet-macro-template/src/eval.rs:171-197 | on `has_attr` the then body stands exactly for a value that carries the attribute |
| TemplateLaws.SizeMethods | facet-macro-template/src/eval.rs:198-213 | `is_empty` and `len` agree with the size of lists and strings, and `len` of anything else fails |
| TemplateLaws.ForInOrder | facet-macro-template/src/eval.rs:67-88 | a loop over a list is its body for each element, in order, up to the first that fails |
| TemplateLaws.VariableIsValue | facet-macro-template/src/eval.rs:54-65 | a variable is interpolated as its value, or fails with its name |
| TemplateLaws.MemberIsValue | facet-macro-template/src/eval.rs:119-143 | an expression goes on from the member that it names |
| TemplateLaws.ElementIsValue | facet-macro-template/src/eval.rs:144-160 | an index selects that element of a list, or is out of bounds |
| Spans.SpanPrinter.FormatUnified | facet-pretty/src/printer.rs:1691-2168 | the printer appends and records what the layout of the value says, in that order |
| Spans.FormatPeekWithSpans | facet-pretty/src/printer.rs:1664-1684 | the text is the one that the constructors of the value allow; when names and scalar keys tell siblings apart, the span map has exactly one entry for each node path, and both spans show that node's key and text |
| Spans.EmitText | facet-pretty/src/printer.rs:1691-2168 | exactly the rendering is appended |
| Spans.PrintsRender | facet-pretty/src/printer.rs:1691-2168 | constructor by constructor, the fixed text around and between the texts of the parts, inline or over several indented lines, and no other text |
| Spans.EmitPrints | facet-pretty/src/printer.rs:1691-2168 | wherever a value is printed, that text is appended |
| Spans.EmitSettles | facet-pretty/src/printer.rs:2316-2340 | despite repeated overwriting, each node path ends with its own spans and every other path below it is as before |
| Spans.EmitFramed | facet-pretty/src/printer.rs:1691-2168 | printing at a path touches only that path, what is below it, and the empty path |
| Spans.LocateShows | facet-pretty/src/printer.rs:1691-2168 | where a node is located, the rendering holds that node's key and text |
| Spans.LocateDisjoint | facet-pretty/src/printer.rs:1691-2168 | nodes on diverging paths have disjoint spans |
| Spans.LocateOrdered | facet-pretty/src/printer.rs:1691-2168 | of two nodes on diverging paths, at any depth, the one declared first is entirely written before the other's key begins |
| Spans.SiblingsInOrder | facet-pretty/src/printer.rs:1691-2168 | whatever lies at or below an earlier field, element or entry is written before the key of whatever lies at or below a later one |
| Spans.LocateNested | facet-pretty/src/printer.rs:1691-2168 | a node below another is written, key included, inside its value |
| StringText.ScanHashes | facet-pretty/src/printer.rs:1475-1487 | the scan finds the least hash count at which the raw literal reads back as the string |
| StringText.RawRoundTrip | facet-pretty/src/printer.rs:1475-1500 | a raw literal reads back as its body if and only if it has at least that many hashes |
| StringText.NeededIsLeast | facet-pretty/src/printer.rs:1475-1487 | the body can close early at a width just when the width is smaller than the scanned count |
| StringText.EmittedEndsEarly | facet-pretty/src/printer.rs:1487-1500 | the width that is written, one fewer, never reads back |
| StringText.FormatStrValue | facet-pretty/src/printer.rs:1466-1502 | within the limit the text reads back as the value if and only if the value has no quote and no backslash; beyond it, the text shows a start and an end of the value of at most max + 3 bytes and counts the characters between |
| StringText.CutsInOrder | facet-pretty/src/printer.rs:1505-1524 | the two cut points never cross |
| StringText.CutRebuilds | facet-pretty/src/printer.rs:1505-1527 | both parts and the middle rebuild the string, and the count is the middle's character count |
| StringText.CutIsTight | facet-pretty/src/printer.rs:1505-1524 | at most max + 3 bytes are kept, and neither part could have been one character longer within its rule |
| Chunkiness.ShapeChunkiness | facet-pretty/src/printer.rs:270-309 | the nested saturating operations give the exact count, cut off at the largest `usize` |
| Chunkiness.EnumIsLargest | facet-pretty/src/printer.rs:290-302 | an enum counts as much as its largest variant |
| Chunkiness.FieldsAddUp | facet-pretty/src/printer.rs:283-289 | a struct counts the sum of its fields |
| Worklist.ShapeWriter.FormatShape | facet-pretty/src/shape.rs:949-1021 | the loop ends; from a struct or enum root with expansion it defines each reachable type exactly once, otherwise the root or nothing |
| Worklist.ShapeWriter.CollectFromShape | facet-pretty/src/shape.rs:1321-1337 | the user types found through containers are queued, in order |
| Worklist.CollectedIs | facet-pretty/src/shape.rs:1321-1337 | collecting finds exactly the structs and enums reached through lists, arrays, options and maps alone |
| Worklist.ExpansionIs | facet-pretty/src/shape.rs:984-1006 | expanding a type finds exactly those within the shapes of its fields, of every variant for an enum |
| Worklist.OneSeparatorFewer | facet-pretty/src/shape.rs:964-968 | the output has the definitions in order and exactly one separator fewer |
| Worklist.WorkingDefine | facet-pretty/src/shape.rs:982-1002 | writing a type and queueing its expansion keeps what the loop knows, although the queue may hold duplicates |
| Worklist.WorkingDone | facet-pretty/src/shape.rs:949-1021 | with an empty queue every reachable type has been written |
| Unescape.UnescapeInner | facet-macro-parse/src/unescaping.rs:180-219 | the loop gives the decoding, or the error with its backslash index |
| Unescape.ParseHexEscape | facet-macro-parse/src/unescaping.rs:91-111 | two hex digits or nothing; the `u8` accumulator never overflows |
| Unescape.ParseUnicodeEscape | facet-macro-parse/src/unescaping.rs:114-166 | a braced group of one to six hex digits naming a scalar value, or nothing; the `u32` accumulator never overflows |
| Unescape.DecodeIsGrammar | facet-macro-parse/src/unescaping.rs:168-219 | the decoder answers t if and only if the escape grammar derives the input from t |
| Unescape.SpellingsUnique | facet-macro-parse/src/unescaping.rs:168-219 | the grammar is unambiguous |
| Unescape.ErrorPosition | facet-macro-parse/src/unescaping.rs:8-39 | an error points at a backslash, and the text before it decodes |
| Unescape.DecodeShrinks | facet-macro-parse/src/unescaping.rs:180-219 | the output never has more bytes than the input |
| Unescape.DecodeFixes | facet-macro-parse/src/unescaping.rs:180-219 | decoding leaves a text alone if and only if it has no backslash, and shortens every other one |
| Unescape.SimpleEscapes | facet-macro-parse/src/unescaping.rs:187-193 | the character of each of the seven escapes of one letter |
| Unescape.DigitIs | facet-macro-parse/src/unescaping.rs:91-111 | a hex digit has its place among the sixteen, in either case |
| Unescape.HexBeyondAscii | facet-macro-parse/src/unescaping.rs:91-111 | every two-digit escape is accepted; the result is ASCII just when the first digit is below 8 |
| Rename.SplitIntoWords | facet-macro-types/src/renamerule.rs:155-203 | the loop computes the words |
| Rename.WordsAreCutAtBoundaries | facet-macro-types/src/renamerule.rs:155-203 | words are cut exactly at separators and at the stated case boundaries |
| Rename.WordsKeepText | facet-macro-types/src/renamerule.rs:155-203 | words concatenate to the input without separators, and are non-empty and separator-free |
| Rename.SnakeAndKebab | facet-macro-types/src/renamerule.rs:87-115 | snake and kebab are idempotent and absorb each other |
| Rename.SnakeUndoesPascal | facet-macro-types/src/renamerule.rs:55-95 | snake case undoes Pascal case if and only if neighbouring words can be told apart |
| Rename.SnakeUndoesCamel | facet-macro-types/src/renamerule.rs:71-95 | the same for camel case, whose first word is small |
| Rename.PascalLosesWords | facet-macro-types/src/renamerule.rs:55-95 | `a_b` becomes `AB`, and snake case of that is `ab` |
| Rename.CamelLosesWords | facet-macro-types/src/renamerule.rs:71-95 | `a_1` becomes `a1`, and snake case of that is `a1` |
| Rename.RulesKeepLetters | facet-macro-types/src/renamerule.rs:40-145 | the screaming rules are the upper case of the quiet ones, and lower, Pascal and camel case keep exactly the non-separator characters, wherever words are cut |
| Rename.OrdinaryNames | facet-macro-types/src/renamerule.rs:55-95 | both are undone for words that start with a letter and have two or more letters and digits |

## Left out

- Shape graphs that Rust cannot express: pointer chains (`TaxonBridge`), container chains (`Worklist`) and, for `Chunkiness`, whole shapes are assumed well founded, by a ghost rank.
- Field and variant counts of 2^32 and more: the order and replay theorems assume counts that fit the `as u32` casts; the walk itself models the casts.
- `taxon::resolve_ids` and the content hashes of schemas; schema ids are naturals, not `u64`.
- Raw pointers, vtables and proxies as code: a proxy is a value or shape of its own.
- Replay.FormatWithShape: a path is its steps alone; the root shape that a `Path` stores beside them is a parameter.
- PluginEval.EvalContext.EvaluateWithContext: evaluation starts from parsed plugin sections; `quote!` code generation, the section parser and the unsynn grammar are not modelled.
- Tokens: spans and punctuation spacing; a literal made from a string value is kept unescaped.
- TemplateText.DisplayReads: the text of tokens is the one with a space after every token but the last; identifiers are ASCII, raw ones included. Lifetimes, character, raw and byte literals, and exponents are outside `Lexical`; which words may not touch `#` or a quote depends on the edition and is a parameter.
- TemplateEval.EvaluateItem: how tokens read as text is a parameter; parsed structs, enums, variants and fields are their name tokens, members and attributes; `usize` has 64 bits.
- Spans.FormatPeekWithSpans: span claims are made when map keys are scalars with distinct texts, because keys are formatted at the empty path and a compound key can overwrite root entries; the text of scalars and type names is a parameter of the value.
- Spans.SpanPrinter.FormatUnified: values are trees; the `visited` map and its cycle branch are not modelled, because a hit removes the ancestor's own entry and printing a cyclic value need not end as one rendering.
- StringText.FormatStrValue: colours; `format_string` and `format_bytes`.
- Worklist.ShapeWriter.FormatShape: a definition is one chunk, so its text, its field spans and the colours are not modelled; `queue` and `printed`, local to the loop, are fields here so that the collecting calls can push to the queue.
- Rename.SplitIntoWords: case tests and case mapping are ASCII; the whitespace test is the full Unicode one. SCREAMING case is not claimed to be idempotent, since digits split again.
- `Partial`, `Peek`, `Poke` and the solver: they are not part of this model.
