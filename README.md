# Live-document registry and code-editor session, modelled in Dafny

This project models two parts of the makepad code base.

**The live-document registry** (`render/live_parser/src/liveregistry.rs`) is a
small linker and macro expander for makepad's declarative "live" language.
A parsed file is a `LiveDocument`: nodes stored level by level (level 0 holds
the top-level declarations; a container's children form a contiguous span on
the next level), plus tables of interned strings, tokens, captured scopes and
path ids. The registry keeps:

- the registered files and their expanded documents, as parallel vectors
  indexed by file id;
- a map from crate-module to file id;
- a dependency order: each `use` a parse sees moves the imported module in
  front of the module being parsed. Only that pair is put in order, so an
  import recorded earlier can end up behind its importer
  (`DepOrder.ReorderIsLocal`);
- a dependency graph, giving for each module the set of modules it imports.

`parse_live_file` stores a parsed document, repairs the order and marks the
module and its dependents dirty. `expand_all_documents` then rebuilds every
dirty document. The expansion walk resolves identifiers against a stack of
scope frames. It expands a class by deep-copying its base (`copy_recur`) and
then writing the overrides on top at the same positions. Errors are appended
to a list and never stop the walk.

**The code editor's session state** (`code_editor/src/state.rs`) covers:

- bracket matching by depth-counting scans across lines;
- re-indentation as the smallest edit;
- the tab-stop arithmetic of `tab`, `indent` and `outdent`;
- the fold sets that `fold` and `unfold` move lines between;
- the per-line layout vectors that `apply_edits` splices and drains.

Files:

| file | module | models |
|---|---|---|
| `wrappers.dfy` | `Wrappers` | `Option` and `Result` |
| `ids.dfy` | `LiveIds` | ids, `IdPack`, crate-modules, pointers, `is_baseclass` |
| `document.dfy` | `LiveDocs` | nodes, values, documents, errors, and the document helpers the registry calls (`push_node`, `get_level_len`, `write_or_add_node`, `scan_for_multi_for_expand`, `fetch_crate_module`, `clone_multi_id`, `restart_from`) |
| `scopes.dfy` | `Scopes` | `ScopeStack::find_item` |
| `deporder.dfy` | `DepOrder` | the dependency order and the dirty closure, as values |
| `copy.dfy` | `Copy` | `copy_recur`, `clone_scope` |
| `resolve.dfy` | `Resolve` | `resolve_id` |
| `walk.dfy` | `Walk` | `walk_node` and the walker's `write_or_add_node` |
| `registry.dfy` | `Registry` | `LiveRegistry` as a class: `parse_live_file`, `mark_dirty`, `expand_all_documents`, the `find_*` lookups |
| `brackets.dfy` | `Brackets` | `find_enclosing_opening_bracket`, `find_enclosing_closing_bracket`, `find_enclosing_brackets` |
| `indentation.dfy` | `Indentation` | `reindent`, `new_indentation`, tab / indent / outdent arithmetic |
| `session.dfy` | `EditorSession` | `Session::{new, fold, unfold, set_wrap_column, apply_edits}` |

Some helpers are called by the registry but defined elsewhere in the crate:
`push_node`, `write_or_add_node`, `scan_for_multi`, `scan_for_multi_for_expand`,
`fetch_crate_module`, `clone_multi_id`, `restart_from` and `LiveDocument::new`
(taken to give an empty document still marked for recompilation). The model gives each
of them a definition that follows the behaviour the registry relies on, with
its own contract. Those definitions live in `LiveDocs` and are marked as such.

The source panics in several places: an index out of range, an `unwrap` on a
missing module, `panic!()` on an empty middle segment of a `use` path, and
`len() - 1` on an empty scope stack. Callers cannot rule these out, so the
model does not turn them into preconditions. It gives them an outcome instead:
the methods return `ok == false`, and the functions return `None` or the
`Panic` resolution. Every contract then speaks of the non-panicking runs.

## Model

| member | source | states |
|---|---|---|
| `LiveDocs.PushNode` | render/live_parser/src/liveregistry.rs:355-364 | `push_node` appends exactly one node to the named level (creating missing levels) and leaves every other level and every table unchanged; the result extends the input |
| `LiveDocs.RestartFrom` | render/live_parser/src/liveregistry.rs:1158-1161 | the reused expanded document is emptied of nodes and scopes and re-seeded with the raw document's strings, tokens and path ids, keeping its dirty flag |
| `LiveDocs.FetchCrateModule` | render/live_parser/src/liveregistry.rs:233-234 | a `use crate::m` import resolves to the importing crate; any other import keeps its crate; the module id is kept |
| `LiveDocs.CloneMultiId` | render/live_parser/src/liveregistry.rs:490-495 | a path id copied from another document has its segments appended to the output's path table, with the new start at the old table length and the same count; any other id and table are unchanged |
| `LiveDocs.FindInSpan` | render/live_parser/src/liveregistry.rs:518-519 | returns the first index in `[start, start+count)` whose node carries the wanted id, and `None` exactly when no node in the span does |
| `LiveDocs.ScanPath` | render/live_parser/src/liveregistry.rs:88-92 | a found path ends on level `level + |path| - 1`, at an in-range node carrying the path's last segment; the empty path is an error |
| `LiveDocs.ScanForMultiForExpand` | render/live_parser/src/liveregistry.rs:555-556 | a path whose ids run past the table is an error, and so is a path with no segment after its head; a found node is in range, lies `count - 2` levels down and carries the last segment |
| `LiveDocs.WriteOrAddNode` | render/live_parser/src/liveregistry.rs:518-536 | when a node in the span carries the incoming id, that entry's value is overwritten in place and `None` is returned; otherwise the node is appended and `Some(old level length)` is returned; no other level and no table changes |
| `Scopes.FindItem` | render/live_parser/src/liveregistry.rs:283-292 | the reverse scan over frames and bindings returns exactly the reference lookup `FindItemSpec` (innermost frame that binds the id, its latest binding) |
| `Scopes.FindItemNoneIff` | render/live_parser/src/liveregistry.rs:283-292 | the lookup returns `None` if and only if no frame binds the id |
| `Scopes.FindItemFindsVisible` | render/live_parser/src/liveregistry.rs:283-292 | a successful lookup returns the target of the binding that no later binding in its frame and no binding in an inner frame shadows |
| `Scopes.PushShadows` | render/live_parser/src/liveregistry.rs:520-528 | a binding pushed onto the innermost frame is the one a later lookup of its id returns |
| `DepOrder.Position` | render/live_parser/src/liveregistry.rs:202 | `position` finds the first entry of the module, and `None` exactly when the order lacks it |
| `DepOrder.Reorder` | render/live_parser/src/liveregistry.rs:236-245 | an import already at or before the importing module leaves the order untouched |
| `DepOrder.ReorderKeepsOrder` | render/live_parser/src/liveregistry.rs:236-245 | one `use` keeps the order free of duplicates, adds exactly the imported module to its modules, puts it strictly before the importing module, and keeps every module that was before the importer before it |
| `DepOrder.ReorderIsLocal` | render/live_parser/src/liveregistry.rs:236-245 | the repair only orders the importer against what it imports: with `c` importing `e` and the order `[b, e, c]`, a `use c` in `b` yields `[c, b, e]`, which puts `c` in front of `e` |
| `DepOrder.DependentsClosed` | render/live_parser/src/liveregistry.rs:209-224 | the set `mark_dirty` reaches contains the module and every module importing any member of the set |
| `DepOrder.DependentsReach` | render/live_parser/src/liveregistry.rs:209-224 | every module in that set reaches the re-parsed module through a chain of imports |
| `Copy.RelocateAllMeaning` | render/live_parser/src/liveregistry.rs:325-346 | relocated captures keep their ids and count; a local capture becomes a full pointer into the source file, a full capture is unchanged |
| `Copy.AppendRange` | render/live_parser/src/liveregistry.rs:421-424 | the copy loop appends exactly the run `[start, start+count)` of the source table, and fails exactly when that run leaves the table |
| `Copy.CloneScope` | render/live_parser/src/liveregistry.rs:325-346 | appends exactly `count` relocated captures to the output's scope table and changes nothing else; fails exactly when the run leaves the source table |
| `Copy.CopyRecur` | render/live_parser/src/liveregistry.rs:302-512 | the output only grows and levels above `out_level` are untouched. `out_level` gains `EmittedRoot`: a container with its child span starting at the old length of the next level and its count unchanged; nothing for `Use`, for a `Self`-based class, or for a class on the skip level; otherwise the node verbatim, renamed to `skip_level_id` on the skip level. Returns `IsClass` exactly for a class not based on `Self`. For a container, the new part of the next level carries, in order, the token and id of every node its child span emits (`ChildHeads`). A leaf copied from another file appends its string, token and scope runs and points at the new starts; a same-document copy changes no table |
| `Copy.CopyContainer` | render/live_parser/src/liveregistry.rs:349-417 | the children are copied first: the new part of the next level carries exactly the tokens and ids the child span emits, in order (`ChildHeads`); then one node is appended whose span starts where that new part starts and keeps the count (none for a class on the skip level) |
| `Copy.CopyChildren` | render/live_parser/src/liveregistry.rs:351-353 | the loop over a child span fails when the span leaves the source level, and otherwise appends to its level exactly the tokens and ids `ChildHeads` gives, leaving lower levels alone |
| `Copy.CopyChild` | render/live_parser/src/liveregistry.rs:351-353 | one turn of the child loop fails when the child lies past the source level; otherwise the tokens and ids the earlier children emitted stay in place and this child's `ChildHeads` entry follows them, and lower levels are untouched |
| `Copy.EmittedRootHead` | render/live_parser/src/liveregistry.rs:355-414 | what one node emits carries the node's token and its id (renamed on the skip level), and is empty exactly when the node emits nothing (`Emits`) |
| `Copy.CopyStr` | render/live_parser/src/liveregistry.rs:419-439 | from another file the string run is appended and the copy starts at the old string-table length; from the same document the span is kept |
| `Copy.CopyBody` | render/live_parser/src/liveregistry.rs:440-452 | from another file exactly `token_count` tokens and `scope_count` relocated captures are appended and their old table lengths returned as the new starts; from the same document nothing changes and the old starts are kept |
| `Copy.CopyFnOrVar` | render/live_parser/src/liveregistry.rs:440-489 | a function or variable body is copied with its relocated token and scope runs, and one node pointing at them is emitted |
| `Copy.CopyResourceRef` | render/live_parser/src/liveregistry.rs:490-505 | a resource reference from another file has its path cloned into the output's path table |
| `Copy.CopyLeaf` | render/live_parser/src/liveregistry.rs:396-512 | a `Use` emits nothing; every other leaf emits exactly its `EmittedRoot` and changes the tables as `LeafTables` says |
| `Resolve.ResolveId` | render/live_parser/src/liveregistry.rs:538-656 | a single, non-root id fails exactly when no frame binds it; a root-kind, empty or pointer id is "cannot find item on scope"; a path headed by a root kind is "cannot use baseclass"; a `Self` path panics when the open class's start lies past the end of its level (`SelfOutcome`); a path headed by a name is "cannot find item on scope" when no frame binds the head, "property is not a class" when the head names a non-class, and a panic when the binding is out of range (`HeadOutcome`); a found path lies in the head's document (the output for a local binding, the bound file for a full one), one level below the head per further segment, and names an in-range node carrying the path's last segment |
| `Resolve.ResolvePath` | render/live_parser/src/liveregistry.rs:549-636 | a path starting past the path table panics; a path headed by a root kind (other than `Self`) is "cannot use baseclass"; a `Self` path panics when the open class's start lies past the end of its level, and otherwise finds, in the output, a node on the level the path's length gives (for two segments, one written since the class's start); a named head ends as `HeadOutcome` says; a found path has at least two segments within the path table and names an in-range node carrying its last segment |
| `Resolve.ResolveOnStack` | render/live_parser/src/liveregistry.rs:574-633 | an unbound head is "cannot find item on scope"; a binding out of range panics; a head naming a non-class is "property is not a class"; a found pointer lies in the head's document (`None` for a local binding, the bound file for a full one), one level below the head per further segment and, for two segments, among the head class's children, and names an in-range node carrying the path's last segment |
| `Resolve.ResolveSingle` | render/live_parser/src/liveregistry.rs:638-646 | a single id fails exactly when no frame binds it, and never panics |
| `Resolve.ResolveSingleMeaning` | render/live_parser/src/liveregistry.rs:638-656 | a single id resolves if and only if some frame binds it, and then to the visible binding, local or full |
| `Walk.Write` | render/live_parser/src/liveregistry.rs:518-536 | the node is written by `write_or_add_node` with no new error; the write panics (empty scope stack) exactly when it appends with no frame; a scope binding is added only when the node is appended at a level with a frame and a single id, and then a lookup of that id finds the new node; otherwise the stack is unchanged |
| `Walk.WrittenIndex` | render/live_parser/src/liveregistry.rs:518-519 | the index where the written node ends up carries the node's id and value |
| `Walk.SourceOutIndex` | render/live_parser/src/liveregistry.rs:688-689 | the index the reference and call arms read back is the level's length before the write: no node sits there, and a node sits at every smaller index |
| `Walk.AppendAtSourceOutIndex` | render/live_parser/src/liveregistry.rs:688-711 | when the write appends, that index is where the node really lands, holding the written node |
| `Walk.OverrideOutIndexOutOfRange` | render/live_parser/src/liveregistry.rs:688-711 | when the write overrides an inherited field, the read-back index lies past the end of the level, while the node really sits at a smaller index |
| `Walk.OverrideOutIndexExample` | render/live_parser/src/liveregistry.rs:688-711 | a concrete level of one field `x`, overridden by a reference: the read-back index is 1 and the level still has length 1 |
| `Walk.Retarget` | render/live_parser/src/liveregistry.rs:703-713 | only the written node changes; an identifier reference or a call receives the resolved pointer; lengths are unchanged |
| `Walk.ResolveRef` | render/live_parser/src/liveregistry.rs:686-722 | a `Self` or root-kind reference is kept; a failed resolution appends exactly its error and keeps the node; a found one stores the pointer in the written node; nothing else changes |
| `Walk.RefPointsAtVisibleBinding` | render/live_parser/src/liveregistry.rs:686-722 | an unbound single reference records "cannot find item on scope"; a bound one ends as a pointer to the visible binding's target, into the file being expanded for a local binding |
| `Walk.ResolveCall` | render/live_parser/src/liveregistry.rs:724-793 | the call's target is resolved; a found target that is not a call records "target not a call" and keeps the node; a call target is stored in the written node; a failed resolution appends its error |
| `Walk.CallToTarget` | render/live_parser/src/liveregistry.rs:752-786 | a found target out of range panics; a target that is not a call records "target not a call" and keeps the node; a call target is stored in the written node and nothing else changes |
| `Walk.FlattenHoldsEveryBinding` | render/live_parser/src/liveregistry.rs:839-848 | the captured run holds every binding of every frame and nothing else |
| `Walk.CaptureScope` | render/live_parser/src/liveregistry.rs:841-847 | the capture loop appends all bindings, outermost frame first, and changes nothing else |
| `Walk.WalkBody` | render/live_parser/src/liveregistry.rs:839-879 | a function or variable captures the whole scope stack into the output's scope table, records no error, changes no other level, and is written at its level where `write_or_add_node` puts it, keeping its own tokens and pointing at the captured run (starting at the old end of the scope table, its count kept in 16 bits); the new state is exactly that write, including the binding an appended node registers in the innermost frame; the arm panics exactly when the node would be appended with no frame on the stack |
| `Walk.WildcardItems` | render/live_parser/src/liveregistry.rs:898-917 | a wildcard import binds every top-level node with a single id, as a full pointer into the imported file, and nothing else |
| `Walk.UseScan` | render/live_parser/src/liveregistry.rs:955-1016 | a bound index names a node on the path's last level carrying the last segment, which is not empty; there is at most one miss per segment, and a named first segment that no node of the span carries is a miss |
| `Walk.UseScanFollowsScanPath` | render/live_parser/src/liveregistry.rs:949-1016 | a path whose segments are all named and that the class lookup (`ScanPath`, as in `find_full_node_ptr_from_ids`) follows to the end is bound at the node found, with no miss |
| `Walk.FirstInSpan` | render/live_parser/src/liveregistry.rs:978-1007 | the search loop returns the first match of the span (`FindInSpan`) and panics exactly when the span runs past the level before any match |
| `Walk.UsePath` | render/live_parser/src/liveregistry.rs:949-1016 | the import follows the path exactly as `UseScan` says and never writes output: it panics when the imported document has no levels, when the path runs past the table, when a span runs past its level before a match, on an empty middle segment, or when the frame to bind in is missing; otherwise it binds the last segment's first match (if any) as a full pointer and records one "use path not found" per missing segment or non-class step |
| `Walk.UseLevels` | render/live_parser/src/liveregistry.rs:949-1016 | the segment loop succeeds exactly when `UseScan` does not panic and, if something is bound, the frame exists; it then binds exactly `BindLast` of the bound index, appends one "use path not found" per miss, and adds only bindings of the last segment's node and only such errors |
| `Walk.UseLeading` | render/live_parser/src/liveregistry.rs:951-1016 | the segments before the last panic exactly where `UseScan` does; otherwise the span and miss count they leave, followed by the last segment, give `UseScan` of the whole path, with one error per miss recorded |
| `Walk.UseSegment` | render/live_parser/src/liveregistry.rs:966-1016 | one middle segment: an empty segment, or a span that runs past its level before a match, panics; a class found narrows the span to its children; a non-class or a missing segment is a miss and keeps the span |
| `Walk.UseLast` | render/live_parser/src/liveregistry.rs:955-1016 | the last segment binds the first node of the span that carries it, as a full pointer at its level, needing the frame to exist; an empty last segment binds nothing; a missing one is a miss; exactly as `UseScan` of that one segment |
| `Walk.UsePathPanics` | render/live_parser/src/liveregistry.rs:949-1016 | given what `UsePath` promises, a path import panics exactly where `UseArmPanics` says: the imported document has no levels, the path runs past the multi-id table, or `UseScan` panics or binds with no frame at the import's level |
| `Walk.WalkUse` | render/live_parser/src/liveregistry.rs:892-1027 | an import never writes output; a wildcard binds `WildcardItems`; a single name binds the first top-level node carrying it or records "cannot find import"; a path ends exactly as `UseScan` says, and an empty path changes nothing; a pointer id records "node type invalid"; the arm panics exactly when `UsePanics` holds (unregistered module, imported document without levels, a binding with no frame at the import's level, a path past the table or one `UseScan` panics on) and then changes nothing |
| `Walk.UseWildcard` | render/live_parser/src/liveregistry.rs:898-917 | the frame at the import's level gains exactly `WildcardItems` of the imported top level, in order, and nothing else changes; it panics exactly when the imported document has no levels, or when there is something to bind and no frame at the import's level |
| `Walk.UseSingle` | render/live_parser/src/liveregistry.rs:918-947 | the first top-level node carrying the name is bound as a full pointer in the frame at the import's level; with no such node "cannot find import" is recorded and nothing is bound; it panics exactly when the imported document has no levels, or when a node is found and there is no frame at the import's level |
| `Walk.WalkNode` | render/live_parser/src/liveregistry.rs:659-1135 | every arm only appends errors, adds frames or bindings, grows the output keeping each node's token and id in place, and leaves lower levels alone; an import writes nothing; every other non-class node ends where `write_or_add_node` puts it, with the value its arm gives (`ArmValue`): a plain value as it is, a reference or call target unchanged or turned into a pointer the resolution found, an array, object or call pointing at its children's run at the old end of the next level with its own count, a body at its captured scope; a plain value is exactly `Write`, and a reference exactly `Write` followed by `ResolveRef` |
| `Walk.WalkRef` | render/live_parser/src/liveregistry.rs:686-722 | the reference is written where `write_or_add_node` puts it and then resolved: the written node keeps its id or holds the pointer found, lower levels are untouched, and the state is exactly `Write` followed by `ResolveRef`; it panics exactly when that write or that resolution panics, and then changes nothing |
| `Walk.WalkValue` | render/live_parser/src/liveregistry.rs:679-685 | a plain value is written unchanged where `write_or_add_node` puts it, exactly as `Write` does, and panics exactly when `Write` does |
| `Walk.WalkChildren` | render/live_parser/src/liveregistry.rs:727-729 | walking a span of children only appends errors, adds frames or bindings, grows the output keeping tokens and ids in place, leaves lower levels alone, and fails when the span leaves the input level |
| `Walk.WalkCall` | render/live_parser/src/liveregistry.rs:724-793 | the arguments are walked one level down, then the call is written at its level where `write_or_add_node` puts it, pointing at the arguments' run (at the old end of the next level, with the call's count) and holding its target unchanged or a pointer the resolution found; lower levels are untouched |
| `Walk.CallWritten` | render/live_parser/src/liveregistry.rs:738-793 | the write of the call followed by its target's resolution leaves the written node exactly as `WalkCall` states |
| `Walk.WalkContainer` | render/live_parser/src/liveregistry.rs:795-837 | the children are walked one level down, then the array or object is written at its level where `write_or_add_node` puts it, pointing at the run that starts at the old end of the next level, with the node's count; lower levels are untouched |
| `Walk.ClassBase` | render/live_parser/src/liveregistry.rs:1029-1076 | the class's frame is pushed and lower levels are untouched; a root-kind base copies nothing and reports `IsClass`; a `Self` base copies the nodes written since the class's start, skipping the class's own id, and the next level gains exactly their `ChildHeads`; a failed base resolution appends its error; a found base is copied onto the shifted level exactly as `EmittedRoot` says and the class id becomes a pointer to it; when the class expands, its id is `ClassId` and the next level gains exactly the base's heads (`BaseHeads`) |
| `Walk.CopySelf` | render/live_parser/src/liveregistry.rs:1048-1052 | the self-copy loop appends to the level below the shifted one exactly the tokens and ids of the nodes written since the class's start (its own id skipped), and leaves lower levels alone |
| `Walk.CopySelfField` | render/live_parser/src/liveregistry.rs:1049-1051 | one turn of the self-copy loop keeps the tokens and ids copied so far and appends the next field's `ChildHeads` entry after them, leaving lower levels alone |
| `Walk.CopyBase` | render/live_parser/src/liveregistry.rs:1064-1075 | a found base is copied onto the shifted level as `EmittedRoot` says, its children's tokens and ids land on the next level in order, the class id becomes a pointer to the base, and no error or binding is added |
| `Walk.InheritBase` | render/live_parser/src/liveregistry.rs:1054-1080 | the base is resolved with the class's frame pushed; a failed resolution records its error and copies nothing; a found base is copied onto the shifted level exactly as `EmittedRoot` says and the class id becomes a pointer to it; the class expands exactly when the copy reports a class |
| `Walk.WalkClass` | render/live_parser/src/liveregistry.rs:1029-1135 | a failed base records its error and leaves the class's frame pushed; a non-class base with override fields records "cannot override items in non-class", writes only the base copy (no class node) and leaves the frame pushed; a class that expands keeps the copied base's tokens and ids in place at the start of its run on the next level, so an override lands at the base's position and a new field after the copied ones, and is written at its level as a `Class` node holding its class id, the run's start and the run's length in 16 bits; lower levels are untouched |
| `Walk.ClassOverrides` | render/live_parser/src/liveregistry.rs:1112-1129 | the overrides are walked into the copied run and the class's frame is popped; measured from the state before the base copy, the copied heads stay at the start of the run on the next level and the class node is written at its level pointing at the whole run (`ClassWritten`); lower levels are untouched |
| `Registry.UseTargetsMeaning` | render/live_parser/src/liveregistry.rs:228-249 | a module is in the dependency set exactly when some `use` node on some level imports it |
| `Registry.RecordImports` | render/live_parser/src/liveregistry.rs:228-249 | the import loop yields exactly the document's `use` targets, keeps the order free of duplicates, puts every target other than the module itself before it, and adds exactly the targets to the order |
| `Registry.RecordLevel` | render/live_parser/src/liveregistry.rs:229-248 | one level's `use` nodes are recorded and placed before the importing module |
| `Registry.MissingDeps` | render/live_parser/src/liveregistry.rs:1139-1150 | a pass over the order records only "cannot find dependency" errors |
| `Registry.LiveRegistry.constructor` | render/live_parser/src/liveregistry.rs:39-47 | a new registry is empty and valid |
| `Registry.LiveRegistry.MarkDirty` | render/live_parser/src/liveregistry.rs:209-224 | `recompile` is set on exactly the expanded documents of the module and its transitive importers; nothing else changes |
| `Registry.LiveRegistry.MarkImporters` | render/live_parser/src/liveregistry.rs:214-223 | the recursion over the importers marks the union of their dependents |
| `Registry.LiveRegistry.EnterModule` | render/live_parser/src/liveregistry.rs:202-225 | a module new to the order is appended to it; a known module marks its dependents dirty and keeps the order; only the known-module case needs an acyclic import graph |
| `Registry.LiveRegistry.StoreFile` | render/live_parser/src/liveregistry.rs:250-271 | an unseen file name gets id `live_files.len()` and one new entry in each parallel vector; a known name has its file replaced in place and its expanded document marked for recompilation; either way the module maps to that id |
| `Registry.LiveRegistry.ParseLiveFile` | render/live_parser/src/liveregistry.rs:178-273 | the file vectors stay parallel; the module maps to the returned id; its graph entry becomes exactly its `use` targets; the order gains exactly the module and its targets, with every target before the module; the expanded documents are the dirty-marked ones plus either a new document or a re-marked one; only a re-parse of a module already in the order needs an acyclic import graph |
| `Registry.LiveRegistry.ExpandAllDocuments` | render/live_parser/src/liveregistry.rs:1139-1175 | every registered module of the order ends up not dirty; a document that was not dirty is unchanged; each document the pass cleans is `Rebuilt` from its raw file (the raw strings, tokens and path ids as prefixes, and its raw top-level nodes present by token and id); the "cannot find dependency" errors the pass appends are exactly one per unregistered module of the order, in order (`MissingDeps`); when nothing was dirty the pass changes no document and appends only those errors |
| `Registry.ExpandEntry` | render/live_parser/src/liveregistry.rs:1140-1174 | one entry of the order: an unregistered module appends one "cannot find dependency" error and changes nothing else; a clean document is skipped; a dirty one is replaced by a document `Rebuilt` from its raw file and marked clean, only appending errors that are not "cannot find dependency", and no other document changes |
| `Registry.DepErrorsWalk` | render/live_parser/src/liveregistry.rs:1168-1170 | errors the walk appends (`WalkErrors`, kept by every walk step's `Progress`) leave the "cannot find dependency" errors of the list unchanged |
| `Registry.ExpandInOrder` | render/live_parser/src/liveregistry.rs:1139-1175 | the pass keeps the document count, appends errors only, clears every dirty flag it reaches, leaves clean documents untouched, and rebuilds each document it clears from its raw file (`Rebuilt`: the raw strings, tokens and path ids as prefixes, and the raw top-level nodes present); its "cannot find dependency" errors are exactly `MissingDeps` of the order |
| `Registry.ExpandFile` | render/live_parser/src/liveregistry.rs:1163-1170 | walking one document's top level only appends errors, only grows the output keeping every node's token and id in place, and leaves each top-level node other than an import or a class, by token and id, on level 0 of the output |
| `Registry.TopStep` | render/live_parser/src/liveregistry.rs:1165-1169 | one top-level step keeps level 0's earlier tokens and ids and adds the walked node's |
| `Registry.LiveRegistry.ResolvePtr` | render/live_parser/src/liveregistry.rs:51-54 | a full pointer dereferences exactly when its file and index are in range, to the node there |
| `Registry.LiveRegistry.ClassChainFuel` | render/live_parser/src/liveregistry.rs:105-117 | once the base chain has ended, more steps do not change where it ends |
| `Registry.LiveRegistry.FindBaseClassId` | render/live_parser/src/liveregistry.rs:105-117 | the pointer-chasing loop ends where `ClassChain` does: at the first non-pointer id, or at a pointer to a non-class |
| `Registry.LiveRegistry.FindFullNodePtrFromIds` | render/live_parser/src/liveregistry.rs:88-103 | a result points into the module's file, on level `|ids| - 1`, at a class carrying the last id; an unregistered module or an empty path gives `None`; for a registered module whose path is found, the result is `Some` exactly when the node found is a class, and then points at it |
| `Registry.LiveRegistry.FindComponentOrigin` | render/live_parser/src/liveregistry.rs:119-163 | a result is the node `FindFullNodePtrFromIds` finds; its base chain ends at `Component`, and the module reported is that of the file holding the chain's last class; when that lookup finds nothing the result is `None` without a panic; when it finds a class, the run panics exactly when the chain runs out of fuel, meets a dangling pointer or ends in a file out of range, and a chain ending at `Component` in range gives that origin |
| `Registry.LiveRegistry.FindCrateModuleByFileId` | render/live_parser/src/liveregistry.rs:169-176 | returns a module registered to the file, and `None` exactly when there is none |
| `Brackets.OpenFromMeaning` | code_editor/src/state.rs:951-976 | a found position holds `{` and is the first point, scanning backwards from the cursor, where the braces in between balance to depth 0 without ever going below it; `None` means the depth never goes negative before the text's start |
| `Brackets.CloseFromMeaning` | code_editor/src/state.rs:978-999 | a found position holds `}` and is the first point, scanning forwards, where depth returns to 0 without dropping below; `None` means no enclosing `}` before the end of the last line |
| `Brackets.FindEnclosingOpeningBracket` | code_editor/src/state.rs:951-976 | the two nested loops compute exactly the backward scan `OpenFrom` from depth 0 |
| `Brackets.FindEnclosingClosingBracket` | code_editor/src/state.rs:978-999 | the two nested loops compute exactly the forward scan `CloseFrom` from depth 0 |
| `Brackets.ShownMeaning` | code_editor/src/state.rs:934-949 | a position is collected exactly when it is one of the two brackets of an empty selection whose cursor has both |
| `Brackets.FindEnclosingBrackets` | code_editor/src/state.rs:934-949 | the loop over selections collects exactly `Shown`: both brackets of each empty selection that has both, nothing else |
| `Indentation.IndentOf` | code_editor/src/state.rs:918 | the indentation is a whitespace prefix of the line |
| `Indentation.NewIndentation` | code_editor/src/state.rs:930-932 | `n` spaces |
| `Indentation.CommonPrefixLen` | code_editor/src/state.rs:922 | a common prefix of both strings that cannot be extended |
| `Indentation.Reindent` | code_editor/src/state.rs:917-928 | `keep + delete` is the old indentation's length; the kept prefix plus the insertion is exactly `f(width)` spaces; the kept prefix is maximal |
| `Indentation.ReindentRoundTrip` | code_editor/src/state.rs:917-928 | keeping `keep` bytes, deleting `delete` and inserting the insertion turns the line into `f(width)` spaces followed by the unchanged text |
| `Indentation.TabColumns` | code_editor/src/state.rs:415-417 | `tab - col % tab` lies in `[1, tab]` and lands the column on a multiple of `tab` |
| `Indentation.TabColumnsUnique` | code_editor/src/state.rs:627-628 | it is the only step of 1 to `tab` columns that reaches a tab stop, so it reaches the next one |
| `Indentation.OutdentColumns` | code_editor/src/state.rs:653-658 | never more than the indentation, 0 for no indentation, otherwise 1 to `tab` bytes that land on a tab stop |
| `Indentation.OutdentColumnsUnique` | code_editor/src/state.rs:653-658 | it is the only step back of 1 to `tab` columns that reaches a tab stop, so it lands on the previous one |
| `Indentation.TabAt` | code_editor/src/state.rs:407-431 | at an empty selection, `tab` inserts exactly that many spaces at the cursor, ending on a tab stop, and keeps the rest of the line |
| `Indentation.IndentLineMeaning` | code_editor/src/state.rs:617-641 | indenting a non-blank line moves its text to the next tab stop, between 1 and `tab` columns further, and keeps the text |
| `Indentation.OutdentLineMeaning` | code_editor/src/state.rs:643-672 | outdenting leaves an unindented line alone and otherwise moves the text back to the previous tab stop, keeping the text |
| `Indentation.BlankLineMeaning` | code_editor/src/state.rs:617-672 | a blank line has no indentation of its own: indent puts a full tab of spaces in front of it, and outdent leaves it alone |
| `EditorSession.SpliceIn` | code_editor/src/state.rs:758-761 | `splice(at..at, k defaults)` keeps the entries before `at`, inserts `k` defaults and moves the rest down by `k`; it panics exactly when `at` is past the end |
| `EditorSession.DrainOut` | code_editor/src/state.rs:782-785 | `drain(from..to)` keeps the entries before `from` and moves the rest up; it panics exactly when the range is out of bounds |
| `EditorSession.EditedDefined` | code_editor/src/state.rs:745-795 | on aligned vectors an edit succeeds exactly when its line exists and, for a delete, the drained lines exist |
| `EditorSession.EditedAligned` | code_editor/src/state.rs:745-795 | an edit keeps the four vectors of equal length and changes it by `+k` for an insert, `-k` for a delete |
| `EditorSession.EditedAllAligned` | code_editor/src/state.rs:746-796 | a whole sequence of edits keeps the four vectors of equal length |
| `EditorSession.InsertedEntries` | code_editor/src/state.rs:747-771 | an insert of `k` lines resets the line's column count and wrap data, and puts `k` default entries after the line in all four vectors |
| `EditorSession.DeletedEntries` | code_editor/src/state.rs:772-795 | a delete of `k` lines resets the line's column count and wrap data, and drains `[line+1, line+1+k)` from all four vectors |
| `EditorSession.EditedKeepsCounts` | code_editor/src/state.rs:745-795 | every line with wrap data keeps a column count across an edit |
| `EditorSession.EditedAllKeepsCounts` | code_editor/src/state.rs:746-796 | the same across a whole sequence of edits |
| `EditorSession.SpliceThenDrain` | code_editor/src/state.rs:758-785 | draining what a splice inserted gives the vector back |
| `EditorSession.InsertThenDelete` | code_editor/src/state.rs:745-795 | deleting the lines an insert added restores the layout, up to the reset of the edited line |
| `EditorSession.Refreshed` | code_editor/src/state.rs:798-803 | the wrap loop gives wrap data and a fresh column count to each of the first `n` lines that had none, and changes no other entry |
| `EditorSession.FoldTargets` | code_editor/src/state.rs:125-138 | the lines `fold` picks are exactly those indented at least `fold_level` tab stops that are not folded |
| `EditorSession.FoldKeepsDisjoint` | code_editor/src/state.rs:125-138 | moving those lines from unfolding to folding keeps the three fold sets disjoint |
| `EditorSession.FoldScan` | code_editor/src/state.rs:125-138 | the loop adds exactly the targets to `folding_lines`, removes them from `unfolding_lines` and sets their fold column to `fold_level * tab` |
| `EditorSession.RefreshLines` | code_editor/src/state.rs:798-803 | the wrap loop computes exactly `Refreshed` |
| `EditorSession.Session.constructor` | code_editor/src/state.rs:40-75 | a new session has empty fold sets, no wrap column, fold column 0 and scale 1 on every line, default wrap data, and every line's column count measured with no wrap column |
| `EditorSession.Session.Fold` | code_editor/src/state.rs:125-138 | `folding_lines` gains exactly the targets and `unfolding_lines` loses them; their fold column is set; nothing else changes; disjointness is kept |
| `EditorSession.Session.Unfold` | code_editor/src/state.rs:140-147 | every folding or folded line moves to `unfolding_lines`, leaving the other two sets empty; the layout is unchanged |
| `EditorSession.Session.SetWrapColumn` | code_editor/src/state.rs:113-123 | an unchanged wrap column changes nothing; otherwise the column is stored and every line's wrap data and column count recomputed for it |
| `EditorSession.Session.ApplyEdit` | code_editor/src/state.rs:746-795 | one edit changes the layout vectors exactly as `Edited` says, and panics exactly where `Edited` is undefined |
| `EditorSession.Session.ApplyEdits` | code_editor/src/state.rs:745-803 | the edits succeed exactly when `EditedAll` is defined and the document still has the lines; the vectors then become the edits' result refreshed by the wrap loop, staying aligned; if every wrapped line had a column count before, every line of the document ends with wrap data and a column count; fold sets and wrap column are unchanged |

## Findings

| source | as written | input that shows it | evidently intended | confidence | as-written member | corrected member |
|---|---|---|---|---|---|---|
| render/live_parser/src/liveregistry.rs:688-711 | the identifier-reference arm takes `out_index` as the level's length before the write, then stores the resolved pointer at `nodes[out_level][out_index]` | a class `D: K { x: y }` whose base `K` has a field `x`: the write overrides `x` in place and appends nothing, so `out_index` equals the level's length and the indexing panics | store the pointer in the node the write just wrote, at the overridden index | medium, not executed (the document's own `write_or_add_node` is not part of this model) | `Walk.OverrideOutIndexExample` | `Walk.ResolveRef` |
| render/live_parser/src/liveregistry.rs:738-782 | the call arm reads back its written node the same way | a derived class overriding an inherited field with a call | store the call target in the node the write just wrote | medium, not executed | `Walk.OverrideOutIndexOutOfRange` | `Walk.ResolveCall` |

## Left out

- Lexing and parsing in `parse_live_file` (liveregistry.rs:188-198): the parsed `LiveDocument` is an input of `ParseLiveFile`. Lex and parse failures, which panic in the source, are not modelled.
- Error messages, spans and formatting: an error is an `ErrorKind` plus the token it points at. `token_id_to_span`, `live_error_to_live_file_error` and `IdFmt` are not modelled.
- `find_enum_origin` is not part of this model.
- Registry.LiveRegistry.FindComponentOrigin: reports the token of the chain's last class instead of the identifier token two places before it (`tokens[token_id - 2]`), because that lookup depends on the token stream's layout. It keeps the check that the chain ends at `Component`.
- Registry.LiveRegistry.MarkDirty: requires a ranking of the dependency graph, that is, an acyclic graph. The source has no visited set and recurses forever on a cycle; the model does not cover that case.
- Registry.LiveRegistry.ParseLiveFile: re-parsing a module that is already in the order requires an acyclic import graph, because it calls `MarkDirty`; a new module parses into any graph.
- Registry.LiveRegistry.EnterModule: the same requirement, for the same reason.
- Registry.LiveRegistry.FindBaseClassId: follows at most `fuel` pointers. The source loops without bound on a cyclic chain of class bases.
- Registry.LiveRegistry.FindComponentOrigin: follows at most `fuel` pointers, for the same reason.
- `HashMap` iteration order in `mark_dirty` and `find_crate_module_by_file_id`: modelled with sets and a nondeterministic choice. Which module `FindCrateModuleByFileId` returns when several share a file is not fixed.
- LiveDocs.WriteOrAddNode: never returns an error, and matches path ids by plain equality. The document's own `write_or_add_node` and its dedicated path-matching routine are not part of this model.
- LiveDocs.ScanForMultiForExpand: its error cases are a small enumeration of kinds rather than the source's messages. The scanning helpers themselves are not part of this model.
- Copy.CopyRecur: when copying within the output document, reads the source nodes from the output as it was when the copy began. This matches the source whenever the copied span is in range, because the copy only appends.
- Integer widths: `u32` casts of spans and counts are not modelled. The 16-bit counts of class children and captured scopes are (`Walk.U16`).
- The `scope_stack` argument of `copy_recur` is unused in the source and is omitted.
- The `source` text kept in `LiveFile` is omitted, because only error rendering reads it.
- Concurrency: not modelled; the registry is single-threaded.
- In `state.rs`, everything floating-point or foreign is left out: the `y` vector, `update_y`, and the `update_folds` scale animation. The `scale` vector is carried as opaque values.
- `compute_wrap_data` and `update_column_count` are not modelled: their results are the opaque values `WrapFor(line, column)` and `Measured(line, column)`.
- Also left out: `mpsc` channels, `RefCell` borrows, the `AtomicUsize` session id, settings, `Document::edit_selections` / `edit_linewise`, undo and redo, and selection updates after edits.
- Characters are single bytes and single columns; grapheme and UTF-8 lengths are not modelled.
- Indentation.TabAt: models `tab` at one cursor with an empty selection only. The deletion of a selected range before the insertion goes through the document's edit machinery, which is not part of this model.
- The editor's `Edit` is reduced to its line and the number of line breaks it inserts or deletes, which is all `apply_edits` reads from it.
- Copy.CopyRecur: names the copied children by token and id only (`ChildHeads`). Their values, the grandchildren and the relocated tables below the first level are not stated.
- Copy.CopyContainer: the same, for the children of one container.
- Walk.WalkChildren: states progress and the span check only. What each child writes is stated by `WalkNode`, but the combined result of the span is not.
- Walk.WalkNode: stores a resolved reference or call target in the node the write really used, not at the source's `out_index`; see "## Findings". For a class node it states progress only; the class arm is stated by `WalkClass`.
- Walk.WalkClass: states the expanded class's run by the tokens and ids of the copied base; the values the overrides leave in that run and the fields they append are not stated. It also does not name the popped frame as the class's own, beyond the shape `Progress` gives the stack.
- Registry.ExpandFile: states the top-level nodes other than imports and classes by token and id. Classes and the deeper levels are covered by the `Walk` contracts, not collected into the document's own.
- Registry.ExpandInOrder: a rebuilt document is stated through `Rebuilt`, so with the same limits as `ExpandFile`.
- Registry.LiveRegistry.ExpandAllDocuments: the same limits as `ExpandInOrder`.
