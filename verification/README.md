# Verified models of the Codex protocol exporter, clients and analytics

This project models four parts of the Codex repository in Dafny and proves what they promise.

- **Protocol export** (`Json`, `Reachability`, `Namespaces`, `Bundle`, `Contents`, `Entries`, `Flatten`, `FlatExport`, `Strip`, `Prune`,
  `Experimental`, `Scanner`, `Split`, `Nesting`, `Braces`, `Properties`, `TypeFiles`, `Imports`, `Filters`, `Listed`,
  `Returns`, `Settling`, `TwoPasses`). JSON Schema documents are values; references follow section 8.3 of the JSON Schema core
  specification, draft-07. Passes that only rewrite references are one function, `MapRefs`, applied to different string
  functions. The meaning of a schema is its unfolding: the tree that results from replacing references by what they
  denote, to a given depth. The TypeScript filters work on text through a scanner of brackets, strings and comments.
- **Event forwarding in the in-process client** (`Forwarding`). The queue is bounded, the consumer may read or close at
  any moment, and ghost history records every event taken and what became of it. The theorems are about all histories
  that the code can produce.
- **The remote client** (`Remote`, `Endings`). A run is a sequence of turns; each brings a command or a frame, and what its
  surroundings do in it: whether the consumer still listens and whether a write fails. What each command is owed is
  defined on the turns alone, one command at a time, and the worker is proved to keep to it.
- **Analytics** (`Analytics`, `Reducer`, `Accounting`, `Reports`, `TurnJoin`, `Diff`, `Dedupe`). `Analytics` says how each fact
  changes each of the seven tables and what it sends; `Reducer` is the class with those tables as fields, whose methods
  are proved to do just that; the other modules prove properties of all runs.

`Entries`, `Listed`, `Nesting`, `Endings` and `Reports` tell what comes out from what goes in, without the functions that
the operations are written with: from the inputs of the bundle, the text of a file, the turns of the worker and the facts.

`Wrappers`, `Seqs`, `Text` and `Protocol` hold shared helpers. Loops of the source are loops here, proved against those functions;
where the source iterates over a hash map or set, the loop takes the members in any order.

Some properties one might expect do not hold everywhere. For each the condition under which it holds is proved, and a
lemma gives inputs on which it fails:

- splitting what was joined: `SplitOfJoinIff`, `FilteredSplitsIntoSurvivorsIff`; `CommentSwallowsArm`, `FilteredBodyHasOneArm`
- filtering a TypeScript file twice: `ArmsSettleInOnePass`, `FieldsSettleInOnePass`, `TypeBodyOfFilteredIff`;
  `ImportPathWithEquals`, `ReturnsGoOneByOne`, `CommentTakesTwoPasses`, `CrossedBracesTakeTwoPasses`
- complete pruning: `PruneIsCompleteIff`, `PruneIsIdempotentIff`; `DisguisedVariantSurvives`
- keeping references resolvable when variants go: `StripNeverDanglesIff`; `FieldNamedDefinitionsDangles`
- keeping a definition's target when names clash: `RootRefKeepsTarget`, `V2RefKeepsTarget`; `HelperIsReplaced`, `V2DefinitionIsReplaced`
- references into root definitions: `ReferenceDenotes`; `RootDefinitionIsReplaced`
- flattening what the experimental filter leaves: `FilteredFlattensIff`; `ListedTypeIsMissed`
- the forced pass: `ForcedPassIsIdleIff`; `ForcedPassDoublesNamespace`
- recovering a path: `TargetPathIff`; `SpaceAtEndOfPath`

## Model

| member | source | states |
|---|---|---|
| `Flatten.CollectDefinitionDependencies` | codex-rs/app-server-protocol/src/export.rs:1153-1173 | the worklist ends on every reference graph, cyclic ones too, and returns exactly the closure of the names it starts from, whatever the order they come in |
| `Reachability.ReachIsLeast` | codex-rs/app-server-protocol/src/export.rs:1153-1173 | the closure is contained in every set that holds the roots and is closed under references |
| `Reachability.ReachIsClosed` | codex-rs/app-server-protocol/src/export.rs:1153-1173 | the closure is itself closed under references |
| `Flatten.BuildFlatV2Schema` | codex-rs/app-server-protocol/src/export.rs:1075-1123 | fails on a bundle without a `v2` namespace object; otherwise it yields the flat document if and only if the closing checks accept that document |
| `Flatten.AcceptedIff` | codex-rs/app-server-protocol/src/export.rs:1194-1265 | the closing checks accept a document if and only if it has definitions, none of its references leads into v2, and each local one leads to or into one of the definitions |
| `Flatten.FlatHolds` | codex-rs/app-server-protocol/src/export.rs:1075-1123 | for every bundle with a v2 namespace and every name: which definition the flat document has under the name, if any: that of `ClientRequest` or `ServerNotification` from the root, else the one in v2, else the root one if a path of root references leads to it from one of the two unions; its references rewritten |
| `Flatten.FlatKeepsIff` | codex-rs/app-server-protocol/src/export.rs:1097-1104 | of the root names outside v2 the flat document has exactly those that a path of root references leads to from `ClientRequest` or `ServerNotification`, these two included |
| `Flatten.FlatHeader` | codex-rs/app-server-protocol/src/export.rs:1106-1123 | outside the definitions only the title changes, by a `V2` at its end |
| `Flatten.UnfoldAgrees` | codex-rs/app-server-protocol/src/export.rs:1075-1192 | any schema of the bundle with safe references unfolds, to any depth, to the same tree in the bundle and, rewritten, in the flat document |
| `Flatten.FlattenKeepsMeaning` | codex-rs/app-server-protocol/src/export.rs:1075-1192 | every v2 definition and every kept root definition is found in the flat document and unfolds there, to any depth, to the tree it unfolds to in the bundle |
| `Flatten.FlattenSucceeds` | codex-rs/app-server-protocol/src/export.rs:1194-1265 | on a flattenable bundle both closing checks pass and every local reference of the result resolves |
| `Flatten.ClosedBundleFlattens` | codex-rs/app-server-protocol/src/export.rs:1075-1123 | every reference-closed bundle without a name defined both at the root and in `v2` is flattenable |
| `Flatten.RootRefKeepsTarget` | codex-rs/app-server-protocol/src/export.rs:1095-1123 | a kept root definition is still what its reference denotes if and only if no v2 definition of that name with another body replaces it |
| `Flatten.V2RefKeepsTarget` | codex-rs/app-server-protocol/src/export.rs:1095-1123 | a v2 definition is still what its reference denotes if and only if no shared root union of that name with another body replaces it |
| `Flatten.HelperIsReplaced` | codex-rs/app-server-protocol/src/export.rs:1095-1123 | a helper of a shared union, of whatever name, is replaced by the v2 definition of that name |
| `Flatten.V2DefinitionIsReplaced` | codex-rs/app-server-protocol/src/export.rs:1095-1123 | a v2 definition with the name of a shared union is replaced by it |
| `FlatExport.BundleIsClosed` | codex-rs/app-server-protocol/src/export.rs:980-1123 | for admissible inputs with `v2` as the only namespace, whose references name definitions and whose root names are no v2 types, the bundle is reference-closed |
| `FlatExport.ExportFlatV2` | codex-rs/app-server-protocol/src/export.rs:222-230 | on such inputs the export, filter for experimental parts included or not, succeeds if and only if no two inputs put different values under one v2 name, v2 is not listed as a type, and nothing that the flat bundle takes over refers to a definition that the filter removes; the result is the flat form of the filtered bundle and all its local references resolve |
| `Experimental.FilterThins` | codex-rs/app-server-protocol/src/export.rs:397-404 | the filter removes members, elements and definitions only: every reference left stood in the same definition before |
| `Experimental.FilteredNames` | codex-rs/app-server-protocol/src/export.rs:613-649 | the definitions left are exactly those not listed, and in v2 too if it reads as a namespace |
| `Experimental.RegisteredFieldsGo` | codex-rs/app-server-protocol/src/export.rs:434-489 | a definition loses from `properties` and `required`, also those of the schema inside, exactly the fields registered for a type whose name it carries, behind a path or not; nothing else changes |
| `Experimental.RegisteredFieldIsGone` | codex-rs/app-server-protocol/src/export.rs:397-489 | after the whole filter a registered field is neither a property of a definition of its type nor required by it |
| `Experimental.RegisteredFieldIsGoneInside` | codex-rs/app-server-protocol/src/export.rs:434-489 | nor in a namespace |
| `Experimental.TitledFieldsGo` | codex-rs/app-server-protocol/src/export.rs:406-421 | the document itself loses exactly the fields registered under its title |
| `Experimental.TitledFieldIsGone` | codex-rs/app-server-protocol/src/export.rs:397-421 | and after the whole filter they are neither properties nor required |
| `Experimental.MatchesTypeIff` | codex-rs/app-server-protocol/src/export.rs:473-475 | a definition matches a type if it has its name, or its name behind `::` |
| `Experimental.EmptyMethodIsNone` | codex-rs/app-server-protocol/src/export.rs:491-498 | an empty method name in the list removes nothing |
| `Experimental.ThinnedFlattensIff` | codex-rs/app-server-protocol/src/export.rs:1194-1265 | a closed bundle with anything removed still flattens if and only if nothing that the flat bundle takes over refers to a definition that is gone |
| `Experimental.FilteredFlattensIff` | codex-rs/app-server-protocol/src/export.rs:222-230 | so a filtered one if and only if v2 is not listed and nothing taken over refers to a listed type |
| `Experimental.ListedTypeIsMissed` | codex-rs/app-server-protocol/src/export.rs:613-649 | for any name: a listed type that a shared union still refers to makes the flat bundle fail |
| `Bundle.CollectNamespacedTypes` | codex-rs/app-server-protocol/src/export.rs:1603-1623 | the first namespaced schema that claims a name owns it |
| `Bundle.TypesOrigin` | codex-rs/app-server-protocol/src/export.rs:1603-1623 | every owned name was claimed by an input schema of the namespace that owns it |
| `Bundle.PlaceDefinitions` | codex-rs/app-server-protocol/src/export.rs:1003-1035 | whatever the order of the definitions, exactly those that the schema may place end up at the root or in its namespace, a collision fails the whole, and the names reported for forced rewriting are exactly those that a namespace owns |
| `Bundle.AbsorbSchema` | codex-rs/app-server-protocol/src/export.rs:985-1045 | one schema adds its definitions and then itself, after one forced pass for each name that calls for it |
| `Bundle.BuildSchemaBundle` | codex-rs/app-server-protocol/src/export.rs:980-1061 | the result is the document of all schemas absorbed in order, or the first failure |
| `Bundle.AdmissibleGathers` | codex-rs/app-server-protocol/src/export.rs:1037-1039 | for admissible inputs the forced passes do not change the bundle, in any order |
| `Bundle.AdmissibleFails` | codex-rs/app-server-protocol/src/export.rs:980-1061 | and where building them fails, gathering them without forced passes fails |
| `Bundle.GatherIsSound` | codex-rs/app-server-protocol/src/export.rs:980-1061 | after every input, all that the inputs so far provide is in place, and every definition reference leads to or into something that some input provides |
| `Bundle.BundleRefsResolve` | codex-rs/app-server-protocol/src/export.rs:980-1061 | every definition reference of the bundle built from admissible inputs, in any order of root and namespaced schemas, resolves in it, references to places inside a namespaced definition included |
| `Bundle.BundleHoldsEveryInput` | codex-rs/app-server-protocol/src/export.rs:980-1061 | everything an input provides is found at its address; in a namespace with its own value |
| `Contents.GatherIsExact` | codex-rs/app-server-protocol/src/export.rs:980-1061 | after any prefix of the inputs, every place at the root or in a namespace holds what the last input that provides it put there, and nothing if none does |
| `Contents.ReferenceDenotes` | codex-rs/app-server-protocol/src/export.rs:980-1061 | a reference to or into a definition denotes what the last input that provides the definition has there; so a reference into a root definition resolves if and only if that input has the place |
| `Contents.RootDefinitionIsReplaced` | codex-rs/app-server-protocol/src/export.rs:1030-1032 | a root schema may refer into a definition that a later root schema replaces by one without that place |
| `Contents.GathersIff` | codex-rs/app-server-protocol/src/export.rs:1267-1312 | inputs can be bundled if and only if no two of them put different values under one name of one namespace |
| `Entries.PlaceIsTakenIff` | codex-rs/app-server-protocol/src/export.rs:980-1045 | an address of the built bundle holds something if and only if some input puts something there: itself, unless it is `Option<()>`, or a definition that is none of the five skipped names and that no namespace takes from it |
| `Entries.OwnNameHolds` | codex-rs/app-server-protocol/src/export.rs:997-1045 | at the address of an input that prevails the bundle has its schema without `definitions`: exactly the other members, each with every reference replaced by the address of what it denotes |
| `Entries.DefinitionHolds` | codex-rs/app-server-protocol/src/export.rs:1004-1032 | at the address of a definition that an input places and that prevails the bundle has that definition with every reference so replaced, and then titled |
| `Entries.TypesAreOwners` | codex-rs/app-server-protocol/src/export.rs:1603-1623 | a name belongs to the namespace of the first namespaced input that has it as its own, among its `definitions` or among its `$defs` |
| `Entries.NamespaceIsOwner` | codex-rs/app-server-protocol/src/export.rs:1625-1640 | a name without an owner belongs to the owner of the name without the digits at its end |
| `Text.TrimDigitsOf` | codex-rs/app-server-protocol/src/export.rs:1632-1632 | digits at the end of a name go, up to the last character that is none |
| `Entries.BundleHeader` | codex-rs/app-server-protocol/src/export.rs:1047-1061 | the bundle has a dialect, a title, a type and its definitions, and nothing else |
| `Namespaces.RewriteToNamespaceIsIdempotent` | codex-rs/app-server-protocol/src/export.rs:1542-1574 | pointing the references of any value at a namespace twice is doing so once |
| `Namespaces.ForcedPassFixes` | codex-rs/app-server-protocol/src/export.rs:1895-1920 | after the pass over known namespaces the forced pass for an owned name, digits trimmed included, changes nothing if the name is not itself a namespace |
| `Namespaces.ForcedPassDoublesNamespace` | codex-rs/app-server-protocol/src/export.rs:1895-1920 | if the name is a namespace, a bare reference to one of its types is rewritten a second time |
| `Namespaces.ForcedPassIsIdleIff` | codex-rs/app-server-protocol/src/export.rs:1576-1637 | the forced pass is a no-op on all values if and only if the name is not a namespace |
| `Namespaces.ForcedByHead` | codex-rs/app-server-protocol/src/export.rs:1895-1920 | the forced pass sends exactly the references to or into the definition to its place in the namespace |
| `Strip.Collect` | codex-rs/app-server-protocol/src/export.rs:1434-1501 | one traversal queues and marks exactly the names that the value refers to and that were not marked before |
| `Strip.ReachableLocalDefinitions` | codex-rs/app-server-protocol/src/export.rs:1417-1432 | the queue ends and marks exactly the closure of the references of the schema proper |
| `Strip.StripMethodVariants` | codex-rs/app-server-protocol/src/export.rs:1381-1415 | variants of the listed methods go, the rest keeps its order, and the definitions are restricted to the reachable ones |
| `Strip.VariantsLeft` | codex-rs/app-server-protocol/src/export.rs:1381-1415 | of the variants in `oneOf` exactly those stay, in their order, whose method, by its `const` or else the first string of its `enum`, is not listed |
| `Strip.CollectedIsMentioned` | codex-rs/app-server-protocol/src/export.rs:1434-1501 | the collector for the schema proper finds exactly the definitions that the schema refers to outside of `definitions` and `$defs` objects |
| `Strip.StrippedKeepsReachable` | codex-rs/app-server-protocol/src/export.rs:1381-1399 | a definition is kept, unchanged, if and only if a path of references leads to it |
| `Strip.StripNeverDanglesIff` | codex-rs/app-server-protocol/src/export.rs:1381-1501 | no reference that resolved before dangles afterwards if and only if every definition that only nested definition maps mention is reached from those mentioned elsewhere |
| `Strip.FieldNamedDefinitionsDangles` | codex-rs/app-server-protocol/src/export.rs:1434-1457 | a property called `definitions` hides its reference, whose definition goes |
| `Strip.StripNeverDangles` | codex-rs/app-server-protocol/src/export.rs:1434-1457 | that is so whenever there is no `definitions` key but the one at the root and no `$defs` key outside of it |
| `Prune.PruneKeepsTheRest` | codex-rs/app-server-protocol/src/export.rs:500-515 | every element that is no experimental variant stands in the pruned array, itself pruned, behind exactly those kept from before it |
| `Prune.VariantAfterPruning` | codex-rs/app-server-protocol/src/export.rs:517-540 | a pruned value is an experimental variant if and only if it was one or pruning its own `enum` made it one |
| `Prune.VariantIff` | codex-rs/app-server-protocol/src/export.rs:517-540 | a value is an experimental variant if and only if the one method it can have, by `const` or an `enum` of one string, is listed |
| `Prune.PruneIsCompleteIff` | codex-rs/app-server-protocol/src/export.rs:491-540 | no array at any depth keeps an experimental variant if and only if no value is one in disguise |
| `Prune.PruneFixedIff` | codex-rs/app-server-protocol/src/export.rs:500-515 | a pass leaves a value alone if and only if it holds no experimental variant |
| `Prune.PruneIsIdempotentIff` | codex-rs/app-server-protocol/src/export.rs:491-540 | a second pass changes nothing if and only if no value is a variant in disguise |
| `Prune.ScalarEnumsHideNothing` | codex-rs/app-server-protocol/src/export.rs:517-540 | scalar `enum` arrays rule disguises out |
| `Prune.DisguisedVariantSurvives` | codex-rs/app-server-protocol/src/export.rs:491-540 | a value that pruning turns into a variant survives one pass and not the next |
| `Scanner.ScanState.Observe` | codex-rs/app-server-protocol/src/export.rs:890-959 | each character changes the scanner as the value-level step says |
| `Scanner.ScanConcat` | codex-rs/app-server-protocol/src/export.rs:890-978 | scanning a concatenation is scanning its halves one after the other |
| `Scanner.WhiteSpace` | codex-rs/app-server-protocol/src/export.rs:758-777 | the characters that trimming cuts off are the 25 code points with the Unicode property White_Space |
| `Split.SplitTopLevelMulti` | codex-rs/app-server-protocol/src/export.rs:754-777 | the loop returns the trimmed, non-empty pieces between the delimiters that stand outside brackets, strings and comments |
| `Split.SplitYieldsParts` | codex-rs/app-server-protocol/src/export.rs:754-777 | each part is trimmed and splits no further, and all but the last leave the scanner at the top level or in a line comment |
| `Split.SplitOfJoinIff` | codex-rs/app-server-protocol/src/export.rs:754-777 | splitting joined parts gives the parts back if and only if none before the last ends in a line comment |
| `Split.FilteredSplitsIntoSurvivorsIff` | codex-rs/app-server-protocol/src/export.rs:305-395 | re-splitting a filtered text yields exactly the survivors, in order, if and only if none of them before the last ends in a line comment |
| `Split.FilterIsIdempotent` | codex-rs/app-server-protocol/src/export.rs:305-395 | under that condition filtering a second time changes nothing |
| `Split.CommentSwallowsArm` | codex-rs/app-server-protocol/src/export.rs:754-777 | two arms of which the first ends in a line comment do not come back when joined and split again |
| `Split.FilteredBodyHasOneArm` | codex-rs/app-server-protocol/src/export.rs:305-328 | a body with such a comment whose two arms both survive does not split into them afterwards |
| `Nesting.NestedIsPart` | codex-rs/app-server-protocol/src/export.rs:890-978 | a text of words, brackets of the four kinds nested to any depth and string literals is not split by delimiters between the brackets or in the literals, and a delimiter behind it counts again |
| `Nesting.NestedTextsSplit` | codex-rs/app-server-protocol/src/export.rs:754-777 | such texts joined by a delimiter are split into exactly these texts |
| `Braces.FindTopLevelBraceSpan` | codex-rs/app-server-protocol/src/export.rs:735-752 | finds the first top-level brace that closes an open one and the last that opened before it; finds nothing only if there is no such pair |
| `Braces.SpanIsUnique` | codex-rs/app-server-protocol/src/export.rs:735-752 | there is at most one such pair |
| `TypeFiles.TypeBodyBraceSpan` | codex-rs/app-server-protocol/src/export.rs:718-733 | the search starts behind the first `=`, or else behind `export interface` |
| `Filters.AnchorBehindEquals` | codex-rs/app-server-protocol/src/export.rs:718-733 | the search starts behind the first `=` |
| `Listed.BodyBehindInterface` | codex-rs/app-server-protocol/src/export.rs:718-733 | without one, behind the first `export interface` |
| `Listed.NoBody` | codex-rs/app-server-protocol/src/export.rs:718-733 | without either there is no type body |
| `Imports.PruneUnusedTypeImports` | codex-rs/app-server-protocol/src/export.rs:651-679 | exactly the import lines whose type name does not occur in the scope go; the other lines keep their order, and a final newline is kept |
| `Listed.ImportGoesIff` | codex-rs/app-server-protocol/src/export.rs:651-679 | a written import line goes if and only if it imports one name, not renamed, that does not occur in the scope |
| `Listed.OtherLinesStay` | codex-rs/app-server-protocol/src/export.rs:670-679 | any other line stays |
| `Imports.StaysInScope` | codex-rs/app-server-protocol/src/export.rs:651-679 | an import line that stands in the scope is never removed |
| `Imports.EdgeRowsSuffice` | codex-rs/app-server-protocol/src/export.rs:651-679 | if the scope is a stretch of the file, of the lines that overlap it only the first and the last can be removed |
| `Imports.FilterLinesAround` | codex-rs/app-server-protocol/src/export.rs:651-668 | if the lines that overlap a stretch stay, pruning leaves the stretch and removes lines before and behind it only; a second pruning changes nothing |
| `Filters.FilterClientRequest` | codex-rs/app-server-protocol/src/export.rs:305-328 | the whole arm filter: the surviving arms take the place of the body, then unused imports go; a file without an alias is left alone |
| `Listed.ArmStaysIff` | codex-rs/app-server-protocol/src/export.rs:316-321 | an arm written as an object with a method stays if and only if the method is empty or not listed; one without braces stays |
| `Listed.ListedArmsGo` | codex-rs/app-server-protocol/src/export.rs:305-328 | a file of written arms: exactly the arms with a listed method go, the others stay in order and are what the new body splits into, and nothing else changes but for imports that are no longer used |
| `Properties.ParseStringLiteral` | codex-rs/app-server-protocol/src/export.rs:851-874 | the loop finds the quote that ends a literal, escapes skipped, and returns the literal and the place behind it |
| `Properties.StripLeadingBlockComments` | codex-rs/app-server-protocol/src/export.rs:802-813 | block comments at the start go as long as they are closed |
| `Properties.ParsePropertyName` | codex-rs/app-server-protocol/src/export.rs:815-849 | a string literal or an identifier, with a colon behind it and perhaps a question mark between |
| `Properties.ExtractMethodFromArm` | codex-rs/app-server-protocol/src/export.rs:779-794 | the literal of the first field called `method` between the first pair of braces |
| `Properties.NameOfField` | codex-rs/app-server-protocol/src/export.rs:815-849 | an identifier written with a colon, optional or not, is read back |
| `Properties.MethodOfArm` | codex-rs/app-server-protocol/src/export.rs:779-794 | the method of an arm written as an object of fields is read back, if no field before it is called `method` |
| `Settling.ArmsSettleInOnePass` | codex-rs/app-server-protocol/src/export.rs:305-328 | the whole arm filter, import pruning included, settles in one pass if no line ends in two carriage returns, no surviving arm before the last ends in a line comment, and the lines with the first `=` and the last `;` are not imports that the new body leaves unused; for every choice of arms that ignores carriage returns, or every choice at all if there are none |
| `Settling.FieldsSettleInOnePass` | codex-rs/app-server-protocol/src/export.rs:370-395 | the whole field filter settles in one pass if no line ends in two carriage returns, no surviving field before the last ends in a line comment, the new fields are enclosed, and no line between the anchor and the end of the body or its `;` is an import that goes unused; for the same choices of fields |
| `Settling.KeepArmIgnoresReturns` | codex-rs/app-server-protocol/src/export.rs:316-321 | the choice that the code makes by method names ignores carriage returns, unless a name holds a newline |
| `Settling.KeepFieldIgnoresReturns` | codex-rs/app-server-protocol/src/export.rs:381-385 | so does the choice by field names |
| `Settling.ClientRequestSettles` | codex-rs/app-server-protocol/src/export.rs:305-328 | so the filter with the code's own choice of arms settles under the conditions on the file alone |
| `Settling.TypeFileSettles` | codex-rs/app-server-protocol/src/export.rs:370-395 | and the filter with the code's own choice of fields |
| `Returns.ArmsUnix` | codex-rs/app-server-protocol/src/export.rs:305-328 | with or without carriage returns at the ends of its lines, a file is filtered into the same one |
| `Returns.FieldsUnix` | codex-rs/app-server-protocol/src/export.rs:370-395 | so it is for the field filter |
| `Filters.FilterTypeFields` | codex-rs/app-server-protocol/src/export.rs:370-395 | the whole field filter: exactly the text between the braces of the type body is replaced by its surviving fields, then unused imports go; a file without a type body is left alone |
| `Listed.FieldStaysIff` | codex-rs/app-server-protocol/src/export.rs:381-385 | a written field, behind a comment or not, stays if and only if its name is not listed |
| `Listed.ListedFieldsGo` | codex-rs/app-server-protocol/src/export.rs:370-395 | a type body of written fields: exactly the fields with a listed name go, the others stay in order, and nothing else changes but for imports that are no longer used |
| `Filters.TypeBodyOfFilteredIff` | codex-rs/app-server-protocol/src/export.rs:370-395 | the replaced fields are the type body of the new file if and only if a brace scan of them between braces finds the outer two |
| `Filters.BalancedFieldsAreEnclosed` | codex-rs/app-server-protocol/src/export.rs:370-395 | surviving fields of a body with balanced braces that ends at the top level are so enclosed, if none of them ends in a line comment |
| `TwoPasses.DroppedImportMovesAlias` | codex-rs/app-server-protocol/src/export.rs:305-328 | where the first `=` stands in an import that goes, the next pass finds the alias behind it, and changes the file if and only if its body is not yet in filtered form |
| `TwoPasses.ImportPathWithEquals` | codex-rs/app-server-protocol/src/export.rs:305-328 | for any list of methods: an import path with `=` before an alias of two arms; two passes differ from one |
| `TwoPasses.ReturnsGoOneByOne` | codex-rs/app-server-protocol/src/export.rs:305-328 | a line that ends in two carriage returns loses one of them in each of two passes |
| `TwoPasses.CommentTakesTwoPasses` | codex-rs/app-server-protocol/src/export.rs:305-328 | for any list of methods: an arm that ends in a line comment before an arm whose brackets the comment hides from the second pass; two passes differ from one |
| `TwoPasses.CommentHidesBrackets` | codex-rs/app-server-protocol/src/export.rs:305-328 | so it is for every such pair of arms that the filter keeps |
| `TwoPasses.CrossedBracesTakeTwoPasses` | codex-rs/app-server-protocol/src/export.rs:370-395 | for any three field names of which the first and the last are listed: fields whose braces cross their parentheses; two passes differ from one |
| `TypeFiles.SpanAroundIff` | codex-rs/app-server-protocol/src/export.rs:735-752 | a text between two top-level braces keeps them as the pair that is found if and only if a brace scan of the text alone between braces finds the outer two |
| `TypeFiles.BalancedIsEnclosedIff` | codex-rs/app-server-protocol/src/export.rs:735-752 | for a text whose braces balance that is so if and only if the scanner is at the top level at its end |
| `Forwarding.InputsAreConserved` | codex-rs/app-server-client/src/lib.rs:206-272 | over every run and consumer schedule: events offered = forwarded + sum of the markers + skip count + drops that met a saturated counter |
| `Forwarding.SkippedIsBounded` | codex-rs/app-server-client/src/lib.rs:206-272 | a run no longer than `usize::MAX` meets no saturated counter |
| `Forwarding.PositionsAreExact` | codex-rs/app-server-client/src/lib.rs:206-272 | without saturation the input index of each forwarded event is the number of events forwarded before it plus the markers before it |
| `Forwarding.LosslessTierIsDelivered` | codex-rs/app-server-client/src/lib.rs:151-185 | of the six transcript and completion notifications (turn completed, item completed, and the deltas of messages, plans, reasoning summaries and reasoning) those delivered are exactly those offered, in input order |
| `Forwarding.OthersMayBeDropped` | codex-rs/app-server-client/src/lib.rs:206-272 | any other event but a token refresh may be dropped |
| `Forwarding.RequestsAreDisposed` | codex-rs/app-server-client/src/lib.rs:547-594 | each server request is either delivered or failed, once |
| `Forwarding.FailureCodes` | codex-rs/app-server-client/src/lib.rs:547-594 | token refreshes, and only they, are failed with -32000, all others with -32001 |
| `Forwarding.Worker.constructor` | codex-rs/app-server-client/src/lib.rs:488-500 | capacities below one become one |
| `Forwarding.Worker.ForwardInProcessEvent` | codex-rs/app-server-client/src/lib.rs:206-272 | an event is dropped only if the queue is full; a forwarded or dropped event leaves the channel, the counter and the failures as its fate says; a closed channel disables the stream and loses only that event |
| `Forwarding.Worker.TakeEvent` | codex-rs/app-server-client/src/lib.rs:551-594 | one event of the worker loop keeps the queue bounded and all state a function of the events and their fates |
| `Forwarding.Worker.TakeEvents` | codex-rs/app-server-client/src/lib.rs:547-594 | while the consumer has not closed: lossless events readable in order, every request readable or failed, positions exact |
| `Remote.RunKeeps` | codex-rs/app-server-client/src/remote.rs:203-463 | in every run the answers given are exactly those owed, each once, and the pending table is exactly the requests that still wait, each under its id |
| `Endings.StopsIff` | codex-rs/app-server-client/src/remote.rs:203-463 | after any run the worker has stopped if and only if its last turn is one of those that end the loop: shutdown, no more commands, a failed write, a frame that is garbled, closes, breaks or ends the connection, or an event nobody listens to |
| `Endings.ExitIs` | codex-rs/app-server-client/src/remote.rs:398-448 | it then leaves with the error, kind and message, of that turn, or with none |
| `Endings.NothingBehindTheEnd` | codex-rs/app-server-client/src/remote.rs:203-463 | no turn before the last is one of those |
| `Remote.Worker.Take` | codex-rs/app-server-client/src/remote.rs:207-450 | one turn of the loop is the step function |
| `Remote.Worker.TakeRequest` | codex-rs/app-server-client/src/remote.rs:215-249 | a duplicate id is answered without touching the waiter; a failed write takes its own waiter out again, tells it, and ends the loop |
| `Remote.Worker.Drain` | codex-rs/app-server-client/src/remote.rs:454-462 | after the drain every command was answered exactly once with what it is owed, in any order of the table |
| `Remote.EventsFollowTheWire` | codex-rs/app-server-client/src/remote.rs:307-449 | while running, the events are the convertible messages in wire order; a stopped worker adds at most the notice |
| `Remote.NothingLost` | codex-rs/app-server-client/src/remote.rs:307-449 | no event is lost while the consumer listens |
| `Remote.DisconnectedIsLast` | codex-rs/app-server-client/src/remote.rs:307-449 | the disconnect notice occurs only as the last event, with the message of the error that ended the worker |
| `Remote.UnknownRequests` | codex-rs/app-server-client/src/remote.rs:333-384 | each request that does not convert is rejected once, in order and with code -32601, or its failed rejection ends the run as a broken pipe |
| `Remote.InitializeRemoteConnection` | codex-rs/app-server-client/src/remote.rs:791-917 | the first frame that settles the handshake decides it: the answer to `initialize` accepts it, and each frame that fails it does so with the kind of error told of it; the frames before it are treated as in the worker; none in time is a timeout |
| `Remote.ClosedEarly` | codex-rs/app-server-client/src/remote.rs:791-917 | a connection that is closed during the handshake says why, even if the server gives no reason |
| `Remote.OneWire` | codex-rs/app-server-client/src/remote.rs:183-200 | the events of the handshake and of the worker together are those of the whole wire in order |
| `Remote.Client.PollEvent` | codex-rs/app-server-client/src/remote.rs:597-602 | one look: handshake events first, then those of the worker; it waits exactly if nothing is there and the worker runs, and yields nothing exactly if nothing is there and the worker has stopped |
| `Remote.Client.NextEvent` | codex-rs/app-server-client/src/remote.rs:597-602 | waits while the worker takes turns, no longer than until there is an event, and yields the next event of the whole wire, or nothing once the worker has stopped and all is read |
| `Remote.Client.Serve` | codex-rs/app-server-client/src/remote.rs:183-471 | the worker over any turns while the client reads between them: what was read and what can be read is the event stream of the whole wire, and then at most the notice; a finished worker has answered every command taken exactly once |
| `Remote.Connect` | codex-rs/app-server-client/src/remote.rs:183-471 | handshake, client and worker together: a client exists exactly if the handshake was accepted and acknowledged, its events are those of the whole wire, every request of handshake and worker that does not convert was rejected in order, and every command is answered exactly once |
| `Reducer.AnalyticsReducer.Ingest` | codex-rs/analytics/src/reducer.rs:373-481 | each fact changes the seven tables and the output as the table functions say |
| `Reducer.AnalyticsReducer.IngestAll` | codex-rs/analytics/src/reducer.rs:373-481 | after any facts the tables and the output are functions of the facts |
| `Reducer.AnalyticsReducer.MaybeEmitTurnEvent` | codex-rs/analytics/src/reducer.rs:1464-1515 | a complete turn with known connection and thread is reported and forgotten, with the accepted lines behind it if its diff has any; any other turn is left alone |
| `Reducer.AnalyticsReducer.IngestSubagentThreadStarted` | codex-rs/analytics/src/reducer.rs:511-539 | a subagent thread keeps what is known of it and inherits the rest from its parent |
| `Reducer.AnalyticsReducer.EmitThreadInitialized` | codex-rs/analytics/src/reducer.rs:1225-1267 | a thread response on an unknown connection is ignored |
| `Reducer.AnalyticsReducer.IngestTurnStartResponse` | codex-rs/analytics/src/reducer.rs:781-807 | the pending request is consumed, of whatever kind, and only a start updates the turn |
| `Reducer.AnalyticsReducer.IngestTurnSteerResponse` | codex-rs/analytics/src/reducer.rs:1332-1355 | an accepted steer is counted for a known turn and reported once |
| `Reducer.AnalyticsReducer.IngestItemCompleted` | codex-rs/analytics/src/reducer.rs:1092-1142 | the count, the start time, the event and the summary are handled up to the step that fails |
| `Reducer.AnalyticsReducer.EmitReviewEvent` | codex-rs/analytics/src/reducer.rs:1397-1443 | a review is recorded for its item even if its event cannot be sent |
| `Reducer.AnalyticsReducer.RecordItemReviewSummary` | codex-rs/analytics/src/reducer.rs:1445-1462 | one more review of the reviewer's kind, its outcome last |
| `Reducer.AnalyticsReducer.IngestServerRequest` | codex-rs/analytics/src/reducer.rs:818-932 | an approval request opens a review under its id unless its start time is negative |
| `Reducer.AnalyticsReducer.IngestAnswer` | codex-rs/analytics/src/reducer.rs:934-1017 | whichever of decision, grant or abort comes first takes the review out of its table and concludes it; a later one finds none |
| `Reducer.AnalyticsReducer.IngestErrorResponse` | codex-rs/analytics/src/reducer.rs:1019-1067 | an error takes the pending request out of its table and reports it if it was a steer |
| `Reducer.AnalyticsReducer.IngestGuardianReviewCompleted` | codex-rs/analytics/src/reducer.rs:1290-1330 | a guardian review that is in progress or has a negative time has no effect |
| `Accounting.ThreadsAreWhole` | codex-rs/analytics/src/reducer.rs:486-539 | in every reachable state a known thread has metadata and any connection it carries, own or inherited, is initialised |
| `Accounting.ContextIsMissingIff` | codex-rs/analytics/src/reducer.rs:1517-1553 | so a thread lacks metadata only if it is unknown, and a connection only if it carries none |
| `Accounting.UserReviewsAreOneShot` | codex-rs/analytics/src/reducer.rs:818-1017 | over every run the user review events of a request, plus one if it is pending, never exceed the approval requests under its id |
| `Accounting.ItemsAreOneShot` | codex-rs/analytics/src/reducer.rs:1075-1141 | over every run the events of a tool item, plus one if it is running, never exceed its starts |
| `Accounting.SteersAreOneShot` | codex-rs/analytics/src/reducer.rs:1019-1067 | over every run the steer events of a request, plus one if it is pending, never exceed its steer requests |
| `Accounting.PendingReviewsExact` | codex-rs/analytics/src/reducer.rs:818-1017 | the pending reviews are those opened last under their ids and not answered since |
| `Accounting.SummariesAreExact` | codex-rs/analytics/src/reducer.rs:1397-1462 | in every reachable state the summary of an item counts, by reviewer, exactly the reviews that ended since it was last cleared whose thread, turn and item are the item's and whose subject is a command, a file change or an MCP call, with the outcome of the last |
| `Accounting.ItemReportsItsReviews` | codex-rs/analytics/src/reducer.rs:1979-2017 | the event of a finished item reports exactly these, and clears them |
| `Accounting.OtherReviewsCountForNone` | codex-rs/analytics/src/reducer.rs:1600-1611 | reviews of permissions and of network access count for no item |
| `Accounting.ReviewCountsAddUp` | codex-rs/analytics/src/reducer.rs:1445-1462 | the review count is the sum of guardian and user reviews |
| `Accounting.ToolCountsAddUp` | codex-rs/analytics/src/reducer.rs:349-371 | in every reachable state the total of a turn is the sum of its seven categories |
| `Reports.ToolCountsAreExact` | codex-rs/analytics/src/reducer.rs:349-371 | in every reachable state a turn counts, in total and in each of the seven categories, exactly its items of that kind that finished since it is known |
| `Reports.ReviewEndsIff` | codex-rs/analytics/src/reducer.rs:934-1017 | after any facts a fact ends a review, with which status, resolution and time, if and only if the guardian judged it so or the user so answered the last approval request under the id, which opened it with the fields of that request and has not been answered since |
| `Reports.ReviewReportedIff` | codex-rs/analytics/src/reducer.rs:1397-1443 | it is reported if and only if the context of its thread is known, with that context |
| `Reports.AwaitedIff` | codex-rs/analytics/src/reducer.rs:818-1017 | a review waits under an id if and only if the last approval request under it opened it and no answer followed |
| `Reports.ItemReportedIff` | codex-rs/analytics/src/reducer.rs:1092-1142 | a tool item is reported, with its start and end times, how it ended by its status and the reviews since it was last cleared, if and only if it ends on a known turn, has started and the context of its thread is known |
| `Reports.RunningItemsExact` | codex-rs/analytics/src/reducer.rs:1075-1142 | an item runs since its last valid start that no completion has taken |
| `Reports.ThreadsAreExact` | codex-rs/analytics/src/reducer.rs:511-539 | in every reachable state a thread has the metadata of its last response, else of the first spawn, and the connection of its last response, else the one its parent had when it was spawned |
| `Reports.ClientsAreExact` | codex-rs/analytics/src/reducer.rs:486-509 | a connection is what its last initialisation said |
| `TurnJoin.TurnEventJoins` | codex-rs/analytics/src/reducer.rs:594-641 | any order of start response, config and completion, among any neutral facts and any start notices, usages, diffs, finished items and steers of the turn, sends exactly one event about the turn; it carries the last start time and usage and the items and steers counted before the last of the three, and the accepted lines of the last diff follow it |
| `TurnJoin.OrderIsIrrelevant` | codex-rs/analytics/src/reducer.rs:594-641 | without such further facts it is the same one event in every order |
| `TurnJoin.EventComesLast` | codex-rs/analytics/src/reducer.rs:1464-1515 | it comes with the last of the three and with no other fact |
| `TurnJoin.BetweenTwoEvents` | codex-rs/analytics/src/reducer.rs:1186-1219 | between two events about one turn there is a new start, a new config and a new completion of it |
| `Diff.AcceptedLineFingerprints` | codex-rs/analytics/src/accepted_lines.rs:30-83 | the loop computes the fold of the line reader over the lines of the text |
| `Diff.ReadAfterPrint` | codex-rs/analytics/src/accepted_lines.rs:30-83 | parsing any printed structured diff yields its exact totals and, in order, the fingerprints of its effective added lines under the real path of their file, none for a deleted file, whatever its hunk lines look like |
| `Diff.TotalsAreExact` | codex-rs/analytics/src/accepted_lines.rs:30-83 | of a printed diff as many lines are counted as added and as deleted as there are such changes, and each effective added line of a file that still exists is listed under the digests of its path and of its normal form, in order |
| `Diff.ReadPrintedText` | codex-rs/analytics/src/accepted_lines.rs:30-83 | so does parsing its text |
| `Diff.SectionsCompose` | codex-rs/analytics/src/accepted_lines.rs:40-44 | any text followed by file sections: the summaries add up |
| `Diff.ReadChomped` | codex-rs/analytics/src/accepted_lines.rs:39-76 | a carriage return at the end of a line changes nothing |
| `Diff.TargetPathIff` | codex-rs/analytics/src/accepted_lines.rs:143-155 | the path behind `b/` is recovered if and only if it does not end in white space |
| `Diff.OriginPath` | codex-rs/analytics/src/accepted_lines.rs:143-155 | without `b/` a leading `a/` goes |
| `Diff.PlainPath` | codex-rs/analytics/src/accepted_lines.rs:143-155 | any other path but `/dev/null` stays as it is |
| `Diff.SpaceAtEndOfPath` | codex-rs/analytics/src/accepted_lines.rs:143-155 | a path that ends in a space is not recovered |
| `Diff.EffectiveIsIdempotent` | codex-rs/analytics/src/accepted_lines.rs:157-169 | a normalised line is its own normal form |
| `Diff.EffectiveOfWords` | codex-rs/analytics/src/accepted_lines.rs:157-169 | a line of words, however spaced, counts by these words with one space between, and only if that is longer than three bytes and holds an alphanumeric character or an underscore |
| `Diff.Utf8Lengths` | codex-rs/analytics/src/accepted_lines.rs:157-169 | the length in bytes is that of the UTF-8 encoding |
| `Diff.CountsIgnoreRules` | codex-rs/analytics/src/accepted_lines.rs:60-76 | the totals do not depend on the digest or on character classes |
| `Dedupe.EpochsAreDistinct` | codex-rs/analytics/src/client.rs:84-116 | for any calls the accepted keys with the same index div 4096 are pairwise distinct |
| `Dedupe.RefusedIff` | codex-rs/analytics/src/client.rs:84-116 | a key is refused if and only if the epoch that the next accepted key belongs to already holds it |
| `Dedupe.EmittedKeys.ShouldEnqueue` | codex-rs/analytics/src/client.rs:103-116 | the set holds the keys of the latest epoch, never more than 4096, and the answer says whether the key is new to the epoch |
| `Dedupe.EmittedKeys.ShouldEnqueueAppUsed` | codex-rs/analytics/src/client.rs:84-101 | an app without a connector is always reported and not remembered |
| `Dedupe.TrackEventRequestBatches` | codex-rs/analytics/src/client.rs:413-434 | the batches are the events in order, none empty, isolated events alone, and no two neighbours could have been one batch |

## Left out

- Bundle.BundleRefsResolve: stated for inputs whose references lead to or, in a namespaced schema, into their own definitions and no ignored or special one, without `$defs`, and whose names are single path segments that are no namespace and have no owned base with digits; other inputs can leave references open. `Contents.ReferenceDenotes` says what a reference denotes without those conditions on references.
- Entries.OwnNameHolds: like `PlaceIsTakenIff` and `DefinitionHolds` stated for inputs whose names are single path segments and no namespaces; with a definition named like a namespace the forced pass rewrites a reference twice (`ForcedPassDoublesNamespace`).
- Listed.ListedArmsGo: stated for arms that are objects with a quoted method or texts without braces, each of which ends outside brackets, strings and comments; `FilterClientRequest` and `FilteredSplitsIntoSurvivorsIff` hold of any text.
- Listed.ListedFieldsGo: stated for fields named by letters, digits and underscores, at most one comment before them; `FilterTypeFields` holds of any text.
- Flatten.FlattenKeepsMeaning: stated for bundles in which nothing included refers to something left behind and no name means two things; `RootRefKeepsTarget` and `V2RefKeepsTarget` give the exact condition when names clash.
- Settling.ArmsSettleInOnePass: its conditions suffice and are not an equivalence: a file outside them can be settled by chance. `TwoPasses` holds files that are not.
- Settling.FieldsSettleInOnePass: its conditions suffice, as for the arm filter; that the new fields are enclosed is necessary for the type body to be found where it was.
- Bundle.AbsorbSchema: `annotate_schema` is a parameter; the theorems ask of it only that it adds titles, or replaces titles by strings.
- Escapes in references (`~0`, `~1` and percent signs): a segment of a reference is the name itself, as it is in the exporter.
- JSON documents are edited as values, not in place; the source owns each document exclusively, so nothing is shared.
- Overflow of the scanner's signed depths and of the analytics counters; the skip counter's saturation is modelled.
- Error texts are shortened; error kinds are those of the source.
- The text of a user review id: a review is identified by its request id, so two ids that print alike stay apart.
- Connecting, TLS, serialisation, timers and the network: the outcomes of writes and reads are inputs, and the frames given to the handshake are those that arrive before its deadline.
- Whether a websocket error at shutdown means that the connection was closed already: the outcome after that judgement is an input.
- The digest, the clock, git lookups and which characters are alphanumeric: parameters or inputs.
- Facts about skills, apps, hooks and plugins: each is turned into events with no regard to the tables, and no table changes.
- Fields of events that no table and no theorem depends on: durations, tool names, counts of command actions and file changes.
- `detect_numbered_definition_collisions` stops the export with a message when a definition and its name without digits both exist; `annotate_schema` makes up titles for variants from their discriminators.
- Which fields, methods and types are registered as experimental: inputs of the filter.
- `generate_index_ts` lists the exported modules in an index file, and the remaining functions read and write files.
- The command half of the in-process worker loop: it hands each command on and keeps no state.
