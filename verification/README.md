# Campaign builder core, modelled in Dafny

This project models the state logic of a multi-platform outreach campaign
builder. The builder has two editors:

- **The wizard's sequence editor** (name step, sequence step, message editor and
  its toolbar, A/B variants, AI suggestions, template library and its
  persistent store) builds an ordered list of steps. Each step is a wait or a
  message for one platform.
- **The node-graph editor** (workflow store, canvas, node configuration panel)
  builds a directed graph of send / wait / branch / end nodes.

Every handler is a pure function from the old state to the new one, with the
same branches, guards, constants and error strings as the code. Identifiers
from `crypto.randomUUID()`, clock readings and random draws are parameters.

Module layout:

- **Shared definitions.** `Options` holds `Option` and the spread-merge helper `Override`. `Seqs` holds an order-keeping `Filter` with its algebra, `Subsequence` and `Dedup`. `Text` holds ECMAScript `trim`, ASCII case mapping, `includes`, `split` and `join`.
- **Types.** `CampaignTypes` holds the wizard's records. `WorkflowTypes` holds the graph's records, including `NodeType`, `NodeData` and the partial-data merge.
- **Stores.** `WorkflowStore` models the graph store. `TemplateStore` models the template store.
- **Components.** `TemplateLibrary`, `SaveTemplateModal`, `NameStep`, `MessageToolbar`, `MessageVariants`, `SequenceStep`, `MessageEditor`, `AiSuggestions`, `WorkflowCanvas` and `NodeConfig`, one per component file.

Where the design description and the code disagree, the model follows the
code. There are four such places:

- The basic editor's "add variant" renormalises every variant to
  `floor(100 / (n + 1))` (`SequenceStep.AddVariant`). The variants panel adds a
  new variant at weight 50 without renormalising (`MessageVariants.AddVariant`).
  Both behaviours are modelled, each in its own place.
- `addTemplate` reads the clock twice, so `createdAt` and `updatedAt` are two
  parameters. Nothing forces them to be equal.
- A graph node's `variants` holds plain strings, and its `condition` holds the
  select's raw string. The declared node-data interface says otherwise, but
  this is what the configuration panel writes, so it is what `NodeData` holds.
- The template store's `addTemplate` accepts any name, blank ones included.
  The non-blank check is made only by the save dialog before it calls the
  store, so `TemplateStore.AddTemplate` has no name guard and
  `SaveTemplateModal.Save` holds the check.

## Model

| member | source | states |
|---|---|---|
| WorkflowStore.AddNode | src/stores/workflowStore.ts:21-22 | the node is appended after the existing ones, which are kept; edges and selection are untouched |
| WorkflowStore.UpdateNode | src/stores/workflowStore.ts:23-28 | every node with the id gets its data shallow-merged with the partial; ids, renderer names, positions, other nodes, edges and selection are unchanged |
| WorkflowStore.RemoveNode | src/stores/workflowStore.ts:29-35 | no node with the id and no edge touching it remains; every other node and edge survives in order with all its copies; the selection is not cleared |
| WorkflowStore.SetSelectedNode | src/stores/workflowStore.ts:36-37 | the selection becomes the given id; nodes and edges are unchanged |
| WorkflowStore.AddEdge | src/stores/workflowStore.ts:38-39 | the edge is appended, with no check of endpoints or duplicates |
| WorkflowStore.RemoveEdge | src/stores/workflowStore.ts:40-43 | no edge with the id remains, the others survive in order with all their copies, nodes and selection are unchanged |
| WorkflowStore.UpdateNodeUnknownId | src/stores/workflowStore.ts:23-28 | an update naming no node leaves the state as it was |
| WorkflowStore.UpdateNodeIdempotent | src/stores/workflowStore.ts:23-28 | applying the same partial twice equals applying it once |
| WorkflowStore.RemoveNodeUndoesAddNode | src/stores/workflowStore.ts:21-35 | removing a freshly added node (fresh id, no edge at it) restores the previous state |
| WorkflowStore.RemoveEdgeUndoesAddEdge | src/stores/workflowStore.ts:38-43 | removing a freshly added edge by its fresh id restores the previous state |
| WorkflowStore.RemoveNodePreservesIntegrity | src/stores/workflowStore.ts:29-35 | if every edge connected existing nodes before, the cascade keeps it so |
| WorkflowStore.AddAndUpdatePreserveIntegrity | src/stores/workflowStore.ts:21-28 | adding a node and updating node data keep every edge's endpoints present |
| WorkflowStore.AddEdgeIsUnchecked | src/stores/workflowStore.ts:38-39 | an edge from an absent node is accepted and breaks referential integrity |
| WorkflowStore.RemoveNodeLeavesSelectionDangling | src/stores/workflowStore.ts:29-37 | removing the selected node leaves the selection naming a node that no longer exists |
| WorkflowStore.RemoveMiddleOfChain | src/stores/workflowStore.ts:29-35 | on the chain A -> B -> C, removing B leaves nodes A and C and no edge |
| WorkflowTypes.ParseNodeType | src/components/workflow/nodes/types.ts:1-5 | reading a type string and spelling it again gives the string back; it is unknown exactly when it is none of the four spellings |
| WorkflowTypes.ParseNodeTypeName | src/components/workflow/nodes/types.ts:1-5 | every named node type survives spelling and re-reading |
| TemplateStore.AddTemplate | src/stores/templateStore.ts:17-27 | one template is appended with the draft's fields, the given id and the two separately read timestamps; existing templates are kept |
| TemplateStore.UpdateTemplate | src/stores/templateStore.ts:28-36 | templates with the id get the partial merged and then the clock reading as updatedAt; the others are unchanged |
| TemplateStore.UpdateTemplateIgnoresSuppliedUpdatedAt | src/stores/templateStore.ts:32 | an updatedAt carried in the partial has no effect, because the clock reading overrides it |
| TemplateStore.UpdateTemplateUnknownId | src/stores/templateStore.ts:28-36 | updating an absent id leaves the list as it was |
| TemplateStore.DeleteTemplate | src/stores/templateStore.ts:37-41 | no template with the id remains and all others survive in order, every copy kept |
| TemplateStore.DeleteTemplateIdempotent | src/stores/templateStore.ts:37-41 | deleting an absent id changes nothing; deleting twice equals deleting once |
| TemplateStore.DeleteUndoesAdd | src/stores/templateStore.ts:17-41 | deleting a freshly added template by its fresh id restores the list |
| TemplateStore.TemplatesByPlatform | src/stores/templateStore.ts:42-44 | exactly the templates of that platform, in store order, every copy kept |
| TemplateLibrary.FilteredTemplates | src/components/campaigns/sequence/TemplateLibrary.tsx:18-27 | a template is listed iff it is on the platform, matches a non-empty query case-insensitively in name or content, and carries a selected tag; store order and every copy are kept |
| TemplateLibrary.UnfilteredQueryIsPlatformQuery | src/components/campaigns/sequence/TemplateLibrary.tsx:18-27 | with an empty query and no tag the picker lists exactly the store's platform query |
| TemplateLibrary.SearchIgnoresCase | src/components/campaigns/sequence/TemplateLibrary.tsx:21-23 | queries equal after lower-casing give the same list |
| TemplateLibrary.FlatTags | src/components/campaigns/sequence/TemplateLibrary.tsx:30 | holds every tag of every template and nothing else |
| TemplateLibrary.AllTags | src/components/campaigns/sequence/TemplateLibrary.tsx:29-31 | the tag buttons: every tag of every template, each once, and no other string |
| SaveTemplateModal.AddTag | src/components/campaigns/sequence/SaveTemplateModal.tsx:21-26 | the trimmed input is appended and the input cleared iff it is non-empty and not yet a tag; otherwise nothing changes; tags stay duplicate-free |
| SaveTemplateModal.RemoveTag | src/components/campaigns/sequence/SaveTemplateModal.tsx:28-30 | the tag is gone, every other tag is kept in order with all its copies |
| SaveTemplateModal.RemoveTagUndoesAddTag | src/components/campaigns/sequence/SaveTemplateModal.tsx:21-30 | removing a just-added tag restores the tag list |
| SaveTemplateModal.Save | src/components/campaigns/sequence/SaveTemplateModal.tsx:32-46 | the dialog closes iff the name is not blank; a blank name sets the error and leaves the store alone; otherwise one template with the trimmed name and the given content, platform and tags is stored |
| SaveTemplateModal.EditName | src/components/campaigns/sequence/SaveTemplateModal.tsx:81-84 | typing replaces the name and clears the error |
| SaveTemplateModal.BlankNameRejected | src/components/campaigns/sequence/SaveTemplateModal.tsx:33-36 | a name of three spaces is rejected with the validation message and stores nothing |
| NameStep.TogglePlatform | src/components/campaigns/steps/NameStep.tsx:35-42 | the platform's membership flips, no other platform's changes, a new platform goes last, no duplicates appear, the error is cleared |
| NameStep.ToggleTwice | src/components/campaigns/steps/NameStep.tsx:35-42 | toggling twice restores the membership of every platform, and the exact list when the platform was not selected |
| NameStep.Continue | src/components/campaigns/steps/NameStep.tsx:44-55 | the wizard advances iff the name is not blank and a platform is selected; otherwise the name error takes priority over the platform error; the untrimmed name is sent |
| NameStep.EditName | src/components/campaigns/steps/NameStep.tsx:67-70 | typing replaces the name and clears the error |
| MessageToolbar.Limit | src/components/campaigns/sequence/MessageToolbar.tsx:21-35 | every limit lies in 280..10000, Twitter's alone is 280 and Reddit's alone is 10000 |
| MessageToolbar.IsOverLimit | src/components/campaigns/sequence/MessageToolbar.tsx:63-64 | over exactly when the count is strictly greater than the platform's limit; never over at 280 characters or fewer, always over beyond 10000 |
| MessageToolbar.LimitIsInclusive | src/components/campaigns/sequence/MessageToolbar.tsx:63-64 | a count equal to the limit is allowed, one more is over, and being over is kept by adding characters |
| MessageToolbar.TwitterIsStrictest | src/components/campaigns/sequence/MessageToolbar.tsx:21-35 | a message within Twitter's limit is within every platform's |
| MessageVariants.TotalWeight | src/components/campaigns/sequence/MessageVariants.tsx:135 | the plain sum of the weights, as the left fold adds them; with weights in 0..100 it lies between 0 and 100 per variant, and nothing forces it to be 100 |
| MessageVariants.TotalWeightConcat | src/components/campaigns/sequence/MessageVariants.tsx:43 | the total of two lists one after the other is the sum of their totals, so an appended variant adds exactly its own weight |
| MessageVariants.TotalOfEqualWeights | src/components/campaigns/sequence/MessageVariants.tsx:135 | the total of n variants of weight w is n times w |
| MessageVariants.AddVariant | src/components/campaigns/sequence/MessageVariants.tsx:20-27 | one empty variant of weight 50 is appended, the others are unchanged, the total grows by 50 |
| MessageVariants.UpdateVariant | src/components/campaigns/sequence/MessageVariants.tsx:29-31 | variants with the id get the partial merged, the others are unchanged, and length and order are kept |
| MessageVariants.UpdateVariantUnknownId | src/components/campaigns/sequence/MessageVariants.tsx:29-31 | an update naming no variant leaves the list as it was |
| MessageVariants.UpdateVariantIdempotent | src/components/campaigns/sequence/MessageVariants.tsx:29-31 | sending the same partial twice equals sending it once, even when the partial renames the variant |
| MessageVariants.RemoveVariant | src/components/campaigns/sequence/MessageVariants.tsx:33-37 | refused while at most one variant exists; otherwise the id is gone, the rest kept in order with all their copies; with distinct ids the list never empties |
| MessageVariants.RemoveVariantCount | src/components/campaigns/sequence/MessageVariants.tsx:33-37 | removing a present id from two or more variants with distinct ids removes exactly one |
| MessageVariants.DuplicateVariant | src/components/campaigns/sequence/MessageVariants.tsx:39-46 | a copy with a fresh id and weight max(0, 100 - total) is appended; the new total is max(old total, 100) |
| MessageVariants.ClampWeight | src/components/campaigns/sequence/MessageVariants.tsx:96 | the result lies in 0..100, equals an in-range input, and is 0 below and 100 above |
| MessageVariants.SetWeight | src/components/campaigns/sequence/MessageVariants.tsx:96 | the matching variant's weight becomes the clamped number, every other variant is unchanged, ids and contents are kept, and weights in range stay in range |
| MessageVariants.AddVariantOversubscribes | src/components/campaigns/sequence/MessageVariants.tsx:20-27 | adding to variants totalling 100 makes the total 150, because the panel never renormalises |
| SequenceStep.ActionTypes | src/components/campaigns/steps/SequenceStep.tsx:25-36 | the menu is a wait entry followed by one "<platform> DM" message entry per selected platform, in order |
| SequenceStep.AddMessage | src/components/campaigns/steps/SequenceStep.tsx:38-52 | one step is appended and made active and the menu closes; a wait step waits 24 h with no variants; a message step waits 0 h with a single weight-100 variant |
| SequenceStep.UpdateMessage | src/components/campaigns/steps/SequenceStep.tsx:54-58 | steps with the id get the partial merged, others unchanged; an absent id changes nothing |
| SequenceStep.FindMessage | src/components/campaigns/steps/SequenceStep.tsx:61 | the first step with the id, and none exactly when there is no such step |
| SequenceStep.RenormalisedVariants | src/components/campaigns/steps/SequenceStep.tsx:64-70 | ids and contents are kept, one empty variant is added, every weight is floor(100 / (n + 1)), and the total lies in 100 - n..100 |
| SequenceStep.AddVariant | src/components/campaigns/steps/SequenceStep.tsx:60-73 | a no-op unless the step exists as a message step with variants; otherwise the step's variants are renormalised and all other steps are kept |
| SequenceStep.IndexOfId | src/components/campaigns/steps/SequenceStep.tsx:89 | the first position with the id, or -1 exactly when the id is absent |
| SequenceStep.VariantIndex | src/components/campaigns/steps/SequenceStep.tsx:84-90 | 0 exactly when the step is not among the message steps of its platform |
| SequenceStep.IndexOfIdAfter | src/components/campaigns/steps/SequenceStep.tsx:89 | a step preceded only by other ids is found at its own position |
| SequenceStep.VariantIndexCountsEarlierSteps | src/components/campaigns/steps/SequenceStep.tsx:84-90 | a message step's number is one more than the count of earlier message steps on its platform |
| SequenceStep.VariantIndexIgnoresUnrelatedSteps | src/components/campaigns/steps/SequenceStep.tsx:86-88 | inserting a wait step or another platform's step anywhere leaves every step's number unchanged |
| SequenceStep.Continue | src/components/campaigns/steps/SequenceStep.tsx:285 | the sequence is handed on exactly when it is not empty, and unchanged |
| MessageEditor.Render | src/components/campaigns/sequence/MessageEditor.tsx:73-75 | the preview is empty only for empty text, since a placeholder without a non-empty value falls back to itself rather than vanishing |
| MessageEditor.RenderPreview | src/components/campaigns/sequence/MessageEditor.tsx:61-76 | substitution against the eight-field sample lead; a text none of whose placeholders names a sample field previews as written |
| MessageEditor.TokenAtFindsToken | src/components/campaigns/sequence/MessageEditor.tsx:73 | the scanner finds exactly the prefix that is a `{word}` token |
| MessageEditor.UnknownTokensVerbatim | src/components/campaigns/sequence/MessageEditor.tsx:73-75 | when no token names a value, the preview is the text itself |
| MessageEditor.NoTokenUnchanged | src/components/campaigns/sequence/MessageEditor.tsx:73-75 | text without tokens previews unchanged |
| MessageEditor.EmptyValuesUnchanged | src/components/campaigns/sequence/MessageEditor.tsx:73-75 | with no values every text previews unchanged |
| MessageEditor.RenderToken | src/components/campaigns/sequence/MessageEditor.tsx:73-75 | a token with a non-empty value is replaced by it, any other token is kept verbatim, and scanning resumes after it |
| MessageEditor.RenderPlainChar | src/components/campaigns/sequence/MessageEditor.tsx:73 | a character other than `{` is copied |
| MessageEditor.DoubleBracesKeepOuterBraces | src/components/campaigns/sequence/MessageEditor.tsx:73-75 | for any word `name`, `{{name}}` previews as the inner token's replacement (its value, or `{name}` itself) between single braces |
| MessageEditor.RenderSplitsAtBrace | src/components/campaigns/sequence/MessageEditor.tsx:73 | no token spans a `{`, so the preview of a text splits there |
| MessageEditor.InsertVariable | src/components/campaigns/sequence/MessageEditor.tsx:33-50 | nothing happens without a textarea; otherwise the selection is replaced by `{variable}`, and the cursor lands right after its closing brace, with the text before and after kept |
| MessageEditor.InsertedVariablePreviews | src/components/campaigns/sequence/MessageEditor.tsx:33-75 | an inserted variable whose value is non-empty previews as that value, between the previews of the text before and after the selection |
| AiSuggestions.InitialSuggestionsWellFormed | src/components/campaigns/sequence/AiSuggestions.tsx:27-46 | the opening list has distinct ids, listed tones, and no suggestion both liked and disliked |
| AiSuggestions.HandleLike | src/components/campaigns/sequence/AiSuggestions.tsx:64-68 | matching suggestions flip liked and clear disliked; all others and the order are kept |
| AiSuggestions.HandleDislike | src/components/campaigns/sequence/AiSuggestions.tsx:70-74 | matching suggestions flip disliked and clear liked; all others and the order are kept |
| AiSuggestions.HandlersKeepExclusive | src/components/campaigns/sequence/AiSuggestions.tsx:66-72 | after either handler the target is never both liked and disliked, and a list free of double votes stays so |
| AiSuggestions.DislikeOverridesLike | src/components/campaigns/sequence/AiSuggestions.tsx:64-74 | like then dislike leaves the target disliked and not liked |
| AiSuggestions.LikeTwice | src/components/campaigns/sequence/AiSuggestions.tsx:64-68 | liking twice restores the list iff no matching suggestion was disliked |
| AiSuggestions.ToggleChoice | src/components/campaigns/sequence/AiSuggestions.tsx:111 | choosing the current choice clears it; any other choice selects it |
| AiSuggestions.ToggleTwice | src/components/campaigns/sequence/AiSuggestions.tsx:129 | pressing a button twice restores the selection iff it was empty or that very choice |
| AiSuggestions.Generate | src/components/campaigns/sequence/AiSuggestions.tsx:48-62 | exactly one suggestion is prepended, the rest kept in order; its tone is the chosen one or "Professional"; its rating is 85..99; it is neither liked nor disliked |
| AiSuggestions.GenerateKeepsExclusive | src/components/campaigns/sequence/AiSuggestions.tsx:52-59 | generation keeps the list free of double votes |
| AiSuggestions.GenerateKeepsTonesListed | src/components/campaigns/sequence/AiSuggestions.tsx:20-59 | with a tone from the buttons or none, every tone stays one of the buttons' |
| WorkflowCanvas.TitleFrom | src/components/workflow/WorkflowCanvas.tsx:47 | the label, read character by character: same length, each `-` becomes a space, and only the first character of each dash-separated piece is upper-cased |
| WorkflowCanvas.Label | src/components/workflow/WorkflowCanvas.tsx:47 | split-capitalise-join equals the character-wise reading |
| WorkflowCanvas.LabelIsTitled | src/components/workflow/WorkflowCanvas.tsx:47 | the joined capitalised pieces equal the character-wise reading, for either start state |
| WorkflowCanvas.SendDmLabel | src/components/workflow/WorkflowCanvas.tsx:47 | "send-dm" is labelled "Send Dm" |
| WorkflowCanvas.DecimalInjective | src/components/workflow/WorkflowCanvas.tsx:44 | distinct clock readings are written as distinct decimal strings |
| WorkflowCanvas.OnDrop | src/components/workflow/WorkflowCanvas.tsx:31-52 | a drop without a type changes nothing; otherwise one node is appended to both the canvas and the store, with the id type-clock, offset position, the type read from its spelling and the title-cased label of the type, and nothing else changes |
| WorkflowCanvas.DropsAtDifferentTimesDiffer | src/components/workflow/WorkflowCanvas.tsx:44 | two dropped nodes with the same id were dropped at the same clock reading |
| WorkflowCanvas.DropKeepsCanvasAndStoreInStep | src/components/workflow/WorkflowCanvas.tsx:50-51 | a drop keeps the canvas's node list equal to the store's when it was |
| WorkflowCanvas.OnNodeClick | src/components/workflow/WorkflowCanvas.tsx:56-61 | the clicked node becomes the selection; nodes and edges are unchanged |
| WorkflowCanvas.OnConnect | src/components/workflow/WorkflowCanvas.tsx:26-29 | the canvas's edges come from the library's addEdge; the store is left exactly as it was |
| NodeConfig.InitialVariants | src/components/workflow/nodes/NodeConfig.tsx:14-18 | one wrapper per stored content, in order, of weight floor(100 / count) with a fresh id, totalling at most 100; none without a variants list |
| NodeConfig.HandleVariantsUpdate | src/components/workflow/nodes/NodeConfig.tsx:20-23 | the wrappers are kept locally and only their contents are sent as the partial |
| NodeConfig.FlattenAfterSynthesis | src/components/workflow/nodes/NodeConfig.tsx:14-23 | flattening the synthesised wrappers gives the stored contents back |
| NodeConfig.OnEdit | src/components/workflow/nodes/NodeConfig.tsx:25-93 | an edit yields a partial iff the node type's panel offers it (content and variants for send-dm, delay for wait-time, condition for if-then, nothing otherwise), and the partial sets exactly that field |
| NodeConfig.EditChangesOnlyItsField | src/components/workflow/nodes/NodeConfig.tsx:37-73 | an offered edit sent through the store changes exactly its own field of the node's data, and sending it again changes nothing more |
| Text.Trim | src/components/campaigns/sequence/SaveTemplateModal.tsx:22 | the result is a slice of the input that neither starts nor ends with whitespace, with only whitespace cut off, and is empty iff the input is all whitespace |
| Text.JoinSplit | src/components/workflow/WorkflowCanvas.tsx:47 | splitting at a character and joining with it gives the string back |
| Seqs.FilterFilter | src/components/campaigns/sequence/TemplateLibrary.tsx:18-27 | two successive filters equal one filter by both predicates |
| Seqs.Dedup | src/components/campaigns/sequence/TemplateLibrary.tsx:29-31 | `Array.from(new Set(xs))`: duplicate-free, with exactly the elements of the input |

## Left out

- Persistence: the template store's local-storage middleware (`persist`) is not modelled; the store is its in-memory list.
- Identifiers, clocks and randomness are parameters: `crypto.randomUUID()`, `new Date().toISOString()`, `Date.now()` and `Math.random()`.
- TemplateStore.UpdateTemplate: the clock reading is a parameter, so nothing states that `updatedAt` moves forward in time.
- WorkflowTypes.MergeData: a patch field is either absent or a value, so a patch cannot reset a node field to `undefined` as a spread of an explicit `undefined` would; no handler of the graph editor sends one.
- AiSuggestions.LikeTwice: the optional `liked`/`disliked` flags are plain booleans, so an absent flag and an explicit `false` are the same value. In the source, liking twice leaves `liked: false` where the field was absent, which no view reads differently; the lemma's equality holds only under that identification.
- WorkflowCanvas.OnDrop: the drop's `clientX`/`clientY` are integers here. The browser reports them as doubles, fractional under zoom, and floating point is not modelled.
- `parseInt` on typed numbers, including NaN, is not modelled. Typed numbers are integers (the weight field, the delay field, the step delay).
- Text.Lower: ASCII case mapping only. JavaScript's full Unicode `toLowerCase`/`toUpperCase` is not modelled, and neither is UTF-16 code-unit counting (lengths and cursor positions count characters).
- MessageEditor.InsertVariable: the selection is clamped as `substring` clamps it, but the contract speaks only of selections inside the text with start <= end, which is what a textarea reports.
- Placeholder names are looked up in a map. Names that hit the preview object's prototype (`{constructor}`, `{toString}`) are not modelled.
- Locale date formatting in the template list, and the regex that turns camelCase variable names into display labels in the toolbar, are not modelled.
- Timers are not modelled: the 1.5 s generation delay, the cursor-restore timeout and the stale list the delayed generation closes over. Generation acts on the list it is given, and the random draw is the `roll` parameter.
- The graph library's internals are not modelled: node and edge change handlers, drag-over and `dataTransfer`. Its `addEdge` is a function parameter of `OnConnect`.
- The node editor side panel only forwards edits of the selected node to `updateNode`, which the store model covers. The basic/workflow mode switch in the sequence step and the other view-only components (node renderer, controls, platform selector, editor shell) are rendering or glue with no state logic of their own.
- The wizard's `updateData` and `onNext` callbacks are results: `NameStep.Continue` and `SequenceStep.Continue` return the update they would send.
