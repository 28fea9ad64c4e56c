# IdeaCraft Library: the project store and the blueprint pipeline

IdeaCraft keeps a library of product ideas ("projects"). Each project has a
free-text brain dump, documents, quick notes and tags, and an optional
*blueprint*: ordered sections, each with an ordered backlog of items that
carry details. One global store holds the projects, the open project, the
generation phase and the spotlight state. Every user action is a store
action that computes new field values from the old ones.

From the open project's workspace, a three-stage pipeline builds the
blueprint. It first writes generated section titles, then the backlog item
titles for each section, then a detail text for every item. Each stage
writes its results through the store's actions before the next stage
starts. A failure in any stage sets the phase to `error` and skips the
remaining stages. Writes that were already made stay in place.

The Dafny project has six modules:

- `Types` (types.dfy) holds the records and the six-valued `GenerationState`.
- `Text` (text.dfy) holds the tag trimming (ECMAScript `String.prototype.trim`).
- `ProjectEdits` (project_edits.dfy) holds what each store action does to the one project it targets.
  - It is a defunctionalised `Edit` with one function `Apply`.
  - `EditProjects` is the `projects.map(...)` that every action shares.
- `Store` (store.dfy) holds the store as a class with one method per action.
  - Each method states its new state outright.
  - Each method keeps the store invariant: unique project ids, and unique doc and note ids within a project.
  - A ghost `phaseLog` records every phase the store was set to.
- `Pipeline` (pipeline.dfy) holds `HandleGenerate` with its two loops.
  - Each loop body is a store call.
  - The method is proved against the function `Run`, which says what a run does to the projects and which phases it passes through.
- `PipelineFacts` (pipeline_facts.dfy) proves what `Run` means:
  - the possible phase traces, and that only the open project changes;
  - the exact blueprint a run leaves when the first two calls succeed;
  - that every identifier drawn in a run is distinct.

The text-generation service is the parameter `cap: Capability`, three
functions returning `Option`. `None` stands for a call that throws. The
UUID generator is a parameter `uuid: nat -> string`: the `n`-th identifier
drawn in a run is `uuid(n)`, and `Injective(uuid)` states that UUIDs never
repeat. The clock is a parameter `now`. The fresh ids of `addProject`,
`addDoc` and `addQuickNote` are parameters whose freshness is a
precondition.

## Model

| member | source | states |
|---|---|---|
| Store.ProjectStore.constructor | store/useStore.ts:35-39 | The store starts with no projects, nothing open, phase `idle`, no spotlight and no suggestions. |
| Store.ProjectStore.SetSpotlightedProject | store/useStore.ts:41 | Sets the spotlighted id and clears the suggestions; nothing else changes. |
| Store.ProjectStore.FetchSpotlightSuggestions | store/useStore.ts:43-47 | The suggestions become the service's answer, or empty when the service fails; nothing else changes. |
| Store.ProjectStore.AddProject | store/useStore.ts:49-62 | Appends exactly one new empty project with the fresh id at the end, returns that id, keeps the invariant and leaves every other field alone. |
| Store.ProjectStore.DeleteProject | store/useStore.ts:64-69 | Removes every project with the id, and closes the open project only if it had that id. |
| Store.ProjectStore.SetActiveProject | store/useStore.ts:71 | Opens the given id, even one no project has; nothing else changes. |
| Store.ProjectStore.EditProject | store/useStore.ts:73-189 | The shared `set(state => ({ projects: state.projects.map(...) }))` of every editing action: the projects become `EditProjects(old, id, e)`, the invariant is kept given that added doc and note ids are fresh, and the other fields are unchanged. |
| Store.ProjectStore.UpdateBrainDump | store/useStore.ts:73-79 | The projects become `EditProjects(old, id, SetBrainDump(content))`; the invariant is kept and the other fields are unchanged. |
| Store.ProjectStore.AddDoc | store/useStore.ts:81-87 | Appends a document with a fresh id to the target project; the store invariant is kept. |
| Store.ProjectStore.UpdateDoc | store/useStore.ts:89-95 | Rewrites the target project's docs by `SetDocContent`; the invariant is kept. |
| Store.ProjectStore.DeleteDoc | store/useStore.ts:97-103 | Filters the target project's docs by id; the invariant is kept. |
| Store.ProjectStore.SetGenerationState | store/useStore.ts:105 | Sets the phase and appends it to the phase log; the projects and the rest are unchanged. |
| Store.ProjectStore.AddQuickNote | store/useStore.ts:107-115 | Appends a note with a fresh id to the target project; the invariant is kept. |
| Store.ProjectStore.DeleteQuickNote | store/useStore.ts:117-125 | Filters the target project's notes by id; the invariant is kept. |
| Store.ProjectStore.AddTag | store/useStore.ts:127-135 | Rewrites the target project by `AddTag`, which adds the trimmed tag. |
| Store.ProjectStore.RemoveTag | store/useStore.ts:137-145 | Rewrites the target project by `RemoveTag`. |
| Store.ProjectStore.SetBlueprintSections | store/useStore.ts:147-154 | Rewrites the target project by `InstallSections`. |
| Store.ProjectStore.SetBacklogTitles | store/useStore.ts:156-168 | Rewrites the target project by `SetBacklog`. |
| Store.ProjectStore.SetBacklogDetails | store/useStore.ts:170-189 | Rewrites the target project by `SetDetails`. |
| Store.ProjectStore.GetActiveProject | store/useStore.ts:191-194 | Nothing exactly when no project has the active id; otherwise the first project of the store with that id. |
| ProjectEdits.FindProject | store/useStore.ts:193 | Nothing exactly when no project has the id; otherwise the first project that has it. |
| ProjectEdits.Apply | store/useStore.ts:73-189 | No edit changes a project's id, name or creation time, and each edit changes only the field its action is about. |
| ProjectEdits.EditProjects | store/useStore.ts:75-187 | Definition, no contract of its own: the `projects.map` every editing action shares. Projects with the target id are rewritten by `Apply`; the others, their number and their order are kept. `EditKeepsOthers` and `EditAbsentIsNoop` state this. |
| ProjectEdits.NewProject | store/useStore.ts:50-59 | Definition, no contract of its own: the project `addProject` creates, with the given id, name and time, an empty brain dump, no notes, tags or docs, and no blueprint. `OpenNewProject` states what a lookup then finds. |
| ProjectEdits.DocsWithContent | store/useStore.ts:92 | Definition, no contract of its own: the docs with the content of those with the doc id replaced. `UpdateDocEffect` states that docs keep number, order, ids and names. |
| ProjectEdits.BacklogWithDetails | store/useStore.ts:176-179 | Definition, no contract of its own: each item takes the detail of the first entry with its id, if any. `SetDetailsEffect` states the effect item by item. |
| ProjectEdits.RemoveProject | store/useStore.ts:66 | The survivors are exactly the projects whose id differs. |
| ProjectEdits.Filter | store/useStore.ts:100 | The result holds exactly the kept elements and is no longer than the input. |
| ProjectEdits.FilterAppend | store/useStore.ts:66 | Filtering distributes over concatenation, so survivors keep their order. |
| ProjectEdits.SectionStubs | store/useStore.ts:148 | The new sections have exactly the given ids and titles, in order. |
| ProjectEdits.SectionsWithBacklog | store/useStore.ts:160-162 | Section ids, titles, number and order are kept. |
| ProjectEdits.SectionsWithDetails | store/useStore.ts:174-183 | Section ids, titles, number and order are kept. |
| ProjectEdits.FindDetail | store/useStore.ts:177 | Nothing exactly when no entry has the item's id; otherwise the detail of the first entry with it. |
| ProjectEdits.WithDetail | store/useStore.ts:176-179 | An item keeps its id and title whatever the entries say. |
| ProjectEdits.EditAbsentIsNoop | store/useStore.ts:73-189 | An action addressed to an id no project has leaves the projects unchanged. |
| ProjectEdits.EditKeepsOthers | store/useStore.ts:73-189 | An action changes no project but the targeted one, and keeps every id and the order. |
| ProjectEdits.KeepsOthersTrans | components/ProjectWorkspace.tsx:62-87 | Leaving the other projects alone composes across writes. |
| ProjectEdits.EditKeepsDistinctIds | store/useStore.ts:73-189 | Editing keeps project ids unique. |
| ProjectEdits.EditKeepsInvariant | store/useStore.ts:73-189 | Every editing action keeps the store invariant, given that an added doc or note id is fresh. |
| ProjectEdits.EditKeepsWellFormed | store/useStore.ts:81-125 | Doc and note ids stay unique within a project under every edit. |
| ProjectEdits.RemoveKeepsInvariant | store/useStore.ts:64-69 | `deleteProject` keeps the store invariant. |
| ProjectEdits.AppendKeepsInvariant | store/useStore.ts:49-62 | `addProject` with a fresh id keeps the store invariant. |
| ProjectEdits.OpenNewProject | store/useStore.ts:49-62 | Looking up a just-added project finds exactly the new empty project. |
| ProjectEdits.FoundIsUnique | store/useStore.ts:191-194 | With unique ids, the found project is the only one with its id. |
| ProjectEdits.DeleteUndoesAdd | store/useStore.ts:49-69 | Deleting the id `addProject` returned restores the previous projects. |
| ProjectEdits.RemoveProjectAppend | store/useStore.ts:66 | Deletion keeps the surviving projects in order. |
| ProjectEdits.RemoveAbsentIsNoop | store/useStore.ts:64-69 | Deleting an absent id leaves the projects unchanged. |
| ProjectEdits.RemoveDocUndoesAppend | store/useStore.ts:81-103 | `deleteDoc` of a freshly added document restores the project. |
| ProjectEdits.RemoveNoteUndoesAppend | store/useStore.ts:107-125 | `deleteQuickNote` of a freshly added note restores the project. |
| ProjectEdits.UpdateDocEffect | store/useStore.ts:89-95 | Docs keep number, order, ids and names; only the content of docs with the id changes. |
| ProjectEdits.AddTagEffect | store/useStore.ts:127-135 | The trimmed tag is present afterwards, appended at the end only if it was absent. |
| ProjectEdits.AddTagKeepsDistinct | store/useStore.ts:127-135 | A duplicate-free tag list stays duplicate-free. |
| ProjectEdits.AddTagIdempotent | store/useStore.ts:127-135 | Adding the same tag twice equals adding it once. |
| ProjectEdits.RemoveTagEffect | store/useStore.ts:137-145 | The tag is gone and every other tag remains. |
| ProjectEdits.RemoveTagUndoesAddTag | store/useStore.ts:127-145 | Removing the trimmed tag undoes an `addTag` that added it. |
| ProjectEdits.InstallSectionsEffect | store/useStore.ts:147-154 | The blueprint has exactly the given sections in order, each with an empty backlog. |
| ProjectEdits.InstallSectionsReplaces | store/useStore.ts:147-154 | A second install leaves nothing of the first. |
| ProjectEdits.SetBacklogEffect | store/useStore.ts:156-168 | No-op without a blueprint; otherwise only the backlog of sections with the id is replaced, and section ids, titles and order are kept. |
| ProjectEdits.SetDetailsEffect | store/useStore.ts:170-189 | No-op without a blueprint. In the target section, items keep number, order, ids and titles; an item with an entry gets the first matching entry's detail, and the others keep their details. Other sections are untouched. |
| Text.Trim | store/useStore.ts:130-131 | The trimmed tag is the slice of the tag between leading and trailing white space, and it neither starts nor ends with white space. |
| Text.TrimOfTrimmed | store/useStore.ts:130-131 | A string without white space at its ends is its own trim. |
| Text.TrimIdempotent | store/useStore.ts:130-131 | Trimming twice is trimming once. |
| Pipeline.TitlesFor | components/ProjectWorkspace.tsx:71 | A section title without an entry gets no item titles. |
| Pipeline.DetailFor | components/ProjectWorkspace.tsx:83 | An item's detail is never empty. It is the response's entry for the item's title when that entry exists and is non-empty, and the fixed placeholder when the entry is missing or empty. |
| Pipeline.IsGenerating | components/ProjectWorkspace.tsx:105 | Definition, no contract of its own: the phase counts as generating exactly for `sections`, `titles` and `details`. `TraceInFlight` states what that means for a run. |
| Pipeline.SectionHeadsFor | components/ProjectWorkspace.tsx:65 | Definition, no contract of its own: one section per generated title, in order, the `i`-th taking the `i`-th id drawn from `next`. `HeadIdsAreDistinct` states that the ids differ. |
| Pipeline.NewBacklog | components/ProjectWorkspace.tsx:72 | Definition, no contract of its own: one item per title, in order, with the ids drawn from `next` and empty details. `InstallBacklogsEffect` states what stage 2 leaves. |
| Pipeline.InstallBacklogs | components/ProjectWorkspace.tsx:70-74 | Definition, no contract of its own: the stage-2 loop as a fold, one `setBacklogTitles` per stage-1 section in order. `InstallBacklogsEffect` and `InstallBacklogsKeepsOthers` state its effect. |
| Pipeline.Snapshot | components/ProjectWorkspace.tsx:77-78 | Definition, no contract of its own: the sections of the stored project stage 3 rereads, or none when it has no blueprint. `SnapshotReadsBack` states what they are after stage 2. |
| Pipeline.DetailsList | components/ProjectWorkspace.tsx:81-84 | Definition, no contract of its own: one entry per item of the section, in order, keyed by the item's id, with `DetailFor` of its title. `DetailsReachEveryItem` states that each item gets its own entry. |
| Pipeline.InstallDetails | components/ProjectWorkspace.tsx:79-86 | Definition, no contract of its own: the stage-3 loop as a fold, one detail call and one `setBacklogDetails` per section, stopping at the first failing call. `InstallDetailsEffect` and `InstallDetailsKeepsOthers` state its effect. |
| Pipeline.Run | components/ProjectWorkspace.tsx:56-94 | A run touches no phase exactly when there is no open project or its brain dump is empty, and then changes nothing. |
| Pipeline.Generate | components/ProjectWorkspace.tsx:62-93 | A run that starts enters `sections` first and sets at least two phases. |
| Pipeline.AfterSections | components/ProjectWorkspace.tsx:68-93 | Stages 2 and 3 start with `titles`. |
| Pipeline.AfterTitles | components/ProjectWorkspace.tsx:76-89 | Stage 3 sets exactly two phases, `details` first. |
| Pipeline.WriteBacklog | components/ProjectWorkspace.tsx:71-73 | One iteration of the stage-2 loop advances the fold `InstallBacklogs` by one section and reports how many ids it drew. |
| Pipeline.WriteBacklogs | components/ProjectWorkspace.tsx:70-74 | The stage-2 loop leaves exactly `InstallBacklogs` of the old projects. |
| Pipeline.WriteDetails | components/ProjectWorkspace.tsx:79-86 | The stage-3 loop leaves exactly the projects of `InstallDetails` and reports whether a call failed. |
| Pipeline.DetailsStage | components/ProjectWorkspace.tsx:76-89 | Stage 3 rereads the project from the store and ends as `AfterTitles` says, logging its phases. |
| Pipeline.TitlesStage | components/ProjectWorkspace.tsx:68-93 | Stages 2 and 3 end as `AfterSections` says. |
| Pipeline.SectionsStage | components/ProjectWorkspace.tsx:62-93 | The started run ends as `Generate` says. |
| Pipeline.HandleGenerate | components/ProjectWorkspace.tsx:56-94 | The projects, the logged phases and the final phase are those of `Run`, and the phase is untouched when the run does not start. |
| Pipeline.InstallBacklogsStep | components/ProjectWorkspace.tsx:70-74 | Proof step, one unfolding of `InstallBacklogs`: the stage-2 fold is one section's write followed by the rest. |
| Pipeline.InstallDetailsStep | components/ProjectWorkspace.tsx:79-86 | Proof step, one unfolding of `InstallDetails`: a successful detail call is one section's write followed by the rest. |
| Pipeline.InstallDetailsStop | components/ProjectWorkspace.tsx:90-93 | Proof step, one unfolding of `InstallDetails`: a failing detail call stops stage 3 with a failure and writes nothing more. |
| Pipeline.GenerateSucceeds | components/ProjectWorkspace.tsx:63-68 | Proof step, one unfolding of `Generate`: after a successful section call, stage 1's sections are installed and the run continues with stage 2. |
| PipelineFacts.RunTrace | components/ProjectWorkspace.tsx:57-93 | A run's phases are one of five traces: none, or `sections` then `titles` then `details` cut short by `error` or ended by `done`. A stage-1 failure changes no project. |
| PipelineFacts.AfterSectionsTrace | components/ProjectWorkspace.tsx:68-93 | Stages 2 and 3 pass through one of three phase traces. |
| PipelineFacts.AfterTitlesTrace | components/ProjectWorkspace.tsx:76-93 | Stage 3 ends in `error` or `done`. |
| PipelineFacts.TraceInFlight | components/ProjectWorkspace.tsx:105 | In every trace, every phase but the last counts as generating, and the last (`error` or `done`) does not. |
| PipelineFacts.InstallBacklogsKeepsOthers | components/ProjectWorkspace.tsx:70-74 | Stage 2 changes no project but the open one. |
| PipelineFacts.InstallDetailsKeepsOthers | components/ProjectWorkspace.tsx:79-86 | Stage 3 changes no project but the open one. |
| PipelineFacts.RunKeepsOthers | components/ProjectWorkspace.tsx:56-94 | A run changes no project but the open one, and keeps every id and the order. |
| PipelineFacts.HeadIdsAreDistinct | components/ProjectWorkspace.tsx:65 | Stage-1 sections get distinct ids. |
| PipelineFacts.OffsetGrows | components/ProjectWorkspace.tsx:70-72 | Stage 2 draws its ids in section order, after stage 1's. |
| PipelineFacts.SetBacklogStep | components/ProjectWorkspace.tsx:71-73 | One stage-2 write gives its section the items for its title and touches no other section. |
| PipelineFacts.InstallBacklogsEffect | components/ProjectWorkspace.tsx:70-74 | Stage 2 gives every section the items generated for its title, with ids drawn in order and empty details. |
| PipelineFacts.StagesOneAndTwo | components/ProjectWorkspace.tsx:63-74 | After stages 1 and 2, the open project holds exactly the `Stage2Sections`, whatever it held before. |
| PipelineFacts.DetailedBacklog | components/ProjectWorkspace.tsx:81-85 | A detailed backlog keeps the items' number, order, ids and titles. Each item's details become `DetailFor` of its own title, so no item is left with empty details. |
| PipelineFacts.FirstFailure | components/ProjectWorkspace.tsx:79-80 | The first section whose detail call fails: every call before it succeeds, and the call at it fails. |
| PipelineFacts.DetailsReachEveryItem | components/ProjectWorkspace.tsx:81-85 | With distinct item ids, the pairs stage 3 builds give each item the detail for its own title. |
| PipelineFacts.SetDetailsStep | components/ProjectWorkspace.tsx:81-85 | One stage-3 write fills in its section and touches no other. |
| PipelineFacts.InstallDetailsEffect | components/ProjectWorkspace.tsx:79-93 | Stage 3 fills in exactly the sections before the first failing call, and reports failure exactly when one fails. |
| PipelineFacts.Stage2IdsDistinct | components/ProjectWorkspace.tsx:65-72 | Stage 2 leaves distinct section ids and distinct item ids within each section. |
| PipelineFacts.SnapshotReadsBack | components/ProjectWorkspace.tsx:77-79 | Stage 3 reads back the sections the store holds for the open project. |
| PipelineFacts.AfterTitlesEffect | components/ProjectWorkspace.tsx:76-93 | Stage 3 ends in `done` exactly when every detail call succeeds, and leaves the `Stage3Sections`. |
| PipelineFacts.RunReachesDetails | components/ProjectWorkspace.tsx:62-76 | When the section and title calls succeed, the run hands the `Stage2Projects` to stage 3. |
| PipelineFacts.RunBuildsBlueprint | components/ProjectWorkspace.tsx:56-93 | When the section and title calls succeed, the phases are `sections`, `titles`, `details`, then `done` exactly when every detail call succeeds, else `error`. The open project's blueprint is the generated sections and backlogs, filled in up to the first failing section. |
| PipelineFacts.RunStopsAtTitles | components/ProjectWorkspace.tsx:66-93 | A failing title call ends the run in `error`, and the open project keeps stage 1's bare sections: no rollback. |
| PipelineFacts.Stage2IdsDrawn | components/ProjectWorkspace.tsx:65-72 | Section `j` has the `j`-th id. Its items have the ids that follow every section id, in order before the next section's. |
| PipelineFacts.SectionIdsAreNotItemIds | components/ProjectWorkspace.tsx:65-72 | No section id is also an item id. |
| PipelineFacts.OffsetsApart | components/ProjectWorkspace.tsx:70-72 | A section's item ids come before every later section's. |
| PipelineFacts.ItemIdsDifferPair | components/ProjectWorkspace.tsx:72 | Items of two different sections have different ids. |
| PipelineFacts.ItemIdsDifferAcrossSections | components/ProjectWorkspace.tsx:72 | No two sections share an item id. |

## Left out

- Persistence to local storage (store/useStore.ts:196-199) is an external storage layer and is not modelled.
- Asynchrony is left out. The pipeline is one sequential run: no other action interleaves with it, and a second run cannot start while one is in flight. The dynamic import in `fetchSpotlightSuggestions` is left out as well.
- The text-generation service (services/geminiService.ts) is reduced to its contract. Each call returns a result or fails. The suggestion call yields an empty list on failure (services/geminiService.ts:168-172). Prompts, JSON parsing and API keys are left out.
- `crypto.randomUUID()` is an injected supply `uuid`, and `Date.now()` is a parameter. UUID uniqueness is assumed: `Injective(uuid)`, and fresh-id preconditions on `AddProject`, `AddDoc` and `AddQuickNote`.
- The unmount effect that resets the phase to `idle` (components/ProjectWorkspace.tsx:50-54) is component lifecycle plumbing and is left out.
- The alert shown for a missing brain dump and the console logging are output only. The model changes nothing in those cases.
- Looking up a section title in `titlesBySection` (components/ProjectWorkspace.tsx:71) and an item title in `detailsMap` (components/ProjectWorkspace.tsx:83) is modelled on maps of the response's own keys. JavaScript's inherited object keys (such as `constructor`) are not modelled: for an item titled `constructor` with no entry of its own, the code stores the inherited function where the model stores the placeholder.
- The UI components that only render and wire events are not part of this model.
- `deleteProject` leaves `spotlightedProjectId` as it is, even when it names the deleted project. The model follows the code.
