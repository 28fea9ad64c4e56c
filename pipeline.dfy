/** The three-stage blueprint pipeline run from a project's workspace:
    sections, then backlog titles per section, then details per section,
    each stage's results written into the store before the next stage runs.
    `Run` says what a run does to the store; `HandleGenerate` is the run
    itself, proved to do exactly that. */
module Pipeline {
  import opened Types
  import opened ProjectEdits
  import opened Store

  /** The detail text an item gets when the response has none for it. */
  const Placeholder: string := "Could not generate details for this item."

  /** The external text-generation capability. `None` stands for a call that
      throws (a network failure or a response that does not parse). */
  datatype Capability = Capability(
    /** section titles, in order, for a brain dump and its documents */
    sections: (string, seq<Doc>) -> Option<seq<string>>,
    /** backlog item titles, keyed by section title */
    titles: (string, seq<Doc>, seq<string>) -> Option<map<string, seq<string>>>,
    /** detail text, keyed by item title, for one section and its items */
    details: (string, seq<Doc>, BlueprintSection) -> Option<map<string, string>>)

  /** The phases in which a run is in flight (the spinner shows and the
      generate button is disabled). */
  predicate IsGenerating(g: GenerationState) {
    g == Sections || g == Titles || g == Details
  }

  /** A supply of identifiers that never repeats: the model of successive
      UUIDs. The `n`-th identifier drawn in a run is `uuid(n)`. */
  ghost predicate Injective(uuid: nat -> string) {
    forall m: nat, n: nat :: m != n ==> uuid(m) != uuid(n)
  }

  // ---------------------------------------------------------------------
  // Stage 1

  /** Section title `i` gets the identifier drawn `i`-th after `next`. */
  function SectionHeadsFor(titles: seq<string>, uuid: nat -> string, next: nat): seq<SectionHead> {
    seq(|titles|, i requires 0 <= i < |titles| => SectionHead(uuid(next + i), titles[i]))
  }

  // ---------------------------------------------------------------------
  // Stage 2

  /** The item titles generated for a section, looked up by the section's
      title; a title without an entry has no items. */
  function TitlesFor(titlesBySection: map<string, seq<string>>, title: string): (r: seq<string>)
    ensures title !in titlesBySection ==> r == []
    ensures title in titlesBySection ==> r == titlesBySection[title]
  {
    if title in titlesBySection then titlesBySection[title] else []
  }

  /** Item title `i` becomes an item with the identifier drawn `i`-th after
      `next` and empty details. */
  function NewBacklog(titles: seq<string>, uuid: nat -> string, next: nat): seq<BacklogItem> {
    seq(|titles|, i requires 0 <= i < |titles| => BacklogItem(uuid(next + i), titles[i], ""))
  }

  /** How many identifiers stage 2 has drawn, counted from `next`, when it
      reaches section `k`. */
  function Offset(heads: seq<SectionHead>, titlesBySection: map<string, seq<string>>, next: nat, k: nat): nat
    requires k <= |heads|
  {
    if k == 0 then next
    else Offset(heads, titlesBySection, next, k - 1) + |TitlesFor(titlesBySection, heads[k - 1].title)|
  }

  /** The store's projects after stage 2's writes for sections `k`, `k + 1`,
      ..., in section order, when `drawn` identifiers have been drawn
      already: each write gives one section the backlog built from the titles
      generated for its title. */
  function InstallBacklogs(ps: seq<Project>, projectId: string, heads: seq<SectionHead>,
                           titlesBySection: map<string, seq<string>>, uuid: nat -> string, k: nat, drawn: nat)
    : seq<Project>
    requires k <= |heads|
    decreases |heads| - k
  {
    if k == |heads| then ps
    else
      var items := NewBacklog(TitlesFor(titlesBySection, heads[k].title), uuid, drawn);
      InstallBacklogs(EditProjects(ps, projectId, SetBacklog(heads[k].id, items)), projectId, heads,
                      titlesBySection, uuid, k + 1, drawn + |items|)
  }

  /** Stage 2 from section `k` on is section `k`'s write followed by the
      writes for the later sections, which draw identifiers after it. */
  lemma InstallBacklogsStep(ps: seq<Project>, projectId: string, heads: seq<SectionHead>,
                            titlesBySection: map<string, seq<string>>, uuid: nat -> string, k: nat, drawn: nat)
    requires k < |heads|
    ensures InstallBacklogs(ps, projectId, heads, titlesBySection, uuid, k, drawn)
         == InstallBacklogs(EditProjects(ps, projectId, SetBacklog(heads[k].id,
                              NewBacklog(TitlesFor(titlesBySection, heads[k].title), uuid, drawn))),
                            projectId, heads, titlesBySection, uuid, k + 1,
                            drawn + |TitlesFor(titlesBySection, heads[k].title)|)
  {
  }

  // ---------------------------------------------------------------------
  // Stage 3

  /** The detail an item titled `title` gets from a details response: the
      response's entry, or the placeholder when the response has no entry
      of its own under that title or the entry is empty. The response is a
      map of its own keys only. It is never empty. */
  function DetailFor(detailsMap: map<string, string>, title: string): (r: string)
    ensures r != ""
    ensures title in detailsMap && detailsMap[title] != "" ==> r == detailsMap[title]
    ensures title !in detailsMap || detailsMap[title] == "" ==> r == Placeholder
  {
    if title in detailsMap && detailsMap[title] != "" then detailsMap[title] else Placeholder
  }

  /** One entry per item of the section, in order, keyed by the item's id. */
  function DetailsList(backlog: seq<BacklogItem>, detailsMap: map<string, string>): seq<BacklogDetail> {
    seq(|backlog|, i requires 0 <= i < |backlog| =>
      BacklogDetail(backlog[i].id, DetailFor(detailsMap, backlog[i].title)))
  }

  /** The store's projects after stage 3, and whether one of its calls
      failed. */
  datatype Outcome = Outcome(projects: seq<Project>, failed: bool)

  /** Stage 3 over sections `k`, `k + 1`, ... of `secs`, one call per
      section in order, each section's details written before the next
      call, stopping at the first call that fails. */
  function InstallDetails(ps: seq<Project>, projectId: string, secs: seq<BlueprintSection>,
                          brainDump: string, docs: seq<Doc>, cap: Capability, k: nat): Outcome
    requires k <= |secs|
    decreases |secs| - k
  {
    if k == |secs| then Outcome(ps, false)
    else match cap.details(brainDump, docs, secs[k])
      case None => Outcome(ps, true)
      case Some(m) =>
        InstallDetails(EditProjects(ps, projectId, SetDetails(secs[k].id, DetailsList(secs[k].backlog, m))),
                       projectId, secs, brainDump, docs, cap, k + 1)
  }

  /** Once section `k`'s call succeeds, stage 3 writes that section's details
      and goes on with the later sections. */
  lemma InstallDetailsStep(ps: seq<Project>, projectId: string, secs: seq<BlueprintSection>,
                           brainDump: string, docs: seq<Doc>, cap: Capability, k: nat)
    requires k < |secs| && cap.details(brainDump, docs, secs[k]).Some?
    ensures InstallDetails(ps, projectId, secs, brainDump, docs, cap, k)
         == InstallDetails(EditProjects(ps, projectId, SetDetails(secs[k].id,
                             DetailsList(secs[k].backlog, cap.details(brainDump, docs, secs[k]).value))),
                           projectId, secs, brainDump, docs, cap, k + 1)
  {
  }

  /** When section `k`'s call fails, stage 3 stops there and writes nothing
      more. */
  lemma InstallDetailsStop(ps: seq<Project>, projectId: string, secs: seq<BlueprintSection>,
                           brainDump: string, docs: seq<Doc>, cap: Capability, k: nat)
    requires k < |secs| && cap.details(brainDump, docs, secs[k]).None?
    ensures InstallDetails(ps, projectId, secs, brainDump, docs, cap, k) == Outcome(ps, true)
  {
  }

  /** The sections stage 3 works on: those of the project as the store holds
      it after stage 2, or none if it has no blueprint. */
  function Snapshot(ps: seq<Project>, projectId: string): seq<BlueprintSection> {
    match FindProject(ps, Some(projectId))
    case Some(q) => if q.blueprint.Some? then q.blueprint.value.sections else []
    case None => []
  }

  // ---------------------------------------------------------------------
  // A whole run

  /** The projects a run leaves in the store, and the phases it sets, in
      order. */
  datatype RunResult = RunResult(projects: seq<Project>, phases: seq<GenerationState>)

  /** A run over the store state `ps` with open project `active`. Without an
      open project or with an empty brain dump nothing happens. Otherwise the
      run passes through sections, titles and details and ends in `Error`
      at the first failing call or in `Done`; a failure in the first stage
      leaves the store's projects as they were. */
  function Run(ps: seq<Project>, active: Option<string>, cap: Capability, uuid: nat -> string): (r: RunResult)
    ensures r.phases == [] <==> FindProject(ps, active).None? || FindProject(ps, active).value.brainDump == ""
    ensures r.phases == [] ==> r.projects == ps
  {
    match FindProject(ps, active)
    case None => RunResult(ps, [])
    case Some(p) => if p.brainDump == "" then RunResult(ps, []) else Generate(ps, p, cap, uuid)
  }

  /** The three stages for the open project `p`; stage 1 installs one empty
      section per generated title, with identifiers `uuid(0)`, `uuid(1)`, ... */
  function Generate(ps: seq<Project>, p: Project, cap: Capability, uuid: nat -> string): (r: RunResult)
    ensures |r.phases| >= 2 && r.phases[0] == Sections
  {
    match cap.sections(p.brainDump, p.docs)
    case None => RunResult(ps, [Sections, Error])
    case Some(titles) =>
      var heads := SectionHeadsFor(titles, uuid, 0);
      var r := AfterSections(EditProjects(ps, p.id, InstallSections(heads)), p, titles, heads, cap, uuid);
      RunResult(r.projects, [Sections] + r.phases)
  }

  /** Unfolds `Generate` once stage 1 has produced `titles`. */
  lemma GenerateSucceeds(ps: seq<Project>, p: Project, cap: Capability, uuid: nat -> string, titles: seq<string>)
    requires cap.sections(p.brainDump, p.docs) == Some(titles)
    ensures var r := AfterSections(EditProjects(ps, p.id, InstallSections(SectionHeadsFor(titles, uuid, 0))), p, titles, SectionHeadsFor(titles, uuid, 0), cap, uuid);
      Generate(ps, p, cap, uuid) == RunResult(r.projects, [Sections] + r.phases)
  {
  }

  /** Stages 2 and 3, once stage 1 has installed the sections `heads` for the
      section titles `titles`; stage 2 draws identifiers after stage 1's. */
  function AfterSections(ps1: seq<Project>, p: Project, titles: seq<string>, heads: seq<SectionHead>,
                         cap: Capability, uuid: nat -> string): (r: RunResult)
    ensures |r.phases| >= 2 && r.phases[0] == Titles
  {
    match cap.titles(p.brainDump, p.docs, titles)
    case None => RunResult(ps1, [Titles, Error])
    case Some(titlesBySection) =>
      var r := AfterTitles(InstallBacklogs(ps1, p.id, heads, titlesBySection, uuid, 0, |titles|), p, cap);
      RunResult(r.projects, [Titles] + r.phases)
  }

  /** Stage 3, on the sections the store holds for `p` after stage 2. */
  function AfterTitles(ps2: seq<Project>, p: Project, cap: Capability): (r: RunResult)
    ensures |r.phases| == 2 && r.phases[0] == Details
  {
    var o := InstallDetails(ps2, p.id, Snapshot(ps2, p.id), p.brainDump, p.docs, cap, 0);
    RunResult(o.projects, [Details, if o.failed then Error else Done])
  }

  /** Stage 2's write for section `i`: its backlog is built from the titles
      generated for its title, drawing identifiers from `drawn` on; returns
      how many it drew. */
  method WriteBacklog(store: ProjectStore, projectId: string, sectionsWithIds: seq<SectionHead>,
                      titlesBySection: map<string, seq<string>>, uuid: nat -> string, i: nat, drawn: nat,
                      ghost target: seq<Project>)
    returns (n: nat)
    requires store.Valid() && i < |sectionsWithIds|
    requires InstallBacklogs(store.projects, projectId, sectionsWithIds, titlesBySection, uuid, i, drawn) == target
    modifies store
    ensures store.Valid()
    ensures InstallBacklogs(store.projects, projectId, sectionsWithIds, titlesBySection, uuid, i + 1, drawn + n) == target
    ensures store.phaseLog == old(store.phaseLog) && store.generationState == old(store.generationState)
    ensures store.activeProjectId == old(store.activeProjectId)
    ensures store.spotlightedProjectId == old(store.spotlightedProjectId)
    ensures store.spotlightSuggestions == old(store.spotlightSuggestions)
  {
    var section := sectionsWithIds[i];
    var items := NewBacklog(TitlesFor(titlesBySection, section.title), uuid, drawn);
    InstallBacklogsStep(store.projects, projectId, sectionsWithIds, titlesBySection, uuid, i, drawn);
    store.SetBacklogTitles(projectId, section.id, items);
    n := |items|;
  }

  /** Stage 2's writes: for each stage-1 section in order, its backlog is
      built from the titles generated for its title, drawing identifiers
      from `next` on. */
  method WriteBacklogs(store: ProjectStore, projectId: string, sectionsWithIds: seq<SectionHead>,
                       titlesBySection: map<string, seq<string>>, uuid: nat -> string, next: nat)
    requires store.Valid()
    modifies store
    ensures store.Valid()
    ensures store.projects == InstallBacklogs(old(store.projects), projectId, sectionsWithIds, titlesBySection,
                                              uuid, 0, next)
    ensures store.phaseLog == old(store.phaseLog) && store.generationState == old(store.generationState)
    ensures store.activeProjectId == old(store.activeProjectId)
    ensures store.spotlightedProjectId == old(store.spotlightedProjectId)
    ensures store.spotlightSuggestions == old(store.spotlightSuggestions)
  {
    ghost var target := InstallBacklogs(store.projects, projectId, sectionsWithIds, titlesBySection, uuid, 0, next);
    var drawn: nat := next;
    var i := 0;
    while i < |sectionsWithIds|
      invariant 0 <= i <= |sectionsWithIds|
      invariant store.Valid()
      invariant InstallBacklogs(store.projects, projectId, sectionsWithIds, titlesBySection, uuid, i, drawn) == target
      invariant store.phaseLog == old(store.phaseLog) && store.generationState == old(store.generationState)
      invariant store.activeProjectId == old(store.activeProjectId)
      invariant store.spotlightedProjectId == old(store.spotlightedProjectId)
      invariant store.spotlightSuggestions == old(store.spotlightSuggestions)
    {
      var n := WriteBacklog(store, projectId, sectionsWithIds, titlesBySection, uuid, i, drawn, target);
      drawn := drawn + n;
      i := i + 1;
    }
  }

  /** Stage 3's calls and writes, one section at a time in order; each
      section's details are written before the next section's call. Returns
      whether a call failed. */
  method WriteDetails(store: ProjectStore, projectId: string, secs: seq<BlueprintSection>,
                      brainDump: string, docs: seq<Doc>, cap: Capability) returns (failed: bool)
    requires store.Valid()
    modifies store
    ensures store.Valid()
    ensures InstallDetails(old(store.projects), projectId, secs, brainDump, docs, cap, 0)
         == Outcome(store.projects, failed)
    ensures store.phaseLog == old(store.phaseLog) && store.generationState == old(store.generationState)
    ensures store.activeProjectId == old(store.activeProjectId)
    ensures store.spotlightedProjectId == old(store.spotlightedProjectId)
    ensures store.spotlightSuggestions == old(store.spotlightSuggestions)
  {
    ghost var target := InstallDetails(store.projects, projectId, secs, brainDump, docs, cap, 0);
    var k := 0;
    while k < |secs|
      invariant 0 <= k <= |secs|
      invariant store.Valid()
      invariant InstallDetails(store.projects, projectId, secs, brainDump, docs, cap, k) == target
      invariant store.phaseLog == old(store.phaseLog) && store.generationState == old(store.generationState)
      invariant store.activeProjectId == old(store.activeProjectId)
      invariant store.spotlightedProjectId == old(store.spotlightedProjectId)
      invariant store.spotlightSuggestions == old(store.spotlightSuggestions)
    {
      var section := secs[k];
      var detailsMap := cap.details(brainDump, docs, section);
      if detailsMap.None? {
        InstallDetailsStop(store.projects, projectId, secs, brainDump, docs, cap, k);
        return true;
      }
      var detailsList := DetailsList(section.backlog, detailsMap.value);
      InstallDetailsStep(store.projects, projectId, secs, brainDump, docs, cap, k);
      store.SetBacklogDetails(projectId, section.id, detailsList);
      k := k + 1;
    }
    return false;
  }

  /** Stage 3 as a whole: reads the project back from the store and details
      its sections, if it still has a blueprint; then sets the final phase. */
  method DetailsStage(store: ProjectStore, p: Project, cap: Capability)
    requires store.Valid()
    modifies store
    ensures store.Valid()
    ensures var r := AfterTitles(old(store.projects), p, cap);
      store.projects == r.projects && store.phaseLog == old(store.phaseLog) + r.phases
      && store.generationState == r.phases[|r.phases| - 1]
    ensures store.activeProjectId == old(store.activeProjectId)
    ensures store.spotlightedProjectId == old(store.spotlightedProjectId)
    ensures store.spotlightSuggestions == old(store.spotlightSuggestions)
  {
    ghost var log0 := store.phaseLog;
    store.SetGenerationState(Details);
    var current := FindProject(store.projects, Some(p.id));
    var failed := false;
    if current.Some? && current.value.blueprint.Some? {
      failed := WriteDetails(store, p.id, current.value.blueprint.value.sections, p.brainDump, p.docs, cap);
    }
    var last := if failed then Error else Done;
    store.SetGenerationState(last);
    assert store.phaseLog == log0 + [Details, last];
  }

  /** Stages 2 and 3, once stage 1 has installed `sectionsWithIds`. */
  method TitlesStage(store: ProjectStore, p: Project, titles: seq<string>, sectionsWithIds: seq<SectionHead>,
                     cap: Capability, uuid: nat -> string)
    requires store.Valid()
    modifies store
    ensures store.Valid()
    ensures var r := AfterSections(old(store.projects), p, titles, sectionsWithIds, cap, uuid);
      store.projects == r.projects && store.phaseLog == old(store.phaseLog) + r.phases
      && store.generationState == r.phases[|r.phases| - 1]
    ensures store.activeProjectId == old(store.activeProjectId)
    ensures store.spotlightedProjectId == old(store.spotlightedProjectId)
    ensures store.spotlightSuggestions == old(store.spotlightSuggestions)
  {
    store.SetGenerationState(Titles);
    var response := cap.titles(p.brainDump, p.docs, titles);
    if response.None? {
      store.SetGenerationState(Error);
      return;
    }
    WriteBacklogs(store, p.id, sectionsWithIds, response.value, uuid, |titles|);
    DetailsStage(store, p, cap);
  }

  /** The three stages for the open project `p`. */
  method SectionsStage(store: ProjectStore, p: Project, cap: Capability, uuid: nat -> string)
    requires store.Valid()
    modifies store
    ensures store.Valid()
    ensures var r := Generate(old(store.projects), p, cap, uuid);
      store.projects == r.projects && store.phaseLog == old(store.phaseLog) + r.phases
      && store.generationState == r.phases[|r.phases| - 1]
    ensures store.activeProjectId == old(store.activeProjectId)
    ensures store.spotlightedProjectId == old(store.spotlightedProjectId)
    ensures store.spotlightSuggestions == old(store.spotlightSuggestions)
  {
    ghost var log0 := store.phaseLog;
    store.SetGenerationState(Sections);
    var sectionTitles := cap.sections(p.brainDump, p.docs);
    if sectionTitles.None? {
      store.SetGenerationState(Error);
      assert store.phaseLog == log0 + [Sections, Error];
      return;
    }
    var titles := sectionTitles.value;
    var sectionsWithIds := SectionHeadsFor(titles, uuid, 0);
    store.SetBlueprintSections(p.id, sectionsWithIds);
    ghost var log1, ps1 := store.phaseLog, store.projects;
    GenerateSucceeds(old(store.projects), p, cap, uuid, titles);
    TitlesStage(store, p, titles, sectionsWithIds, cap, uuid);
    ghost var rest := AfterSections(ps1, p, titles, sectionsWithIds, cap, uuid).phases;
    assert log1 + rest == log0 + ([Sections] + rest);
  }

  /** Generates the blueprint of the open project, writing each stage's
      results through the store's actions. The `n`-th identifier it draws is
      `uuid(n)`. */
  method HandleGenerate(store: ProjectStore, cap: Capability, uuid: nat -> string)
    requires store.Valid()
    modifies store
    ensures store.Valid()
    ensures var r := Run(old(store.projects), old(store.activeProjectId), cap, uuid);
      store.projects == r.projects
      && store.phaseLog == old(store.phaseLog) + r.phases
      && store.generationState == if r.phases == [] then old(store.generationState) else r.phases[|r.phases| - 1]
    ensures store.activeProjectId == old(store.activeProjectId)
    ensures store.spotlightedProjectId == old(store.spotlightedProjectId)
    ensures store.spotlightSuggestions == old(store.spotlightSuggestions)
  {
    var project := store.GetActiveProject();
    if project.None? || project.value.brainDump == "" {
      // the user is asked for a brain dump; nothing changes
      return;
    }
    SectionsStage(store, project.value, cap, uuid);
  }
}
