/** The project store: the single source of truth for the projects, the
    open project, the global generation phase and the spotlight. Each action
    replaces the state's fields with new values computed from the old ones. */
module Store {
  import opened Types
  import opened ProjectEdits

  class ProjectStore {
    var projects: seq<Project>
    var activeProjectId: Option<string>
    var generationState: GenerationState
    var spotlightedProjectId: Option<string>
    var spotlightSuggestions: seq<SpotlightSuggestion>
    /** Every phase the store has been set to, oldest first: what observers
        of `generationState` see, in order. */
    ghost var phaseLog: seq<GenerationState>

    ghost predicate Valid()
      reads this
    {
      StoreInvariant(projects)
    }

    /** The initial state: no projects, nothing open, phase idle. */
    constructor ()
      ensures Valid()
      ensures projects == [] && activeProjectId == None && generationState == Idle
      ensures spotlightedProjectId == None && spotlightSuggestions == [] && phaseLog == []
    {
      projects := [];
      activeProjectId := None;
      generationState := Idle;
      spotlightedProjectId := None;
      spotlightSuggestions := [];
      phaseLog := [];
    }

    /** Spotlights a project (or none) and discards the current suggestions. */
    method SetSpotlightedProject(projectId: Option<string>)
      modifies this
      ensures spotlightedProjectId == projectId && spotlightSuggestions == []
      ensures projects == old(projects) && activeProjectId == old(activeProjectId)
      ensures generationState == old(generationState) && phaseLog == old(phaseLog)
    {
      spotlightedProjectId := projectId;
      spotlightSuggestions := [];
    }

    /** Stores the suggestions generated for `brainDump`; a failed generation
        (`None`) yields no suggestions rather than an error. */
    method FetchSpotlightSuggestions(brainDump: string, generate: string -> Option<seq<SpotlightSuggestion>>)
      modifies this
      ensures spotlightSuggestions == match generate(brainDump)
                                      case Some(s) => s
                                      case None => []
      ensures projects == old(projects) && activeProjectId == old(activeProjectId)
      ensures generationState == old(generationState) && phaseLog == old(phaseLog)
      ensures spotlightedProjectId == old(spotlightedProjectId)
    {
      var response := generate(brainDump);
      spotlightSuggestions := match response
                              case Some(s) => s
                              case None => [];
    }

    /** Appends a new, empty project with the fresh id `newId` (the source
        draws it from a UUID generator) and creation time `now`, and returns
        that id. */
    method AddProject(name: string, newId: string, now: int) returns (id: string)
      requires Valid()
      requires !HasProject(projects, newId)
      modifies this
      ensures Valid()
      ensures id == newId
      ensures projects == old(projects) + [NewProject(newId, name, now)]
      ensures activeProjectId == old(activeProjectId) && generationState == old(generationState)
      ensures spotlightedProjectId == old(spotlightedProjectId)
      ensures spotlightSuggestions == old(spotlightSuggestions) && phaseLog == old(phaseLog)
    {
      AppendKeepsInvariant(projects, newId, name, now);
      projects := projects + [NewProject(newId, name, now)];
      id := newId;
    }

    /** Removes every project with id `id` and closes it if it was open. */
    method DeleteProject(id: string)
      requires Valid()
      modifies this
      ensures Valid()
      ensures projects == RemoveProject(old(projects), id)
      ensures activeProjectId == if old(activeProjectId) == Some(id) then None else old(activeProjectId)
      ensures generationState == old(generationState) && spotlightedProjectId == old(spotlightedProjectId)
      ensures spotlightSuggestions == old(spotlightSuggestions) && phaseLog == old(phaseLog)
    {
      RemoveKeepsInvariant(projects, id);
      projects := RemoveProject(projects, id);
      activeProjectId := if activeProjectId == Some(id) then None else activeProjectId;
    }

    /** Opens a project, or none; the id is not checked against the projects. */
    method SetActiveProject(id: Option<string>)
      modifies this
      ensures activeProjectId == id
      ensures projects == old(projects) && generationState == old(generationState)
      ensures spotlightedProjectId == old(spotlightedProjectId)
      ensures spotlightSuggestions == old(spotlightSuggestions) && phaseLog == old(phaseLog)
    {
      activeProjectId := id;
    }

    /** The one step every project-editing action shares: edit the projects
        with id `projectId` by `e`, leaving every other field alone. */
    method EditProject(projectId: string, e: Edit)
      requires Valid()
      requires AddsFreshIds(projects, projectId, e)
      modifies this
      ensures Valid()
      ensures projects == EditProjects(old(projects), projectId, e)
      ensures activeProjectId == old(activeProjectId) && generationState == old(generationState)
      ensures spotlightedProjectId == old(spotlightedProjectId)
      ensures spotlightSuggestions == old(spotlightSuggestions) && phaseLog == old(phaseLog)
    {
      EditKeepsInvariant(projects, projectId, e);
      projects := EditProjects(projects, projectId, e);
    }

    method UpdateBrainDump(projectId: string, content: string)
      requires Valid()
      modifies this
      ensures Valid()
      ensures projects == EditProjects(old(projects), projectId, SetBrainDump(content))
      ensures activeProjectId == old(activeProjectId) && generationState == old(generationState)
      ensures spotlightedProjectId == old(spotlightedProjectId)
      ensures spotlightSuggestions == old(spotlightSuggestions) && phaseLog == old(phaseLog)
    {
      EditProject(projectId, SetBrainDump(content));
    }

    /** Attaches a document with the fresh id `docId` to the project. */
    method AddDoc(projectId: string, name: string, content: string, docId: string)
      requires Valid()
      requires forall p :: p in projects && p.id == projectId ==> forall d :: d in p.docs ==> d.id != docId
      modifies this
      ensures Valid()
      ensures projects == EditProjects(old(projects), projectId, AppendDoc(Doc(docId, content, name)))
      ensures activeProjectId == old(activeProjectId) && generationState == old(generationState)
      ensures spotlightedProjectId == old(spotlightedProjectId)
      ensures spotlightSuggestions == old(spotlightSuggestions) && phaseLog == old(phaseLog)
    {
      EditProject(projectId, AppendDoc(Doc(docId, content, name)));
    }

    method UpdateDoc(projectId: string, docId: string, content: string)
      requires Valid()
      modifies this
      ensures Valid()
      ensures projects == EditProjects(old(projects), projectId, SetDocContent(docId, content))
      ensures activeProjectId == old(activeProjectId) && generationState == old(generationState)
      ensures spotlightedProjectId == old(spotlightedProjectId)
      ensures spotlightSuggestions == old(spotlightSuggestions) && phaseLog == old(phaseLog)
    {
      EditProject(projectId, SetDocContent(docId, content));
    }

    method DeleteDoc(projectId: string, docId: string)
      requires Valid()
      modifies this
      ensures Valid()
      ensures projects == EditProjects(old(projects), projectId, RemoveDoc(docId))
      ensures activeProjectId == old(activeProjectId) && generationState == old(generationState)
      ensures spotlightedProjectId == old(spotlightedProjectId)
      ensures spotlightSuggestions == old(spotlightSuggestions) && phaseLog == old(phaseLog)
    {
      EditProject(projectId, RemoveDoc(docId));
    }

    /** Sets the global phase; the log records the change. */
    method SetGenerationState(state: GenerationState)
      modifies this
      ensures generationState == state && phaseLog == old(phaseLog) + [state]
      ensures projects == old(projects) && activeProjectId == old(activeProjectId)
      ensures spotlightedProjectId == old(spotlightedProjectId)
      ensures spotlightSuggestions == old(spotlightSuggestions)
    {
      generationState := state;
      phaseLog := phaseLog + [state];
    }

    /** Attaches a note with the fresh id `noteId` to the project. */
    method AddQuickNote(projectId: string, content: string, noteId: string)
      requires Valid()
      requires forall p :: p in projects && p.id == projectId ==> forall n :: n in p.quickNotes ==> n.id != noteId
      modifies this
      ensures Valid()
      ensures projects == EditProjects(old(projects), projectId, AppendNote(QuickNote(noteId, content)))
      ensures activeProjectId == old(activeProjectId) && generationState == old(generationState)
      ensures spotlightedProjectId == old(spotlightedProjectId)
      ensures spotlightSuggestions == old(spotlightSuggestions) && phaseLog == old(phaseLog)
    {
      EditProject(projectId, AppendNote(QuickNote(noteId, content)));
    }

    method DeleteQuickNote(projectId: string, noteId: string)
      requires Valid()
      modifies this
      ensures Valid()
      ensures projects == EditProjects(old(projects), projectId, RemoveNote(noteId))
      ensures activeProjectId == old(activeProjectId) && generationState == old(generationState)
      ensures spotlightedProjectId == old(spotlightedProjectId)
      ensures spotlightSuggestions == old(spotlightSuggestions) && phaseLog == old(phaseLog)
    {
      EditProject(projectId, RemoveNote(noteId));
    }

    method AddTag(projectId: string, tag: string)
      requires Valid()
      modifies this
      ensures Valid()
      ensures projects == EditProjects(old(projects), projectId, Edit.AddTag(tag))
      ensures activeProjectId == old(activeProjectId) && generationState == old(generationState)
      ensures spotlightedProjectId == old(spotlightedProjectId)
      ensures spotlightSuggestions == old(spotlightSuggestions) && phaseLog == old(phaseLog)
    {
      EditProject(projectId, Edit.AddTag(tag));
    }

    method RemoveTag(projectId: string, tag: string)
      requires Valid()
      modifies this
      ensures Valid()
      ensures projects == EditProjects(old(projects), projectId, Edit.RemoveTag(tag))
      ensures activeProjectId == old(activeProjectId) && generationState == old(generationState)
      ensures spotlightedProjectId == old(spotlightedProjectId)
      ensures spotlightSuggestions == old(spotlightSuggestions) && phaseLog == old(phaseLog)
    {
      EditProject(projectId, Edit.RemoveTag(tag));
    }

    method SetBlueprintSections(projectId: string, sections: seq<SectionHead>)
      requires Valid()
      modifies this
      ensures Valid()
      ensures projects == EditProjects(old(projects), projectId, InstallSections(sections))
      ensures activeProjectId == old(activeProjectId) && generationState == old(generationState)
      ensures spotlightedProjectId == old(spotlightedProjectId)
      ensures spotlightSuggestions == old(spotlightSuggestions) && phaseLog == old(phaseLog)
    {
      EditProject(projectId, InstallSections(sections));
    }

    method SetBacklogTitles(projectId: string, sectionId: string, backlog: seq<BacklogItem>)
      requires Valid()
      modifies this
      ensures Valid()
      ensures projects == EditProjects(old(projects), projectId, SetBacklog(sectionId, backlog))
      ensures activeProjectId == old(activeProjectId) && generationState == old(generationState)
      ensures spotlightedProjectId == old(spotlightedProjectId)
      ensures spotlightSuggestions == old(spotlightSuggestions) && phaseLog == old(phaseLog)
    {
      EditProject(projectId, SetBacklog(sectionId, backlog));
    }

    method SetBacklogDetails(projectId: string, sectionId: string, details: seq<BacklogDetail>)
      requires Valid()
      modifies this
      ensures Valid()
      ensures projects == EditProjects(old(projects), projectId, SetDetails(sectionId, details))
      ensures activeProjectId == old(activeProjectId) && generationState == old(generationState)
      ensures spotlightedProjectId == old(spotlightedProjectId)
      ensures spotlightSuggestions == old(spotlightSuggestions) && phaseLog == old(phaseLog)
    {
      EditProject(projectId, SetDetails(sectionId, details));
    }

    /** The open project: the first project whose id is the active id, or
        nothing when no project has it (or nothing is open). */
    function GetActiveProject(): (r: Option<Project>)
      reads this
      ensures r.None? <==> forall i :: 0 <= i < |projects| ==> Some(projects[i].id) != activeProjectId
      ensures r.Some? ==> exists i :: 0 <= i < |projects| && projects[i] == r.value && Some(r.value.id) == activeProjectId
                            && forall k :: 0 <= k < i ==> Some(projects[k].id) != activeProjectId
    {
      FindProject(projects, activeProjectId)
    }
  }
}
