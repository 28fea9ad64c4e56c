/** What a run of the blueprint pipeline does: the phases it sets, what a
    failure leaves behind, the projects it leaves alone, and the blueprint it
    builds. */
module PipelineFacts {
  import opened Types
  import opened ProjectEdits
  import opened Pipeline

  // ---------------------------------------------------------------------
  // Phases

  /** The five phase sequences a run can set: nothing (no open project or an
      empty brain dump), or the stages up to the first failure, or all three
      stages and `Done`. */
  predicate IsTrace(phases: seq<GenerationState>) {
    phases == [] || phases == [Sections, Error] || phases == [Sections, Titles, Error]
    || phases == [Sections, Titles, Details, Error] || phases == [Sections, Titles, Details, Done]
  }

  /** Stage 3 ends the run in `Error` or `Done`. */
  lemma AfterTitlesTrace(ps2: seq<Project>, p: Project, cap: Capability)
    ensures var phases := AfterTitles(ps2, p, cap).phases;
      phases == [Details, Error] || phases == [Details, Done]
  {
  }

  /** Stages 2 and 3 set `Titles` and then either fail or go through stage 3. */
  lemma AfterSectionsTrace(ps1: seq<Project>, p: Project, titles: seq<string>, heads: seq<SectionHead>,
                           cap: Capability, uuid: nat -> string)
    ensures var phases := AfterSections(ps1, p, titles, heads, cap, uuid).phases;
      phases == [Titles, Error] || phases == [Titles, Details, Error] || phases == [Titles, Details, Done]
  {
    match cap.titles(p.brainDump, p.docs, titles)
    case None =>
    case Some(titlesBySection) =>
      var ps2 := InstallBacklogs(ps1, p.id, heads, titlesBySection, uuid, 0, |titles|);
      var rest := AfterTitles(ps2, p, cap).phases;
      AfterTitlesTrace(ps2, p, cap);
      assert [Titles] + [Details, Error] == [Titles, Details, Error];
      assert [Titles] + [Details, Done] == [Titles, Details, Done];
  }

  /** A run sets one of the five traces, and a failure of stage 1 leaves
      the store's projects as they were. */
  lemma RunTrace(ps: seq<Project>, active: Option<string>, cap: Capability, uuid: nat -> string)
    ensures IsTrace(Run(ps, active, cap, uuid).phases)
    ensures Run(ps, active, cap, uuid).phases == [Sections, Error] ==> Run(ps, active, cap, uuid).projects == ps
  {
    match FindProject(ps, active)
    case None =>
    case Some(p) =>
      if p.brainDump != "" {
        match cap.sections(p.brainDump, p.docs)
        case None =>
        case Some(titles) =>
          var heads := SectionHeadsFor(titles, uuid, 0);
          var ps1 := EditProjects(ps, p.id, InstallSections(heads));
          AfterSectionsTrace(ps1, p, titles, heads, cap, uuid);
          assert [Sections] + [Titles, Error] == [Sections, Titles, Error];
          assert [Sections] + [Titles, Details, Error] == [Sections, Titles, Details, Error];
          assert [Sections] + [Titles, Details, Done] == [Sections, Titles, Details, Done];
      }
  }

  /** Along every trace the spinner shows in every phase but the last, and
      the last phase is `Error` or `Done`, in which it does not. */
  lemma TraceInFlight(phases: seq<GenerationState>)
    requires IsTrace(phases)
    ensures forall i :: 0 <= i < |phases| - 1 ==> IsGenerating(phases[i])
    ensures phases != [] ==> phases[|phases| - 1] in {Error, Done} && !IsGenerating(phases[|phases| - 1])
  {
  }

  // ---------------------------------------------------------------------
  // Frame: a run touches the open project only

  /** Stage 2 keeps the other projects. */
  lemma {:induction false} InstallBacklogsKeepsOthers(ps: seq<Project>, projectId: string, heads: seq<SectionHead>,
                                                      titlesBySection: map<string, seq<string>>,
                                                      uuid: nat -> string, k: nat, drawn: nat)
    requires k <= |heads|
    ensures KeepsOthers(ps, InstallBacklogs(ps, projectId, heads, titlesBySection, uuid, k, drawn), projectId)
    decreases |heads| - k
  {
    if k < |heads| {
      var items := NewBacklog(TitlesFor(titlesBySection, heads[k].title), uuid, drawn);
      var ps' := EditProjects(ps, projectId, SetBacklog(heads[k].id, items));
      EditKeepsOthers(ps, projectId, SetBacklog(heads[k].id, items));
      InstallBacklogsKeepsOthers(ps', projectId, heads, titlesBySection, uuid, k + 1, drawn + |items|);
      KeepsOthersTrans(ps, ps', InstallBacklogs(ps', projectId, heads, titlesBySection, uuid, k + 1, drawn + |items|),
                       projectId);
    }
  }

  /** Stage 3 keeps the other projects. */
  lemma {:induction false} InstallDetailsKeepsOthers(ps: seq<Project>, projectId: string, secs: seq<BlueprintSection>,
                                                     brainDump: string, docs: seq<Doc>, cap: Capability, k: nat)
    requires k <= |secs|
    ensures KeepsOthers(ps, InstallDetails(ps, projectId, secs, brainDump, docs, cap, k).projects, projectId)
    decreases |secs| - k
  {
    if k < |secs| && cap.details(brainDump, docs, secs[k]).Some? {
      var m := cap.details(brainDump, docs, secs[k]).value;
      var e := SetDetails(secs[k].id, DetailsList(secs[k].backlog, m));
      var ps' := EditProjects(ps, projectId, e);
      EditKeepsOthers(ps, projectId, e);
      InstallDetailsKeepsOthers(ps', projectId, secs, brainDump, docs, cap, k + 1);
      KeepsOthersTrans(ps, ps', InstallDetails(ps', projectId, secs, brainDump, docs, cap, k + 1).projects, projectId);
    }
  }

  /** A run changes no project but the open one, and keeps the number, the
      order and the ids of the projects. */
  lemma RunKeepsOthers(ps: seq<Project>, active: Option<string>, cap: Capability, uuid: nat -> string)
    requires FindProject(ps, active).Some?
    ensures KeepsOthers(ps, Run(ps, active, cap, uuid).projects, FindProject(ps, active).value.id)
  {
    var p := FindProject(ps, active).value;
    if p.brainDump != "" && cap.sections(p.brainDump, p.docs).Some? {
      var titles := cap.sections(p.brainDump, p.docs).value;
      var heads := SectionHeadsFor(titles, uuid, 0);
      var ps1 := EditProjects(ps, p.id, InstallSections(heads));
      EditKeepsOthers(ps, p.id, InstallSections(heads));
      if cap.titles(p.brainDump, p.docs, titles).Some? {
        var tbs := cap.titles(p.brainDump, p.docs, titles).value;
        var ps2 := InstallBacklogs(ps1, p.id, heads, tbs, uuid, 0, |titles|);
        InstallBacklogsKeepsOthers(ps1, p.id, heads, tbs, uuid, 0, |titles|);
        InstallDetailsKeepsOthers(ps2, p.id, Snapshot(ps2, p.id), p.brainDump, p.docs, cap, 0);
        KeepsOthersTrans(ps1, ps2, InstallDetails(ps2, p.id, Snapshot(ps2, p.id), p.brainDump, p.docs, cap, 0).projects, p.id);
      }
      KeepsOthersTrans(ps, ps1, Run(ps, active, cap, uuid).projects, p.id);
    }
  }

  // ---------------------------------------------------------------------
  // Identifiers

  /** No two sections carry the same id. */
  predicate HeadIdsDistinct(heads: seq<SectionHead>) {
    forall i, j :: 0 <= i < |heads| && 0 <= j < |heads| && i != j ==> heads[i].id != heads[j].id
  }

  /** Stage 1 gives its sections distinct ids when identifiers never repeat. */
  lemma HeadIdsAreDistinct(titles: seq<string>, uuid: nat -> string, next: nat)
    requires Injective(uuid)
    ensures HeadIdsDistinct(SectionHeadsFor(titles, uuid, next))
  {
    var heads := SectionHeadsFor(titles, uuid, next);
    forall i, j | 0 <= i < |heads| && 0 <= j < |heads| && i != j ensures heads[i].id != heads[j].id {
      assert heads[i].id == uuid(next + i) && heads[j].id == uuid(next + j);
    }
  }

  /** Stage 2 draws its identifiers in section order: section `j` draws
      them from `Offset(.., j)` on, and no later than where the section
      after it starts. */
  lemma {:induction false} OffsetGrows(heads: seq<SectionHead>, titlesBySection: map<string, seq<string>>,
                                       next: nat, i: nat, j: nat)
    requires i <= j <= |heads|
    ensures next <= Offset(heads, titlesBySection, next, i) <= Offset(heads, titlesBySection, next, j)
    decreases j
  {
    if i < j {
      OffsetGrows(heads, titlesBySection, next, i, j - 1);
    } else if 0 < i {
      OffsetGrows(heads, titlesBySection, next, i - 1, i - 1);
    }
  }

  // ---------------------------------------------------------------------
  // Stage 2: what the open project holds afterwards

  /** What the sections hold when stage 2 has written the backlogs of the
      first `k` sections, starting with identifier `next`: every section has
      its stage-1 id and title; each of the first `k` has the items generated
      for its title, the others none. */
  predicate BacklogsUpTo(secs: seq<BlueprintSection>, heads: seq<SectionHead>,
                         titlesBySection: map<string, seq<string>>, uuid: nat -> string, next: nat, k: nat)
    requires k <= |heads|
  {
    |secs| == |heads|
    && forall j :: 0 <= j < |heads| ==>
         secs[j] == BlueprintSection(heads[j].id, heads[j].title,
                                     if j < k then NewBacklog(TitlesFor(titlesBySection, heads[j].title), uuid,
                                                              Offset(heads, titlesBySection, next, j))
                                     else [])
  }

  /** The write for section `k` adds its backlog and touches no other
      section, since section ids are distinct. */
  lemma SetBacklogStep(secs: seq<BlueprintSection>, heads: seq<SectionHead>,
                       titlesBySection: map<string, seq<string>>, uuid: nat -> string, next: nat, k: nat)
    requires k < |heads| && HeadIdsDistinct(heads)
    requires BacklogsUpTo(secs, heads, titlesBySection, uuid, next, k)
    ensures BacklogsUpTo(SectionsWithBacklog(secs, heads[k].id,
                                             NewBacklog(TitlesFor(titlesBySection, heads[k].title), uuid,
                                                        Offset(heads, titlesBySection, next, k))),
                         heads, titlesBySection, uuid, next, k + 1)
  {
    var items := NewBacklog(TitlesFor(titlesBySection, heads[k].title), uuid, Offset(heads, titlesBySection, next, k));
    var r := SectionsWithBacklog(secs, heads[k].id, items);
    forall j | 0 <= j < |heads|
      ensures r[j] == BlueprintSection(heads[j].id, heads[j].title,
                                       if j < k + 1 then NewBacklog(TitlesFor(titlesBySection, heads[j].title), uuid,
                                                                    Offset(heads, titlesBySection, next, j))
                                       else [])
    {
      assert secs[j].id == heads[j].id;
      if j != k {
        assert heads[j].id != heads[k].id;
      }
    }
  }

  /** Every project with id `projectId` holds sections as `BacklogsUpTo`
      with `k` sections done. */
  predicate ProjectsUpTo(ps: seq<Project>, projectId: string, heads: seq<SectionHead>,
                         titlesBySection: map<string, seq<string>>, uuid: nat -> string, next: nat, k: nat)
    requires k <= |heads|
  {
    forall i :: 0 <= i < |ps| && ps[i].id == projectId ==>
      ps[i].blueprint.Some? && BacklogsUpTo(ps[i].blueprint.value.sections, heads, titlesBySection, uuid, next, k)
  }

  /** Stage 2 from section `k` on completes the backlogs of the open
      project. */
  lemma {:induction false} InstallBacklogsEffect(ps: seq<Project>, projectId: string, heads: seq<SectionHead>,
                                                 titlesBySection: map<string, seq<string>>, uuid: nat -> string,
                                                 next: nat, k: nat)
    requires k <= |heads| && HeadIdsDistinct(heads)
    requires ProjectsUpTo(ps, projectId, heads, titlesBySection, uuid, next, k)
    ensures ProjectsUpTo(InstallBacklogs(ps, projectId, heads, titlesBySection, uuid, k,
                                         Offset(heads, titlesBySection, next, k)),
                         projectId, heads, titlesBySection, uuid, next, |heads|)
    decreases |heads| - k
  {
    if k < |heads| {
      var drawn := Offset(heads, titlesBySection, next, k);
      var items := NewBacklog(TitlesFor(titlesBySection, heads[k].title), uuid, drawn);
      var ps' := EditProjects(ps, projectId, SetBacklog(heads[k].id, items));
      forall i | 0 <= i < |ps'| && ps'[i].id == projectId
        ensures ps'[i].blueprint.Some?
             && BacklogsUpTo(ps'[i].blueprint.value.sections, heads, titlesBySection, uuid, next, k + 1)
      {
        SetBacklogStep(ps[i].blueprint.value.sections, heads, titlesBySection, uuid, next, k);
      }
      InstallBacklogsEffect(ps', projectId, heads, titlesBySection, uuid, next, k + 1);
    }
  }

  /** The sections the open project holds after a successful stage 2, given
      by position: section `j` has the `j`-th identifier and the `j`-th
      generated title, and item `t` of it has the `t`-th title generated for
      that section title and the identifier drawn after those of stage 1 and
      of the sections before it, with no details yet. */
  function Stage2Sections(titles: seq<string>, titlesBySection: map<string, seq<string>>, uuid: nat -> string)
    : seq<BlueprintSection>
  {
    var heads := SectionHeadsFor(titles, uuid, 0);
    seq(|titles|, j requires 0 <= j < |titles| =>
      BlueprintSection(uuid(j), titles[j],
                       NewBacklog(TitlesFor(titlesBySection, titles[j]), uuid, Offset(heads, titlesBySection, |titles|, j))))
  }

  /** Every project with id `projectId` has blueprint `bp`. */
  predicate BlueprintIs(ps: seq<Project>, projectId: string, bp: Option<Blueprint>) {
    forall i :: 0 <= i < |ps| && ps[i].id == projectId ==> ps[i].blueprint == bp
  }

  /** The projects once stage 1 has installed the sections for `titles` and
      stage 2 has written the backlogs for them. */
  function Stage2Projects(ps: seq<Project>, projectId: string, titles: seq<string>,
                          titlesBySection: map<string, seq<string>>, uuid: nat -> string): seq<Project>
  {
    var heads := SectionHeadsFor(titles, uuid, 0);
    InstallBacklogs(EditProjects(ps, projectId, InstallSections(heads)), projectId, heads, titlesBySection, uuid, 0, |titles|)
  }

  /** Stages 1 and 2 together leave the open project with exactly the
      `Stage2Sections`, whatever blueprint it had, when identifiers never
      repeat; the project is still there. */
  lemma StagesOneAndTwo(ps: seq<Project>, projectId: string, titles: seq<string>,
                        titlesBySection: map<string, seq<string>>, uuid: nat -> string)
    requires Injective(uuid)
    ensures BlueprintIs(Stage2Projects(ps, projectId, titles, titlesBySection, uuid), projectId,
                        Some(Blueprint(Stage2Sections(titles, titlesBySection, uuid))))
    ensures HasProject(ps, projectId) ==> HasProject(Stage2Projects(ps, projectId, titles, titlesBySection, uuid), projectId)
  {
    var heads := SectionHeadsFor(titles, uuid, 0);
    var ps1 := EditProjects(ps, projectId, InstallSections(heads));
    HeadIdsAreDistinct(titles, uuid, 0);
    forall i | 0 <= i < |ps1| && ps1[i].id == projectId
      ensures ps1[i].blueprint.Some? && BacklogsUpTo(ps1[i].blueprint.value.sections, heads, titlesBySection, uuid, |titles|, 0)
    {
    }
    InstallBacklogsEffect(ps1, projectId, heads, titlesBySection, uuid, |titles|, 0);
    var ps2 := InstallBacklogs(ps1, projectId, heads, titlesBySection, uuid, 0, |titles|);
    var want := Stage2Sections(titles, titlesBySection, uuid);
    forall i | 0 <= i < |ps2| && ps2[i].id == projectId
      ensures ps2[i].blueprint == Some(Blueprint(want))
    {
      var secs := ps2[i].blueprint.value.sections;
      assert forall j :: 0 <= j < |secs| ==> secs[j] == want[j];
      assert secs == want;
    }
    EditKeepsOthers(ps, projectId, InstallSections(heads));
    InstallBacklogsKeepsOthers(ps1, projectId, heads, titlesBySection, uuid, 0, |titles|);
    KeepsOthersTrans(ps, ps1, ps2, projectId);
  }

  // ---------------------------------------------------------------------
  // Stage 3: what the open project holds afterwards

  /** No two sections of `secs` carry the same id. */
  predicate SectionIdsDistinct(secs: seq<BlueprintSection>) {
    forall i, j :: 0 <= i < |secs| && 0 <= j < |secs| && i != j ==> secs[i].id != secs[j].id
  }

  /** No two items of `b` carry the same id. */
  predicate ItemIdsDistinct(b: seq<BacklogItem>) {
    forall t, u :: 0 <= t < |b| && 0 <= u < |b| && t != u ==> b[t].id != b[u].id
  }

  /** The items of `b`, each with the detail the response gives for its
      title, or the placeholder. */
  function DetailedBacklog(b: seq<BacklogItem>, detailsMap: map<string, string>): (r: seq<BacklogItem>)
    ensures |r| == |b|
    ensures forall t :: 0 <= t < |b| ==> r[t].id == b[t].id && r[t].title == b[t].title && r[t].details != ""
    ensures forall t :: 0 <= t < |b| ==> r[t].details == DetailFor(detailsMap, b[t].title)
  {
    seq(|b|, t requires 0 <= t < |b| => b[t].(details := DetailFor(detailsMap, b[t].title)))
  }

  /** A section as stage 3 leaves it once its call has answered: if it
      returned a map, every item carries its detail; otherwise the section
      is as it was. */
  function FilledIn(s: BlueprintSection, response: Option<map<string, string>>): BlueprintSection {
    match response
    case None => s
    case Some(m) => s.(backlog := DetailedBacklog(s.backlog, m))
  }

  /** The first section at or after `k` whose detail call fails, or `|secs|`
      if none does: stage 3 stops there. */
  function FirstFailure(secs: seq<BlueprintSection>, brainDump: string, docs: seq<Doc>, cap: Capability, k: nat)
    : (f: nat)
    requires k <= |secs|
    ensures k <= f <= |secs|
    ensures forall j :: k <= j < f ==> cap.details(brainDump, docs, secs[j]).Some?
    ensures f < |secs| ==> cap.details(brainDump, docs, secs[f]).None?
    decreases |secs| - k
  {
    if k == |secs| || cap.details(brainDump, docs, secs[k]).None? then k
    else FirstFailure(secs, brainDump, docs, cap, k + 1)
  }

  /** The pairs stage 3 hands to the store reach every item of the section
      they were built from, when its item ids are distinct: each item gets
      the detail for its own title. */
  lemma DetailsReachEveryItem(b: seq<BacklogItem>, detailsMap: map<string, string>)
    requires ItemIdsDistinct(b)
    ensures BacklogWithDetails(b, DetailsList(b, detailsMap)) == DetailedBacklog(b, detailsMap)
  {
    var d := DetailsList(b, detailsMap);
    forall t | 0 <= t < |b| ensures WithDetail(b[t], d) == b[t].(details := DetailFor(detailsMap, b[t].title)) {
      assert d[t].backlogId == b[t].id;
      var r := FindDetail(d, b[t].id);
      var k :| 0 <= k < |d| && d[k] == BacklogDetail(b[t].id, r.value)
               && forall k' :: 0 <= k' < k ==> d[k'].backlogId != b[t].id;
      assert d[k].backlogId == b[k].id;
    }
  }

  /** What the sections hold when stage 3 has handled the first `k` of the
      snapshot `secs`. */
  predicate DetailsUpTo(cur: seq<BlueprintSection>, secs: seq<BlueprintSection>, brainDump: string,
                        docs: seq<Doc>, cap: Capability, k: nat)
  {
    |cur| == |secs|
    && forall j :: 0 <= j < |secs| ==>
         cur[j] == if j < k then FilledIn(secs[j], cap.details(brainDump, docs, secs[j])) else secs[j]
  }

  /** The write for section `k` fills in its items and touches no other
      section. */
  lemma SetDetailsStep(cur: seq<BlueprintSection>, secs: seq<BlueprintSection>, brainDump: string,
                       docs: seq<Doc>, cap: Capability, k: nat, detailsMap: map<string, string>)
    requires k < |secs| && cap.details(brainDump, docs, secs[k]) == Some(detailsMap)
    requires SectionIdsDistinct(secs) && ItemIdsDistinct(secs[k].backlog)
    requires DetailsUpTo(cur, secs, brainDump, docs, cap, k)
    ensures DetailsUpTo(SectionsWithDetails(cur, secs[k].id, DetailsList(secs[k].backlog, detailsMap)),
                        secs, brainDump, docs, cap, k + 1)
  {
    var r := SectionsWithDetails(cur, secs[k].id, DetailsList(secs[k].backlog, detailsMap));
    DetailsReachEveryItem(secs[k].backlog, detailsMap);
    forall j | 0 <= j < |secs|
      ensures r[j] == if j < k + 1 then FilledIn(secs[j], cap.details(brainDump, docs, secs[j])) else secs[j]
    {
      assert cur[j].id == secs[j].id;
      if j != k {
        assert secs[j].id != secs[k].id;
      }
    }
  }

  /** Every project with id `projectId` holds sections as `DetailsUpTo`
      with `k` sections handled. */
  predicate ProjectsDetailedUpTo(ps: seq<Project>, projectId: string, secs: seq<BlueprintSection>,
                                 brainDump: string, docs: seq<Doc>, cap: Capability, k: nat)
  {
    forall i :: 0 <= i < |ps| && ps[i].id == projectId ==>
      ps[i].blueprint.Some? && DetailsUpTo(ps[i].blueprint.value.sections, secs, brainDump, docs, cap, k)
  }

  /** Stage 3 from section `k` on handles the sections up to the first
      failing call and no further, and reports a failure exactly when there
      is one. */
  lemma {:induction false} InstallDetailsEffect(ps: seq<Project>, projectId: string, secs: seq<BlueprintSection>,
                                                brainDump: string, docs: seq<Doc>, cap: Capability, k: nat)
    requires k <= |secs| && SectionIdsDistinct(secs)
    requires forall j :: 0 <= j < |secs| ==> ItemIdsDistinct(secs[j].backlog)
    requires ProjectsDetailedUpTo(ps, projectId, secs, brainDump, docs, cap, k)
    ensures var o := InstallDetails(ps, projectId, secs, brainDump, docs, cap, k);
      var f := FirstFailure(secs, brainDump, docs, cap, k);
      (o.failed <==> f < |secs|) && ProjectsDetailedUpTo(o.projects, projectId, secs, brainDump, docs, cap, f)
    decreases |secs| - k
  {
    if k < |secs| {
      match cap.details(brainDump, docs, secs[k])
      case None =>
        InstallDetailsStop(ps, projectId, secs, brainDump, docs, cap, k);
      case Some(m) =>
        var ps' := EditProjects(ps, projectId, SetDetails(secs[k].id, DetailsList(secs[k].backlog, m)));
        forall i | 0 <= i < |ps'| && ps'[i].id == projectId
          ensures ps'[i].blueprint.Some?
               && DetailsUpTo(ps'[i].blueprint.value.sections, secs, brainDump, docs, cap, k + 1)
        {
          SetDetailsStep(ps[i].blueprint.value.sections, secs, brainDump, docs, cap, k, m);
        }
        InstallDetailsStep(ps, projectId, secs, brainDump, docs, cap, k);
        InstallDetailsEffect(ps', projectId, secs, brainDump, docs, cap, k + 1);
    }
  }

  // ---------------------------------------------------------------------
  // The whole run

  /** The sections stage 2 builds have distinct ids, and so have the items
      of each of them, when identifiers never repeat. */
  lemma Stage2IdsDistinct(titles: seq<string>, titlesBySection: map<string, seq<string>>, uuid: nat -> string)
    requires Injective(uuid)
    ensures var secs := Stage2Sections(titles, titlesBySection, uuid);
      SectionIdsDistinct(secs) && forall j :: 0 <= j < |secs| ==> ItemIdsDistinct(secs[j].backlog)
  {
    var secs := Stage2Sections(titles, titlesBySection, uuid);
    var heads := SectionHeadsFor(titles, uuid, 0);
    forall i, j | 0 <= i < |secs| && 0 <= j < |secs| && i != j ensures secs[i].id != secs[j].id {
      assert secs[i].id == uuid(i) && secs[j].id == uuid(j);
    }
    forall j | 0 <= j < |secs| ensures ItemIdsDistinct(secs[j].backlog) {
      var b := secs[j].backlog;
      var o := Offset(heads, titlesBySection, |titles|, j);
      forall t, u | 0 <= t < |b| && 0 <= u < |b| && t != u ensures b[t].id != b[u].id {
        assert b[t].id == uuid(o + t) && b[u].id == uuid(o + u);
      }
    }
  }

  /** Stage 3 reads back the sections every project with the open id holds,
      when there is one. */
  lemma SnapshotReadsBack(ps: seq<Project>, projectId: string, secs: seq<BlueprintSection>)
    requires exists i :: 0 <= i < |ps| && ps[i].id == projectId
    requires forall i :: 0 <= i < |ps| && ps[i].id == projectId ==> ps[i].blueprint == Some(Blueprint(secs))
    ensures Snapshot(ps, projectId) == secs
  {
    var r := FindProject(ps, Some(projectId));
    var i :| 0 <= i < |ps| && ps[i] == r.value && Some(r.value.id) == Some(projectId)
             && forall k :: 0 <= k < i ==> Some(ps[k].id) != Some(projectId);
  }

  /** The sections the open project holds at the end of a run whose first
      two stages succeeded: the `Stage2Sections`, with the sections before
      the first failing detail call filled in. */
  function Stage3Sections(secs: seq<BlueprintSection>, brainDump: string, docs: seq<Doc>, cap: Capability)
    : seq<BlueprintSection>
  {
    var f := FirstFailure(secs, brainDump, docs, cap, 0);
    seq(|secs|, j requires 0 <= j < |secs| =>
      if j < f then FilledIn(secs[j], cap.details(brainDump, docs, secs[j])) else secs[j])
  }

  /** Stage 3 on a project whose sections are `secs` (distinct ids, and
      distinct item ids within each section) ends in `Done` exactly when
      every detail call succeeds, and leaves the `Stage3Sections`. */
  lemma AfterTitlesEffect(ps2: seq<Project>, p: Project, cap: Capability, secs: seq<BlueprintSection>)
    requires HasProject(ps2, p.id) && BlueprintIs(ps2, p.id, Some(Blueprint(secs)))
    requires SectionIdsDistinct(secs) && forall j :: 0 <= j < |secs| ==> ItemIdsDistinct(secs[j].backlog)
    ensures AfterTitles(ps2, p, cap).phases
            == [Details, if FirstFailure(secs, p.brainDump, p.docs, cap, 0) < |secs| then Error else Done]
    ensures BlueprintIs(AfterTitles(ps2, p, cap).projects, p.id,
                        Some(Blueprint(Stage3Sections(secs, p.brainDump, p.docs, cap))))
  {
    SnapshotReadsBack(ps2, p.id, secs);
    InstallDetailsEffect(ps2, p.id, secs, p.brainDump, p.docs, cap, 0);
    var o := InstallDetails(ps2, p.id, secs, p.brainDump, p.docs, cap, 0);
    var want := Stage3Sections(secs, p.brainDump, p.docs, cap);
    forall i | 0 <= i < |o.projects| && o.projects[i].id == p.id
      ensures o.projects[i].blueprint == Some(Blueprint(want))
    {
      var cur := o.projects[i].blueprint.value.sections;
      assert forall j :: 0 <= j < |cur| ==> cur[j] == want[j];
      assert cur == want;
    }
  }

  /** A run whose section and title calls succeed hands stage 3 the
      `Stage2Projects`. */
  lemma RunReachesDetails(ps: seq<Project>, active: Option<string>, cap: Capability, uuid: nat -> string,
                          titles: seq<string>, titlesBySection: map<string, seq<string>>)
    requires FindProject(ps, active).Some?
    requires FindProject(ps, active).value.brainDump != ""
    requires cap.sections(FindProject(ps, active).value.brainDump, FindProject(ps, active).value.docs) == Some(titles)
    requires cap.titles(FindProject(ps, active).value.brainDump, FindProject(ps, active).value.docs, titles)
             == Some(titlesBySection)
    ensures var p := FindProject(ps, active).value;
      var r := AfterTitles(Stage2Projects(ps, p.id, titles, titlesBySection, uuid), p, cap);
      Run(ps, active, cap, uuid) == RunResult(r.projects, [Sections, Titles] + r.phases)
  {
    var p := FindProject(ps, active).value;
    var r := AfterTitles(Stage2Projects(ps, p.id, titles, titlesBySection, uuid), p, cap);
    GenerateSucceeds(ps, p, cap, uuid, titles);
    assert [Sections] + ([Titles] + r.phases) == [Sections, Titles] + r.phases;
  }

  /** A run on an open project with a brain dump, whose section and title
      calls succeed, goes through all three stages; it ends in `Done`
      exactly when every detail call succeeds, and leaves the open project
      with the generated sections, backlogs and details. */
  lemma RunBuildsBlueprint(ps: seq<Project>, active: Option<string>, cap: Capability, uuid: nat -> string,
                           titles: seq<string>, titlesBySection: map<string, seq<string>>)
    requires Injective(uuid)
    requires FindProject(ps, active).Some?
    requires FindProject(ps, active).value.brainDump != ""
    requires cap.sections(FindProject(ps, active).value.brainDump, FindProject(ps, active).value.docs) == Some(titles)
    requires cap.titles(FindProject(ps, active).value.brainDump, FindProject(ps, active).value.docs, titles)
             == Some(titlesBySection)
    ensures var p := FindProject(ps, active).value;
      var secs := Stage2Sections(titles, titlesBySection, uuid);
      Run(ps, active, cap, uuid).phases
      == [Sections, Titles, Details, if FirstFailure(secs, p.brainDump, p.docs, cap, 0) < |secs| then Error else Done]
    ensures var p := FindProject(ps, active).value;
      BlueprintIs(Run(ps, active, cap, uuid).projects, p.id,
                  Some(Blueprint(Stage3Sections(Stage2Sections(titles, titlesBySection, uuid), p.brainDump, p.docs, cap))))
  {
    var p := FindProject(ps, active).value;
    var ps2 := Stage2Projects(ps, p.id, titles, titlesBySection, uuid);
    var secs := Stage2Sections(titles, titlesBySection, uuid);
    StagesOneAndTwo(ps, p.id, titles, titlesBySection, uuid);
    Stage2IdsDistinct(titles, titlesBySection, uuid);
    AfterTitlesEffect(ps2, p, cap, secs);
    RunReachesDetails(ps, active, cap, uuid, titles, titlesBySection);
  }

  /** A run whose title call fails stops after stage 2 has begun: the open
      project keeps the bare sections stage 1 installed. */
  lemma RunStopsAtTitles(ps: seq<Project>, active: Option<string>, cap: Capability, uuid: nat -> string,
                         titles: seq<string>)
    requires FindProject(ps, active).Some?
    requires FindProject(ps, active).value.brainDump != ""
    requires cap.sections(FindProject(ps, active).value.brainDump, FindProject(ps, active).value.docs) == Some(titles)
    requires cap.titles(FindProject(ps, active).value.brainDump, FindProject(ps, active).value.docs, titles).None?
    ensures Run(ps, active, cap, uuid).phases == [Sections, Titles, Error]
    ensures BlueprintIs(Run(ps, active, cap, uuid).projects, FindProject(ps, active).value.id,
                        Some(Blueprint(SectionStubs(SectionHeadsFor(titles, uuid, 0)))))
  {
    var p := FindProject(ps, active).value;
    GenerateSucceeds(ps, p, cap, uuid, titles);
    assert [Sections] + [Titles, Error] == [Sections, Titles, Error];
  }

  /** Where the identifiers of the blueprint stages 1 and 2 build come
      from: section `j` has the `j`-th one, and item `t` of it the one drawn
      `t`-th after the section's `Offset`, which is past every section's
      and before the next section's items. */
  lemma Stage2IdsDrawn(titles: seq<string>, titlesBySection: map<string, seq<string>>, uuid: nat -> string,
                       j: nat, t: nat)
    requires j < |titles| && t < |Stage2Sections(titles, titlesBySection, uuid)[j].backlog|
    ensures var secs := Stage2Sections(titles, titlesBySection, uuid);
      var heads := SectionHeadsFor(titles, uuid, 0);
      var o := Offset(heads, titlesBySection, |titles|, j);
      secs[j].id == uuid(j) && secs[j].backlog[t].id == uuid(o + t)
      && |titles| <= o && o + t < Offset(heads, titlesBySection, |titles|, j + 1)
  {
    OffsetGrows(SectionHeadsFor(titles, uuid, 0), titlesBySection, |titles|, 0, j);
  }

  /** No section of the blueprint stages 1 and 2 build shares its id with
      an item, when identifiers never repeat. */
  lemma SectionIdsAreNotItemIds(titles: seq<string>, titlesBySection: map<string, seq<string>>, uuid: nat -> string)
    requires Injective(uuid)
    ensures var secs := Stage2Sections(titles, titlesBySection, uuid);
      forall j, j', t :: 0 <= j < |secs| && 0 <= j' < |secs| && 0 <= t < |secs[j'].backlog| ==>
        secs[j].id != secs[j'].backlog[t].id
  {
    var secs := Stage2Sections(titles, titlesBySection, uuid);
    forall j, j', t | 0 <= j < |secs| && 0 <= j' < |secs| && 0 <= t < |secs[j'].backlog|
      ensures secs[j].id != secs[j'].backlog[t].id
    {
      Stage2IdsDrawn(titles, titlesBySection, uuid, j', t);
    }
  }

  /** The identifiers drawn for item `t` of section `j` come before those of
      every later section. */
  lemma OffsetsApart(heads: seq<SectionHead>, titlesBySection: map<string, seq<string>>, next: nat,
                     j: nat, j': nat, t: nat, t': nat)
    requires j < j' <= |heads| && t < |TitlesFor(titlesBySection, heads[j].title)|
    ensures Offset(heads, titlesBySection, next, j) + t < Offset(heads, titlesBySection, next, j') + t'
  {
    OffsetGrows(heads, titlesBySection, next, j + 1, j');
  }

  /** Items of two different sections draw different identifiers. */
  lemma ItemIdsDifferPair(titles: seq<string>, titlesBySection: map<string, seq<string>>, uuid: nat -> string,
                          j: nat, j': nat, t: nat, t': nat)
    requires Injective(uuid)
    requires j < j' < |titles|
    requires t < |Stage2Sections(titles, titlesBySection, uuid)[j].backlog|
    requires t' < |Stage2Sections(titles, titlesBySection, uuid)[j'].backlog|
    ensures Stage2Sections(titles, titlesBySection, uuid)[j].backlog[t].id
         != Stage2Sections(titles, titlesBySection, uuid)[j'].backlog[t'].id
  {
    var heads := SectionHeadsFor(titles, uuid, 0);
    Stage2IdsDrawn(titles, titlesBySection, uuid, j, t);
    Stage2IdsDrawn(titles, titlesBySection, uuid, j', t');
    OffsetsApart(heads, titlesBySection, |titles|, j, j', t, t');
  }

  /** No two sections of the blueprint stages 1 and 2 build share an item
      id, when identifiers never repeat. */
  lemma ItemIdsDifferAcrossSections(titles: seq<string>, titlesBySection: map<string, seq<string>>, uuid: nat -> string)
    requires Injective(uuid)
    ensures var secs := Stage2Sections(titles, titlesBySection, uuid);
      forall j, j', t, t' :: 0 <= j < j' < |secs| && 0 <= t < |secs[j].backlog| && 0 <= t' < |secs[j'].backlog| ==>
        secs[j].backlog[t].id != secs[j'].backlog[t'].id
  {
    var secs := Stage2Sections(titles, titlesBySection, uuid);
    forall j, j', t, t' | 0 <= j < j' < |secs| && 0 <= t < |secs[j].backlog| && 0 <= t' < |secs[j'].backlog|
      ensures secs[j].backlog[t].id != secs[j'].backlog[t'].id
    {
      ItemIdsDifferPair(titles, titlesBySection, uuid, j, j', t, t');
    }
  }
}
