/** The per-project transformations that the store's actions perform inside
    `set`: each action maps over the projects and rewrites the one whose id
    matches. The rewrite itself is described by an `Edit` value, so that the
    store, the blueprint pipeline and the lemmas all talk about one function
    `Apply`. */
module ProjectEdits {
  import opened Types
  import Text

  // ---------------------------------------------------------------------
  // Generic helpers: filtering a sequence, and uniqueness of keys

  /** The elements of `s` that satisfy `keep`, in their original order. */
  function Filter<T(!new)>(s: seq<T>, keep: T -> bool): (r: seq<T>)
    ensures |r| <= |s|
    ensures forall x :: x in r <==> x in s && keep(x)
  {
    if s == [] then []
    else if keep(s[0]) then [s[0]] + Filter(s[1..], keep)
    else Filter(s[1..], keep)
  }

  /** Filtering distributes over concatenation, so it keeps the order of the
      surviving elements. */
  lemma {:induction false} FilterAppend<T(!new)>(a: seq<T>, b: seq<T>, keep: T -> bool)
    ensures Filter(a + b, keep) == Filter(a, keep) + Filter(b, keep)
  {
    if a == [] {
      assert a + b == b;
    } else {
      assert (a + b)[1..] == a[1..] + b;
      FilterAppend(a[1..], b, keep);
    }
  }

  /** Filtering with a predicate that every element satisfies changes nothing. */
  lemma {:induction false} FilterAllKept<T(!new)>(s: seq<T>, keep: T -> bool)
    requires forall x :: x in s ==> keep(x)
    ensures Filter(s, keep) == s
  {
    if s != [] {
      FilterAllKept(s[1..], keep);
    }
  }

  /** No two elements of `s` have the same key. */
  predicate DistinctBy<T, K(==)>(s: seq<T>, key: T -> K) {
    forall i, j :: 0 <= i < j < |s| ==> key(s[i]) != key(s[j])
  }

  /** Filtering keeps keys distinct. */
  lemma {:induction false} FilterKeepsDistinct<T(!new), K>(s: seq<T>, keep: T -> bool, key: T -> K)
    requires DistinctBy(s, key)
    ensures DistinctBy(Filter(s, keep), key)
  {
    if s != [] {
      var rest := Filter(s[1..], keep);
      FilterKeepsDistinct(s[1..], keep, key);
      if keep(s[0]) {
        forall j | 0 <= j < |rest|
          ensures key(s[0]) != key(rest[j])
        {
          assert rest[j] in s[1..];
          var k :| 0 <= k < |s[1..]| && s[1..][k] == rest[j];
          assert s[k + 1] == rest[j];
        }
        var r := [s[0]] + rest;
        forall i, j | 0 <= i < j < |r|
          ensures key(r[i]) != key(r[j])
        {
          if i > 0 {
            assert r[i] == rest[i - 1] && r[j] == rest[j - 1];
          }
        }
      }
    }
  }

  /** Appending an element whose key is new keeps keys distinct. */
  lemma AppendKeepsDistinct<T, K>(s: seq<T>, x: T, key: T -> K)
    requires DistinctBy(s, key)
    requires forall y :: y in s ==> key(y) != key(x)
    ensures DistinctBy(s + [x], key)
  {
    var r := s + [x];
    forall i, j | 0 <= i < j < |r|
      ensures key(r[i]) != key(r[j])
    {
      assert r[i] == s[i];
      if j == |s| {
        assert s[i] in s;
      } else {
        assert r[j] == s[j];
      }
    }
  }

  function ProjectKey(p: Project): string { p.id }
  function DocKey(d: Doc): string { d.id }
  function NoteKey(n: QuickNote): string { n.id }

  /** The per-project uniqueness the store relies on: document ids and note
      ids are unique within their project. */
  predicate WellFormed(p: Project) {
    DistinctBy(p.docs, DocKey) && DistinctBy(p.quickNotes, NoteKey)
  }

  // ---------------------------------------------------------------------
  // Inner rewrites: documents, tags and blueprint sections

  /** The documents with id `docId` get the new content; the others stay. */
  function DocsWithContent(docs: seq<Doc>, docId: string, content: string): seq<Doc> {
    seq(|docs|, i requires 0 <= i < |docs| =>
      if docs[i].id == docId then docs[i].(content := content) else docs[i])
  }

  function DocIsNot(docId: string): Doc -> bool { (d: Doc) => d.id != docId }
  function NoteIsNot(noteId: string): QuickNote -> bool { (n: QuickNote) => n.id != noteId }
  function TagIsNot(tag: string): string -> bool { (t: string) => t != tag }
  function ProjectIsNot(id: string): Project -> bool { (p: Project) => p.id != id }

  /** The fresh sections stage 1 installs: the given ids and titles, with
      empty backlogs. */
  function SectionStubs(heads: seq<SectionHead>): (r: seq<BlueprintSection>)
    ensures HeadsOf(r) == heads
  {
    seq(|heads|, i requires 0 <= i < |heads| => BlueprintSection(heads[i].id, heads[i].title, []))
  }

  /** The sections with id `sectionId` get the new backlog; the others stay. */
  function SectionsWithBacklog(secs: seq<BlueprintSection>, sectionId: string, backlog: seq<BacklogItem>)
    : (r: seq<BlueprintSection>)
    ensures HeadsOf(r) == HeadsOf(secs)
  {
    seq(|secs|, i requires 0 <= i < |secs| =>
      if secs[i].id == sectionId then secs[i].(backlog := backlog) else secs[i])
  }

  /** The detail of the first entry for `id`, if there is one. */
  function FindDetail(details: seq<BacklogDetail>, id: string): (r: Option<string>)
    ensures r.None? <==> forall k :: 0 <= k < |details| ==> details[k].backlogId != id
    ensures r.Some? ==> exists k :: 0 <= k < |details| && details[k] == BacklogDetail(id, r.value)
                          && forall k' :: 0 <= k' < k ==> details[k'].backlogId != id
  {
    if details == [] then None
    else if details[0].backlogId == id then Some(details[0].detail)
    else
      var r := FindDetail(details[1..], id);
      if r.Some? then
        var k :| 0 <= k < |details[1..]| && details[1..][k] == BacklogDetail(id, r.value)
                 && forall k' :: 0 <= k' < k ==> details[1..][k'].backlogId != id;
        assert details[k + 1] == BacklogDetail(id, r.value);
        assert forall k' :: 1 <= k' < k + 1 ==> details[k'] == details[1..][k' - 1];
        r
      else
        assert forall k :: 1 <= k < |details| ==> details[k] == details[1..][k - 1];
        r
  }

  /** An item with its details taken from the first matching entry, if any. */
  function WithDetail(b: BacklogItem, details: seq<BacklogDetail>): (r: BacklogItem)
    ensures r.id == b.id && r.title == b.title
  {
    match FindDetail(details, b.id)
    case Some(d) => b.(details := d)
    case None => b
  }

  /** Every item keeps its id and title; an item with an entry takes that
      entry's detail, an item without one keeps its old details. */
  function BacklogWithDetails(backlog: seq<BacklogItem>, details: seq<BacklogDetail>): seq<BacklogItem> {
    seq(|backlog|, i requires 0 <= i < |backlog| => WithDetail(backlog[i], details))
  }

  /** The section with id `sectionId` gets `BacklogWithDetails`; the others
      are untouched. */
  function SectionsWithDetails(secs: seq<BlueprintSection>, sectionId: string, details: seq<BacklogDetail>)
    : (r: seq<BlueprintSection>)
    ensures HeadsOf(r) == HeadsOf(secs)
  {
    seq(|secs|, i requires 0 <= i < |secs| =>
      if secs[i].id == sectionId then secs[i].(backlog := BacklogWithDetails(secs[i].backlog, details)) else secs[i])
  }

  // ---------------------------------------------------------------------
  // Edits of one project

  /** What one store action does to the project it targets. */
  datatype Edit =
    | SetBrainDump(content: string)                               // updateBrainDump
    | AppendDoc(doc: Doc)                                         // addDoc
    | SetDocContent(docId: string, content: string)               // updateDoc
    | RemoveDoc(docId: string)                                    // deleteDoc
    | AppendNote(note: QuickNote)                                 // addQuickNote
    | RemoveNote(noteId: string)                                  // deleteQuickNote
    | AddTag(tag: string)                                         // addTag
    | RemoveTag(tag: string)                                      // removeTag
    | InstallSections(heads: seq<SectionHead>)                    // setBlueprintSections
    | SetBacklog(sectionId: string, backlog: seq<BacklogItem>)    // setBacklogTitles
    | SetDetails(sectionId: string, details: seq<BacklogDetail>)  // setBacklogDetails

  /** The project after edit `e`. No edit changes the id, the name or the
      creation time, and each edit changes only the field it is about. */
  function Apply(p: Project, e: Edit): (q: Project)
    ensures q.id == p.id && q.name == p.name && q.createdAt == p.createdAt
    ensures !e.SetBrainDump? ==> q.brainDump == p.brainDump
    ensures !(e.AppendDoc? || e.SetDocContent? || e.RemoveDoc?) ==> q.docs == p.docs
    ensures !(e.AppendNote? || e.RemoveNote?) ==> q.quickNotes == p.quickNotes
    ensures !(e.AddTag? || e.RemoveTag?) ==> q.tags == p.tags
    ensures !(e.InstallSections? || e.SetBacklog? || e.SetDetails?) ==> q.blueprint == p.blueprint
  {
    match e
    case SetBrainDump(content) => p.(brainDump := content)
    case AppendDoc(doc) => p.(docs := p.docs + [doc])
    case SetDocContent(docId, content) => p.(docs := DocsWithContent(p.docs, docId, content))
    case RemoveDoc(docId) => p.(docs := Filter(p.docs, DocIsNot(docId)))
    case AppendNote(note) => p.(quickNotes := p.quickNotes + [note])
    case RemoveNote(noteId) => p.(quickNotes := Filter(p.quickNotes, NoteIsNot(noteId)))
    case AddTag(tag) =>
      var t := Text.Trim(tag);
      if t in p.tags then p else p.(tags := p.tags + [t])
    case RemoveTag(tag) => p.(tags := Filter(p.tags, TagIsNot(tag)))
    case InstallSections(heads) => p.(blueprint := Some(Blueprint(SectionStubs(heads))))
    case SetBacklog(sectionId, backlog) =>
      if p.blueprint.None? then p
      else p.(blueprint := Some(Blueprint(SectionsWithBacklog(p.blueprint.value.sections, sectionId, backlog))))
    case SetDetails(sectionId, details) =>
      if p.blueprint.None? then p
      else p.(blueprint := Some(Blueprint(SectionsWithDetails(p.blueprint.value.sections, sectionId, details))))
  }

  /** The projects whose id is `id` are edited, every other project stays as
      it was, and the order and the number of projects do not change. */
  function EditProjects(ps: seq<Project>, id: string, e: Edit): seq<Project> {
    seq(|ps|, i requires 0 <= i < |ps| => if ps[i].id == id then Apply(ps[i], e) else ps[i])
  }

  /** The projects without those whose id is `id`. */
  function RemoveProject(ps: seq<Project>, id: string): (r: seq<Project>)
    ensures forall p :: p in r <==> p in ps && p.id != id
  {
    Filter(ps, ProjectIsNot(id))
  }

  /** The first project with id `id`, or nothing; an absent id matches no
      project. */
  function FindProject(ps: seq<Project>, id: Option<string>): (r: Option<Project>)
    ensures r.None? <==> forall i :: 0 <= i < |ps| ==> Some(ps[i].id) != id
    ensures r.Some? ==> exists i :: 0 <= i < |ps| && ps[i] == r.value && Some(r.value.id) == id
                          && forall k :: 0 <= k < i ==> Some(ps[k].id) != id
  {
    if ps == [] then None
    else if Some(ps[0].id) == id then Some(ps[0])
    else
      var r := FindProject(ps[1..], id);
      assert forall k :: 1 <= k < |ps| ==> ps[k] == ps[1..][k - 1];
      if r.Some? then
        var i :| 0 <= i < |ps[1..]| && ps[1..][i] == r.value && Some(r.value.id) == id
                 && forall k :: 0 <= k < i ==> Some(ps[1..][k].id) != id;
        assert ps[i + 1] == r.value;
        r
      else
        r
  }

  /** Some project in `ps` has id `id`. */
  predicate HasProject(ps: seq<Project>, id: string) {
    exists i :: 0 <= i < |ps| && ps[i].id == id
  }

  /** A brand-new project as `addProject` builds it. */
  function NewProject(id: string, name: string, now: int): Project {
    Project(id, name, "", [], [], [], None, now)
  }

  // ---------------------------------------------------------------------
  // Properties of the store's transformations

  /** An action addressed to an id no project has leaves the projects as they
      are. */
  lemma EditAbsentIsNoop(ps: seq<Project>, id: string, e: Edit)
    requires !HasProject(ps, id)
    ensures EditProjects(ps, id, e) == ps
  {
    var r := EditProjects(ps, id, e);
    forall i | 0 <= i < |ps| ensures r[i] == ps[i] {
      assert ps[i].id != id;
    }
  }

  /** `r` has the projects of `ps`, in the same order and with the same ids,
      and every project whose id is not `id` is unchanged. */
  predicate KeepsOthers(ps: seq<Project>, r: seq<Project>, id: string) {
    |r| == |ps|
    && forall i :: 0 <= i < |ps| ==> r[i].id == ps[i].id && (ps[i].id != id ==> r[i] == ps[i])
  }

  lemma KeepsOthersTrans(ps: seq<Project>, qs: seq<Project>, rs: seq<Project>, id: string)
    requires KeepsOthers(ps, qs, id) && KeepsOthers(qs, rs, id)
    ensures KeepsOthers(ps, rs, id)
  {
  }

  /** One store action keeps the other projects. */
  lemma EditKeepsOthers(ps: seq<Project>, id: string, e: Edit)
    ensures KeepsOthers(ps, EditProjects(ps, id, e), id)
  {
  }

  /** Every edit keeps project ids, so distinct project ids stay distinct. */
  lemma EditKeepsDistinctIds(ps: seq<Project>, id: string, e: Edit)
    requires DistinctBy(ps, ProjectKey)
    ensures DistinctBy(EditProjects(ps, id, e), ProjectKey)
  {
    var r := EditProjects(ps, id, e);
    forall i, j | 0 <= i < j < |r| ensures ProjectKey(r[i]) != ProjectKey(r[j]) {
      assert ProjectKey(ps[i]) != ProjectKey(ps[j]);
    }
  }

  /** The store's invariant over its projects: project ids are unique, and
      so are document and note ids within each project. */
  predicate StoreInvariant(ps: seq<Project>) {
    DistinctBy(ps, ProjectKey) && forall p :: p in ps ==> WellFormed(p)
  }

  /** What an edit addressed to `id` needs in order to keep the invariant: a
      document or note it adds has an id the target project does not use. */
  predicate AddsFreshIds(ps: seq<Project>, id: string, e: Edit) {
    (e.AppendDoc? ==> forall p :: p in ps && p.id == id ==> forall d :: d in p.docs ==> d.id != e.doc.id)
    && (e.AppendNote? ==> forall p :: p in ps && p.id == id ==> forall n :: n in p.quickNotes ==> n.id != e.note.id)
  }

  /** Every store action that edits projects keeps the store's invariant. */
  lemma EditKeepsInvariant(ps: seq<Project>, id: string, e: Edit)
    requires StoreInvariant(ps)
    requires AddsFreshIds(ps, id, e)
    ensures StoreInvariant(EditProjects(ps, id, e))
  {
    var r := EditProjects(ps, id, e);
    EditKeepsDistinctIds(ps, id, e);
    forall q | q in r ensures WellFormed(q) {
      var i :| 0 <= i < |r| && r[i] == q;
      assert ps[i] in ps;
      if ps[i].id == id {
        EditKeepsWellFormed(ps[i], e);
      }
    }
  }

  /** `deleteProject` keeps the store's invariant. */
  lemma RemoveKeepsInvariant(ps: seq<Project>, id: string)
    requires StoreInvariant(ps)
    ensures StoreInvariant(RemoveProject(ps, id))
  {
    FilterKeepsDistinct(ps, ProjectIsNot(id), ProjectKey);
  }

  /** `addProject` with a fresh id keeps the store's invariant. */
  lemma AppendKeepsInvariant(ps: seq<Project>, id: string, name: string, now: int)
    requires StoreInvariant(ps)
    requires !HasProject(ps, id)
    ensures StoreInvariant(ps + [NewProject(id, name, now)])
  {
    forall y | y in ps ensures ProjectKey(y) != ProjectKey(NewProject(id, name, now)) {
      var i :| 0 <= i < |ps| && ps[i] == y;
    }
    AppendKeepsDistinct(ps, NewProject(id, name, now), ProjectKey);
  }

  /** Opening a project just created finds exactly that project: the given
      name, an empty brain dump, no notes, tags or documents and no
      blueprint. */
  lemma OpenNewProject(ps: seq<Project>, id: string, name: string, now: int)
    requires !HasProject(ps, id)
    ensures FindProject(ps + [NewProject(id, name, now)], Some(id)) == Some(NewProject(id, name, now))
  {
    var qs := ps + [NewProject(id, name, now)];
    var r := FindProject(qs, Some(id));
    assert qs[|ps|].id == id;
    var i :| 0 <= i < |qs| && qs[i] == r.value && Some(r.value.id) == Some(id);
    if i < |ps| {
      assert ps[i] == qs[i];
    }
  }

  /** With unique project ids, a found project is the only one with its id. */
  lemma FoundIsUnique(ps: seq<Project>, id: Option<string>)
    requires DistinctBy(ps, ProjectKey)
    ensures FindProject(ps, id).Some? ==>
      forall j :: 0 <= j < |ps| && Some(ps[j].id) == id ==> ps[j] == FindProject(ps, id).value
  {
    var r := FindProject(ps, id);
    if r.Some? {
      var i :| 0 <= i < |ps| && ps[i] == r.value && Some(r.value.id) == id
               && forall k :: 0 <= k < i ==> Some(ps[k].id) != id;
      assert forall j :: 0 <= j < |ps| && Some(ps[j].id) == id ==> ProjectKey(ps[j]) == ProjectKey(ps[i]);
    }
  }

  /** An edit keeps document and note ids unique, provided that a document
      or note it adds carries an id the project does not use yet. */
  lemma EditKeepsWellFormed(p: Project, e: Edit)
    requires WellFormed(p)
    requires e.AppendDoc? ==> forall d :: d in p.docs ==> d.id != e.doc.id
    requires e.AppendNote? ==> forall n :: n in p.quickNotes ==> n.id != e.note.id
    ensures WellFormed(Apply(p, e))
  {
    match e
    case AppendDoc(doc) => AppendKeepsDistinct(p.docs, doc, DocKey);
    case SetDocContent(docId, content) =>
      var ds := DocsWithContent(p.docs, docId, content);
      forall i, j | 0 <= i < j < |ds| ensures DocKey(ds[i]) != DocKey(ds[j]) {
        assert DocKey(ds[i]) == DocKey(p.docs[i]) && DocKey(ds[j]) == DocKey(p.docs[j]);
      }
    case RemoveDoc(docId) => FilterKeepsDistinct(p.docs, DocIsNot(docId), DocKey);
    case AppendNote(note) => AppendKeepsDistinct(p.quickNotes, note, NoteKey);
    case RemoveNote(noteId) => FilterKeepsDistinct(p.quickNotes, NoteIsNot(noteId), NoteKey);
    case _ =>
  }

  /** `addProject` followed by `deleteProject` of the returned id restores
      the projects, when the id was fresh. */
  lemma DeleteUndoesAdd(ps: seq<Project>, id: string, name: string, now: int)
    requires !HasProject(ps, id)
    ensures RemoveProject(ps + [NewProject(id, name, now)], id) == ps
  {
    FilterAppend(ps, [NewProject(id, name, now)], ProjectIsNot(id));
    forall p | p in ps ensures ProjectIsNot(id)(p) {
      var i :| 0 <= i < |ps| && ps[i] == p;
    }
    FilterAllKept(ps, ProjectIsNot(id));
  }

  /** `deleteProject` keeps the surviving projects in their order: removing
      from a concatenation removes from each part. */
  lemma RemoveProjectAppend(a: seq<Project>, b: seq<Project>, id: string)
    ensures RemoveProject(a + b, id) == RemoveProject(a, id) + RemoveProject(b, id)
  {
    FilterAppend(a, b, ProjectIsNot(id));
  }

  /** `deleteProject` of an id no project has is a no-op. */
  lemma RemoveAbsentIsNoop(ps: seq<Project>, id: string)
    requires !HasProject(ps, id)
    ensures RemoveProject(ps, id) == ps
  {
    forall p | p in ps ensures ProjectIsNot(id)(p) {
      var i :| 0 <= i < |ps| && ps[i] == p;
    }
    FilterAllKept(ps, ProjectIsNot(id));
  }

  /** `deleteDoc` undoes `addDoc` when the new document's id was fresh. */
  lemma RemoveDocUndoesAppend(p: Project, doc: Doc)
    requires forall d :: d in p.docs ==> d.id != doc.id
    ensures Apply(Apply(p, AppendDoc(doc)), RemoveDoc(doc.id)) == p
  {
    FilterAppend(p.docs, [doc], DocIsNot(doc.id));
    FilterAllKept(p.docs, DocIsNot(doc.id));
  }

  /** `deleteQuickNote` undoes `addQuickNote` when the note's id was fresh. */
  lemma RemoveNoteUndoesAppend(p: Project, note: QuickNote)
    requires forall n :: n in p.quickNotes ==> n.id != note.id
    ensures Apply(Apply(p, AppendNote(note)), RemoveNote(note.id)) == p
  {
    FilterAppend(p.quickNotes, [note], NoteIsNot(note.id));
    FilterAllKept(p.quickNotes, NoteIsNot(note.id));
  }

  /** `updateDoc` keeps every document's id and name and the order; it
      changes the content of the documents with id `docId` only. */
  lemma UpdateDocEffect(p: Project, docId: string, content: string)
    ensures var q := Apply(p, SetDocContent(docId, content));
      |q.docs| == |p.docs|
      && forall i :: 0 <= i < |p.docs| ==>
           q.docs[i].id == p.docs[i].id && q.docs[i].name == p.docs[i].name
           && q.docs[i].content == (if p.docs[i].id == docId then content else p.docs[i].content)
  {
  }

  /** `addTag` adds the trimmed tag at the end when it is not there yet and
      changes nothing otherwise. */
  lemma AddTagEffect(p: Project, tag: string)
    ensures var q := Apply(p, AddTag(tag));
      Text.Trim(tag) in q.tags
      && q.tags == (if Text.Trim(tag) in p.tags then p.tags else p.tags + [Text.Trim(tag)])
  {
  }

  /** A duplicate-free tag list stays duplicate-free under `addTag`. */
  lemma AddTagKeepsDistinct(p: Project, tag: string)
    requires Distinct(p.tags)
    ensures Distinct(Apply(p, AddTag(tag)).tags)
  {
    var t := Text.Trim(tag);
    if t !in p.tags {
      var r := p.tags + [t];
      forall i, j | 0 <= i < j < |r| ensures r[i] != r[j] {
        assert r[i] == p.tags[i];
        if j == |p.tags| { assert p.tags[i] in p.tags; }
      }
    }
  }

  /** Adding the same tag twice is the same as adding it once. */
  lemma AddTagIdempotent(p: Project, tag: string)
    ensures Apply(Apply(p, AddTag(tag)), AddTag(tag)) == Apply(p, AddTag(tag))
  {
  }

  /** After `removeTag` the tag is gone and every other tag is still there. */
  lemma RemoveTagEffect(p: Project, tag: string)
    ensures var q := Apply(p, RemoveTag(tag));
      tag !in q.tags && forall t :: t in p.tags && t != tag ==> t in q.tags
  {
  }

  /** `removeTag` of the trimmed tag undoes an `addTag` that added it. */
  lemma RemoveTagUndoesAddTag(p: Project, tag: string)
    requires Text.Trim(tag) !in p.tags
    ensures Apply(Apply(p, AddTag(tag)), RemoveTag(Text.Trim(tag))) == p
  {
    var t := Text.Trim(tag);
    FilterAppend(p.tags, [t], TagIsNot(t));
    FilterAllKept(p.tags, TagIsNot(t));
  }

  /** `setBlueprintSections` installs exactly the given sections, in the
      given order, each with an empty backlog, whatever blueprint the
      project had before. */
  lemma InstallSectionsEffect(p: Project, heads: seq<SectionHead>)
    ensures var q := Apply(p, InstallSections(heads));
      q.blueprint.Some? && HeadsOf(q.blueprint.value.sections) == heads
      && forall i :: 0 <= i < |heads| ==> q.blueprint.value.sections[i].backlog == []
  {
  }

  /** Installing sections twice leaves only the second set: nothing of an
      earlier blueprint survives a new run's stage 1. */
  lemma InstallSectionsReplaces(p: Project, first: seq<SectionHead>, second: seq<SectionHead>)
    ensures Apply(Apply(p, InstallSections(first)), InstallSections(second))
         == Apply(p, InstallSections(second))
  {
  }

  /** `setBacklogTitles` does nothing to a project without a blueprint;
      otherwise it keeps the number, order, ids and titles of the sections
      and replaces the backlog of the sections with id `sectionId` only. */
  lemma SetBacklogEffect(p: Project, sectionId: string, backlog: seq<BacklogItem>)
    ensures var q := Apply(p, SetBacklog(sectionId, backlog));
      (p.blueprint.None? ==> q == p)
      && (p.blueprint.Some? ==>
            q.blueprint.Some?
            && HeadsOf(q.blueprint.value.sections) == HeadsOf(p.blueprint.value.sections)
            && forall i :: 0 <= i < |p.blueprint.value.sections| ==>
                 q.blueprint.value.sections[i].backlog
                 == if p.blueprint.value.sections[i].id == sectionId then backlog
                    else p.blueprint.value.sections[i].backlog)
  {
  }

  /** `setBacklogDetails` keeps the sections' ids and titles and, in the
      target section, the number, order, ids and titles of the items; an item
      whose id has an entry gets that entry's detail, any other item keeps
      its details. Other sections are untouched. */
  lemma SetDetailsEffect(p: Project, sectionId: string, details: seq<BacklogDetail>)
    ensures var q := Apply(p, SetDetails(sectionId, details));
      (p.blueprint.None? ==> q == p)
      && (p.blueprint.Some? ==>
            var secs := p.blueprint.value.sections;
            q.blueprint.Some? && HeadsOf(q.blueprint.value.sections) == HeadsOf(secs)
            && forall i :: 0 <= i < |secs| ==>
                 var b, b' := secs[i].backlog, q.blueprint.value.sections[i].backlog;
                 if secs[i].id != sectionId then b' == b
                 else |b'| == |b| && forall k :: 0 <= k < |b| ==>
                        b'[k].id == b[k].id && b'[k].title == b[k].title
                        && b'[k].details == (if exists j :: 0 <= j < |details| && details[j].backlogId == b[k].id
                                             then FindDetail(details, b[k].id).value else b[k].details))
  {
  }
}
