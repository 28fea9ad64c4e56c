/** The entity records of the application: projects with their documents,
    notes, tags and generated blueprint, and the global generation phase. */
module Types {

  datatype Option<+T> = None | Some(value: T)

  /** A concrete task or story; `details` is empty until stage 3 fills it in. */
  datatype BacklogItem = BacklogItem(id: string, title: string, details: string)

  /** A feature area of the blueprint with its ordered backlog. */
  datatype BlueprintSection = BlueprintSection(id: string, title: string, backlog: seq<BacklogItem>)

  /** The generated backlog of a project: sections in generation order. */
  datatype Blueprint = Blueprint(sections: seq<BlueprintSection>)

  /** A context document attached to a project. */
  datatype Doc = Doc(id: string, content: string, name: string)

  /** A short free-text note attached to a project. */
  datatype QuickNote = QuickNote(id: string, content: string)

  /** One idea under development. A missing blueprint (`null`) is `None`. */
  datatype Project = Project(
    id: string,
    name: string,
    brainDump: string,
    quickNotes: seq<QuickNote>,
    tags: seq<string>,
    docs: seq<Doc>,
    blueprint: Option<Blueprint>,
    createdAt: int)

  /** The process-wide phase of the blueprint pipeline: exactly six values. */
  datatype GenerationState = Idle | Sections | Titles | Details | Error | Done

  /** An ephemeral feature idea shown while a project is spotlighted. */
  datatype SpotlightSuggestion = SpotlightSuggestion(featureName: string, description: string)

  /** The `{ id, title }` pairs handed to the store when stage 1 installs sections. */
  datatype SectionHead = SectionHead(id: string, title: string)

  /** The `{ backlogId, detail }` pairs handed to the store by stage 3. */
  datatype BacklogDetail = BacklogDetail(backlogId: string, detail: string)

  /** No two elements of `s` are equal. */
  predicate Distinct<T(==)>(s: seq<T>) {
    forall i, j :: 0 <= i < j < |s| ==> s[i] != s[j]
  }

  /** The ids and titles of a section list, without their backlogs. */
  function HeadsOf(secs: seq<BlueprintSection>): seq<SectionHead> {
    seq(|secs|, i requires 0 <= i < |secs| => SectionHead(secs[i].id, secs[i].title))
  }
}
