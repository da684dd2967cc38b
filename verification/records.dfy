/**
 The type-specific fields of the three resources, as the add and update
 handlers assemble them from their parameters. The owner is not among them:
 the service always supplies it from the authenticated principal.
 */
module Records {
  import opened Wrappers
  import Stack

  /** The kind of a timeline entry: education or work. */
  datatype ActType = Edu | Work

  /** The enumeration's wire value. */
  function ActTypeName(t: ActType): string
  {
    match t
    case Edu => "edu"
    case Work => "work"
  }

  /** Validation of an `acttype` parameter: only the two wire values are accepted. */
  function ParseActType(s: string): (r: Option<ActType>)
    ensures r.Some? <==> s == "edu" || s == "work"
    ensures r.Some? ==> ActTypeName(r.value) == s
  {
    if s == "edu" then Some(Edu) else if s == "work" then Some(Work) else None
  }

  /** Parsing a wire value gives back the enumeration value it names. */
  lemma ParseActTypeName(t: ActType)
    ensures ParseActType(ActTypeName(t)) == Some(t)
  {
  }

  /** A contact; `tag` holds the `label` parameter (`label` is a Dafny keyword). */
  datatype ContactFields = ContactFields(name: string, tag: string, link: string)

  /** A project request's parameters: `stack` is still one delimited text. */
  datatype ProjectParams = ProjectParams(
    title: string, date: string, summary: string, stack: string,
    github: string, demo: string, image: Option<string>)

  /** A stored project: `stack` is the normalised sequence of items. */
  datatype ProjectFields = ProjectFields(
    title: string, date: string, summary: string, stack: seq<string>,
    github: string, demo: string, image: Option<string>)

  /** A timeline entry; `acttype` is stored under the name `type`. */
  datatype TimelineFields = TimelineFields(
    title: string, description: string, place: string, acttype: ActType,
    startDate: Option<string>, endDate: Option<string>, date: Option<string>)

  /** The project record built from a request: the parameters, with `stack` normalised. */
  function MakeProject(p: ProjectParams): (f: ProjectFields)
    ensures f.title == p.title && f.date == p.date && f.summary == p.summary
    ensures f.github == p.github && f.demo == p.demo && f.image == p.image
    ensures |f.stack| == Stack.Count(',', p.stack) + 1
    ensures forall i :: 0 <= i < |f.stack| ==> ' ' !in f.stack[i] && ',' !in f.stack[i]
    ensures Stack.Join(f.stack, ',') == Stack.RemoveSpaces(p.stack)
  {
    ProjectFields(p.title, p.date, p.summary, Stack.Normalize(p.stack), p.github, p.demo, p.image)
  }
}
