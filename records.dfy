/** The records the dashboard passes between its components: projects with
    their six completion criteria, logistics events and deliveries. The fields
    follow the `projects` and `deliveries` tables of the hosted database and the
    sample data; `Option` stands for a nullable column or an absent property. */
module Records {
  import opened Options
  import opened Calendar

  /** The six boolean completion criteria of a project. */
  datatype Criterion =
    | DocumentationDone
    | MaterialsOrdered
    | MaterialsReceived
    | DesignApproved
    | QualityChecked
    | ClientApproved

  /** The property name under which a criterion is stored on a project record. */
  function KeyOf(c: Criterion): string
  {
    match c
    case DocumentationDone => "documentation_done"
    case MaterialsOrdered => "materials_ordered"
    case MaterialsReceived => "materials_received"
    case DesignApproved => "design_approved"
    case QualityChecked => "quality_checked"
    case ClientApproved => "client_approved"
  }

  /** The criterion stored under a property name, if the name is a criterion's. */
  function CriterionOfKey(key: string): (c: Option<Criterion>)
    ensures c.Some? ==> KeyOf(c.value) == key
  {
    if key == "documentation_done" then Some(DocumentationDone)
    else if key == "materials_ordered" then Some(MaterialsOrdered)
    else if key == "materials_received" then Some(MaterialsReceived)
    else if key == "design_approved" then Some(DesignApproved)
    else if key == "quality_checked" then Some(QualityChecked)
    else if key == "client_approved" then Some(ClientApproved)
    else None
  }

  /** Property names and criteria correspond one to one. */
  lemma KeyOfRoundTrip(c: Criterion)
    ensures CriterionOfKey(KeyOf(c)) == Some(c)
  {
    match c
    case DocumentationDone =>
    case MaterialsOrdered => assert "materials_ordered"[10] != "documentation_done"[10];
    case MaterialsReceived =>
      assert "materials_received"[10] != "materials_ordered"[10];
      assert "materials_received"[0] != "documentation_done"[0];
    case DesignApproved => assert "design_approved"[0] != "materials_ordered"[0] && "design_approved"[0] != "materials_received"[0];
    case QualityChecked =>
    case ClientApproved =>
  }

  datatype Project = Project(
    id: string,
    name: string,
    description: Option<string>,
    status: Option<string>,
    progress: Option<int>,
    documentationDone: Option<bool>,
    materialsOrdered: Option<bool>,
    materialsReceived: Option<bool>,
    designApproved: Option<bool>,
    qualityChecked: Option<bool>,
    clientApproved: Option<bool>,
    materialOrderingActivated: Option<bool>)

  /** `project[KeyOf(c)]`. */
  function Get(p: Project, c: Criterion): Option<bool>
  {
    match c
    case DocumentationDone => p.documentationDone
    case MaterialsOrdered => p.materialsOrdered
    case MaterialsReceived => p.materialsReceived
    case DesignApproved => p.designApproved
    case QualityChecked => p.qualityChecked
    case ClientApproved => p.clientApproved
  }

  /** `project[key]` for any property name among the criteria; any other name
      reads as `undefined`. */
  function Lookup(p: Project, key: string): Option<bool>
  {
    match CriterionOfKey(key)
    case Some(c) => Get(p, c)
    case None => None
  }

  /** `{ ...project, [KeyOf(c)]: v }`. */
  function Set(p: Project, c: Criterion, v: Option<bool>): (q: Project)
    ensures Get(q, c) == v
    ensures forall d :: d != c ==> Get(q, d) == Get(p, d)
    ensures q.id == p.id && q.name == p.name && q.description == p.description
    ensures q.status == p.status && q.progress == p.progress
    ensures q.materialOrderingActivated == p.materialOrderingActivated
  {
    match c
    case DocumentationDone => p.(documentationDone := v)
    case MaterialsOrdered => p.(materialsOrdered := v)
    case MaterialsReceived => p.(materialsReceived := v)
    case DesignApproved => p.(designApproved := v)
    case QualityChecked => p.(qualityChecked := v)
    case ClientApproved => p.(clientApproved := v)
  }

  datatype EventType = Delivery | Pickup

  /** A scheduled delivery or pickup for one project, as the logistics views show it. */
  datatype LogisticsEvent = LogisticsEvent(
    kind: EventType,
    date: Day,
    projectNumber: string,
    projectName: string,
    location: Option<string>,
    time: Option<string>)

  /** A delivery as the projects page keeps it: an event plus the ids and names
      of the additional projects it serves, two lists kept position by position.
      An absent list is represented by the empty list. */
  datatype DeliveryRecord = DeliveryRecord(
    kind: EventType,
    date: Day,
    projectNumber: string,
    projectName: string,
    location: Option<string>,
    time: Option<string>,
    projectsInvolved: seq<string>,
    projectsInvolvedNames: seq<string>)

  /** `{ ...event, projectsInvolved: [], projectsInvolvedNames: [] }`. */
  function FromEvent(e: LogisticsEvent): (d: DeliveryRecord)
    ensures d.kind == e.kind && d.date == e.date && d.projectNumber == e.projectNumber
    ensures d.projectName == e.projectName && d.location == e.location && d.time == e.time
    ensures d.projectsInvolved == [] && d.projectsInvolvedNames == []
  {
    DeliveryRecord(e.kind, e.date, e.projectNumber, e.projectName, e.location, e.time, [], [])
  }
}
