/** The projects page: the list of projects, the list of deliveries, and the
    handlers that add, edit and delete them. */
module ProjectsManagement {
  import opened Options
  import opened Records
  import opened Seqs
  import Js

  // ---------------------------------------------------------------------------
  // Project ids

  /** The prefix `PRJ-<year>-` of the ids generated in `year`. */
  function IdPrefix(year: nat): string
  {
    "PRJ-" + Js.DecimalString(year) + "-"
  }

  /** The id given to a new project when the list holds `count` projects:
      `PRJ-<year>-` followed by `count + 1` padded with zeros to three digits. */
  function NewProjectId(year: nat, count: nat): string
  {
    IdPrefix(year) + Js.PadStart(Js.DecimalString(count + 1), 3, '0')
  }

  /** A generated id is the year's prefix followed by at least three digits that
      denote `count + 1`. */
  lemma NewProjectIdShape(year: nat, count: nat)
    ensures |NewProjectId(year, count)| >= |IdPrefix(year)| + 3
    ensures NewProjectId(year, count)[..|IdPrefix(year)|] == IdPrefix(year)
    ensures forall i :: |IdPrefix(year)| <= i < |NewProjectId(year, count)| ==> Js.IsDigit(NewProjectId(year, count)[i])
    ensures Js.DecimalValue(NewProjectId(year, count)[|IdPrefix(year)|..]) == count + 1
  {
    var suffix := Js.PadStart(Js.DecimalString(count + 1), 3, '0');
    Js.PaddedDecimalRoundTrip(count + 1, 3);
    assert NewProjectId(year, count)[|IdPrefix(year)|..] == suffix;
  }

  /** Within one year, different list lengths give different ids. This is not
      uniqueness of ids in the list: see `AddAfterDeleteRepeatsId`. */
  lemma NewProjectIdInjective(year: nat, c1: nat, c2: nat)
    requires NewProjectId(year, c1) == NewProjectId(year, c2)
    ensures c1 == c2
  {
    NewProjectIdShape(year, c1);
    NewProjectIdShape(year, c2);
  }

  /** The first project created in 2024 gets the id that the sample data uses. */
  lemma FirstIdOf2024()
    ensures NewProjectId(2024, 0) == "PRJ-2024-001"
  {
    assert Js.DecimalString(2024) == Js.DecimalString(202) + [Js.DigitChar(4)];
    assert Js.DecimalString(202) == Js.DecimalString(20) + [Js.DigitChar(2)];
    assert Js.DecimalString(20) == Js.DecimalString(2) + [Js.DigitChar(0)];
    assert Js.DecimalString(2024) == "2024";
    assert Js.DecimalString(1) == "1";
    assert Js.PadStart("1", 3, '0') == "001";
  }

  // ---------------------------------------------------------------------------
  // The filter conditions of the deletion cascade

  function OtherProject(id: string): Project -> bool
  {
    (p: Project) => p.id != id
  }

  function OtherId(id: string): string -> bool
  {
    (x: string) => x != id
  }

  function OtherDelivery(id: string): DeliveryRecord -> bool
  {
    (d: DeliveryRecord) => d.projectNumber != id
  }

  function OtherPair(id: string): ((string, string)) -> bool
  {
    (pr: (string, string)) => pr.0 != id
  }

  // ---------------------------------------------------------------------------
  // Project list updates

  /** `activeProjects.map(p => p.id === id ? updated : p)`. */
  function ReplaceProject(ps: seq<Project>, id: string, updated: Project): (r: seq<Project>)
    ensures |r| == |ps|
    ensures forall i :: 0 <= i < |ps| ==> r[i] == if ps[i].id == id then updated else ps[i]
  {
    seq(|ps|, i requires 0 <= i < |ps| => if ps[i].id == id then updated else ps[i])
  }

  /** Replacing by id with a record that keeps the id keeps the list of ids, and
      replacing an id that is not in the list changes nothing. */
  lemma ReplaceProjectProperties(ps: seq<Project>, id: string, updated: Project)
    ensures updated.id == id ==> forall i :: 0 <= i < |ps| ==> ReplaceProject(ps, id, updated)[i].id == ps[i].id
    ensures (forall i :: 0 <= i < |ps| ==> ps[i].id != id) ==> ReplaceProject(ps, id, updated) == ps
    ensures (exists i :: 0 <= i < |ps| && ps[i].id == id) ==> updated in ReplaceProject(ps, id, updated)
    ensures forall p :: p in ReplaceProject(ps, id, updated) ==> p in ps || p == updated
  {
    var r := ReplaceProject(ps, id, updated);
    if exists i :: 0 <= i < |ps| && ps[i].id == id {
      var i :| 0 <= i < |ps| && ps[i].id == id;
      assert r[i] == updated;
    }
  }

  /** The record added by "Add New Project": the form data with the generated id
      and status "active". */
  function NewProject(data: Project, year: nat, count: nat): Project
  {
    data.(id := NewProjectId(year, count), status := Some("active"))
  }

  /** `[...activeProjects, newProject]`. */
  function AddProject(ps: seq<Project>, data: Project, year: nat): (r: seq<Project>)
    ensures |r| == |ps| + 1 && r[..|ps|] == ps
    ensures r[|ps|] == data.(id := NewProjectId(year, |ps|), status := Some("active"))
    ensures forall c :: Get(r[|ps|], c) == Get(data, c)
  {
    ps + [NewProject(data, year, |ps|)]
  }

  /** `activeProjects.filter(p => p.id !== id)`. */
  function RemoveProject(ps: seq<Project>, id: string): (r: seq<Project>)
    ensures forall i :: 0 <= i < |r| ==> r[i].id != id
  {
    Filter(ps, OtherProject(id))
  }

  /** Deletion keeps exactly the projects with another id, in their order. */
  lemma RemoveProjectProperties(ps: seq<Project>, id: string)
    ensures forall p :: p in RemoveProject(ps, id) <==> p in ps && p.id != id
    ensures IsSubsequence(RemoveProject(ps, id), ps)
    ensures forall p :: multiset(RemoveProject(ps, id))[p] == if p.id != id then multiset(ps)[p] else 0
    ensures (forall i :: 0 <= i < |ps| ==> ps[i].id != id) ==> RemoveProject(ps, id) == ps
  {
    forall p ensures p in RemoveProject(ps, id) <==> p in ps && p.id != id {
      FilterMembership(ps, OtherProject(id), p);
    }
    forall p ensures multiset(RemoveProject(ps, id))[p] == if p.id != id then multiset(ps)[p] else 0 {
      FilterMultiplicity(ps, OtherProject(id), p);
    }
    FilterIsSubsequence(ps, OtherProject(id));
    FilterExtremes(ps, OtherProject(id));
  }

  /** Ids are not checked for uniqueness: after two projects are added and the
      first is deleted, the next project added repeats the second's id. */
  lemma AddAfterDeleteRepeatsId(data: Project, year: nat)
    ensures var two := AddProject(AddProject([], data, year), data, year);
            var next := AddProject(RemoveProject(two, NewProjectId(year, 0)), data, year);
            |next| == 2 && next[0].id == next[1].id
  {
    var two := AddProject(AddProject([], data, year), data, year);
    assert two[0].id == NewProjectId(year, 0) && two[1].id == NewProjectId(year, 1);
    if NewProjectId(year, 1) == NewProjectId(year, 0) {
      NewProjectIdInjective(year, 1, 0);
    }
    var kept := RemoveProject(two, NewProjectId(year, 0));
    var p := OtherProject(NewProjectId(year, 0));
    assert !p(two[0]) && p(two[1]);
    assert two[1..] == [two[1]] && two[1..][1..] == [];
    assert Filter(two[1..], p) == [two[1]] + Filter([], p);
    assert kept == Filter(two[1..], p);
  }

  // ---------------------------------------------------------------------------
  // Delivery list updates

  /** `deliveries.map((d, index) => index === deliveries.indexOf(target) ? data : d)`:
      only the first position holding `target` is replaced. */
  function ReplaceDelivery(ds: seq<DeliveryRecord>, target: DeliveryRecord, data: DeliveryRecord): (r: seq<DeliveryRecord>)
    ensures |r| == |ds|
    ensures target !in ds ==> r == ds
    ensures target in ds ==> r[IndexOf(ds, target)] == data
    ensures forall i :: 0 <= i < |ds| && i != IndexOf(ds, target) ==> r[i] == ds[i]
  {
    var k := IndexOf(ds, target);
    seq(|ds|, i requires 0 <= i < |ds| => if i == k then data else ds[i])
  }

  /** `names.filter((_, idx) => ids[idx] !== id)`: drops the names at the positions
      where the id list holds `id`; a position past the end of the id list reads
      `undefined` there and keeps its name. */
  function FilterNames(names: seq<string>, ids: seq<string>, id: string): (r: seq<string>)
    ensures |r| <= |names|
    decreases |names|
  {
    if names == [] then []
    else
      (if ids != [] && ids[0] == id then [] else [names[0]])
      + FilterNames(names[1..], if ids == [] then [] else ids[1..], id)
  }

  /** The positional pairing of two equally long lists. */
  function Zip(a: seq<string>, b: seq<string>): (r: seq<(string, string)>)
    requires |a| == |b|
    ensures |r| == |a|
    ensures forall i :: 0 <= i < |a| ==> r[i] == (a[i], b[i])
    decreases |a|
  {
    if a == [] then [] else [(a[0], b[0])] + Zip(a[1..], b[1..])
  }

  /** Filtering the ids and the names of an aligned pair of lists keeps them aligned:
      the surviving (id, name) pairs are exactly the original pairs whose id is not `id`. */
  lemma {:induction false} FilterNamesKeepsAlignment(ids: seq<string>, names: seq<string>, id: string)
    requires |ids| == |names|
    ensures |FilterNames(names, ids, id)| == |Filter(ids, OtherId(id))|
    ensures Zip(Filter(ids, OtherId(id)), FilterNames(names, ids, id)) == Filter(Zip(ids, names), OtherPair(id))
    decreases |ids|
  {
    if ids != [] {
      FilterNamesKeepsAlignment(ids[1..], names[1..], id);
      var fi := Filter(ids, OtherId(id));
      var fn := FilterNames(names, ids, id);
      if ids[0] != id {
        assert fi == [ids[0]] + Filter(ids[1..], OtherId(id));
        assert fn == [names[0]] + FilterNames(names[1..], ids[1..], id);
        assert fi[1..] == Filter(ids[1..], OtherId(id));
        assert fn[1..] == FilterNames(names[1..], ids[1..], id);
      }
    }
  }

  /** A delivery with `id` taken out of its additional-project lists. */
  function StripProject(d: DeliveryRecord, id: string): (r: DeliveryRecord)
    ensures id !in r.projectsInvolved
    ensures r.kind == d.kind && r.date == d.date && r.projectNumber == d.projectNumber
    ensures r.projectName == d.projectName && r.location == d.location && r.time == d.time
  {
    FilterMembership(d.projectsInvolved, OtherId(id), id);
    d.(projectsInvolved := Filter(d.projectsInvolved, OtherId(id)),
       projectsInvolvedNames := FilterNames(d.projectsInvolvedNames, d.projectsInvolved, id))
  }

  /** The deliveries whose primary project is not `id`, in order. */
  function SurvivingDeliveries(ds: seq<DeliveryRecord>, id: string): seq<DeliveryRecord>
  {
    Filter(ds, OtherDelivery(id))
  }

  /** The deliveries after deleting project `id`: the survivors, each stripped of `id`. */
  function CascadeDeliveries(ds: seq<DeliveryRecord>, id: string): (r: seq<DeliveryRecord>)
    ensures |r| == |SurvivingDeliveries(ds, id)|
    ensures forall i :: 0 <= i < |r| ==> r[i] == StripProject(SurvivingDeliveries(ds, id)[i], id)
  {
    var survivors := SurvivingDeliveries(ds, id);
    seq(|survivors|, i requires 0 <= i < |survivors| => StripProject(survivors[i], id))
  }

  /** After the cascade no delivery refers to the deleted project, every
      delivery of another project survives in order, and no other delivery field changes. */
  lemma CascadeDeliveriesProperties(ds: seq<DeliveryRecord>, id: string)
    ensures forall i :: 0 <= i < |CascadeDeliveries(ds, id)| ==>
      CascadeDeliveries(ds, id)[i].projectNumber != id && id !in CascadeDeliveries(ds, id)[i].projectsInvolved
    ensures forall d :: d in ds && d.projectNumber != id <==> d in SurvivingDeliveries(ds, id)
    ensures IsSubsequence(SurvivingDeliveries(ds, id), ds)
    ensures forall d :: multiset(SurvivingDeliveries(ds, id))[d] == if d.projectNumber != id then multiset(ds)[d] else 0
    ensures |CascadeDeliveries(ds, id)| <= |ds|
  {
    var survivors := SurvivingDeliveries(ds, id);
    forall d ensures d in ds && d.projectNumber != id <==> d in survivors {
      FilterMembership(ds, OtherDelivery(id), d);
    }
    forall d: DeliveryRecord ensures multiset(survivors)[d] == if d.projectNumber != id then multiset(ds)[d] else 0 {
      FilterMultiplicity(ds, OtherDelivery(id), d);
    }
    FilterIsSubsequence(ds, OtherDelivery(id));
  }

  /** A delivery whose additional ids and names are aligned stays aligned after the cascade. */
  lemma CascadeKeepsNamesAligned(d: DeliveryRecord, id: string)
    requires |d.projectsInvolved| == |d.projectsInvolvedNames|
    ensures |StripProject(d, id).projectsInvolved| == |StripProject(d, id).projectsInvolvedNames|
    ensures Zip(StripProject(d, id).projectsInvolved, StripProject(d, id).projectsInvolvedNames)
         == Filter(Zip(d.projectsInvolved, d.projectsInvolvedNames), OtherPair(id))
  {
    FilterNamesKeepsAlignment(d.projectsInvolved, d.projectsInvolvedNames, id);
  }

  /** The selection after deleting project `id`: cleared only if it was that project. */
  function SelectionAfterDelete(selected: Option<Project>, id: string): (r: Option<Project>)
    ensures selected.Some? && selected.value.id == id ==> r == None
    ensures !(selected.Some? && selected.value.id == id) ==> r == selected
  {
    if selected.Some? && selected.value.id == id then None else selected
  }

  /** The selection after editing project `id` into `updated`: replaced only if it
      was that project. */
  function SelectionAfterEdit(selected: Option<Project>, id: string, updated: Project): (r: Option<Project>)
    ensures selected.Some? && selected.value.id == id ==> r == Some(updated)
    ensures !(selected.Some? && selected.value.id == id) ==> r == selected
  {
    if selected.Some? && selected.value.id == id then Some(updated) else selected
  }

  // ---------------------------------------------------------------------------
  // The component state

  class ProjectsManagement {
    var activeProjects: seq<Project>
    var deliveries: seq<DeliveryRecord>
    var editingProject: Option<Project>
    var editingDelivery: Option<DeliveryRecord>
    var selectedProject: Option<Project>
    var projectToDelete: Option<Project>

    /** The initial state: the given projects, and the given events as deliveries
        with empty additional-project lists. */
    constructor (projects: seq<Project>, events: seq<LogisticsEvent>)
      ensures activeProjects == projects
      ensures |deliveries| == |events|
      ensures forall i :: 0 <= i < |events| ==> deliveries[i] == FromEvent(events[i])
      ensures editingProject == None && editingDelivery == None
      ensures selectedProject == None && projectToDelete == None
    {
      activeProjects := projects;
      deliveries := seq(|events|, i requires 0 <= i < |events| => FromEvent(events[i]));
      editingProject := None;
      editingDelivery := None;
      selectedProject := None;
      projectToDelete := None;
    }

    /** `handleSaveProject(projectData)`: edits the project being edited, or adds a
        new one with a generated id; `year` is the current year. */
    method SaveProject(projectData: Project, year: nat)
      modifies this
      ensures old(editingProject).Some? ==>
        var id := old(editingProject).value.id;
        && activeProjects == ReplaceProject(old(activeProjects), id, projectData.(id := id))
        && selectedProject == SelectionAfterEdit(old(selectedProject), id, projectData.(id := id))
      ensures old(editingProject).None? ==>
        activeProjects == AddProject(old(activeProjects), projectData, year) && selectedProject == old(selectedProject)
      ensures editingProject == None
      ensures deliveries == old(deliveries) && editingDelivery == old(editingDelivery)
      ensures projectToDelete == old(projectToDelete)
    {
      if editingProject.Some? {
        var id := editingProject.value.id;
        var updated := projectData.(id := id);
        activeProjects := ReplaceProject(activeProjects, id, updated);
        selectedProject := SelectionAfterEdit(selectedProject, id, updated);
      } else {
        activeProjects := AddProject(activeProjects, projectData, year);
      }
      editingProject := None;
    }

    /** `handleSaveDelivery(deliveryData)`: replaces the delivery being edited, or
        appends a new one. */
    method SaveDelivery(deliveryData: DeliveryRecord)
      modifies this
      ensures old(editingDelivery).Some? ==>
        deliveries == ReplaceDelivery(old(deliveries), old(editingDelivery).value, deliveryData)
      ensures old(editingDelivery).None? ==> deliveries == old(deliveries) + [deliveryData]
      ensures editingDelivery == None
      ensures activeProjects == old(activeProjects) && selectedProject == old(selectedProject)
      ensures editingProject == old(editingProject) && projectToDelete == old(projectToDelete)
    {
      if editingDelivery.Some? {
        deliveries := ReplaceDelivery(deliveries, editingDelivery.value, deliveryData);
      } else {
        deliveries := deliveries + [deliveryData];
      }
      editingDelivery := None;
    }

    /** `handleDeleteProject(project)`: asks for confirmation. */
    method DeleteProject(project: Project)
      modifies this
      ensures projectToDelete == Some(project)
      ensures activeProjects == old(activeProjects) && deliveries == old(deliveries)
      ensures selectedProject == old(selectedProject)
      ensures editingProject == old(editingProject) && editingDelivery == old(editingDelivery)
    {
      projectToDelete := Some(project);
    }

    /** Closing the confirmation dialog without confirming. */
    method CancelDelete()
      modifies this
      ensures projectToDelete == None
      ensures activeProjects == old(activeProjects) && deliveries == old(deliveries)
      ensures selectedProject == old(selectedProject)
      ensures editingProject == old(editingProject) && editingDelivery == old(editingDelivery)
    {
      projectToDelete := None;
    }

    /** `confirmDeleteProject()`: removes the project, its deliveries and every
        reference to it; with no pending deletion nothing changes. */
    method ConfirmDeleteProject()
      modifies this
      ensures old(projectToDelete).None? ==>
        && activeProjects == old(activeProjects) && deliveries == old(deliveries)
        && selectedProject == old(selectedProject) && projectToDelete == None
      ensures old(projectToDelete).Some? ==>
        var id := old(projectToDelete).value.id;
        && activeProjects == RemoveProject(old(activeProjects), id)
        && deliveries == CascadeDeliveries(old(deliveries), id)
        && selectedProject == SelectionAfterDelete(old(selectedProject), id)
        && projectToDelete == None
      ensures editingProject == old(editingProject) && editingDelivery == old(editingDelivery)
    {
      if projectToDelete.None? {
        return;
      }
      var id := projectToDelete.value.id;
      activeProjects := RemoveProject(activeProjects, id);
      if selectedProject.Some? && selectedProject.value.id == id {
        selectedProject := None;
      }
      deliveries := CascadeDeliveries(deliveries, id);
      projectToDelete := None;
    }

    /** `handleUpdateProject(updatedProject)`, called by the criteria panel: replaces
        the project with that id and selects the new record. */
    method UpdateProject(updatedProject: Project)
      modifies this
      ensures activeProjects == ReplaceProject(old(activeProjects), updatedProject.id, updatedProject)
      ensures selectedProject == Some(updatedProject)
      ensures deliveries == old(deliveries) && projectToDelete == old(projectToDelete)
      ensures editingProject == old(editingProject) && editingDelivery == old(editingDelivery)
    {
      activeProjects := ReplaceProject(activeProjects, updatedProject.id, updatedProject);
      selectedProject := Some(updatedProject);
    }

    /** `onSelectProject`, wired to `setSelectedProject`. */
    method SelectProject(project: Project)
      modifies this
      ensures selectedProject == Some(project)
      ensures activeProjects == old(activeProjects) && deliveries == old(deliveries)
      ensures editingProject == old(editingProject) && editingDelivery == old(editingDelivery)
      ensures projectToDelete == old(projectToDelete)
    {
      selectedProject := Some(project);
    }

    /** The "Add New Project" button: the next save adds a project. */
    method StartNewProject()
      modifies this
      ensures editingProject == None
      ensures activeProjects == old(activeProjects) && deliveries == old(deliveries)
      ensures selectedProject == old(selectedProject) && editingDelivery == old(editingDelivery)
      ensures projectToDelete == old(projectToDelete)
    {
      editingProject := None;
    }

    /** The carousel's add button: the next delivery save appends. */
    method StartNewDelivery()
      modifies this
      ensures editingDelivery == None
      ensures activeProjects == old(activeProjects) && deliveries == old(deliveries)
      ensures selectedProject == old(selectedProject) && editingProject == old(editingProject)
      ensures projectToDelete == old(projectToDelete)
    {
      editingDelivery := None;
    }

    /** Clicking a delivery in the carousel: the next delivery save replaces it. */
    method EditDelivery(delivery: DeliveryRecord)
      modifies this
      ensures editingDelivery == Some(delivery)
      ensures activeProjects == old(activeProjects) && deliveries == old(deliveries)
      ensures selectedProject == old(selectedProject) && editingProject == old(editingProject)
      ensures projectToDelete == old(projectToDelete)
    {
      editingDelivery := Some(delivery);
    }
  }
}
