/** The ordered-materials overview: the materials with status "ordered",
    grouped under the active projects they belong to. */
module OrderedMaterialsTable {
  import opened Options
  import opened Seqs

  /** An active project as fetched. */
  datatype ProjectRow = ProjectRow(id: string, name: string, description: Option<string>)

  /** An ordered material as fetched. */
  datatype OrderedMaterial = OrderedMaterial(
    id: string,
    projectId: string,
    materialName: string,
    steelGrade: string,
    quantity: real,
    unit: string,
    createdAt: string)

  /** One project's section of the overview. */
  datatype ProjectGroup = ProjectGroup(id: string, name: string, description: Option<string>, materials: seq<OrderedMaterial>)

  /** Fetched data that may be absent; `data?.forEach` and `data?.filter(...) || []`
      treat absent data as empty. */
  function OrEmpty<T>(data: Option<seq<T>>): seq<T>
  {
    if data.Some? then data.value else []
  }

  function ForProject(id: string): OrderedMaterial -> bool
  {
    (m: OrderedMaterial) => m.projectId == id
  }

  /** `materialsData.filter(m => m.project_id === project.id)`. */
  function ProjectMaterials(ms: seq<OrderedMaterial>, id: string): (r: seq<OrderedMaterial>)
    ensures forall i :: 0 <= i < |r| ==> r[i].projectId == id
    ensures |r| <= |ms|
  {
    Filter(ms, ForProject(id))
  }

  /** The group pushed for a project: its id, name and description with its materials. */
  function GroupOf(p: ProjectRow, ms: seq<OrderedMaterial>): ProjectGroup
  {
    ProjectGroup(p.id, p.name, p.description, ProjectMaterials(ms, p.id))
  }

  /** The specification of the grouping: the projects visited in order, each
      contributing its group when it has at least one material. */
  function Groups(ps: seq<ProjectRow>, ms: seq<OrderedMaterial>): (gs: seq<ProjectGroup>)
    ensures |gs| <= |ps|
    ensures forall i :: 0 <= i < |gs| ==> gs[i].materials != [] && gs[i].materials == ProjectMaterials(ms, gs[i].id)
    decreases |ps|
  {
    if ps == [] then []
    else
      var p := ps[|ps| - 1];
      Groups(ps[..|ps| - 1], ms) + (if |ProjectMaterials(ms, p.id)| > 0 then [GroupOf(p, ms)] else [])
  }

  /** The grouping of the overview query, over the fetched projects and materials. */
  method GroupByProject(projectsData: Option<seq<ProjectRow>>, materialsData: Option<seq<OrderedMaterial>>)
    returns (result: seq<ProjectGroup>)
    ensures result == Groups(OrEmpty(projectsData), OrEmpty(materialsData))
  {
    var ps := OrEmpty(projectsData);
    var ms := OrEmpty(materialsData);
    result := [];
    for i := 0 to |ps|
      invariant result == Groups(ps[..i], ms)
    {
      var project := ps[i];
      var projectMaterials := ProjectMaterials(ms, project.id);
      if |projectMaterials| > 0 {
        result := result + [GroupOf(project, ms)];
      }
      assert ps[..i + 1][..i] == ps[..i];
    }
    assert ps[..|ps|] == ps;
  }

  function HasMaterials(ms: seq<OrderedMaterial>): ProjectRow -> bool
  {
    (p: ProjectRow) => |ProjectMaterials(ms, p.id)| > 0
  }

  /** The groups are, in project order, the groups of exactly the projects that
      have materials: projects without any are left out, each group carries its
      project's id, name and description, and its materials in input order. */
  lemma {:induction false} GroupsAreProjectsWithMaterials(ps: seq<ProjectRow>, ms: seq<OrderedMaterial>)
    ensures |Groups(ps, ms)| == |Filter(ps, HasMaterials(ms))|
    ensures forall i :: 0 <= i < |Groups(ps, ms)| ==> Groups(ps, ms)[i] == GroupOf(Filter(ps, HasMaterials(ms))[i], ms)
    decreases |ps|
  {
    if ps != [] {
      var n := |ps| - 1;
      GroupsAreProjectsWithMaterials(ps[..n], ms);
      assert ps == ps[..n] + [ps[n]];
      FilterConcat(ps[..n], [ps[n]], HasMaterials(ms));
    }
  }

  /** A group belongs to a listed project with materials, and the groups follow
      the project list's order. */
  lemma GroupsFollowProjects(ps: seq<ProjectRow>, ms: seq<OrderedMaterial>)
    ensures forall i :: 0 <= i < |Groups(ps, ms)| ==>
      exists p :: p in ps && Groups(ps, ms)[i] == GroupOf(p, ms)
    ensures forall p :: p in ps && ProjectMaterials(ms, p.id) != [] ==> GroupOf(p, ms) in Groups(ps, ms)
    ensures IsSubsequence(Filter(ps, HasMaterials(ms)), ps)
  {
    GroupsAreProjectsWithMaterials(ps, ms);
    var kept := Filter(ps, HasMaterials(ms));
    forall i | 0 <= i < |Groups(ps, ms)| ensures exists p :: p in ps && Groups(ps, ms)[i] == GroupOf(p, ms) {
      FilterMembership(ps, HasMaterials(ms), kept[i]);
    }
    forall p | p in ps && ProjectMaterials(ms, p.id) != [] ensures GroupOf(p, ms) in Groups(ps, ms) {
      FilterMembership(ps, HasMaterials(ms), p);
      var i :| 0 <= i < |kept| && kept[i] == p;
      assert Groups(ps, ms)[i] == GroupOf(p, ms);
    }
    FilterIsSubsequence(ps, HasMaterials(ms));
  }

  /** A material whose project is not listed appears in no group. */
  lemma OrphanMaterialsHidden(ps: seq<ProjectRow>, ms: seq<OrderedMaterial>, m: OrderedMaterial)
    requires forall k :: 0 <= k < |ps| ==> ps[k].id != m.projectId
    ensures forall i :: 0 <= i < |Groups(ps, ms)| ==> m !in Groups(ps, ms)[i].materials
  {
    GroupsFollowProjects(ps, ms);
  }

  /** The ids of the listed projects. */
  function Ids(ps: seq<ProjectRow>): (ids: seq<string>)
    ensures |ids| == |ps| && forall i :: 0 <= i < |ps| ==> ids[i] == ps[i].id
  {
    seq(|ps|, i requires 0 <= i < |ps| => ps[i].id)
  }

  function ForAnyOf(ids: seq<string>): OrderedMaterial -> bool
  {
    (m: OrderedMaterial) => m.projectId in ids
  }

  /** The number of materials shown across all groups. */
  function TotalMaterials(gs: seq<ProjectGroup>): nat
    decreases |gs|
  {
    if gs == [] then 0 else TotalMaterials(gs[..|gs| - 1]) + |gs[|gs| - 1].materials|
  }

  /** With distinct project ids, the groups show each material of a listed
      project exactly once, so never more materials than were fetched. */
  lemma {:induction false} TotalMaterialsBound(ps: seq<ProjectRow>, ms: seq<OrderedMaterial>)
    requires forall i, j :: 0 <= i < j < |ps| ==> ps[i].id != ps[j].id
    ensures TotalMaterials(Groups(ps, ms)) == |Filter(ms, ForAnyOf(Ids(ps)))|
    ensures TotalMaterials(Groups(ps, ms)) <= |ms|
    decreases |ps|
  {
    if ps == [] {
      FilterExtremes(ms, ForAnyOf(Ids(ps)));
    } else {
      var n := |ps| - 1;
      var p := ps[n];
      TotalMaterialsBound(ps[..n], ms);
      assert Ids(ps) == Ids(ps[..n]) + [p.id];
      assert p.id !in Ids(ps[..n]);
      var front := Groups(ps[..n], ms);
      var tail := if |ProjectMaterials(ms, p.id)| > 0 then [GroupOf(p, ms)] else [];
      assert Groups(ps, ms) == front + tail;
      if tail != [] {
        assert (front + tail)[..|front + tail| - 1] == front;
      } else {
        assert front + tail == front;
      }
      assert TotalMaterials(Groups(ps, ms)) == TotalMaterials(front) + |ProjectMaterials(ms, p.id)|;
      FilterDisjointLength(ms, ForAnyOf(Ids(ps[..n])), ForProject(p.id), ForAnyOf(Ids(ps)));
    }
  }
}
