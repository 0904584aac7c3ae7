/** The projects sidebar: for each project a row of six status dots, a progress
    bar and a colour from the palette. */
module ProjectsSidebar {
  import opened Options
  import opened Records
  import Seqs
  import ProjectCriteria
  import Palette

  /** The sidebar's own copy of the criteria key list. */
  const SidebarKeys: seq<string> := [
    "documentation_done",
    "materials_ordered",
    "materials_received",
    "design_approved",
    "quality_checked",
    "client_approved"
  ]

  /** The sidebar lists the same keys, in the same order, as the criteria panel. */
  lemma KeysAgreeWithCriteriaPanel()
    ensures |SidebarKeys| == |ProjectCriteria.CriteriaItems|
    ensures forall i :: 0 <= i < |SidebarKeys| ==> SidebarKeys[i] == ProjectCriteria.CriteriaItems[i].key
  {
  }

  /** `calculateProjectStatus(project)`: one entry per key, 1 when the project's
      property is strictly `true` and 0 otherwise. */
  function CalculateProjectStatus(p: Project): (status: seq<int>)
    ensures |status| == 6
    ensures forall i :: 0 <= i < 6 ==> status[i] == 0 || status[i] == 1
    ensures forall i :: 0 <= i < 6 ==> (status[i] == 1 <==> Lookup(p, SidebarKeys[i]) == Some(true))
  {
    seq(|SidebarKeys|, i requires 0 <= i < |SidebarKeys| => if Lookup(p, SidebarKeys[i]) == Some(true) then 1 else 0)
  }

  /** `statusList.filter(Boolean).length`: the number of truthy (non-zero) entries. */
  function CompletedCount(status: seq<int>): (k: nat)
    ensures k <= |status|
  {
    |Seqs.Filter(status, x => x != 0)|
  }

  /** The sidebar's completed count is the count the criteria panel's progress is computed from. */
  lemma CompletedCountMatchesCriteriaPanel(p: Project)
    ensures CompletedCount(CalculateProjectStatus(p)) == ProjectCriteria.CompletedCount(p)
    ensures 0 <= CompletedCount(CalculateProjectStatus(p)) <= 6
  {
    var s := CalculateProjectStatus(p);
    var items := ProjectCriteria.CriteriaItems;
    KeysAgreeWithCriteriaPanel();
    CountsAlign(s, items, p);
  }

  lemma {:induction false} CountsAlign(s: seq<int>, items: seq<ProjectCriteria.CriteriaItem>, p: Project)
    requires |s| == |items|
    requires forall i :: 0 <= i < |s| ==> (s[i] != 0 <==> ProjectCriteria.IsDone(p, items[i]))
    ensures |Seqs.Filter(s, x => x != 0)| == |Seqs.Filter(items, ProjectCriteria.Done(p))|
    decreases |s|
  {
    if s != [] {
      CountsAlign(s[1..], items[1..], p);
    }
  }

  /** `progressPercent = (completedCount / statusList.length) * 100`, in exact
      arithmetic. */
  function ProgressPercent(p: Project): (r: real)
    ensures 0.0 <= r <= 100.0
  {
    (CompletedCount(CalculateProjectStatus(p)) as real / 6.0) * 100.0
  }

  /** The bar is empty when no criterion is done and full when all six are, and the
      criteria panel's rounded percentage is within one half of it. */
  lemma ProgressPercentProperties(p: Project)
    ensures ProgressPercent(p) == 0.0 <==> forall c: Criterion :: Get(p, c) != Some(true)
    ensures ProgressPercent(p) == 100.0 <==> forall c: Criterion :: Get(p, c) == Some(true)
    ensures -0.5 <= ProjectCriteria.CalculateProgress(p) as real - ProgressPercent(p) <= 0.5
  {
    CompletedCountMatchesCriteriaPanel(p);
    ProjectCriteria.CompletedCountByCriterion(p);
  }

  /** `getProjectColor(index)` for the row at position `index`. */
  function GetProjectColor(index: nat): (c: Option<string>)
    ensures c == Some(Palette.Colors[index % 6])
  {
    Palette.ProjectColor(index)
  }
}
