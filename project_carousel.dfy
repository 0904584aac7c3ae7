/** The dashboard's scrolling strip of active projects. */
module ProjectCarousel {
  import opened Options
  import opened Seqs
  import opened Records
  import SampleData

  function IsActive(p: Project): bool
  {
    p.status == Some("active")
  }

  /** `projects.filter(p => p.status === "active")`. */
  function ActiveProjects(ps: seq<Project>): (r: seq<Project>)
    ensures |r| <= |ps|
    ensures forall i :: 0 <= i < |r| ==> r[i].status == Some("active")
  {
    Filter(ps, IsActive)
  }

  /** The strip shows exactly the active projects, in list order. */
  lemma ActiveProjectsProperties(ps: seq<Project>)
    ensures forall p :: p in ActiveProjects(ps) <==> p in ps && p.status == Some("active")
    ensures IsSubsequence(ActiveProjects(ps), ps)
    ensures forall p :: multiset(ActiveProjects(ps))[p] == if p.status == Some("active") then multiset(ps)[p] else 0
  {
    forall p ensures p in ActiveProjects(ps) <==> p in ps && p.status == Some("active") {
      FilterMembership(ps, IsActive, p);
    }
    forall p ensures multiset(ActiveProjects(ps))[p] == if p.status == Some("active") then multiset(ps)[p] else 0 {
      FilterMultiplicity(ps, IsActive, p);
    }
    FilterIsSubsequence(ps, IsActive);
  }

  /** Every sample project is active, so the sample strip shows all nine. */
  lemma SampleProjectsAllShown()
    ensures ActiveProjects(SampleData.Projects) == SampleData.Projects
  {
    SampleData.ProjectsWellFormed();
    FilterExtremes(SampleData.Projects, IsActive);
  }

  /** `[...activeProjects, ...activeProjects]`: the list twice over, so position
      `i` shows project `i mod n`. */
  function DisplayProjects(active: seq<Project>): (r: seq<Project>)
    ensures |r| == 2 * |active|
    ensures forall i :: 0 <= i < |r| ==> r[i] == active[i % |active|]
  {
    active + active
  }

  /** The second copy repeats the first, element by element. */
  lemma DisplayProjectsRepeats(active: seq<Project>)
    ensures forall i :: 0 <= i < |active| ==> DisplayProjects(active)[i + |active|] == DisplayProjects(active)[i]
  {
    assert DisplayProjects(active) == active + active;
  }

  /** `Math.max(20, Math.min(40, 60 - n * 2))` seconds for `n` active projects:
      40 up to ten projects, two seconds less for each further one, and 20 from
      twenty on. */
  function AnimationDuration(n: nat): (d: int)
    ensures 20 <= d <= 40
    ensures n <= 10 ==> d == 40
    ensures n >= 20 ==> d == 20
    ensures 10 <= n <= 20 ==> d == 60 - 2 * n
  {
    var shortened := 60 - n * 2;
    var capped := if 40 < shortened then 40 else shortened;
    if 20 > capped then 20 else capped
  }

  /** More projects never scroll slower. */
  lemma AnimationDurationNonIncreasing(m: nat, n: nat)
    requires m <= n
    ensures AnimationDuration(n) <= AnimationDuration(m)
  {
  }
}
