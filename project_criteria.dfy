/** The criteria panel of the projects page: six switches, one per completion
    criterion, and the progress percentage derived from them. */
module ProjectCriteria {
  import opened Options
  import opened Records
  import Seqs

  datatype CriteriaItem = CriteriaItem(key: string, title: string)

  /** `criteriaItems`, in display order. */
  const CriteriaItems: seq<CriteriaItem> := [
    CriteriaItem("documentation_done", "R1 izveidots"),
    CriteriaItem("materials_ordered", "Materials Ordered"),
    CriteriaItem("materials_received", "Materials Received"),
    CriteriaItem("design_approved", "Design Approved"),
    CriteriaItem("quality_checked", "Quality Checked"),
    CriteriaItem("client_approved", "Client Approved")
  ]

  /** The criteria in the order of `CriteriaItems`. */
  const AllCriteria: seq<Criterion> :=
    [DocumentationDone, MaterialsOrdered, MaterialsReceived, DesignApproved, QualityChecked, ClientApproved]

  /** Every item's key names the criterion at the same position, and every
      criterion appears exactly once. */
  lemma CriteriaItemsCoverAllCriteria()
    ensures |CriteriaItems| == |AllCriteria| == 6
    ensures forall i :: 0 <= i < 6 ==> CriteriaItems[i].key == KeyOf(AllCriteria[i])
    ensures forall c: Criterion :: c in AllCriteria
    ensures forall i, j :: 0 <= i < j < 6 ==> AllCriteria[i] != AllCriteria[j]
  {
    forall c: Criterion ensures c in AllCriteria {
      match c
      case DocumentationDone => assert AllCriteria[0] == c;
      case MaterialsOrdered => assert AllCriteria[1] == c;
      case MaterialsReceived => assert AllCriteria[2] == c;
      case DesignApproved => assert AllCriteria[3] == c;
      case QualityChecked => assert AllCriteria[4] == c;
      case ClientApproved => assert AllCriteria[5] == c;
    }
  }

  /** `projectData[item.key] === true`: only a stored `true` counts; `false`,
      `null` and a missing property do not. */
  predicate IsDone(p: Project, item: CriteriaItem)
  {
    Lookup(p, item.key) == Some(true)
  }

  function Done(p: Project): CriteriaItem -> bool
  {
    (item: CriteriaItem) => IsDone(p, item)
  }

  /** The number of completed criteria, `criteriaItems.filter(...).length`. */
  function CompletedCount(p: Project): (k: nat)
    ensures k <= 6
  {
    |Seqs.Filter(CriteriaItems, Done(p))|
  }

  /** `Math.round((k / 6) * 100)` for k completed criteria out of six, computed
      exactly: the result is the integer nearest to 100k/6, halves rounding up. */
  function ProgressOf(k: nat): (r: int)
    requires k <= 6
    ensures 0 <= r <= 100
    ensures 12 * r - 6 <= 200 * k < 12 * r + 6
  {
    (200 * k + 6) / 12
  }

  /** `calculateProgress(projectData)`. */
  function CalculateProgress(p: Project): (r: int)
    ensures 0 <= r <= 100
    ensures 12 * r - 6 <= 200 * CompletedCount(p) < 12 * r + 6
  {
    ProgressOf(CompletedCount(p))
  }

  /** The seven possible progress values. */
  lemma ProgressTable()
    ensures ProgressOf(0) == 0 && ProgressOf(1) == 17 && ProgressOf(2) == 33
    ensures ProgressOf(3) == 50 && ProgressOf(4) == 67 && ProgressOf(5) == 83
    ensures ProgressOf(6) == 100
  {
  }

  /** More completed criteria never mean less progress. */
  lemma ProgressMonotonic(k1: nat, k2: nat)
    requires k1 <= k2 <= 6
    ensures ProgressOf(k1) <= ProgressOf(k2)
  {
  }

  /** The count of completed criteria, one criterion at a time. */
  lemma CompletedCountByCriterion(p: Project)
    ensures CompletedCount(p) ==
      (if Get(p, DocumentationDone) == Some(true) then 1 else 0) +
      (if Get(p, MaterialsOrdered) == Some(true) then 1 else 0) +
      (if Get(p, MaterialsReceived) == Some(true) then 1 else 0) +
      (if Get(p, DesignApproved) == Some(true) then 1 else 0) +
      (if Get(p, QualityChecked) == Some(true) then 1 else 0) +
      (if Get(p, ClientApproved) == Some(true) then 1 else 0)
  {
    CriteriaItemsCoverAllCriteria();
    forall i | 0 <= i < 6 ensures Done(p)(CriteriaItems[i]) == (Get(p, AllCriteria[i]) == Some(true)) {
      KeyOfRoundTrip(AllCriteria[i]);
    }
    CountFrom(p, 0);
    CountFrom(p, 1);
    CountFrom(p, 2);
    CountFrom(p, 3);
    CountFrom(p, 4);
    CountFrom(p, 5);
    assert CriteriaItems[6..] == [];
    assert CriteriaItems[0..] == CriteriaItems;
  }

  /** Counting from item `k` on: item `k`, then the rest. */
  lemma CountFrom(p: Project, k: nat)
    requires k < 6
    ensures |Seqs.Filter(CriteriaItems[k..], Done(p))|
      == (if Done(p)(CriteriaItems[k]) then 1 else 0) + |Seqs.Filter(CriteriaItems[k + 1..], Done(p))|
  {
    assert CriteriaItems[k..][1..] == CriteriaItems[k + 1..];
  }

  /** Progress is 0 exactly when no criterion is done and 100 exactly when all six are. */
  lemma ProgressExtremes(p: Project)
    ensures CalculateProgress(p) == 0 <==> forall c: Criterion :: Get(p, c) != Some(true)
    ensures CalculateProgress(p) == 100 <==> forall c: Criterion :: Get(p, c) == Some(true)
  {
    CompletedCountByCriterion(p);
  }

  /** `handleCriteriaChange(key, checked)`: the record handed to `onUpdateProject`,
      `{ ...project, [key]: checked, progress: calculateProgress({ ...project, [key]: checked }) }`.
      Only `key` and `progress` change, and the new progress is that of the new criteria. */
  function HandleCriteriaChange(p: Project, key: string, checked: bool): (q: Project)
    requires CriterionOfKey(key).Some?
    ensures Lookup(q, key) == Some(checked)
    ensures forall c: Criterion :: KeyOf(c) != key ==> Get(q, c) == Get(p, c)
    ensures q.id == p.id && q.name == p.name && q.description == p.description
    ensures q.status == p.status && q.materialOrderingActivated == p.materialOrderingActivated
    ensures q.progress == Some(CalculateProgress(q))
  {
    var c := CriterionOfKey(key).value;
    var toggled := Set(p, c, Some(checked));
    ProgressIgnoresStoredProgress(toggled, Some(CalculateProgress(toggled)));
    toggled.(progress := Some(CalculateProgress(toggled)))
  }

  /** Progress reads only the criteria, never the stored progress. */
  lemma ProgressIgnoresStoredProgress(p: Project, old_progress: Option<int>)
    ensures CalculateProgress(p.(progress := old_progress)) == CalculateProgress(p)
  {
    var q := p.(progress := old_progress);
    forall item: CriteriaItem ensures IsDone(q, item) == IsDone(p, item) {
      assert forall c: Criterion :: Get(q, c) == Get(p, c);
    }
    Seqs.FilterEquiv(CriteriaItems, Done(q), Done(p));
  }

  /** The updated record does not depend on the progress the project had before. */
  lemma ChangeIgnoresStoredProgress(p: Project, old_progress: Option<int>, key: string, checked: bool)
    requires CriterionOfKey(key).Some?
    ensures HandleCriteriaChange(p.(progress := old_progress), key, checked) == HandleCriteriaChange(p, key, checked)
  {
    var c := CriterionOfKey(key).value;
    assert Set(p.(progress := old_progress), c, Some(checked)) == Set(p, c, Some(checked)).(progress := old_progress);
    ProgressIgnoresStoredProgress(Set(p, c, Some(checked)), old_progress);
  }

  /** Applying the same change twice gives the record that applying it once gives. */
  lemma ChangeIdempotent(p: Project, key: string, checked: bool)
    requires CriterionOfKey(key).Some?
    ensures HandleCriteriaChange(HandleCriteriaChange(p, key, checked), key, checked) == HandleCriteriaChange(p, key, checked)
  {
    var q := HandleCriteriaChange(p, key, checked);
    var c := CriterionOfKey(key).value;
    assert Set(q, c, Some(checked)) == q;
    ChangeIgnoresStoredProgress(q, q.progress, key, checked);
  }
}
