/** The missing-materials editor: the rows recorded for the selected project,
    edited in place and saved as a whole. */
module MissingMaterialsTable {
  import opened Options
  import opened Seqs
  import Js

  /** A row of the editor. `id` is present on rows loaded from the database. */
  datatype MissingMaterial = MissingMaterial(
    id: Option<string>,
    projectId: string,
    materialName: string,
    steelGrade: string,
    quantity: real,
    unit: string)

  /** A row of the `missing_materials` table as fetched. */
  datatype FetchedRow = FetchedRow(
    id: string,
    projectId: string,
    materialName: string,
    steelGrade: string,
    quantity: real,
    unit: string,
    createdAt: string,
    updatedAt: string)

  /** One edit `updateMaterial(index, field, value)`: the field and its new value. */
  datatype FieldChange =
    | SetId(id: Option<string>)
    | SetProjectId(projectId: string)
    | SetMaterialName(materialName: string)
    | SetSteelGrade(steelGrade: string)
    | SetQuantity(quantity: real)
    | SetUnit(unit: string)

  /** The row inserted for each valid material when saving. */
  datatype InsertRow = InsertRow(projectId: string, materialName: string, steelGrade: string, quantity: real, unit: string)

  /** What saving sends to the database: delete the project's rows, then insert
      `inserts` (no insert call when it is empty). */
  datatype SaveRequest = SaveRequest(deleteProjectId: string, inserts: seq<InsertRow>)

  datatype SaveError = NoProjectSelected

  /** The empty row `addNewRow` appends. */
  function BlankRow(projectId: string): MissingMaterial
  {
    MissingMaterial(None, projectId, "", "", 0.0, "pieces")
  }

  /** The load effect: each fetched row becomes an editor row with the same id,
      project, name, grade, quantity and unit; no data gives no rows. */
  function LoadRows(fetched: Option<seq<FetchedRow>>): (rows: seq<MissingMaterial>)
    ensures fetched.None? ==> rows == []
    ensures fetched.Some? ==> |rows| == |fetched.value|
    ensures fetched.Some? ==> forall i :: 0 <= i < |rows| ==>
      var m := fetched.value[i];
      rows[i] == MissingMaterial(Some(m.id), m.projectId, m.materialName, m.steelGrade, m.quantity, m.unit)
  {
    match fetched
    case None => []
    case Some(ms) =>
      seq(|ms|, i requires 0 <= i < |ms| =>
        MissingMaterial(Some(ms[i].id), ms[i].projectId, ms[i].materialName, ms[i].steelGrade, ms[i].quantity, ms[i].unit))
  }

  /** `materials.filter((_, i) => i !== index)`: drops position `index`, if there
      is one, and keeps every other row in order. */
  function RemoveAt(rows: seq<MissingMaterial>, index: int): (r: seq<MissingMaterial>)
    ensures !(0 <= index < |rows|) ==> r == rows
    ensures 0 <= index < |rows| ==> |r| == |rows| - 1
    ensures forall i :: 0 <= i < |r| ==> r[i] == if 0 <= index <= i then rows[i + 1] else rows[i]
  {
    if 0 <= index < |rows| then rows[..index] + rows[index + 1..] else rows
  }

  /** `{ ...row, [field]: value }`: the named field takes the new value and the
      other fields keep theirs. */
  function ApplyChange(row: MissingMaterial, change: FieldChange): (r: MissingMaterial)
    ensures r.id == if change.SetId? then change.id else row.id
    ensures r.projectId == if change.SetProjectId? then change.projectId else row.projectId
    ensures r.materialName == if change.SetMaterialName? then change.materialName else row.materialName
    ensures r.steelGrade == if change.SetSteelGrade? then change.steelGrade else row.steelGrade
    ensures r.quantity == if change.SetQuantity? then change.quantity else row.quantity
    ensures r.unit == if change.SetUnit? then change.unit else row.unit
  {
    match change
    case SetId(v) => row.(id := v)
    case SetProjectId(v) => row.(projectId := v)
    case SetMaterialName(v) => row.(materialName := v)
    case SetSteelGrade(v) => row.(steelGrade := v)
    case SetQuantity(v) => row.(quantity := v)
    case SetUnit(v) => row.(unit := v)
  }

  /** The save-time condition: a name and a grade that are not blank after
      trimming, and a positive quantity. */
  predicate IsValid(m: MissingMaterial)
  {
    Js.Trim(m.materialName) != [] && Js.Trim(m.steelGrade) != [] && m.quantity > 0.0
  }

  /** `materials.filter(m => m.material_name.trim() && m.steel_grade.trim() && m.quantity > 0)`. */
  function ValidMaterials(rows: seq<MissingMaterial>): (r: seq<MissingMaterial>)
    ensures forall i :: 0 <= i < |r| ==> IsValid(r[i])
  {
    Filter(rows, IsValid)
  }

  /** Saving submits exactly the valid rows, in order, and no others. */
  lemma ValidMaterialsProperties(rows: seq<MissingMaterial>)
    ensures forall m :: m in ValidMaterials(rows) <==> m in rows && IsValid(m)
    ensures IsSubsequence(ValidMaterials(rows), rows)
    ensures forall m :: multiset(ValidMaterials(rows))[m] == if IsValid(m) then multiset(rows)[m] else 0
  {
    forall m ensures m in ValidMaterials(rows) <==> m in rows && IsValid(m) {
      FilterMembership(rows, IsValid, m);
    }
    forall m ensures multiset(ValidMaterials(rows))[m] == if IsValid(m) then multiset(rows)[m] else 0 {
      FilterMultiplicity(rows, IsValid, m);
    }
    FilterIsSubsequence(rows, IsValid);
  }

  /** A freshly added, unedited row is never submitted. */
  lemma BlankRowNotSubmitted(rows: seq<MissingMaterial>, projectId: string)
    ensures !IsValid(BlankRow(projectId))
    ensures ValidMaterials(rows + [BlankRow(projectId)]) == ValidMaterials(rows)
  {
    FilterConcat(rows, [BlankRow(projectId)], IsValid);
    assert Filter([BlankRow(projectId)], IsValid) == [];
  }

  /** The save mutation: without a selected project it throws; otherwise it
      replaces the project's rows by the valid ones, all under the selected project. */
  function SavePlan(selectedProjectId: string, valid: seq<MissingMaterial>): (r: Result<SaveRequest, SaveError>)
    ensures selectedProjectId == [] <==> r == Err(NoProjectSelected)
    ensures r.Ok? ==> r.value.deleteProjectId == selectedProjectId && |r.value.inserts| == |valid|
    ensures r.Ok? ==> forall i :: 0 <= i < |valid| ==>
      r.value.inserts[i] == InsertRow(selectedProjectId, valid[i].materialName, valid[i].steelGrade, valid[i].quantity, valid[i].unit)
  {
    if selectedProjectId == [] then Err(NoProjectSelected)
    else
      Ok(SaveRequest(selectedProjectId,
        seq(|valid|, i requires 0 <= i < |valid| =>
          InsertRow(selectedProjectId, valid[i].materialName, valid[i].steelGrade, valid[i].quantity, valid[i].unit))))
  }

  class MissingMaterialsTable {
    var selectedProjectId: string
    var materials: seq<MissingMaterial>

    /** The initial state: no project selected and no rows. */
    constructor ()
      ensures selectedProjectId == [] && materials == []
    {
      selectedProjectId := [];
      materials := [];
    }

    /** Choosing a project in the selector. */
    method SelectProject(projectId: string)
      modifies this
      ensures selectedProjectId == projectId && materials == old(materials)
    {
      selectedProjectId := projectId;
    }

    /** The effect that runs when the fetched rows for the selected project change;
        `fetched` is the query's data (absent while disabled or loading). */
    method LoadExisting(fetched: Option<seq<FetchedRow>>)
      modifies this
      ensures materials == LoadRows(fetched) && selectedProjectId == old(selectedProjectId)
    {
      materials := LoadRows(fetched);
    }

    /** `addNewRow()`: with no project selected it only warns; otherwise it appends a blank row. */
    method AddNewRow() returns (warned: bool)
      modifies this
      ensures warned <==> old(selectedProjectId) == []
      ensures warned ==> materials == old(materials)
      ensures !warned ==> materials == old(materials) + [BlankRow(selectedProjectId)]
      ensures selectedProjectId == old(selectedProjectId)
    {
      if selectedProjectId == [] {
        warned := true;
        return;
      }
      warned := false;
      materials := materials + [BlankRow(selectedProjectId)];
    }

    /** `removeRow(index)`. */
    method RemoveRow(index: int)
      modifies this
      ensures materials == RemoveAt(old(materials), index)
      ensures selectedProjectId == old(selectedProjectId)
    {
      materials := RemoveAt(materials, index);
    }

    /** `updateMaterial(index, field, value)` for a row of the table: copies the
        list and overwrites one field of one row. */
    method UpdateMaterial(index: nat, change: FieldChange)
      requires index < |materials|
      modifies this
      ensures |materials| == |old(materials)|
      ensures materials[index] == ApplyChange(old(materials)[index], change)
      ensures forall i :: 0 <= i < |materials| && i != index ==> materials[i] == old(materials)[i]
      ensures selectedProjectId == old(selectedProjectId)
    {
      var updated := materials;
      updated := updated[index := ApplyChange(updated[index], change)];
      materials := updated;
    }

    /** `handleSave()`: the request the save mutation sends for the valid rows. */
    method Save() returns (r: Result<SaveRequest, SaveError>)
      ensures r == SavePlan(selectedProjectId, ValidMaterials(materials))
    {
      var valid := ValidMaterials(materials);
      r := SavePlan(selectedProjectId, valid);
    }
  }

  /** The placeholder row under the table. */
  datatype TableMessage = NoMessage | NoMaterialsRecorded | SelectProjectPrompt

  /** With no project selected the prompt shows; with a project and no rows the
      "no missing materials" line shows; never both. */
  function TableMessageFor(selectedProjectId: string, rows: seq<MissingMaterial>): (m: TableMessage)
    ensures m == SelectProjectPrompt <==> selectedProjectId == []
    ensures m == NoMaterialsRecorded <==> selectedProjectId != [] && rows == []
  {
    if selectedProjectId == [] then SelectProjectPrompt
    else if |rows| == 0 then NoMaterialsRecorded
    else NoMessage
  }
}
