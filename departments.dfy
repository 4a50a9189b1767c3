/**
 * The static department directory: department id to display name and area,
 * with the lookups the count tracker and the test client use.
 */
module Departments {
  import opened Wrappers

  datatype Department = Department(name: string, area: string)

  const KsanArea: string := "KHU VỰC KSAN"
  const CellArea: string := "KHU VỰC BUỒNG GIAM"
  const FenceArea: string := "KHU VỰC HÀNG RÀO"
  const GateArea: string := "KHU VỰC CỔNG TRẠI"
  const LabourArea: string := "KHU VỰC LAO ĐỘNG"
  const EntryArea: string := "KHU VỰC KIỂM SOÁT RA VÀO"

  /** The six areas of the directory. */
  const Areas: set<string> := {KsanArea, CellArea, FenceArea, GateArea, LabourArea, EntryArea}

  /** `DEPARTMENT_MAPPING`. */
  const Directory: map<string, Department> := map[
    "68c7d0345ae9e9e13020dbb8" := Department("Kiểm soát an ninh", KsanArea),
    "690583e4d2739e469f4efba4" := Department("Buồng giam 01", CellArea),
    "68c7c559e6824a87950bc084" := Department("Buồng giam 02", CellArea),
    "68c7be7b1d4a863510d396ee" := Department("Hàng rào 01", FenceArea),
    "68c7c5b5b24a5bb09d737226" := Department("Hàng rào 02", FenceArea),
    "68c7c0605ae9e9e13020db7c" := Department("Cổng trại 01", GateArea),
    "68c7bf4f3387f32b37ff83ac" := Department("Cổng trại 02", GateArea),
    "69143609a0dd9986d5defb20" := Department("Lao động", LabourArea),
    "6913075f8387ea258f4c9671" := Department("Ra vào 01", EntryArea),
    "691307314d6dcb1f5b061537" := Department("Ra vào 02", EntryArea)
  ]

  /** `get_department_info`: the entry, or nothing (the empty dict) for an unknown id. */
  function DepartmentInfo(id: string): (d: Option<Department>)
    ensures d.Some? <==> id in Directory
    ensures d.Some? ==> d.value == Directory[id]
  {
    if id in Directory then Some(Directory[id]) else None
  }

  /** `get_department_name`: the name, or the id itself for an unknown id. */
  function DepartmentName(id: string): (n: string)
    ensures id in Directory ==> n == Directory[id].name
    ensures id !in Directory ==> n == id
  {
    if id in Directory then Directory[id].name else id
  }

  /** `get_department_area`: the area, or the empty string for an unknown id. */
  function DepartmentArea(id: string): (a: string)
    ensures id in Directory ==> a == Directory[id].area
    ensures id !in Directory ==> a == ""
  {
    if id in Directory then Directory[id].area else ""
  }

  /** `get_all_departments`: a copy of the directory, with the same ids and entries. */
  function AllDepartments(): (m: map<string, Department>)
    ensures m.Keys == Directory.Keys
    ensures forall id :: id in m ==> m[id] == DepartmentInfo(id).value
  {
    Directory
  }

  /** The name and area lookups agree with the full entry, for every id. */
  lemma LookupsAgreeWithInfo(id: string)
    ensures DepartmentName(id) == (match DepartmentInfo(id) case Some(d) => d.name case None => id)
    ensures DepartmentArea(id) == (match DepartmentInfo(id) case Some(d) => d.area case None => "")
  {
  }

  /** The directory has ten departments, in six areas, each area non-empty. */
  lemma DirectoryShape()
    ensures |Directory| == 10
    ensures forall id :: id in Directory ==> Directory[id].area != ""
    ensures (set id | id in Directory :: Directory[id].area) == Areas
  {
    DirectorySize();
    DirectoryAreasNonEmpty();
    DirectoryAreaSet();
  }

  lemma DirectorySize()
    ensures |Directory| == 10
  {
  }

  lemma DirectoryAreasNonEmpty()
    ensures forall id :: id in Directory ==> Directory[id].area in Areas
    ensures forall id :: id in Directory ==> Directory[id].area != ""
  {
    forall id | id in Directory
      ensures Directory[id].area in Areas
    {
    }
  }

  lemma DirectoryAreaSet()
    ensures (set id | id in Directory :: Directory[id].area) == Areas
  {
    DirectoryAreasNonEmpty();
    assert KsanArea == Directory["68c7d0345ae9e9e13020dbb8"].area;
    assert CellArea == Directory["690583e4d2739e469f4efba4"].area;
    assert FenceArea == Directory["68c7be7b1d4a863510d396ee"].area;
    assert GateArea == Directory["68c7c0605ae9e9e13020db7c"].area;
    assert LabourArea == Directory["69143609a0dd9986d5defb20"].area;
    assert EntryArea == Directory["6913075f8387ea258f4c9671"].area;
  }

  /** The two cell-block departments are distinct entries of one area. */
  lemma CellBlocksShareArea()
    ensures DepartmentName("690583e4d2739e469f4efba4") == "Buồng giam 01"
    ensures DepartmentName("68c7c559e6824a87950bc084") == "Buồng giam 02"
    ensures DepartmentArea("690583e4d2739e469f4efba4") == DepartmentArea("68c7c559e6824a87950bc084") == CellArea
  {
  }

  /** An unknown id names itself and has no area. */
  lemma UnknownIdFallbacks(id: string)
    requires id !in Directory
    ensures DepartmentName(id) == id && DepartmentArea(id) == "" && DepartmentInfo(id) == None
  {
  }
}
