/** The static lumber catalog (`LUMBER_TYPES`) and its lookup by id. */
module Catalog {
  import opened Wrappers

  /** The UI groups the catalog by category. */
  datatype Category = Dimensional | Plywood | Hardwood

  /** A stock profile: nominal (label) and actual (milled) dimensions, in inches. */
  datatype LumberType = LumberType(
    id: string,
    name: string,
    nominalWidth: real,
    nominalHeight: real,
    actualWidth: real,
    actualHeight: real,
    defaultLength: real,
    category: Category,
    color: string)

  const LumberTypes: seq<LumberType> := [
    LumberType("2x4", "2\U{D7}4", 2.0, 4.0, 1.5, 3.5, 96.0, Dimensional, "#D4A574"),
    LumberType("2x6", "2\U{D7}6", 2.0, 6.0, 1.5, 5.5, 96.0, Dimensional, "#C9956C"),
    LumberType("2x8", "2\U{D7}8", 2.0, 8.0, 1.5, 7.25, 96.0, Dimensional, "#BE8664"),
    LumberType("2x10", "2\U{D7}10", 2.0, 10.0, 1.5, 9.25, 96.0, Dimensional, "#B3775C"),
    LumberType("2x12", "2\U{D7}12", 2.0, 12.0, 1.5, 11.25, 96.0, Dimensional, "#A86854"),
    LumberType("4x4", "4\U{D7}4", 4.0, 4.0, 3.5, 3.5, 96.0, Dimensional, "#9D594C"),
    LumberType("1x4", "1\U{D7}4", 1.0, 4.0, 0.75, 3.5, 96.0, Dimensional, "#DFB48C"),
    LumberType("1x6", "1\U{D7}6", 1.0, 6.0, 0.75, 5.5, 96.0, Dimensional, "#D4A584"),
    LumberType("ply-1/4", "1/4\" Plywood", 48.0, 96.0, 0.25, 48.0, 96.0, Plywood, "#E8D4B8"),
    LumberType("ply-1/2", "1/2\" Plywood", 48.0, 96.0, 0.5, 48.0, 96.0, Plywood, "#DCC4A8"),
    LumberType("ply-3/4", "3/4\" Plywood", 48.0, 96.0, 0.75, 48.0, 96.0, Plywood, "#D0B498"),
    LumberType("oak", "Oak Board", 1.0, 6.0, 0.75, 5.5, 72.0, Hardwood, "#8B7355"),
    LumberType("walnut", "Walnut Board", 1.0, 6.0, 0.75, 5.5, 72.0, Hardwood, "#5D4E37"),
    LumberType("maple", "Maple Board", 1.0, 6.0, 0.75, 5.5, 72.0, Hardwood, "#F5DEB3")
  ]

  /** All dimensions positive, and the milled size never exceeds the nominal size. */
  predicate WellFormed(t: LumberType) {
    && t.nominalWidth > 0.0 && t.nominalHeight > 0.0
    && t.actualWidth > 0.0 && t.actualHeight > 0.0
    && t.defaultLength > 0.0
    && t.actualWidth <= t.nominalWidth
    && t.actualHeight <= t.nominalHeight
  }

  lemma CatalogWellFormed()
    ensures |LumberTypes| == 14
    ensures forall i :: 0 <= i < |LumberTypes| ==> WellFormed(LumberTypes[i])
    ensures forall i, j :: 0 <= i < j < |LumberTypes| ==> LumberTypes[i].id != LumberTypes[j].id
  {
  }

  /** `types.find((l) => l.id === id)`: the first entry with that id. */
  function FindIn(types: seq<LumberType>, id: string): (r: Option<LumberType>)
    ensures r.Some? ==> r.value in types && r.value.id == id
    ensures r.None? <==> forall k :: 0 <= k < |types| ==> types[k].id != id
  {
    if types == [] then None
    else if types[0].id == id then Some(types[0])
    else FindIn(types[1..], id)
  }

  /** `find` returns the first profile with the id. */
  lemma {:induction false} FindInFirst(types: seq<LumberType>, id: string, k: nat)
    requires k < |types| && types[k].id == id
    requires forall j :: 0 <= j < k ==> types[j].id != id
    ensures FindIn(types, id) == Some(types[k])
  {
    if k > 0 {
      assert types[0].id != id;
      assert forall j :: 0 <= j < k - 1 ==> types[1..][j] == types[j + 1];
      FindInFirst(types[1..], id, k - 1);
    }
  }

  /** `LUMBER_TYPES.find((l) => l.id === id)` */
  function FindLumber(id: string): (r: Option<LumberType>)
    ensures r.Some? ==> r.value in LumberTypes && r.value.id == id && WellFormed(r.value)
    ensures r.None? <==> forall k :: 0 <= k < |LumberTypes| ==> LumberTypes[k].id != id
  {
    CatalogWellFormed();
    FindIn(LumberTypes, id)
  }
}
