/** Placed lumber pieces (`LumberPiece`), partial updates, and the list operations
    the store's actions are built from. */
module Pieces {
  import opened Wrappers
  import opened Geometry
  import opened Catalog

  /** A placed piece: it carries a copy of its catalog profile, a transform, a colour
      and an optional length override (`customLength?: number`). */
  datatype Piece = Piece(
    id: string,
    lumber: LumberType,
    position: Vec3,
    rotation: Vec3,
    scale: Vec3,
    color: string,
    customLength: Option<real>)

  /** `customLength || type.defaultLength`: an absent override, and an override of 0,
      both fall back to the stock length. */
  function EffectiveLength(p: Piece): (len: real)
    ensures p.customLength.Some? && p.customLength.value != 0.0 ==> len == p.customLength.value
    ensures (p.customLength.None? || p.customLength.value == 0.0) ==> len == p.lumber.defaultLength
    ensures p.lumber.defaultLength != 0.0 ==> len != 0.0
  {
    if p.customLength.Some? && p.customLength.value != 0.0 then p.customLength.value
    else p.lumber.defaultLength
  }

  /** The default resting position: on the ground plane, centred. */
  function DefaultPosition(t: LumberType): Vec3 {
    Vec3(0.0, t.actualHeight / 2.0, 0.0)
  }

  /** The piece `addPiece(type, position)` creates, with `id` from the id generator. */
  function NewPiece(id: string, t: LumberType, position: Option<Vec3>): Piece {
    Piece(id, t, position.GetOr(DefaultPosition(t)), Origin, UnitScale, t.color, Some(t.defaultLength))
  }

  /** `{ ...piece, id: newId, position: [x + 5, y, z + 5] }` */
  function DuplicateOf(p: Piece, newId: string): Piece {
    p.(id := newId, position := Vec3(p.position.x + 5.0, p.position.y, p.position.z + 5.0))
  }

  /** `Partial<LumberPiece>`: every field, `id` and `type` included, may be given.
      `customLength` may be given as `undefined`, hence the nested option. */
  datatype PieceUpdate = PieceUpdate(
    id: Option<string>,
    lumber: Option<LumberType>,
    position: Option<Vec3>,
    rotation: Option<Vec3>,
    scale: Option<Vec3>,
    color: Option<string>,
    customLength: Option<Option<real>>)

  /** The empty update `{}`. */
  const NoChange: PieceUpdate := PieceUpdate(None, None, None, None, None, None, None)

  /** `{ ...p, ...u }` */
  function Merge(p: Piece, u: PieceUpdate): Piece {
    Piece(
      u.id.GetOr(p.id),
      u.lumber.GetOr(p.lumber),
      u.position.GetOr(p.position),
      u.rotation.GetOr(p.rotation),
      u.scale.GetOr(p.scale),
      u.color.GetOr(p.color),
      u.customLength.GetOr(p.customLength))
  }

  /** Merging the empty update changes nothing, and merging the same update twice
      is the same as merging it once. */
  lemma {:induction false} MergeLaws(p: Piece, u: PieceUpdate)
    ensures Merge(p, NoChange) == p
    ensures Merge(Merge(p, u), u) == Merge(p, u)
  {
  }

  /** The ids of the pieces, in list order. */
  function IdsOf(ps: seq<Piece>): (ids: seq<string>)
    ensures |ids| == |ps|
    ensures forall i :: 0 <= i < |ps| ==> ids[i] == ps[i].id
  {
    seq(|ps|, i requires 0 <= i < |ps| => ps[i].id)
  }

  predicate UniqueIds(ps: seq<Piece>) {
    forall i, j :: 0 <= i < j < |ps| ==> ps[i].id != ps[j].id
  }

  /** `pieces.filter((p) => p.id !== id)` */
  function Without(ps: seq<Piece>, id: string): (r: seq<Piece>)
    ensures forall p :: p in r <==> p in ps && p.id != id
    ensures |r| <= |ps|
    ensures (forall i :: 0 <= i < |ps| ==> ps[i].id != id) ==> r == ps
  {
    if ps == [] then []
    else (if ps[0].id != id then [ps[0]] else []) + Without(ps[1..], id)
  }

  /** Filtering keeps the surviving pieces in their original order: it distributes
      over concatenation. */
  lemma {:induction false} WithoutAppend(a: seq<Piece>, b: seq<Piece>, id: string)
    ensures Without(a + b, id) == Without(a, id) + Without(b, id)
  {
    if a == [] {
      assert a + b == b;
    } else {
      var ab := a + b;
      assert ab[0] == a[0] && ab[1..] == a[1..] + b;
      assert Without(ab, id) == (if a[0].id != id then [a[0]] else []) + Without(a[1..] + b, id);
      WithoutAppend(a[1..], b, id);
    }
  }

  /** Filtering keeps unique ids unique. */
  lemma {:induction false} WithoutUnique(ps: seq<Piece>, id: string)
    requires UniqueIds(ps)
    ensures UniqueIds(Without(ps, id))
  {
    if ps != [] {
      WithoutUnique(ps[1..], id);
      var rest := Without(ps[1..], id);
      forall q | q in rest ensures q.id != ps[0].id {
        assert q in ps[1..];
      }
    }
  }

  /** `pieces.map((p) => (p.id === id ? { ...p, ...u } : p))` */
  function UpdatedAll(ps: seq<Piece>, id: string, u: PieceUpdate): (r: seq<Piece>)
    ensures |r| == |ps|
    ensures forall i :: 0 <= i < |ps| ==> r[i] == if ps[i].id == id then Merge(ps[i], u) else ps[i]
  {
    if ps == [] then []
    else [if ps[0].id == id then Merge(ps[0], u) else ps[0]] + UpdatedAll(ps[1..], id, u)
  }

  /** `pieces.find((p) => p.id === id)`: the first piece carrying that id. */
  function FindById(ps: seq<Piece>, id: string): (r: Option<Piece>)
    ensures r.None? <==> forall i :: 0 <= i < |ps| ==> ps[i].id != id
    ensures r.Some? ==> exists i :: 0 <= i < |ps| && ps[i] == r.value && r.value.id == id
                                 && forall j :: 0 <= j < i ==> ps[j].id != id
  {
    if ps == [] then None
    else if ps[0].id == id then Some(ps[0])
    else
      var r := FindById(ps[1..], id);
      if r.Some? then
        var i :| 0 <= i < |ps[1..]| && ps[1..][i] == r.value && r.value.id == id
                 && forall j :: 0 <= j < i ==> ps[1..][j].id != id;
        assert ps[i + 1] == r.value;
        r
      else r
  }

  /** `pieces.find((p) => p.id === selectedPieceId)`: a `null` selection matches nothing. */
  function SelectedPiece(ps: seq<Piece>, selected: Option<string>): (r: Option<Piece>)
    ensures r.Some? ==> selected.Some? && r.value in ps && r.value.id == selected.value
    ensures r.None? <==> selected.None? || forall i :: 0 <= i < |ps| ==> ps[i].id != selected.value
  {
    if selected.None? then None else FindById(ps, selected.value)
  }
}
