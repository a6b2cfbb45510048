/** One piece in the scene (`LumberPiece3D`): whether it is selected, the size of
    its box, when its dimension label shows, and what a click on it does. */
module LumberPiece3D {
  import opened Wrappers
  import opened Catalog
  import opened Pieces
  import opened Store
  import SnapIndicator

  /** `selectedPieceId === piece.id`: a `null` selection selects nothing. */
  predicate IsSelected(selected: Option<string>, p: Piece) {
    selected == Some(p.id)
  }

  /** With unique ids at most one piece of the list is highlighted. */
  lemma AtMostOneSelected(s: Project, i: nat, j: nat)
    requires UniqueIds(s.pieces) && i < |s.pieces| && j < |s.pieces|
    requires IsSelected(s.selectedPieceId, s.pieces[i]) && IsSelected(s.selectedPieceId, s.pieces[j])
    ensures i == j
  {
  }

  /** The box's `[length, height, width]` in scene units: the effective length
      along x, the actual height along y and the actual width along z, scaled. */
  function BoxDimensions(p: Piece): Geometry.Vec3 {
    var f := SnapIndicator.ScaleFactor;
    Geometry.Vec3(EffectiveLength(p) * f, p.lumber.actualHeight * f, p.lumber.actualWidth * f)
  }

  /** The snap markers sit on the faces of the box: each pair of opposite markers
      is one box dimension apart. */
  lemma BoxMatchesSnapPoints(p: Piece)
    ensures var r, box := SnapIndicator.FacePoints(p), BoxDimensions(p);
      && r[0].position.x - r[1].position.x == box.x
      && r[2].position.y - r[3].position.y == box.y
      && r[4].position.z - r[5].position.z == box.z
  {
    SnapIndicator.FacePointsGeometry(p);
  }

  /** A catalog profile with no override, or a positive one, gives a box of
      positive size. */
  lemma {:induction false} BoxPositive(p: Piece)
    requires p.lumber in LumberTypes
    requires p.customLength.None? || p.customLength.value >= 0.0
    ensures BoxDimensions(p).x > 0.0 && BoxDimensions(p).y > 0.0 && BoxDimensions(p).z > 0.0
  {
    CatalogWellFormed();
    var k :| 0 <= k < |LumberTypes| && LumberTypes[k] == p.lumber;
    assert WellFormed(p.lumber);
  }

  /** The dimension label: only with dimensions on, and then for the selected
      piece and the hovered one. */
  predicate LabelVisible(s: Project, p: Piece, hovered: bool) {
    s.showDimensions && (IsSelected(s.selectedPieceId, p) || hovered)
  }

  lemma LabelRules(s: Project, p: Piece, hovered: bool)
    ensures !s.showDimensions ==> !LabelVisible(s, p, hovered)
    ensures s.showDimensions && s.selectedPieceId == Some(p.id) ==> LabelVisible(s, p, hovered)
    ensures s.showDimensions && hovered ==> LabelVisible(s, p, hovered)
    ensures !hovered && s.selectedPieceId != Some(p.id) ==> !LabelVisible(s, p, hovered)
  {
  }

  /** `handleClick`: with the delete tool the piece is removed and nothing is
      selected; any other tool selects it. */
  function Click(s: Project, p: Piece): Project {
    if s.activeTool == Delete then s.RemovePiece(p.id) else s.SelectPiece(Some(p.id))
  }

  lemma ClickEffect(s: Project, p: Piece)
    ensures s.activeTool == Delete ==>
      var r := Click(s, p);
      && p.id !in IdsOf(r.pieces)
      && !IsSelected(r.selectedPieceId, p)
      && (s.selectedPieceId != Some(p.id) ==> r.selectedPieceId == s.selectedPieceId)
      && r.(pieces := s.pieces, selectedPieceId := s.selectedPieceId) == s
    ensures s.activeTool != Delete ==>
      var r := Click(s, p);
      && IsSelected(r.selectedPieceId, p)
      && r.(selectedPieceId := s.selectedPieceId) == s
  {
    RemovePieceEffect(s, p.id);
  }

  /** Clicking a piece on the board keeps the store consistent. */
  lemma {:induction false} ClickConsistent(s: Project, p: Piece)
    requires Consistent(s) && p in s.pieces
    ensures Consistent(Click(s, p))
  {
    if s.activeTool == Delete {
      RemovePieceConsistent(s, p.id);
    } else {
      var k :| 0 <= k < |s.pieces| && s.pieces[k] == p;
      assert IdsOf(s.pieces)[k] == p.id;
    }
  }

  /** The rendered piece and its local hover state. */
  class PieceView {
    const piece: Piece
    var hovered: bool

    constructor (piece: Piece)
      ensures this.piece == piece && !hovered
    {
      this.piece := piece;
      hovered := false;
    }

    method PointerOver()
      modifies this`hovered
      ensures hovered
    {
      hovered := true;
    }

    method PointerOut()
      modifies this`hovered
      ensures !hovered
    {
      hovered := false;
    }

    method HandleClick(store: ProjectStore)
      modifies store`pieces, store`selectedPieceId
      ensures store.State() == Click(old(store.State()), piece)
    {
      if store.activeTool == Delete {
        store.RemovePiece(piece.id);
        return;
      }
      store.SelectPiece(Some(piece.id));
    }
  }
}
