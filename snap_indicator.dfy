/** The snap-point markers shown around the pieces near the selected one
    (`SnapIndicator`, the `snapPoints` derivation). */
module SnapIndicator {
  import opened Wrappers
  import opened Geometry
  import opened Pieces
  import opened Store

  /** World units per inch. */
  const ScaleFactor: real := 0.1
  /** Extra reach of the proximity test, in inches. */
  const SnapDistance: real := 5.0
  const SnapColor: string := "#00ff88"

  datatype SnapPoint = SnapPoint(position: Vec3, color: string)

  /** The proximity test: each axis separately within the longer of the two
      effective lengths plus the snap distance (a box, not a sphere). */
  predicate Near(sel: Piece, p: Piece) {
    var threshold := Max(EffectiveLength(p), EffectiveLength(sel)) + SnapDistance;
    && Abs(sel.position.x - p.position.x) < threshold
    && Abs(sel.position.y - p.position.y) < threshold
    && Abs(sel.position.z - p.position.z) < threshold
  }

  /** The six face centres of a piece, in inches: its position moved by half its
      length along x, half its height along y and half its width along z, each
      way; within a pair the two points are mirror images about the position. */
  function Corners(p: Piece): (r: seq<Vec3>)
    ensures |r| == 6
    ensures (r[0].x + r[1].x) / 2.0 == p.position.x && r[0].x - r[1].x == EffectiveLength(p)
    ensures (r[2].y + r[3].y) / 2.0 == p.position.y && r[2].y - r[3].y == p.lumber.actualHeight
    ensures (r[4].z + r[5].z) / 2.0 == p.position.z && r[4].z - r[5].z == p.lumber.actualWidth
    ensures r[0].y == r[1].y == p.position.y && r[0].z == r[1].z == p.position.z
    ensures r[2].x == r[3].x == p.position.x && r[2].z == r[3].z == p.position.z
    ensures r[4].x == r[5].x == p.position.x && r[4].y == r[5].y == p.position.y
  {
    var (x, y, z) := (p.position.x, p.position.y, p.position.z);
    var length := EffectiveLength(p);
    var height := p.lumber.actualHeight;
    var width := p.lumber.actualWidth;
    [ Vec3(x + length / 2.0, y, z), Vec3(x - length / 2.0, y, z),
      Vec3(x, y + height / 2.0, z), Vec3(x, y - height / 2.0, z),
      Vec3(x, y, z + width / 2.0), Vec3(x, y, z - width / 2.0) ]
  }

  /** The markers of one qualifying piece, scaled into world units. */
  function FacePoints(p: Piece): (r: seq<SnapPoint>)
    ensures |r| == 6
    ensures forall c :: 0 <= c < 6 ==> r[c] == SnapPoint(Corners(p)[c].ScaledBy(ScaleFactor), SnapColor)
  {
    var c := Corners(p);
    seq(6, i requires 0 <= i < 6 => SnapPoint(c[i].ScaledBy(ScaleFactor), SnapColor))
  }

  /** The pieces that contribute markers: every piece whose id is not the
      selected id and that passes the proximity test, in list order. */
  function Qualifying(ps: seq<Piece>, sel: Piece): (q: seq<Piece>)
    ensures forall p :: p in q <==> p in ps && p.id != sel.id && Near(sel, p)
    ensures |q| <= |ps|
  {
    if ps == [] then []
    else
      var p := ps[|ps| - 1];
      assert ps == ps[..|ps| - 1] + [p];
      Qualifying(ps[..|ps| - 1], sel) + (if p.id != sel.id && Near(sel, p) then [p] else [])
  }

  /** The markers of a list of pieces, six per piece, in list order. */
  function FlatFaces(qs: seq<Piece>): (r: seq<SnapPoint>)
    ensures |r| == 6 * |qs|
  {
    if qs == [] then [] else FlatFaces(qs[..|qs| - 1]) + FacePoints(qs[|qs| - 1])
  }

  function Candidates(ps: seq<Piece>, sel: Piece): seq<SnapPoint> {
    FlatFaces(Qualifying(ps, sel))
  }

  /** No markers unless snapping is on and the selection names a piece. */
  function SnapPointsOf(s: Project): (r: seq<SnapPoint>)
    ensures !s.snapToGrid || SelectedPiece(s.pieces, s.selectedPieceId).None? ==> r == []
    ensures s.snapToGrid && SelectedPiece(s.pieces, s.selectedPieceId).Some? ==>
      |r| == 6 * |Qualifying(s.pieces, SelectedPiece(s.pieces, s.selectedPieceId).value)|
  {
    match SelectedPiece(s.pieces, s.selectedPieceId)
    case None => []
    case Some(sel) => if s.snapToGrid then Candidates(s.pieces, sel) else []
  }

  /** Marker `6 * j + c` is face point `c` of the `j`-th qualifying piece. */
  lemma {:induction false} FlatFacesLayout(qs: seq<Piece>, j: nat, c: nat)
    requires j < |qs| && c < 6
    ensures FlatFaces(qs)[6 * j + c] == FacePoints(qs[j])[c]
  {
    var n := |qs| - 1;
    if j < n {
      FlatFacesLayout(qs[..n], j, c);
      assert qs[..n][j] == qs[j];
    }
  }

  /** Every marker belongs to a piece other than the selected one that passes the
      proximity test; the selected piece never contributes. */
  lemma {:induction false} CandidatesOrigin(ps: seq<Piece>, sel: Piece, k: nat)
    requires k < |Candidates(ps, sel)|
    ensures exists p :: p in ps && p.id != sel.id && Near(sel, p) && Candidates(ps, sel)[k] in FacePoints(p)
  {
    var q := Qualifying(ps, sel);
    var j, c := k / 6, k % 6;
    assert k == 6 * j + c;
    FlatFacesLayout(q, j, c);
    assert q[j] in q;
    assert Candidates(ps, sel)[k] == FacePoints(q[j])[c];
  }

  /** Every qualifying piece contributes all six of its markers. */
  lemma {:induction false} CandidatesComplete(ps: seq<Piece>, sel: Piece, p: Piece)
    requires p in ps && p.id != sel.id && Near(sel, p)
    ensures forall c :: 0 <= c < 6 ==> FacePoints(p)[c] in Candidates(ps, sel)
  {
    var q := Qualifying(ps, sel);
    var j :| 0 <= j < |q| && q[j] == p;
    forall c | 0 <= c < 6 ensures FacePoints(p)[c] in Candidates(ps, sel) {
      FlatFacesLayout(q, j, c);
    }
  }

  /** The markers give the piece's face centres in world units. */
  lemma FacePointsGeometry(p: Piece)
    ensures var r := FacePoints(p);
      && (forall c :: 0 <= c < 6 ==> r[c].color == "#00ff88")
      && r[0].position.x - r[1].position.x == EffectiveLength(p) * 0.1
      && r[2].position.y - r[3].position.y == p.lumber.actualHeight * 0.1
      && r[4].position.z - r[5].position.z == p.lumber.actualWidth * 0.1
      && (r[0].position.x + r[1].position.x) / 2.0 == p.position.x * 0.1
      && (r[2].position.y + r[3].position.y) / 2.0 == p.position.y * 0.1
      && (r[4].position.z + r[5].position.z) / 2.0 == p.position.z * 0.1
      && r[0].position.y == r[1].position.y == p.position.y * 0.1
      && r[0].position.z == r[1].position.z == p.position.z * 0.1
      && r[2].position.x == r[3].position.x == p.position.x * 0.1
      && r[2].position.z == r[3].position.z == p.position.z * 0.1
      && r[4].position.x == r[5].position.x == p.position.x * 0.1
      && r[4].position.y == r[5].position.y == p.position.y * 0.1
  {
  }

  /** The proximity test is per axis: a piece 100 inches away along every axis
      still qualifies next to a 2×4, although it is about 173 inches away. */
  lemma BoxNotSphere(sel: Piece, other: Piece)
    requires sel.lumber == other.lumber == Catalog.LumberTypes[0]
    requires sel.customLength == other.customLength == Some(96.0)
    requires sel.position == Vec3(0.0, 0.0, 0.0) && other.position == Vec3(100.0, 100.0, 100.0)
    ensures Near(sel, other)
    ensures 3.0 * 100.0 * 100.0 > (96.0 + SnapDistance) * (96.0 + SnapDistance)
  {
  }

  /** Visiting one more piece appends its six markers when it qualifies. */
  lemma {:induction false} CandidatesSnoc(ps: seq<Piece>, i: nat, sel: Piece)
    requires i < |ps|
    ensures Candidates(ps[..i + 1], sel) ==
      Candidates(ps[..i], sel) + (if ps[i].id != sel.id && Near(sel, ps[i]) then FacePoints(ps[i]) else [])
  {
    PrefixSnoc(ps, i);
    var pre := ps[..i + 1];
    assert pre[..|pre| - 1] == ps[..i];
    var q := Qualifying(ps[..i], sel);
    if ps[i].id != sel.id && Near(sel, ps[i]) {
      var q' := q + [ps[i]];
      assert q'[..|q'| - 1] == q;
    } else {
      assert q + [] == q;
    }
  }

  /** `corners.forEach(corner => points.push(...))`: appends the six markers of
      one piece. */
  method PushFacePoints(points: seq<SnapPoint>, piece: Piece) returns (out: seq<SnapPoint>)
    ensures out == points + FacePoints(piece)
  {
    var corners := Corners(piece);
    ghost var faces := FacePoints(piece);
    out := points;
    for c := 0 to 6
      invariant out == points + faces[..c]
    {
      PrefixSnoc(faces, c);
      out := out + [SnapPoint(corners[c].ScaledBy(ScaleFactor), SnapColor)];
    }
    assert faces[..6] == faces;
  }

  /** The loop over the pieces: the markers of every qualifying piece, in order. */
  method CollectCandidates(ps: seq<Piece>, sel: Piece) returns (points: seq<SnapPoint>)
    ensures points == Candidates(ps, sel)
  {
    points := [];
    for i := 0 to |ps|
      invariant points == Candidates(ps[..i], sel)
    {
      var piece := ps[i];
      CandidatesSnoc(ps, i, sel);
      if piece.id != sel.id && Near(sel, piece) {
        points := PushFacePoints(points, piece);
      }
    }
    assert ps[..|ps|] == ps;
  }

  /** The derivation: reads the store, changes nothing. */
  method SnapPoints(store: ProjectStore) returns (points: seq<SnapPoint>)
    ensures points == SnapPointsOf(store.State())
  {
    var selected := SelectedPiece(store.pieces, store.selectedPieceId);
    if selected.None? || !store.snapToGrid {
      return [];
    }
    points := CollectCandidates(store.pieces, selected.value);
  }
}
