/** The transform handles attached to the selected piece (`TransformGizmo`):
    which handle mode a tool selects, when the handles show, and what a drag
    commits to the store. */
module TransformGizmo {
  import opened Wrappers
  import opened Geometry
  import opened Pieces
  import opened Store

  /** `'translate' | 'rotate' | 'scale'` */
  datatype GizmoMode = TranslateMode | RotateMode | ScaleMode

  /** `getMode`: move and every tool without a handle of its own translate. */
  function GetMode(tool: Tool): (m: GizmoMode)
    ensures m == RotateMode <==> tool == Rotate
    ensures m == ScaleMode <==> tool == Scale
    ensures m == TranslateMode <==> tool != Rotate && tool != Scale
  {
    match tool
    case Move => TranslateMode
    case Rotate => RotateMode
    case Scale => ScaleMode
    case _ => TranslateMode
  }

  /** The handles render only for the move, rotate and scale tools, and only once
      the piece's mesh exists. */
  predicate ShowGizmo(tool: Tool, hasMesh: bool) {
    (tool == Move || tool == Rotate || tool == Scale) && hasMesh
  }

  /** The handles show only for the three transform tools on a mounted mesh, and
      then in the mode named after the tool. */
  lemma ShowGizmoRule(tool: Tool, hasMesh: bool)
    ensures !hasMesh ==> !ShowGizmo(tool, hasMesh)
    ensures ShowGizmo(tool, true) <==> tool != Select && tool != Delete && tool != Measure
    ensures ShowGizmo(tool, hasMesh) ==>
      ((GetMode(tool) == TranslateMode <==> tool == Move)
       && (GetMode(tool) == RotateMode <==> tool == Rotate)
       && (GetMode(tool) == ScaleMode <==> tool == Scale))
  {
  }

  /** `Math.round(v / g) * g`: the multiple of `g` nearest to `v`. A grid size of
      zero divides by zero (NaN in the source) and is excluded. */
  function Quantize(v: real, g: real): (q: real)
    requires g != 0.0
    ensures exists n: int :: q == Multiple(n, g)
  {
    Multiple(Round(v / g), g)
  }

  /** `n * g` */
  function Multiple(n: int, g: real): real {
    n as real * g
  }

  /** Every axis is moved to a grid line, and to one within half a grid step of
      where it was. */
  function QuantizeVec(p: Vec3, g: real): (q: Vec3)
    requires g != 0.0
    ensures forall axis: Axis :: q.At(axis) == Quantize(p.At(axis), g)
    ensures forall axis: Axis :: exists n: int :: q.At(axis) == Multiple(n, g)
    ensures forall axis: Axis :: Abs(q.At(axis) - p.At(axis)) <= Abs(g) / 2.0
  {
    QuantizeNearest(p.x, g);
    QuantizeNearest(p.y, g);
    QuantizeNearest(p.z, g);
    Vec3(Quantize(p.x, g), Quantize(p.y, g), Quantize(p.z, g))
  }

  /** The position a drag commits: with snapping on and the move tool active each
      axis lies on the grid, within half a grid step of the raw position; otherwise
      the raw position. */
  function SnappedPosition(raw: Vec3, snapToGrid: bool, tool: Tool, g: real): (p: Vec3)
    requires snapToGrid && tool == Move ==> g != 0.0
    ensures !(snapToGrid && tool == Move) ==> p == raw
    ensures snapToGrid && tool == Move ==> forall axis: Axis :: p.At(axis) == Quantize(raw.At(axis), g)
    ensures snapToGrid && tool == Move ==> forall axis: Axis ::
      && (exists n: int :: p.At(axis) == Multiple(n, g))
      && Abs(p.At(axis) - raw.At(axis)) <= Abs(g) / 2.0
  {
    if snapToGrid && tool == Move then QuantizeVec(raw, g) else raw
  }

  /** The quantised coordinate is within half a grid step of the raw one. */
  lemma QuantizeNearest(v: real, g: real)
    requires g != 0.0
    ensures Abs(Quantize(v, g) - v) <= Abs(g) / 2.0
  {
    var n := Round(v / g) as real;
    var d := n - v / g;
    assert Abs(d) <= 0.5;
    DivMul(v, g);
    assert Quantize(v, g) - v == d * g;
    AbsMul(d, g);
    MulLe(Abs(d), 0.5, Abs(g));
  }

  /** A multiple of the grid step quantises to itself. */
  lemma QuantizeMultiple(n: int, g: real)
    requires g != 0.0
    ensures Quantize(Multiple(n, g), g) == Multiple(n, g)
  {
    MulDiv(n as real, g);
    assert Multiple(n, g) / g == n as real;
    RoundOfInteger(n);
    assert Round(Multiple(n, g) / g) == n;
  }

  /** Quantising twice is quantising once. */
  lemma QuantizeIdempotent(p: Vec3, g: real)
    requires g != 0.0
    ensures QuantizeVec(QuantizeVec(p, g), g) == QuantizeVec(p, g)
  {
    QuantizeMultiple(Round(p.x / g), g);
    QuantizeMultiple(Round(p.y / g), g);
    QuantizeMultiple(Round(p.z / g), g);
    assert Quantize(Quantize(p.x, g), g) == Quantize(p.x, g);
    assert Quantize(Quantize(p.y, g), g) == Quantize(p.y, g);
    assert Quantize(Quantize(p.z, g), g) == Quantize(p.z, g);
  }

  /** On the default one-inch grid a drag to (2.3, 0, -1.7) commits (2, 0, -2);
      halves round towards positive infinity, as `Math.round` does. */
  lemma QuantizeExamples()
    ensures QuantizeVec(Vec3(2.3, 0.0, -1.7), 1.0) == Vec3(2.0, 0.0, -2.0)
    ensures Quantize(0.5, 1.0) == 1.0 && Quantize(-0.5, 1.0) == 0.0
  {
    assert Round(2.3) == 2;
    assert Round(-1.7) == -2;
    assert Round(0.5) == 1;
    assert Round(-0.5) == 0;
  }

  /** The update a drag commits: position, rotation and scale, nothing else. */
  function CommitUpdate(position: Vec3, rotation: Vec3, scale: Vec3): PieceUpdate {
    NoChange.(position := Some(position), rotation := Some(rotation), scale := Some(scale))
  }

  /** The commit replaces the transform and keeps the id, profile, colour and
      length override of the piece. */
  lemma CommitKeepsRest(p: Piece, position: Vec3, rotation: Vec3, scale: Vec3)
    ensures var r := Merge(p, CommitUpdate(position, rotation, scale));
      && r.position == position && r.rotation == rotation && r.scale == scale
      && r.id == p.id && r.lumber == p.lumber && r.color == p.color
      && r.customLength == p.customLength && EffectiveLength(r) == EffectiveLength(p)
  {
  }

  /** A drag never renames a piece, so it keeps the store consistent. */
  lemma {:induction false} CommitConsistent(s: Project, pieceId: string, position: Vec3, rotation: Vec3, scale: Vec3)
    requires Consistent(s)
    ensures Consistent(s.UpdatePiece(pieceId, CommitUpdate(position, rotation, scale)))
  {
    UpdatePieceConsistent(s, pieceId, CommitUpdate(position, rotation, scale));
  }

  /** The three.js mesh of a piece, whose transform the handles drag. */
  class Mesh {
    var position: Vec3
    var rotation: Vec3
    var scale: Vec3

    constructor (position: Vec3, rotation: Vec3, scale: Vec3)
      ensures this.position == position && this.rotation == rotation && this.scale == scale
    {
      this.position := position;
      this.rotation := rotation;
      this.scale := scale;
    }
  }

  /** `handleChange`: snaps the dragged mesh onto the grid when the move tool
      snaps, then commits the mesh's transform to the piece. Without a mesh
      nothing happens. */
  method HandleChange(store: ProjectStore, mesh: Mesh?, pieceId: string)
    requires store.snapToGrid && store.activeTool == Move ==> store.gridSize != 0.0
    modifies store`pieces, {mesh}`position
    ensures mesh == null ==> store.State() == old(store.State())
    ensures mesh != null ==>
      && mesh.position == SnappedPosition(old(mesh.position), store.snapToGrid, store.activeTool, store.gridSize)
      && mesh.rotation == old(mesh.rotation) && mesh.scale == old(mesh.scale)
      && store.State() == old(store.State()).UpdatePiece(pieceId, CommitUpdate(mesh.position, mesh.rotation, mesh.scale))
  {
    if mesh != null {
      var newPosition := mesh.position;
      if store.snapToGrid && store.activeTool == Move {
        newPosition := QuantizeVec(newPosition, store.gridSize);
        mesh.position := newPosition;
      }
      store.UpdatePiece(pieceId, CommitUpdate(newPosition, mesh.rotation, mesh.scale));
    }
  }
}
