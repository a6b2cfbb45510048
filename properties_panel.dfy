/** The side panel that edits the selected piece (`PropertiesPanel`): which view it
    shows, and the updates its numeric fields, colour swatches and buttons commit.
    `parseFloat` is an input: `None` stands for `NaN`. */
module PropertiesPanel {
  import opened Wrappers
  import opened Geometry
  import opened Pieces
  import opened Store

  /** `parseFloat(value) || fallback`: `NaN` and `0` are both falsy. */
  function Or(parsed: Option<real>, fallback: real): (r: real)
    ensures parsed.Some? && parsed.value != 0.0 ==> r == parsed.value
    ensures parsed.None? || parsed.value == 0.0 ==> r == fallback
    ensures fallback != 0.0 ==> r != 0.0
  {
    if parsed.Some? && parsed.value != 0.0 then parsed.value else fallback
  }

  /** `degrees * (Math.PI / 180)` */
  function DegToRad(degrees: real): real {
    degrees * (Pi / 180.0)
  }

  /** `(radians * 180) / Math.PI`, the angle the rotation fields display. */
  function RadToDeg(radians: real): real {
    radians * 180.0 / Pi
  }

  /** The panel either invites a selection or edits the selected piece, showing its
      length as `customLength || type.defaultLength`. */
  datatype PanelView = NothingSelected | Editing(piece: Piece, displayLength: real)

  function View(s: Project): (v: PanelView)
    ensures v.NothingSelected? <==> SelectedPiece(s.pieces, s.selectedPieceId).None?
    ensures v.Editing? ==>
      && s.selectedPieceId == Some(v.piece.id) && v.piece in s.pieces
      && (forall i :: 0 <= i < |s.pieces| && s.pieces[i].id == v.piece.id ==> v.piece == s.pieces[i] || exists j :: 0 <= j < i && s.pieces[j].id == v.piece.id)
      && (v.piece.customLength.Some? && v.piece.customLength.value != 0.0 ==> v.displayLength == v.piece.customLength.value)
      && (v.piece.customLength.None? || v.piece.customLength.value == 0.0 ==> v.displayLength == v.piece.lumber.defaultLength)
  {
    match SelectedPiece(s.pieces, s.selectedPieceId)
    case None => NothingSelected
    case Some(p) => Editing(p, EffectiveLength(p))
  }

  function PositionEdit(p: Piece, axis: Axis, parsed: Option<real>): PieceUpdate {
    NoChange.(position := Some(p.position.With(axis, Or(parsed, 0.0))))
  }

  function RotationEdit(p: Piece, axis: Axis, parsed: Option<real>): PieceUpdate {
    NoChange.(rotation := Some(p.rotation.With(axis, DegToRad(Or(parsed, 0.0)))))
  }

  function LengthEdit(p: Piece, parsed: Option<real>): PieceUpdate {
    NoChange.(customLength := Some(Some(Or(parsed, p.lumber.defaultLength))))
  }

  function ColorEdit(color: string): PieceUpdate {
    NoChange.(color := Some(color))
  }

  /** A position edit sets one coordinate to the parsed number, or to 0 when the
      input is not a number, and keeps the other two and every other field. */
  lemma PositionEditEffect(p: Piece, axis: Axis, parsed: Option<real>)
    ensures var r := Merge(p, PositionEdit(p, axis, parsed));
      && r.(position := p.position) == p
      && r.position.At(axis) == (if parsed.Some? then parsed.value else 0.0)
      && (forall other: Axis :: other != axis ==> r.position.At(other) == p.position.At(other))
  {
  }

  /** A rotation edit sets one angle to the parsed degrees in radians (0 for input
      that is not a number) and keeps the other two and every other field; the
      field then displays the degrees entered. */
  lemma RotationEditEffect(p: Piece, axis: Axis, parsed: Option<real>)
    ensures var r := Merge(p, RotationEdit(p, axis, parsed));
      var degrees := if parsed.Some? then parsed.value else 0.0;
      && r.(rotation := p.rotation) == p
      && r.rotation.At(axis) == degrees * Pi / 180.0
      && RadToDeg(r.rotation.At(axis)) == degrees
      && (forall other: Axis :: other != axis ==> r.rotation.At(other) == p.rotation.At(other))
  {
    var degrees := if parsed.Some? then parsed.value else 0.0;
    DegreesRoundTrip(degrees);
  }

  lemma DegreesRoundTrip(d: real)
    ensures DegToRad(d) == d * Pi / 180.0
    ensures RadToDeg(DegToRad(d)) == d
  {
    calc {
      RadToDeg(DegToRad(d));
      d * (Pi / 180.0) * 180.0 / Pi;
      { MulDiv(d * (Pi / 180.0), Pi); }
      d * (Pi / 180.0) * (180.0 / Pi);
      d * ((Pi / 180.0) * (180.0 / Pi));
      d;
    }
  }

  /** A length edit stores the parsed length, negative values included, and falls
      back to the stock length for `NaN` and 0; so with a non-zero stock length it
      never stores 0, and the panel then displays exactly the stored length. Only
      the length override changes. */
  lemma LengthEditEffect(p: Piece, parsed: Option<real>)
    ensures var r := Merge(p, LengthEdit(p, parsed));
      && r.(customLength := p.customLength) == p
      && (parsed.Some? && parsed.value != 0.0 ==> r.customLength == Some(parsed.value))
      && (parsed.None? || parsed.value == 0.0 ==> r.customLength == Some(p.lumber.defaultLength))
      && (p.lumber.defaultLength != 0.0 ==> r.customLength.value != 0.0 && EffectiveLength(r) == r.customLength.value)
  {
  }

  /** A colour edit changes the colour and nothing else. */
  lemma ColorEditEffect(p: Piece, color: string)
    ensures Merge(p, ColorEdit(color)) == p.(color := color)
  {
  }

  /** None of the panel's edits renames a piece, so each keeps the store consistent. */
  lemma {:induction false} EditsConsistent(s: Project, p: Piece, axis: Axis, parsed: Option<real>, color: string)
    requires Consistent(s)
    ensures Consistent(s.UpdatePiece(p.id, PositionEdit(p, axis, parsed)))
    ensures Consistent(s.UpdatePiece(p.id, RotationEdit(p, axis, parsed)))
    ensures Consistent(s.UpdatePiece(p.id, LengthEdit(p, parsed)))
    ensures Consistent(s.UpdatePiece(p.id, ColorEdit(color)))
  {
    UpdatePieceConsistent(s, p.id, PositionEdit(p, axis, parsed));
    UpdatePieceConsistent(s, p.id, RotationEdit(p, axis, parsed));
    UpdatePieceConsistent(s, p.id, LengthEdit(p, parsed));
    UpdatePieceConsistent(s, p.id, ColorEdit(color));
  }

  /** With unique ids an edit reaches the selected piece alone. */
  lemma {:induction false} EditReachesSelectedOnly(s: Project, u: PieceUpdate)
    requires UniqueIds(s.pieces) && View(s).Editing?
    ensures var p := View(s).piece; var r := s.UpdatePiece(p.id, u);
      forall i :: 0 <= i < |s.pieces| ==>
        r.pieces[i] == if s.pieces[i] == p then Merge(p, u) else s.pieces[i]
  {
    var p := View(s).piece;
    UpdatePieceEffect(s, p.id, u);
    forall i | 0 <= i < |s.pieces| && s.pieces[i].id == p.id ensures s.pieces[i] == p {
      var k :| 0 <= k < |s.pieces| && s.pieces[k] == p;
      assert !(k < i || i < k);
    }
  }

  /** The handlers below exist only while a piece is selected; each acts on it. */
  ghost predicate HasSelection(store: ProjectStore)
    reads store
  {
    SelectedPiece(store.pieces, store.selectedPieceId).Some?
  }

  /** `handlePositionChange`: copies the position, assigns one index, commits. */
  method HandlePositionChange(store: ProjectStore, axis: Axis, parsed: Option<real>)
    requires HasSelection(store)
    modifies store`pieces
    ensures var p := SelectedPiece(old(store.pieces), old(store.selectedPieceId)).value;
      store.State() == old(store.State()).UpdatePiece(p.id, PositionEdit(p, axis, parsed))
  {
    var p := SelectedPiece(store.pieces, store.selectedPieceId).value;
    var numValue := Or(parsed, 0.0);
    var newPosition := new real[3];
    newPosition[0], newPosition[1], newPosition[2] := p.position.x, p.position.y, p.position.z;
    newPosition[axis] := numValue;
    var position := Vec3(newPosition[0], newPosition[1], newPosition[2]);
    assert position == p.position.With(axis, numValue);
    store.UpdatePiece(p.id, NoChange.(position := Some(position)));
  }

  /** `handleRotationChange`: as the position handler, in radians. */
  method HandleRotationChange(store: ProjectStore, axis: Axis, parsed: Option<real>)
    requires HasSelection(store)
    modifies store`pieces
    ensures var p := SelectedPiece(old(store.pieces), old(store.selectedPieceId)).value;
      store.State() == old(store.State()).UpdatePiece(p.id, RotationEdit(p, axis, parsed))
  {
    var p := SelectedPiece(store.pieces, store.selectedPieceId).value;
    var numValue := DegToRad(Or(parsed, 0.0));
    var newRotation := new real[3];
    newRotation[0], newRotation[1], newRotation[2] := p.rotation.x, p.rotation.y, p.rotation.z;
    newRotation[axis] := numValue;
    var rotation := Vec3(newRotation[0], newRotation[1], newRotation[2]);
    assert rotation == p.rotation.With(axis, numValue);
    store.UpdatePiece(p.id, NoChange.(rotation := Some(rotation)));
  }

  method HandleLengthChange(store: ProjectStore, parsed: Option<real>)
    requires HasSelection(store)
    modifies store`pieces
    ensures var p := SelectedPiece(old(store.pieces), old(store.selectedPieceId)).value;
      store.State() == old(store.State()).UpdatePiece(p.id, LengthEdit(p, parsed))
  {
    var p := SelectedPiece(store.pieces, store.selectedPieceId).value;
    var numValue := Or(parsed, p.lumber.defaultLength);
    store.UpdatePiece(p.id, NoChange.(customLength := Some(Some(numValue))));
  }

  method HandleColorChange(store: ProjectStore, color: string)
    requires HasSelection(store)
    modifies store`pieces
    ensures var p := SelectedPiece(old(store.pieces), old(store.selectedPieceId)).value;
      store.State() == old(store.State()).UpdatePiece(p.id, ColorEdit(color))
  {
    var p := SelectedPiece(store.pieces, store.selectedPieceId).value;
    store.UpdatePiece(p.id, ColorEdit(color));
  }

  /** The Duplicate button; `newId` is the generated id. */
  method HandleDuplicateClick(store: ProjectStore, newId: string)
    requires HasSelection(store) && newId !in IdsOf(store.pieces)
    modifies store`pieces
    ensures var p := SelectedPiece(old(store.pieces), old(store.selectedPieceId)).value;
      store.State() == old(store.State()).DuplicatePiece(p.id, newId)
  {
    var p := SelectedPiece(store.pieces, store.selectedPieceId).value;
    store.DuplicatePiece(p.id, newId);
  }

  /** The Delete button: removes the selected piece, which clears the selection. */
  method HandleDeleteClick(store: ProjectStore)
    requires HasSelection(store)
    modifies store`pieces, store`selectedPieceId
    ensures var p := SelectedPiece(old(store.pieces), old(store.selectedPieceId)).value;
      && store.State() == old(store.State()).RemovePiece(p.id)
      && store.selectedPieceId == None
      && p.id !in IdsOf(store.pieces)
  {
    var p := SelectedPiece(store.pieces, store.selectedPieceId).value;
    RemovePieceEffect(store.State(), p.id);
    store.RemovePiece(p.id);
  }
}
