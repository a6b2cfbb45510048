/** The project store (`useProjectStore`): the editor's single source of truth.
    `Project` is the state as a value and its members are the store's actions as
    pure transitions; `ProjectStore` is the mutable store whose methods perform
    them in place. */
module Store {
  import opened Wrappers
  import opened Geometry
  import opened Catalog
  import opened Pieces
  import opened CutLists

  datatype Tool = Select | Move | Rotate | Scale | Delete | Measure

  /** `'3d' | 'top' | 'front' | 'side'` */
  datatype ViewMode = Perspective | Top | Front | Side

  datatype Unit = Inches | Feet | Cm

  const DefaultProjectName: string := "Untitled Project"

  datatype Project = Project(
    projectName: string,
    pieces: seq<Piece>,
    selectedPieceId: Option<string>,
    activeTool: Tool,
    viewMode: ViewMode,
    gridSize: real,
    snapToGrid: bool,
    showDimensions: bool,
    unit: Unit)
  {
    function SetProjectName(name: string): Project {
      this.(projectName := name)
    }

    /** `addPiece(type, position?)`; `newId` is the value the id generator returned. */
    function AddPiece(t: LumberType, position: Option<Vec3>, newId: string): Project {
      this.(pieces := pieces + [NewPiece(newId, t, position)])
    }

    /** Drops every piece with that id, and the selection when it was that id. */
    function RemovePiece(id: string): Project {
      this.(pieces := Without(pieces, id),
            selectedPieceId := if selectedPieceId == Some(id) then None else selectedPieceId)
    }

    function UpdatePiece(id: string, u: PieceUpdate): Project {
      this.(pieces := UpdatedAll(pieces, id, u))
    }

    /** `selectPiece(id | null)`: the id is taken as given, known or not. */
    function SelectPiece(id: Option<string>): Project {
      this.(selectedPieceId := id)
    }

    function SetActiveTool(tool: Tool): Project {
      this.(activeTool := tool)
    }

    function SetViewMode(mode: ViewMode): Project {
      this.(viewMode := mode)
    }

    function SetGridSize(size: real): Project {
      this.(gridSize := size)
    }

    function ToggleSnapToGrid(): Project {
      this.(snapToGrid := !snapToGrid)
    }

    function ToggleShowDimensions(): Project {
      this.(showDimensions := !showDimensions)
    }

    function SetUnit(u: Unit): Project {
      this.(unit := u)
    }

    /** Empties the piece list, clears the selection and resets the name; the view
        settings survive. */
    function ClearProject(): Project {
      this.(pieces := [], selectedPieceId := None, projectName := DefaultProjectName)
    }

    /** Appends a copy of the first piece with that id, offset by 5 on x and z;
        an unknown id changes nothing. */
    function DuplicatePiece(id: string, newId: string): Project {
      match FindById(pieces, id)
      case None => this
      case Some(p) => this.(pieces := pieces + [DuplicateOf(p, newId)])
    }

    function CutList(le: (string, string) -> bool): seq<CutListItem> {
      CutLists.CutList(pieces, le)
    }
  }

  /** The store's state when the editor opens. */
  const Initial: Project :=
    Project(DefaultProjectName, [], None, Select, Perspective, 1.0, true, true, Inches)

  /** The selected id, when there is one, names a piece of the project. */
  predicate SelectionValid(s: Project) {
    s.selectedPieceId.Some? ==> s.selectedPieceId.value in IdsOf(s.pieces)
  }

  /** What the store keeps when the id generator never repeats itself. */
  predicate Consistent(s: Project) {
    UniqueIds(s.pieces) && SelectionValid(s)
  }

  // ---------------------------------------------------------------------------
  // The mutable store

  class ProjectStore {
    var projectName: string
    var pieces: seq<Piece>
    var selectedPieceId: Option<string>
    var activeTool: Tool
    var viewMode: ViewMode
    var gridSize: real
    var snapToGrid: bool
    var showDimensions: bool
    var unit: Unit

    function State(): Project
      reads this
    {
      Project(projectName, pieces, selectedPieceId, activeTool, viewMode, gridSize,
              snapToGrid, showDimensions, unit)
    }

    constructor ()
      ensures State() == Initial
    {
      projectName := DefaultProjectName;
      pieces := [];
      selectedPieceId := None;
      activeTool := Select;
      viewMode := Perspective;
      gridSize := 1.0;
      snapToGrid := true;
      showDimensions := true;
      unit := Inches;
    }

    method SetProjectName(name: string)
      modifies this`projectName
      ensures State() == old(State()).SetProjectName(name)
    {
      projectName := name;
    }

    /** `newId` is the generator's fresh id: it names no piece yet. */
    method AddPiece(t: LumberType, position: Option<Vec3>, newId: string)
      requires newId !in IdsOf(pieces)
      modifies this`pieces
      ensures State() == old(State()).AddPiece(t, position, newId)
    {
      var newPiece := NewPiece(newId, t, position);
      pieces := pieces + [newPiece];
    }

    method RemovePiece(id: string)
      modifies this`pieces, this`selectedPieceId
      ensures State() == old(State()).RemovePiece(id)
    {
      pieces := Without(pieces, id);
      if selectedPieceId == Some(id) {
        selectedPieceId := None;
      }
    }

    method UpdatePiece(id: string, u: PieceUpdate)
      modifies this`pieces
      ensures State() == old(State()).UpdatePiece(id, u)
    {
      pieces := UpdatedAll(pieces, id, u);
    }

    method SelectPiece(id: Option<string>)
      modifies this`selectedPieceId
      ensures State() == old(State()).SelectPiece(id)
    {
      selectedPieceId := id;
    }

    method SetActiveTool(tool: Tool)
      modifies this`activeTool
      ensures State() == old(State()).SetActiveTool(tool)
    {
      activeTool := tool;
    }

    method SetViewMode(mode: ViewMode)
      modifies this`viewMode
      ensures State() == old(State()).SetViewMode(mode)
    {
      viewMode := mode;
    }

    method SetGridSize(size: real)
      modifies this`gridSize
      ensures State() == old(State()).SetGridSize(size)
    {
      gridSize := size;
    }

    method ToggleSnapToGrid()
      modifies this`snapToGrid
      ensures State() == old(State()).ToggleSnapToGrid()
    {
      snapToGrid := !snapToGrid;
    }

    method ToggleShowDimensions()
      modifies this`showDimensions
      ensures State() == old(State()).ToggleShowDimensions()
    {
      showDimensions := !showDimensions;
    }

    method SetUnit(u: Unit)
      modifies this`unit
      ensures State() == old(State()).SetUnit(u)
    {
      unit := u;
    }

    method ClearProject()
      modifies this`pieces, this`selectedPieceId, this`projectName
      ensures State() == old(State()).ClearProject()
    {
      pieces := [];
      selectedPieceId := None;
      projectName := DefaultProjectName;
    }

    /** `newId` is the generator's fresh id: it names no piece yet. */
    method DuplicatePiece(id: string, newId: string)
      requires newId !in IdsOf(pieces)
      modifies this`pieces
      ensures State() == old(State()).DuplicatePiece(id, newId)
    {
      var piece := FindById(pieces, id);
      if piece.Some? {
        var newPiece := DuplicateOf(piece.value, newId);
        pieces := pieces + [newPiece];
      }
    }

    /** One pass over the pieces fills an insertion-ordered map from (profile,
        effective length) to its row; the rows are then sorted by profile name.
        `le(a, b)` stands for `a.localeCompare(b) <= 0`. */
    method GetCutList(le: (string, string) -> bool) returns (items: seq<CutListItem>)
      ensures items == CutLists.CutList(pieces, le)
    {
      var ps := pieces;
      var cutMap: seq<Entry> := [];
      for i := 0 to |ps|
        invariant cutMap == EntriesFor(ps[..i], DistinctKeys(ps[..i]))
      {
        var piece := ps[i];
        var length := EffectiveLength(piece);
        var key := CutKey(piece.lumber.id, length);
        var j := IndexOfKey(cutMap, key);
        ghost var visited := ps[..i];
        PrefixSnoc(ps, i);
        if j < |cutMap| {
          EntriesSnocFound(visited, piece, j);
          var item := cutMap[j].item;
          cutMap := cutMap[j := Entry(key, item.(quantity := item.quantity + 1, pieces := item.pieces + [piece.id]))];
        } else {
          KeyAbsent(visited, key);
          EntriesSnocNew(visited, piece);
          cutMap := cutMap + [Entry(key, CutListItem(piece.lumber.name, 1, length, [piece.id]))];
        }
      }
      assert ps[..|ps|] == ps;
      ValuesOfEntries(ps);
      items := SortByName(Values(cutMap), le);
    }
  }

  // ---------------------------------------------------------------------------
  // What each action does, and what it leaves alone

  /** `addPiece` appends exactly one piece built from the profile, and touches
      nothing but the piece list. */
  lemma AddPieceEffect(s: Project, t: LumberType, position: Option<Vec3>, newId: string)
    ensures var r := s.AddPiece(t, position, newId);
      && |r.pieces| == |s.pieces| + 1
      && r.pieces[..|s.pieces|] == s.pieces
      && r.(pieces := s.pieces) == s
    ensures var q := s.AddPiece(t, position, newId).pieces[|s.pieces|];
      && q.id == newId && q.lumber == t
      && q.position == (if position.Some? then position.value else Vec3(0.0, t.actualHeight / 2.0, 0.0))
      && q.rotation == Vec3(0.0, 0.0, 0.0) && q.scale == Vec3(1.0, 1.0, 1.0)
      && q.color == t.color && q.customLength == Some(t.defaultLength)
      && EffectiveLength(q) == t.defaultLength
  {
    var r := s.AddPiece(t, position, newId);
    assert r.pieces[..|s.pieces|] == s.pieces;
  }

  /** With a fresh id the new piece is the one found under that id, and the
      store stays consistent. */
  lemma {:induction false} AddPieceConsistent(s: Project, t: LumberType, position: Option<Vec3>, newId: string)
    requires Consistent(s) && newId !in IdsOf(s.pieces)
    ensures Consistent(s.AddPiece(t, position, newId))
    ensures FindById(s.AddPiece(t, position, newId).pieces, newId) == Some(NewPiece(newId, t, position))
  {
    var r := s.AddPiece(t, position, newId);
    assert forall i :: 0 <= i < |s.pieces| ==> r.pieces[i] == s.pieces[i];
    assert forall i :: 0 <= i < |s.pieces| ==> s.pieces[i].id in IdsOf(s.pieces);
    assert forall i :: 0 <= i < |s.pieces| ==> r.pieces[i].id != newId;
    assert r.pieces[|s.pieces|].id == newId;
    if s.selectedPieceId.Some? {
      var i :| 0 <= i < |s.pieces| && IdsOf(s.pieces)[i] == s.selectedPieceId.value;
      assert IdsOf(r.pieces)[i] == s.selectedPieceId.value;
    }
  }

  /** `removePiece` leaves exactly the pieces with another id, in order, and clears
      the selection exactly when it was the removed id. */
  lemma RemovePieceEffect(s: Project, id: string)
    ensures var r := s.RemovePiece(id);
      && (forall p :: p in r.pieces <==> p in s.pieces && p.id != id)
      && id !in IdsOf(r.pieces)
      && r.selectedPieceId == (if s.selectedPieceId == Some(id) then None else s.selectedPieceId)
      && r.(pieces := s.pieces, selectedPieceId := s.selectedPieceId) == s
    ensures id !in IdsOf(s.pieces) && s.selectedPieceId != Some(id) ==> s.RemovePiece(id) == s
  {
    var r := s.RemovePiece(id);
    forall i | 0 <= i < |r.pieces| ensures IdsOf(r.pieces)[i] != id {
      assert r.pieces[i] in r.pieces;
    }
    if id !in IdsOf(s.pieces) {
      assert forall i :: 0 <= i < |s.pieces| ==> s.pieces[i].id in IdsOf(s.pieces);
    }
  }

  lemma {:induction false} RemovePieceConsistent(s: Project, id: string)
    requires Consistent(s)
    ensures Consistent(s.RemovePiece(id))
  {
    var r := s.RemovePiece(id);
    WithoutUnique(s.pieces, id);
    if r.selectedPieceId.Some? {
      var x := r.selectedPieceId.value;
      assert x != id && x in IdsOf(s.pieces);
      var i :| 0 <= i < |s.pieces| && IdsOf(s.pieces)[i] == x;
      assert s.pieces[i] in r.pieces;
      var k :| 0 <= k < |r.pieces| && r.pieces[k] == s.pieces[i];
      assert IdsOf(r.pieces)[k] == x;
    }
  }

  /** Removing the piece just added under a fresh id gives back the project. */
  lemma {:induction false} AddThenRemove(s: Project, t: LumberType, position: Option<Vec3>, newId: string)
    requires newId !in IdsOf(s.pieces) && s.selectedPieceId != Some(newId)
    ensures s.AddPiece(t, position, newId).RemovePiece(newId) == s
  {
    var q := NewPiece(newId, t, position);
    WithoutAppend(s.pieces, [q], newId);
    assert Without([q], newId) == [] by {
      assert [q][1..] == [];
    }
    assert forall i :: 0 <= i < |s.pieces| ==> s.pieces[i].id in IdsOf(s.pieces);
    assert Without(s.pieces, newId) == s.pieces;
    assert Without(s.pieces, newId) + [] == s.pieces;
  }

  /** `updatePiece` merges the update into every piece carrying the id and into no
      other; an unknown id changes nothing. */
  lemma UpdatePieceEffect(s: Project, id: string, u: PieceUpdate)
    ensures var r := s.UpdatePiece(id, u);
      && |r.pieces| == |s.pieces|
      && (forall i :: 0 <= i < |s.pieces| && s.pieces[i].id == id ==> r.pieces[i] == Merge(s.pieces[i], u))
      && (forall i :: 0 <= i < |s.pieces| && s.pieces[i].id != id ==> r.pieces[i] == s.pieces[i])
      && r.(pieces := s.pieces) == s
    ensures id !in IdsOf(s.pieces) ==> s.UpdatePiece(id, u) == s
  {
    var r := s.UpdatePiece(id, u);
    if id !in IdsOf(s.pieces) {
      assert forall i :: 0 <= i < |s.pieces| ==> s.pieces[i].id in IdsOf(s.pieces);
      assert r.pieces == s.pieces;
    }
  }

  /** An update that does not rename the piece keeps the ids, so the store stays
      consistent. */
  lemma {:induction false} UpdatePieceConsistent(s: Project, id: string, u: PieceUpdate)
    requires Consistent(s) && (u.id.None? || u.id == Some(id))
    ensures IdsOf(s.UpdatePiece(id, u).pieces) == IdsOf(s.pieces)
    ensures Consistent(s.UpdatePiece(id, u))
  {
    var r := s.UpdatePiece(id, u);
    assert forall i :: 0 <= i < |s.pieces| ==> r.pieces[i].id == s.pieces[i].id;
    assert IdsOf(r.pieces) == IdsOf(s.pieces);
  }

  /** `updatePiece` takes an `id` among the updates: renaming the selected piece
      leaves a selection that names no piece. */
  lemma UpdateCanOrphanSelection()
    ensures var s := Initial.AddPiece(LumberTypes[0], None, "a").SelectPiece(Some("a"));
      && Consistent(s)
      && !SelectionValid(s.UpdatePiece("a", NoChange.(id := Some("b"))))
  {
    var s := Initial.AddPiece(LumberTypes[0], None, "a").SelectPiece(Some("a"));
    assert IdsOf(s.pieces) == ["a"];
    var r := s.UpdatePiece("a", NoChange.(id := Some("b")));
    assert IdsOf(r.pieces) == ["b"];
  }

  /** `duplicatePiece` appends a copy of the first piece with the id, under the
      fresh id and moved 5 along x and z; an unknown id changes nothing. */
  lemma DuplicatePieceEffect(s: Project, id: string, newId: string)
    ensures id !in IdsOf(s.pieces) ==> s.DuplicatePiece(id, newId) == s
    ensures id in IdsOf(s.pieces) ==>
      var r := s.DuplicatePiece(id, newId);
      && |r.pieces| == |s.pieces| + 1
      && r.pieces[..|s.pieces|] == s.pieces
      && r.(pieces := s.pieces) == s
      && exists i :: 0 <= i < |s.pieces| && s.pieces[i].id == id
           && (forall j :: 0 <= j < i ==> s.pieces[j].id != id)
           && var src, q := s.pieces[i], r.pieces[|s.pieces|];
              && q.id == newId
              && q.position == Vec3(src.position.x + 5.0, src.position.y, src.position.z + 5.0)
              && q.(id := src.id, position := src.position) == src
  {
    if id !in IdsOf(s.pieces) {
      assert forall i :: 0 <= i < |s.pieces| ==> s.pieces[i].id in IdsOf(s.pieces);
    } else {
      var r := s.DuplicatePiece(id, newId);
      assert r.pieces[..|s.pieces|] == s.pieces;
    }
  }

  lemma {:induction false} DuplicatePieceConsistent(s: Project, id: string, newId: string)
    requires Consistent(s) && newId !in IdsOf(s.pieces)
    ensures Consistent(s.DuplicatePiece(id, newId))
  {
    var f := FindById(s.pieces, id);
    if f.Some? {
      var r := s.DuplicatePiece(id, newId);
      assert forall i :: 0 <= i < |s.pieces| ==> r.pieces[i] == s.pieces[i];
      assert forall i :: 0 <= i < |s.pieces| ==> s.pieces[i].id in IdsOf(s.pieces);
      if s.selectedPieceId.Some? {
        var i :| 0 <= i < |s.pieces| && IdsOf(s.pieces)[i] == s.selectedPieceId.value;
        assert IdsOf(r.pieces)[i] == s.selectedPieceId.value;
      }
    }
  }

  /** `clearProject` empties the project and resets its name, keeps the view
      settings, and doing it twice is doing it once. */
  lemma ClearProjectEffect(s: Project)
    ensures var r := s.ClearProject();
      && r.pieces == [] && r.selectedPieceId == None && r.projectName == "Untitled Project"
      && r.activeTool == s.activeTool && r.viewMode == s.viewMode && r.gridSize == s.gridSize
      && r.snapToGrid == s.snapToGrid && r.showDimensions == s.showDimensions && r.unit == s.unit
      && Consistent(r)
      && r.ClearProject() == r
  {
  }

  /** Each toggle undoes itself and flips only its own flag. */
  lemma TogglesInvolutive(s: Project)
    ensures s.ToggleSnapToGrid().ToggleSnapToGrid() == s
    ensures s.ToggleShowDimensions().ToggleShowDimensions() == s
    ensures s.ToggleSnapToGrid().snapToGrid != s.snapToGrid
    ensures s.ToggleSnapToGrid().(snapToGrid := s.snapToGrid) == s
    ensures s.ToggleShowDimensions().showDimensions != s.showDimensions
    ensures s.ToggleShowDimensions().(showDimensions := s.showDimensions) == s
  {
  }

  /** The editor opens on an empty, consistent project. */
  lemma InitialConsistent(le: (string, string) -> bool)
    ensures Consistent(Initial) && Initial.pieces == [] && Initial.CutList(le) == []
  {
  }

  // ---------------------------------------------------------------------------
  // Worked examples

  /** A 2×4 added without a position rests on the ground plane, 96 long. */
  lemma AddDefaultStud(newId: string)
    ensures var p := Initial.AddPiece(LumberTypes[0], None, newId).pieces;
      && |p| == 1
      && p[0].position == Vec3(0.0, 1.75, 0.0)
      && EffectiveLength(p[0]) == 96.0
  {
  }

  /** Two 2×4s at stock length make one cut-list row of quantity 2. */
  lemma {:induction false} TwoStudsOneRow(le: (string, string) -> bool)
    ensures Initial.AddPiece(LumberTypes[0], None, "a").AddPiece(LumberTypes[0], None, "b").CutList(le)
      == [CutListItem("2\U{D7}4", 2, 96.0, ["a", "b"])]
  {
    var ps := Initial.AddPiece(LumberTypes[0], None, "a").AddPiece(LumberTypes[0], None, "b").pieces;
    var k := CutKey("2x4", 96.0);
    assert KeyOf(ps[0]) == k && KeyOf(ps[1]) == k;
    assert ps[..1] == [ps[0]];
    assert DistinctKeys([ps[0]]) == [k];
    assert DistinctKeys(ps) == [k];
    assert ps[1..] == [ps[1]];
    assert MembersWithKey(ps, k) == ps;
    assert FirstName(ps, k) == "2\U{D7}4";
    assert IdsOf(ps) == ["a", "b"];
    assert ItemsFor(ps, [k]) == [ItemFor(ps, k)];
    assert Grouped(ps) == [CutListItem("2\U{D7}4", 2, 96.0, ["a", "b"])];
  }

  /** A piece duplicated at the origin lands at (5, 0, 5). */
  lemma DuplicateAtOrigin(p: Piece, newId: string)
    requires p.position == Vec3(0.0, 0.0, 0.0)
    ensures var r := Initial.(pieces := [p]).DuplicatePiece(p.id, newId).pieces;
      |r| == 2 && r[1].position == Vec3(5.0, 0.0, 5.0) && r[1].id == newId
  {
  }
}
