/** The editor shell (`WoodworkEditor`): keyboard shortcuts and dropping a
    profile from the library onto the workspace. */
module WoodworkEditor {
  import opened Wrappers
  import opened Catalog
  import opened Pieces
  import opened Store

  /** What the handler reads of a `KeyboardEvent`; `targetIsInput` is
      `e.target instanceof HTMLInputElement`. */
  datatype KeyEvent = KeyEvent(key: string, ctrlKey: bool, metaKey: bool, targetIsInput: bool)

  /** `toLowerCase` on the ASCII letters. */
  function ToLowerChar(c: char): (r: char)
    ensures 'A' <= c <= 'Z' ==> r as int == c as int + 32
    ensures !('A' <= c <= 'Z') ==> r == c
    ensures !('A' <= r <= 'Z')
  {
    if 'A' <= c <= 'Z' then (c as int + 32) as char else c
  }

  function ToLower(s: string): (r: string)
    ensures |r| == |s|
    ensures forall i :: 0 <= i < |s| ==> r[i] == ToLowerChar(s[i])
  {
    if s == [] then [] else [ToLowerChar(s[0])] + ToLower(s[1..])
  }

  /** Lower-casing twice is lower-casing once. */
  lemma ToLowerIdempotent(s: string)
    ensures ToLower(ToLower(s)) == ToLower(s)
  {
    assert forall i :: 0 <= i < |s| ==> ToLowerChar(ToLowerChar(s[i])) == ToLowerChar(s[i]);
  }

  /** `if (selectedPieceId)`: `null` and the empty string both count as no selection. */
  predicate Truthy(selected: Option<string>) {
    selected.Some? && selected.value != ""
  }

  /** The store action a key press asks for. */
  datatype Command =
    | SetTool(tool: Tool)
    | ToggleSnap
    | DuplicateSelected(id: string)
    | RemoveSelected(id: string)
    | ToggleDimensions
    | Ignore

  /** `handleKeyDown`'s `switch`: keys compared lower-cased; Ctrl or Cmd turn `g`
      into the snap toggle, `d` into duplicate and `s` into nothing. Key presses
      aimed at a text field are ignored. */
  function Dispatch(e: KeyEvent, selected: Option<string>): Command {
    if e.targetIsInput then Ignore
    else
      var key := ToLower(e.key);
      var modified := e.ctrlKey || e.metaKey;
      if key == "v" then SetTool(Select)
      else if key == "g" then (if modified then ToggleSnap else SetTool(Move))
      else if key == "r" then SetTool(Rotate)
      else if key == "s" then (if modified then Ignore else SetTool(Scale))
      else if key == "m" then SetTool(Measure)
      else if key == "d" then
        (if !modified then ToggleDimensions
         else if Truthy(selected) then DuplicateSelected(selected.value)
         else Ignore)
      else if key == "delete" || key == "backspace" then
        (if Truthy(selected) then RemoveSelected(selected.value) else Ignore)
      else Ignore
  }

  /** Performs a command; `newId` is the id a duplicate would take. */
  function Perform(s: Project, c: Command, newId: string): Project {
    match c
    case SetTool(tool) => s.SetActiveTool(tool)
    case ToggleSnap => s.ToggleSnapToGrid()
    case DuplicateSelected(id) => s.DuplicatePiece(id, newId)
    case RemoveSelected(id) => s.RemovePiece(id)
    case ToggleDimensions => s.ToggleShowDimensions()
    case Ignore => s
  }

  function KeyDown(s: Project, e: KeyEvent, newId: string): Project {
    Perform(s, Dispatch(e, s.selectedPieceId), newId)
  }

  /** A key press in a text field changes nothing. */
  lemma InputIgnored(s: Project, e: KeyEvent, newId: string)
    requires e.targetIsInput
    ensures KeyDown(s, e, newId) == s
  {
  }

  /** Keys match whatever their case. */
  lemma CaseInsensitive(s: Project, e: KeyEvent, newId: string)
    ensures KeyDown(s, e.(key := ToLower(e.key)), newId) == KeyDown(s, e, newId)
  {
    ToLowerIdempotent(e.key);
  }

  /** `v`, `r`, `m`, plain `g` and plain `s` set the tool and change nothing else. */
  lemma ToolKeys(s: Project, e: KeyEvent, newId: string)
    requires !e.targetIsInput
    ensures var r := KeyDown(s, e, newId);
      var plain := !e.ctrlKey && !e.metaKey;
      && (ToLower(e.key) == "v" ==> r == s.(activeTool := Select))
      && (ToLower(e.key) == "r" ==> r == s.(activeTool := Rotate))
      && (ToLower(e.key) == "m" ==> r == s.(activeTool := Measure))
      && (ToLower(e.key) == "g" && plain ==> r == s.(activeTool := Move))
      && (ToLower(e.key) == "s" && plain ==> r == s.(activeTool := Scale))
  {
  }

  /** Ctrl/Cmd+G flips snapping and keeps the tool; Ctrl/Cmd+S does nothing. */
  lemma ModifiedKeys(s: Project, e: KeyEvent, newId: string)
    requires !e.targetIsInput && (e.ctrlKey || e.metaKey)
    ensures ToLower(e.key) == "g" ==>
      KeyDown(s, e, newId) == s.(snapToGrid := !s.snapToGrid)
    ensures ToLower(e.key) == "s" ==> KeyDown(s, e, newId) == s
  {
  }

  /** Plain `d` flips the dimension labels; Ctrl/Cmd+D duplicates the selected
      piece, and only when there is a selection. */
  lemma DuplicateKey(s: Project, e: KeyEvent, newId: string)
    requires !e.targetIsInput && ToLower(e.key) == "d"
    ensures !e.ctrlKey && !e.metaKey ==> KeyDown(s, e, newId) == s.(showDimensions := !s.showDimensions)
    ensures (e.ctrlKey || e.metaKey) && !Truthy(s.selectedPieceId) ==> KeyDown(s, e, newId) == s
    ensures (e.ctrlKey || e.metaKey) && Truthy(s.selectedPieceId) ==>
      KeyDown(s, e, newId) == s.DuplicatePiece(s.selectedPieceId.value, newId)
  {
  }

  /** Delete and Backspace remove the selected piece and so clear the selection;
      with nothing selected they do nothing. */
  lemma DeleteKey(s: Project, e: KeyEvent, newId: string)
    requires !e.targetIsInput && (ToLower(e.key) == "delete" || ToLower(e.key) == "backspace")
    ensures !Truthy(s.selectedPieceId) ==> KeyDown(s, e, newId) == s
    ensures Truthy(s.selectedPieceId) ==>
      var r := KeyDown(s, e, newId);
      && r.selectedPieceId == None
      && s.selectedPieceId.value !in IdsOf(r.pieces)
      && (forall p :: p in r.pieces <==> p in s.pieces && p.id != s.selectedPieceId.value)
  {
    if Truthy(s.selectedPieceId) {
      RemovePieceEffect(s, s.selectedPieceId.value);
    }
  }

  /** Upper-case shortcuts act like lower-case ones. */
  lemma ShiftedShortcut(s: Project)
    ensures KeyDown(s, KeyEvent("G", false, false, false), "") == s.(activeTool := Move)
    ensures KeyDown(s, KeyEvent("Delete", false, false, false), "") == KeyDown(s, KeyEvent("delete", false, false, false), "")
  {
    LowerG();
    LowerDelete();
  }

  lemma LowerG()
    ensures ToLower("G") == "g"
  {
    var r := ToLower("G");
    assert r[0] == 'g';
  }

  lemma LowerDelete()
    ensures ToLower("Delete") == "delete"
  {
    var r := ToLower("Delete");
    assert r[0] == 'd' && r[1] == 'e' && r[2] == 'l' && r[3] == 'e' && r[4] == 't' && r[5] == 'e';
  }

  /** Every shortcut keeps the store consistent (given a fresh id for a duplicate). */
  lemma KeyDownConsistent(s: Project, e: KeyEvent, newId: string)
    requires Consistent(s) && newId !in IdsOf(s.pieces)
    ensures Consistent(KeyDown(s, e, newId))
  {
    match Dispatch(e, s.selectedPieceId)
    case DuplicateSelected(id) => DuplicatePieceConsistent(s, id, newId);
    case RemoveSelected(id) => RemovePieceConsistent(s, id);
    case _ =>
  }

  /** The keydown listener. `newId` is the `uuidv4()` that the Ctrl/Cmd+D arm's
      `duplicatePiece` would draw; no other arm uses it. */
  method HandleKeyDown(store: ProjectStore, e: KeyEvent, newId: string)
    requires newId !in IdsOf(store.pieces)
    modifies store
    ensures store.State() == KeyDown(old(store.State()), e, newId)
  {
    if e.targetIsInput {
      return;
    }
    var selectedPieceId := store.selectedPieceId;
    var key := ToLower(e.key);
    if key == "v" {
      store.SetActiveTool(Select);
    } else if key == "g" {
      if e.ctrlKey || e.metaKey {
        store.ToggleSnapToGrid();
      } else {
        store.SetActiveTool(Move);
      }
    } else if key == "r" {
      store.SetActiveTool(Rotate);
    } else if key == "s" {
      if !e.ctrlKey && !e.metaKey {
        store.SetActiveTool(Scale);
      }
    } else if key == "m" {
      store.SetActiveTool(Measure);
    } else if key == "d" {
      if e.ctrlKey || e.metaKey {
        if Truthy(selectedPieceId) {
          store.DuplicatePiece(selectedPieceId.value, newId);
        }
      } else {
        store.ToggleShowDimensions();
      }
    } else if key == "delete" || key == "backspace" {
      if Truthy(selectedPieceId) {
        store.RemovePiece(selectedPieceId.value);
      }
    }
  }

  /** `handleDrop`: the dragged profile id, when non-empty and in the catalog, adds
      a piece at the default position; `newId` is the generated id. */
  function Drop(s: Project, lumberId: string, newId: string): Project {
    if lumberId == "" then s
    else match FindLumber(lumberId)
      case None => s
      case Some(t) => s.AddPiece(t, None, newId)
  }

  /** A drop adds one piece exactly when the id names a profile, resting at its
      default position; otherwise it changes nothing. The emptiness test is
      subsumed by the lookup, as no profile has the empty id. */
  lemma DropEffect(s: Project, lumberId: string, newId: string)
    ensures FindLumber(lumberId).None? ==> Drop(s, lumberId, newId) == s
    ensures FindLumber(lumberId).Some? ==>
      var r := Drop(s, lumberId, newId);
      var t := FindLumber(lumberId).value;
      && |r.pieces| == |s.pieces| + 1
      && r.pieces[..|s.pieces|] == s.pieces
      && r.pieces[|s.pieces|] == NewPiece(newId, t, None)
      && r.pieces[|s.pieces|].position == DefaultPosition(t)
      && r.(pieces := s.pieces) == s
  {
    if lumberId == "" {
      assert LumberTypes[0].id != "";
      CatalogWellFormed();
      assert forall k :: 0 <= k < |LumberTypes| ==> |LumberTypes[k].id| > 0;
    }
    if FindLumber(lumberId).Some? {
      AddPieceEffect(s, FindLumber(lumberId).value, None, newId);
    }
  }

  method HandleDrop(store: ProjectStore, lumberId: string, newId: string)
    requires newId !in IdsOf(store.pieces)
    modifies store`pieces
    ensures store.State() == Drop(old(store.State()), lumberId, newId)
  {
    if lumberId != "" {
      var lumber := FindLumber(lumberId);
      if lumber.Some? {
        store.AddPiece(lumber.value, None, newId);
      }
    }
  }
}
