# WoodCraft Studio project store, in Dafny

WoodCraft Studio is a browser editor for woodworking projects. Users place lumber
pieces from a fixed catalog of profiles in a 3D workspace, move, rotate and
resize them, and read a cut list of what to buy and cut. All editor state lives in
one store (`useProjectStore`). The store holds the ordered list of pieces, the
selection and the project settings. The React components around it turn clicks,
drags and key presses into store actions.

This project models that store and the logic the components add on top of it:

- `Store` models the store. `Project` is the state as a value, and its members
  are the actions as pure transitions. `ProjectStore` is a class with the same
  fields. Each method changes only the fields its action sets, and its `ensures`
  ties the new `State()` to the transition.
- `CutLists` models `getCutList`. It is a loop over the pieces that fills an
  insertion-ordered map keyed by profile id and effective length, followed by a
  stable sort by profile name.
- `Catalog` holds the fourteen profiles. `Pieces` holds placed pieces,
  partial updates and the list operations the actions are built from.
- The remaining modules each model one component: `SnapIndicator`,
  `TransformGizmo`, `TemplatesPanel`, `WoodworkEditor` (shortcuts and drop),
  `PropertiesPanel`, `Header` and `LumberPiece3D`.
- A component handler is a method on a `ProjectStore`. Its `ensures` gives the
  store's new state as a function of the old one. Lemmas about that function
  state what the handler promises.

Foreign calls become inputs:

- `uuidv4` is a `newId` argument that names no piece yet. Template loading takes
  pairwise-distinct `ids`, one per entry.
- `confirm` is a `confirmed` flag.
- `parseFloat` is an `Option<real>`, where `None` stands for `NaN`.
- `localeCompare` is a comparator `le` ("compares at most 0").
- The export time stamp is a string argument.

Coordinates and lengths are `real`. `Math.round(x)` is `Floor(x + 0.5)`. The
invariant "piece ids are unique and the selection names a piece" (`Consistent`)
is proved for each action that keeps it, under that action's own precondition.
It is not assumed of the store as a whole. `updatePiece` can rename a piece,
so it keeps `Consistent` only for updates that leave the id alone, and
`Store.UpdateCanOrphanSelection` shows the selection left dangling otherwise.

Each template entry carries a rotation and a `customLength`, but
`handleLoadTemplate` passes only the position to `addPiece`, and its comment at
`TemplatesPanel.tsx:90` says both would need to be set afterwards. The model
follows the code: `TemplatesPanel.SimpleTableRailIgnoresEntry` shows
a rail that the template turns by π/2 and cuts to 48 coming out unrotated at
96.

## Model

| member | source | states |
|---|---|---|
| Catalog.CatalogWellFormed | src/store/projectStore.ts:26-46 | fourteen profiles, each with positive nominal and actual sizes and stock length, actual within nominal, ids pairwise distinct |
| Catalog.FindIn | src/components/woodwork/TemplatesPanel.tsx:87 | `find` by id: a found profile is in the list and has the id; nothing is found exactly when no profile has the id |
| Catalog.FindInFirst | src/components/woodwork/TemplatesPanel.tsx:87 | `find` returns the first profile with the id |
| Catalog.FindLumber | src/components/woodwork/WoodworkEditor.tsx:22 | the same lookup over the shipped catalog |
| Pieces.EffectiveLength | src/store/projectStore.ts:154 | `customLength \|\| defaultLength`: the override when present and non-zero, otherwise the stock length; non-zero whenever the stock length is |
| Pieces.MergeLaws | src/store/projectStore.ts:118 | `{...p, ...u}`: merging `{}` is the identity and merging the same update twice equals merging it once |
| Pieces.Without | src/store/projectStore.ts:113 | the filter keeps exactly the pieces with another id and is the identity when no piece has the id |
| Pieces.WithoutAppend | src/store/projectStore.ts:113 | the filter distributes over concatenation, so survivors keep their order |
| Pieces.WithoutUnique | src/store/projectStore.ts:113 | the filter keeps unique ids unique |
| Pieces.UpdatedAll | src/store/projectStore.ts:118 | the map keeps length and order, merges the update into every piece with the id and leaves every other piece as it was |
| Pieces.FindById | src/store/projectStore.ts:138 | the first piece with the id; none exactly when no piece has it |
| Pieces.SelectedPiece | src/components/woodwork/SnapIndicator.tsx:8 | a found piece is in the list and carries the selected id; none exactly when the selection is null or names no piece |
| CutLists.MembersWithKey | src/store/projectStore.ts:153-157 | the pieces under one (profile id, effective length) key are exactly the pieces with that key, and no more than there are pieces |
| CutLists.DistinctKeysSpec | src/store/projectStore.ts:157-168 | the map's keys: a key is present exactly when some piece has it, and no key appears twice |
| CutLists.DistinctKeysPrefix | src/store/projectStore.ts:162 | keys stay in first-insertion order as pieces are visited |
| CutLists.EntriesSnocFound | src/store/projectStore.ts:157-160 | visiting a piece whose key is present adds one to that entry's quantity, appends the id and leaves the other entries alone |
| CutLists.EntriesSnocNew | src/store/projectStore.ts:161-167 | visiting a piece with a new key appends an entry named after its profile, with quantity 1, its length and its id |
| CutLists.ValuesOfEntries | src/store/projectStore.ts:171 | the map's values, in insertion order, are one row per distinct key |
| CutLists.SortByName | src/store/projectStore.ts:171 | the sort returns a permutation of its input |
| CutLists.SortSorted | src/store/projectStore.ts:171 | for a total preorder the sorted rows are non-decreasing by profile name |
| CutLists.SortStable | src/store/projectStore.ts:171 | the sort is stable: restricted to any one rank the output equals the input |
| CutLists.GroupedRows | src/store/projectStore.ts:159-166 | every row's quantity is the number of its member ids and is positive |
| CutLists.GroupedMembers | src/store/projectStore.ts:153-169 | the rows' member lists together hold every piece id exactly as often as the piece list does |
| CutLists.GroupedCount | src/store/projectStore.ts:153-169 | the quantities add up to the number of pieces |
| CutLists.RowMembers | src/store/projectStore.ts:154-166 | every id a row of the cut list lists belongs to a piece of the row's length, and the row is named after a piece with the same profile id and that length |
| CutLists.CutListTotals | src/store/projectStore.ts:149-172 | the cut list is a permutation of the grouped rows: one row per key, member ids a permutation of the piece ids, quantities summing to the piece count, each quantity its member count |
| CutLists.CutListRows | src/store/projectStore.ts:149-172 | every row is the row of a key that occurs, and every piece's row is in the list |
| CutLists.CutListUniqueIds | src/store/projectStore.ts:149-172 | with unique piece ids every piece id occurs in exactly one row, once |
| CutLists.CutListOrder | src/store/projectStore.ts:171 | rows come out non-decreasing by name, and rows with equal names keep first-occurrence order |
| Store.ProjectStore.constructor | src/store/projectStore.ts:86-95 | the initial state: "Untitled Project", no pieces, no selection, select tool, 3D view, grid 1, snapping and dimensions on, inches |
| Store.ProjectStore.SetProjectName | src/store/projectStore.ts:97 | sets the name and nothing else |
| Store.ProjectStore.AddPiece | src/store/projectStore.ts:99-110 | with a fresh id, appends the new piece and changes nothing else |
| Store.ProjectStore.RemovePiece | src/store/projectStore.ts:112-115 | filters the pieces and clears the selection when it was the id; nothing else changes |
| Store.ProjectStore.UpdatePiece | src/store/projectStore.ts:117-119 | merges the update into the pieces with the id; nothing else changes |
| Store.ProjectStore.SelectPiece | src/store/projectStore.ts:121 | sets the selection to the id as given, unchecked |
| Store.ProjectStore.SetActiveTool | src/store/projectStore.ts:123 | sets the tool and nothing else |
| Store.ProjectStore.SetViewMode | src/store/projectStore.ts:125 | sets the view and nothing else |
| Store.ProjectStore.SetGridSize | src/store/projectStore.ts:127 | sets the grid size, unchecked, and nothing else |
| Store.ProjectStore.ToggleSnapToGrid | src/store/projectStore.ts:129 | flips snapping and nothing else |
| Store.ProjectStore.ToggleShowDimensions | src/store/projectStore.ts:131 | flips the dimension labels and nothing else |
| Store.ProjectStore.SetUnit | src/store/projectStore.ts:133 | sets the unit and nothing else |
| Store.ProjectStore.ClearProject | src/store/projectStore.ts:135 | empties the pieces, clears the selection, resets the name; nothing else changes |
| Store.ProjectStore.DuplicatePiece | src/store/projectStore.ts:137-147 | with a fresh id, appends the moved copy of the first piece with the id, or does nothing |
| Store.ProjectStore.GetCutList | src/store/projectStore.ts:149-172 | the loop over the pieces with its map of entries returns exactly the cut list of the current pieces, and changes nothing |
| Store.AddPieceEffect | src/store/projectStore.ts:99-110 | exactly one piece is appended and the others are untouched; it has the fresh id, the profile, the given position or (0, actualHeight/2, 0), rotation (0,0,0), scale (1,1,1), the profile's colour, and `customLength` set to the stock length |
| Store.AddPieceConsistent | src/store/projectStore.ts:99-110 | with a fresh id the store stays consistent and the new piece is the one found under that id |
| Store.RemovePieceEffect | src/store/projectStore.ts:112-115 | exactly the pieces with the id go, the others stay; the selection is cleared exactly when it was the id; an unknown id changes nothing |
| Store.RemovePieceConsistent | src/store/projectStore.ts:112-115 | removal keeps the store consistent |
| Store.AddThenRemove | src/store/projectStore.ts:99-115 | removing a piece just added under a fresh, unselected id restores the project |
| Store.UpdatePieceEffect | src/store/projectStore.ts:117-119 | length and order kept; pieces with the id become the merge, others unchanged; an unknown id changes nothing |
| Store.UpdatePieceConsistent | src/store/projectStore.ts:117-119 | an update that does not rename keeps the ids and the store consistent |
| Store.UpdateCanOrphanSelection | src/store/projectStore.ts:117-119 | renaming the selected piece through `updatePiece` leaves a selection that names no piece |
| Store.DuplicatePieceEffect | src/store/projectStore.ts:137-147 | with the id present, one piece is appended: the first piece with the id, renamed to the fresh id and moved by (+5, 0, +5), everything else equal; the selection stays; an unknown id changes nothing |
| Store.DuplicatePieceConsistent | src/store/projectStore.ts:137-147 | duplicating under a fresh id keeps the store consistent |
| Store.ClearProjectEffect | src/store/projectStore.ts:135 | clearing gives no pieces, no selection, the default name, keeps tool, view, grid, snapping, labels and unit, and is idempotent |
| Store.TogglesInvolutive | src/store/projectStore.ts:129-131 | each toggle flips its own flag only and undoes itself |
| Store.InitialConsistent | src/store/projectStore.ts:86-95 | the initial project is consistent, empty, with an empty cut list |
| Store.AddDefaultStud | src/store/projectStore.ts:99-110 | a 2×4 added without a position rests at (0, 1.75, 0), 96 long |
| Store.TwoStudsOneRow | src/store/projectStore.ts:149-172 | two stock 2×4s make the single row ("2×4", 2, 96, ["a", "b"]) |
| Store.DuplicateAtOrigin | src/store/projectStore.ts:143 | a piece at the origin duplicates to (5, 0, 5) |
| SnapIndicator.Corners | src/components/woodwork/SnapIndicator.tsx:39-46 | six points in three mirror pairs about the position, one effective length apart on x, the height on y and the width on z |
| SnapIndicator.FacePoints | src/components/woodwork/SnapIndicator.tsx:39-53 | six markers per piece, marker c being face centre c of `Corners` scaled into world units |
| SnapIndicator.Qualifying | src/components/woodwork/SnapIndicator.tsx:22-37 | a piece contributes exactly when it is in the list, does not carry the selected id and passes the per-axis proximity test |
| SnapIndicator.FlatFaces | src/components/woodwork/SnapIndicator.tsx:22-55 | six markers per qualifying piece |
| SnapIndicator.SnapPointsOf | src/components/woodwork/SnapIndicator.tsx:8-11 | no markers when snapping is off or the selection names no piece; otherwise six per qualifying piece |
| SnapIndicator.FlatFacesLayout | src/components/woodwork/SnapIndicator.tsx:22-55 | marker 6j+c is face point c of the j-th qualifying piece, so markers follow piece order |
| SnapIndicator.CandidatesOrigin | src/components/woodwork/SnapIndicator.tsx:23-37 | every marker belongs to a piece that is not the selected one and that passes the proximity test |
| SnapIndicator.CandidatesComplete | src/components/woodwork/SnapIndicator.tsx:37-53 | every qualifying piece contributes all six of its markers |
| SnapIndicator.FacePointsGeometry | src/components/woodwork/SnapIndicator.tsx:39-52 | every coordinate of every marker is fixed: each pair sits one length, height or width times 0.1 apart about the position times 0.1 on its own axis, and at the position times 0.1 on the other two; colour #00ff88 |
| SnapIndicator.BoxNotSphere | src/components/woodwork/SnapIndicator.tsx:30-37 | the test is per axis: a stud 100 inches off on every axis (173 away) still qualifies |
| SnapIndicator.CandidatesSnoc | src/components/woodwork/SnapIndicator.tsx:22-55 | visiting one more piece appends its six markers exactly when it qualifies |
| SnapIndicator.PushFacePoints | src/components/woodwork/SnapIndicator.tsx:48-53 | the inner loop appends exactly the piece's six markers |
| SnapIndicator.CollectCandidates | src/components/woodwork/SnapIndicator.tsx:22-55 | the loop over the pieces collects exactly the markers of the qualifying pieces, in list order |
| SnapIndicator.SnapPoints | src/components/woodwork/SnapIndicator.tsx:10-58 | the nested loops compute exactly the derivation, reading the store without changing it |
| Geometry.Round | src/components/woodwork/TransformGizmo.tsx:39-41 | `Math.round`: an integer within half a unit, halves rounding up |
| TransformGizmo.GetMode | src/components/woodwork/TransformGizmo.tsx:15-26 | rotate exactly for rotate, scale exactly for scale, translate for move and every other tool |
| TransformGizmo.ShowGizmoRule | src/components/woodwork/TransformGizmo.tsx:59-61 | handles show only with a mesh, and then exactly for the move, rotate and scale tools, in the matching mode |
| TransformGizmo.Quantize | src/components/woodwork/TransformGizmo.tsx:38-42 | the snapped coordinate is an integer multiple of the grid size |
| TransformGizmo.QuantizeVec | src/components/woodwork/TransformGizmo.tsx:38-42 | every axis lands on an integer multiple of the grid step, within half a step of the raw coordinate |
| TransformGizmo.SnappedPosition | src/components/woodwork/TransformGizmo.tsx:37-45 | with snapping on and the move tool, every axis lies on the grid within half a step of the raw position; otherwise the raw position is committed |
| TransformGizmo.QuantizeNearest | src/components/woodwork/TransformGizmo.tsx:38-42 | the snapped coordinate is within half a grid step of the raw one |
| TransformGizmo.QuantizeMultiple | src/components/woodwork/TransformGizmo.tsx:38-42 | a multiple of the grid size snaps to itself |
| TransformGizmo.QuantizeIdempotent | src/components/woodwork/TransformGizmo.tsx:38-42 | snapping twice is snapping once |
| TransformGizmo.QuantizeExamples | src/components/woodwork/TransformGizmo.tsx:38-42 | on a 1-inch grid (2.3, 0, -1.7) snaps to (2, 0, -2); 0.5 snaps to 1 and -0.5 to 0 |
| TransformGizmo.CommitKeepsRest | src/components/woodwork/TransformGizmo.tsx:46-50 | the commit replaces position, rotation and scale and keeps id, profile, colour and length override |
| TransformGizmo.CommitConsistent | src/components/woodwork/TransformGizmo.tsx:46-50 | the commit keeps the store consistent |
| TransformGizmo.HandleChange | src/components/woodwork/TransformGizmo.tsx:32-52 | with a mesh, snaps the mesh position when the move tool snaps and commits the mesh transform to the piece; without a mesh nothing changes |
| TemplatesPanel.ResolvableCount | src/components/woodwork/TemplatesPanel.tsx:86-92 | at most one piece per entry, and as many as entries exactly when every entry resolves |
| TemplatesPanel.EntryPiecesShape | src/components/woodwork/TemplatesPanel.tsx:86-92 | one piece per resolvable entry, each the piece `addPiece` makes from that entry's profile, id and position |
| TemplatesPanel.EntryPiecesIds | src/components/woodwork/TemplatesPanel.tsx:86-92 | every loaded id is one of the generated ids |
| TemplatesPanel.EntryPiecesUnique | src/components/woodwork/TemplatesPanel.tsx:86-92 | distinct generated ids give unique piece ids |
| TemplatesPanel.EntryPiecesPrefix | src/components/woodwork/TemplatesPanel.tsx:86-92 | pieces are added in template order: a prefix of the entries loads a prefix of the pieces |
| TemplatesPanel.LoadTemplateEffect | src/components/woodwork/TemplatesPanel.tsx:77-95 | a refusal on a non-empty board changes nothing; otherwise the project is cleared and holds one piece per resolvable entry, at the entry's position, unrotated, unscaled, at stock length, with settings kept |
| TemplatesPanel.LoadTemplateConsistent | src/components/woodwork/TemplatesPanel.tsx:77-95 | loading keeps the store consistent |
| TemplatesPanel.TemplateIdsResolve | src/components/woodwork/TemplatesPanel.tsx:27-69 | every profile id the templates use is in the catalog |
| TemplatesPanel.TemplateResolves | src/components/woodwork/TemplatesPanel.tsx:19-72 | every entry of a shipped template resolves |
| TemplatesPanel.ShippedTemplatesResolve | src/components/woodwork/TemplatesPanel.tsx:19-72 | each shipped template loads as many pieces as it has entries: 8, 5 and 8 |
| TemplatesPanel.SimpleTableRailIgnoresEntry | src/components/woodwork/TemplatesPanel.tsx:89-90 | the table's first rail loads unrotated at 96 although its entry says π/2 and 48 |
| TemplatesPanel.HandleLoadTemplate | src/components/woodwork/TemplatesPanel.tsx:77-95 | the clear-then-add loop leaves exactly the state of the load |
| WoodworkEditor.ToLower | src/components/woodwork/WoodworkEditor.tsx:42 | same length, each letter lower-cased |
| WoodworkEditor.ToLowerIdempotent | src/components/woodwork/WoodworkEditor.tsx:42 | lower-casing twice is lower-casing once |
| WoodworkEditor.InputIgnored | src/components/woodwork/WoodworkEditor.tsx:38 | a key press in a text field changes nothing |
| WoodworkEditor.CaseInsensitive | src/components/woodwork/WoodworkEditor.tsx:42 | a key and its lower-case form have the same effect |
| WoodworkEditor.ShiftedShortcut | src/components/woodwork/WoodworkEditor.tsx:42-53 | "G" selects the move tool and "Delete" acts as "delete" |
| WoodworkEditor.ToolKeys | src/components/woodwork/WoodworkEditor.tsx:43-64 | v, r, m, plain g and plain s set select, rotate, measure, move and scale and change nothing else |
| WoodworkEditor.ModifiedKeys | src/components/woodwork/WoodworkEditor.tsx:46-61 | Ctrl/Cmd+G flips snapping only, keeping the tool; Ctrl/Cmd+S does nothing |
| WoodworkEditor.DuplicateKey | src/components/woodwork/WoodworkEditor.tsx:65-75 | plain d flips the labels; Ctrl/Cmd+D duplicates the selected piece when the selection is non-empty and does nothing otherwise |
| WoodworkEditor.DeleteKey | src/components/woodwork/WoodworkEditor.tsx:76-82 | Delete/Backspace removes the selected piece and clears the selection when there is one, and does nothing otherwise |
| WoodworkEditor.KeyDownConsistent | src/components/woodwork/WoodworkEditor.tsx:37-84 | every shortcut keeps the store consistent |
| WoodworkEditor.HandleKeyDown | src/components/woodwork/WoodworkEditor.tsx:37-84 | the listener's switch performs exactly the dispatched command |
| WoodworkEditor.DropEffect | src/components/woodwork/WoodworkEditor.tsx:18-28 | a drop adds one piece at the default position exactly when the id names a profile (never for the empty id), and otherwise changes nothing |
| WoodworkEditor.HandleDrop | src/components/woodwork/WoodworkEditor.tsx:18-28 | the drop handler performs exactly the drop |
| PropertiesPanel.Or | src/components/woodwork/PropertiesPanel.tsx:29 | `parseFloat(v) \|\| fallback`: the number unless it is NaN or 0, then the fallback; never 0 when the fallback is not |
| PropertiesPanel.View | src/components/woodwork/PropertiesPanel.tsx:11-26 | the nothing-selected view exactly when the selection resolves to no piece; otherwise the first piece with the selected id, shown with length `customLength \|\| defaultLength` |
| PropertiesPanel.PositionEditEffect | src/components/woodwork/PropertiesPanel.tsx:28-33 | one coordinate becomes the parsed number (0 for NaN), the other two and every other field stay |
| PropertiesPanel.RotationEditEffect | src/components/woodwork/PropertiesPanel.tsx:35-40 | one angle becomes degrees × π/180 (0 for NaN), the others stay, and the field reads back the degrees |
| PropertiesPanel.DegreesRoundTrip | src/components/woodwork/PropertiesPanel.tsx:141 | degrees to radians and back gives the degrees |
| PropertiesPanel.LengthEditEffect | src/components/woodwork/PropertiesPanel.tsx:42-45 | the parsed length is stored, negatives included; NaN or 0 store the stock length, so a non-zero stock length is never replaced by 0 and the display shows what was stored |
| PropertiesPanel.ColorEditEffect | src/components/woodwork/PropertiesPanel.tsx:47-49 | a colour edit changes the colour only |
| PropertiesPanel.EditsConsistent | src/components/woodwork/PropertiesPanel.tsx:28-49 | no edit renames, so each keeps the store consistent |
| PropertiesPanel.EditReachesSelectedOnly | src/components/woodwork/PropertiesPanel.tsx:32 | with unique ids an edit changes the selected piece and no other |
| PropertiesPanel.HandlePositionChange | src/components/woodwork/PropertiesPanel.tsx:28-33 | copy, one-index assignment and commit give exactly the position edit of the selected piece |
| PropertiesPanel.HandleRotationChange | src/components/woodwork/PropertiesPanel.tsx:35-40 | the same for the rotation edit |
| PropertiesPanel.HandleLengthChange | src/components/woodwork/PropertiesPanel.tsx:42-45 | commits the length edit of the selected piece |
| PropertiesPanel.HandleColorChange | src/components/woodwork/PropertiesPanel.tsx:47-49 | commits the colour edit of the selected piece |
| PropertiesPanel.HandleDuplicateClick | src/components/woodwork/PropertiesPanel.tsx:180 | duplicates the selected piece |
| PropertiesPanel.HandleDeleteClick | src/components/woodwork/PropertiesPanel.tsx:187 | removes the selected piece, which clears the selection and leaves no piece with its id |
| Header.TrimStart | src/components/woodwork/Header.tsx:32 | strips exactly the leading white space |
| Header.TrimEnd | src/components/woodwork/Header.tsx:32 | strips exactly the trailing white space |
| Header.TrimSlice | src/components/woodwork/Header.tsx:32-33 | `trim` gives a slice of the input, cut only through white space, that neither starts nor ends with white space |
| Header.TrimBlank | src/components/woodwork/Header.tsx:32 | a string trims to nothing exactly when it is all white space |
| Header.TrimIdempotent | src/components/woodwork/Header.tsx:33 | trimming twice is trimming once |
| Header.SubmittedNameEffect | src/components/woodwork/Header.tsx:31-36 | a blank draft leaves the project unchanged; otherwise the name becomes the trimmed draft, non-empty and already trimmed, and nothing else changes |
| Header.NameEditor.constructor | src/components/woodwork/Header.tsx:28-29 | the field starts closed on the current name |
| Header.NameEditor.BeginEditing | src/components/woodwork/Header.tsx:95-98 | opening the field copies the current name into the draft |
| Header.NameEditor.SetTempName | src/components/woodwork/Header.tsx:87 | typing replaces the draft |
| Header.NameEditor.HandleNameSubmit | src/components/woodwork/Header.tsx:31-36 | stores the submitted name and closes the field either way |
| Header.EditWithoutTyping | src/components/woodwork/Header.tsx:95-98 | opening and submitting unchanged keeps a trimmed name |
| Header.NewProjectEffect | src/components/woodwork/Header.tsx:38-48 | an empty board clears at once; a non-empty one clears only when confirmed and is otherwise unchanged; consistency is kept |
| Header.HandleNewProject | src/components/woodwork/Header.tsx:38-48 | the handler performs exactly that rule |
| Header.ReplaceSpaceRuns | src/components/woodwork/Header.tsx:62 | `replace(/\s+/g, '_')` is no longer than its input and contains no white space |
| Header.ReplaceNoSpace | src/components/woodwork/Header.tsx:62 | a name without white space is left alone |
| Header.ReplaceIdempotent | src/components/woodwork/Header.tsx:62 | replacing twice is replacing once |
| Header.ReplaceAppend | src/components/woodwork/Header.tsx:62 | the replacement works part by part after a non-space character |
| Header.RunBecomesUnderscore | src/components/woodwork/Header.tsx:62 | a maximal run of white space becomes exactly one `_` |
| Header.ExportFileName | src/components/woodwork/Header.tsx:62 | the download name has no white space and ends in `.woodcraft` |
| Header.ExportFileNameExample | src/components/woodwork/Header.tsx:62 | "Shop Bench" exports as `Shop_Bench.woodcraft` |
| Header.ExportProject | src/components/woodwork/Header.tsx:50-62 | the payload carries the project name, the pieces, the time stamp and version 1.0.0; the file name is the export name; nothing changes |
| LumberPiece3D.AtMostOneSelected | src/components/woodwork/LumberPiece3D.tsx:16 | with unique ids at most one piece is highlighted |
| LumberPiece3D.BoxMatchesSnapPoints | src/components/woodwork/LumberPiece3D.tsx:19-22 | the box is (effective length, height, width) × 0.1, the span of the piece's snap markers |
| LumberPiece3D.BoxPositive | src/components/woodwork/LumberPiece3D.tsx:19-22 | a catalog profile with no override or a non-negative one gives a box of positive size |
| LumberPiece3D.LabelRules | src/components/woodwork/LumberPiece3D.tsx:75 | no label with dimensions off; with them on, the selected piece and the hovered piece are labelled; a piece neither hovered nor selected never is |
| LumberPiece3D.ClickEffect | src/components/woodwork/LumberPiece3D.tsx:24-33 | with the delete tool the piece is removed and never selected, and another selection stays; any other tool selects it and changes nothing else |
| LumberPiece3D.ClickConsistent | src/components/woodwork/LumberPiece3D.tsx:24-33 | clicking a piece on the board keeps the store consistent |
| LumberPiece3D.PieceView.PointerOver | src/components/woodwork/LumberPiece3D.tsx:50 | the pointer entering sets hover |
| LumberPiece3D.PieceView.PointerOut | src/components/woodwork/LumberPiece3D.tsx:51 | the pointer leaving clears hover |
| LumberPiece3D.PieceView.HandleClick | src/components/woodwork/LumberPiece3D.tsx:24-33 | the click handler performs exactly the click rule |

## Left out

- Rendering: the three.js scene, camera, lights, materials, the highlight colours and outline, the label's text and position, and the bob animation of the selected piece, which is driven by time and floating point.
- The button and label wiring of `ToolBar`, `ViewControls`, `StatusBar`, `LumberLibrary` and the page. These only call the store setters modelled here. The library's category filter is not modelled.
- Zustand's `create`/`set`/`get` and React re-rendering. Each action is one atomic transition, and there is no concurrency.
- The snapping that `TransformControls` does itself (rotation steps of π/12, scale steps of 0.1). It is library behaviour, not repository code, and only its parameters appear in the source.
- Toasts, `preventDefault`, `stopPropagation`, `handleDragOver` and the export download (`Blob`, object URL, anchor click). None of them changes editor state. `JSON.stringify` formatting is left out as well.
- IEEE-754 arithmetic. Reals are exact, so the 0.1 scale factor and the degree/radian conversion round-trip exactly. `toFixed` display rounding is not modelled.
- `parseFloat` results of ±Infinity and -0. Only a number or `NaN` is modelled.
- CutLists.KeyOf: the map key is the string `${type.id}-${length}`. The model uses the pair it is built from. Two different pairs give the same string only when one profile id is another followed by `-` and the start of a number's text (an id ending in `-` next to a negative length, or ids `a` and `a-1e` with lengths `1e-7` and `7`). No two catalog ids are related this way.
- WoodworkEditor.ToLower: only A–Z are lower-cased. Full Unicode case mapping is not modelled; it could matter only for non-ASCII key names.
- TransformGizmo.Quantize: a grid size of 0 is excluded by a precondition, which `HandleChange` takes on when it snaps. In the source it divides by zero, giving NaN. `setGridSize` accepts any number but nothing in the repository calls it.
- TemplatesPanel.HandleLoadTemplate: the generated ids are required to be pairwise distinct, as version-4 UUIDs are in practice (RFC 4122, section 4.4).
- The mesh passed to `TransformGizmo.HandleChange` is a plain class with position, rotation and scale. Euler order, quaternions and `toArray().slice(0, 3)` are not modelled.
- `Array.prototype.sort` is modelled as a stable insertion sort. Its contract is the permutation, order and stability properties above, with no claim about the algorithm the engine uses.
