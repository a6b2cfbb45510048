/** Project templates (`TemplatesPanel`): three shipped furniture layouts and
    loading one into the store. */
module TemplatesPanel {
  import opened Wrappers
  import opened Geometry
  import opened Catalog
  import opened Pieces
  import opened Store

  /** One piece of a template: a catalog id, where it goes, and how it would be
      turned and cut. */
  datatype TemplateEntry = TemplateEntry(
    lumberId: string,
    position: Vec3,
    rotation: Vec3,
    customLength: Option<real>)

  datatype Template = Template(id: string, name: string, description: string, pieces: seq<TemplateEntry>)

  const HalfPi: real := Pi / 2.0

  function Entry(lumberId: string, x: real, y: real, z: real, rotation: Vec3, length: real): TemplateEntry {
    TemplateEntry(lumberId, Vec3(x, y, z), rotation, Some(length))
  }

  const Upright: Vec3 := Vec3(0.0, 0.0, 0.0)
  const Flat: Vec3 := Vec3(0.0, 0.0, HalfPi)
  const FlatAcross: Vec3 := Vec3(0.0, HalfPi, HalfPi)

  const SimpleTable: Template := Template("simple-table", "Simple Table", "4 legs, 1 top frame", [
    Entry("4x4", -2.0, 1.5, -1.5, Upright, 30.0),
    Entry("4x4", 2.0, 1.5, -1.5, Upright, 30.0),
    Entry("4x4", -2.0, 1.5, 1.5, Upright, 30.0),
    Entry("4x4", 2.0, 1.5, 1.5, Upright, 30.0),
    Entry("2x4", 0.0, 3.2, -1.5, Flat, 48.0),
    Entry("2x4", 0.0, 3.2, 1.5, Flat, 48.0),
    Entry("2x4", -2.0, 3.2, 0.0, FlatAcross, 30.0),
    Entry("2x4", 2.0, 3.2, 0.0, FlatAcross, 30.0)])

  const BasicShelf: Template := Template("basic-shelf", "Basic Shelf", "3-tier bookshelf", [
    Entry("2x10", -2.0, 2.0, 0.0, Upright, 48.0),
    Entry("2x10", 2.0, 2.0, 0.0, Upright, 48.0),
    Entry("1x6", 0.0, 0.5, 0.0, Flat, 36.0),
    Entry("1x6", 0.0, 2.0, 0.0, Flat, 36.0),
    Entry("1x6", 0.0, 3.5, 0.0, Flat, 36.0)])

  const Workbench: Template := Template("workbench", "Workbench", "Heavy duty bench", [
    Entry("4x4", -3.0, 1.5, -1.0, Upright, 36.0),
    Entry("4x4", 3.0, 1.5, -1.0, Upright, 36.0),
    Entry("4x4", -3.0, 1.5, 1.0, Upright, 36.0),
    Entry("4x4", 3.0, 1.5, 1.0, Upright, 36.0),
    Entry("2x6", 0.0, 3.3, -0.5, Flat, 72.0),
    Entry("2x6", 0.0, 3.3, 0.5, Flat, 72.0),
    Entry("2x4", 0.0, 0.5, -1.0, Flat, 60.0),
    Entry("2x4", 0.0, 0.5, 1.0, Flat, 60.0)])

  const Templates: seq<Template> := [SimpleTable, BasicShelf, Workbench]

  /** The entries whose id resolves in the catalog. */
  function ResolvableCount(catalog: seq<LumberType>, entries: seq<TemplateEntry>): (n: nat)
    ensures n <= |entries|
    ensures n == |entries| <==> forall k :: 0 <= k < |entries| ==> FindIn(catalog, entries[k].lumberId).Some?
  {
    if entries == [] then 0
    else
      var last := entries[|entries| - 1];
      var n := ResolvableCount(catalog, entries[..|entries| - 1]);
      assert forall k :: 0 <= k < |entries| - 1 ==> entries[..|entries| - 1][k] == entries[k];
      if FindIn(catalog, last.lumberId).Some? then n + 1 else n
  }

  /** The pieces the `forEach` over the entries adds: one `addPiece(type, position)`
      per entry whose id resolves, in order, entry `k` taking the generated id
      `ids[k]`. Rotation and length of the entry are not passed on. */
  function EntryPieces(catalog: seq<LumberType>, entries: seq<TemplateEntry>, ids: seq<string>): seq<Piece>
    requires |ids| == |entries|
  {
    if entries == [] then []
    else
      var n := |entries| - 1;
      EntryPieces(catalog, entries[..n], ids[..n]) + EntryPiece(catalog, entries[n], ids[n])
  }

  /** The piece one entry adds under the id `id`: none when its catalog id does not
      resolve. */
  function EntryPiece(catalog: seq<LumberType>, entry: TemplateEntry, id: string): seq<Piece> {
    match FindIn(catalog, entry.lumberId)
    case None => []
    case Some(t) => [NewPiece(id, t, Some(entry.position))]
  }

  /** `handleLoadTemplate`: with pieces on the board the user is asked first and a
      refusal changes nothing; otherwise the project is cleared and the entries
      are added. */
  function LoadTemplate(s: Project, template: Template, confirmed: bool, ids: seq<string>): Project
    requires |ids| == |template.pieces|
  {
    if |s.pieces| > 0 && !confirmed then s
    else s.ClearProject().(pieces := EntryPieces(LumberTypes, template.pieces, ids))
  }

  predicate Distinct(ids: seq<string>) {
    forall i, j :: 0 <= i < j < |ids| ==> ids[i] != ids[j]
  }

  /** `p` is the stock piece of some entry: its profile is what the entry's id
      resolves to, and it sits at the entry's position under the entry's id. */
  predicate FromEntry(catalog: seq<LumberType>, entries: seq<TemplateEntry>, ids: seq<string>, p: Piece)
    requires |ids| == |entries|
  {
    exists k :: 0 <= k < |entries| && FindIn(catalog, entries[k].lumberId) == Some(p.lumber)
      && p == NewPiece(ids[k], p.lumber, Some(entries[k].position))
  }

  /** One piece per resolvable entry, each the stock piece of an entry. */
  lemma {:induction false} EntryPiecesShape(catalog: seq<LumberType>, entries: seq<TemplateEntry>, ids: seq<string>)
    requires |ids| == |entries|
    ensures |EntryPieces(catalog, entries, ids)| == ResolvableCount(catalog, entries)
    ensures forall p :: p in EntryPieces(catalog, entries, ids) ==> FromEntry(catalog, entries, ids, p)
  {
    if entries != [] {
      var n := |entries| - 1;
      var r0 := EntryPieces(catalog, entries[..n], ids[..n]);
      EntryPiecesShape(catalog, entries[..n], ids[..n]);
      var r := EntryPieces(catalog, entries, ids);
      forall p | p in r ensures FromEntry(catalog, entries, ids, p) {
        if p in r0 {
          assert FromEntry(catalog, entries[..n], ids[..n], p);
          var k :| 0 <= k < n && FindIn(catalog, entries[..n][k].lumberId) == Some(p.lumber)
            && p == NewPiece(ids[..n][k], p.lumber, Some(entries[..n][k].position));
          assert entries[..n][k] == entries[k] && ids[..n][k] == ids[k];
        } else {
          assert FindIn(catalog, entries[n].lumberId) == Some(p.lumber);
        }
      }
    }
  }

  /** The loaded pieces carry only ids from `ids`. */
  lemma {:induction false} EntryPiecesIds(catalog: seq<LumberType>, entries: seq<TemplateEntry>, ids: seq<string>)
    requires |ids| == |entries|
    ensures forall x :: x in IdsOf(EntryPieces(catalog, entries, ids)) ==> x in ids
  {
    if entries != [] {
      var n := |entries| - 1;
      EntryPiecesIds(catalog, entries[..n], ids[..n]);
      var r0 := EntryPieces(catalog, entries[..n], ids[..n]);
      var r := EntryPieces(catalog, entries, ids);
      forall x | x in IdsOf(r) ensures x in ids {
        var i :| 0 <= i < |r| && IdsOf(r)[i] == x;
        if i < |r0| {
          assert IdsOf(r0)[i] == x;
          assert x in ids[..n];
        } else {
          assert x == ids[n];
        }
      }
    }
  }

  /** Distinct generated ids give distinct piece ids. */
  lemma {:induction false} EntryPiecesUnique(catalog: seq<LumberType>, entries: seq<TemplateEntry>, ids: seq<string>)
    requires |ids| == |entries| && Distinct(ids)
    ensures UniqueIds(EntryPieces(catalog, entries, ids))
  {
    if entries != [] {
      var n := |entries| - 1;
      assert Distinct(ids[..n]);
      EntryPiecesUnique(catalog, entries[..n], ids[..n]);
      EntryPiecesIds(catalog, entries[..n], ids[..n]);
      var r0 := EntryPieces(catalog, entries[..n], ids[..n]);
      assert ids[n] !in ids[..n];
      assert forall i :: 0 <= i < |r0| ==> r0[i].id in IdsOf(r0);
    }
  }

  /** A longer run of entries only appends to the pieces of a shorter run. */
  lemma {:induction false} EntryPiecesPrefix(catalog: seq<LumberType>, entries: seq<TemplateEntry>, ids: seq<string>, m: nat)
    requires |ids| == |entries| && m <= |entries|
    ensures |EntryPieces(catalog, entries[..m], ids[..m])| <= |EntryPieces(catalog, entries, ids)|
    ensures EntryPieces(catalog, entries, ids)[..|EntryPieces(catalog, entries[..m], ids[..m])|]
         == EntryPieces(catalog, entries[..m], ids[..m])
  {
    if m < |entries| {
      var n := |entries| - 1;
      var short := EntryPieces(catalog, entries[..m], ids[..m]);
      var front := EntryPieces(catalog, entries[..n], ids[..n]);
      var all := EntryPieces(catalog, entries, ids);
      assert |short| <= |front| && front[..|short|] == short by {
        assert entries[..n][..m] == entries[..m] && ids[..n][..m] == ids[..m];
        EntryPiecesPrefix(catalog, entries[..n], ids[..n], m);
      }
      assert |front| <= |all| && all[..|front|] == front;
      assert all[..|short|] == front[..|short|];
    } else {
      assert entries[..m] == entries && ids[..m] == ids;
    }
  }

  /** A declined load changes nothing; an accepted one empties the project first,
      so that only template pieces remain, under the default name, with nothing
      selected and every setting kept; the pieces lie as placed but unturned, at
      stock length. */
  lemma LoadTemplateEffect(s: Project, template: Template, confirmed: bool, ids: seq<string>)
    requires |ids| == |template.pieces|
    ensures |s.pieces| > 0 && !confirmed ==> LoadTemplate(s, template, confirmed, ids) == s
    ensures |s.pieces| == 0 || confirmed ==>
      var r := LoadTemplate(s, template, confirmed, ids);
      && |r.pieces| == ResolvableCount(LumberTypes, template.pieces)
      && r.projectName == "Untitled Project" && r.selectedPieceId == None
      && r.(pieces := s.pieces, projectName := s.projectName, selectedPieceId := s.selectedPieceId) == s
      && forall p :: p in r.pieces ==>
           && p.rotation == Vec3(0.0, 0.0, 0.0) && p.scale == Vec3(1.0, 1.0, 1.0)
           && p.customLength == Some(p.lumber.defaultLength)
           && exists k :: 0 <= k < |template.pieces| && p.id == ids[k]
                && p.position == template.pieces[k].position
                && FindLumber(template.pieces[k].lumberId) == Some(p.lumber)
  {
    if |s.pieces| == 0 || confirmed {
      var e := template.pieces;
      EntryPiecesShape(LumberTypes, e, ids);
      var ps := EntryPieces(LumberTypes, e, ids);
      forall p | p in ps
        ensures exists k :: (0 <= k < |e| && p.id == ids[k] && p.position == e[k].position
                               && FindLumber(e[k].lumberId) == Some(p.lumber))
      {
        assert FromEntry(LumberTypes, e, ids, p);
      }
    }
  }

  /** Loading keeps the store consistent when the generated ids are distinct. */
  lemma {:induction false} LoadTemplateConsistent(s: Project, template: Template, confirmed: bool, ids: seq<string>)
    requires Consistent(s) && |ids| == |template.pieces| && Distinct(ids)
    ensures Consistent(LoadTemplate(s, template, confirmed, ids))
  {
    if |s.pieces| == 0 || confirmed {
      EntryPiecesUnique(LumberTypes, template.pieces, ids);
    }
  }

  /** The five profiles the shipped templates use are in the catalog. */
  lemma TemplateIdsResolve()
    ensures FindIn(LumberTypes, "2x4") == Some(LumberTypes[0])
    ensures FindIn(LumberTypes, "2x6").Some? && FindIn(LumberTypes, "2x10").Some?
    ensures FindIn(LumberTypes, "4x4").Some? && FindIn(LumberTypes, "1x6").Some?
  {
    assert LumberTypes[1].id == "2x6" && LumberTypes[3].id == "2x10";
    assert LumberTypes[5].id == "4x4" && LumberTypes[7].id == "1x6";
  }

  lemma CountAll(entries: seq<TemplateEntry>)
    requires forall k :: 0 <= k < |entries| ==> FindIn(LumberTypes, entries[k].lumberId).Some?
    ensures ResolvableCount(LumberTypes, entries) == |entries|
  {
  }

  lemma IdResolves(id: string)
    requires id in {"4x4", "2x4", "2x6", "2x10", "1x6"}
    ensures FindIn(LumberTypes, id).Some?
  {
    TemplateIdsResolve();
  }

  /** Every entry of the shipped templates uses one of the five profiles above. */
  lemma TemplateResolves(t: Template)
    requires t in Templates
    ensures ResolvableCount(LumberTypes, t.pieces) == |t.pieces|
  {
    forall k | 0 <= k < |t.pieces| ensures FindIn(LumberTypes, t.pieces[k].lumberId).Some? {
      IdResolves(t.pieces[k].lumberId);
    }
    CountAll(t.pieces);
  }

  /** Every catalog id the shipped templates use resolves, so a load adds as many
      pieces as the template has entries: 8, 5 and 8. */
  lemma ShippedTemplatesResolve()
    ensures forall t :: t in Templates ==> ResolvableCount(LumberTypes, t.pieces) == |t.pieces|
    ensures |SimpleTable.pieces| == 8 && |BasicShelf.pieces| == 5 && |Workbench.pieces| == 8
  {
    forall t | t in Templates ensures ResolvableCount(LumberTypes, t.pieces) == |t.pieces| {
      TemplateResolves(t);
    }
  }

  /** The first top rail of the simple table is meant to lie flat and be cut to 48;
      once loaded it stands upright at the 2×4's stock 96. */
  lemma SimpleTableRailIgnoresEntry(ids: seq<string>)
    requires |ids| == |SimpleTable.pieces|
    ensures |LoadTemplate(Initial, SimpleTable, false, ids).pieces| == 8
    ensures var rail := LoadTemplate(Initial, SimpleTable, false, ids).pieces[4];
      && SimpleTable.pieces[4].rotation == Vec3(0.0, 0.0, HalfPi)
      && SimpleTable.pieces[4].customLength == Some(48.0)
      && rail.position == SimpleTable.pieces[4].position
      && rail.rotation == Vec3(0.0, 0.0, 0.0)
      && EffectiveLength(rail) == 96.0
  {
    var ps := EntryPieces(LumberTypes, SimpleTable.pieces, ids);
    assert LoadTemplate(Initial, SimpleTable, false, ids).pieces == ps;
    SimpleTableCount(ids);
    SimpleTableRail(ids);
    assert LumberTypes[0].defaultLength == 96.0;
  }

  lemma SimpleTableCount(ids: seq<string>)
    requires |ids| == |SimpleTable.pieces|
    ensures |EntryPieces(LumberTypes, SimpleTable.pieces, ids)| == 8
  {
    TemplateResolves(SimpleTable);
    EntryPiecesShape(LumberTypes, SimpleTable.pieces, ids);
  }

  lemma SimpleTableRail(ids: seq<string>)
    requires |ids| == |SimpleTable.pieces|
    ensures |EntryPieces(LumberTypes, SimpleTable.pieces, ids)| >= 5
    ensures EntryPieces(LumberTypes, SimpleTable.pieces, ids)[4]
         == NewPiece(ids[4], LumberTypes[0], Some(SimpleTable.pieces[4].position))
  {
    var e := SimpleTable.pieces;
    assert forall k :: 0 <= k < 4 ==> e[k].lumberId == "4x4";
    assert e[4].lumberId == "2x4";
    TemplateIdsResolve();
    FifthPiece(LumberTypes, e, ids, LumberTypes[0]);
  }

  /** After four resolvable entries, the fifth entry yields the fifth piece. */
  lemma {:induction false} FifthPiece(catalog: seq<LumberType>, e: seq<TemplateEntry>, ids: seq<string>, t: LumberType)
    requires |ids| == |e| >= 5 && FindIn(catalog, e[4].lumberId) == Some(t)
    requires forall k :: 0 <= k < 4 ==> FindIn(catalog, e[k].lumberId).Some?
    ensures |EntryPieces(catalog, e, ids)| >= 5
    ensures EntryPieces(catalog, e, ids)[4] == NewPiece(ids[4], t, Some(e[4].position))
  {
    var e4, i4 := e[..4], ids[..4];
    var five := EntryPieces(catalog, e[..5], ids[..5]);
    assert |five| == 5 && five[4] == NewPiece(ids[4], t, Some(e[4].position)) by {
      assert forall k :: 0 <= k < 4 ==> e4[k] == e[k];
      assert ResolvableCount(catalog, e4) == 4;
      EntryPiecesShape(catalog, e4, i4);
      AddStep(catalog, e, ids, 4);
    }
    EntryPiecesPrefix(catalog, e, ids, 5);
    assert EntryPieces(catalog, e, ids)[4] == five[4];
  }

  /** The panel's load button. `confirmed` is the user's answer to the prompt (only
      asked when there are pieces); `ids` are the generated ids, one per entry. */
  method HandleLoadTemplate(store: ProjectStore, template: Template, confirmed: bool, ids: seq<string>)
    requires |ids| == |template.pieces| && Distinct(ids)
    modifies store
    ensures store.State() == LoadTemplate(old(store.State()), template, confirmed, ids)
  {
    if |store.pieces| > 0 && !confirmed {
      return;
    }
    store.ClearProject();
    ghost var cleared := store.State();
    var entries := template.pieces;
    for k := 0 to |entries|
      invariant store.State() == cleared.(pieces := EntryPieces(LumberTypes, entries[..k], ids[..k]))
    {
      var entry := entries[k];
      var lumberType := FindLumber(entry.lumberId);
      ghost var before := EntryPieces(LumberTypes, entries[..k], ids[..k]);
      AddStep(LumberTypes, entries, ids, k);
      if lumberType.Some? {
        EntryPiecesIds(LumberTypes, entries[..k], ids[..k]);
        assert ids[k] !in ids[..k];
        store.AddPiece(lumberType.value, Some(entry.position), ids[k]);
      }
    }
    assert entries[..|entries|] == entries && ids[..|ids|] == ids;
  }

  /** The loop's step: one more entry adds its piece, if its id resolves. */
  lemma {:induction false} AddStep(catalog: seq<LumberType>, entries: seq<TemplateEntry>, ids: seq<string>, k: nat)
    requires |ids| == |entries| && k < |entries|
    ensures EntryPieces(catalog, entries[..k + 1], ids[..k + 1]) ==
      EntryPieces(catalog, entries[..k], ids[..k]) + EntryPiece(catalog, entries[k], ids[k])
  {
    assert entries[..k + 1][..k] == entries[..k] && ids[..k + 1][..k] == ids[..k];
  }
}
