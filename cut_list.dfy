/** The cut list (`getCutList`): pieces grouped by (profile id, effective length),
    counted, and stably sorted by profile name. */
module CutLists {
  import opened Pieces

  /** One shopping-list row. */
  datatype CutListItem = CutListItem(lumberType: string, quantity: nat, length: real, pieces: seq<string>)

  /** The grouping key `${type.id}-${length}`, kept as the pair it is built from. */
  datatype CutKey = CutKey(typeId: string, length: real)

  function KeyOf(p: Piece): CutKey {
    CutKey(p.lumber.id, EffectiveLength(p))
  }

  /** The pieces that fall under key `k`, in list order. */
  function MembersWithKey(ps: seq<Piece>, k: CutKey): (m: seq<Piece>)
    ensures forall q :: q in m <==> q in ps && KeyOf(q) == k
    ensures |m| <= |ps|
  {
    if ps == [] then []
    else (if KeyOf(ps[0]) == k then [ps[0]] else []) + MembersWithKey(ps[1..], k)
  }

  /** The profile name of the first piece under key `k` (the name the row is created with). */
  function FirstName(ps: seq<Piece>, k: CutKey): (name: string)
    ensures forall i :: 0 <= i < |ps| && KeyOf(ps[i]) == k && (forall j :: 0 <= j < i ==> KeyOf(ps[j]) != k)
                        ==> name == ps[i].lumber.name
  {
    if ps == [] then ""
    else if KeyOf(ps[0]) == k then ps[0].lumber.name
    else FirstName(ps[1..], k)
  }

  /** The row for key `k`: every member's id in order, their count, and the common length. */
  function ItemFor(ps: seq<Piece>, k: CutKey): CutListItem {
    var m := MembersWithKey(ps, k);
    CutListItem(FirstName(ps, k), |m|, k.length, IdsOf(m))
  }

  /** The keys in order of first occurrence (the iteration order of a `Map`). */
  function DistinctKeys(ps: seq<Piece>): seq<CutKey> {
    if ps == [] then []
    else
      var ks := DistinctKeys(ps[..|ps| - 1]);
      var k := KeyOf(ps[|ps| - 1]);
      if k in ks then ks else ks + [k]
  }

  function ItemsFor(ps: seq<Piece>, keys: seq<CutKey>): (r: seq<CutListItem>)
    ensures |r| == |keys|
    ensures forall j {:trigger r[j]} :: 0 <= j < |keys| ==> r[j] == ItemFor(ps, keys[j])
  {
    if keys == [] then [] else [ItemFor(ps, keys[0])] + ItemsFor(ps, keys[1..])
  }

  /** `Array.from(cutMap.values())`: one row per distinct key, in first-occurrence order. */
  function Grouped(ps: seq<Piece>): seq<CutListItem> {
    ItemsFor(ps, DistinctKeys(ps))
  }

  // ---------------------------------------------------------------------------
  // Sorting. `le(a, b)` stands for `a.localeCompare(b) <= 0`.

  ghost predicate TotalPreorder(le: (string, string) -> bool) {
    && (forall a, b :: le(a, b) || le(b, a))
    && (forall a, b, c :: le(a, b) && le(b, c) ==> le(a, c))
  }

  predicate SortedByName(s: seq<CutListItem>, le: (string, string) -> bool) {
    forall i, j :: 0 <= i < j < |s| ==> le(s[i].lumberType, s[j].lumberType)
  }

  /** Insert `x` after every element that does not compare greater than it. */
  function Insert(s: seq<CutListItem>, x: CutListItem, le: (string, string) -> bool): (r: seq<CutListItem>)
    ensures multiset(r) == multiset(s) + multiset{x}
    ensures |r| == |s| + 1
  {
    if s == [] then [x]
    else if le(s[|s| - 1].lumberType, x.lumberType) then s + [x]
    else
      assert s == s[..|s| - 1] + [s[|s| - 1]];
      Insert(s[..|s| - 1], x, le) + [s[|s| - 1]]
  }

  /** `Array.prototype.sort` with the `localeCompare` comparator: a stable sort. */
  function SortByName(s: seq<CutListItem>, le: (string, string) -> bool): (r: seq<CutListItem>)
    ensures multiset(r) == multiset(s)
    ensures |r| == |s|
  {
    if s == [] then []
    else
      assert s == s[..|s| - 1] + [s[|s| - 1]];
      Insert(SortByName(s[..|s| - 1], le), s[|s| - 1], le)
  }

  /** The cut list `getCutList()` returns for the piece list `ps`. */
  function CutList(ps: seq<Piece>, le: (string, string) -> bool): seq<CutListItem> {
    SortByName(Grouped(ps), le)
  }

  // ---------------------------------------------------------------------------
  // The sort: ordered, a permutation, and stable.

  lemma {:induction false} InsertSorted(s: seq<CutListItem>, x: CutListItem, le: (string, string) -> bool)
    requires TotalPreorder(le) && SortedByName(s, le)
    ensures SortedByName(Insert(s, x, le), le)
  {
    if s == [] {
    } else if le(s[|s| - 1].lumberType, x.lumberType) {
      var r := s + [x];
      forall i, j | 0 <= i < j < |r| ensures le(r[i].lumberType, r[j].lumberType) {
        if j == |s| && i < |s| - 1 {
          assert le(s[i].lumberType, s[|s| - 1].lumberType);
        }
      }
    } else {
      var init, last := s[..|s| - 1], s[|s| - 1];
      assert SortedByName(init, le);
      InsertSorted(init, x, le);
      var r' := Insert(init, x, le);
      forall e | e in r' ensures le(e.lumberType, last.lumberType) {
        assert e in multiset(r');
        if e != x {
          assert e in multiset(init);
          var idx :| 0 <= idx < |init| && init[idx] == e;
          assert s[idx] == e;
        }
      }
      var r := r' + [last];
      assert Insert(s, x, le) == r;
      forall i, j | 0 <= i < j < |r| ensures le(r[i].lumberType, r[j].lumberType) {
        if j == |r'| {
          assert r[i] in r';
        } else {
          assert r[i] == r'[i] && r[j] == r'[j];
        }
      }
    }
  }

  lemma {:induction false} SortSorted(s: seq<CutListItem>, le: (string, string) -> bool)
    requires TotalPreorder(le)
    ensures SortedByName(SortByName(s, le), le)
  {
    if s != [] {
      SortSorted(s[..|s| - 1], le);
      InsertSorted(SortByName(s[..|s| - 1], le), s[|s| - 1], le);
    }
  }

  /** Two names the comparator ranks equal (`localeCompare` returns 0). */
  predicate SameRank(le: (string, string) -> bool, a: string, b: string) {
    le(a, b) && le(b, a)
  }

  /** The rows whose name ranks equal to `name`, in order. */
  function RankClass(s: seq<CutListItem>, le: (string, string) -> bool, name: string): seq<CutListItem> {
    if s == [] then []
    else (if SameRank(le, s[0].lumberType, name) then [s[0]] else []) + RankClass(s[1..], le, name)
  }

  lemma {:induction false} RankClassAppend(a: seq<CutListItem>, b: seq<CutListItem>, le: (string, string) -> bool, name: string)
    ensures RankClass(a + b, le, name) == RankClass(a, le, name) + RankClass(b, le, name)
  {
    if a == [] {
      assert a + b == b;
    } else {
      var ab := a + b;
      assert ab[0] == a[0] && ab[1..] == a[1..] + b;
      RankClassAppend(a[1..], b, le, name);
      var head := if SameRank(le, a[0].lumberType, name) then [a[0]] else [];
      assert RankClass(ab, le, name) == head + RankClass(a[1..] + b, le, name);
      assert RankClass(a, le, name) == head + RankClass(a[1..], le, name);
    }
  }

  lemma RankClassSingle(x: CutListItem, le: (string, string) -> bool, name: string)
    ensures RankClass([x], le, name) == if SameRank(le, x.lumberType, name) then [x] else []
  {
    var head := if SameRank(le, x.lumberType, name) then [x] else [];
    assert [x][0] == x && [x][1..] == [];
    assert RankClass([x], le, name) == head + RankClass([], le, name);
    assert head + [] == head;
  }

  lemma {:induction false} InsertStable(s: seq<CutListItem>, x: CutListItem, le: (string, string) -> bool, name: string)
    requires TotalPreorder(le) && SortedByName(s, le)
    ensures RankClass(Insert(s, x, le), le, name) == RankClass(s, le, name) + RankClass([x], le, name)
  {
    if s == [] {
    } else if le(s[|s| - 1].lumberType, x.lumberType) {
      RankClassAppend(s, [x], le, name);
    } else {
      var init, last := s[..|s| - 1], s[|s| - 1];
      var cx, cl := RankClass([x], le, name), RankClass([last], le, name);
      assert cx == [] || cl == [] by {
        RankClassSingle(x, le, name);
        RankClassSingle(last, le, name);
        assert SameRank(le, x.lumberType, name) && SameRank(le, last.lumberType, name) ==>
          le(last.lumberType, x.lumberType);
      }
      assert SortedByName(init, le) by {
        forall i, j | 0 <= i < j < |init| ensures le(init[i].lumberType, init[j].lumberType) {
          assert init[i] == s[i] && init[j] == s[j];
        }
      }
      calc {
        RankClass(Insert(s, x, le), le, name);
        RankClass(Insert(init, x, le) + [last], le, name);
        { RankClassAppend(Insert(init, x, le), [last], le, name); }
        RankClass(Insert(init, x, le), le, name) + cl;
        { InsertStable(init, x, le, name); }
        RankClass(init, le, name) + cx + cl;
        RankClass(init, le, name) + cl + cx;
        { RankClassAppend(init, [last], le, name); assert s == init + [last]; }
        RankClass(s, le, name) + cx;
      }
    }
  }

  /** Stability: restricted to any one rank, the sorted list is the input list. */
  lemma {:induction false} SortStable(s: seq<CutListItem>, le: (string, string) -> bool, name: string)
    requires TotalPreorder(le)
    ensures RankClass(SortByName(s, le), le, name) == RankClass(s, le, name)
  {
    if s != [] {
      var init, last := s[..|s| - 1], s[|s| - 1];
      calc {
        RankClass(SortByName(s, le), le, name);
        RankClass(Insert(SortByName(init, le), last, le), le, name);
        { SortSorted(init, le); InsertStable(SortByName(init, le), last, le, name); }
        RankClass(SortByName(init, le), le, name) + RankClass([last], le, name);
        { SortStable(init, le, name); }
        RankClass(init, le, name) + RankClass([last], le, name);
        { RankClassAppend(init, [last], le, name); assert s == init + [last]; }
        RankClass(s, le, name);
      }
    }
  }

  // ---------------------------------------------------------------------------
  // Totals over a list of rows, and their invariance under permutation.

  /** All member ids of all rows, row after row. */
  function Flatten(items: seq<CutListItem>): seq<string> {
    if items == [] then [] else items[0].pieces + Flatten(items[1..])
  }

  function SumQuantities(items: seq<CutListItem>): nat {
    if items == [] then 0 else items[0].quantity + SumQuantities(items[1..])
  }

  lemma {:induction false} TotalsAppend(a: seq<CutListItem>, b: seq<CutListItem>)
    ensures Flatten(a + b) == Flatten(a) + Flatten(b)
    ensures SumQuantities(a + b) == SumQuantities(a) + SumQuantities(b)
  {
    if a == [] {
      assert a + b == b;
    } else {
      assert (a + b)[1..] == a[1..] + b;
      TotalsAppend(a[1..], b);
    }
  }

  /** Taking row `i` out of a list takes its member ids and its quantity out of
      the totals. */
  lemma TotalsRemove(b: seq<CutListItem>, i: nat)
    requires i < |b|
    ensures multiset(Flatten(b)) == multiset(b[i].pieces) + multiset(Flatten(b[..i] + b[i + 1..]))
    ensures SumQuantities(b) == b[i].quantity + SumQuantities(b[..i] + b[i + 1..])
  {
    var front, x, back := b[..i], b[i], b[i + 1..];
    var tail := [x] + back;
    assert b == front + tail;
    TotalsAppend(front, tail);
    TotalsAppend(front, back);
    assert tail[0] == x && tail[1..] == back;
    var ff, fb := Flatten(front), Flatten(back);
    assert Flatten(tail) == x.pieces + fb;
    assert Flatten(b) == ff + (x.pieces + fb);
    assert Flatten(front + back) == ff + fb;
    calc {
      multiset(Flatten(b));
      multiset(ff) + (multiset(x.pieces) + multiset(fb));
      multiset(x.pieces) + multiset(ff + fb);
    }
  }

  lemma RemoveOne(b: seq<CutListItem>, i: nat)
    requires i < |b|
    ensures multiset(b[..i] + b[i + 1..]) == multiset(b) - multiset{b[i]}
  {
    assert b == b[..i] + [b[i]] + b[i + 1..];
  }

  lemma {:induction false} TotalsPermutation(a: seq<CutListItem>, b: seq<CutListItem>)
    requires multiset(a) == multiset(b)
    ensures multiset(Flatten(a)) == multiset(Flatten(b))
    ensures SumQuantities(a) == SumQuantities(b)
    decreases |a|
  {
    if a == [] {
      assert |b| == |multiset(b)| == 0;
    } else {
      var x := a[0];
      assert x in multiset(b) by {
        assert x in multiset(a);
      }
      var i :| 0 <= i < |b| && b[i] == x;
      var b' := b[..i] + b[i + 1..];
      assert multiset(a[1..]) == multiset(b') by {
        RemoveOne(b, i);
        assert a == [x] + a[1..];
      }
      TotalsPermutation(a[1..], b');
      TotalsRemove(b, i);
    }
  }

  /** When every row's quantity counts its members, the quantities add up to the
      number of member ids. */
  lemma {:induction false} SumCountsMembers(items: seq<CutListItem>)
    requires forall it :: it in items ==> it.quantity == |it.pieces|
    ensures SumQuantities(items) == |Flatten(items)|
  {
    if items != [] {
      SumCountsMembers(items[1..]);
    }
  }

  // ---------------------------------------------------------------------------
  // The grouping: one row per key, rows partition the pieces.

  lemma {:induction false} MembersAppend(a: seq<Piece>, b: seq<Piece>, k: CutKey)
    ensures MembersWithKey(a + b, k) == MembersWithKey(a, k) + MembersWithKey(b, k)
  {
    if a == [] {
      assert a + b == b;
    } else {
      assert (a + b)[1..] == a[1..] + b;
      MembersAppend(a[1..], b, k);
    }
  }

  lemma {:induction false} IdsOfAppend(a: seq<Piece>, b: seq<Piece>)
    ensures IdsOf(a + b) == IdsOf(a) + IdsOf(b)
  {
    assert IdsOf(a + b) == IdsOf(a) + IdsOf(b);
  }

  lemma {:induction false} FirstNameSnoc(ps: seq<Piece>, p: Piece, k: CutKey)
    requires KeyOf(p) == k && MembersWithKey(ps, k) == []
    ensures FirstName(ps + [p], k) == p.lumber.name
  {
    if ps == [] {
    } else {
      assert ps[0] !in MembersWithKey(ps, k);
      assert MembersWithKey(ps[1..], k) == [];
      assert (ps + [p])[1..] == ps[1..] + [p];
      FirstNameSnoc(ps[1..], p, k);
    }
  }

  lemma {:induction false} FirstNameKept(ps: seq<Piece>, p: Piece, k: CutKey)
    requires MembersWithKey(ps, k) != []
    ensures FirstName(ps + [p], k) == FirstName(ps, k)
  {
    if KeyOf(ps[0]) != k {
      assert MembersWithKey(ps[1..], k) != [];
      assert (ps + [p])[1..] == ps[1..] + [p];
      FirstNameKept(ps[1..], p, k);
    }
  }

  /** A key is listed iff some piece carries it, and no key is listed twice. */
  lemma {:induction false} DistinctKeysSpec(ps: seq<Piece>)
    ensures forall k :: k in DistinctKeys(ps) <==> MembersWithKey(ps, k) != []
    ensures forall a, b :: 0 <= a < b < |DistinctKeys(ps)| ==> DistinctKeys(ps)[a] != DistinctKeys(ps)[b]
  {
    if ps != [] {
      var pre, p := ps[..|ps| - 1], ps[|ps| - 1];
      var ks, k0 := DistinctKeys(pre), KeyOf(p);
      DistinctKeysSpec(pre);
      assert DistinctKeys(ps) == if k0 in ks then ks else ks + [k0];
      assert ps == pre + [p];
      forall k ensures k in DistinctKeys(ps) <==> MembersWithKey(ps, k) != [] {
        MembersAppend(pre, [p], k);
        assert MembersWithKey([p], k) == if k0 == k then [p] else [] by {
          assert [p][1..] == [];
        }
      }
      if k0 !in ks {
        var d := ks + [k0];
        forall a, b | 0 <= a < b < |d| ensures d[a] != d[b] {
          assert d[a] == ks[a];
          if b < |ks| {
            assert d[b] == ks[b];
          } else {
            assert ks[a] in ks;
          }
        }
      }
    }
  }

  /** Keys keep their first-occurrence order as pieces are appended. */
  lemma {:induction false} DistinctKeysPrefix(a: seq<Piece>, b: seq<Piece>)
    ensures DistinctKeys(a) <= DistinctKeys(a + b)
    decreases |b|
  {
    if b == [] {
      assert a + b == a;
    } else {
      var b', last := b[..|b| - 1], b[|b| - 1];
      DistinctKeysPrefix(a, b');
      assert (a + b)[..|a + b| - 1] == a + b';
    }
  }

  /** How appending one piece changes the row for key `k`. */
  lemma {:induction false} ItemForSnoc(ps: seq<Piece>, p: Piece, k: CutKey)
    ensures ItemFor(ps + [p], k) ==
      if KeyOf(p) != k then ItemFor(ps, k)
      else if MembersWithKey(ps, k) != [] then
        ItemFor(ps, k).(quantity := ItemFor(ps, k).quantity + 1, pieces := ItemFor(ps, k).pieces + [p.id])
      else CutListItem(p.lumber.name, 1, k.length, [p.id])
  {
    var m := MembersWithKey(ps, k);
    var m' := MembersWithKey(ps + [p], k);
    var name := FirstName(ps + [p], k);
    assert ItemFor(ps + [p], k) == CutListItem(name, |m'|, k.length, IdsOf(m'));
    if KeyOf(p) != k {
      assert m' == m by {
        MembersAppend(ps, [p], k);
        assert [p][1..] == [];
      }
      if m != [] {
        FirstNameKept(ps, p, k);
      } else {
        FirstNameNone(ps + [p], k);
        FirstNameNone(ps, k);
      }
    } else {
      assert m' == m + [p] by {
        MembersAppend(ps, [p], k);
        assert [p][1..] == [];
      }
      assert IdsOf(m') == IdsOf(m) + [p.id] by {
        IdsOfAppend(m, [p]);
      }
      if m != [] {
        FirstNameKept(ps, p, k);
      } else {
        FirstNameSnoc(ps, p, k);
      }
    }
  }

  lemma {:induction false} FirstNameNone(ps: seq<Piece>, k: CutKey)
    requires MembersWithKey(ps, k) == []
    ensures FirstName(ps, k) == ""
  {
    if ps != [] {
      assert ps[0] !in MembersWithKey(ps, k);
      assert MembersWithKey(ps[1..], k) == [];
      FirstNameNone(ps[1..], k);
    }
  }

  /** The member ids of the row for `k` after appending `p`. */
  lemma {:induction false} MembersSnoc(ps: seq<Piece>, p: Piece, k: CutKey)
    ensures ItemFor(ps + [p], k).pieces == ItemFor(ps, k).pieces + (if KeyOf(p) == k then [p.id] else [])
  {
    var m, mp := MembersWithKey(ps, k), if KeyOf(p) == k then [p] else [];
    assert MembersWithKey(ps + [p], k) == m + mp by {
      MembersAppend(ps, [p], k);
      assert [p][1..] == [];
    }
    assert IdsOf(m + mp) == IdsOf(m) + IdsOf(mp) by {
      IdsOfAppend(m, mp);
    }
    assert IdsOf(mp) == if KeyOf(p) == k then [p.id] else [];
  }

  /** Replacing one row by a row with one more member id adds that id to the
      member ids of all rows. */
  lemma FlattenBump(r: seq<CutListItem>, j: nat, x: CutListItem, id: string)
    requires j < |r| && x.pieces == r[j].pieces + [id]
    ensures multiset(Flatten(r[j := x])) == multiset(Flatten(r)) + multiset{id}
  {
    var front, back := r[..j], r[j + 1..];
    assert r == front + ([r[j]] + back);
    assert r[j := x] == front + ([x] + back);
    TotalsAppend(front, [r[j]] + back);
    TotalsAppend(front, [x] + back);
    assert ([r[j]] + back)[1..] == back;
    assert ([x] + back)[1..] == back;
  }

  /** Rows for keys other than the new piece's key do not change. */
  lemma ItemsUnaffected(ps: seq<Piece>, p: Piece, keys: seq<CutKey>)
    requires KeyOf(p) !in keys
    ensures ItemsFor(ps + [p], keys) == ItemsFor(ps, keys)
  {
    var r, r' := ItemsFor(ps, keys), ItemsFor(ps + [p], keys);
    forall i | 0 <= i < |keys| ensures r'[i] == r[i] {
      ItemForSnoc(ps, p, keys[i]);
    }
  }

  /** With distinct keys, appending a piece adds its id to the rows exactly when
      its key is listed. */
  lemma RowsSnoc(ps: seq<Piece>, p: Piece, keys: seq<CutKey>)
    requires forall a, b :: 0 <= a < b < |keys| ==> keys[a] != keys[b]
    ensures multiset(Flatten(ItemsFor(ps + [p], keys)))
         == multiset(Flatten(ItemsFor(ps, keys))) + (if KeyOf(p) in keys then multiset{p.id} else multiset{})
  {
    var k := KeyOf(p);
    if k in keys {
      var j :| 0 <= j < |keys| && keys[j] == k;
      var r, r' := ItemsFor(ps, keys), ItemsFor(ps + [p], keys);
      var x := ItemFor(ps + [p], k);
      MembersSnoc(ps, p, k);
      forall i | 0 <= i < |keys| ensures r'[i] == r[j := x][i] {
        if i != j {
          assert keys[i] != k;
          ItemForSnoc(ps, p, keys[i]);
        }
      }
      assert r' == r[j := x];
      FlattenBump(r, j, x, p.id);
    } else {
      ItemsUnaffected(ps, p, keys);
    }
  }

  /** Every row counts its own members, and no row is empty. */
  lemma {:induction false} GroupedRows(ps: seq<Piece>)
    ensures forall it :: it in Grouped(ps) ==> it.quantity == |it.pieces| && it.quantity > 0
  {
    DistinctKeysSpec(ps);
    var g := Grouped(ps);
    forall it | it in g ensures it.quantity == |it.pieces| && it.quantity > 0 {
      var j :| 0 <= j < |g| && g[j] == it;
      var k := DistinctKeys(ps)[j];
      assert it == ItemFor(ps, k);
      assert k in DistinctKeys(ps);
    }
  }

  /** Appending a piece adds its id to the members of exactly one row. */
  lemma FlattenSnoc(r: seq<CutListItem>, y: CutListItem)
    ensures Flatten(r + [y]) == Flatten(r) + y.pieces
  {
    TotalsAppend(r, [y]);
    assert [y][0] == y && [y][1..] == [];
    assert Flatten([y]) == y.pieces + [];
  }

  lemma ItemsForSnocKey(ps: seq<Piece>, keys: seq<CutKey>, k: CutKey)
    ensures ItemsFor(ps, keys + [k]) == ItemsFor(ps, keys) + [ItemFor(ps, k)]
  {
    var r, r' := ItemsFor(ps, keys), ItemsFor(ps, keys + [k]);
    forall i | 0 <= i < |keys| + 1 ensures r'[i] == (r + [ItemFor(ps, k)])[i] {
      assert (keys + [k])[i] == if i < |keys| then keys[i] else k;
    }
  }

  lemma GroupedSnoc(pre: seq<Piece>, p: Piece)
    ensures multiset(Flatten(Grouped(pre + [p]))) == multiset(Flatten(Grouped(pre))) + multiset{p.id}
  {
    var ps := pre + [p];
    var keys, k := DistinctKeys(pre), KeyOf(p);
    assert ps[..|ps| - 1] == pre;
    assert DistinctKeys(ps) == if k in keys then keys else keys + [k];
    var front := ItemsFor(ps, keys);
    assert multiset(Flatten(front))
        == multiset(Flatten(Grouped(pre))) + (if k in keys then multiset{p.id} else multiset{}) by {
      DistinctKeysSpec(pre);
      RowsSnoc(pre, p, keys);
    }
    if k in keys {
      assert Grouped(ps) == front;
    } else {
      assert ItemFor(ps, k).pieces == [p.id] by {
        DistinctKeysSpec(pre);
        MembersSnoc(pre, p, k);
        assert MembersWithKey(pre, k) == [];
      }
      calc {
        multiset(Flatten(Grouped(ps)));
        { ItemsForSnocKey(ps, keys, k); }
        multiset(Flatten(front + [ItemFor(ps, k)]));
        { FlattenSnoc(front, ItemFor(ps, k)); }
        multiset(Flatten(front) + [p.id]);
        multiset(Flatten(Grouped(pre))) + multiset{p.id};
      }
    }
  }

  /** Together the rows' member lists hold every piece id exactly as often as the
      piece list does. */
  lemma {:induction false} GroupedMembers(ps: seq<Piece>)
    ensures multiset(Flatten(Grouped(ps))) == multiset(IdsOf(ps))
  {
    if ps != [] {
      var pre, p := ps[..|ps| - 1], ps[|ps| - 1];
      assert ps == pre + [p];
      calc {
        multiset(Flatten(Grouped(ps)));
        { GroupedSnoc(pre, p); }
        multiset(Flatten(Grouped(pre))) + multiset{p.id};
        { GroupedMembers(pre); }
        multiset(IdsOf(pre)) + multiset{p.id};
        multiset(IdsOf(pre) + [p.id]);
        { IdsOfAppend(pre, [p]); assert IdsOf([p]) == [p.id]; }
        multiset(IdsOf(ps));
      }
    }
  }

  /** The quantities add up to the number of pieces. */
  lemma {:induction false} GroupedCount(ps: seq<Piece>)
    ensures SumQuantities(Grouped(ps)) == |ps|
  {
    GroupedRows(ps);
    GroupedMembers(ps);
    SumCountsMembers(Grouped(ps));
    assert |multiset(Flatten(Grouped(ps)))| == |multiset(IdsOf(ps))|;
  }

  // ---------------------------------------------------------------------------
  // What `getCutList` promises.

  /** The cut list holds the grouped rows, reordered: together the rows' member lists
      hold every piece id exactly as often as the piece list does, each row counts its
      own (non-empty) member list, and the quantities add up to the number of pieces. */
  lemma {:induction false} CutListTotals(ps: seq<Piece>, le: (string, string) -> bool)
    ensures multiset(CutList(ps, le)) == multiset(Grouped(ps))
    ensures |CutList(ps, le)| == |DistinctKeys(ps)|
    ensures multiset(Flatten(CutList(ps, le))) == multiset(IdsOf(ps))
    ensures SumQuantities(CutList(ps, le)) == |ps|
    ensures forall it :: it in CutList(ps, le) ==> it.quantity == |it.pieces| && it.quantity > 0
  {
    var g, out := Grouped(ps), CutList(ps, le);
    TotalsPermutation(out, g);
    GroupedMembers(ps);
    GroupedCount(ps);
    GroupedRows(ps);
    forall it | it in out ensures it.quantity == |it.pieces| && it.quantity > 0 {
      assert it in multiset(g);
    }
  }

  /** One row per distinct key: every row is the row of some key that occurs, and the
      row of every piece's key is in the list. */
  lemma {:induction false} CutListRows(ps: seq<Piece>, le: (string, string) -> bool)
    ensures forall it :: it in CutList(ps, le) ==> exists k :: k in DistinctKeys(ps) && it == ItemFor(ps, k)
    ensures forall i :: 0 <= i < |ps| ==> ItemFor(ps, KeyOf(ps[i])) in CutList(ps, le)
  {
    var g, out := Grouped(ps), CutList(ps, le);
    assert multiset(out) == multiset(g);
    forall it | it in out ensures exists k :: k in DistinctKeys(ps) && it == ItemFor(ps, k) {
      assert it in multiset(g);
      var j :| 0 <= j < |g| && g[j] == it;
      assert DistinctKeys(ps)[j] in DistinctKeys(ps);
    }
    DistinctKeysSpec(ps);
    forall i | 0 <= i < |ps| ensures ItemFor(ps, KeyOf(ps[i])) in out {
      var k := KeyOf(ps[i]);
      assert ps[i] in MembersWithKey(ps, k);
      assert k in DistinctKeys(ps);
      var j :| 0 <= j < |DistinctKeys(ps)| && DistinctKeys(ps)[j] == k;
      assert g[j] == ItemFor(ps, k);
      assert g[j] in multiset(out);
    }
  }

  /** A key that occurs is named after a piece that carries it. */
  lemma {:induction false} FirstNameMember(ps: seq<Piece>, k: CutKey)
    requires MembersWithKey(ps, k) != []
    ensures exists f :: f in ps && KeyOf(f) == k && f.lumber.name == FirstName(ps, k)
  {
    if KeyOf(ps[0]) == k {
      assert ps[0] in ps;
    } else {
      assert MembersWithKey(ps[1..], k) != [];
      FirstNameMember(ps[1..], k);
      var f :| f in ps[1..] && KeyOf(f) == k && f.lumber.name == FirstName(ps[1..], k);
      assert f in ps;
    }
  }

  /** Every id a row of the cut list lists is the id of a piece of the row's length,
      and the row is named after a piece of the same profile id and length. */
  lemma {:induction false} RowMembers(ps: seq<Piece>, le: (string, string) -> bool, row: CutListItem, id: string)
    requires row in CutList(ps, le) && id in row.pieces
    ensures exists q ::
      && q in ps && q.id == id && EffectiveLength(q) == row.length
      && exists f :: f in ps && f.lumber.id == q.lumber.id && EffectiveLength(f) == row.length
                     && f.lumber.name == row.lumberType
  {
    CutListRows(ps, le);
    var k :| k in DistinctKeys(ps) && row == ItemFor(ps, k);
    var m := MembersWithKey(ps, k);
    var i :| 0 <= i < |m| && IdsOf(m)[i] == id;
    var q := m[i];
    assert q in m;
    FirstNameMember(ps, k);
    var f :| f in ps && KeyOf(f) == k && f.lumber.name == FirstName(ps, k);
    assert q in ps && q.id == id && EffectiveLength(q) == row.length;
  }

  /** With unique piece ids, every piece id occurs exactly once among all rows. */
  lemma {:induction false} CutListUniqueIds(ps: seq<Piece>, le: (string, string) -> bool)
    requires UniqueIds(ps)
    ensures forall i :: 0 <= i < |ps| ==> multiset(Flatten(CutList(ps, le)))[ps[i].id] == 1
  {
    CutListTotals(ps, le);
    forall i | 0 <= i < |ps| ensures multiset(IdsOf(ps))[ps[i].id] == 1 {
      UniqueIdCount(ps, i);
    }
  }

  lemma {:induction false} UniqueIdCount(ps: seq<Piece>, i: nat)
    requires UniqueIds(ps) && i < |ps|
    ensures multiset(IdsOf(ps))[ps[i].id] == 1
  {
    var ids, id := IdsOf(ps), ps[i].id;
    var front, back := ids[..i], ids[i + 1..];
    assert ids == front + [id] + back;
    assert id !in front by {
      forall j | 0 <= j < |front| ensures front[j] != id {
        assert front[j] == ps[j].id;
      }
    }
    assert id !in back by {
      forall j | 0 <= j < |back| ensures back[j] != id {
        assert back[j] == ps[i + 1 + j].id;
      }
    }
    assert multiset(ids) == multiset(front) + multiset{id} + multiset(back);
  }

  /** Rows come out in non-decreasing name order, and rows whose names rank equal keep
      their first-occurrence order. */
  lemma {:induction false} CutListOrder(ps: seq<Piece>, le: (string, string) -> bool)
    requires TotalPreorder(le)
    ensures SortedByName(CutList(ps, le), le)
    ensures forall name :: RankClass(CutList(ps, le), le, name) == RankClass(Grouped(ps), le, name)
  {
    SortSorted(Grouped(ps), le);
    forall name ensures RankClass(CutList(ps, le), le, name) == RankClass(Grouped(ps), le, name) {
      SortStable(Grouped(ps), le, name);
    }
  }

  // ---------------------------------------------------------------------------
  // The insertion-ordered `Map<string, CutListItem>` the source builds the rows in.

  datatype Entry = Entry(key: CutKey, item: CutListItem)

  /** The map's entries after the pieces `ps` have been visited. */
  function EntriesFor(ps: seq<Piece>, keys: seq<CutKey>): (r: seq<Entry>)
    ensures |r| == |keys|
    ensures forall j :: 0 <= j < |keys| ==> r[j] == Entry(keys[j], ItemFor(ps, keys[j]))
  {
    if keys == [] then [] else [Entry(keys[0], ItemFor(ps, keys[0]))] + EntriesFor(ps, keys[1..])
  }

  /** `cutMap.values()` */
  function Values(es: seq<Entry>): (r: seq<CutListItem>)
    ensures |r| == |es|
    ensures forall j :: 0 <= j < |es| ==> r[j] == es[j].item
  {
    if es == [] then [] else [es[0].item] + Values(es[1..])
  }

  /** `cutMap.has(key)` / `cutMap.get(key)`: the entry's position, or `|es|` when absent. */
  function IndexOfKey(es: seq<Entry>, k: CutKey): (j: nat)
    ensures j <= |es|
    ensures j < |es| ==> es[j].key == k
    ensures j == |es| <==> forall i :: 0 <= i < |es| ==> es[i].key != k
  {
    if es == [] then 0
    else if es[0].key == k then 0
    else 1 + IndexOfKey(es[1..], k)
  }

  lemma {:induction false} ValuesOfEntries(ps: seq<Piece>)
    ensures Values(EntriesFor(ps, DistinctKeys(ps))) == Grouped(ps)
  {
  }

  /** A key the map does not hold is not among the keys seen so far. */
  lemma {:induction false} KeyAbsent(ps: seq<Piece>, k: CutKey)
    requires IndexOfKey(EntriesFor(ps, DistinctKeys(ps)), k) == |DistinctKeys(ps)|
    ensures k !in DistinctKeys(ps)
  {
    var keys := DistinctKeys(ps);
    var es := EntriesFor(ps, keys);
    forall n | 0 <= n < |keys| ensures keys[n] != k {
      assert es[n].key == keys[n];
    }
  }

  /** Bumping the entry of a key already present. */
  function Bumped(es: seq<Entry>, j: nat, p: Piece): (r: seq<Entry>)
    requires j < |es|
    ensures |r| == |es|
  {
    es[j := Entry(es[j].key, es[j].item.(quantity := es[j].item.quantity + 1, pieces := es[j].item.pieces + [p.id]))]
  }

  /** The entry a piece with a key not seen before opens. */
  function Opened(p: Piece): Entry {
    Entry(KeyOf(p), CutListItem(p.lumber.name, 1, EffectiveLength(p), [p.id]))
  }

  /** Two positions of the key list hold different keys. */
  lemma KeysDistinctAt(ps: seq<Piece>, a: nat, b: nat)
    requires a < |DistinctKeys(ps)| && b < |DistinctKeys(ps)| && a != b
    ensures DistinctKeys(ps)[a] != DistinctKeys(ps)[b]
  {
    DistinctKeysSpec(ps);
    if b < a {
      assert DistinctKeys(ps)[b] != DistinctKeys(ps)[a];
    }
  }

  lemma {:induction false} EntriesSnocFound(pre: seq<Piece>, p: Piece, j: nat)
    requires j < |DistinctKeys(pre)| && EntriesFor(pre, DistinctKeys(pre))[j].key == KeyOf(p)
    ensures EntriesFor(pre + [p], DistinctKeys(pre + [p])) == Bumped(EntriesFor(pre, DistinctKeys(pre)), j, p)
  {
    var ps := pre + [p];
    var keys, k := DistinctKeys(pre), KeyOf(p);
    var es := EntriesFor(pre, keys);
    assert keys[j] == k by {
      assert es[j] == Entry(keys[j], ItemFor(pre, keys[j]));
    }
    assert DistinctKeys(ps) == keys by {
      assert ps[..|ps| - 1] == pre;
      assert keys[j] in keys;
    }
    assert MembersWithKey(pre, k) != [] by {
      DistinctKeysSpec(pre);
      assert keys[j] in keys;
    }
    var r := EntriesFor(ps, keys);
    var expected := Bumped(es, j, p);
    forall i | 0 <= i < |keys| ensures r[i] == expected[i] {
      ItemForSnoc(pre, p, keys[i]);
      if i != j {
        KeysDistinctAt(pre, i, j);
      }
    }
    assert r == expected;
  }

  lemma {:induction false} EntriesSnocNew(pre: seq<Piece>, p: Piece)
    requires KeyOf(p) !in DistinctKeys(pre)
    ensures EntriesFor(pre + [p], DistinctKeys(pre + [p])) == EntriesFor(pre, DistinctKeys(pre)) + [Opened(p)]
  {
    var ps := pre + [p];
    assert ps[..|ps| - 1] == pre;
    var keys := DistinctKeys(pre);
    var k := KeyOf(p);
    DistinctKeysSpec(pre);
    assert DistinctKeys(ps) == keys + [k];
    var r := EntriesFor(ps, keys + [k]);
    var expected := EntriesFor(pre, keys) + [Opened(p)];
    forall i | 0 <= i < |keys| + 1 ensures r[i] == expected[i] {
      if i < |keys| {
        ItemForSnoc(pre, p, keys[i]);
        assert keys[i] != k by { assert keys[i] in keys; }
      } else {
        ItemForSnoc(pre, p, k);
      }
    }
    assert r == expected;
  }
}
