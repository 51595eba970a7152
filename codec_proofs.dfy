/** What `parseInput` accepts and rejects, what it builds, and the
    print/parse round trip. */
module CodecProofs {
  import opened Wrappers
  import opened Geometry
  import opened Text
  import opened Board
  import opened Codec

  predicate InGrid(rows: seq<seq<string>>, cx: int, cy: int)
    requires Rectangular(rows)
  {
    0 <= cx < |rows[0]| && 0 <= cy < |rows|
  }

  /** The actor the token of a cell declares, if it declares a well-formed one. */
  function DeclaredActor(rows: seq<seq<string>>, cx: int, cy: int): Option<Actor>
    requires Rectangular(rows) && DigitsReadable(rows) && InGrid(rows, cx, cy)
  {
    var t := ReadTag(rows[cy][cx], cx, cy);
    if t.Ok? then t.value else None
  }

  /** `a` is the actor declared by the token at its own position. */
  predicate DeclaredAt(rows: seq<seq<string>>, a: Actor)
    requires Rectangular(rows) && DigitsReadable(rows)
  {
    InGrid(rows, a.x, a.y) && DeclaredActor(rows, a.x, a.y) == Some(a)
  }

  /** The tag of the cell raises an error. */
  predicate BadCell(rows: seq<seq<string>>, cx: int, cy: int)
    requires Rectangular(rows) && DigitsReadable(rows) && InGrid(rows, cx, cy)
  {
    ReadTag(rows[cy][cx], cx, cy).Err?
  }

  /** The scan from `(x, y)` keeps `acc` and appends exactly the actors
      declared at or after `(x, y)`, in visiting order. */
  lemma {:induction false} ScanFromMembers(rows: seq<seq<string>>, x: nat, y: nat, acc: seq<Actor>)
    requires Rectangular(rows) && DigitsReadable(rows)
    requires x <= |rows[0]| && y <= |rows|
    requires ScanFrom(rows, x, y, acc).Ok?
    ensures var r := ScanFrom(rows, x, y, acc).value;
      |acc| <= |r| && r[..|acc|] == acc &&
      (forall k :: |acc| <= k < |r| ==> DeclaredAt(rows, r[k]) && !CellBefore(r[k].x, r[k].y, x, y)) &&
      (forall i, j :: |acc| <= i < j < |r| ==> CellBefore(r[i].x, r[i].y, r[j].x, r[j].y))
    ensures forall cx, cy :: InGrid(rows, cx, cy) && !CellBefore(cx, cy, x, y) && DeclaredActor(rows, cx, cy).Some? ==>
      DeclaredActor(rows, cx, cy).value in ScanFrom(rows, x, y, acc).value[|acc|..]
    decreases |rows[0]| - x, |rows| - y
  {
    if x == |rows[0]| {
    } else if y == |rows| {
      ScanFromMembers(rows, x + 1, 0, acc);
    } else {
      match ReadTag(rows[y][x], x, y)
      case Ok(None) =>
        ScanFromMembers(rows, x, y + 1, acc);
      case Ok(Some(a)) =>
        var r := ScanFrom(rows, x, y, acc).value;
        ScanFromMembers(rows, x, y + 1, acc + [a]);
        assert r[..|acc| + 1] == acc + [a];
        assert r[..|acc|] == acc;
        assert r[|acc|] == a;
        assert DeclaredActor(rows, x, y) == Some(a);
        assert r[|acc|..] == [a] + r[|acc| + 1..];
    }
  }

  /** The scan from `(x, y)` fails exactly when some cell at or after
      `(x, y)` holds a bad tag, and then with the error of the first one. */
  lemma {:induction false} ScanFromErrors(rows: seq<seq<string>>, x: nat, y: nat, acc: seq<Actor>)
    requires Rectangular(rows) && DigitsReadable(rows)
    requires x <= |rows[0]| && y <= |rows|
    ensures ScanFrom(rows, x, y, acc).Ok? <==>
      forall cx, cy :: InGrid(rows, cx, cy) && !CellBefore(cx, cy, x, y) ==> !BadCell(rows, cx, cy)
    ensures ScanFrom(rows, x, y, acc).Err? ==>
      exists cx, cy :: InGrid(rows, cx, cy) && !CellBefore(cx, cy, x, y) &&
        ReadTag(rows[cy][cx], cx, cy) == Err(ScanFrom(rows, x, y, acc).error) &&
        forall px, py :: InGrid(rows, px, py) && !CellBefore(px, py, x, y) && CellBefore(px, py, cx, cy) ==>
          !BadCell(rows, px, py)
    decreases |rows[0]| - x, |rows| - y
  {
    if x == |rows[0]| {
    } else if y == |rows| {
      ScanFromErrors(rows, x + 1, 0, acc);
    } else {
      match ReadTag(rows[y][x], x, y)
      case Err(e) =>
        assert BadCell(rows, x, y);
        assert InGrid(rows, x, y) && !CellBefore(x, y, x, y) && ReadTag(rows[y][x], x, y) == Err(e);
      case Ok(None) =>
        ScanFromErrors(rows, x, y + 1, acc);
      case Ok(Some(a)) =>
        ScanFromErrors(rows, x, y + 1, acc + [a]);
    }
  }

  /** Two different cells declare actors with the same order. */
  ghost predicate DuplicateOrders(rows: seq<seq<string>>)
    requires Rectangular(rows) && DigitsReadable(rows)
  {
    exists x1, y1, x2, y2 :: InGrid(rows, x1, y1) && InGrid(rows, x2, y2) && (x1 != x2 || y1 != y2) &&
      DeclaredActor(rows, x1, y1).Some? && DeclaredActor(rows, x2, y2).Some? &&
      DeclaredActor(rows, x1, y1).value.order == DeclaredActor(rows, x2, y2).value.order
  }

  /** An empty sequence of rows is the only cause of `'no rows'`, and ragged
      rows the only cause of `'not rectangular'`. */
  lemma ParseShapeErrors(rows: seq<seq<string>>)
    requires DigitsReadable(rows)
    ensures Parse(rows) == Err("no rows") <==> |rows| == 0
    ensures |rows| > 0 ==> (Parse(rows) == Err("not rectangular") <==> !Rectangular(rows))
  {
    if Rectangular(rows) {
      ScanFromErrors(rows, 0, 0, []);
      var scan := ScanFrom(rows, 0, 0, []);
      if scan.Err? {
        var cx, cy :| InGrid(rows, cx, cy) && ReadTag(rows[cy][cx], cx, cy) == Err(scan.error);
        TagErrorMessages(rows[cy][cx], cx, cy);
      }
    }
  }

  /** The messages a tag can raise. */
  lemma TagErrorMessages(tok: string, x: int, y: int)
    requires HexFields(tok) && ReadTag(tok, x, y).Err?
    ensures ReadTag(tok, x, y).error in {"malformed player tag", "malformed target tag", "malformed enemy tag",
                                         "player face invalid", "enemy face invalid"}
  {
  }

  /** A p/t/e token whose length is not 4 raises the malformed-tag error of
      its type; a 4-character one with a facing outside `nesw` raises the
      face error (the player's message for a target). */
  lemma TagErrors(tok: string, x: int, y: int)
    requires HexFields(tok) && IsTag(tok)
    ensures |tok| != 4 ==> ReadTag(tok, x, y) == Err(MalformedMessage(KindOf(tok[0]).value))
    ensures |tok| == 4 && tok[2] !in "nesw" ==> ReadTag(tok, x, y) == Err(FaceMessage(KindOf(tok[0]).value))
    ensures |tok| == 4 && tok[2] in "nesw" ==> ReadTag(tok, x, y).Ok? && ReadTag(tok, x, y).value.Some?
  {
  }

  /** A bad tag anywhere makes the parse fail, with the error of the first
      bad cell in column-by-column order. */
  lemma ParseBadTag(rows: seq<seq<string>>)
    requires DigitsReadable(rows) && Rectangular(rows)
    requires exists cx, cy :: InGrid(rows, cx, cy) && BadCell(rows, cx, cy)
    ensures Parse(rows).Err?
    ensures exists cx, cy :: InGrid(rows, cx, cy) && ReadTag(rows[cy][cx], cx, cy) == Err(Parse(rows).error) &&
              (forall px, py :: InGrid(rows, px, py) && CellBefore(px, py, cx, cy) ==> !BadCell(rows, px, py))
  {
    ScanFromErrors(rows, 0, 0, []);
  }

  /** With well-formed tags, the parse fails exactly when two cells declare
      the same order, and then with `'order must be unique'`. */
  lemma ParseDuplicateOrder(rows: seq<seq<string>>)
    requires DigitsReadable(rows) && Rectangular(rows)
    requires forall cx, cy :: InGrid(rows, cx, cy) ==> !BadCell(rows, cx, cy)
    ensures Parse(rows).Err? <==> DuplicateOrders(rows)
    ensures Parse(rows).Err? ==> Parse(rows).error == "order must be unique"
  {
    ScanFromErrors(rows, 0, 0, []);
    ScanFromMembers(rows, 0, 0, []);
    var found := ScanFrom(rows, 0, 0, []).value;
    if !UniqueOrders(found) {
      RepeatedOrderIsDuplicate(rows, found);
    }
    if DuplicateOrders(rows) {
      DuplicateIsRepeatedOrder(rows, found);
    }
  }

  lemma RepeatedOrderIsDuplicate(rows: seq<seq<string>>, found: seq<Actor>)
    requires DigitsReadable(rows) && Rectangular(rows)
    requires forall k :: 0 <= k < |found| ==> DeclaredAt(rows, found[k])
    requires forall i, j :: 0 <= i < j < |found| ==> CellBefore(found[i].x, found[i].y, found[j].x, found[j].y)
    requires !UniqueOrders(found)
    ensures DuplicateOrders(rows)
  {
    var i, j :| 0 <= i < |found| && 0 <= j < |found| && i != j && found[i].order == found[j].order;
    if i < j {
      assert CellBefore(found[i].x, found[i].y, found[j].x, found[j].y);
    } else {
      assert CellBefore(found[j].x, found[j].y, found[i].x, found[i].y);
    }
    assert DeclaredAt(rows, found[i]) && DeclaredAt(rows, found[j]);
  }

  lemma DuplicateIsRepeatedOrder(rows: seq<seq<string>>, found: seq<Actor>)
    requires DigitsReadable(rows) && Rectangular(rows)
    requires forall cx, cy :: InGrid(rows, cx, cy) && DeclaredActor(rows, cx, cy).Some? ==>
      DeclaredActor(rows, cx, cy).value in found
    requires DuplicateOrders(rows)
    ensures !UniqueOrders(found)
  {
    var x1, y1, x2, y2 :| InGrid(rows, x1, y1) && InGrid(rows, x2, y2) && (x1 != x2 || y1 != y2) &&
      DeclaredActor(rows, x1, y1).Some? && DeclaredActor(rows, x2, y2).Some? &&
      DeclaredActor(rows, x1, y1).value.order == DeclaredActor(rows, x2, y2).value.order;
    var a1, a2 := DeclaredActor(rows, x1, y1).value, DeclaredActor(rows, x2, y2).value;
    assert IsAt(a1, x1, y1) && IsAt(a2, x2, y2);
    var k1 :| 0 <= k1 < |found| && found[k1] == a1;
    var k2 :| 0 <= k2 < |found| && found[k2] == a2;
    assert k1 != k2;
  }

  /** What an accepted input yields: the grid read column by column with
      `empty` under every actor. */
  lemma ParseGrid(rows: seq<seq<string>>)
    requires DigitsReadable(rows)
    requires Parse(rows).Ok?
    ensures Rectangular(rows)
    ensures var m := Parse(rows).value;
      m.width == |rows[0]| && m.height == |rows| && ValidGrid(m) &&
      (forall cx, cy :: InGrid(rows, cx, cy) ==> m.grid[cx][cy] == CellOf(rows[cy][cx])) &&
      (forall cx, cy :: InGrid(rows, cx, cy) && IsTag(rows[cy][cx]) ==> m.grid[cx][cy] == Empty)
  {
  }

  /** What an accepted input yields: exactly the declared actors, strictly
      ascending by order, each inside the grid. */
  lemma ParseActors(rows: seq<seq<string>>)
    requires DigitsReadable(rows)
    requires Parse(rows).Ok?
    ensures Rectangular(rows)
    ensures var m := Parse(rows).value;
      StrictlyAscending(m.actors) &&
      (forall k :: 0 <= k < |m.actors| ==> DeclaredAt(rows, m.actors[k]) && InBounds(m, m.actors[k].x, m.actors[k].y)) &&
      (forall cx, cy :: InGrid(rows, cx, cy) && DeclaredActor(rows, cx, cy).Some? ==> DeclaredActor(rows, cx, cy).value in m.actors)
  {
    var m := Parse(rows).value;
    var found := ScanFrom(rows, 0, 0, []).value;
    ScanFromMembers(rows, 0, 0, []);
    assert multiset(m.actors) == multiset(found);
    forall k | 0 <= k < |m.actors| ensures DeclaredAt(rows, m.actors[k]) {
      assert m.actors[k] in multiset(found);
      var i :| 0 <= i < |found| && found[i] == m.actors[k];
    }
    forall cx, cy | InGrid(rows, cx, cy) && DeclaredActor(rows, cx, cy).Some?
      ensures DeclaredActor(rows, cx, cy).value in m.actors
    {
      assert found[0..] == found;
      assert DeclaredActor(rows, cx, cy).value in multiset(found);
    }
  }

  /** An accepted map starts with every actor on a cell of its own, inside
      the grid and off the blocks. */
  lemma ParseSeparated(rows: seq<seq<string>>)
    requires DigitsReadable(rows)
    requires Parse(rows).Ok?
    ensures ValidGrid(Parse(rows).value) && Separated(Parse(rows).value)
  {
    ParseGrid(rows);
    ParseActors(rows);
    var m := Parse(rows).value;
    forall i | 0 <= i < |m.actors|
      ensures m.grid[m.actors[i].x][m.actors[i].y] != Block
    {
      var a := m.actors[i];
      assert DeclaredAt(rows, a);
      assert IsTag(rows[a.y][a.x]);
    }
    forall i, j | 0 <= i < j < |m.actors|
      ensures !SameCell(m.actors[i], m.actors[j])
    {
      assert m.actors[i].order < m.actors[j].order;
      assert DeclaredAt(rows, m.actors[i]) && DeclaredAt(rows, m.actors[j]);
    }
  }

  // ---------------------------------------------------------------------
  // The print/parse round trip

  /** A map whose printed text `parseInput` reads back: a grid of at least
      one row, unique orders, and every order and health a single decimal
      digit (`printMap` writes decimal, `parseInput` reads one hex digit). */
  predicate Printable(m: Map)
  {
    ValidGrid(m) && m.height >= 1 && UniqueOrders(m.actors) &&
    forall k :: 0 <= k < |m.actors| ==> 0 <= m.actors[k].order < 10 && 0 <= m.actors[k].health < 10
  }

  /** A printed actor tag reads back as the same actor. */
  lemma ReadActorToken(a: Actor)
    requires 0 <= a.order < 10 && 0 <= a.health < 10
    ensures IsTag(ActorToken(a)) && HexFields(ActorToken(a))
    ensures ReadTag(ActorToken(a), a.x, a.y) == Ok(Some(a))
  {
    var tok := ActorToken(a);
    assert tok == [KindChar(a.kind), DigitChar(a.order), FaceChar(a.face), DigitChar(a.health)];
    CharsRoundTrip(a.kind, a.face);
  }

  /** A printed terrain letter reads back as the same terrain and no actor. */
  lemma ReadTerrainToken(c: Cell, x: int, y: int)
    ensures !IsTag(TerrainToken(c)) && HexFields(TerrainToken(c))
    ensures ReadTag(TerrainToken(c), x, y) == Ok(None) && CellOf(TerrainToken(c)) == c
  {
  }

  /** The printed token of each cell reads back as that cell's first actor,
      or as its terrain. */
  lemma ReadPrintedCell(m: Map, x: int, y: int)
    requires Printable(m) && InBounds(m, x, y)
    ensures HexFields(TokenAt(m, x, y))
    ensures ActorAt(m.actors, x, y).Some? ==> ReadTag(TokenAt(m, x, y), x, y) == Ok(Some(m.actors[ActorAt(m.actors, x, y).value]))
    ensures ActorAt(m.actors, x, y).None? ==> ReadTag(TokenAt(m, x, y), x, y) == Ok(None) && CellOf(TokenAt(m, x, y)) == m.grid[x][y]
  {
    match ActorAt(m.actors, x, y)
    case Some(i) => ReadActorToken(m.actors[i]);
    case None => ReadTerrainToken(m.grid[x][y], x, y);
  }

  /** Printing a printable map, parsing its tokens and printing again gives
      the same text. */
  lemma RoundTrip(m: Map)
    requires Printable(m)
    ensures DigitsReadable(RenderRows(m))
    ensures Parse(RenderRows(m)).Ok?
    ensures ValidGrid(Parse(RenderRows(m)).value)
    ensures RenderRows(Parse(RenderRows(m)).value) == RenderRows(m)
    ensures Render(Parse(RenderRows(m)).value) == Render(m)
  {
    var rows := RenderRows(m);
    forall y, x | 0 <= y < |rows| && 0 <= x < |rows[y]| ensures HexFields(rows[y][x]) {
      ReadPrintedCell(m, x, y);
    }
    assert Rectangular(rows);
    forall cx, cy | InGrid(rows, cx, cy)
      ensures !BadCell(rows, cx, cy)
      ensures DeclaredActor(rows, cx, cy) == (if ActorAt(m.actors, cx, cy).Some? then Some(m.actors[ActorAt(m.actors, cx, cy).value]) else None)
    {
      ReadPrintedCell(m, cx, cy);
    }
    NoDuplicatePrinted(m, rows);
    ParseDuplicateOrder(rows);
    ParseGrid(rows);
    ParseActors(rows);
    var back := Parse(rows).value;
    forall y, x | 0 <= y < m.height && 0 <= x < m.width
      ensures TokenAt(back, x, y) == TokenAt(m, x, y)
    {
      ReadPrintedCell(m, x, y);
      SameCellToken(m, rows, back, x, y);
    }
    SameTokensSameRows(back, m);
  }

  /** Two maps of the same size print the same rows when every cell prints
      the same token. */
  lemma SameTokensSameRows(m1: Map, m2: Map)
    requires ValidGrid(m1) && ValidGrid(m2) && m1.width == m2.width && m1.height == m2.height
    requires forall y, x :: 0 <= y < m1.height && 0 <= x < m1.width ==> TokenAt(m1, x, y) == TokenAt(m2, x, y)
    ensures RenderRows(m1) == RenderRows(m2)
  {
    var r1, r2 := RenderRows(m1), RenderRows(m2);
    forall y | 0 <= y < m1.height ensures r1[y] == r2[y] {
      assert |r1[y]| == |r2[y]|;
      forall x | 0 <= x < m1.width ensures r1[y][x] == r2[y][x] {
      }
    }
  }

  lemma NoDuplicatePrinted(m: Map, rows: seq<seq<string>>)
    requires Printable(m) && rows == RenderRows(m) && Rectangular(rows) && DigitsReadable(rows)
    requires forall cx, cy :: InGrid(rows, cx, cy) ==>
      DeclaredActor(rows, cx, cy) == (if ActorAt(m.actors, cx, cy).Some? then Some(m.actors[ActorAt(m.actors, cx, cy).value]) else None)
    ensures !DuplicateOrders(rows)
  {
    forall x1, y1, x2, y2 | InGrid(rows, x1, y1) && InGrid(rows, x2, y2) && (x1 != x2 || y1 != y2) &&
      DeclaredActor(rows, x1, y1).Some? && DeclaredActor(rows, x2, y2).Some?
      ensures DeclaredActor(rows, x1, y1).value.order != DeclaredActor(rows, x2, y2).value.order
    {
      var i1, i2 := ActorAt(m.actors, x1, y1).value, ActorAt(m.actors, x2, y2).value;
      assert IsAt(m.actors[i1], x1, y1) && IsAt(m.actors[i2], x2, y2);
      assert i1 != i2;
    }
  }

  lemma SameCellToken(m: Map, rows: seq<seq<string>>, back: Map, x: int, y: int)
    requires Printable(m) && rows == RenderRows(m) && Rectangular(rows) && DigitsReadable(rows)
    requires InBounds(m, x, y) && InGrid(rows, x, y)
    requires ActorAt(m.actors, x, y).Some? ==> ReadTag(TokenAt(m, x, y), x, y) == Ok(Some(m.actors[ActorAt(m.actors, x, y).value]))
    requires ActorAt(m.actors, x, y).None? ==> ReadTag(TokenAt(m, x, y), x, y) == Ok(None) && CellOf(TokenAt(m, x, y)) == m.grid[x][y]
    requires back.width == m.width && back.height == m.height && ValidGrid(back)
    requires forall cx, cy :: InGrid(rows, cx, cy) ==> back.grid[cx][cy] == CellOf(rows[cy][cx])
    requires forall k :: 0 <= k < |back.actors| ==> DeclaredAt(rows, back.actors[k])
    requires forall cx, cy :: InGrid(rows, cx, cy) && DeclaredActor(rows, cx, cy).Some? ==> DeclaredActor(rows, cx, cy).value in back.actors
    ensures TokenAt(back, x, y) == TokenAt(m, x, y)
  {
    assert rows[y][x] == TokenAt(m, x, y);
    match ActorAt(m.actors, x, y)
    case Some(i) =>
      var a := m.actors[i];
      assert DeclaredActor(rows, x, y) == Some(a);
      var k :| 0 <= k < |back.actors| && back.actors[k] == a;
      assert IsAt(back.actors[k], x, y);
      var j := ActorAt(back.actors, x, y).value;
      assert DeclaredAt(rows, back.actors[j]);
    case None =>
      assert DeclaredActor(rows, x, y) == None;
      forall j | 0 <= j < |back.actors| ensures !IsAt(back.actors[j], x, y) {
        assert DeclaredAt(rows, back.actors[j]);
      }
  }
}
