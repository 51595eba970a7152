/** The map codec: `parseInput` over rows of tokens, the ordering of the
    parsed actors, and `printMap`. */
module Codec {
  import opened Wrappers
  import opened Geometry
  import opened Text
  import opened Board

  // ---------------------------------------------------------------------
  // Characters of the map format

  /** The first letter of an actor tag. */
  function KindOf(c: char): Option<Kind>
  {
    if c == 'p' then Some(Player)
    else if c == 't' then Some(Target)
    else if c == 'e' then Some(Enemy)
    else None
  }

  /** `actor.type.charAt(0)`. */
  function KindChar(k: Kind): char
  {
    match k
    case Player => 'p'
    case Target => 't'
    case Enemy => 'e'
  }

  /** A facing letter; anything outside `nesw` is rejected. */
  function FaceOf(c: char): Option<Face>
  {
    if c == 'n' then Some(North)
    else if c == 'e' then Some(East)
    else if c == 's' then Some(South)
    else if c == 'w' then Some(West)
    else None
  }

  function FaceChar(f: Face): char
  {
    match f
    case North => 'n'
    case East => 'e'
    case South => 's'
    case West => 'w'
  }

  lemma CharsRoundTrip(k: Kind, f: Face)
    ensures KindOf(KindChar(k)) == Some(k)
    ensures FaceOf(FaceChar(f)) == Some(f)
  {
  }

  // ---------------------------------------------------------------------
  // Reading one token

  /** The terrain a token leaves in its cell: actor tags and unknown tokens
      leave `empty`. */
  function CellOf(tok: string): Cell
  {
    if tok == "x" then Block
    else if tok == "_" then Empty
    else if tok == "f" then Finish
    else Empty
  }

  /** A token that `startsWith` `p`, `t` or `e`. */
  predicate IsTag(tok: string)
  {
    |tok| > 0 && KindOf(tok[0]).Some?
  }

  /** A four-character tag carries hexadecimal digits for its order and its
      health (what `parseInt(…, 16)` reads without producing NaN). */
  predicate HexFields(tok: string)
  {
    IsTag(tok) && |tok| == 4 ==> IsHexDigit(tok[1]) && IsHexDigit(tok[3])
  }

  predicate DigitsReadable(rows: seq<seq<string>>)
  {
    forall y, x :: 0 <= y < |rows| && 0 <= x < |rows[y]| ==> HexFields(rows[y][x])
  }

  function MalformedMessage(k: Kind): string
  {
    match k
    case Player => "malformed player tag"
    case Target => "malformed target tag"
    case Enemy => "malformed enemy tag"
  }

  /** The message for a facing outside `nesw`; the target check reuses the
      player's message. */
  function FaceMessage(k: Kind): string
  {
    match k
    case Player => "player face invalid"
    case Target => "player face invalid"
    case Enemy => "enemy face invalid"
  }

  /** The actor a token at `(x, y)` declares, none for terrain, or the
      error the tag raises: first its length, then its facing. */
  function ReadTag(tok: string, x: int, y: int): (r: Result<Option<Actor>, string>)
    requires HexFields(tok)
    ensures r.Ok? && r.value.Some? ==> IsAt(r.value.value, x, y)
  {
    if !IsTag(tok) then Ok(None)
    else
      var k := KindOf(tok[0]).value;
      if |tok| != 4 then Err(MalformedMessage(k))
      else if FaceOf(tok[2]).None? then Err(FaceMessage(k))
      else Ok(Some(Actor(k, HexValue(tok[3]), FaceOf(tok[2]).value, x, y, HexValue(tok[1]))))
  }

  // ---------------------------------------------------------------------
  // Parsing

  /** Every row has as many tokens as the first. */
  predicate Rectangular(rows: seq<seq<string>>)
  {
    |rows| > 0 && forall y :: 0 <= y < |rows| ==> |rows[y]| == |rows[0]|
  }

  /** Cell `(x1, y1)` comes before cell `(x2, y2)` in the parser's
      column-by-column visiting order. */
  predicate CellBefore(x1: int, y1: int, x2: int, y2: int)
  {
    x1 < x2 || (x1 == x2 && y1 < y2)
  }

  /** The actors collected by the parser's nested loops, starting at column
      `x`, row `y`, with `acc` collected so far; or the first tag error. */
  function ScanFrom(rows: seq<seq<string>>, x: nat, y: nat, acc: seq<Actor>): Result<seq<Actor>, string>
    requires Rectangular(rows) && DigitsReadable(rows)
    requires x <= |rows[0]| && y <= |rows|
    decreases |rows[0]| - x, |rows| - y
  {
    if x == |rows[0]| then Ok(acc)
    else if y == |rows| then ScanFrom(rows, x + 1, 0, acc)
    else match ReadTag(rows[y][x], x, y)
      case Err(e) => Err(e)
      case Ok(None) => ScanFrom(rows, x, y + 1, acc)
      case Ok(Some(a)) => ScanFrom(rows, x, y + 1, acc + [a])
  }

  /** The first `n` cells of column `x`. */
  function ColumnOf(rows: seq<seq<string>>, x: nat, n: nat): (c: seq<Cell>)
    requires Rectangular(rows) && x < |rows[0]| && n <= |rows|
    ensures |c| == n && forall y :: 0 <= y < n ==> c[y] == CellOf(rows[y][x])
  {
    seq(n, y requires 0 <= y < n => CellOf(rows[y][x]))
  }

  /** The first `n` columns of the grid. */
  function GridOf(rows: seq<seq<string>>, n: nat): (g: seq<seq<Cell>>)
    requires Rectangular(rows) && n <= |rows[0]|
    ensures |g| == n && forall x :: 0 <= x < n ==> g[x] == ColumnOf(rows, x, |rows|)
  {
    seq(n, x requires 0 <= x < n => ColumnOf(rows, x, |rows|))
  }

  // ---------------------------------------------------------------------
  // Ordering the actors

  /** Inserts an actor into a roster sorted by order; an equal order is the
      error `actors.sort` raises from its comparator. */
  function InsertByOrder(a: Actor, s: seq<Actor>): (r: Result<seq<Actor>, string>)
    requires StrictlyAscending(s)
    ensures r.Ok? ==> StrictlyAscending(r.value) && multiset(r.value) == multiset(s) + multiset{a}
    ensures r.Ok? ==> forall k :: 0 <= k < |r.value| ==> r.value[k] == a || r.value[k] in s
    ensures r.Err? <==> a.order in Orders(s)
    ensures r.Err? ==> r.error == "order must be unique"
  {
    if s == [] then Ok([a])
    else if a.order == s[0].order then Err("order must be unique")
    else if a.order < s[0].order then
      PrependSmaller(a, s);
      Ok([a] + s)
    else
      OrdersCons(s);
      AscendingTail(s);
      match InsertByOrder(a, s[1..])
      case Err(e) => Err(e)
      case Ok(t) =>
        InsertBehind(a, s, t);
        Ok([s[0]] + t)
  }

  lemma AscendingTail(s: seq<Actor>)
    requires s != [] && StrictlyAscending(s)
    ensures StrictlyAscending(s[1..])
  {
    forall i, j | 0 <= i < j < |s| - 1 ensures s[1..][i].order < s[1..][j].order {
      assert s[1..][i] == s[i + 1] && s[1..][j] == s[j + 1];
    }
  }

  /** An actor inserted behind the head of an ascending roster: the head
      goes back in front of the insertion into the rest. */
  lemma InsertBehind(a: Actor, s: seq<Actor>, t: seq<Actor>)
    requires StrictlyAscending(s) && s != [] && s[0].order < a.order
    requires StrictlyAscending(t) && multiset(t) == multiset(s[1..]) + multiset{a}
    requires forall k :: 0 <= k < |t| ==> t[k] == a || t[k] in s[1..]
    ensures StrictlyAscending([s[0]] + t)
    ensures multiset([s[0]] + t) == multiset(s) + multiset{a}
    ensures forall k :: 0 <= k < |t| + 1 ==> ([s[0]] + t)[k] == a || ([s[0]] + t)[k] in s
  {
    assert s == [s[0]] + s[1..];
    AscendingCons(s[0], t, a, s[1..]);
    assert multiset([s[0]] + t) == multiset{s[0]} + multiset(t);
    forall k | 0 <= k < |t| + 1 ensures ([s[0]] + t)[k] == a || ([s[0]] + t)[k] in s {
      if k > 0 {
        assert ([s[0]] + t)[k] == t[k - 1];
      }
    }
  }

  /** An actor below the head of an ascending roster can go in front, and
      its order is not among the roster's. */
  lemma PrependSmaller(a: Actor, s: seq<Actor>)
    requires StrictlyAscending(s) && s != [] && a.order < s[0].order
    ensures StrictlyAscending([a] + s)
    ensures a.order !in Orders(s)
  {
    forall i, j | 0 <= i < j < |s| + 1 ensures ([a] + s)[i].order < ([a] + s)[j].order {
      assert ([a] + s)[j] == s[j - 1];
      if i > 0 {
        assert ([a] + s)[i] == s[i - 1];
      }
    }
    forall k | 0 <= k < |s| ensures s[k].order != a.order {
      if k > 0 {
        assert s[0].order < s[k].order;
      }
    }
  }

  lemma OrdersCons(s: seq<Actor>)
    requires s != []
    ensures Orders(s) == {s[0].order} + Orders(s[1..])
  {
    forall o | o in Orders(s) ensures o in {s[0].order} + Orders(s[1..]) {
      var i :| 0 <= i < |s| && s[i].order == o;
      if i > 0 {
        assert s[1..][i - 1] == s[i];
      }
    }
    forall o | o in Orders(s[1..]) ensures o in Orders(s) {
      var i :| 0 <= i < |s| - 1 && s[1..][i].order == o;
      assert s[i + 1] == s[1..][i];
    }
  }

  /** Putting `b` in front of `t` keeps the order ascending when every
      element of `t` is `a` or comes from `rest`, and both lie above `b`. */
  lemma AscendingCons(b: Actor, t: seq<Actor>, a: Actor, rest: seq<Actor>)
    requires StrictlyAscending([b] + rest) && b.order < a.order
    requires StrictlyAscending(t)
    requires forall k :: 0 <= k < |t| ==> t[k] == a || t[k] in rest
    ensures StrictlyAscending([b] + t)
  {
    forall k | 0 <= k < |t| ensures b.order < t[k].order {
      if t[k] != a {
        var m :| 0 <= m < |rest| && rest[m] == t[k];
        assert ([b] + rest)[0] == b && ([b] + rest)[m + 1] == t[k];
      }
    }
    forall i, j | 0 <= i < j < |t| + 1 ensures ([b] + t)[i].order < ([b] + t)[j].order {
      if i > 0 {
        assert ([b] + t)[i] == t[i - 1] && ([b] + t)[j] == t[j - 1];
      } else {
        assert ([b] + t)[j] == t[j - 1];
      }
    }
  }

  /** The outcome of `actors.sort` with the engine's comparator: the same
      actors in strictly ascending order, or an error exactly when two
      actors share an order. */
  function SortByOrder(s: seq<Actor>): (r: Result<seq<Actor>, string>)
    ensures r.Ok? ==> StrictlyAscending(r.value) && multiset(r.value) == multiset(s)
    ensures r.Err? <==> !UniqueOrders(s)
    ensures r.Err? ==> r.error == "order must be unique"
  {
    if s == [] then Ok([])
    else
      UniqueOrdersCons(s);
      match SortByOrder(s[1..])
      case Err(e) => Err(e)
      case Ok(t) =>
        MultisetOrders(t, s[1..]);
        assert s == [s[0]] + s[1..];
        InsertByOrder(s[0], t)
  }

  lemma UniqueOrdersCons(s: seq<Actor>)
    requires s != []
    ensures UniqueOrders(s) <==> UniqueOrders(s[1..]) && s[0].order !in Orders(s[1..])
  {
    if UniqueOrders(s[1..]) && s[0].order !in Orders(s[1..]) {
      forall i, j | 0 <= i < |s| && 0 <= j < |s| && i != j
        ensures s[i].order != s[j].order
      {
        if i == 0 {
          assert s[j] == s[1..][j - 1];
        } else if j == 0 {
          assert s[i] == s[1..][i - 1];
        } else {
          assert s[i] == s[1..][i - 1] && s[j] == s[1..][j - 1];
        }
      }
    }
    if UniqueOrders(s) {
      forall i, j | 0 <= i < |s| - 1 && 0 <= j < |s| - 1 && i != j
        ensures s[1..][i].order != s[1..][j].order
      {
        assert s[1..][i] == s[i + 1] && s[1..][j] == s[j + 1];
      }
      forall k | 0 <= k < |s| - 1 ensures s[1..][k].order != s[0].order {
        assert s[1..][k] == s[k + 1];
      }
    }
  }

  lemma MultisetOrders(a: seq<Actor>, b: seq<Actor>)
    requires multiset(a) == multiset(b)
    ensures Orders(a) == Orders(b)
  {
    forall o | o in Orders(a) ensures o in Orders(b) {
      var i :| 0 <= i < |a| && a[i].order == o;
      assert a[i] in multiset(b);
      var j :| 0 <= j < |b| && b[j] == a[i];
    }
    forall o | o in Orders(b) ensures o in Orders(a) {
      var j :| 0 <= j < |b| && b[j].order == o;
      assert b[j] in multiset(a);
      var i :| 0 <= i < |a| && a[i] == b[j];
    }
  }

  /** `parseInput`, over rows of tokens. */
  function Parse(rows: seq<seq<string>>): Result<Map, string>
    requires DigitsReadable(rows)
  {
    if |rows| < 1 then Err("no rows")
    else if !Rectangular(rows) then Err("not rectangular")
    else match ScanFrom(rows, 0, 0, [])
      case Err(e) => Err(e)
      case Ok(found) =>
        match SortByOrder(found)
        case Err(e) => Err(e)
        case Ok(sorted) => Ok(Map(|rows[0]|, |rows|, GridOf(rows, |rows[0]|), sorted))
  }

  /** The parser's loops: the rectangularity check, then column by column,
      row by row, a terrain cell per token and an actor per tag; then the
      sort. */
  method ParseInput(rows: seq<seq<string>>) returns (r: Result<Map, string>)
    requires DigitsReadable(rows)
    ensures r == Parse(rows)
  {
    if |rows| < 1 {
      return Err("no rows");
    }
    var i := 0;
    while i < |rows|
      invariant 0 <= i <= |rows|
      invariant forall j :: 0 <= j < i ==> |rows[j]| == |rows[0]|
    {
      if |rows[i]| != |rows[0]| {
        return Err("not rectangular");
      }
      i := i + 1;
    }
    var height := |rows|;
    var width := |rows[0]|;
    var grid: seq<seq<Cell>> := [];
    var actors: seq<Actor> := [];
    var x := 0;
    while x < width
      invariant 0 <= x <= width
      invariant grid == GridOf(rows, x)
      invariant ScanFrom(rows, x, 0, actors) == ScanFrom(rows, 0, 0, [])
    {
      var column: seq<Cell> := [];
      var y := 0;
      while y < height
        invariant 0 <= y <= height
        invariant column == ColumnOf(rows, x, y)
        invariant ScanFrom(rows, x, y, actors) == ScanFrom(rows, 0, 0, [])
      {
        var val := rows[y][x];
        column := column + [CellOf(val)];
        if |val| > 0 && val[0] == 'p' {
          if |val| != 4 {
            return Err("malformed player tag");
          }
          var face := FaceOf(val[2]);
          if face.None? {
            return Err("player face invalid");
          }
          actors := actors + [Actor(Player, HexValue(val[3]), face.value, x, y, HexValue(val[1]))];
        }
        if |val| > 0 && val[0] == 't' {
          if |val| != 4 {
            return Err("malformed target tag");
          }
          var face := FaceOf(val[2]);
          if face.None? {
            return Err("player face invalid");
          }
          actors := actors + [Actor(Target, HexValue(val[3]), face.value, x, y, HexValue(val[1]))];
        }
        if |val| > 0 && val[0] == 'e' {
          if |val| != 4 {
            return Err("malformed enemy tag");
          }
          var face := FaceOf(val[2]);
          if face.None? {
            return Err("enemy face invalid");
          }
          actors := actors + [Actor(Enemy, HexValue(val[3]), face.value, x, y, HexValue(val[1]))];
        }
        y := y + 1;
      }
      grid := grid + [column];
      x := x + 1;
    }
    match SortByOrder(actors)
    case Err(e) =>
      return Err(e);
    case Ok(sorted) =>
      return Ok(Map(width, height, grid, sorted));
  }

  // ---------------------------------------------------------------------
  // Printing

  /** An actor tag: type letter, decimal order, facing letter, decimal health. */
  function ActorToken(a: Actor): string
  {
    [KindChar(a.kind)] + IntToString(a.order) + [FaceChar(a.face)] + IntToString(a.health)
  }

  function TerrainToken(c: Cell): string
  {
    match c
    case Empty => "_"
    case Finish => "f"
    case Block => "x"
  }

  /** The token printed for cell `(x, y)`: the first actor standing there,
      else the terrain. */
  function TokenAt(m: Map, x: int, y: int): string
    requires ValidGrid(m) && InBounds(m, x, y)
  {
    match ActorAt(m.actors, x, y)
    case Some(i) => ActorToken(m.actors[i])
    case None => TerrainToken(m.grid[x][y])
  }

  /** The tokens of row `y`, by column. */
  function RowTokens(m: Map, y: int): (row: seq<string>)
    requires ValidGrid(m) && 0 <= y < m.height
    ensures |row| == m.width
  {
    seq(m.width, x requires 0 <= x < m.width => TokenAt(m, x, y))
  }

  /** The printed map as rows of tokens, row `y` first by column. */
  function RenderRows(m: Map): (rows: seq<seq<string>>)
    requires ValidGrid(m)
    ensures |rows| == m.height
    ensures forall y :: 0 <= y < m.height ==> rows[y] == RowTokens(m, y)
    ensures forall y :: 0 <= y < m.height ==> |rows[y]| == m.width
    ensures forall y, x :: 0 <= y < m.height && 0 <= x < m.width ==> rows[y][x] == TokenAt(m, x, y)
  {
    seq(m.height, y requires 0 <= y < m.height => RowTokens(m, y))
  }

  /** The first `n` tokens of a row, each followed by a space. */
  function JoinRow(row: seq<string>, n: nat): string
    requires n <= |row|
  {
    if n == 0 then "" else JoinRow(row, n - 1) + (row[n - 1] + " ")
  }

  /** One more token extends the joined row by that token and a space. */
  lemma JoinRowStep(row: seq<string>, x: nat, line: string, token: string)
    requires x < |row| && line == JoinRow(row, x) && token == row[x]
    ensures line + (token + " ") == JoinRow(row, x + 1)
  {
  }

  /** The first `n` rows, each followed by a newline. */
  function JoinRows(rows: seq<seq<string>>, n: nat): string
    requires n <= |rows|
  {
    if n == 0 then "" else JoinRows(rows, n - 1) + JoinRow(rows[n - 1], |rows[n - 1]|) + "\n"
  }

  /** `printMap`'s text. */
  function Render(m: Map): string
    requires ValidGrid(m)
  {
    JoinRows(RenderRows(m), m.height)
  }

  /** One cell of `printMap`: the first actor standing there, else its
      terrain. */
  method PrintCell(m: Map, x: int, y: int) returns (current: string)
    requires ValidGrid(m) && InBounds(m, x, y)
    ensures current == TokenAt(m, x, y) == RowTokens(m, y)[x]
  {
    current := "";
    var found := FirstActorAt(m.actors, x, y);
    if found.Some? {
      current := ActorToken(m.actors[found.value]);
    }
    if current == "" {
      current := TerrainToken(m.grid[x][y]);
    }
  }

  /** One row of `printMap`: each cell's token followed by a space. */
  method PrintRow(m: Map, y: int) returns (line: string)
    requires ValidGrid(m) && 0 <= y < m.height
    ensures line == JoinRow(RowTokens(m, y), m.width)
  {
    ghost var row := RowTokens(m, y);
    line := "";
    var x := 0;
    while x < m.width
      invariant 0 <= x <= m.width
      invariant line == JoinRow(row, x)
    {
      var current := PrintCell(m, x, y);
      JoinRowStep(row, x, line, current);
      line := line + (current + " ");
      x := x + 1;
    }
  }

  /** `printMap`: row by row, cell by cell, the first actor on the cell or
      else its terrain, then a space; a newline after each row. */
  method PrintMap(m: Map) returns (output: string)
    requires ValidGrid(m)
    ensures output == Render(m)
  {
    ghost var rows := RenderRows(m);
    output := "";
    var y := 0;
    while y < m.height
      invariant 0 <= y <= m.height
      invariant output == JoinRows(rows, y)
    {
      var line := PrintRow(m, y);
      assert rows[y] == RowTokens(m, y);
      assert JoinRows(rows, y + 1) == JoinRows(rows, y) + line + "\n";
      output := output + line + "\n";
      y := y + 1;
    }
  }
}
