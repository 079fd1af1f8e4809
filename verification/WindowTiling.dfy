/** window_tiler.py: splitting a work area into one cell per browser window. */
module WindowTiling {
  import opened Sorting

  datatype Cell = Cell(left: int, top: int, right: int, bottom: int)

  predicate Contains(cell: Cell, x: int, y: int) {
    cell.left <= x < cell.right && cell.top <= y < cell.bottom
  }

  predicate RectanglesOverlap(a: Cell, b: Cell) {
    !(a.right <= b.left || b.right <= a.left || a.bottom <= b.top || b.bottom <= a.top)
  }

  /** The nearest integer to n/d, ties going to the even one. */
  function Round(n: nat, d: nat): (r: nat)
    requires d > 0
    ensures 2 * (r * d - n) <= d && 2 * (n - r * d) <= d
  {
    var q, rest := n / d, n % d;
    if 2 * rest < d then q
    else if 2 * rest > d then q + 1
    else if q % 2 == 0 then q
    else q + 1
  }

  lemma MultipleGap(a: int, b: int, d: int)
    requires a > b && d > 0
    ensures a * d >= b * d + d
  {
    assert a * d == b * d + d + (a - b - 1) * d;
  }

  /** A nearest multiple below a larger number's nearest multiple. */
  lemma NearestMonotone(m: int, n: int, d: int, r: int, q: int)
    requires d > 0 && m < n && 2 * (r * d - m) <= d && 2 * (n - q * d) <= d
    ensures r <= q
  {
    if r > q {
      MultipleGap(r, q, d);
    }
  }

  lemma NearestExact(k: int, d: int, r: int)
    requires d > 0 && 2 * (r * d - k * d) <= d && 2 * (k * d - r * d) <= d
    ensures r == k
  {
    if r > k {
      MultipleGap(r, k, d);
    } else if r < k {
      MultipleGap(k, r, d);
    }
  }

  lemma RoundMonotone(m: nat, n: nat, d: nat)
    requires d > 0 && m <= n
    ensures Round(m, d) <= Round(n, d)
  {
    if m < n {
      NearestMonotone(m, n, d, Round(m, d), Round(n, d));
    }
  }

  lemma RoundExact(k: nat, d: nat)
    requires d > 0
    ensures Round(k * d, d) == k
  {
    NearestExact(k, d, Round(k * d, d));
  }

  /* Choosing how many cells each row gets. */

  function SumOf(groups: seq<nat>): nat {
    if groups == [] then 0 else SumOf(groups[..|groups| - 1]) + groups[|groups| - 1]
  }

  lemma SumOfPrefix(groups: seq<nat>, k: nat)
    requires k < |groups|
    ensures SumOf(groups[..k + 1]) == SumOf(groups[..k]) + groups[k]
  {
    assert groups[..k + 1][..k] == groups[..k];
  }

  lemma {:induction false} SumOfMonotone(groups: seq<nat>, k: nat)
    requires k <= |groups|
    ensures SumOf(groups[..k]) <= SumOf(groups)
    decreases |groups|
  {
    if k < |groups| {
      assert groups[..|groups| - 1][..k] == groups[..k];
      SumOfMonotone(groups[..|groups| - 1], k);
    } else {
      assert groups[..k] == groups;
    }
  }

  /** `count` cells over `rows` rows, the first rows one larger when it does not divide. */
  function Balanced(count: nat, rows: nat): (groups: seq<nat>)
    requires 0 < rows <= count
    ensures |groups| == rows
    ensures forall i :: 0 <= i < rows ==> groups[i] == count / rows + if i < count % rows then 1 else 0
  {
    seq(rows, i => count / rows + if i < count % rows then 1 else 0)
  }

  lemma {:induction false} BalancedPrefix(count: nat, rows: nat, k: nat)
    requires 0 < rows <= count && k <= rows
    ensures SumOf(Balanced(count, rows)[..k]) == k * (count / rows) + if k < count % rows then k else count % rows
  {
    if k > 0 {
      BalancedPrefix(count, rows, k - 1);
      SumOfPrefix(Balanced(count, rows), k - 1);
      assert k * (count / rows) == (k - 1) * (count / rows) + count / rows;
    } else {
      assert Balanced(count, rows)[..0] == [];
    }
  }

  lemma BalancedSum(count: nat, rows: nat)
    requires 0 < rows <= count
    ensures SumOf(Balanced(count, rows)) == count && forall g :: g in Balanced(count, rows) ==> g > 0
  {
    BalancedPrefix(count, rows, rows);
    assert Balanced(count, rows)[..rows] == Balanced(count, rows);
    assert rows * (count / rows) + count % rows == count;
    assert count / rows != 0;
  }

  /** A row count's score: the fit first, then empty slots, spread and the groups themselves. */
  datatype Score = Score(fit: real, empty: int, spread: int, groups: seq<nat>)

  function NatLess(): (nat, nat) -> bool {
    (x, y) => x < y
  }

  predicate Better(a: Score, b: Score) {
    a.fit < b.fit || (a.fit == b.fit && (a.empty < b.empty || (a.empty == b.empty
      && (a.spread < b.spread || (a.spread == b.spread && Lexicographic(NatLess(), a.groups, b.groups))))))
  }

  lemma BetterTransitive(a: Score, b: Score, c: Score)
    requires Better(a, b) && Better(b, c)
    ensures Better(a, c)
  {
    if Lexicographic(NatLess(), a.groups, b.groups) {
      LexicographicBetween(NatLess(), a.groups, c.groups, b.groups);
      LexicographicAsymmetric(NatLess(), b.groups, c.groups);
    }
  }

  /** The first row is the widest; `fit` is how far columns and rows are from the ideal. */
  function ScoreOf(count: nat, rows: nat, fit: (nat, nat) -> real): Score
    requires 0 < rows <= count
  {
    var groups := Balanced(count, rows);
    Score(fit(groups[0], rows), rows * groups[0] - count, groups[0] - groups[rows - 1], groups)
  }

  /** No row count scores better than `rows`. */
  ghost predicate BestRows(count: nat, fit: (nat, nat) -> real, rows: nat) {
    0 < rows <= count && forall r :: 0 < r <= count ==> !Better(ScoreOf(count, r, fit), ScoreOf(count, rows, fit))
  }

  /** How many columns a row count needs. */
  predicate Columns(count: nat, rows: nat, columns: nat) {
    (columns - 1) * rows < count <= columns * rows
  }

  /** Against every other row count, the one chosen has the lesser fit, or the same with fewer
      empty slots, or as many and rows no more uneven. */
  lemma BestComparesWell(count: nat, fit: (nat, nat) -> real, rows: nat, other: nat, c: nat, d: nat)
    requires BestRows(count, fit, rows) && 0 < other <= count
    requires Columns(count, rows, c) && Columns(count, other, d)
    ensures fit(c, rows) <= fit(d, other)
    ensures fit(c, rows) == fit(d, other) ==> c * rows - count <= d * other - count
    ensures fit(c, rows) == fit(d, other) && c * rows == d * other && count % other == 0 ==> count % rows == 0
  {
    WidestRow(count, rows, c);
    WidestRow(count, other, d);
    assert !Better(ScoreOf(count, other, fit), ScoreOf(count, rows, fit));
  }

  lemma WidestRow(count: nat, rows: nat, c: nat)
    requires 0 < rows <= count && Columns(count, rows, c)
    ensures Balanced(count, rows)[0] == c
    ensures Balanced(count, rows)[0] - Balanced(count, rows)[rows - 1] == if count % rows == 0 then 0 else 1
  {
    var q, r := count / rows, count % rows;
    assert count == q * rows + r && (q + 1) * rows == q * rows + rows;
    if r == 0 {
      Cancel(c - 1, q, rows);
      Cancel(q - 1, c, rows);
    } else {
      Cancel(c - 1, q + 1, rows);
      Cancel(q, c, rows);
    }
  }

  lemma Cancel(a: int, b: int, k: nat)
    requires a * k < b * k
    ensures a < b
  {
    assert a * k - b * k == (a - b) * k;
    assert a >= b ==> (a - b) * k >= 0;
  }

  /** Tries every row count and keeps the best balanced split. */
  method BestRowGroups(count: nat, fit: (nat, nat) -> real) returns (groups: seq<nat>)
    requires count > 0
    ensures exists rows :: BestRows(count, fit, rows) && groups == Balanced(count, rows)
  {
    groups := Balanced(count, 1);
    ghost var rows := 1;
    var best := ScoreOf(count, 1, fit);
    NotBetterThanItself(best);
    for r := 2 to count + 1
      invariant 0 < rows <= count && groups == Balanced(count, rows) && best == ScoreOf(count, rows, fit)
      invariant forall q :: 0 < q < r ==> !Better(ScoreOf(count, q, fit), best)
    {
      var score := ScoreOf(count, r, fit);
      NotBetterThanItself(score);
      if Better(score, best) {
        forall q | 0 < q < r
          ensures !Better(ScoreOf(count, q, fit), score)
        {
          if Better(ScoreOf(count, q, fit), score) {
            BetterTransitive(ScoreOf(count, q, fit), score, best);
          }
        }
        best, groups, rows := score, score.groups, r;
      }
    }
    assert BestRows(count, fit, rows);
  }

  lemma NotBetterThanItself(a: Score)
    ensures !Better(a, a)
  {
    LexicographicAsymmetric(NatLess(), a.groups, a.groups);
  }

  /* Tilings. */

  /** The cells lie in the area, cover each of its pixels, and no two overlap. */
  ghost predicate Tiles(cells: seq<Cell>, area: Cell) {
    && (forall i :: 0 <= i < |cells| ==> Within(cells[i], area))
    && (forall x, y :: Contains(area, x, y) ==> Covered(cells, x, y))
    && forall i, j :: 0 <= i < j < |cells| ==> !RectanglesOverlap(cells[i], cells[j])
  }

  predicate Within(cell: Cell, area: Cell) {
    area.left <= cell.left <= cell.right <= area.right && area.top <= cell.top <= cell.bottom <= area.bottom
  }

  ghost predicate Covered(cells: seq<Cell>, x: int, y: int) {
    exists i :: 0 <= i < |cells| && Contains(cells[i], x, y)
  }

  lemma TilesJoin(a: seq<Cell>, b: seq<Cell>, first: Cell, second: Cell, whole: Cell)
    requires Tiles(a, first) && Tiles(b, second)
    requires
      || (whole == Cell(first.left, first.top, second.right, first.bottom)
          && first.right == second.left && first.top == second.top && first.bottom == second.bottom)
      || (whole == Cell(first.left, first.top, first.right, second.bottom)
          && first.bottom == second.top && first.left == second.left && first.right == second.right)
    requires first.left <= first.right && first.top <= first.bottom
    requires second.left <= second.right && second.top <= second.bottom
    ensures Tiles(a + b, whole)
  {
    forall x, y | Contains(whole, x, y)
      ensures Covered(a + b, x, y)
    {
      if Contains(first, x, y) {
        assert Covered(a, x, y);
        var i :| 0 <= i < |a| && Contains(a[i], x, y);
        assert (a + b)[i] == a[i];
      } else {
        assert Covered(b, x, y);
        var i :| 0 <= i < |b| && Contains(b[i], x, y);
        assert (a + b)[|a| + i] == b[i];
      }
    }
    forall i, j | 0 <= i < j < |a + b|
      ensures !RectanglesOverlap((a + b)[i], (a + b)[j])
    {
      if i < |a| <= j {
        assert Within(a[i], first) && Within(b[j - |a|], second);
      }
    }
  }

  ghost predicate OnlyCell(cells: seq<Cell>, i: nat, x: int, y: int) {
    && i < |cells| && Contains(cells[i], x, y)
    && forall j :: 0 <= j < |cells| && Contains(cells[j], x, y) ==> j == i
  }

  /** In a tiling every pixel of the area lies in exactly one cell. */
  lemma ExactlyOneCell(cells: seq<Cell>, area: Cell, x: int, y: int)
    requires Tiles(cells, area) && Contains(area, x, y)
    ensures exists i :: OnlyCell(cells, i, x, y)
  {
    assert Covered(cells, x, y);
    var i :| 0 <= i < |cells| && Contains(cells[i], x, y);
    forall j | 0 <= j < |cells| && Contains(cells[j], x, y)
      ensures j == i
    {
      assert RectanglesOverlap(cells[i], cells[j]) && RectanglesOverlap(cells[j], cells[i]);
    }
    assert OnlyCell(cells, i, x, y);
  }

  /* The layout of given row groups. */

  function Edge(extent: nat, part: nat, whole: nat): nat
    requires whole > 0
  {
    Round(extent * part, whole)
  }

  function RowCells(width: nat, top: nat, bottom: nat, group: nat, columns: nat): (cells: seq<Cell>)
    requires columns <= group
    ensures |cells| == columns
  {
    if columns == 0 then
      []
    else
      RowCells(width, top, bottom, group, columns - 1)
      + [Cell(Edge(width, columns - 1, group), top, Edge(width, columns, group), bottom)]
  }

  function Top(groups: seq<nat>, k: nat, count: nat, height: nat): nat
    requires k <= |groups| && count > 0
  {
    Edge(height, SumOf(groups[..k]), count)
  }

  function Layout(groups: seq<nat>, rows: nat, count: nat, width: nat, height: nat): (cells: seq<Cell>)
    requires rows <= |groups| && count > 0
  {
    if rows == 0 then
      []
    else
      Layout(groups, rows - 1, count, width, height)
      + RowCells(
          width, Top(groups, rows - 1, count, height), Top(groups, rows, count, height),
          groups[rows - 1], groups[rows - 1])
  }

  lemma {:induction false} LayoutSize(groups: seq<nat>, rows: nat, count: nat, width: nat, height: nat)
    requires rows <= |groups| && count > 0
    ensures |Layout(groups, rows, count, width, height)| == SumOf(groups[..rows])
  {
    if rows > 0 {
      LayoutSize(groups, rows - 1, count, width, height);
      SumOfPrefix(groups, rows - 1);
    }
  }

  lemma EdgeMonotone(extent: nat, m: nat, n: nat, whole: nat)
    requires whole > 0 && m <= n
    ensures Edge(extent, m, whole) <= Edge(extent, n, whole)
  {
    assert extent * m <= extent * n;
    RoundMonotone(extent * m, extent * n, whole);
  }

  lemma EdgeEnds(extent: nat, whole: nat)
    requires whole > 0
    ensures Edge(extent, 0, whole) == 0 && Edge(extent, whole, whole) == extent
  {
    RoundExact(0, whole);
    RoundExact(extent, whole);
  }

  lemma OneCellTiles(cell: Cell)
    ensures cell.left <= cell.right && cell.top <= cell.bottom ==> Tiles([cell], cell)
  {
    forall x, y | Contains(cell, x, y)
      ensures Covered([cell], x, y)
    {
      assert Contains([cell][0], x, y);
    }
  }

  lemma {:induction false} RowTiles(width: nat, top: nat, bottom: nat, group: nat, columns: nat)
    requires columns <= group && group > 0 && top <= bottom
    ensures Tiles(RowCells(width, top, bottom, group, columns), Cell(0, top, Edge(width, columns, group), bottom))
  {
    if columns == 0 {
      EdgeEnds(width, group);
    } else {
      var cut, end := Edge(width, columns - 1, group), Edge(width, columns, group);
      RowTiles(width, top, bottom, group, columns - 1);
      EdgeMonotone(width, columns - 1, columns, group);
      OneCellTiles(Cell(cut, top, end, bottom));
      TilesJoin(RowCells(width, top, bottom, group, columns - 1), [Cell(cut, top, end, bottom)],
                Cell(0, top, cut, bottom), Cell(cut, top, end, bottom), Cell(0, top, end, bottom));
    }
  }

  lemma {:induction false} LayoutTiles(groups: seq<nat>, rows: nat, count: nat, width: nat, height: nat)
    requires rows <= |groups| && count > 0 && forall g :: g in groups ==> g > 0
    ensures Tiles(Layout(groups, rows, count, width, height), Cell(0, 0, width, Top(groups, rows, count, height)))
  {
    if rows == 0 {
      TopStart(groups, count, height);
    } else {
      LayoutTiles(groups, rows - 1, count, width, height);
      TopGrows(groups, rows - 1, count, height);
      assert groups[rows - 1] in groups;
      AddRow(Layout(groups, rows - 1, count, width, height), width, Top(groups, rows - 1, count, height),
             Top(groups, rows, count, height), groups[rows - 1]);
    }
  }

  lemma TopStart(groups: seq<nat>, count: nat, height: nat)
    requires count > 0
    ensures Top(groups, 0, count, height) == 0
  {
    assert groups[..0] == [];
    EdgeEnds(height, count);
  }

  lemma TopGrows(groups: seq<nat>, k: nat, count: nat, height: nat)
    requires k < |groups| && count > 0
    ensures Top(groups, k, count, height) <= Top(groups, k + 1, count, height)
  {
    SumOfPrefix(groups, k);
    EdgeMonotone(height, SumOf(groups[..k]), SumOf(groups[..k + 1]), count);
  }

  lemma AddRow(cells: seq<Cell>, width: nat, top: nat, bottom: nat, group: nat)
    requires group > 0 && top <= bottom && Tiles(cells, Cell(0, 0, width, top))
    ensures Tiles(cells + RowCells(width, top, bottom, group, group), Cell(0, 0, width, bottom))
  {
    RowTiles(width, top, bottom, group, group);
    EdgeEnds(width, group);
    TilesJoin(cells, RowCells(width, top, bottom, group, group),
              Cell(0, 0, width, top), Cell(0, top, width, bottom), Cell(0, 0, width, bottom));
  }

  /** The length is within one pixel of `part` of `whole` of the extent. */
  predicate NearShare(length: int, extent: nat, part: nat, whole: nat) {
    length * whole - extent * part <= whole && extent * part - length * whole <= whole
  }

  lemma RoundedDifference(n: nat, share: nat, d: nat)
    requires d > 0
    ensures
      var length: int := Round(n + share, d) - Round(n, d);
      length * d - share <= d && share - length * d <= d
  {
    var r, q := Round(n, d), Round(n + share, d);
    assert (q - r) * d == q * d - r * d;
  }

  /** Row heights are within one pixel of the row's share of the height. */
  lemma RowHeight(groups: seq<nat>, k: nat, count: nat, height: nat)
    requires k < |groups| && count > 0
    ensures NearShare(Top(groups, k + 1, count, height) - Top(groups, k, count, height), height, groups[k], count)
  {
    SumOfPrefix(groups, k);
    var m := SumOf(groups[..k]);
    assert height * (m + groups[k]) == height * m + height * groups[k];
    RoundedDifference(height * m, height * groups[k], count);
  }

  /** Columns of a row are within one pixel of an equal share of the width. */
  lemma ColumnWidth(width: nat, column: nat, group: nat)
    requires column < group
    ensures NearShare(Edge(width, column + 1, group) - Edge(width, column, group), width, 1, group)
  {
    assert width * (column + 1) == width * column + width;
    RoundedDifference(width * column, width, group);
  }

  /** The cell is column `c` of row `k`, within one pixel of its shares of height and width. */
  ghost predicate InGrid(groups: seq<nat>, count: nat, width: nat, height: nat, cell: Cell, k: nat, c: nat)
    requires count > 0
  {
    && k < |groups| && c < groups[k]
    && cell.top == Top(groups, k, count, height) && cell.bottom == Top(groups, k + 1, count, height)
    && cell.left == Edge(width, c, groups[k]) && cell.right == Edge(width, c + 1, groups[k])
    && NearShare(cell.bottom - cell.top, height, groups[k], count)
    && NearShare(cell.right - cell.left, width, 1, groups[k])
  }

  lemma {:induction false} RowCellAt(width: nat, top: nat, bottom: nat, group: nat, columns: nat, i: nat)
    requires i < columns <= group
    ensures RowCells(width, top, bottom, group, columns)[i]
      == Cell(Edge(width, i, group), top, Edge(width, i + 1, group), bottom)
  {
    if i < columns - 1 {
      RowCellAt(width, top, bottom, group, columns - 1, i);
    }
  }

  /** Every cell of a layout has its place in the grid. */
  lemma {:induction false} CellInGrid(groups: seq<nat>, rows: nat, count: nat, width: nat, height: nat, i: nat)
    requires rows <= |groups| && count > 0 && i < |Layout(groups, rows, count, width, height)|
    ensures exists k: nat, c: nat ::
      InGrid(groups, count, width, height, Layout(groups, rows, count, width, height)[i], k, c)
  {
    var above := Layout(groups, rows - 1, count, width, height);
    if i < |above| {
      CellInGrid(groups, rows - 1, count, width, height, i);
    } else {
      var k: nat, c: nat, group := rows - 1, i - |above|, groups[rows - 1];
      RowCellAt(width, Top(groups, k, count, height), Top(groups, rows, count, height), group, group, c);
      RowHeight(groups, k, count, height);
      ColumnWidth(width, c, group);
      assert InGrid(groups, count, width, height, Layout(groups, rows, count, width, height)[i], k, c);
    }
  }

  /** Two and four windows have fixed grids; any other number gets the best balanced split. */
  ghost predicate ChosenGroups(count: nat, fit: (nat, nat) -> real, groups: seq<nat>) {
    if count == 2 then groups == [2]
    else if count == 4 then groups == [2, 2]
    else exists rows :: BestRows(count, fit, rows) && groups == Balanced(count, rows)
  }

  /** The chosen groups' layout, and therefore an exact tiling of the work area. */
  method BuildLayoutCells(count: int, width: int, height: int, fit: (nat, nat) -> real)
    returns (r: Result<seq<Cell>, ()>, ghost groups: seq<nat>)
    ensures r.Ok? <==> count > 0 && width > 0 && height > 0
    ensures r.Ok? ==> ChosenGroups(count, fit, groups)
    ensures r.Ok? ==> SumOf(groups) == count && r.value == Layout(groups, |groups|, count, width, height)
    ensures r.Ok? ==> (forall g :: g in groups ==> g > 0) && groups[..|groups|] == groups
    ensures r.Ok? ==> |r.value| == count && Tiles(r.value, Cell(0, 0, width, height))
  {
    groups := [];
    if count <= 0 || width <= 0 || height <= 0 {
      return Err(()), groups;
    }
    var cells: seq<Cell> := [];
    if count == 2 {
      var middle := Round(width, 2);
      cells := [Cell(0, 0, middle, height), Cell(middle, 0, width, height)];
      groups := [2];
      PairLayout(width, height);
    } else if count == 4 {
      var middleX, middleY := Round(width, 2), Round(height, 2);
      cells := [
        Cell(0, 0, middleX, middleY), Cell(middleX, 0, width, middleY),
        Cell(0, middleY, middleX, height), Cell(middleX, middleY, width, height)];
      groups := [2, 2];
      FourLayout(width, height);
    } else {
      var chosen := BestRowGroups(count, fit);
      groups := chosen;
      ghost var rows :| BestRows(count, fit, rows) && chosen == Balanced(count, rows);
      BalancedSum(count, rows);
      cells := PlaceRows(chosen, count, width, height);
    }
    assert groups[..|groups|] == groups;
    LayoutSize(groups, |groups|, count, width, height);
    LayoutTiles(groups, |groups|, count, width, height);
    EdgeEnds(height, count);
    return Ok(cells), groups;
  }

  method PlaceRows(groups: seq<nat>, count: nat, width: nat, height: nat) returns (cells: seq<Cell>)
    requires count > 0 && forall g :: g in groups ==> g > 0
    ensures cells == Layout(groups, |groups|, count, width, height)
  {
    cells := [];
    var placed, top := 0, 0;
    TopStart(groups, count, height);
    for k := 0 to |groups|
      invariant placed == SumOf(groups[..k]) && top == Top(groups, k, count, height)
      invariant cells == Layout(groups, k, count, width, height)
    {
      NextRow(groups, k, count, width, height);
      var group := groups[k];
      var nextPlaced := placed + group;
      var bottom := Edge(height, nextPlaced, count);
      var row := PlaceRow(width, top, bottom, group);
      cells := cells + row;
      top, placed := bottom, nextPlaced;
    }
  }

  lemma NextRow(groups: seq<nat>, k: nat, count: nat, width: nat, height: nat)
    requires count > 0 && k < |groups| && forall g :: g in groups ==> g > 0
    ensures groups[k] > 0 && SumOf(groups[..k + 1]) == SumOf(groups[..k]) + groups[k]
    ensures Top(groups, k + 1, count, height) == Edge(height, SumOf(groups[..k]) + groups[k], count)
    ensures Layout(groups, k + 1, count, width, height) == Layout(groups, k, count, width, height)
      + RowCells(width, Top(groups, k, count, height), Top(groups, k + 1, count, height), groups[k], groups[k])
  {
    SumOfPrefix(groups, k);
    assert groups[k] in groups;
  }

  method PlaceRow(width: nat, top: nat, bottom: nat, group: nat) returns (cells: seq<Cell>)
    requires group > 0
    ensures cells == RowCells(width, top, bottom, group, group)
  {
    cells := [];
    var left := 0;
    EdgeEnds(width, group);
    for column := 0 to group
      invariant left == Edge(width, column, group)
      invariant cells == RowCells(width, top, bottom, group, column)
    {
      var right := Round(width * (column + 1), group);
      cells := cells + [Cell(left, top, right, bottom)];
      left := right;
    }
  }

  lemma PairRow(width: nat, top: nat, bottom: nat)
    ensures RowCells(width, top, bottom, 2, 2) ==
      [Cell(0, top, Round(width, 2), bottom), Cell(Round(width, 2), top, width, bottom)]
  {
    EdgeEnds(width, 2);
    assert RowCells(width, top, bottom, 2, 0) == [];
    assert RowCells(width, top, bottom, 2, 1) == [Cell(0, top, Round(width, 2), bottom)];
  }

  lemma PairLayout(width: nat, height: nat)
    ensures Layout([2], 1, 2, width, height)
      == [Cell(0, 0, Round(width, 2), height), Cell(Round(width, 2), 0, width, height)]
  {
    assert [2][..0] == [] && [2][..1] == [2] && SumOf([2]) == 2;
    EdgeEnds(height, 2);
    PairRow(width, 0, height);
  }

  lemma FourLayout(width: nat, height: nat)
    ensures Layout([2, 2], 2, 4, width, height) == [
      Cell(0, 0, Round(width, 2), Round(height, 2)), Cell(Round(width, 2), 0, width, Round(height, 2)),
      Cell(0, Round(height, 2), Round(width, 2), height), Cell(Round(width, 2), Round(height, 2), width, height)]
  {
    var groups: seq<nat> := [2, 2];
    assert groups[..0] == [] && groups[..1] == [2] && groups[..2] == groups;
    assert SumOf([2]) == 2 && SumOf(groups) == 4;
    EdgeEnds(height, 4);
    assert Edge(height, 2, 4) == Round(height, 2);
    PairRow(width, 0, Round(height, 2));
    PairRow(width, Round(height, 2), height);
    assert Layout(groups, 1, 4, width, height) == [] + RowCells(width, 0, Round(height, 2), 2, 2);
  }
}
