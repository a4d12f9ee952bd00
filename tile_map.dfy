/**
 * The background built by `Game.create`: the map text is trimmed, split
 * into rows on newlines and into cells on commas, and every cell becomes
 * one 50-by-50 image, water for the cell `1` and grass for anything else,
 * centred on its grid square and placed row by row.
 */
module TileMap {
  import JsText

  const RectSize: int := 50

  datatype Texture = Water | Grass

  /** An image added to the scene: its centre and its texture. */
  datatype Tile = Tile(x: int, y: int, texture: Texture)

  /** `mapData.trim().split('\n').map(row => row.split(','))`. */
  function ParseRows(mapData: string): (rows: seq<seq<string>>)
    ensures |rows| >= 1
    ensures forall r :: 0 <= r < |rows| ==> |rows[r]| >= 1
    ensures forall r, c :: 0 <= r < |rows| && 0 <= c < |rows[r]| ==> ',' !in rows[r][c] && '\n' !in rows[r][c]
    ensures JoinRows(rows) == JsText.Trim(mapData)
  {
    var lines := JsText.Split(JsText.Trim(mapData), '\n');
    SplitCellsFacts(lines);
    SplitCells(lines)
  }

  /** Every line split into its cells. */
  function SplitCells(lines: seq<string>): seq<seq<string>> {
    seq(|lines|, i requires 0 <= i < |lines| => JsText.Split(lines[i], ','))
  }

  lemma SplitCellsFacts(lines: seq<string>)
    requires forall i :: 0 <= i < |lines| ==> '\n' !in lines[i]
    ensures var rows := SplitCells(lines);
      && (forall r :: 0 <= r < |rows| ==> |rows[r]| >= 1)
      && (forall r, c :: 0 <= r < |rows| && 0 <= c < |rows[r]| ==> ',' !in rows[r][c] && '\n' !in rows[r][c])
      && RowTexts(rows) == lines
  {
    var rows := SplitCells(lines);
    forall r | 0 <= r < |rows|
      ensures forall c :: 0 <= c < |rows[r]| ==> '\n' !in rows[r][c]
    {
      JsText.SplitKeepsAbsent(lines[r], ',', '\n');
    }
    assert RowTexts(rows) == lines;
  }

  /** Each row put back together with commas. */
  function RowTexts(rows: seq<seq<string>>): seq<string>
    requires forall r :: 0 <= r < |rows| ==> |rows[r]| >= 1
  {
    seq(|rows|, r requires 0 <= r < |rows| => JsText.Join(rows[r], ','))
  }

  /** The map text that the rows of cells were read from. */
  function JoinRows(rows: seq<seq<string>>): string
    requires |rows| >= 1 && forall r :: 0 <= r < |rows| ==> |rows[r]| >= 1
  {
    JsText.Join(RowTexts(rows), '\n')
  }

  /** Reading the text of a grid of cells back gives the same grid: the parse loses nothing. */
  lemma ParseJoinRows(rows: seq<seq<string>>)
    requires |rows| >= 1
    requires forall r :: 0 <= r < |rows| ==> |rows[r]| >= 1
    requires forall r, c :: 0 <= r < |rows| && 0 <= c < |rows[r]| ==> ',' !in rows[r][c] && '\n' !in rows[r][c]
    requires |rows[0][0]| > 0 && !JsText.IsTrimmable(rows[0][0][0])
    requires var cell := rows[|rows| - 1][|rows[|rows| - 1]| - 1]; |cell| > 0 && !JsText.IsTrimmable(cell[|cell| - 1])
    ensures ParseRows(JoinRows(rows)) == rows
  {
    var lines := RowTexts(rows);
    JoinRowsEnds(rows);
    JsText.TrimFixesTrimmed(JoinRows(rows));
    LinesHaveNoNewline(rows);
    JsText.SplitJoin(lines, '\n');
    assert JsText.Split(JsText.Trim(JoinRows(rows)), '\n') == lines;
    SplitCellsOfRowTexts(rows);
  }

  /** The map text starts with the first character of the first cell and ends with the last of the last cell. */
  lemma JoinRowsEnds(rows: seq<seq<string>>)
    requires |rows| >= 1
    requires forall r :: 0 <= r < |rows| ==> |rows[r]| >= 1
    requires |rows[0][0]| > 0
    requires |rows[|rows| - 1][|rows[|rows| - 1]| - 1]| > 0
    ensures var j, cell := JoinRows(rows), rows[|rows| - 1][|rows[|rows| - 1]| - 1];
      |j| > 0 && j[0] == rows[0][0][0] && j[|j| - 1] == cell[|cell| - 1]
  {
    var lines := RowTexts(rows);
    var j := JoinRows(rows);
    var first, last := lines[0], lines[|lines| - 1];
    var lastRow := rows[|rows| - 1];
    var cell := lastRow[|lastRow| - 1];
    JsText.JoinEnds(lines, '\n');
    JsText.JoinEnds(rows[0], ',');
    JsText.JoinEnds(lastRow, ',');
    assert first[..|rows[0][0]|] == rows[0][0];
    assert j[..|first|] == first;
    assert j[0] == first[0] == rows[0][0][0];
    assert last[|last| - |cell|..] == cell;
    assert j[|j| - |last|..] == last;
    assert j[|j| - 1] == last[|last| - 1] == cell[|cell| - 1];
  }

  lemma LinesHaveNoNewline(rows: seq<seq<string>>)
    requires forall r :: 0 <= r < |rows| ==> |rows[r]| >= 1
    requires forall r, c :: 0 <= r < |rows| && 0 <= c < |rows[r]| ==> '\n' !in rows[r][c]
    ensures forall r :: 0 <= r < |rows| ==> '\n' !in RowTexts(rows)[r]
  {
    forall r | 0 <= r < |rows| ensures '\n' !in RowTexts(rows)[r] {
      JoinKeepsAbsent(rows[r], ',', '\n');
    }
  }

  lemma SplitCellsOfRowTexts(rows: seq<seq<string>>)
    requires forall r :: 0 <= r < |rows| ==> |rows[r]| >= 1
    requires forall r, c :: 0 <= r < |rows| && 0 <= c < |rows[r]| ==> ',' !in rows[r][c]
    ensures SplitCells(RowTexts(rows)) == rows
  {
    var lines := RowTexts(rows);
    forall r | 0 <= r < |rows| ensures SplitCells(lines)[r] == rows[r] {
      JsText.SplitJoin(rows[r], ',');
    }
  }

  lemma {:induction false} JoinKeepsAbsent(pieces: seq<string>, sep: char, x: char)
    requires |pieces| >= 1 && x != sep
    requires forall i :: 0 <= i < |pieces| ==> x !in pieces[i]
    ensures x !in JsText.Join(pieces, sep)
  {
    if |pieces| > 1 {
      JoinKeepsAbsent(pieces[1..], sep, x);
    }
  }

  /** `cell === '1' ? 'water' : 'grass'`. */
  function CellTexture(cell: string): Texture {
    if cell == "1" then Water else Grass
  }

  /** Only the exact text `1` is water: `0`, the empty cell and `1` with a stray carriage return are grass. */
  lemma CellTextures()
    ensures CellTexture("1") == Water
    ensures CellTexture("0") == Grass && CellTexture("") == Grass
    ensures CellTexture("1\r") == Grass && CellTexture(" 1") == Grass
  {
  }

  /** The image for the cell at row `r`, column `c`. */
  function TileAt(r: int, c: int, cell: string): Tile {
    Tile(c * RectSize + RectSize / 2, r * RectSize + RectSize / 2, CellTexture(cell))
  }

  /** The images for row `r`, left to right. */
  function RowTiles(r: int, row: seq<string>): seq<Tile> {
    seq(|row|, c requires 0 <= c < |row| => TileAt(r, c, row[c]))
  }

  /** The images for all rows, top to bottom, each row left to right. */
  function Tiles(rows: seq<seq<string>>): seq<Tile> {
    if rows == [] then [] else Tiles(rows[..|rows| - 1]) + RowTiles(|rows| - 1, rows[|rows| - 1])
  }

  /** The number of cells in the grid. */
  function CellCount(rows: seq<seq<string>>): nat {
    if rows == [] then 0 else CellCount(rows[..|rows| - 1]) + |rows[|rows| - 1]|
  }

  /** One image per cell. */
  lemma {:induction false} TileCount(rows: seq<seq<string>>)
    ensures |Tiles(rows)| == CellCount(rows)
  {
    if rows != [] {
      TileCount(rows[..|rows| - 1]);
    }
  }

  /**
   * Row-major placement: the cells of the rows above come first, so the
   * image for row `r`, column `c` is number `CellCount(rows[..r]) + c`,
   * centred at `(c * 50 + 25, r * 50 + 25)`.
   */
  lemma {:induction false} TileIndex(rows: seq<seq<string>>, r: nat, c: nat)
    requires r < |rows| && c < |rows[r]|
    ensures CellCount(rows[..r]) + c < |Tiles(rows)|
    ensures Tiles(rows)[CellCount(rows[..r]) + c] == TileAt(r, c, rows[r][c])
    ensures TileAt(r, c, rows[r][c]) == Tile(c * 50 + 25, r * 50 + 25, CellTexture(rows[r][c]))
  {
    var init := rows[..|rows| - 1];
    TileCount(init);
    TileCount(rows);
    if r == |rows| - 1 {
      assert rows[..r] == init;
    } else {
      TileIndex(init, r, c);
      assert init[..r] == rows[..r];
    }
  }

  /** Cells of earlier rows, and earlier cells of the same row, get earlier images. */
  lemma RowMajorOrder(rows: seq<seq<string>>, r1: nat, c1: nat, r2: nat, c2: nat)
    requires r1 < |rows| && c1 < |rows[r1]| && r2 < |rows| && c2 < |rows[r2]|
    requires r1 < r2 || (r1 == r2 && c1 < c2)
    ensures CellCount(rows[..r1]) + c1 < CellCount(rows[..r2]) + c2
  {
    if r1 < r2 {
      CellCountGrows(rows, r1 + 1, r2);
      assert rows[..r1 + 1][..r1] == rows[..r1];
    }
  }

  lemma {:induction false} CellCountGrows(rows: seq<seq<string>>, i: nat, j: nat)
    requires i <= j <= |rows|
    ensures CellCount(rows[..i]) <= CellCount(rows[..j])
    decreases j - i
  {
    if i < j {
      CellCountGrows(rows, i, j - 1);
      assert rows[..j][..j - 1] == rows[..j - 1];
    }
  }

  lemma RowTilesStep(r: int, row: seq<string>, c: nat)
    requires c < |row|
    ensures RowTiles(r, row[..c + 1]) == RowTiles(r, row[..c]) + [TileAt(r, c, row[c])]
  {
    assert row[..c + 1][..c] == row[..c];
  }

  lemma TilesStep(rows: seq<seq<string>>, k: nat)
    requires k < |rows|
    ensures Tiles(rows[..k + 1]) == Tiles(rows[..k]) + RowTiles(k, rows[k])
  {
    assert rows[..k + 1][..k] == rows[..k];
  }

  /** The nested `forEach` loops of `create`, adding one image per cell. */
  method CreateTiles(mapData: string) returns (images: seq<Tile>)
    ensures images == Tiles(ParseRows(mapData))
  {
    var rows := ParseRows(mapData);
    images := [];
    var rowIndex := 0;
    assert rows[..0] == [];
    while rowIndex < |rows|
      invariant 0 <= rowIndex <= |rows|
      invariant images == Tiles(rows[..rowIndex])
    {
      images := AddRow(images, rowIndex, rows[rowIndex]);
      TilesStep(rows, rowIndex);
      rowIndex := rowIndex + 1;
    }
    assert rows[..rowIndex] == rows;
  }

  /** The inner `row.forEach` of `create`: the images of one row, left to right. */
  method AddRow(before: seq<Tile>, rowIndex: int, row: seq<string>) returns (images: seq<Tile>)
    ensures images == before + RowTiles(rowIndex, row)
  {
    images := before;
    var colIndex := 0;
    assert RowTiles(rowIndex, row[..0]) == [];
    while colIndex < |row|
      invariant 0 <= colIndex <= |row|
      invariant images == before + RowTiles(rowIndex, row[..colIndex])
    {
      var x := colIndex * RectSize;
      var y := rowIndex * RectSize;
      var texture := if row[colIndex] == "1" then Water else Grass;
      RowTilesStep(rowIndex, row, colIndex);
      images := images + [Tile(x + RectSize / 2, y + RectSize / 2, texture)];
      colIndex := colIndex + 1;
    }
    assert row[..colIndex] == row;
  }
}
