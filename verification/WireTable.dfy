/** Tables on the wire: rows of cells joined by "|", with nothing to mark where a row ends. */
module WireTable {
  import opened Text

  type Row = seq<string>

  function Cells(rows: seq<Row>): seq<string> {
    if rows == [] then [] else rows[0] + Cells(rows[1..])
  }

  function Encode(rows: seq<Row>): string {
    Join(Cells(rows), "|")
  }

  lemma {:induction false} CellsSnoc(rows: seq<Row>, row: Row)
    ensures Cells(rows + [row]) == Cells(rows) + row
  {
    if rows == [] {
      assert [row][1..] == [] && rows + [row] == [row];
    } else {
      CellsSnoc(rows[1..], row);
      assert (rows + [row])[1..] == rows[1..] + [row];
    }
  }

  /** The cells, cut into rows of the given arity; a remainder is an error. */
  function Chunk(cells: seq<string>, arity: nat): Option<seq<Row>>
    requires arity >= 1
  {
    if cells == [] then Some([])
    else if |cells| < arity then None
    else match Chunk(cells[arity..], arity)
      case None => None
      case Some(rows) => Some([cells[..arity]] + rows)
  }

  function Decode(s: string, arity: nat): Option<seq<Row>>
    requires arity >= 1
  {
    Chunk(Split(s, '|'), arity)
  }

  predicate CleanRow(row: Row, arity: nat) {
    |row| == arity && forall i :: 0 <= i < |row| ==> '|' !in row[i]
  }

  predicate Clean(rows: seq<Row>, arity: nat) {
    forall i :: 0 <= i < |rows| ==> CleanRow(rows[i], arity)
  }

  lemma {:induction false} CellsAreClean(rows: seq<Row>, arity: nat)
    requires Clean(rows, arity)
    ensures |Cells(rows)| == |rows| * arity
    ensures forall i :: 0 <= i < |Cells(rows)| ==> '|' !in Cells(rows)[i]
  {
    if rows != [] {
      CellsAreClean(rows[1..], arity);
      assert |Cells(rows)| == |rows[0]| + |Cells(rows[1..])|;
      assert CleanRow(rows[0], arity);
    }
  }

  lemma {:induction false} ChunkCells(rows: seq<Row>, arity: nat)
    requires arity >= 1 && Clean(rows, arity)
    ensures Chunk(Cells(rows), arity) == Some(rows)
  {
    if rows != [] {
      ChunkCells(rows[1..], arity);
      assert CleanRow(rows[0], arity);
      assert Cells(rows)[..arity] == rows[0] && Cells(rows)[arity..] == Cells(rows[1..]);
      assert [rows[0]] + rows[1..] == rows;
    }
  }

  /** Decoding undoes encoding for every non-empty table without pipes in its cells. */
  lemma DecodeEncode(rows: seq<Row>, arity: nat)
    requires arity >= 1 && rows != [] && Clean(rows, arity)
    ensures Decode(Encode(rows), arity) == Some(rows)
  {
    CellsAreClean(rows, arity);
    assert |Cells(rows)| >= 1 by { assert CleanRow(rows[0], arity); }
    SplitJoin(Cells(rows), '|');
    ChunkCells(rows, arity);
  }

  /** From two columns on, only the empty table is encoded without a pipe. */
  lemma OnlyEmptyHasNoPipe(rows: seq<Row>, arity: nat)
    requires arity >= 2 && Clean(rows, arity)
    ensures '|' !in Encode(rows) <==> rows == []
  {
    if rows != [] {
      CellsAreClean(rows, arity);
      var cells := Cells(rows);
      assert |cells| >= 2 by { assert CleanRow(rows[0], arity); }
      assert Encode(rows)[|cells[0]|] == '|';
    }
  }

  /** Tables of the same arity, from two columns on, have the same text only when they are the
      same table; the empty text stands for the empty table alone. */
  lemma EncodeInjective(a: seq<Row>, b: seq<Row>, arity: nat)
    requires arity >= 2 && Clean(a, arity) && Clean(b, arity)
    ensures Encode(a) == Encode(b) <==> a == b
  {
    OnlyEmptyHasNoPipe(a, arity);
    OnlyEmptyHasNoPipe(b, arity);
    if a != [] && b != [] {
      DecodeEncode(a, arity);
      DecodeEncode(b, arity);
    }
  }

  // ---------------------------------------------------------------- typed tables

  function Rows<T>(xs: seq<T>, rowOf: T -> Row): (r: seq<Row>)
    ensures |r| == |xs|
    ensures forall i :: 0 <= i < |xs| ==> r[i] == rowOf(xs[i])
  {
    seq(|xs|, i requires 0 <= i < |xs| => rowOf(xs[i]))
  }

  function EncodeTable<T>(xs: seq<T>, rowOf: T -> Row): string {
    Encode(Rows(xs, rowOf))
  }

  /** The loop all encoders share: cells appended row by row, then joined. */
  method Flatten<T>(xs: seq<T>, rowOf: T -> Row) returns (value: string)
    ensures value == EncodeTable(xs, rowOf)
  {
    var parts: seq<string> := [];
    for i := 0 to |xs|
      invariant parts == Cells(Rows(xs, rowOf)[..i])
    {
      CellsSnoc(Rows(xs, rowOf)[..i], rowOf(xs[i]));
      assert Rows(xs, rowOf)[..i + 1] == Rows(xs, rowOf)[..i] + [rowOf(xs[i])];
      parts := parts + rowOf(xs[i]);
    }
    assert Rows(xs, rowOf)[..|xs|] == Rows(xs, rowOf);
    return Join(parts, "|");
  }

  function ReadRows<T>(rows: seq<Row>, ofRow: Row -> Option<T>): Option<seq<T>> {
    if rows == [] then Some([])
    else match (ofRow(rows[0]), ReadRows(rows[1..], ofRow))
      case (Some(x), Some(xs)) => Some([x] + xs)
      case _ => None
  }

  /** An empty parameter clears the table. */
  function DecodeTable<T>(value: string, arity: nat, ofRow: Row -> Option<T>): Option<seq<T>>
    requires arity >= 1
  {
    if value == "" then Some([])
    else match Decode(value, arity)
      case None => None
      case Some(rows) => ReadRows(rows, ofRow)
  }

  predicate Readable<T(==)>(x: T, rowOf: T -> Row, ofRow: Row -> Option<T>, arity: nat) {
    CleanRow(rowOf(x), arity) && ofRow(rowOf(x)) == Some(x)
  }

  lemma {:induction false} ReadRowsOfRows<T>(xs: seq<T>, rowOf: T -> Row, ofRow: Row -> Option<T>)
    requires forall i :: 0 <= i < |xs| ==> ofRow(rowOf(xs[i])) == Some(xs[i])
    ensures ReadRows(Rows(xs, rowOf), ofRow) == Some(xs)
  {
    if xs != [] {
      assert Rows(xs, rowOf)[1..] == Rows(xs[1..], rowOf);
      ReadRowsOfRows(xs[1..], rowOf, ofRow);
      assert [xs[0]] + xs[1..] == xs;
    }
  }

  /** A table of two columns or more survives the wire whole, and only the empty one clears. */
  lemma TableRoundTrip<T>(xs: seq<T>, rowOf: T -> Row, ofRow: Row -> Option<T>, arity: nat)
    requires arity >= 2 && forall i :: 0 <= i < |xs| ==> Readable(xs[i], rowOf, ofRow, arity)
    ensures DecodeTable(EncodeTable(xs, rowOf), arity, ofRow) == Some(xs)
    ensures EncodeTable(xs, rowOf) == "" <==> xs == []
    ensures '|' !in EncodeTable(xs, rowOf) <==> xs == []
  {
    var rows := Rows(xs, rowOf);
    forall i | 0 <= i < |rows| ensures CleanRow(rows[i], arity) {
      assert Readable(xs[i], rowOf, ofRow, arity);
    }
    OnlyEmptyHasNoPipe(rows, arity);
    if xs != [] {
      DecodeEncode(rows, arity);
      ReadRowsOfRows(xs, rowOf, ofRow);
    }
  }
}
