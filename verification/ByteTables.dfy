/** Tables with one entry for each byte, written as sixteen rows of sixteen. */
module ByteTables {

  function Flatten<T>(rows: seq<seq<T>>): seq<T> {
    if rows == [] then [] else rows[0] + Flatten(rows[1..])
  }

  lemma {:induction false} FlattenAt<T>(rows: seq<seq<T>>, r: nat, c: nat)
    requires forall k :: 0 <= k < |rows| ==> |rows[k]| == 16
    requires r < |rows| && c < 16
    ensures |Flatten(rows)| == 16 * |rows|
    ensures Flatten(rows)[16 * r + c] == rows[r][c]
  {
    if |rows| == 1 {
      assert Flatten(rows[1..]) == [];
    } else {
      FlattenAt(rows[1..], if r == 0 then 0 else r - 1, c);
    }
  }

  /** The values of `f` on the bytes b..b + 15. */
  function RowOf<T>(f: bv8 -> T, b: bv8): seq<T> {
    [
      f(b), f(b + 1), f(b + 2), f(b + 3), f(b + 4), f(b + 5), f(b + 6), f(b + 7),
      f(b + 8), f(b + 9), f(b + 10), f(b + 11), f(b + 12), f(b + 13), f(b + 14), f(b + 15)
    ]
  }

  lemma ColumnAt<T>(f: bv8 -> T, b: bv8)
    ensures RowOf(f, (b >> 4) << 4)[(b & 15) as int] == f(b)
  {
    var column := b & 15;
    assert ((b >> 4) << 4) + column == b;
    if column < 8 {
      assert column == 0 || column == 1 || column == 2 || column == 3
          || column == 4 || column == 5 || column == 6 || column == 7;
    } else {
      assert column == 8 || column == 9 || column == 10 || column == 11
          || column == 12 || column == 13 || column == 14 || column == 15;
    }
  }

  /** Row by row, `rows` holds the values of `f`. */
  predicate Tabulates<T(==)>(rows: seq<seq<T>>, f: bv8 -> T) {
    && |rows| == 16
    && rows[0] == RowOf(f, 0x00) && rows[1] == RowOf(f, 0x10)
    && rows[2] == RowOf(f, 0x20) && rows[3] == RowOf(f, 0x30)
    && rows[4] == RowOf(f, 0x40) && rows[5] == RowOf(f, 0x50)
    && rows[6] == RowOf(f, 0x60) && rows[7] == RowOf(f, 0x70)
    && rows[8] == RowOf(f, 0x80) && rows[9] == RowOf(f, 0x90)
    && rows[10] == RowOf(f, 0xA0) && rows[11] == RowOf(f, 0xB0)
    && rows[12] == RowOf(f, 0xC0) && rows[13] == RowOf(f, 0xD0)
    && rows[14] == RowOf(f, 0xE0) && rows[15] == RowOf(f, 0xF0)
  }

  lemma RowAt<T>(rows: seq<seq<T>>, f: bv8 -> T, r: bv8)
    requires Tabulates(rows, f) && r < 16
    ensures r as int < 16 && rows[r as int] == RowOf(f, r << 4)
  {
    if r < 8 {
      assert r == 0 || r == 1 || r == 2 || r == 3 || r == 4 || r == 5 || r == 6 || r == 7;
    } else {
      assert r == 8 || r == 9 || r == 10 || r == 11 || r == 12 || r == 13 || r == 14 || r == 15;
    }
  }

  lemma Halves(b: bv8)
    ensures b as int == 16 * ((b >> 4) as int) + ((b & 15) as int)
    ensures b >> 4 < 16 && (b & 15) as int < 16
  {}

  lemma EvenRows<T>(rows: seq<seq<T>>, f: bv8 -> T)
    requires Tabulates(rows, f)
    ensures forall k :: 0 <= k < |rows| ==> |rows[k]| == 16
  {}

  lemma RowColumn<T>(rows: seq<seq<T>>, f: bv8 -> T, b: bv8)
    requires Tabulates(rows, f)
    ensures (b >> 4) as int < 16 && (b & 15) as int < 16
    ensures |rows[(b >> 4) as int]| == 16
    ensures rows[(b >> 4) as int][(b & 15) as int] == f(b)
  {
    Halves(b);
    RowAt(rows, f, b >> 4);
    ColumnAt(f, b);
  }

  lemma EntryAt<T>(rows: seq<seq<T>>, b: bv8)
    requires |rows| == 16 && forall k :: 0 <= k < |rows| ==> |rows[k]| == 16
    ensures b as int < |Flatten(rows)| == 256
    ensures b >> 4 < 16 && (b & 15) as int < 16
    ensures Flatten(rows)[b as int] == rows[(b >> 4) as int][(b & 15) as int]
  {
    Halves(b);
    var r, c := (b >> 4) as int, (b & 15) as int;
    FlattenAt(rows, r, c);
  }

  lemma TableAt<T>(rows: seq<seq<T>>, f: bv8 -> T, b: bv8)
    requires Tabulates(rows, f)
    ensures b as int < |Flatten(rows)| == 256
    ensures Flatten(rows)[b as int] == f(b)
  {
    EvenRows(rows, f);
    EntryAt(rows, b);
    RowColumn(rows, f, b);
  }
}
