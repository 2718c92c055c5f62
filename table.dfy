/** `view/Table.kt`: a table is a list of columns declared in order; a row
    prints each item in its own column, after the column's pre-padding,
    truncated or space-padded to exactly the column's width. The model
    returns what is printed instead of printing it. */
module TableView {
  import opened Strings
  import Collections

  datatype Column = Column(heading: string, width: int, prePadding: int)

  /** Why `printRow` stops: `columns[index]` does not exist, or the width of
      column `index` is negative, so `substring(0, width)` throws. */
  datatype RowError = NoSuchColumn(index: nat) | NegativeWidth(index: nat)

  /** The text printed, and the exception that ended the row, if any. Only a
      row that completes ends with the newline of `println()`. */
  datatype Printed = Printed(text: string, error: Option<RowError>)

  /** The number of spaces printed before a cell: `printRow` pads only for a
      pre-padding that is not negative. */
  function PadWidth(c: Column): nat {
    if c.prePadding >= 0 then c.prePadding else 0
  }

  /** The spaces printed before a cell. */
  function Pad(c: Column): (r: string)
    ensures |r| == PadWidth(c)
    ensures forall k :: 0 <= k < |r| ==> r[k] == ' '
  {
    if c.prePadding >= 0 then Spaces(c.prePadding) else ""
  }

  /** `item` cut or padded to `width` characters. */
  function Cell(item: string, width: nat): (r: string)
    ensures |r| == width
  {
    if |item| >= width then item[..width] else item + Spaces(width - |item|)
  }

  /** A cell is the item's first `width` characters, or the whole item
      followed by spaces up to `width`. */
  lemma CellContents(item: string, width: nat)
    ensures |item| >= width ==> Cell(item, width) == item[..width]
    ensures |item| < width ==> Cell(item, width)[..|item|] == item
    ensures |item| < width ==> forall k :: |item| <= k < width ==> Cell(item, width)[k] == ' '
  {
  }

  /** What printing `items[i..]` prints, item `k` in `columns[k]`. */
  function RowFrom(columns: seq<Column>, items: seq<string>, i: nat): Printed
    requires i <= |items|
    decreases |items| - i
  {
    if i == |items| then Printed("\n", None)
    else if i >= |columns| then Printed("", Some(NoSuchColumn(i)))
    else if columns[i].width < 0 then Printed(Pad(columns[i]), Some(NegativeWidth(i)))
    else
      var rest := RowFrom(columns, items, i + 1);
      Printed(Pad(columns[i]) + Cell(items[i], columns[i].width) + rest.text, rest.error)
  }

  /** `printRow(*items)`. */
  function Row(columns: seq<Column>, items: seq<string>): Printed {
    RowFrom(columns, items, 0)
  }

  function Headings(columns: seq<Column>): (r: seq<string>)
    ensures |r| == |columns|
    ensures forall k :: 0 <= k < |columns| ==> r[k] == columns[k].heading
  {
    seq(|columns|, k requires 0 <= k < |columns| => columns[k].heading)
  }

  /** Characters taken by the first `n` columns: pre-padding and width. */
  function RowWidth(columns: seq<Column>, n: nat): int
    requires n <= |columns|
  {
    Span(columns, 0, n)
  }

  /** Characters taken by columns `i` to `k - 1`. */
  function Span(columns: seq<Column>, i: nat, k: nat): int
    requires i <= k <= |columns|
    decreases k - i
  {
    if i == k then 0 else PadWidth(columns[i]) + columns[i].width + Span(columns, i + 1, k)
  }

  /** Item `k` has a column, of non-negative width. */
  predicate Usable(columns: seq<Column>, k: nat) {
    k < |columns| && columns[k].width >= 0
  }

  /** A row can be printed when every item has a column of non-negative width. */
  predicate Printable(columns: seq<Column>, n: nat) {
    n <= |columns| && forall k :: 0 <= k < n ==> columns[k].width >= 0
  }

  class Table {
    var columns: seq<Column>

    constructor ()
      ensures columns == []
    {
      columns := [];
    }

    /** `column(heading, width, prePadding)`: appends one column, returns the table. */
    method AddColumn(heading: string, width: int := 20, prePadding: int := 5) returns (t: Table)
      modifies this
      ensures t == this
      ensures columns == old(columns) + [Column(heading, width, prePadding)]
    {
      columns := columns + [Column(heading, width, prePadding)];
      t := this;
    }

    /** `printRow(*items)`, printing into the returned text. */
    method PrintRow(items: seq<string>) returns (out: Printed)
      ensures out == Row(columns, items)
    {
      var columns := this.columns;
      var text := "";
      var i := 0;
      while i < |items|
        invariant 0 <= i <= |items|
        invariant Row(columns, items).text == text + RowFrom(columns, items, i).text
        invariant Row(columns, items).error == RowFrom(columns, items, i).error
      {
        if i >= |columns| {
          assert text + "" == text;
          return Printed(text, Some(NoSuchColumn(i)));
        }
        var column := columns[i];
        ghost var before := text;
        if column.prePadding >= 0 {
          text := text + Spaces(column.prePadding);
        }
        assert text == before + Pad(column);
        if column.width < 0 {
          assert before + Pad(column) + "" == text;
          return Printed(text, Some(NegativeWidth(i)));
        }
        var item := items[i];
        ghost var padded := text;
        if |item| >= column.width {
          text := text + item[..column.width];
        } else {
          text := text + item + Spaces(column.width - |item|);
        }
        assert text == padded + Cell(item, column.width);
        PrintedCell(columns, items, i, before);
        i := i + 1;
      }
      out := Printed(text + "\n", None);
    }

    /** `printHeading()`: the row of the headings. */
    method PrintHeading() returns (out: Printed)
      ensures out == Row(columns, Headings(columns))
    {
      out := PrintRow(Headings(columns));
    }
  }

  /** One step of `printRow`: text printed before item `i`, then item `i`'s
      padding and cell, leaves the rest of the row still to print. */
  lemma PrintedCell(columns: seq<Column>, items: seq<string>, i: nat, before: string)
    requires i < |items| && Usable(columns, i)
    requires Row(columns, items).text == before + RowFrom(columns, items, i).text
    requires Row(columns, items).error == RowFrom(columns, items, i).error
    ensures Row(columns, items).text ==
      before + Pad(columns[i]) + Cell(items[i], columns[i].width) + RowFrom(columns, items, i + 1).text
    ensures Row(columns, items).error == RowFrom(columns, items, i + 1).error
  {
    var next := RowFrom(columns, items, i + 1);
    var cell := Cell(items[i], columns[i].width);
    Collections.ConcatAssoc(before, Pad(columns[i]) + cell, next.text);
    Collections.ConcatAssoc(before, Pad(columns[i]), cell);
  }

  // ---------------------------------------------------------------------------
  // Properties of a row

  /** Printing from item `i` completes exactly when every later item has a
      column of non-negative width. */
  lemma {:induction false} RowCompletes(columns: seq<Column>, items: seq<string>, i: nat)
    requires i <= |items|
    ensures RowFrom(columns, items, i).error.None? <==>
      forall k :: i <= k < |items| ==> Usable(columns, k)
    decreases |items| - i
  {
    if i < |items| && i < |columns| && columns[i].width >= 0 {
      RowCompletes(columns, items, i + 1);
    } else if i < |items| {
      // item `i` itself is the one without a usable column
      assert !Usable(columns, i);
    }
  }

  /** Printing from item `i` stops for lack of a column exactly at the first
      item past the last column, when every column before it has a
      non-negative width. */
  lemma {:induction false} RowMissingColumn(columns: seq<Column>, items: seq<string>, i: nat)
    requires i <= |items|
    ensures forall j: nat :: RowFrom(columns, items, i).error == Some(NoSuchColumn(j)) <==>
      && j == (if i < |columns| then |columns| else i) && j < |items|
      && forall k :: i <= k < |columns| ==> columns[k].width >= 0
    decreases |items| - i
  {
    if i < |items| && i < |columns| && columns[i].width >= 0 {
      RowMissingColumn(columns, items, i + 1);
    }
  }

  /** Printing from item `i` stops on a negative width exactly at the first
      such column among the items' columns. */
  lemma {:induction false} RowNegativeWidth(columns: seq<Column>, items: seq<string>, i: nat)
    requires i <= |items|
    ensures forall j: nat :: RowFrom(columns, items, i).error == Some(NegativeWidth(j)) <==>
      i <= j < |items| && j < |columns| && columns[j].width < 0 && forall k :: i <= k < j ==> columns[k].width >= 0
    decreases |items| - i
  {
    if i < |items| && i < |columns| && columns[i].width >= 0 {
      RowNegativeWidth(columns, items, i + 1);
    }
  }

  /** A completed row is as long as its columns, plus the newline. */
  lemma {:induction false} RowLength(columns: seq<Column>, items: seq<string>)
    requires Printable(columns, |items|)
    ensures Row(columns, items).error.None?
    ensures RowWidth(columns, |items|) >= 0
    ensures |Row(columns, items).text| == RowWidth(columns, |items|) + 1
    // the character after the columns is the newline of `println()`
    ensures Row(columns, items).text[RowWidth(columns, |items|)] == '\n'
  {
    RowCompletes(columns, items, 0);
    PrintableIffUsable(columns, |items|);
    RowSplit(columns, items, 0, |items|);
    CellsLength(columns, items, 0, |items|);
  }

  /** Cell `k` of a completed row starts at the same place whatever the
      items: after the first `k` columns come `k`'s padding, then its cell. */
  lemma RowCellAt(columns: seq<Column>, items: seq<string>, k: nat)
    requires Printable(columns, |items|) && k < |items|
    ensures RowWidth(columns, k + 1) == RowWidth(columns, k) + PadWidth(columns[k]) + columns[k].width
    ensures 0 <= RowWidth(columns, k) && RowWidth(columns, k + 1) <= |Row(columns, items).text|
    ensures Row(columns, items).text[RowWidth(columns, k)..RowWidth(columns, k) + PadWidth(columns[k])] == Pad(columns[k])
    ensures Row(columns, items).text[RowWidth(columns, k) + PadWidth(columns[k])..RowWidth(columns, k + 1)] ==
      Cell(items[k], columns[k].width)
  {
    var a := Cells(columns, items, 0, k);
    var p := Pad(columns[k]);
    var c := Cell(items[k], columns[k].width);
    var r := RowFrom(columns, items, k + 1).text;
    RowSplit(columns, items, 0, k);
    CellsLength(columns, items, 0, k);
    SpanStep(columns, 0, k);
    var head := RowFromStep(columns, items, k);
    assert Row(columns, items).text == a + (p + c + r);
    SliceOfConcat(a, p, c, r);
  }

  /** Items `i` to `k - 1` of a printable row, each after its column's padding. */
  function Cells(columns: seq<Column>, items: seq<string>, i: nat, k: nat): string
    requires Printable(columns, |items|) && i <= k <= |items|
    decreases k - i
  {
    if i == k then "" else Pad(columns[i]) + Cell(items[i], columns[i].width) + Cells(columns, items, i + 1, k)
  }

  /** Printing from item `i` prints items `i` to `k - 1`, then prints from `k`. */
  lemma {:induction false} RowSplit(columns: seq<Column>, items: seq<string>, i: nat, k: nat)
    requires Printable(columns, |items|) && i <= k <= |items|
    ensures RowFrom(columns, items, i).text == Cells(columns, items, i, k) + RowFrom(columns, items, k).text
    decreases k - i
  {
    if i < k {
      RowSplit(columns, items, i + 1, k);
      var head := RowFromStep(columns, items, i);
      Collections.ConcatAssoc(head, Cells(columns, items, i + 1, k), RowFrom(columns, items, k).text);
    }
  }

  /** Items `i` to `k - 1` take the width of their columns. */
  lemma {:induction false} CellsLength(columns: seq<Column>, items: seq<string>, i: nat, k: nat)
    requires Printable(columns, |items|) && i <= k <= |items|
    ensures |Cells(columns, items, i, k)| == Span(columns, i, k)
    decreases k - i
  {
    if i < k {
      CellsLength(columns, items, i + 1, k);
    }
  }

  /** Adding column `k` to a span adds its padding and width. */
  lemma {:induction false} SpanStep(columns: seq<Column>, i: nat, k: nat)
    requires i <= k < |columns|
    ensures Span(columns, i, k + 1) == Span(columns, i, k) + PadWidth(columns[k]) + columns[k].width
    decreases k - i
  {
    if i < k {
      SpanStep(columns, i + 1, k);
    }
  }

  /** Item `i` of a printable row: its padding and cell, then the rest. */
  lemma RowFromStep(columns: seq<Column>, items: seq<string>, i: nat) returns (head: string)
    requires Printable(columns, |items|) && i < |items|
    ensures head == Pad(columns[i]) + Cell(items[i], columns[i].width)
    ensures RowFrom(columns, items, i).text == head + RowFrom(columns, items, i + 1).text
    ensures |head| == PadWidth(columns[i]) + columns[i].width
  {
    head := Pad(columns[i]) + Cell(items[i], columns[i].width);
  }

  lemma PrintableIffUsable(columns: seq<Column>, n: nat)
    requires n <= |columns|
    ensures Printable(columns, n) <==> forall k :: 0 <= k < n ==> Usable(columns, k)
  {
    if forall k :: 0 <= k < n ==> Usable(columns, k) {
      forall k | 0 <= k < n
        ensures columns[k].width >= 0
      {
        assert Usable(columns, k);
      }
    }
  }

  lemma SliceOfConcat(a: string, p: string, c: string, r: string)
    ensures (a + (p + c + r))[|a|..|a| + |p|] == p
    ensures (a + (p + c + r))[|a| + |p|..|a| + |p| + |c|] == c
  {
    var t := a + (p + c + r);
    assert t[|a|..] == p + c + r;
    assert (p + c + r)[..|p|] == p;
    assert (p + c + r)[|p|..|p| + |c|] == c;
  }

  /** The heading row has an item for every column, so it can only fail on a
      negative width. */
  lemma HeadingNeverLacksAColumn(columns: seq<Column>)
    ensures Row(columns, Headings(columns)).error.None? <==> Printable(columns, |columns|)
    ensures Row(columns, Headings(columns)).error.Some? ==> Row(columns, Headings(columns)).error.value.NegativeWidth?
  {
    var items := Headings(columns);
    RowCompletes(columns, items, 0);
    RowMissingColumn(columns, items, 0);
    PrintableIffUsable(columns, |items|);
    var e := Row(columns, items).error;
    if e.Some? {
      assert e != Some(NoSuchColumn(e.value.index));
    }
  }
}
