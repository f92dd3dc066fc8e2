// The selection by distance alone: signals in order, whole as long as bits remain to be filled, the
// last one in part if need be.
module Analyze {
  import opened Basics
  import opened Decimal
  import opened Selector

  // The text naming a signal of which `width` bits are used.
  function SigText(r: Row, width: int): string {
    if width == r.width then r.name else r.name + "[" + IntText(width - 1) + ":0]"
  }

  // A part of a signal is its bits h down to 0, where h reads back as one less than the width used.
  lemma PartOfSignal(r: Row, width: int)
    requires 0 < width != r.width
    ensures exists h :: SigText(r, width) == r.name + "[" + h + ":0]" && AllDigits(h) && Value(h) == width - 1
  {
    TextValue(width - 1);
    assert SigText(r, width) == r.name + "[" + Text(width - 1) + ":0]";
  }

  function Sum(widths: seq<int>): int {
    if widths == [] then 0 else Sum(widths[..|widths| - 1]) + widths[|widths| - 1]
  }

  function TotalOf(rows: seq<Row>): nat {
    if rows == [] then 0 else TotalOf(rows[..|rows| - 1]) + rows[|rows| - 1].width
  }

  // The column of widths: the first n rows whole, then w bits of the next, nothing of the others.
  ghost predicate Column(rows: seq<Row>, widths: seq<int>, n: nat, w: int) {
    && n <= |rows| == |widths|
    && (forall k | 0 <= k < n :: widths[k] == rows[k].width)
    && (n < |rows| ==> widths[n] == w)
    && (forall k | n < k < |rows| :: widths[k] == 0)
  }

  lemma {:induction false} ColumnSum(rows: seq<Row>, widths: seq<int>, n: nat, w: int)
    requires Column(rows, widths, n, w)
    ensures Sum(widths) == TotalOf(rows[..n]) + if n < |rows| then w else 0
  {
    if rows != [] {
      var m := |rows| - 1;
      var front, col := rows[..m], widths[..m];
      if n == m + 1 {
        ColumnSum(front, col, m, 0);
        assert front[..m] == front && rows[..n] == rows;
      } else {
        ColumnSum(front, col, n, w);
        assert front[..n] == rows[..n];
      }
    }
  }

  lemma {:induction false} TotalGrows(rows: seq<Row>, n: nat)
    requires n <= |rows|
    ensures TotalOf(rows[..n]) <= TotalOf(rows)
  {
    if n < |rows| {
      TotalGrows(rows[..|rows| - 1], n);
      assert rows[..|rows| - 1][..n] == rows[..n];
    } else {
      assert rows[..n] == rows;
    }
  }

  lemma ColumnStep(rows: seq<Row>, widths: seq<int>, i: nat, w: int)
    requires i < |rows| && Column(rows, widths, i, 0)
    ensures Column(rows, widths[i := w], i, w) && Column(rows, widths[i := rows[i].width], i + 1, 0)
  {
  }

  // Every selected signal is named with its share of the bits.
  ghost predicate Named(rows: seq<Row>, sigs: seq<string>, widths: seq<int>) {
    |sigs| <= |rows| == |widths| && forall i | 0 <= i < |sigs| :: sigs[i] == SigText(rows[i], widths[i])
  }

  lemma NamedMore(rows: seq<Row>, sigs: seq<string>, widths: seq<int>, w: int)
    requires Named(rows, sigs, widths) && |sigs| < |rows|
    ensures Named(rows, sigs + [SigText(rows[|sigs|], w)], widths[|sigs| := w])
  {
    hide SigText;
  }

  // A column whose last used row fills the budget adds up to the budget.
  lemma FullColumn(rows: seq<Row>, widths: seq<int>, i: nat, covBit: int)
    requires i < |rows| && Column(rows, widths, i, covBit - TotalOf(rows[..i]))
    requires TotalOf(rows[..i]) + rows[i].width >= covBit
    ensures Sum(widths) == Min(TotalOf(rows), covBit)
  {
    hide Column;
    ColumnSum(rows, widths, i, covBit - TotalOf(rows[..i]));
    TotalGrows(rows, i + 1);
    assert rows[..i + 1][..i] == rows[..i];
  }

  // select_sigs
  method SelectSigs(rows: seq<Row>, covBit: int) returns (sigs: seq<string>, widths: seq<int>)
    ensures Named(rows, sigs, widths)
    ensures sigs != [] ==>
      Column(rows, widths, |sigs| - 1, widths[|sigs| - 1]) && widths[|sigs| - 1] <= rows[|sigs| - 1].width
    ensures sigs == [] ==> rows == []
    ensures covBit > 0 ==> Sum(widths) == Min(TotalOf(rows), covBit)
    ensures covBit > 0 && sigs != [] ==> TotalOf(rows[..|sigs| - 1]) < covBit
    ensures covBit <= 0 && sigs != [] ==> |sigs| == 1 && widths[0] == covBit
  {
    hide IntText, Sum, Column, TotalOf, Named;
    assert Column(rows, seq(|rows|, _ => 0), 0, 0) && TotalOf(rows[..0]) == 0 &&
      Named(rows, [], seq(|rows|, _ => 0)) by {
      StartColumn(rows);
    }
    sigs, widths := [], seq(|rows|, _ => 0);
    var sum := 0;
    for i := 0 to |rows|
      invariant |sigs| == i && |widths| == |rows| && Named(rows, sigs, widths) && sum == TotalOf(rows[..i])
      invariant Column(rows, widths, i, 0)
      invariant i > 0 ==> sum < covBit && TotalOf(rows[..i - 1]) < covBit
    {
      var row := rows[i];
      TotalNext(rows, i);
      ColumnStep(rows, widths, i, covBit - sum);
      NamedMore(rows, sigs, widths, row.width);
      NamedMore(rows, sigs, widths, covBit - sum);
      if sum + row.width < covBit {
        sigs := sigs + [row.name];
        sum := sum + row.width;
        widths := widths[i := row.width];
      } else {
        var acceptable := covBit - sum;
        widths := widths[i := acceptable];
        if acceptable != row.width {
          sigs := sigs + [row.name + "[" + IntText(acceptable - 1) + ":0]"];
        } else {
          sigs := sigs + [row.name];
        }
        FullColumn(rows, widths, i, covBit);
        return;
      }
    }
    ColumnSum(rows, widths, |rows|, 0);
    assert rows[..|rows|] == rows;
    if rows != [] {
      WholeColumn(rows, widths);
    }
  }

  lemma StartColumn(rows: seq<Row>)
    ensures Column(rows, seq(|rows|, _ => 0), 0, 0) && TotalOf(rows[..0]) == 0 && Named(rows, [], seq(|rows|, _ => 0))
  {
  }

  lemma TotalNext(rows: seq<Row>, i: nat)
    requires i < |rows|
    ensures TotalOf(rows[..i + 1]) == TotalOf(rows[..i]) + rows[i].width
  {
    assert rows[..i + 1][..i] == rows[..i];
  }

  lemma WholeColumn(rows: seq<Row>, widths: seq<int>)
    requires rows != [] && Column(rows, widths, |rows|, 0)
    ensures |widths| == |rows| && Column(rows, widths, |rows| - 1, widths[|rows| - 1])
    ensures widths[|rows| - 1] == rows[|rows| - 1].width
  {
  }
}
