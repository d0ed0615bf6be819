/** Wrapping, columns and fragments of log messages (Logger.py). */
module LogLayout {
  import opened Common
  import opened Ordering
  import opened Text

  function Concat(parts: seq<string>): string
  {
    if parts == [] then "" else Concat(parts[..|parts| - 1]) + parts[|parts| - 1]
  }

  // ---------- wrapping ----------

  /** A line is cut into pieces of the given width; a line of exactly k widths is followed by an empty one. */
  method WrapLine(line: string, width: nat) returns (pieces: seq<string>)
    requires width > 0
    ensures Concat(pieces) == line
    ensures |pieces| == if |line| <= width then 1 else |line| / width + 1
    ensures forall i :: 0 <= i < |pieces| ==> |pieces[i]| <= width && (i + 1 < |pieces| ==> |pieces[i]| == width)
  {
    if |line| <= width {
      OnePiece(line);
      return [line];
    }
    pieces := [];
    var inner_lines := |line| / width + 1;
    for msgline := 0 to inner_lines
      invariant |pieces| == msgline && Concat(pieces) == Substring(line, 0, msgline * width)
      invariant forall i :: 0 <= i < |pieces| ==> |pieces[i]| <= width && (i < |line| / width ==> |pieces[i]| == width)
    {
      PieceFits(|line|, width, msgline);
      var piece := Substring(line, msgline * width, (msgline + 1) * width);
      assert (pieces + [piece])[..msgline] == pieces;
      pieces := pieces + [piece];
    }
    LastPieceFits(|line|, width);
  }

  lemma OnePiece(line: string)
    ensures Concat([line]) == line
  {
    assert [line][..0] == [];
    assert Concat([line]) == "" + line;
  }

  lemma PieceFits(n: nat, width: nat, i: nat)
    requires width > 0 && i <= n / width
    ensures 0 <= i * width <= n && (i + 1) * width == i * width + width
    ensures i < n / width ==> (i + 1) * width <= n
  {
    var q := n / width;
    WholeWidths(n, width);
    OneMoreWidth(i, width);
    Monotone(i, q, width);
    if i < q { Monotone(i + 1, q, width); }
  }

  lemma WholeWidths(n: nat, width: nat)
    requires width > 0
    ensures n / width * width <= n < n / width * width + width
  {
    assert n == n / width * width + n % width;
  }

  lemma OneMoreWidth(i: nat, width: nat)
    ensures (i + 1) * width == i * width + width
  {
  }

  lemma LastPieceFits(n: nat, width: nat)
    requires width > 0
    ensures n < (n / width + 1) * width
  {
    assert n == n / width * width + n % width;
  }

  // ---------- fragments ----------

  const CHUNK := 250

  datatype Record = Record(name: string, msg: string, exc_info: Option<string>)

  function Messages(msgs: seq<Record>): seq<string>
  {
    if msgs == [] then [] else Messages(msgs[..|msgs| - 1]) + [msgs[|msgs| - 1].msg]
  }

  /** The records that are sent for one: none for an empty message, else fragments of 250 characters. */
  method Fragment(record: Record, procname: string) returns (msgs: seq<Record>)
    ensures Concat(Messages(msgs)) == record.msg && (msgs == [] <==> record.msg == "")
    ensures forall i :: 0 <= i < |msgs| ==> 0 < |msgs[i].msg| <= 250 && (i + 1 < |msgs| ==> |msgs[i].msg| == 250)
    ensures forall i :: 0 <= i < |msgs| ==> msgs[i].name == procname
    ensures forall i :: 0 <= i < |msgs| ==> msgs[i].exc_info == if i == 0 then record.exc_info else None
  {
    hide Concat, Messages;
    NoMessages();
    msgs := [];
    var msgdata := record.msg;
    if msgdata == "" { return; }
    while msgdata != ""
      invariant Concat(Messages(msgs)) + msgdata == record.msg && (msgs == [] ==> msgdata != "")
      invariant forall i :: 0 <= i < |msgs| ==>
        0 < |msgs[i].msg| <= CHUNK && (i + 1 < |msgs| || msgdata != "" ==> |msgs[i].msg| == CHUNK)
      invariant forall i :: 0 <= i < |msgs| ==> msgs[i].name == procname && msgs[i].exc_info == None
      decreases |msgdata|
    {
      var newrec := Record(procname, Substring(msgdata, 0, CHUNK), None);
      AnotherMessage(msgs, newrec);
      assert msgdata == newrec.msg + Substring(msgdata, CHUNK, |msgdata|);
      msgs := msgs + [newrec];
      msgdata := Substring(msgdata, CHUNK, |msgdata|);
    }
    var first := msgs[0].(exc_info := record.exc_info);
    SameMessages(msgs, first);
    msgs := [first] + msgs[1..];
  }

  lemma NoMessages()
    ensures Concat(Messages([])) == ""
  {
  }

  lemma AnotherMessage(msgs: seq<Record>, r: Record)
    ensures Concat(Messages(msgs + [r])) == Concat(Messages(msgs)) + r.msg
  {
    assert (msgs + [r])[..|msgs|] == msgs;
    assert Messages(msgs + [r])[..|Messages(msgs)|] == Messages(msgs);
  }

  lemma {:induction false} SameMessages(msgs: seq<Record>, first: Record)
    requires msgs != [] && first.msg == msgs[0].msg
    ensures Messages([first] + msgs[1..]) == Messages(msgs)
  {
    var other := [first] + msgs[1..];
    if |msgs| == 1 {
      assert other[..0] == msgs[..0];
    } else {
      var front := msgs[..|msgs| - 1];
      assert other[..|other| - 1] == [first] + front[1..];
      SameMessages(front, first);
    }
  }

  // ---------- columns ----------

  function Spaces(n: nat): string { if n == 0 then "" else " " + Spaces(n - 1) }

  /** `" %-*s "`: an item padded to the width, between two spaces. */
  function CellText(item: string, width: nat): string
    requires |item| <= width
  {
    " " + item + Spaces(width - |item|) + " "
  }

  predicate Fit(items: seq<string>, colWidth: nat) { forall i :: 0 <= i < |items| ==> |items[i]| <= colWidth }

  predicate Listed(items: seq<string>, indices: seq<nat>) { forall i :: 0 <= i < |indices| ==> indices[i] < |items| }

  /** The items at these indices, one after the other. */
  function RowText(items: seq<string>, width: nat, indices: seq<nat>): string
    requires Fit(items, width) && Listed(items, indices)
  {
    if indices == [] then ""
    else RowText(items, width, indices[..|indices| - 1]) + CellText(items[indices[|indices| - 1]], width)
  }

  /** How many columns of items and their two spaces fit. */
  function Columns(width: nat, colWidth: nat): nat { width / (colWidth + 2) }

  /** How many lines n items take in the columns. */
  function Lines(n: nat, columns: nat): nat
    requires columns > 0
  {
    (n + columns - 1) / columns
  }

  /** The indices that line `lineno` shows: those of its columns that exist. */
  function Indices(n: nat, lines: nat, columns: nat, lineno: nat): seq<nat>
  {
    if columns == 0 then []
    else
      var index := (columns - 1) * lines + lineno;
      Indices(n, lines, columns - 1, lineno) + if index < n then [index] else []
  }

  lemma {:induction false} IndicesAre(n: nat, lines: nat, columns: nat, lineno: nat)
    requires lineno < lines
    ensures |Indices(n, lines, columns, lineno)| <= columns
    ensures forall k :: 0 <= k < |Indices(n, lines, columns, lineno)| ==>
      Indices(n, lines, columns, lineno)[k] == k * lines + lineno && k * lines + lineno < n
    ensures |Indices(n, lines, columns, lineno)| == columns ||
      |Indices(n, lines, columns, lineno)| * lines + lineno >= n
  {
    if columns > 0 {
      IndicesAre(n, lines, columns - 1, lineno);
      var before := |Indices(n, lines, columns - 1, lineno)|;
      if before < columns - 1 {
        Monotone(before, columns - 1, lines);
      }
    }
  }

  lemma Monotone(a: nat, b: nat, c: nat)
    requires a <= b
    ensures a * c <= b * c
  {
  }

  /** Item idx is on line idx % lines, in column idx / lines, and nowhere else. */
  lemma EachItemHasOneCell(n: nat, columns: nat, idx: nat, lineno: nat, k: nat)
    requires columns > 0 && idx < n && lineno < Lines(n, columns)
    ensures var lines := Lines(n, columns); var row := Indices(n, lines, columns, lineno);
      k < |row| && row[k] == idx <==> lineno == idx % lines && k == idx / lines
  {
    var lines := Lines(n, columns);
    var row := Indices(n, lines, columns, lineno);
    IndicesAre(n, lines, columns, lineno);
    EnoughLines(n, columns);
    Divided(idx, lines, k, lineno);
    hide Indices, Lines;
    if lineno == idx % lines && k == idx / lines && k >= |row| {
      Monotone(|row|, k, lines);
      if |row| == columns { Monotone(columns, k, lines); }
    }
  }

  lemma Divided(idx: nat, lines: nat, k: nat, lineno: nat)
    requires lineno < lines
    ensures idx == k * lines + lineno <==> lineno == idx % lines && k == idx / lines
  {
    var q, r := idx / lines, idx % lines;
    assert idx == q * lines + r;
    assert (k + 1) * lines == k * lines + lines && (q + 1) * lines == q * lines + lines;
    if k < q { Monotone(k + 1, q, lines); }
    if q < k { Monotone(q + 1, k, lines); }
  }

  lemma EnoughLines(n: nat, columns: nat)
    requires columns > 0
    ensures n <= columns * Lines(n, columns)
  {
    var l := Lines(n, columns);
    assert n + columns - 1 == l * columns + (n + columns - 1) % columns;
  }

  lemma {:induction false} SpacesLength(n: nat)
    ensures |Spaces(n)| == n
  {
    if n > 0 { SpacesLength(n - 1); }
  }

  /** Every item takes one column. */
  lemma {:induction false} RowLength(items: seq<string>, colWidth: nat, indices: seq<nat>)
    requires Fit(items, colWidth) && Listed(items, indices)
    ensures |RowText(items, colWidth, indices)| == |indices| * (colWidth + 2)
  {
    if indices != [] {
      var n := |indices| - 1;
      RowLength(items, colWidth, indices[..n]);
      SpacesLength(colWidth - |items[indices[n]]|);
      NextMultiple(n, colWidth + 2);
      hide RowText;
      LastCell(items, colWidth, indices);
    }
  }

  lemma NextMultiple(n: nat, c: nat)
    ensures (n + 1) * c == n * c + c
  {
  }

  lemma LastCell(items: seq<string>, colWidth: nat, indices: seq<nat>)
    requires Fit(items, colWidth) && Listed(items, indices) && indices != []
    ensures RowText(items, colWidth, indices) ==
      RowText(items, colWidth, indices[..|indices| - 1]) + CellText(items[indices[|indices| - 1]], colWidth)
  {
  }

  /** Cell k of a row shows its item, after the columns of the k items before it. */
  lemma {:induction false} RowShowsItem(items: seq<string>, colWidth: nat, indices: seq<nat>, k: nat)
    requires Fit(items, colWidth) && Listed(items, indices) && k < |indices|
    ensures RowText(items, colWidth, indices[..k]) +
      CellText(items[indices[k]], colWidth) <= RowText(items, colWidth, indices)
    ensures |RowText(items, colWidth, indices[..k])| == k * (colWidth + 2)
  {
    hide CellText;
    RowLength(items, colWidth, indices[..k]);
    LastCell(items, colWidth, indices);
    if k < |indices| - 1 {
      var front := indices[..|indices| - 1];
      assert front[..k] == indices[..k];
      hide RowText;
      RowShowsItem(items, colWidth, front, k);
    }
  }

  lemma RowIsListed(items: seq<string>, columns: nat, lineno: nat)
    requires columns > 0 && lineno < Lines(|items|, columns)
    ensures Listed(items, Indices(|items|, Lines(|items|, columns), columns, lineno))
    ensures |Indices(|items|, Lines(|items|, columns), columns, lineno)| <= columns
  {
    hide Lines;
    IndicesAre(|items|, Lines(|items|, columns), columns, lineno);
  }

  lemma ColumnsFit(width: nat, colWidth: nat)
    ensures Columns(width, colWidth) == 0 <==> colWidth + 2 > width
    ensures Columns(width, colWidth) * (colWidth + 2) <= width
  {
    var q := width / (colWidth + 2);
    assert width == q * (colWidth + 2) + width % (colWidth + 2);
    if q > 0 { Monotone(1, q, colWidth + 2); }
  }

  /** No line is wider than the terminal. */
  lemma RowsFit(items: seq<string>, width: nat, colWidth: nat, row: seq<nat>)
    requires Fit(items, colWidth) && Listed(items, row) && |row| <= Columns(width, colWidth)
    ensures |RowText(items, colWidth, row)| <= width
  {
    hide Columns, RowText;
    RowLength(items, colWidth, row);
    Monotone(|row|, Columns(width, colWidth), colWidth + 2);
    ColumnsFit(width, colWidth);
  }

  /** The rows show the sorted items in columns of their greatest length. */
  ghost predicate LaidOut(rows: seq<string>, items: seq<string>, colWidth: nat, columns: nat, n: nat)
    requires Fit(items, colWidth) && columns > 0 && n <= Lines(|items|, columns)
  {
    |rows| == n && forall l :: 0 <= l < n ==>
      IsRow(rows[l], items, colWidth, Indices(|items|, Lines(|items|, columns), columns, l))
  }

  ghost predicate IsRow(row: string, items: seq<string>, colWidth: nat, indices: seq<nat>)
    requires Fit(items, colWidth)
  {
    Listed(items, indices) && row == RowText(items, colWidth, indices)
  }

  predicate Widest(items: seq<string>, colWidth: nat)
  {
    Fit(items, colWidth) && exists i :: 0 <= i < |items| && |items[i]| == colWidth
  }

  method WidthOf(items: seq<string>) returns (colWidth: nat)
    requires items != []
    ensures Widest(items, colWidth)
  {
    colWidth := |items[0]|;
    for i := 1 to |items|
      invariant Widest(items[..i], colWidth)
    {
      assert items[..i + 1] == items[..i] + [items[i]];
      ghost var before := colWidth;
      if |items[i]| > colWidth { colWidth := |items[i]|; }
      assert items[..i + 1][i] == items[i];
      assert forall j :: 0 <= j < i ==> items[..i + 1][j] == items[..i][j];
    }
    assert items[..|items|] == items;
  }

  /** The list branch of `format`: None stands for the ZeroDivisionError of columns that do not fit. */
  method FormatColumns(msg: seq<string>, width: nat)
    returns (lines: Option<seq<string>>, ghost sorted: seq<string>, ghost colWidth: nat)
    ensures sorted == Apply(Order(msg, LexLe), msg)
    ensures msg == [] ==> lines == Some([])
    ensures msg != [] ==> Widest(sorted, colWidth) && (lines.None? <==> colWidth + 2 > width)
    ensures msg != [] && lines.Some? ==> Columns(width, colWidth) > 0
    ensures msg != [] && lines.Some? ==>
      LaidOut(lines.value, sorted, colWidth, Columns(width, colWidth), Lines(|sorted|, Columns(width, colWidth)))
    ensures lines.Some? ==> forall l :: 0 <= l < |lines.value| ==> |lines.value[l]| <= width
  {
    hide Indices, RowText, Lines, Columns, LexLe, Order, Apply;
    var items := Apply(Order(msg, LexLe), msg);
    sorted, colWidth := items, 0;
    if msg == [] { return Some([]), sorted, colWidth; }
    var col_width := WidthOf(items);
    colWidth := col_width;
    ColumnsFit(width, col_width);
    var columns := Columns(width, col_width);
    if columns == 0 { return None, sorted, colWidth; }
    var rows: seq<string> := [];
    for lineno := 0 to Lines(|items|, columns)
      invariant LaidOut(rows, items, col_width, columns, lineno)
      invariant forall l :: 0 <= l < |rows| ==> |rows[l]| <= width
    {
      RowIsListed(items, columns, lineno);
      var indices := Indices(|items|, Lines(|items|, columns), columns, lineno);
      RowsFit(items, width, col_width, indices);
      rows := rows + [RowText(items, col_width, indices)];
    }
    return Some(rows), sorted, colWidth;
  }
}
