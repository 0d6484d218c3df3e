/**
 * format_table: the ASCII table of report entries. Fixed-point rendering of
 * a percentage is a parameter (`fixed2`, two decimals).
 */
module ReportTable {
  import opened PyText
  import opened TextLayout
  import opened ReportEntries

  const NoData := "No validation data available."

  const Headers: seq<string> := ["Validator", "Rule", "Feature", "Valid", "Fail", "Total", "Pass Rate"]

  /** The text of column c (all but the pass rate) for an entry. */
  function Cell(e: ReportEntry, c: nat): string
    requires c < 6
  {
    if c == 0 then e.validator
    else if c == 1 then e.rule
    else if c == 2 then e.feature
    else if c == 3 then IntToString(e.valid)
    else if c == 4 then IntToString(e.fail)
    else IntToString(e.Total())
  }

  /** max(xs) for a list of lengths; 0 for none. */
  function MaxOf(xs: seq<nat>): (n: nat)
    ensures forall i :: 0 <= i < |xs| ==> xs[i] <= n
  {
    if xs == [] then 0
    else
      var m := MaxOf(xs[..|xs| - 1]);
      assert forall i :: 0 <= i < |xs| - 1 ==> xs[..|xs| - 1][i] == xs[i];
      Max(m, xs[|xs| - 1])
  }

  /** The maximum of a non-empty list is one of its elements. */
  lemma {:induction false} MaxOfAttained(xs: seq<nat>)
    requires xs != []
    ensures exists i :: 0 <= i < |xs| && xs[i] == MaxOf(xs)
  {
    var init := xs[..|xs| - 1];
    if init != [] && MaxOf(init) > xs[|xs| - 1] {
      MaxOfAttained(init);
      var i :| 0 <= i < |init| && init[i] == MaxOf(init);
      assert xs[i] == init[i];
    }
  }

  /** The lengths of column c's cells, entry by entry. */
  function CellLengths(entries: seq<ReportEntry>, c: nat): (r: seq<nat>)
    requires c < 6
    ensures |r| == |entries|
    ensures forall i :: 0 <= i < |entries| ==> r[i] == |Cell(entries[i], c)|
  {
    seq(|entries|, i requires 0 <= i < |entries| => |Cell(entries[i], c)|)
  }

  /** The longest cell of column c. */
  function LongestCell(entries: seq<ReportEntry>, c: nat): nat
    requires c < 6
  {
    MaxOf(CellLengths(entries, c))
  }

  /** No cell of column c is longer than the longest. */
  lemma LongestCellBound(entries: seq<ReportEntry>, c: nat, i: nat)
    requires c < 6 && i < |entries|
    ensures |Cell(entries[i], c)| <= LongestCell(entries, c)
  {
    var lengths := CellLengths(entries, c);
    assert lengths[i] == |Cell(entries[i], c)|;
  }

  /** Some cell of a non-empty column is the longest. */
  lemma LongestCellAttained(entries: seq<ReportEntry>, c: nat)
    requires c < 6 && entries != []
    ensures exists i :: 0 <= i < |entries| && |Cell(entries[i], c)| == LongestCell(entries, c)
  {
    var lengths := CellLengths(entries, c);
    MaxOfAttained(lengths);
    var i :| 0 <= i < |lengths| && lengths[i] == MaxOf(lengths);
    assert |Cell(entries[i], c)| == LongestCell(entries, c);
  }

  /**
   * Column widths: the header or the longest cell, whichever is wider; the
   * pass-rate column is as wide as its header.
   */
  function Widths(entries: seq<ReportEntry>): (w: seq<nat>)
    requires entries != []
    ensures |w| == 7 && w[6] == 9
  {
    [ Max(|Headers[0]|, LongestCell(entries, 0)), Max(|Headers[1]|, LongestCell(entries, 1)),
      Max(|Headers[2]|, LongestCell(entries, 2)), Max(|Headers[3]|, LongestCell(entries, 3)),
      Max(|Headers[4]|, LongestCell(entries, 4)), Max(|Headers[5]|, LongestCell(entries, 5)),
      Max(|Headers[6]|, 8) ]
  }

  /** Column c's width is its header's length or its longest cell's, whichever is larger. */
  lemma WidthAt(entries: seq<ReportEntry>, c: nat)
    requires entries != [] && c < 6
    ensures Widths(entries)[c] == Max(|Headers[c]|, LongestCell(entries, c))
  {
  }

  /** Every column is at least as wide as its header. */
  lemma WidthsCoverHeaders(entries: seq<ReportEntry>)
    requires entries != []
    ensures forall c :: 0 <= c < 7 ==> Widths(entries)[c] >= |Headers[c]|
  {
    forall c | 0 <= c < 6
      ensures Widths(entries)[c] >= |Headers[c]|
    {
      WidthAt(entries, c);
    }
  }

  /** Every column is at least as wide as each of its cells. */
  lemma WidthsCoverCells(entries: seq<ReportEntry>, c: nat, i: nat)
    requires c < 6 && i < |entries|
    ensures Widths(entries)[c] >= |Cell(entries[i], c)|
  {
    WidthAt(entries, c);
    LongestCellBound(entries, c, i);
  }

  /** No column is wider than the wider of its header and its longest cell. */
  lemma WidthsAttained(entries: seq<ReportEntry>, c: nat)
    requires entries != [] && c < 6
    ensures Widths(entries)[c] == |Headers[c]| || exists i :: 0 <= i < |entries| && Widths(entries)[c] == |Cell(entries[i], c)|
  {
    WidthAt(entries, c);
    LongestCellAttained(entries, c);
  }

  /** The dashes of the rule line: each column two wider than its width. */
  function SeparatorCells(w: seq<nat>): (cells: seq<string>)
    requires |w| == 7
    ensures |cells| == 7 && forall k :: 0 <= k < 7 ==> |cells[k]| == w[k] + 2
  {
    [ Repeat('-', w[0] + 2), Repeat('-', w[1] + 2), Repeat('-', w[2] + 2), Repeat('-', w[3] + 2),
      Repeat('-', w[4] + 2), Repeat('-', w[5] + 2), Repeat('-', w[6] + 2) ]
  }

  /** The rule line: as long as the widths plus two spaces each, plus eight delimiters. */
  function Separator(w: seq<nat>): (s: string)
    requires |w| == 7
    ensures |s| == Sum(w) + 2 * |w| + 8
  {
    FramedWidth(SeparatorCells(w), w, '+');
    Framed(SeparatorCells(w), '+')
  }

  function HeaderCells(w: seq<nat>): (cells: seq<string>)
    requires |w| == 7
    ensures |cells| == 7
    ensures (forall c :: 0 <= c < 7 ==> w[c] >= |Headers[c]|) ==> forall k :: 0 <= k < 7 ==> |cells[k]| == w[k] + 2
  {
    [ Pad(Headers[0], w[0], false), Pad(Headers[1], w[1], false), Pad(Headers[2], w[2], false),
      Pad(Headers[3], w[3], false), Pad(Headers[4], w[4], false), Pad(Headers[5], w[5], false),
      Pad(Headers[6], w[6], false) ]
  }

  function HeaderRow(w: seq<nat>): string
    requires |w| == 7
  {
    Framed(HeaderCells(w), '|')
  }

  /** One cell: a space, the text padded to the width, a space. */
  function Pad(text: string, width: nat, right: bool): (cell: string)
    ensures |text| <= width ==> |cell| == width + 2
  {
    " " + (if right then RJust(text, width) else LJust(text, width)) + " "
  }

  /** The pass-rate cell: right-aligned in one less than the width, then a percent sign. */
  function PadRate(text: string, width: nat): (cell: string)
    requires width >= 1
    ensures |text| <= width - 1 ==> |cell| == width + 2
  {
    " " + RJust(text, width - 1) + "% "
  }

  function RowCells(e: ReportEntry, w: seq<nat>, fixed2: real -> string): (cells: seq<string>)
    requires |w| == 7 && w[6] >= 1
    ensures |cells| == 7
  {
    [ Pad(e.validator, w[0], false), Pad(e.rule, w[1], false), Pad(e.feature, w[2], false),
      Pad(IntToString(e.valid), w[3], true), Pad(IntToString(e.fail), w[4], true),
      Pad(IntToString(e.Total()), w[5], true), PadRate(fixed2(e.PassRate()), w[6]) ]
  }

  /** Every cell of the entry fits its column, the pass rate one character less for the '%'. */
  predicate Fits(e: ReportEntry, w: seq<nat>, fixed2: real -> string)
    requires |w| == 7 && w[6] >= 1
  {
    && |e.validator| <= w[0] && |e.rule| <= w[1] && |e.feature| <= w[2]
    && |IntToString(e.valid)| <= w[3] && |IntToString(e.fail)| <= w[4] && |IntToString(e.Total())| <= w[5]
    && |fixed2(e.PassRate())| <= w[6] - 1
  }

  /** One entry's line; when its cells fit, it is exactly as long as the rule line. */
  function Row(e: ReportEntry, w: seq<nat>, fixed2: real -> string): (r: string)
    requires |w| == 7 && w[6] >= 1
    ensures Fits(e, w, fixed2) ==> |r| == Sum(w) + 2 * |w| + 8
  {
    var cells := RowCells(e, w, fixed2);
    if Fits(e, w, fixed2) then
      assert |cells[0]| == w[0] + 2 && |cells[1]| == w[1] + 2 && |cells[2]| == w[2] + 2;
      assert |cells[3]| == w[3] + 2 && |cells[4]| == w[4] + 2 && |cells[5]| == w[5] + 2;
      assert |cells[6]| == w[6] + 2;
      FramedWidth(cells, w, '|');
      Framed(cells, '|')
    else
      Framed(cells, '|')
  }

  function Rows(entries: seq<ReportEntry>, w: seq<nat>, fixed2: real -> string): (rows: seq<string>)
    requires |w| == 7 && w[6] >= 1
    ensures |rows| == |entries|
  {
    if entries == [] then []
    else Rows(entries[..|entries| - 1], w, fixed2) + [Row(entries[|entries| - 1], w, fixed2)]
  }

  lemma {:induction false} RowsAt(entries: seq<ReportEntry>, w: seq<nat>, fixed2: real -> string, i: nat)
    requires |w| == 7 && w[6] >= 1 && i < |entries|
    ensures Rows(entries, w, fixed2)[i] == Row(entries[i], w, fixed2)
  {
    if i < |entries| - 1 {
      RowsAt(entries[..|entries| - 1], w, fixed2, i);
    }
  }

  function SummaryLine(entries: seq<ReportEntry>, fixed2: real -> string): string {
    "Summary: " + NatToString(|entries|) + " rules, " + IntToString(TotalValid(entries)) + " valid, "
    + IntToString(TotalFail(entries)) + " failed, "
    + fixed2(OverallRate(TotalValid(entries), TotalFail(entries))) + "% pass rate"
  }

  /** The table around its rows: rule, header, rule, the rows, rule, a blank line, the summary. */
  function Frame(separator: string, header: string, rows: seq<string>, summary: string): (lines: seq<string>)
    ensures |lines| == |rows| + 6
  {
    [separator, header, separator] + rows + [separator, "", summary]
  }

  /** The lines of the table: framed header, one row per entry, closing rule, summary. */
  function TableLines(entries: seq<ReportEntry>, fixed2: real -> string): seq<string>
    requires entries != []
  {
    var w := Widths(entries);
    Frame(Separator(w), HeaderRow(w), Rows(entries, w, fixed2), SummaryLine(entries, fixed2))
  }

  /** Where each part of the frame sits. */
  lemma FrameAt(separator: string, header: string, rows: seq<string>, summary: string)
    ensures var lines := Frame(separator, header, rows, summary);
            var n := |rows|;
            && lines[0] == lines[2] == lines[n + 3] == separator
            && lines[1] == header
            && lines[n + 4] == ""
            && lines[n + 5] == summary
            && forall i :: 0 <= i < n ==> lines[i + 3] == rows[i]
  {
  }

  /** When the header and every row are as long as the rule line, so is every line above the closing rule. */
  lemma FrameAligned(separator: string, header: string, rows: seq<string>, summary: string)
    requires |header| == |separator|
    requires forall i :: 0 <= i < |rows| ==> |rows[i]| == |separator|
    ensures var lines := Frame(separator, header, rows, summary);
            forall k :: 0 <= k < |rows| + 4 ==> |lines[k]| == |separator|
  {
    FrameAt(separator, header, rows, summary);
    var lines := Frame(separator, header, rows, summary);
    forall k | 0 <= k < |rows| + 4
      ensures |lines[k]| == |separator|
    {
      if 3 <= k < |rows| + 3 {
        assert lines[(k - 3) + 3] == rows[k - 3];
      }
    }
  }

  lemma HeaderRowLength(w: seq<nat>)
    requires |w| == 7 && forall c :: 0 <= c < 7 ==> w[c] >= |Headers[c]|
    ensures |HeaderRow(w)| == |Separator(w)|
  {
    FramedWidth(HeaderCells(w), w, '|');
  }

  /** The widths fit every entry's cells. */
  lemma EntryFits(entries: seq<ReportEntry>, i: nat)
    requires i < |entries|
    ensures var w := Widths(entries);
            var e := entries[i];
            && |e.validator| <= w[0] && |e.rule| <= w[1] && |e.feature| <= w[2]
            && |IntToString(e.valid)| <= w[3] && |IntToString(e.fail)| <= w[4] && |IntToString(e.Total())| <= w[5]
  {
    WidthsCoverCells(entries, 0, i);
    WidthsCoverCells(entries, 1, i);
    WidthsCoverCells(entries, 2, i);
    WidthsCoverCells(entries, 3, i);
    WidthsCoverCells(entries, 4, i);
    WidthsCoverCells(entries, 5, i);
  }

  /**
   * The table has six lines besides the rows: the rule line opens,
   * separates and closes it, and a blank line precedes the summary.
   */
  lemma TableFrame(entries: seq<ReportEntry>, fixed2: real -> string)
    requires entries != []
    ensures var lines := TableLines(entries, fixed2);
            var n := |entries|;
            var w := Widths(entries);
            && |lines| == n + 6
            && lines[0] == lines[2] == lines[n + 3] == Separator(w)
            && |lines[0]| == Sum(w) + 2 * |w| + 8
            && lines[1] == HeaderRow(w)
            && lines[n + 4] == ""
            && lines[n + 5] == SummaryLine(entries, fixed2)
  {
    var w := Widths(entries);
    FrameAt(Separator(w), HeaderRow(w), Rows(entries, w, fixed2), SummaryLine(entries, fixed2));
  }

  /** Row i renders entry i and is as long as the rule line. */
  lemma RowFits(entries: seq<ReportEntry>, fixed2: real -> string, i: nat)
    requires i < |entries|
    requires |fixed2(entries[i].PassRate())| <= 8
    ensures var w := Widths(entries);
            var rows := Rows(entries, w, fixed2);
            && rows[i] == Row(entries[i], w, fixed2)
            && |rows[i]| == |Separator(w)|
  {
    var w := Widths(entries);
    RowsAt(entries, w, fixed2, i);
    EntryFits(entries, i);
  }

  /**
   * When each pass rate renders in at most eight characters, the header
   * and every row are exactly as long as the rule line.
   */
  lemma TableAligned(entries: seq<ReportEntry>, fixed2: real -> string)
    requires entries != []
    requires forall i :: 0 <= i < |entries| ==> |fixed2(entries[i].PassRate())| <= 8
    ensures var lines := TableLines(entries, fixed2);
            forall k :: 0 <= k < |entries| + 4 ==> |lines[k]| == |lines[0]|
  {
    var w := Widths(entries);
    var rows := Rows(entries, w, fixed2);
    forall i | 0 <= i < |rows|
      ensures |rows[i]| == |Separator(w)|
    {
      RowFits(entries, fixed2, i);
    }
    WidthsCoverHeaders(entries);
    HeaderRowLength(w);
    FrameAligned(Separator(w), HeaderRow(w), rows, SummaryLine(entries, fixed2));
    FrameAt(Separator(w), HeaderRow(w), rows, SummaryLine(entries, fixed2));
  }

  /** format_table: the table's lines joined, built by appending one row per entry. */
  method FormatTable(entries: seq<ReportEntry>, fixed2: real -> string) returns (text: string)
    ensures entries == [] ==> text == NoData
    ensures entries != [] ==> text == JoinLines(TableLines(entries, fixed2))
  {
    if entries == [] {
      return NoData;
    }
    var w := Widths(entries);
    var separator := Separator(w);
    var rows := RenderRows(entries, w, fixed2);
    text := JoinLines(Frame(separator, HeaderRow(w), rows, SummaryLine(entries, fixed2)));
  }

  /** The loop of format_table: one rendered row appended per entry, in order. */
  method RenderRows(entries: seq<ReportEntry>, w: seq<nat>, fixed2: real -> string) returns (rows: seq<string>)
    requires |w| == 7 && w[6] >= 1
    ensures rows == Rows(entries, w, fixed2)
  {
    rows := [];
    var i := 0;
    while i < |entries|
      invariant 0 <= i <= |entries|
      invariant rows == Rows(entries[..i], w, fixed2)
    {
      assert entries[..i + 1][..i] == entries[..i];
      rows := rows + [Row(entries[i], w, fixed2)];
      i := i + 1;
    }
    assert entries[..i] == entries;
  }
}
