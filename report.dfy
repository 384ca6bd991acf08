/** The table of `create_pdf_report` with the fpdf drawing calls taken
    away: the rows sorted by (date, department), projected to their five
    texts, and laid out one after another by a loop whose state is the
    vertical cursor, the page count and the shading flag. Each row gets a
    height estimated from its detail text, a page break with a fresh header
    band when it would cross the bottom line, alternating shading, and a
    smaller department font when the department name is long. */
module Report {
  import opened Text
  import opened Transliteration
  import opened Dates
  import opened Records

  /** The bottom line of the table area: `pdf.get_y() + h_satir > 190`. */
  const PageBottom: int := 190
  /** Height of one line of the detail cell, and unit of the row height. */
  const LineHeight: int := 6
  /** Characters taken to fit on one line of the detail column. */
  const CharsPerLine: int := 95
  /** `header_h`, the height of the band of column labels. */
  const BandHeight: int := 8
  /** The title cell (`pdf.cell(0, 10, baslik, ln=True)`) and the gap after it (`pdf.ln(5)`). */
  const TitleHeight: int := 10
  const TitleGap: int := 5
  /** A department name longer than this is set in the small font. */
  const LongDepartment: int := 25
  const RowFontSize: nat := 9
  const SmallFontSize: nat := 7
  const BandFontSize: nat := 10

  /** Widths of the four columns left of the detail column. */
  const DateWidth: int := 25
  const DepartmentWidth: int := 50
  const SourceWidth: int := 35
  const CountWidth: int := 15

  datatype Colour = Colour(r: int, g: int, b: int)
  const White: Colour := Colour(255, 255, 255)
  const Tint: Colour := Colour(235, 245, 251)

  // ---------------------------------------------------------------------
  // Sorting: `dataframe.sort_values(by=['Tarih', 'Müdürlük'])`

  /** Ascending by date, then by department name. */
  predicate KeyAtMost(a: Record, b: Record)
  {
    Before(a.date, b.date) || (a.date == b.date && (a.department == b.department || StrLess(a.department, b.department)))
  }

  predicate SortedByKey(rs: seq<Record>)
  {
    forall i, j :: 0 <= i < j < |rs| ==> KeyAtMost(rs[i], rs[j])
  }

  /** Strictly before in (date, department) order. */
  predicate KeyLess(a: Record, b: Record)
  {
    Before(a.date, b.date) || (a.date == b.date && StrLess(a.department, b.department))
  }

  predicate SameKey(a: Record, b: Record)
  {
    a.date == b.date && a.department == b.department
  }

  lemma KeyLessOrAtMost(a: Record, b: Record)
    ensures KeyLess(a, b) || KeyAtMost(b, a)
    ensures KeyLess(a, b) ==> KeyAtMost(a, b) && !SameKey(a, b)
  {
    StrLessTotal(a.department, b.department);
    StrLessIrreflexive(a.department);
  }

  lemma KeyTransitive(a: Record, b: Record, c: Record)
    requires KeyAtMost(a, b) && KeyAtMost(b, c)
    ensures KeyAtMost(a, c)
  {
    if a.date == b.date == c.date && a.department != b.department && b.department != c.department {
      StrLessTransitive(a.department, b.department, c.department);
    }
  }

  lemma KeyLessThenAtMost(a: Record, b: Record, c: Record)
    requires KeyLess(a, b) && KeyAtMost(b, c)
    ensures KeyLess(a, c)
  {
    if a.date == b.date == c.date && b.department != c.department {
      StrLessTransitive(a.department, b.department, c.department);
    }
  }

  /** Inserts `r` after every row whose key is not greater than its own:
      a row goes after the earlier rows with the same key. */
  function Insert(r: Record, rs: seq<Record>): seq<Record>
  {
    if rs == [] || KeyLess(r, rs[0]) then [r] + rs else [rs[0]] + Insert(r, rs[1..])
  }

  /** Where `Insert` puts the new row: after the leading rows that are not
      greater than it. */
  function InsertPos(r: Record, rs: seq<Record>): (k: nat)
    ensures k <= |rs|
  {
    if rs == [] || KeyLess(r, rs[0]) then 0 else 1 + InsertPos(r, rs[1..])
  }

  lemma {:induction false} InsertAt(r: Record, rs: seq<Record>)
    ensures Insert(r, rs) == rs[..InsertPos(r, rs)] + [r] + rs[InsertPos(r, rs)..]
    ensures forall i :: 0 <= i < InsertPos(r, rs) ==> !KeyLess(r, rs[i])
    ensures InsertPos(r, rs) < |rs| ==> KeyLess(r, rs[InsertPos(r, rs)])
  {
    if rs != [] && !KeyLess(r, rs[0]) {
      InsertAt(r, rs[1..]);
      var k := InsertPos(r, rs[1..]);
      assert rs[..k + 1] == [rs[0]] + rs[1..][..k];
      assert rs[k + 1..] == rs[1..][k..];
      forall i | 0 <= i < k + 1
        ensures !KeyLess(r, rs[i])
      {
        if i > 0 {
          assert rs[i] == rs[1..][i - 1];
        }
      }
    }
  }

  /** Stability: in sorted rows, every row with the same key as `r` lies
      before the place where `r` is inserted, so `r` comes out after it. */
  lemma InsertAfterTies(r: Record, rs: seq<Record>)
    requires SortedByKey(rs)
    ensures forall i :: 0 <= i < |rs| && SameKey(rs[i], r) ==> i < InsertPos(r, rs)
  {
    InsertAt(r, rs);
    var k := InsertPos(r, rs);
    forall i | 0 <= i < |rs| && SameKey(rs[i], r)
      ensures i < k
    {
      if k <= i {
        if k < i {
          KeyLessThenAtMost(r, rs[k], rs[i]);
        }
        KeyLessOrAtMost(r, rs[i]);
      }
    }
  }

  lemma {:induction false} InsertSorted(r: Record, rs: seq<Record>)
    requires SortedByKey(rs)
    ensures |Insert(r, rs)| == |rs| + 1
    ensures multiset(Insert(r, rs)) == multiset(rs) + multiset{r}
    ensures SortedByKey(Insert(r, rs))
  {
    KeyLessOrAtMost(r, if rs == [] then r else rs[0]);
    if rs == [] {
    } else if KeyLess(r, rs[0]) {
      forall j | 0 <= j < |rs|
        ensures KeyAtMost(r, rs[j])
      {
        if j > 0 {
          KeyTransitive(r, rs[0], rs[j]);
        }
      }
    } else {
      var tail := Insert(r, rs[1..]);
      InsertSorted(r, rs[1..]);
      assert rs == [rs[0]] + rs[1..];
      forall j | 0 <= j < |tail|
        ensures KeyAtMost(rs[0], tail[j])
      {
        assert tail[j] in multiset(tail);
        if tail[j] != r {
          assert tail[j] in multiset(rs[1..]);
          var k :| 0 <= k < |rs[1..]| && rs[1..][k] == tail[j];
          assert rs[k + 1] == tail[j];
        }
      }
    }
  }

  lemma SameMembers(a: seq<Record>, b: seq<Record>)
    requires multiset(a) == multiset(b)
    ensures forall r :: r in a <==> r in b
  {
    forall r
      ensures r in a <==> r in b
    {
      assert r in a <==> r in multiset(a);
      assert r in b <==> r in multiset(b);
    }
  }

  /** The rows in report order: ascending by (date, department) and a
      permutation of the input. */
  function SortByKey(rs: seq<Record>): (out: seq<Record>)
    ensures SortedByKey(out)
    ensures |out| == |rs| && multiset(out) == multiset(rs)
    ensures forall r :: r in out <==> r in rs
  {
    if rs == [] then []
    else
      var init := rs[..|rs| - 1];
      InsertSorted(rs[|rs| - 1], SortByKey(init));
      assert rs == init + [rs[|rs| - 1]];
      SameMembers(Insert(rs[|rs| - 1], SortByKey(init)), rs);
      Insert(rs[|rs| - 1], SortByKey(init))
  }

  /** Two rows with the same date and department keep their file order,
      as pandas' sort by two columns does. */
  lemma SortTiesKeepOrder(a: Record, b: Record)
    requires SameKey(a, b)
    ensures SortByKey([a, b]) == [a, b]
  {
    assert [a, b][..1] == [a];
    assert SortByKey([a]) == [a];
    KeyLessOrAtMost(b, a);
  }

  // ---------------------------------------------------------------------
  // One row

  /** The five texts of a table row, as drawn. */
  datatype RowText = RowText(date: string, department: string, source: string, count: string, detail: string)

  /** The texts of a record: the full `tarih_formatla` form of the date
      (weekday included), department, source and detail transliterated,
      and the count in decimal. */
  function RowTextOf(r: Record): (t: RowText)
    requires Valid(r.date)
    ensures |t.department| == |r.department| && |t.detail| == |r.detail|
  {
    RowText(Transliterate(Str(FormatDate(OfDate(r.date)))),
            Transliterate(Str(r.department)),
            Transliterate(Str(r.source)),
            IntToString(r.count),
            Transliterate(Str(r.detail)))
  }

  function Max(a: int, b: int): int
  {
    if a < b then b else a
  }

  /** `satir_sayisi = max(1, len(ayrinti) // 95 + 1)` */
  function LineCount(detail: string): nat
  {
    Max(1, |detail| / CharsPerLine + 1)
  }

  /** `h_satir = 6 * satir_sayisi` */
  function RowHeight(detail: string): nat
  {
    LineHeight * LineCount(detail)
  }

  /** The estimate is a floor, not a ceiling: n lines for n-1 full
      95-character blocks and any rest, so 0 to 94 characters take one line
      and exactly 95 take two. */
  lemma LineCountFloor(detail: string)
    ensures LineCount(detail) >= 1
    ensures (LineCount(detail) - 1) * CharsPerLine <= |detail| < LineCount(detail) * CharsPerLine
    ensures |detail| < CharsPerLine <==> LineCount(detail) == 1
    ensures |detail| == CharsPerLine ==> LineCount(detail) == 2
    ensures RowHeight(detail) == LineHeight * LineCount(detail) && RowHeight(detail) >= LineHeight
  {
  }

  /** The font size of the department cell. */
  function DepartmentFont(department: string): nat
  {
    if |department| > LongDepartment then SmallFontSize else RowFontSize
  }

  // ---------------------------------------------------------------------
  // The layout, as a function of the rows

  /** Where the page layout starts. `pageTop` is the cursor's height after
      `add_page()` and the `header()` hook, which depend on fpdf's margins;
      `left` is the left margin, where every row starts. */
  datatype Geometry = Geometry(pageTop: int, left: int)

  /** After the title, the gap and the first header band on page 1. */
  function FirstRowTop(g: Geometry): int
  {
    g.pageTop + TitleHeight + TitleGap + BandHeight
  }

  /** After a page break and the repeated header band. */
  function BandBottom(g: Geometry): int
  {
    g.pageTop + BandHeight
  }

  /** The loop's state between rows: page number, cursor height, and
      whether the next row is shaded. */
  datatype Cursor = Cursor(page: nat, y: int, fill: bool)

  /** Where and how one row is drawn. `newPage` says a page was started
      and the header band drawn just before it. */
  datatype Placement = Placement(
    row: RowText, page: nat, x: int, y: int, height: nat,
    newPage: bool, fill: Colour, departmentFont: nat, detailX: int)

  predicate Breaks(c: Cursor, row: RowText)
  {
    c.y + RowHeight(row.detail) > PageBottom
  }

  function Place(c: Cursor, row: RowText, g: Geometry): Placement
  {
    var brk := Breaks(c, row);
    Placement(row,
              if brk then c.page + 1 else c.page,
              g.left,
              if brk then BandBottom(g) else c.y,
              RowHeight(row.detail),
              brk,
              if c.fill then Tint else White,
              DepartmentFont(row.department),
              g.left + DateWidth + DepartmentWidth + SourceWidth + CountWidth)
  }

  function Advance(c: Cursor, row: RowText, g: Geometry): Cursor
  {
    var p := Place(c, row, g);
    Cursor(p.page, p.y + p.height, !c.fill)
  }

  function PlanFrom(rows: seq<RowText>, g: Geometry, c: Cursor): seq<Placement>
  {
    if rows == [] then [] else [Place(c, rows[0], g)] + PlanFrom(rows[1..], g, Advance(c, rows[0], g))
  }

  /** The layout of a whole table. */
  function Plan(rows: seq<RowText>, g: Geometry): seq<Placement>
  {
    PlanFrom(rows, g, Cursor(1, FirstRowTop(g), false))
  }

  /** Row by row: one placement per row, in order, with the row's own
      height, the left margin as x, the detail column 125 to its right, the
      small font exactly for department names over 25 characters, and
      shading alternating by row number, whatever the page breaks. */
  lemma {:induction false} PlanRows(rows: seq<RowText>, g: Geometry, c: Cursor)
    ensures |PlanFrom(rows, g, c)| == |rows|
    ensures forall i :: 0 <= i < |rows| ==>
      var p := PlanFrom(rows, g, c)[i];
      && p.row == rows[i]
      && p.height == RowHeight(rows[i].detail)
      && p.x == g.left
      && p.detailX == g.left + 125
      && (p.departmentFont == SmallFontSize <==> |rows[i].department| > LongDepartment)
      && p.departmentFont == (if |rows[i].department| > LongDepartment then SmallFontSize else RowFontSize)
      && p.fill == (if (i % 2 == 0) == c.fill then Tint else White)
  {
    if rows != [] {
      var c' := Advance(c, rows[0], g);
      PlanRows(rows[1..], g, c');
      var P := PlanFrom(rows, g, c);
      forall i | 1 <= i < |rows|
        ensures P[i] == PlanFrom(rows[1..], g, c')[i - 1] && rows[i] == rows[1..][i - 1]
      {
      }
    }
  }

  /** The end of the row before row i, or the start cursor for row 0. */
  function PrevEnd(P: seq<Placement>, i: nat, c: Cursor): int
    requires i < |P|
  {
    if i == 0 then c.y else P[i - 1].y + P[i - 1].height
  }

  function PrevPage(P: seq<Placement>, i: nat, c: Cursor): int
    requires i < |P|
  {
    if i == 0 then c.page else P[i - 1].page
  }

  /** The page-break rule: a row starts a new page exactly when the end of
      the previous row plus its own height passes 190; then it is drawn
      right under the new header band, else right under the previous row;
      and the page number goes up by one exactly at a break. */
  lemma {:induction false} PlanBreaks(rows: seq<RowText>, g: Geometry, c: Cursor)
    ensures |PlanFrom(rows, g, c)| == |rows|
    ensures forall i :: 0 <= i < |rows| ==>
      var P := PlanFrom(rows, g, c);
      && (P[i].newPage <==> PrevEnd(P, i, c) + P[i].height > PageBottom)
      && P[i].y == (if P[i].newPage then BandBottom(g) else PrevEnd(P, i, c))
      && P[i].page == PrevPage(P, i, c) + (if P[i].newPage then 1 else 0)
  {
    PlanRows(rows, g, c);
    if rows != [] {
      var c' := Advance(c, rows[0], g);
      PlanBreaks(rows[1..], g, c');
      var P := PlanFrom(rows, g, c);
      var Q := PlanFrom(rows[1..], g, c');
      forall i | 1 <= i < |rows|
        ensures P[i] == Q[i - 1]
        ensures PrevEnd(P, i, c) == PrevEnd(Q, i - 1, c')
        ensures PrevPage(P, i, c) == PrevPage(Q, i - 1, c')
      {
      }
    }
  }

  /** A row is placed after at most one page break: one that fits below a
      header band never crosses the bottom line. */
  lemma PlanFits(rows: seq<RowText>, g: Geometry, c: Cursor)
    ensures forall i :: 0 <= i < |PlanFrom(rows, g, c)| ==>
      var p := PlanFrom(rows, g, c)[i];
      p.height <= PageBottom - BandBottom(g) ==> p.y + p.height <= PageBottom
  {
    PlanBreaks(rows, g, c);
  }

  // ---------------------------------------------------------------------
  // The loop, over the pdf object's state

  /** The part of the fpdf document the table loop reads and changes:
      the cursor, the page count, the current font size, the shading flag,
      and the rows drawn so far. */
  class TableCursor {
    const geometry: Geometry
    var x: int
    var y: int
    var page: nat
    var fontSize: nat
    var fill: bool
    var placed: seq<Placement>

    /** Between rows the cursor is at the left margin in the row font. */
    predicate Valid()
      reads this
    {
      x == geometry.left && fontSize == RowFontSize
    }

    function State(): Cursor
      reads this
    {
      Cursor(page, y, fill)
    }

    /** `add_page()`, the title and the gap, the first header band, then the
        row font: the state in which the loop starts. */
    constructor (g: Geometry)
      ensures geometry == g && Valid()
      ensures State() == Cursor(1, FirstRowTop(g), false) && placed == []
    {
      geometry := g;
      page, x, y := 1, g.left, g.pageTop;
      fontSize, fill, placed := BandFontSize, false, [];
      new;
      y := y + TitleHeight;
      y := y + TitleGap;
      fontSize := BandFontSize;
      y := y + BandHeight;
      fontSize := RowFontSize;
    }

    /** The page-break test of the loop: when a row of height `h` would
        cross the bottom line, a new page is started and the header band
        drawn again, leaving the cursor under the band in the row font. */
    method BreakIfNeeded(h: nat) returns (brk: bool)
      requires Valid()
      modifies this
      ensures Valid() && fill == old(fill) && placed == old(placed)
      ensures brk == (old(y) + h > PageBottom)
      ensures y == (if brk then BandBottom(geometry) else old(y))
      ensures page == (if brk then old(page) + 1 else old(page))
    {
      brk := y + h > PageBottom;
      if brk {
        page := page + 1;
        x, y := geometry.left, geometry.pageTop;
        fontSize := BandFontSize;
        y := y + BandHeight;
        fontSize := RowFontSize;
      }
    }

    /** One pass of the loop. `drawnHeight` is how far fpdf's `multi_cell`
        moved the cursor when it wrapped the detail text; the cursor is
        then put back at the row's start x and its start y plus the
        estimated height. The page count assumes `multi_cell` stays within
        the estimated height: fpdf's own break inside it is not modelled. */
    method AddRow(row: RowText, drawnHeight: int)
      requires Valid()
      modifies this
      ensures Valid()
      ensures placed == old(placed) + [Place(old(State()), row, geometry)]
      ensures State() == Advance(old(State()), row, geometry)
    {
      ghost var before := State();
      var h := RowHeight(row.detail);
      var brk := BreakIfNeeded(h);
      assert brk == Breaks(before, row);
      var colour := if fill then Tint else White;
      var xStart, yStart := x, y;
      x := x + DateWidth;
      var departmentFont: nat;
      if |row.department| > LongDepartment {
        fontSize := SmallFontSize;
        departmentFont := fontSize;
        x := x + DepartmentWidth;
        fontSize := RowFontSize;
      } else {
        departmentFont := fontSize;
        x := x + DepartmentWidth;
      }
      assert departmentFont == DepartmentFont(row.department);
      x := x + SourceWidth;
      x := x + CountWidth;
      var detailX := xStart + DateWidth + DepartmentWidth + SourceWidth + CountWidth;
      x, y := detailX, yStart;
      x, y := geometry.left, yStart + drawnHeight;
      x, y := xStart, yStart + h;
      fill := !fill;
      assert Place(before, row, geometry) == Placement(row, page, xStart, yStart, h, brk, colour, departmentFont, detailX);
      placed := placed + [Placement(row, page, xStart, yStart, h, brk, colour, departmentFont, detailX)];
    }
  }

  /** The row texts of the records, in the given order. */
  function Rows(rs: seq<Record>): (t: seq<RowText>)
    requires forall r :: r in rs ==> Valid(r.date)
    ensures |t| == |rs|
  {
    seq(|rs|, i requires 0 <= i < |rs| => RowTextOf(rs[i]))
  }

  /** The title line: `BEYKOZ HABER RAPORU (<start> - <end>)`, transliterated. */
  function Title(start: DateArg, end: DateArg): string
    requires ValidArg(start) && ValidArg(end)
  {
    TranslitText("BEYKOZ HABER RAPORU (" + FormatDate(start) + " - " + FormatDate(end) + ")")
  }

  /** One pass of the loop peels one row off the rest of the plan. */
  lemma PlanFromStep(done: seq<Placement>, rows: seq<RowText>, k: nat, g: Geometry, c: Cursor)
    requires k < |rows|
    ensures done + PlanFrom(rows[k..], g, c)
      == (done + [Place(c, rows[k], g)]) + PlanFrom(rows[k + 1..], g, Advance(c, rows[k], g))
  {
    assert rows[k..][1..] == rows[k + 1..];
  }

  /** The `for _, row in df_sorted.iterrows()` loop over the pdf object:
      the placements it draws are the layout `Plan` of the rows. `drawn`
      stands for the height fpdf's `multi_cell` actually gives a detail
      text. */
  method LayoutRows(rows: seq<RowText>, g: Geometry, drawn: string -> int) returns (placements: seq<Placement>)
    ensures placements == Plan(rows, g)
  {
    var cursor := new TableCursor(g);
    var k := 0;
    while k < |rows|
      invariant 0 <= k <= |rows|
      invariant cursor.geometry == g && cursor.Valid()
      invariant cursor.placed + PlanFrom(rows[k..], g, cursor.State()) == Plan(rows, g)
    {
      PlanFromStep(cursor.placed, rows, k, g, cursor.State());
      cursor.AddRow(rows[k], drawn(rows[k].detail));
      k := k + 1;
    }
    assert rows[k..] == [];
    placements := cursor.placed;
  }

  /** The layout of the sorted records has one placement per record, in
      sorted order, white and tinted by turns starting with white. */
  lemma PlanOfRecords(records: seq<Record>, g: Geometry)
    requires forall r :: r in records ==> Valid(r.date)
    ensures |Plan(Rows(SortByKey(records)), g)| == |records|
    ensures forall i :: 0 <= i < |records| ==>
      var p := Plan(Rows(SortByKey(records)), g)[i];
      && p.row == RowTextOf(SortByKey(records)[i])
      && p.fill == (if i % 2 == 1 then Tint else White)
      && p.height == RowHeight(p.row.detail)
  {
    var sorted := SortByKey(records);
    var rows := Rows(sorted);
    PlanRows(rows, g, Cursor(1, FirstRowTop(g), false));
    forall i | 0 <= i < |records|
      ensures Plan(rows, g)[i].row == RowTextOf(sorted[i])
    {
      assert Plan(rows, g)[i].row == rows[i];
    }
  }

  /** The table part of `create_pdf_report(dataframe, bas_t, bit_t)`:
      the title, then one placement per record, in ascending (date,
      department) order, shaded white and tinted by turns. */
  method LayoutReport(records: seq<Record>, start: DateArg, end: DateArg, g: Geometry, drawn: string -> int)
    returns (title: string, placements: seq<Placement>)
    requires forall r :: r in records ==> Valid(r.date)
    requires ValidArg(start) && ValidArg(end)
    ensures title == Title(start, end)
    ensures placements == Plan(Rows(SortByKey(records)), g)
    ensures |placements| == |records|
    ensures forall i :: 0 <= i < |placements| ==>
      && placements[i].row == RowTextOf(SortByKey(records)[i])
      && placements[i].fill == (if i % 2 == 1 then Tint else White)
      && placements[i].height == RowHeight(placements[i].row.detail)
  {
    title := Title(start, end);
    var sorted := SortByKey(records);
    var rows := Rows(sorted);
    placements := LayoutRows(rows, g, drawn);
    PlanOfRecords(records, g);
  }
}
