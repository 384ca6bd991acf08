/** The records of the CSV file and the plain list logic around them: the
    fan-out of one form submission into one record per department
    (`veri_kaydet_dosyaya`), the filter mask of the report screen, and the
    "replace the group after an edit" update of the record list. */
module Records {
  import opened Dates

  /** One row: Tarih, Müdürlük, Haber_Kaynagi, Sayı, Ayrıntı. The entry
      timestamp Kayit_Zamani is informational and not modelled. */
  datatype Record = Record(date: Date, department: string, source: string, count: int, detail: string)

  /** `grup['Sayı'].sum()`: 0 for no rows. */
  function SumCounts(rows: seq<Record>): int
  {
    if rows == [] then 0 else SumCounts(rows[..|rows| - 1]) + rows[|rows| - 1].count
  }

  lemma SumCountsAppend(rows: seq<Record>, r: Record)
    ensures SumCounts(rows + [r]) == SumCounts(rows) + r.count
  {
    assert (rows + [r])[..|rows|] == rows;
  }

  lemma {:induction false} SumCountsConcat(a: seq<Record>, b: seq<Record>)
    ensures SumCounts(a + b) == SumCounts(a) + SumCounts(b)
    decreases |b|
  {
    if b != [] {
      var b' := b[..|b| - 1];
      assert a + b == (a + b') + [b[|b| - 1]];
      SumCountsAppend(a + b', b[|b| - 1]);
      SumCountsConcat(a, b');
      assert b == b' + [b[|b| - 1]];
      SumCountsAppend(b', b[|b| - 1]);
    } else {
      assert a + b == a;
    }
  }

  // ---------------------------------------------------------------------
  // veri_kaydet_dosyaya: the list of new rows

  /** One submission of the entry form becomes one record per selected
      department, in selection order, all sharing date, source, count and
      detail; together they add `count` once per department to the total.
      Appending them to the file is not modelled. */
  method FanOut(date: Date, departments: seq<string>, source: string, count: int, detail: string)
    returns (rows: seq<Record>)
    ensures |rows| == |departments|
    ensures forall i :: 0 <= i < |rows| ==> rows[i] == Record(date, departments[i], source, count, detail)
    ensures SumCounts(rows) == |departments| * count
  {
    rows := [];
    for i := 0 to |departments|
      invariant |rows| == i
      invariant forall j :: 0 <= j < i ==> rows[j] == Record(date, departments[j], source, count, detail)
      invariant SumCounts(rows) == i * count
    {
      var r := Record(date, departments[i], source, count, detail);
      SumCountsAppend(rows, r);
      rows := rows + [r];
    }
  }

  // ---------------------------------------------------------------------
  // The filter mask of the report screen

  /** `(Tarih >= bas) & (Tarih <= bit)`, narrowed by department and by
      source only when that selection is not empty. */
  predicate Selected(r: Record, start: Date, end: Date, departments: seq<string>, sources: seq<string>)
  {
    && AtOrBefore(start, r.date) && AtOrBefore(r.date, end)
    && (|departments| == 0 || r.department in departments)
    && (|sources| == 0 || r.source in sources)
  }

  /** `df.loc[mask]`: the selected rows, in file order. */
  function Filter(rows: seq<Record>, start: Date, end: Date, departments: seq<string>, sources: seq<string>): seq<Record>
  {
    if rows == [] then []
    else
      var last := rows[|rows| - 1];
      Filter(rows[..|rows| - 1], start, end, departments, sources)
        + (if Selected(last, start, end, departments, sources) then [last] else [])
  }

  /** The filter keeps every selected row as often as it occurs and drops
      every other row. */
  lemma {:induction false} FilterCounts(rows: seq<Record>, start: Date, end: Date, departments: seq<string>, sources: seq<string>, r: Record)
    ensures multiset(Filter(rows, start, end, departments, sources))[r]
      == if Selected(r, start, end, departments, sources) then multiset(rows)[r] else 0
  {
    if rows != [] {
      var init := rows[..|rows| - 1];
      FilterCounts(init, start, end, departments, sources, r);
      assert rows == init + [rows[|rows| - 1]];
    }
  }

  /** The filter keeps file order: filtering two stretches of the file is
      filtering each and putting the results together. */
  lemma {:induction false} FilterConcat(a: seq<Record>, b: seq<Record>, start: Date, end: Date, departments: seq<string>, sources: seq<string>)
    ensures Filter(a + b, start, end, departments, sources)
      == Filter(a, start, end, departments, sources) + Filter(b, start, end, departments, sources)
    decreases |b|
  {
    if b == [] {
      assert a + b == a;
    } else {
      var b' := b[..|b| - 1];
      assert (a + b)[..|a + b| - 1] == a + b';
      FilterConcat(a, b', start, end, departments, sources);
    }
  }

  /** A selected row's date lies, on the timeline, between the two ends
      of the range, both included; a range that ends before it starts
      selects nothing. */
  lemma SelectedInRange(r: Record, start: Date, end: Date, departments: seq<string>, sources: seq<string>)
    requires Valid(r.date) && Valid(start) && Valid(end)
    ensures Selected(r, start, end, departments, sources) ==>
      Ordinal(start) <= Ordinal(r.date) <= Ordinal(end)
    ensures Before(end, start) ==> !Selected(r, start, end, departments, sources)
  {
    BeforeIsChronological(start, r.date);
    BeforeIsChronological(r.date, end);
    BeforeIsChronological(end, start);
  }

  /** With no department and no source chosen, only the date range
      decides. */
  lemma EmptySelectionsIgnored(r: Record, start: Date, end: Date)
    ensures Selected(r, start, end, [], []) <==> AtOrBefore(start, r.date) && AtOrBefore(r.date, end)
  {
  }

  // ---------------------------------------------------------------------
  // Saving an edited group

  /** `df.drop(grup.index)`: the rows whose position is not in the group,
      in file order. */
  function Drop(rows: seq<Record>, group: set<int>): seq<Record>
  {
    if rows == [] then []
    else Drop(rows[..|rows| - 1], group) + (if |rows| - 1 in group then [] else [rows[|rows| - 1]])
  }

  /** The group's own rows, in file order. */
  function Take(rows: seq<Record>, group: set<int>): seq<Record>
  {
    if rows == [] then []
    else Take(rows[..|rows| - 1], group) + (if |rows| - 1 in group then [rows[|rows| - 1]] else [])
  }

  /** Drop the group's rows, then, when the edited table is not empty,
      `pd.concat([df, edited_grup], ignore_index=True)`. */
  function ReplaceGroup(rows: seq<Record>, group: set<int>, edited: seq<Record>): (r: seq<Record>)
    ensures |r| == |Drop(rows, group)| + |edited|
    ensures r[..|Drop(rows, group)|] == Drop(rows, group)
    ensures r[|Drop(rows, group)|..] == edited
  {
    if edited == [] then Drop(rows, group) else Drop(rows, group) + edited
  }

  /** Every row is either dropped or in the group, never both. */
  lemma {:induction false} DropTakeSplit(rows: seq<Record>, group: set<int>)
    ensures multiset(Drop(rows, group)) + multiset(Take(rows, group)) == multiset(rows)
    ensures |Drop(rows, group)| + |Take(rows, group)| == |rows|
  {
    if rows != [] {
      var init, last := rows[..|rows| - 1], rows[|rows| - 1];
      DropTakeSplit(init, group);
      assert rows == init + [last];
      assert multiset(rows) == multiset(init) + multiset{last};
      if |rows| - 1 in group {
        assert Take(rows, group) == Take(init, group) + [last];
        assert Drop(rows, group) == Drop(init, group) + [];
      } else {
        assert Drop(rows, group) == Drop(init, group) + [last];
        assert Take(rows, group) == Take(init, group) + [];
      }
    }
  }

  /** After the update the rows are the ones outside the group and the
      edited ones; saving a group unedited only moves it to the end, and
      the total count is that of the rows outside the group plus the
      edited ones. */
  lemma ReplaceGroupContents(rows: seq<Record>, group: set<int>, edited: seq<Record>)
    ensures multiset(ReplaceGroup(rows, group, edited))
      == multiset(rows) - multiset(Take(rows, group)) + multiset(edited)
    ensures multiset(ReplaceGroup(rows, group, Take(rows, group))) == multiset(rows)
    ensures SumCounts(ReplaceGroup(rows, group, edited)) == SumCounts(Drop(rows, group)) + SumCounts(edited)
  {
    DropTakeSplit(rows, group);
    SumCountsConcat(Drop(rows, group), edited);
    if edited == [] {
      assert Drop(rows, group) + edited == Drop(rows, group);
    }
  }
}
