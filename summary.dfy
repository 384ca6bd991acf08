/** `ozet_metni_olustur`: the summary of one (date, department) group for
    the Excel and HTML exports — the total count, the per-source totals
    written `k: v` and joined by `, `, and one `- detail (source)` line per
    record joined by newlines. */
module Summary {
  import opened Text
  import opened Records

  /** One entry of `grup.groupby('Haber_Kaynagi')['Sayı'].sum()`. */
  datatype SourceTotal = SourceTotal(source: string, total: int)

  function Keys(ts: seq<SourceTotal>): set<string>
  {
    set i | 0 <= i < |ts| :: ts[i].source
  }

  /** groupby sorts its keys: sources strictly ascending, so each once. */
  predicate Ascending(ts: seq<SourceTotal>)
  {
    forall i, j :: 0 <= i < j < |ts| ==> StrLess(ts[i].source, ts[j].source)
  }

  /** The sum of the totals of the entries for source `k`. */
  function Lookup(ts: seq<SourceTotal>, k: string): int
  {
    if ts == [] then 0 else (if ts[0].source == k then ts[0].total else 0) + Lookup(ts[1..], k)
  }

  /** The sum of all the totals of a breakdown. */
  function GrandTotal(ts: seq<SourceTotal>): int
  {
    if ts == [] then 0 else ts[0].total + GrandTotal(ts[1..])
  }

  /** The counts of the group's records from source `k`, added up. */
  function SourceSum(group: seq<Record>, k: string): int
  {
    if group == [] then 0
    else SourceSum(group[..|group| - 1], k) + (if group[|group| - 1].source == k then group[|group| - 1].count else 0)
  }

  function Sources(group: seq<Record>): set<string>
  {
    set i | 0 <= i < |group| :: group[i].source
  }

  /** Adds one record's count to a breakdown kept in ascending source
      order: to the source's entry, or as a new entry in its place. */
  function AddTo(ts: seq<SourceTotal>, source: string, count: int): seq<SourceTotal>
  {
    if ts == [] then [SourceTotal(source, count)]
    else if ts[0].source == source then [SourceTotal(source, ts[0].total + count)] + ts[1..]
    else if StrLess(source, ts[0].source) then [SourceTotal(source, count)] + ts
    else [ts[0]] + AddTo(ts[1..], source, count)
  }

  /** The per-source totals of a group. */
  function SourceTotals(group: seq<Record>): seq<SourceTotal>
  {
    if group == [] then []
    else
      var last := group[|group| - 1];
      AddTo(SourceTotals(group[..|group| - 1]), last.source, last.count)
  }

  /** Adding to a breakdown adds the count to its source's total and to
      the grand total, and leaves the other sources' totals alone. */
  lemma {:induction false} AddToSums(ts: seq<SourceTotal>, source: string, count: int)
    ensures GrandTotal(AddTo(ts, source, count)) == GrandTotal(ts) + count
    ensures forall k :: Lookup(AddTo(ts, source, count), k) == Lookup(ts, k) + (if k == source then count else 0)
  {
    if ts != [] && ts[0].source != source && !StrLess(source, ts[0].source) {
      AddToSums(ts[1..], source, count);
      assert AddTo(ts, source, count)[1..] == AddTo(ts[1..], source, count);
    } else if ts != [] {
      assert AddTo(ts, source, count)[1..] == if ts[0].source == source then ts[1..] else ts;
    }
  }

  lemma KeysCons(t: SourceTotal, ts: seq<SourceTotal>)
    ensures Keys([t] + ts) == {t.source} + Keys(ts)
  {
    var r := [t] + ts;
    assert r[0].source == t.source;
    forall x | x in Keys(r)
      ensures x in {t.source} + Keys(ts)
    {
      var i :| 0 <= i < |r| && r[i].source == x;
      if i > 0 {
        assert ts[i - 1].source == x;
      }
    }
    forall x | x in Keys(ts)
      ensures x in Keys(r)
    {
      var i :| 0 <= i < |ts| && ts[i].source == x;
      assert r[i + 1].source == x;
    }
  }

  lemma {:induction false} AddToKeys(ts: seq<SourceTotal>, source: string, count: int)
    ensures Keys(AddTo(ts, source, count)) == Keys(ts) + {source}
  {
    if ts != [] {
      assert ts == [ts[0]] + ts[1..];
      KeysCons(ts[0], ts[1..]);
      if ts[0].source == source {
        KeysCons(SourceTotal(source, ts[0].total + count), ts[1..]);
      } else if StrLess(source, ts[0].source) {
        KeysCons(SourceTotal(source, count), ts);
      } else {
        AddToKeys(ts[1..], source, count);
        KeysCons(ts[0], AddTo(ts[1..], source, count));
      }
    } else {
      KeysCons(SourceTotal(source, count), []);
      assert Keys([]) == {};
    }
  }

  /** Adding keeps the breakdown in ascending source order. */
  lemma {:induction false} AddToAscending(ts: seq<SourceTotal>, source: string, count: int)
    requires Ascending(ts)
    ensures Ascending(AddTo(ts, source, count))
  {
    var r := AddTo(ts, source, count);
    if ts == [] || ts[0].source == source {
    } else if StrLess(source, ts[0].source) {
      forall j | 1 <= j < |r|
        ensures StrLess(r[0].source, r[j].source)
      {
        if j > 1 {
          StrLessTransitive(source, ts[0].source, ts[j - 1].source);
        }
      }
    } else {
      StrLessTotal(source, ts[0].source);
      var rest := ts[1..];
      AddToAscending(rest, source, count);
      AddToKeys(rest, source, count);
      var r' := AddTo(rest, source, count);
      assert r[1..] == r';
      forall j | 1 <= j < |r|
        ensures StrLess(r[0].source, r[j].source)
      {
        assert r[j] == r'[j - 1];
        assert r[j].source in Keys(r');
        if r[j].source != source {
          var i :| 0 <= i < |rest| && rest[i].source == r[j].source;
          assert StrLess(ts[0].source, ts[i + 1].source);
        }
      }
    }
  }

  /** In an ascending breakdown an entry's total is what `Lookup` finds
      for its source. */
  lemma {:induction false} LookupAt(ts: seq<SourceTotal>, i: nat)
    requires Ascending(ts) && i < |ts|
    ensures Lookup(ts, ts[i].source) == ts[i].total
  {
    if i == 0 {
      LookupAbsent(ts[1..], ts[0].source);
    } else {
      StrLessIrreflexive(ts[i].source);
      LookupAt(ts[1..], i - 1);
    }
  }

  lemma {:induction false} LookupAbsent(ts: seq<SourceTotal>, k: string)
    requires forall i :: 0 <= i < |ts| ==> StrLess(k, ts[i].source)
    ensures Lookup(ts, k) == 0
  {
    if ts != [] {
      StrLessIrreflexive(k);
      LookupAbsent(ts[1..], k);
    }
  }

  /** The per-source breakdown lists each source of the group once, in
      ascending order; each entry's total is the sum of that source's
      counts; and the totals add up to the group's total. */
  lemma {:induction false} SourceTotalsCorrect(group: seq<Record>)
    ensures Ascending(SourceTotals(group))
    ensures Keys(SourceTotals(group)) == Sources(group)
    ensures forall k :: Lookup(SourceTotals(group), k) == SourceSum(group, k)
    ensures GrandTotal(SourceTotals(group)) == SumCounts(group)
  {
    if group != [] {
      var init, last := group[..|group| - 1], group[|group| - 1];
      SourceTotalsCorrect(init);
      AddToSums(SourceTotals(init), last.source, last.count);
      AddToKeys(SourceTotals(init), last.source, last.count);
      AddToAscending(SourceTotals(init), last.source, last.count);
      assert Sources(group) == Sources(init) + {last.source} by {
        assert forall i :: 0 <= i < |init| ==> group[i] == init[i];
      }
    }
  }

  lemma SourceTotalsEntries(group: seq<Record>)
    ensures forall i :: 0 <= i < |SourceTotals(group)| ==>
      SourceTotals(group)[i].total == SourceSum(group, SourceTotals(group)[i].source)
  {
    var ts := SourceTotals(group);
    SourceTotalsCorrect(group);
    forall i | 0 <= i < |ts|
      ensures ts[i].total == SourceSum(group, ts[i].source)
    {
      LookupAt(ts, i);
    }
  }

  /** `", ".join([f"{k}: {v}" for k, v in kaynak_dagilimi.items()])` */
  function RenderTotals(ts: seq<SourceTotal>): string
  {
    Join(", ", seq(|ts|, i requires 0 <= i < |ts| => ts[i].source + ": " + IntToString(ts[i].total)))
  }

  /** `f"- {row['Ayrıntı']} ({row['Haber_Kaynagi']})"` */
  function DetailLine(r: Record): string
  {
    "- " + r.detail + " (" + r.source + ")"
  }

  function DetailLines(group: seq<Record>): seq<string>
  {
    seq(|group|, i requires 0 <= i < |group| => DetailLine(group[i]))
  }

  /** `ozet_metni_olustur(grup)`: the total, which equals the sum of the
      per-source totals; the rendered breakdown; and the detail lines,
      one per record in row order, joined by newlines. */
  method Summarize(group: seq<Record>) returns (total: int, sourceText: string, details: string)
    ensures total == SumCounts(group) && total == GrandTotal(SourceTotals(group))
    ensures sourceText == RenderTotals(SourceTotals(group))
    ensures details == Join("\n", DetailLines(group))
  {
    total := SumCounts(group);
    SourceTotalsCorrect(group);
    sourceText := RenderTotals(SourceTotals(group));
    var lines: seq<string> := [];
    for i := 0 to |group|
      invariant lines == DetailLines(group[..i])
    {
      assert group[..i + 1] == group[..i] + [group[i]];
      lines := lines + [DetailLine(group[i])];
    }
    assert group[..|group|] == group;
    details := Join("\n", lines);
  }
}
