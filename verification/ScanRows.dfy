/** Which lines of a question bank a scan keeps, skips and reads, said by the lines themselves. */
module ScanRows {
  import opened Wrappers
  import opened Sorting
  import opened TwinRouterIngest
  import opened TwinRouterScan
  import opened TwinRouterTheorems

  // ---------------------------------------------------------------------------
  // The lines kept
  // ---------------------------------------------------------------------------

  /** The line is a row of the benchmark. */
  function IsOf(lines: seq<Line>, benchmark: string): nat -> bool {
    (i: nat) => i < |lines| && lines[i].Row? && lines[i].row.benchmark == benchmark
  }

  function Any(): nat -> bool { (i: nat) => true }

  function Before(i: nat, kind: nat -> bool): nat -> bool { (j: nat) => j < i && kind(j) }

  /** Of some line numbers, how many come before line `i` and are of this kind. */
  function Ahead(at: seq<nat>, i: nat, kind: nat -> bool): nat { |Filter<nat>(at, Before(i, kind))| }

  /** A third of the limit for each benchmark, the remainder to the earlier ones. */
  function Third(limit: int, benchmark: string): int {
    match benchmark
    case "swebench" => (limit + 2) / 3
    case "bfcl" => (limit + 1) / 3
    case "pinchbench" => limit / 3
    case _ => 0
  }

  /** The row converts, is wanted, and comes before the limit and its benchmark's third are used up. */
  ghost predicate Takes(lines: seq<Line>, o: ScanOptions, convert: Converter, kept: seq<nat>, i: nat)
    requires i < |lines|
  {
    && lines[i].Row? && convert(lines[i].row).Ok?
    && (o.limit.Some? ==> Ahead(kept, i, Any()) < o.limit.value)
    && (o.preferCodeTool ==>
          var b := lines[i].row.benchmark;
          && (b == "swebench" || b == "bfcl" || b == "pinchbench")
          && (o.limit.Some? ==> Ahead(kept, i, IsOf(lines, b)) < Third(o.limit.value, b)))
  }

  /** Of these line numbers, the ones before line `i` are those of the prefix. */
  ghost predicate Prefix(at: seq<nat>, i: nat, kind: nat -> bool, prefix: seq<nat>) {
    Filter<nat>(at, Before(i, kind)) == Filter<nat>(prefix, kind)
  }

  lemma PrefixOfItself(at: seq<nat>, i: nat, kind: nat -> bool)
    requires forall j | j in at :: j < i
    ensures Prefix(at, i, kind, at)
  {
    FilterAgrees<nat>(at, Before(i, kind), kind);
  }

  lemma PrefixStays(at: seq<nat>, j: nat, i: nat, kind: nat -> bool, prefix: seq<nat>, after: seq<nat>)
    requires Prefix(at, i, kind, prefix) && i <= j && (after == at || after == at + [j])
    ensures Prefix(after, i, kind, prefix)
  {
    FilterSnoc<nat>(at, j, Before(i, kind));
  }

  lemma KeptByLine(lines: seq<Line>, n: nat, o: ScanOptions, convert: Converter)
    requires n < |lines|
    ensures var before := Kept(lines, n, o, convert);
      Kept(lines, n + 1, o, convert) == if Keeps(lines, n, o, convert) then before + [n] else before
  {
  }

  lemma KeptAheadStep(lines: seq<Line>, n: nat, i: nat, o: ScanOptions, convert: Converter, kind: nat -> bool, prefix: seq<nat>)
    requires i <= n < |lines| && Prefix(Kept(lines, n, o, convert), i, kind, prefix)
    ensures Prefix(Kept(lines, n + 1, o, convert), i, kind, prefix)
  {
    KeptByLine(lines, n, o, convert);
    PrefixStays(Kept(lines, n, o, convert), n, i, kind, prefix, Kept(lines, n + 1, o, convert));
  }

  lemma {:induction false} KeptAhead(lines: seq<Line>, n: nat, i: nat, o: ScanOptions, convert: Converter, kind: nat -> bool)
    requires i <= n <= |lines|
    ensures Prefix(Kept(lines, n, o, convert), i, kind, Kept(lines, i, o, convert))
    decreases n
  {
    if i < n {
      KeptAhead(lines, n - 1, i, o, convert, kind);
      KeptAheadStep(lines, n - 1, i, o, convert, kind, Kept(lines, i, o, convert));
    } else {
      PrefixOfItself(Kept(lines, i, o, convert), i, kind);
    }
  }

  lemma {:induction false} KeptIff(lines: seq<Line>, n: nat, i: nat, o: ScanOptions, convert: Converter)
    requires i < |lines| && n <= |lines|
    ensures i in Kept(lines, n, o, convert) <==> i < n && Keeps(lines, i, o, convert)
  {
    if n > 0 {
      KeptIff(lines, n - 1, i, o, convert);
    }
  }

  lemma ThirdIsQuota(limit: int, benchmark: string)
    requires limit >= 1
    ensures Quota(limit, benchmark) == Third(limit, benchmark) >= 0
  {
    CodeToolName(benchmark);
    QuotasShareLimit(limit);
  }

  /** Counting the kept rows of a benchmark tells whether its quota still has room. */
  lemma RoomByKept(lines: seq<Line>, i: nat, o: ScanOptions, convert: Converter, benchmark: string)
    requires i <= |lines| && o.UsesQuotas() && o.limit.value >= 1 && IsCodeTool(benchmark)
    ensures |KeptRowsOf(lines, i, o, convert, benchmark)| < Quota(o.limit.value, benchmark)
      <==> |ConvertibleLines(lines, i, convert, benchmark)| < Quota(o.limit.value, benchmark)
  {
    ThirdIsQuota(o.limit.value, benchmark);
    KeptFiltered(lines, i, o, convert, benchmark);
    KeptOfIsFirst(lines, i, convert, benchmark, Quota(o.limit.value, benchmark));
  }

  lemma {:induction false} NotDoneBefore(lines: seq<Line>, n: nat, m: nat, o: ScanOptions, convert: Converter)
    requires n <= |lines| && n <= m < StopAt(lines, n, o, convert)
    ensures !Done(lines, m, o, convert)
    decreases |lines| - n
  {
    if n < m {
      NotDoneBefore(lines, n + 1, m, o, convert);
    }
  }

  /** The line comes before the scan stops exactly when the limit is not yet used up by the lines ahead of it. */
  lemma ReadIff(lines: seq<Line>, i: nat, o: ScanOptions, convert: Converter)
    requires i < |lines| && (o.limit.Some? ==> o.limit.value >= 1)
    ensures var stop := StopAt(lines, 0, o, convert);
      i < stop <==> o.limit.Some? ==> Ahead(KeptRows(lines, o, convert), i, Any()) < o.limit.value
  {
    var stop, kept := StopAt(lines, 0, o, convert), KeptRows(lines, o, convert);
    StopIsDone(lines, 0, o, convert);
    if i < stop {
      NotDoneBefore(lines, 0, i, o, convert);
      KeptAhead(lines, stop, i, o, convert, Any());
      FilterUniform<nat>(Kept(lines, i, o, convert), Any(), true);
    } else {
      FilterUniform<nat>(kept, Before(i, Any()), true);
    }
  }

  lemma QuotaByKept(lines: seq<Line>, i: nat, o: ScanOptions, convert: Converter)
    requires i < StopAt(lines, 0, o, convert) && lines[i].Row? && o.UsesQuotas() && o.limit.value >= 1 && IsCodeTool(lines[i].row.benchmark)
    ensures var b := lines[i].row.benchmark;
      WithinQuota(lines, i, o, convert) <==> Ahead(KeptRows(lines, o, convert), i, IsOf(lines, b)) < Third(o.limit.value, b)
  {
    var b := lines[i].row.benchmark;
    ThirdIsQuota(o.limit.value, b);
    RoomByKept(lines, i, o, convert, b);
    KeptAhead(lines, StopAt(lines, 0, o, convert), i, o, convert, IsOf(lines, b));
    FilterAgrees<nat>(Kept(lines, i, o, convert), IsOf(lines, b), OfBenchmark(lines, b));
  }

  /**
   * Greedy scanning. A line is kept exactly when it is a row that converts, from a wanted benchmark,
   * and the kept lines ahead of it have used up neither the limit nor its benchmark's third.
   */
  lemma ScanIsGreedy(lines: seq<Line>, o: ScanOptions, convert: Converter, i: nat)
    requires i < |lines| && (o.limit.Some? ==> o.limit.value >= 1)
    ensures i in KeptRows(lines, o, convert) <==> Takes(lines, o, convert, KeptRows(lines, o, convert), i)
  {
    KeptIff(lines, StopAt(lines, 0, o, convert), i, o, convert);
    ReadIff(lines, i, o, convert);
    if lines[i].Row? {
      CodeToolName(lines[i].row.benchmark);
      if i < StopAt(lines, 0, o, convert) && o.UsesQuotas() && IsCodeTool(lines[i].row.benchmark) {
        QuotaByKept(lines, i, o, convert);
      }
    }
  }

  ghost predicate Increasing(at: seq<nat>) { forall j, k | 0 <= j < k < |at| :: at[j] < at[k] }

  lemma KeptIncreaseStep(lines: seq<Line>, n: nat, o: ScanOptions, convert: Converter)
    requires n < |lines| && Increasing(Kept(lines, n, o, convert))
    ensures Increasing(Kept(lines, n + 1, o, convert))
  {
    KeptByLine(lines, n, o, convert);
  }

  lemma {:induction false} KeptIncrease(lines: seq<Line>, n: nat, o: ScanOptions, convert: Converter)
    requires n <= |lines|
    ensures Increasing(Kept(lines, n, o, convert))
  {
    if n > 0 {
      KeptIncrease(lines, n - 1, o, convert);
      KeptIncreaseStep(lines, n - 1, o, convert);
    }
  }

  // ---------------------------------------------------------------------------
  // The lines read and skipped
  // ---------------------------------------------------------------------------

  /** The scan reaches the line: the kept ones ahead of it have not used up the limit. */
  ghost predicate Reads(o: ScanOptions, kept: seq<nat>, i: nat) { o.limit.Some? ==> Ahead(kept, i, Any()) < o.limit.value }

  /** The line is reported as skipped: malformed, unwanted, or a wanted row with room that does not convert. */
  ghost predicate Skips(lines: seq<Line>, o: ScanOptions, convert: Converter, kept: seq<nat>, i: nat, reason: SkipReason)
    requires i < |lines|
  {
    && Reads(o, kept, i)
    && match lines[i]
       case Blank => false
       case Malformed => reason == SchemaInvalid
       case Row(row) =>
         var wanted := row.benchmark == "swebench" || row.benchmark == "bfcl" || row.benchmark == "pinchbench";
         if o.preferCodeTool && !wanted then reason == NonCodeToolWorkload
         else
           && (o.preferCodeTool && o.limit.Some? ==> Ahead(kept, i, IsOf(lines, row.benchmark)) < Third(o.limit.value, row.benchmark))
           && convert(row) == Err(reason)
  }

  lemma {:induction false} SkippedIff(lines: seq<Line>, n: nat, o: ScanOptions, convert: Converter, i: nat, reason: SkipReason)
    requires n <= |lines| && i < |lines|
    ensures Skip(i + 1, reason) in Skipped(lines, n, o, convert) <==> i < n && Skip(i + 1, reason) in SkipOf(lines, i, o, convert)
  {
    if n > 0 {
      SkippedIff(lines, n - 1, o, convert, i, reason);
    }
  }

  /** What a scan reports as skipped. */
  lemma ScanSkips(lines: seq<Line>, o: ScanOptions, convert: Converter, i: nat, reason: SkipReason)
    requires i < |lines| && (o.limit.Some? ==> o.limit.value >= 1)
    ensures Skip(i + 1, reason) in Skipped(lines, StopAt(lines, 0, o, convert), o, convert)
      <==> Skips(lines, o, convert, KeptRows(lines, o, convert), i, reason)
  {
    SkippedIff(lines, StopAt(lines, 0, o, convert), o, convert, i, reason);
    ReadIff(lines, i, o, convert);
    if lines[i].Row? {
      CodeToolName(lines[i].row.benchmark);
      if i < StopAt(lines, 0, o, convert) && o.UsesQuotas() && IsCodeTool(lines[i].row.benchmark) {
        QuotaByKept(lines, i, o, convert);
      }
    }
  }

  /** The drafts are the kept rows converted, in file order. */
  ghost predicate DraftsOfKept(drafts: seq<Draft>, lines: seq<Line>, kept: seq<nat>, convert: Converter) {
    && |drafts| == |kept|
    && forall j | 0 <= j < |kept| :: kept[j] < |lines| && lines[kept[j]].Row? && convert(lines[kept[j]].row) == Ok(drafts[j])
  }

  /** The first malformed line the scan reaches. */
  ghost predicate FirstBad(lines: seq<Line>, o: ScanOptions, kept: seq<nat>, i: nat) {
    i < |lines| && lines[i].Malformed? && Reads(o, kept, i) && forall j | 0 <= j < i :: !lines[j].Malformed?
  }

  lemma FirstBadIff(lines: seq<Line>, o: ScanOptions, convert: Converter, i: nat)
    requires o.limit.Some? ==> o.limit.value >= 1
    ensures FirstMalformed(lines, StopAt(lines, 0, o, convert)) == Some(i) <==> FirstBad(lines, o, KeptRows(lines, o, convert), i)
  {
    var stop := StopAt(lines, 0, o, convert);
    FirstMalformedIff(lines, stop, i);
    if i < |lines| {
      ReadIff(lines, i, o, convert);
    }
  }

  lemma {:induction false} FirstMalformedIff(lines: seq<Line>, n: nat, i: nat)
    requires n <= |lines|
    ensures FirstMalformed(lines, n) == Some(i) <==> i < n && lines[i].Malformed? && forall j | 0 <= j < i :: !lines[j].Malformed?
  {
    if n > 0 {
      FirstMalformedIff(lines, n - 1, i);
    }
  }

  lemma {:induction false} NothingReadIff(lines: seq<Line>, n: nat, o: ScanOptions, convert: Converter)
    requires n <= |lines|
    ensures RowCount(lines, n) == 0 && |Skipped(lines, n, o, convert)| == 0 <==> forall i | 0 <= i < n :: lines[i].Blank?
  {
    if n > 0 {
      NothingReadIff(lines, n - 1, o, convert);
    }
  }

  lemma {:induction false} BlanksKeepNothing(lines: seq<Line>, n: nat, o: ScanOptions, convert: Converter)
    requires n <= |lines| && forall i | 0 <= i < n :: lines[i].Blank?
    ensures Kept(lines, n, o, convert) == []
  {
    if n > 0 {
      BlanksKeepNothing(lines, n - 1, o, convert);
    }
  }

  lemma EmptyIff(lines: seq<Line>, o: ScanOptions, convert: Converter)
    requires o.limit.Some? ==> o.limit.value >= 1
    ensures var stop := StopAt(lines, 0, o, convert);
      RowCount(lines, stop) == 0 && |Skipped(lines, stop, o, convert)| == 0 <==> forall line | line in lines :: line.Blank?
  {
    var stop := StopAt(lines, 0, o, convert);
    NothingReadIff(lines, stop, o, convert);
    StopIsDone(lines, 0, o, convert);
    if forall i | 0 <= i < stop :: lines[i].Blank? {
      BlanksKeepNothing(lines, stop, o, convert);
    }
    assert forall i | 0 <= i < |lines| :: lines[i] in lines;
  }

  lemma {:induction false} RowsCounted(lines: seq<Line>, n: nat)
    requires n <= |lines|
    ensures RowCount(lines, n) == |set i | 0 <= i < n && lines[i].Row?|
  {
    var rows := set i | 0 <= i < n && lines[i].Row?;
    if n == 0 {
      assert rows == {};
    } else {
      RowsCounted(lines, n - 1);
      var before := set i | 0 <= i < n - 1 && lines[i].Row?;
      assert rows == before + if lines[n - 1].Row? then {n - 1} else {};
    }
  }

  /** The rows the scan reaches. */
  ghost function RowsRead(lines: seq<Line>, o: ScanOptions, kept: seq<nat>): set<int> {
    set i | 0 <= i < |lines| && lines[i].Row? && Reads(o, kept, i)
  }

  lemma ReadRowsCounted(lines: seq<Line>, o: ScanOptions, convert: Converter)
    requires o.limit.Some? ==> o.limit.value >= 1
    ensures RowCount(lines, StopAt(lines, 0, o, convert)) == |RowsRead(lines, o, KeptRows(lines, o, convert))|
  {
    var stop := StopAt(lines, 0, o, convert);
    RowsCounted(lines, stop);
    forall i | 0 <= i < |lines| ensures i < stop <==> Reads(o, KeptRows(lines, o, convert), i) {
      ReadIff(lines, i, o, convert);
    }
    assert (set i | 0 <= i < stop && lines[i].Row?) == RowsRead(lines, o, KeptRows(lines, o, convert));
  }

  /** How a scan ends: on the first malformed line it reaches when those are fatal, on a blank file, or with the kept rows' drafts. */
  lemma ScanEndsAs(lines: seq<Line>, o: ScanOptions, convert: Converter)
    requires o.limit.Some? ==> o.limit.value >= 1
    ensures var r, kept := ScanOutcome(lines, o, convert), KeptRows(lines, o, convert);
      && (forall i: nat :: r == Err(SchemaMismatch(i + 1)) <==> o.failOnSchemaMismatch && FirstBad(lines, o, kept, i))
      && (r == Err(EmptyInput) <==> forall line | line in lines :: line.Blank?)
      && Increasing(kept) && (r.Ok? ==> DraftsOfKept(r.value.drafts, lines, kept, convert))
      && (r.Ok? ==> r.value.skipped == Skipped(lines, StopAt(lines, 0, o, convert), o, convert))
      && (r.Ok? ==> r.value.parsedRows == |RowsRead(lines, o, kept)|)
  {
    var bad := FirstMalformed(lines, StopAt(lines, 0, o, convert));
    assert bad.Some? ==> lines[bad.value] in lines;
    KeptIncrease(lines, StopAt(lines, 0, o, convert), o, convert);
    ReadRowsCounted(lines, o, convert);
    EmptyIff(lines, o, convert);
    ScanReturnsKeptRows(lines, o, convert);
    forall i: nat
      ensures FirstMalformed(lines, StopAt(lines, 0, o, convert)) == Some(i) <==> FirstBad(lines, o, KeptRows(lines, o, convert), i)
    {
      FirstBadIff(lines, o, convert, i);
    }
  }
}
