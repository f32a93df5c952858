/** The question-bank scan: skip reasons, per-benchmark quotas and the early exit on the limit. */
module TwinRouterScan {
  import opened Wrappers
  import opened TwinRouterIngest

  /** How a row becomes a draft; `ConvertUpstreamRow` with its digests fixed. */
  type Converter = UpstreamRow -> Result<Draft, SkipReason>

  /** A line of the file after JSON and schema parsing. */
  datatype Line = Blank | Malformed | Row(row: UpstreamRow)

  datatype ScanOptions = ScanOptions(limit: Option<int>, failOnSchemaMismatch: bool, preferCodeTool: bool) {
    predicate UsesQuotas() { preferCodeTool && limit.Some? }

    /** The number of drafts that ends the loop. */
    function Target(): Option<nat> {
      match limit
      case None => None
      case Some(n) => Some(if n < 1 then 1 else n)
    }
  }

  datatype Skip = Skip(line: nat, reason: SkipReason)

  datatype ScanResult = ScanResult(drafts: seq<Draft>, skipped: seq<Skip>, parsedRows: nat)

  // ---------------------------------------------------------------------------
  // The scan without an early exit
  // ---------------------------------------------------------------------------

  predicate Convertible(line: Line, convert: Converter) { line.Row? && convert(line.row).Ok? }

  /** Convertible rows of one benchmark among the first `n` lines, in file order. */
  function ConvertibleLines(lines: seq<Line>, n: nat, convert: Converter, benchmark: string): (r: seq<nat>)
    requires n <= |lines|
    ensures forall i | i in r :: i < n && Convertible(lines[i], convert) && lines[i].row.benchmark == benchmark
  {
    if n == 0 then []
    else
      ConvertibleLines(lines, n - 1, convert, benchmark)
      + if Convertible(lines[n - 1], convert) && lines[n - 1].row.benchmark == benchmark then [n - 1] else []
  }

  predicate WithinQuota(lines: seq<Line>, i: nat, o: ScanOptions, convert: Converter)
    requires i < |lines| && lines[i].Row?
  {
    o.UsesQuotas() ==>
      |ConvertibleLines(lines, i, convert, lines[i].row.benchmark)| < Quota(o.limit.value, lines[i].row.benchmark)
  }

  predicate Keeps(lines: seq<Line>, i: nat, o: ScanOptions, convert: Converter)
    requires i < |lines|
  {
    && Convertible(lines[i], convert)
    && (o.preferCodeTool ==> IsCodeTool(lines[i].row.benchmark))
    && WithinQuota(lines, i, o, convert)
  }

  /** The rows kept among the first `n` lines if the loop never stopped early. */
  function Kept(lines: seq<Line>, n: nat, o: ScanOptions, convert: Converter): (r: seq<nat>)
    requires n <= |lines|
    ensures forall j | 0 <= j < |r| :: r[j] < n && Keeps(lines, r[j], o, convert)
  {
    if n == 0 then []
    else Kept(lines, n - 1, o, convert) + if Keeps(lines, n - 1, o, convert) then [n - 1] else []
  }

  function SkipOf(lines: seq<Line>, i: nat, o: ScanOptions, convert: Converter): seq<Skip>
    requires i < |lines|
  {
    match lines[i]
    case Blank => []
    case Malformed => [Skip(i + 1, SchemaInvalid)]
    case Row(row) =>
      if o.preferCodeTool && !IsCodeTool(row.benchmark) then [Skip(i + 1, NonCodeToolWorkload)]
      else if !WithinQuota(lines, i, o, convert) then []
      else
        match convert(row)
        case Ok(_) => []
        case Err(reason) => [Skip(i + 1, reason)]
  }

  function Skipped(lines: seq<Line>, n: nat, o: ScanOptions, convert: Converter): seq<Skip>
    requires n <= |lines|
  {
    if n == 0 then [] else Skipped(lines, n - 1, o, convert) + SkipOf(lines, n - 1, o, convert)
  }

  function RowCount(lines: seq<Line>, n: nat): nat
    requires n <= |lines|
  {
    if n == 0 then 0 else RowCount(lines, n - 1) + if lines[n - 1].Row? then 1 else 0
  }

  function DraftAt(lines: seq<Line>, i: nat, convert: Converter): Draft
    requires i < |lines| && Convertible(lines[i], convert)
  {
    convert(lines[i].row).value
  }

  function DraftsAt(lines: seq<Line>, at: seq<nat>, convert: Converter): (r: seq<Draft>)
    requires forall j | 0 <= j < |at| :: at[j] < |lines| && Convertible(lines[at[j]], convert)
    ensures |r| == |at|
    ensures forall j | 0 <= j < |at| :: r[j] == DraftAt(lines, at[j], convert)
  {
    seq(|at|, j requires 0 <= j < |at| => DraftAt(lines, at[j], convert))
  }

  // ---------------------------------------------------------------------------
  // The early exit
  // ---------------------------------------------------------------------------

  /** The loop has reached its target after the first `n` lines. */
  predicate Done(lines: seq<Line>, n: nat, o: ScanOptions, convert: Converter)
    requires n <= |lines|
  {
    o.Target().Some? && |Kept(lines, n, o, convert)| >= o.Target().value
  }

  /** Where the loop stops: after the line that reaches the target, or at the end. */
  function StopAt(lines: seq<Line>, n: nat, o: ScanOptions, convert: Converter): (stop: nat)
    requires n <= |lines|
    ensures n <= stop <= |lines|
    decreases |lines| - n
  {
    if n == |lines| || Done(lines, n, o, convert) then n else StopAt(lines, n + 1, o, convert)
  }

  /** First malformed line before `n`. */
  function FirstMalformed(lines: seq<Line>, n: nat): (r: Option<nat>)
    requires n <= |lines|
    ensures r.Some? ==> r.value < n && lines[r.value].Malformed?
    ensures r.None? ==> forall i | 0 <= i < n :: !lines[i].Malformed?
  {
    if n == 0 then None
    else if FirstMalformed(lines, n - 1).Some? then FirstMalformed(lines, n - 1)
    else if lines[n - 1].Malformed? then Some(n - 1)
    else None
  }

  /** `slice(0, n)` of a list; a negative `n` drops that many from the end. */
  function SliceTo<T>(s: seq<T>, n: int): seq<T> {
    if n >= |s| then s else if n >= 0 then s[..n] else if -n >= |s| then [] else s[..|s| + n]
  }

  /** A limit below one keeps nothing. */
  function Limited(drafts: seq<Draft>, o: ScanOptions): seq<Draft> {
    if o.limit.Some? && o.limit.value < 1 then [] else drafts
  }

  lemma SliceIsLimited(drafts: seq<Draft>, o: ScanOptions)
    requires o.Target().Some? ==> |drafts| <= o.Target().value
    ensures (if o.limit.Some? then SliceTo(drafts, o.limit.value) else drafts) == Limited(drafts, o)
  {
  }

  /** What the scan of the first `stop` lines returns. */
  function OutcomeAt(lines: seq<Line>, stop: nat, o: ScanOptions, convert: Converter): Result<ScanResult, IngestError>
    requires stop <= |lines|
  {
    if o.failOnSchemaMismatch && FirstMalformed(lines, stop).Some? then
      Err(SchemaMismatch(FirstMalformed(lines, stop).value + 1))
    else if RowCount(lines, stop) == 0 && |Skipped(lines, stop, o, convert)| == 0 then Err(EmptyInput)
    else
      Ok(ScanResult(Limited(DraftsAt(lines, Kept(lines, stop, o, convert), convert), o),
                    Skipped(lines, stop, o, convert), RowCount(lines, stop)))
  }

  function ScanOutcome(lines: seq<Line>, o: ScanOptions, convert: Converter): Result<ScanResult, IngestError> {
    if o.UsesQuotas() && o.limit.value < 1 then Err(InvalidQuotaLimit)
    else OutcomeAt(lines, StopAt(lines, 0, o, convert), o, convert)
  }

  lemma MalformedStays(lines: seq<Line>, i: nat, n: nat)
    requires i < n <= |lines| && lines[i].Malformed? && FirstMalformed(lines, i).None?
    ensures FirstMalformed(lines, n) == Some(i)
  {
    if n > i + 1 {
      MalformedStays(lines, i, n - 1);
    }
  }

  /** The counter of a benchmark: its convertible rows so far, capped by its quota. */
  function TakenOf(lines: seq<Line>, n: nat, limit: int, convert: Converter, benchmark: string): int
    requires n <= |lines|
  {
    var seen, quota := |ConvertibleLines(lines, n, convert, benchmark)|, Quota(limit, benchmark);
    if seen < quota then seen else quota
  }

  ghost predicate CountersAgree(taken: map<string, int>, lines: seq<Line>, n: nat, o: ScanOptions, convert: Converter)
    requires n <= |lines|
  {
    o.UsesQuotas() ==> forall b | IsCodeTool(b) ::
      (if b in taken then taken[b] else 0) == TakenOf(lines, n, o.limit.value, convert, b)
  }

  /** The counters after a line: bumped for the benchmark of a kept row. */
  function Bumped(taken: map<string, int>, benchmark: string): map<string, int> {
    taken[benchmark := (if benchmark in taken then taken[benchmark] else 0) + 1]
  }

  lemma CountersStep(taken: map<string, int>, lines: seq<Line>, i: nat, o: ScanOptions, convert: Converter)
    requires i < |lines| && CountersAgree(taken, lines, i, o, convert)
    requires o.UsesQuotas() ==> o.limit.value >= 1
    ensures CountersAgree(if o.UsesQuotas() && Keeps(lines, i, o, convert) then Bumped(taken, lines[i].row.benchmark) else taken,
                          lines, i + 1, o, convert)
  {
    if o.UsesQuotas() {
      QuotasShareLimit(o.limit.value);
    }
  }

  lemma OverQuota(taken: map<string, int>, lines: seq<Line>, i: nat, o: ScanOptions, convert: Converter)
    requires i < |lines| && CountersAgree(taken, lines, i, o, convert) && o.UsesQuotas()
    requires lines[i].Row? && IsCodeTool(lines[i].row.benchmark)
    ensures var b := lines[i].row.benchmark;
      (if b in taken then taken[b] else 0) >= Quota(o.limit.value, b) <==> !WithinQuota(lines, i, o, convert)
  {
  }

  /** One line past the schema check: a draft to keep, or the reason it is skipped, or neither. */
  method ScanLine(lines: seq<Line>, i: nat, o: ScanOptions, convert: Converter, quotas: map<string, int>, taken: map<string, int>)
    returns (draft: Option<Draft>, skip: seq<Skip>)
    requires i < |lines| && CountersAgree(taken, lines, i, o, convert)
    requires o.UsesQuotas() ==> forall b | IsCodeTool(b) :: b in quotas && quotas[b] == Quota(o.limit.value, b)
    ensures draft == if Keeps(lines, i, o, convert) then Some(DraftAt(lines, i, convert)) else None
    ensures skip == SkipOf(lines, i, o, convert)
  {
    match lines[i] {
      case Blank => return None, [];
      case Malformed => return None, [Skip(i + 1, SchemaInvalid)];
      case Row(row) =>
        if o.preferCodeTool && !IsCodeTool(row.benchmark) {
          return None, [Skip(i + 1, NonCodeToolWorkload)];
        }
        if o.UsesQuotas() {
          OverQuota(taken, lines, i, o, convert);
          if (if row.benchmark in taken then taken[row.benchmark] else 0) >= quotas[row.benchmark] {
            return None, [];
          }
        }
        match convert(row) {
          case Err(reason) => return None, [Skip(i + 1, reason)];
          case Ok(converted) => return Some(converted), [];
        }
    }
  }

  /** What the loop has accumulated after the first `i` lines. */
  ghost predicate Accumulated(lines: seq<Line>, i: nat, o: ScanOptions, convert: Converter,
                              drafts: seq<Draft>, skipped: seq<Skip>, parsedRows: nat, taken: map<string, int>)
    requires i <= |lines|
  {
    && drafts == DraftsAt(lines, Kept(lines, i, o, convert), convert)
    && skipped == Skipped(lines, i, o, convert) && parsedRows == RowCount(lines, i)
    && CountersAgree(taken, lines, i, o, convert)
  }

  lemma AccumulateLine(lines: seq<Line>, i: nat, o: ScanOptions, convert: Converter,
                       drafts: seq<Draft>, skipped: seq<Skip>, parsedRows: nat, taken: map<string, int>)
    requires i < |lines| && Accumulated(lines, i, o, convert, drafts, skipped, parsedRows, taken)
    requires o.UsesQuotas() ==> o.limit.value >= 1
    ensures var rows := parsedRows + if lines[i].Row? then 1 else 0;
      if Keeps(lines, i, o, convert) then
        Accumulated(lines, i + 1, o, convert, drafts + [DraftAt(lines, i, convert)], skipped + SkipOf(lines, i, o, convert), rows,
                    if o.UsesQuotas() then Bumped(taken, lines[i].row.benchmark) else taken)
      else Accumulated(lines, i + 1, o, convert, drafts, skipped + SkipOf(lines, i, o, convert), rows, taken)
  {
    CountersStep(taken, lines, i, o, convert);
  }

  /** The loop's results once it stops without an error. */
  lemma AccumulatedOutcome(lines: seq<Line>, stop: nat, o: ScanOptions, convert: Converter,
                           drafts: seq<Draft>, skipped: seq<Skip>, parsedRows: nat, taken: map<string, int>)
    requires stop <= |lines| && Accumulated(lines, stop, o, convert, drafts, skipped, parsedRows, taken)
    requires o.failOnSchemaMismatch ==> FirstMalformed(lines, stop).None?
    ensures OutcomeAt(lines, stop, o, convert)
         == if parsedRows == 0 && |skipped| == 0 then Err(EmptyInput)
            else Ok(ScanResult(Limited(drafts, o), skipped, parsedRows))
    ensures |drafts| == |Kept(lines, stop, o, convert)|
  {
  }

  datatype ScanState = ScanState(drafts: seq<Draft>, skipped: seq<Skip>, parsedRows: nat, taken: map<string, int>)

  ghost predicate StateAt(lines: seq<Line>, i: nat, o: ScanOptions, convert: Converter, s: ScanState)
    requires i <= |lines|
  {
    Accumulated(lines, i, o, convert, s.drafts, s.skipped, s.parsedRows, s.taken)
  }

  /** One pass of the loop body, up to the limit check. */
  method ScanStep(lines: seq<Line>, i: nat, o: ScanOptions, convert: Converter, quotas: map<string, int>, s: ScanState)
    returns (r: ScanState)
    requires i < |lines| && StateAt(lines, i, o, convert, s)
    requires o.UsesQuotas() ==> o.limit.value >= 1
    requires o.UsesQuotas() ==> forall b | IsCodeTool(b) :: b in quotas && quotas[b] == Quota(o.limit.value, b)
    ensures StateAt(lines, i + 1, o, convert, r)
  {
    var draft, skip := ScanLine(lines, i, o, convert, quotas, s.taken);
    AccumulateLine(lines, i, o, convert, s.drafts, s.skipped, s.parsedRows, s.taken);
    r := s.(parsedRows := s.parsedRows + if lines[i].Row? then 1 else 0, skipped := s.skipped + skip);
    if draft.Some? {
      r := r.(drafts := s.drafts + [draft.value],
              taken := if o.UsesQuotas() then Bumped(s.taken, lines[i].row.benchmark) else s.taken);
    }
  }

  /** The loop head before line i: no malformed line met, the target not reached. */
  ghost predicate Scanning(lines: seq<Line>, i: nat, o: ScanOptions, convert: Converter, s: ScanState) {
    && i <= |lines| && StateAt(lines, i, o, convert, s) && !Done(lines, i, o, convert)
    && (o.failOnSchemaMismatch ==> FirstMalformed(lines, i).None?)
    && StopAt(lines, 0, o, convert) == StopAt(lines, i, o, convert)
  }

  /** The state where the loop stops. */
  ghost predicate Stopped(lines: seq<Line>, o: ScanOptions, convert: Converter, s: ScanState) {
    var stop := StopAt(lines, 0, o, convert);
    && StateAt(lines, stop, o, convert, s)
    && (o.failOnSchemaMismatch ==> FirstMalformed(lines, stop).None?)
    && (o.Target().Some? ==> |s.drafts| <= o.Target().value)
  }

  lemma ScanStarts(lines: seq<Line>, o: ScanOptions, convert: Converter)
    requires o.UsesQuotas() ==> o.limit.value >= 1
    ensures Scanning(lines, 0, o, convert, ScanState([], [], 0, map[]))
  {
    CountersStart(lines, o, convert);
  }

  lemma ScanFails(lines: seq<Line>, i: nat, o: ScanOptions, convert: Converter, s: ScanState)
    requires i < |lines| && Scanning(lines, i, o, convert, s) && lines[i].Malformed? && o.failOnSchemaMismatch
    ensures FirstMalformed(lines, StopAt(lines, 0, o, convert)) == Some(i)
  {
    MalformedStays(lines, i, StopAt(lines, i, o, convert));
  }

  /** The exit test after a line: the target is reached there. */
  predicate ExitTest(o: ScanOptions, before: nat, now: nat) { now > before && o.limit.Some? && now >= o.limit.value }

  lemma KeptCounts(lines: seq<Line>, i: nat, o: ScanOptions, convert: Converter, s: ScanState)
    requires i <= |lines| && StateAt(lines, i, o, convert, s)
    ensures |s.drafts| == |Kept(lines, i, o, convert)|
  {
  }

  lemma ExitMeansDone(lines: seq<Line>, i: nat, o: ScanOptions, convert: Converter)
    requires i < |lines| && !Done(lines, i, o, convert)
    ensures var before, now := |Kept(lines, i, o, convert)|, |Kept(lines, i + 1, o, convert)|;
      (ExitTest(o, before, now) <==> Done(lines, i + 1, o, convert)) && (o.Target().Some? ==> now <= o.Target().value)
    ensures StopAt(lines, i, o, convert) == StopAt(lines, i + 1, o, convert)
    ensures Done(lines, i + 1, o, convert) ==> StopAt(lines, i + 1, o, convert) == i + 1
  {
  }

  lemma ScanGoesOn(lines: seq<Line>, i: nat, o: ScanOptions, convert: Converter, s: ScanState, s': ScanState)
    requires i < |lines| && Scanning(lines, i, o, convert, s) && !(lines[i].Malformed? && o.failOnSchemaMismatch)
    requires StateAt(lines, i + 1, o, convert, s')
    ensures ExitTest(o, |s.drafts|, |s'.drafts|) ==> Stopped(lines, o, convert, s')
    ensures !ExitTest(o, |s.drafts|, |s'.drafts|) ==> Scanning(lines, i + 1, o, convert, s')
  {
    KeptCounts(lines, i, o, convert, s);
    KeptCounts(lines, i + 1, o, convert, s');
    ExitMeansDone(lines, i, o, convert);
    assert o.failOnSchemaMismatch ==> FirstMalformed(lines, i + 1).None?;
  }

  lemma ScanEnds(lines: seq<Line>, o: ScanOptions, convert: Converter, s: ScanState)
    requires Scanning(lines, |lines|, o, convert, s)
    ensures Stopped(lines, o, convert, s)
  {
  }

  /** The draft loop, stopping as soon as the limit is reached; `bad` is a malformed line number. */
  method ScanLines(lines: seq<Line>, o: ScanOptions, convert: Converter, quotas: map<string, int>)
    returns (bad: Option<nat>, s: ScanState)
    requires o.UsesQuotas() ==> o.limit.value >= 1
    requires o.UsesQuotas() ==> forall b | IsCodeTool(b) :: b in quotas && quotas[b] == Quota(o.limit.value, b)
    ensures bad.Some? ==> o.failOnSchemaMismatch && FirstMalformed(lines, StopAt(lines, 0, o, convert)) == Some(bad.value - 1)
    ensures bad.None? ==> Stopped(lines, o, convert, s)
  {
    bad, s := None, ScanState([], [], 0, map[]);
    ScanStarts(lines, o, convert);
    var i := 0;
    while i < |lines|
      invariant 0 <= i <= |lines|
      invariant Scanning(lines, i, o, convert, s)
    {
      if lines[i].Malformed? && o.failOnSchemaMismatch {
        ScanFails(lines, i, o, convert, s);
        bad := Some(i + 1);
        return;
      }
      var next := ScanStep(lines, i, o, convert, quotas, s);
      ScanGoesOn(lines, i, o, convert, s, next);
      var reached := ExitTest(o, |s.drafts|, |next.drafts|);
      s, i := next, i + 1;
      if reached {
        return;
      }
    }
    ScanEnds(lines, o, convert, s);
  }

  lemma CountersStart(lines: seq<Line>, o: ScanOptions, convert: Converter)
    requires o.UsesQuotas() ==> o.limit.value >= 1
    ensures CountersAgree(map[], lines, 0, o, convert)
  {
    if o.UsesQuotas() {
      QuotasShareLimit(o.limit.value);
    }
  }

  method ConvertQuestionBank(lines: seq<Line>, o: ScanOptions, convert: Converter) returns (r: Result<ScanResult, IngestError>)
    ensures r == ScanOutcome(lines, o, convert)
  {
    var quotas: map<string, int> := map[];
    if o.UsesQuotas() {
      var shares := AllocateCodeToolQuotas(o.limit.value);
      if shares.Err? {
        return Err(shares.error);
      }
      quotas := shares.value;
    }
    var bad, s := ScanLines(lines, o, convert, quotas);
    if bad.Some? {
      return Err(SchemaMismatch(bad.value));
    }
    AccumulatedOutcome(lines, StopAt(lines, 0, o, convert), o, convert, s.drafts, s.skipped, s.parsedRows, s.taken);
    if s.parsedRows == 0 && |s.skipped| == 0 {
      return Err(EmptyInput);
    }
    SliceIsLimited(s.drafts, o);
    var limited := if o.limit.Some? then SliceTo(s.drafts, o.limit.value) else s.drafts;
    return Ok(ScanResult(limited, s.skipped, s.parsedRows));
  }
}
