/** What the labelling campaign and the panel adjudication share: tasks, clients, scores and rows. */
module Labelling {
  import opened Wrappers

  const MIN_GENERATORS := 2
  const MIN_GRADERS := 2
  const MAX_GRADERS := 3
  const SCORE_MIN := 0
  const SCORE_MAX := 9

  datatype Task = Task(taskId: string, sessionId: string, promptText: string, tier: Option<string>, features: map<string, real>)

  datatype Client = Client(id: string, providerModel: Option<string>)

  /** The outcome signals of a pack row, before they are printed. */
  datatype Signal =
    | LlmJudge | PanelAdjudication | PanelMajority
    | GeneratorSignal(id: string) | GraderSignal(id: string)
    | DualJudgeAgreement | MultiJudgeAgreement
    | JudgeScore(score: real) | FailureScore(score: real)
    | SessionHoldout | SessionFit

  datatype LabelRow = LabelRow(
    sampleId: string, features: map<string, real>, success: bool, tier: Option<string>, signals: seq<Signal>)

  datatype GraderScore = GraderScore(graderId: string, score: int)

  predicate IsAlphaNumeric(c: char) { 'a' <= c <= 'z' || 'A' <= c <= 'Z' || '0' <= c <= '9' }

  predicate ValidClientId(id: string) {
    |id| > 0 && IsAlphaNumeric(id[0])
    && forall c | c in id[1..] :: IsAlphaNumeric(c) || c == '.' || c == '_' || c == '-'
  }

  /** What trimming removes from both ends of a text. */
  predicate IsSpace(c: char) {
    var n := c as int;
    9 <= n <= 13 || n == 32 || n == 0xA0 || n == 0x1680 || 0x2000 <= n <= 0x200A
    || n == 0x2028 || n == 0x2029 || n == 0x202F || n == 0x205F || n == 0x3000 || n == 0xFEFF
  }

  /** Nothing is left after trimming. */
  predicate IsBlank(text: string) { forall c | c in text :: IsSpace(c) }

  /** An integer score in range, or a refusal; scores are never coerced. */
  function NormalizeGraderScore(raw: Option<int>): Option<int> {
    if raw.Some? && SCORE_MIN <= raw.value <= SCORE_MAX then raw else None
  }

  /** The digest of a seed and a session, read as an unsigned number. */
  type SessionDigest = (string, string) -> nat

  /** Session-level holdout; None where the source throws. */
  function AssignSessionHoldout(sessionId: string, seed: string, holdoutPercent: real, digest: SessionDigest): Option<bool> {
    if |sessionId| == 0 || holdoutPercent < 0.0 || holdoutPercent > 100.0 then None
    else Some((digest(seed, sessionId) % 100) as real < holdoutPercent)
  }

  function Round1(x: real): real { (x * 10.0 + 0.5).Floor as real / 10.0 }

  function ScoreSum(scores: seq<GraderScore>): int {
    if |scores| == 0 then 0 else ScoreSum(scores[..|scores| - 1]) + scores[|scores| - 1].score
  }

  /** Mean of the scores to one decimal. */
  function MeanScore(scores: seq<GraderScore>): real
    requires |scores| > 0
  {
    Round1(ScoreSum(scores) as real / |scores| as real)
  }

  lemma OneMore(b: int, n: int)
    ensures b * n == b * (n - 1) + b
  {
  }

  lemma {:induction false} SumBounds(scores: seq<GraderScore>, lo: int, hi: int)
    requires forall s | s in scores :: lo <= s.score <= hi
    ensures lo * |scores| <= ScoreSum(scores) <= hi * |scores|
  {
    if |scores| > 0 {
      SumBounds(scores[..|scores| - 1], lo, hi);
      assert scores[|scores| - 1] in scores;
      OneMore(lo, |scores|);
      OneMore(hi, |scores|);
    }
  }

  lemma RoundKeepsBounds(x: real, lo: int, hi: int)
    requires lo as real <= x <= hi as real
    ensures lo as real <= Round1(x) <= hi as real
  {
    var f := (x * 10.0 + 0.5).Floor;
    assert 10 * lo <= f <= 10 * hi;
    assert (10 * lo) as real / 10.0 == lo as real && (10 * hi) as real / 10.0 == hi as real;
  }

  lemma AtLeast(r: real, n: real, b: real)
    requires n > 0.0 && b * n <= r * n
    ensures b <= r
  {
    var d := r - b;
    assert d * n >= 0.0;
  }

  lemma QuotientWithin(s: int, n: int, lo: int, hi: int)
    requires n > 0 && lo * n <= s <= hi * n
    ensures lo as real <= s as real / n as real <= hi as real
  {
    var r := s as real / n as real;
    assert r * n as real == s as real;
    assert (lo * n) as real == lo as real * n as real && (hi * n) as real == hi as real * n as real;
    AtLeast(r, n as real, lo as real);
    AtLeast(hi as real, n as real, r);
  }

  /** A rounded mean stays between integer bounds of the scores. */
  lemma MeanWithinBounds(scores: seq<GraderScore>, lo: int, hi: int)
    requires |scores| > 0 && forall s | s in scores :: lo <= s.score <= hi
    ensures lo as real <= MeanScore(scores) <= hi as real
  {
    SumBounds(scores, lo, hi);
    QuotientWithin(ScoreSum(scores), |scores|, lo, hi);
    RoundKeepsBounds(ScoreSum(scores) as real / |scores| as real, lo, hi);
  }
}
