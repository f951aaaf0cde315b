/** Progress of a translation job (app/utils/progress_tracker.py): five weighted stages, a
    tracker per session that turns its stage and chunk counters into a percentage, and the
    events it reports. */
module ProgressTracking {
  import opened Wrappers
  import opened Decimal

  /** The stages of a translation job, in the order the enum declares them. */
  datatype Stage = Upload | Preparation | Translation | ExcelGeneration | Complete

  /** The stages in enum order, the order `for s in TranslationStage` visits them. */
  const StageOrder: seq<Stage> := [Upload, Preparation, Translation, ExcelGeneration, Complete]

  /** The enum member's string value. */
  function Value(s: Stage): string {
    match s
    case Upload => "upload"
    case Preparation => "preparation"
    case Translation => "translation"
    case ExcelGeneration => "excel_generation"
    case Complete => "complete"
  }

  /** `STAGE_WEIGHTS`: each stage's share of the hundred percent. */
  function Weight(s: Stage): nat {
    match s
    case Upload => 10
    case Preparation => 10
    case Translation => 60
    case ExcelGeneration => 15
    case Complete => 5
  }

  /** Where a stage sits in the enum order. */
  function Position(s: Stage): (i: nat)
    ensures i < |StageOrder| && StageOrder[i] == s
  {
    match s
    case Upload => 0
    case Preparation => 1
    case Translation => 2
    case ExcelGeneration => 3
    case Complete => 4
  }

  /** The stage after `s`; `Complete` has none. */
  function Next(s: Stage): (n: Stage)
    requires s != Complete
    ensures Position(n) == Position(s) + 1
  {
    StageOrder[Position(s) + 1]
  }

  /** The weights of `stages` added up from the left. */
  function WeightSum(stages: seq<Stage>): nat {
    if |stages| == 0 then 0 else WeightSum(stages[..|stages| - 1]) + Weight(stages[|stages| - 1])
  }

  /** A stage's start percentage: the weights of all the stages before it. */
  function StartOf(s: Stage): nat {
    WeightSum(StageOrder[..Position(s)])
  }

  /** Adding the weight of the `i`-th stage to the sum of those before it. */
  lemma WeightSumStep(i: nat)
    requires i < |StageOrder|
    ensures WeightSum(StageOrder[..i + 1]) == WeightSum(StageOrder[..i]) + Weight(StageOrder[i])
  {
    assert StageOrder[..i + 1][..i] == StageOrder[..i];
  }

  /** The percentage a completed stage reports: where the next stage starts, or a hundred. */
  function EndOf(s: Stage): (p: nat)
    ensures p == if s == Complete then 100 else StartOf(Next(s))
  {
    WeightSumStep(Position(s));
    StageStarts();
    assert s == Complete ==> StageOrder[..Position(s) + 1] == StageOrder;
    StartOf(s) + Weight(s)
  }

  /** The start percentages are 0, 10, 20, 80 and 95, and the weights sum to a hundred. */
  lemma StageStarts()
    ensures StartOf(Upload) == 0 && StartOf(Preparation) == 10 && StartOf(Translation) == 20
    ensures StartOf(ExcelGeneration) == 80 && StartOf(Complete) == 95
    ensures WeightSum(StageOrder) == 100
  {
    assert StageOrder[..0] == [];
    WeightSumStep(0);
    WeightSumStep(1);
    WeightSumStep(2);
    WeightSumStep(3);
    WeightSumStep(4);
    assert StageOrder[..5] == StageOrder;
  }

  /** Python's `int(x)` of the fraction `n / d`: the quotient truncated toward zero. */
  function TruncQuot(n: int, d: int): (q: int)
    requires d > 0
    ensures n >= 0 ==> 0 <= q && q * d <= n < (q + 1) * d
    ensures n < 0 ==> q <= 0 && -q * d <= -n < (-q + 1) * d
  {
    var m := if n >= 0 then n else -n;
    var q := m / d;
    DivisionBounds(m, d);
    if n >= 0 then q else -q
  }

  /** Euclidean division of a natural number: the quotient times the divisor is at most the
      number, and one more times the divisor exceeds it. */
  lemma DivisionBounds(m: nat, d: int)
    requires d > 0
    ensures 0 <= m / d && (m / d) * d <= m < (m / d + 1) * d
  {
    var q, r := m / d, m % d;
    assert m == d * q + r && 0 <= r < d;
    assert (q + 1) * d == q * d + d;
  }

  /** What `calculate_progress` returns for a tracker in `stage` with `completed` of `total`
      chunks done: in the translation stage with chunks announced, the start percentage plus the
      completed fraction of the stage's weight, truncated; otherwise the start percentage. The
      fraction is computed exactly here, where the code goes through a float. */
  function ProgressOf(stage: Stage, total: int, completed: int): (p: int)
    ensures 0 <= completed <= total ==> StartOf(stage) <= p <= EndOf(stage)
  {
    if stage == Translation && total > 0 then
      TranslationBand(total, completed);
      TruncQuot(StartOf(Translation) * total + completed * Weight(Translation), total)
    else StartOf(stage)
  }

  /** With `0 <= completed <= total`, the translation progress stays between 20 and 80, and it
      is 80 once every chunk is done. */
  lemma TranslationBand(total: int, completed: int)
    requires total > 0
    ensures var p := TruncQuot(StartOf(Translation) * total + completed * Weight(Translation), total);
      && (0 <= completed <= total ==> StartOf(Translation) <= p <= EndOf(Translation))
      && (completed == total ==> p == EndOf(Translation))
  {
    StageStarts();
    var n := 20 * total + completed * 60;
    if 0 <= completed <= total {
      MulLeft(completed, total, 60);
      QuotientBounds(n, total, 20, 80);
    }
    if completed == total {
      assert n == 80 * total;
      QuotientBounds(n, total, 80, 80);
    }
  }

  lemma MulLeft(a: int, b: int, d: int)
    requires a <= b && d >= 0
    ensures a * d <= b * d
  {
  }

  lemma MulCancel(a: int, b: int, d: int)
    requires d > 0 && a * d < b * d
    ensures a < b
  {
  }

  /** A quotient of a number between `lo * d` and `hi * d` lies between `lo` and `hi`. */
  lemma QuotientBounds(n: int, d: int, lo: nat, hi: nat)
    requires d > 0 && lo * d <= n <= hi * d
    ensures lo <= TruncQuot(n, d) <= hi
  {
    MulLeft(0, lo, d);
    var q := TruncQuot(n, d);
    MulCancel(q, hi + 1, d);
    MulCancel(lo, q + 1, d);
  }

  /** The translation progress at completion is 80, where the next stage starts. */
  lemma TranslationFinishes(total: int)
    requires total > 0
    ensures ProgressOf(Translation, total, total) == StartOf(ExcelGeneration)
  {
    TranslationBand(total, total);
  }

  /** Outside the translation stage, or before any chunk is announced, the progress is the
      stage's start percentage whatever the counters say. */
  lemma ProgressAtStageStart(stage: Stage, total: int, completed: int)
    requires stage != Translation || total <= 0
    ensures ProgressOf(stage, total, completed) == StartOf(stage)
  {
  }

  /** For a fixed total, more completed chunks never mean less progress. */
  lemma ProgressMonotone(stage: Stage, total: int, c1: int, c2: int)
    requires c1 <= c2
    ensures ProgressOf(stage, total, c1) <= ProgressOf(stage, total, c2)
  {
    if stage == Translation && total > 0 {
      var n1 := StartOf(Translation) * total + c1 * Weight(Translation);
      var n2 := StartOf(Translation) * total + c2 * Weight(Translation);
      assert n1 <= n2 by {
        assert c1 * 60 <= c2 * 60;
      }
      QuotientMonotone(n1, n2, total);
    }
  }

  /** Truncating division by a positive number is monotone. */
  lemma QuotientMonotone(n1: int, n2: int, d: int)
    requires d > 0 && n1 <= n2
    ensures TruncQuot(n1, d) <= TruncQuot(n2, d)
  {
    if n1 >= 0 {
      NaturalQuotientMonotone(n1, n2, d);
    } else if n2 < 0 {
      NaturalQuotientMonotone(-n2, -n1, d);
    }
  }

  lemma NaturalQuotientMonotone(n1: int, n2: int, d: int)
    requires d > 0 && 0 <= n1 <= n2
    ensures TruncQuot(n1, d) <= TruncQuot(n2, d)
  {
    MulCancel(TruncQuot(n1, d), TruncQuot(n2, d) + 1, d);
  }

  /** Python's `message or default`: an absent or empty message gives the default. */
  function MessageOr(message: Option<string>, default: string): (r: string)
    ensures r == default || (message.Some? && r == message.value && r != "")
    ensures message.Some? && message.value != "" ==> r == message.value
    ensures message.None? || message.value == "" ==> r == default
  {
    if message.Some? && message.value != "" then message.value else default
  }

  /** The records the tracker returns: a `"milestone"` for a stage that is entered or (with
      `completed`) finished, a `"progress"` for a finished chunk. */
  datatype Event =
    | Milestone(stage: string, percentage: int, message: string, completed: bool)
    | ChunkProgress(stage: string, current: int, total: int, percentage: int, message: string)

  /** The default text of a chunk notification: "chunk current/total translated", in Korean. */
  function ChunkMessage(current: int, total: int): string {
    "청크 " + IntToString(current) + "/" + IntToString(total) + " 번역 완료"
  }

  /** `ProgressTracker`: the progress of one session. */
  class ProgressTracker {
    const sessionId: string
    var currentStage: Stage
    var totalChunks: int
    var completedChunks: int

    /** A new tracker is at the upload stage with no chunks. */
    constructor (sessionId: string)
      ensures this.sessionId == sessionId
      ensures currentStage == Upload && totalChunks == 0 && completedChunks == 0
    {
      this.sessionId := sessionId;
      currentStage := Upload;
      totalChunks := 0;
      completedChunks := 0;
    }

    /** `get_stage_start_percentage`: add up the weights of the stages before `stage`. */
    method GetStageStartPercentage(stage: Stage) returns (start: nat)
      ensures start == StartOf(stage)
    {
      start := 0;
      var i := 0;
      while i < |StageOrder|
        invariant 0 <= i <= Position(stage)
        invariant start == WeightSum(StageOrder[..i])
      {
        var s := StageOrder[i];
        if s == stage {
          break;
        }
        start := start + Weight(s);
        assert StageOrder[..i + 1] == StageOrder[..i] + [s];
        i := i + 1;
      }
    }

    /** `calculate_progress`. */
    method CalculateProgress() returns (progress: int)
      ensures progress == ProgressOf(currentStage, totalChunks, completedChunks)
    {
      var base := GetStageStartPercentage(currentStage);
      if currentStage == Translation && totalChunks > 0 {
        progress := TruncQuot(base * totalChunks + completedChunks * Weight(Translation), totalChunks);
      } else {
        progress := base;
      }
    }

    /** `set_stage`: enter `stage` and report it with the progress there. */
    method SetStage(stage: Stage, message: Option<string>) returns (event: Event)
      modifies this
      ensures currentStage == stage
      ensures totalChunks == old(totalChunks) && completedChunks == old(completedChunks)
      ensures event == Milestone(Value(stage), ProgressOf(stage, totalChunks, completedChunks),
                                 MessageOr(message, "Stage: " + Value(stage)), false)
    {
      currentStage := stage;
      var progress := CalculateProgress();
      event := Milestone(Value(stage), progress, MessageOr(message, "Stage: " + Value(stage)), false);
    }

    /** `set_translation_chunks`: announce `total` chunks, none of them done yet. */
    method SetTranslationChunks(total: int)
      modifies this
      ensures totalChunks == total && completedChunks == 0
      ensures currentStage == old(currentStage)
    {
      totalChunks := total;
      completedChunks := 0;
    }

    /** `increment_chunk`: record that `current` of `total` chunks are done. Both counters are
        overwritten, not added to, and the stage stays as it is. */
    method IncrementChunk(current: int, total: int, message: Option<string>) returns (event: Event)
      modifies this
      ensures completedChunks == current && totalChunks == total
      ensures currentStage == old(currentStage)
      ensures event == ChunkProgress(Value(currentStage), current, total,
                                     ProgressOf(currentStage, total, current),
                                     MessageOr(message, ChunkMessage(current, total)))
    {
      completedChunks := current;
      totalChunks := total;
      var progress := CalculateProgress();
      event := ChunkProgress(Value(currentStage), current, total, progress,
                             MessageOr(message, ChunkMessage(current, total)));
    }

    /** `complete_stage`: report `stage` as finished, at the percentage where it ends. The tracker
        itself is left as it is. */
    method CompleteStage(stage: Stage, message: Option<string>) returns (event: Event)
      ensures event.Milestone? && event.completed && event.stage == Value(stage)
      ensures event.percentage == EndOf(stage)
      ensures event.message == MessageOr(message, "Completed: " + Value(stage))
    {
      var base := GetStageStartPercentage(stage);
      var progress := base + Weight(stage);
      event := Milestone(Value(stage), progress, MessageOr(message, "Completed: " + Value(stage)), true);
    }
  }

  /** `_progress_trackers` with `get_progress_tracker` and `cleanup_progress_tracker`: one
      tracker per session id. */
  class ProgressRegistry {
    var trackers: map<string, ProgressTracker>

    constructor ()
      ensures trackers == map[]
    {
      trackers := map[];
    }

    /** `get_progress_tracker`: the session's tracker, created at the upload stage with no
        chunks when the session has none yet. */
    method Get(sessionId: string) returns (tracker: ProgressTracker)
      modifies this
      ensures sessionId in old(trackers) ==> tracker == old(trackers)[sessionId] && trackers == old(trackers)
      ensures sessionId !in old(trackers) ==>
        && fresh(tracker) && trackers == old(trackers)[sessionId := tracker]
        && tracker.sessionId == sessionId && tracker.currentStage == Upload
        && tracker.totalChunks == 0 && tracker.completedChunks == 0
    {
      if sessionId !in trackers {
        var created := new ProgressTracker(sessionId);
        trackers := trackers[sessionId := created];
      }
      tracker := trackers[sessionId];
    }

    /** `cleanup_progress_tracker`: forget the session's tracker, if there is one. */
    method Cleanup(sessionId: string)
      modifies this
      ensures trackers == old(trackers) - {sessionId}
    {
      if sessionId in trackers {
        trackers := trackers - {sessionId};
      }
    }
  }
}
