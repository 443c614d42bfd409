/**
 * The toolbar popup (`popup/popup.js`): the controller that loads the two logs and the settings
 * from storage, the statistics it shows and exports, and the settings form that replaces the
 * stored settings object.
 */
module Popup {
  import opened Wrappers
  import opened JsValue
  import opened Storage
  import Content
  import Background

  // ---------------------------------------------------------------- statistics

  /** `detectedGaps.reduce((sum, item) => sum + item.gaps.length, 0)` */
  function TotalGapItems(entries: seq<HistoryEntry>): nat {
    if entries == [] then 0 else TotalGapItems(entries[..|entries| - 1]) + |entries[|entries| - 1].gaps|
  }

  /** When every detected-gaps entry holds a gap, there are at least as many gap items as entries. */
  lemma {:induction false} GapItemsAtLeastEntries(entries: seq<HistoryEntry>)
    requires Content.EveryEntryHasGaps(entries)
    ensures TotalGapItems(entries) >= |entries|
  {
    if entries != [] {
      GapItemsAtLeastEntries(entries[..|entries| - 1]);
    }
  }

  /** `analysisHistory.reduce((sum, item) => sum + item.score, 0)` */
  function SumScores(history: seq<HistoryEntry>): real {
    if history == [] then 0.0 else SumScores(history[..|history| - 1]) + history[|history| - 1].score
  }

  lemma {:induction false} SumScoresBounds(history: seq<HistoryEntry>)
    requires Content.ScoresInRange(history)
    ensures 0.0 <= SumScores(history) <= 100.0 * |history| as real
  {
    if history != [] {
      SumScoresBounds(history[..|history| - 1]);
    }
  }

  /** The average score: `Math.round(sum / length)`, or 0 for an empty history. */
  function AverageScore(history: seq<HistoryEntry>): (r: int)
    ensures history == [] ==> r == 0
    ensures Content.ScoresInRange(history) ==> 0 <= r <= 100
  {
    if |history| > 0 then
      var n := |history| as real;
      var mean := SumScores(history) / n;
      assert Content.ScoresInRange(history) ==> 0.0 <= mean <= 100.0 by {
        if Content.ScoresInRange(history) {
          SumScoresBounds(history);
          DivideBounds(SumScores(history), n, 0.0, 100.0);
        }
      }
      Round(mean)
    else 0
  }

  /** `[...detectedGaps].reverse().slice(0, 3)`: the three most recent entries, newest first. */
  function RecentGaps(entries: seq<HistoryEntry>): (r: seq<HistoryEntry>)
    ensures |r| == (if |entries| < 3 then |entries| else 3)
    ensures forall i :: 0 <= i < |r| ==> r[i] == entries[|entries| - 1 - i]
  {
    Take(Reverse(entries), 3)
  }

  datatype ScoreClass = HighScore | MediumScore | LowScore

  function ClassRank(c: ScoreClass): nat {
    match c
    case LowScore => 0
    case MediumScore => 1
    case HighScore => 2
  }

  /** `score >= 80 ? 'high' : score >= 60 ? 'medium' : 'low'` */
  function ScoreClassOf(score: real): ScoreClass {
    if score >= 80.0 then HighScore else if score >= 60.0 then MediumScore else LowScore
  }

  /** A higher score never gets a lower class, and the classes meet at 60 and 80. */
  lemma ScoreClassMonotone(a: real, b: real)
    requires a <= b
    ensures ClassRank(ScoreClassOf(a)) <= ClassRank(ScoreClassOf(b))
    ensures ScoreClassOf(a) == HighScore <==> a >= 80.0
    ensures ScoreClassOf(a) == LowScore <==> a < 60.0
  {
  }

  predicate IsHigh(g: RawGap) {
    g.severity == Some(Str("high"))
  }

  /** `gap.gaps.filter(g => g.severity === 'high').length` */
  function HighPriorityCount(gaps: seq<RawGap>): (r: nat)
    ensures r <= |gaps|
    ensures r == 0 <==> forall i :: 0 <= i < |gaps| ==> !IsHigh(gaps[i])
    ensures r == |gaps| <==> forall i :: 0 <= i < |gaps| ==> IsHigh(gaps[i])
  {
    if gaps == [] then 0
    else
      assert forall i :: 1 <= i < |gaps| ==> gaps[i] == gaps[1..][i - 1];
      (if IsHigh(gaps[0]) then 1 else 0) + HighPriorityCount(gaps[1..])
  }

  /** The `summary` block of the export. */
  datatype ExportSummary = ExportSummary(totalGaps: nat, totalGapItems: nat, pagesAnalyzed: nat, averageScore: int)

  // ---------------------------------------------------------------- settings

  const DefaultPopupSettings: Object := map[
    "autoAnalyze" := Bool(true),
    "showTooltips" := Bool(true),
    "focusOnZambia" := Bool(true)]

  /** `{...current, ...(stored || {})}`: a stored key wins, a key only in `current` stays. */
  function MergeSettings(current: Object, stored: Option<Object>): (r: Object)
    ensures forall k :: k in r <==> k in current || (stored.Some? && k in stored.value)
    ensures forall k :: stored.Some? && k in stored.value ==> r[k] == stored.value[k]
    ensures forall k :: k in current && (stored.None? || k !in stored.value) ==> r[k] == current[k]
  {
    if stored.Some? then current + stored.value else current
  }

  /** The settings object the form writes: the three checkboxes and nothing else. */
  function FormSettings(autoAnalyze: bool, showTooltips: bool, focusOnZambia: bool): (r: Object)
    ensures r.Keys == DefaultPopupSettings.Keys
  {
    map["autoAnalyze" := Bool(autoAnalyze), "showTooltips" := Bool(showTooltips), "focusOnZambia" := Bool(focusOnZambia)]
  }

  // ---------------------------------------------------------------- the controller

  class PopupController {
    var detectedGaps: seq<HistoryEntry>
    var analysisHistory: seq<HistoryEntry>
    var settings: Object

    constructor()
      ensures detectedGaps == [] && analysisHistory == [] && settings == DefaultPopupSettings
    {
      detectedGaps := [];
      analysisHistory := [];
      settings := DefaultPopupSettings;
    }

    /** `loadData`: the two logs (absent as empty) and the stored settings over the current ones. */
    method LoadData(store: Store)
      modifies this
      ensures detectedGaps == store.detectedGaps.GetOr([])
      ensures analysisHistory == store.analysisHistory.GetOr([])
      ensures settings == MergeSettings(old(settings), store.settings)
    {
      detectedGaps := store.detectedGaps.GetOr([]);
      analysisHistory := store.analysisHistory.GetOr([]);
      settings := MergeSettings(settings, store.settings);
    }

    /** `updateSettings`: the settings become the three checkbox values, and are stored as they are. */
    method UpdateSettings(autoAnalyze: bool, showTooltips: bool, focusOnZambia: bool, store: Store) returns (saved: Store)
      modifies this
      ensures settings == FormSettings(autoAnalyze, showTooltips, focusOnZambia)
      ensures saved == store.(settings := Some(settings))
      ensures detectedGaps == old(detectedGaps) && analysisHistory == old(analysisHistory)
    {
      settings := FormSettings(autoAnalyze, showTooltips, focusOnZambia);
      saved := store.(settings := Some(settings));
    }

    /** The statistics `updateUI` shows and `exportData` writes. */
    function Summary(): (r: ExportSummary)
      reads this
      ensures r.totalGaps == |detectedGaps| && r.pagesAnalyzed == |analysisHistory|
      ensures Content.EveryEntryHasGaps(detectedGaps) ==> r.totalGapItems >= r.totalGaps
      ensures Content.ScoresInRange(analysisHistory) ==> 0 <= r.averageScore <= 100
      ensures analysisHistory == [] ==> r.averageScore == 0
    {
      assert Content.EveryEntryHasGaps(detectedGaps) ==> TotalGapItems(detectedGaps) >= |detectedGaps| by {
        if Content.EveryEntryHasGaps(detectedGaps) {
          GapItemsAtLeastEntries(detectedGaps);
        }
      }
      ExportSummary(|detectedGaps|, TotalGapItems(detectedGaps), |analysisHistory|, AverageScore(analysisHistory))
    }
  }

  /**
   * Saving the form drops `maxHistoryItems` and `offlineMode` from the stored settings: from then
   * on `log_gap` keeps the whole repository and records no offline flag, `saveAnalysis` falls back
   * to a history bound of 100, and sync is requested again.
   */
  lemma FormSettingsDropLimits(store: Store, a: bool, b: bool, c: bool,
                               request: Background.Request, senderUrl: Option<string>, clock: Clock)
    ensures var saved := store.(settings := Some(FormSettings(a, b, c)));
            var attempt := Background.LogGapAttempt(saved, request, senderUrl, clock);
            var gap := Background.NewGap(request.data, clock, senderUrl, FormSettings(a, b, c));
            && attempt.Completed?
            && attempt.store.repository == Some(store.repository.GetOr([]) + [gap])
            && "offlineCreated" !in gap
            && Content.HistoryBound(saved.settings) == Some(100.0)
  {
  }
}
