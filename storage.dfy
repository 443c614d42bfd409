/**
 * The single document the extension keeps in `chrome.storage.local`, shared by the content
 * script, the background service worker and the popup. Every top-level key may be absent.
 */
module Storage {
  import opened Wrappers
  import opened JsValue

  /** One gap object as it is stored: its fields come from the analysis and are not trusted. */
  datatype RawGap = RawGap(kind: Option<Value>, content: Option<Value>, severity: Option<Value>)

  /** One saved analysis, as the content script writes it into `detectedGaps` and `analysisHistory`. */
  datatype HistoryEntry = HistoryEntry(
    page: string,
    url: string,
    timestamp: string,
    gaps: seq<RawGap>,
    score: real,
    offlineCreated: Value)

  /** One entry of `errorLogs`. The stack trace is not modelled. */
  datatype ErrorLog = ErrorLog(timestamp: string, context: string, message: string, severity: string)

  /** The storage document; `None` is a key that is not set. */
  datatype Store = Store(
    version: Option<int>,
    repository: Option<seq<Object>>,
    analysisHistory: Option<seq<HistoryEntry>>,
    detectedGaps: Option<seq<HistoryEntry>>,
    errorLogs: Option<seq<ErrorLog>>,
    settings: Option<Object>)

  const EmptyStore := Store(None, None, None, None, None, None)

  /** One reading of the clock: milliseconds since the epoch and the matching ISO-8601 text. */
  datatype Clock = Clock(ms: int, iso: string)

  /** `chrome.storage.local.set(patch)`: every key the patch holds replaces the stored one. */
  function Merge(store: Store, patch: Store): (r: Store)
    ensures r.version == (if patch.version.Some? then patch.version else store.version)
    ensures r.repository == (if patch.repository.Some? then patch.repository else store.repository)
    ensures r.analysisHistory == (if patch.analysisHistory.Some? then patch.analysisHistory else store.analysisHistory)
    ensures r.detectedGaps == (if patch.detectedGaps.Some? then patch.detectedGaps else store.detectedGaps)
    ensures r.errorLogs == (if patch.errorLogs.Some? then patch.errorLogs else store.errorLogs)
    ensures r.settings == (if patch.settings.Some? then patch.settings else store.settings)
  {
    Store(
      if patch.version.Some? then patch.version else store.version,
      if patch.repository.Some? then patch.repository else store.repository,
      if patch.analysisHistory.Some? then patch.analysisHistory else store.analysisHistory,
      if patch.detectedGaps.Some? then patch.detectedGaps else store.detectedGaps,
      if patch.errorLogs.Some? then patch.errorLogs else store.errorLogs,
      if patch.settings.Some? then patch.settings else store.settings)
  }

  /** A patch that sets every key replaces the whole document. */
  lemma MergeFull(store: Store, patch: Store)
    requires patch.version.Some? && patch.repository.Some? && patch.analysisHistory.Some?
    requires patch.detectedGaps.Some? && patch.errorLogs.Some? && patch.settings.Some?
    ensures Merge(store, patch) == patch
  {
  }

  /** Setting an empty patch changes nothing. */
  lemma MergeNothing(store: Store)
    ensures Merge(store, EmptyStore) == store
  {
  }

  /** Two `set` calls in a row write what one call with both patches, the later one winning, writes. */
  lemma MergeTwice(store: Store, first: Store, second: Store)
    ensures Merge(Merge(store, first), second) == Merge(store, Merge(first, second))
    ensures Merge(Merge(store, first), first) == Merge(store, first)
  {
  }

  /** The last `n` elements of `s` (all of them when there are fewer). */
  function Newest<T>(s: seq<T>, n: nat): (r: seq<T>)
    ensures |r| == (if n < |s| then n else |s|)
    ensures forall i :: 0 <= i < |r| ==> r[i] == s[|s| - |r| + i]
  {
    if n < |s| then s[|s| - n..] else s
  }
}
