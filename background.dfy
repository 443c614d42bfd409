/**
 * The background service worker (`background.js`): the install-time migration of the storage
 * document, the fixed-window rate limiter, the retry loop with linear backoff, the capped error
 * log, and the message handler whose actions are read-modify-write transforms of storage.
 */
module Background {
  import opened Wrappers
  import opened JsValue
  import opened Storage

  // ---------------------------------------------------------------- defaults and migration

  const CurrentDataVersion := 1

  const DefaultSettings: Object := map[
    "analysisThreshold" := Num(50.0),
    "maxHistoryItems" := Num(100.0),
    "offlineMode" := Bool(false),
    "lastSync" := Null]

  const DefaultState := Store(Some(CurrentDataVersion), Some([]), Some([]), Some([]), Some([]), Some(DefaultSettings))

  /** `data.version || 0` */
  function StoredVersion(data: Store): int {
    data.version.GetOr(0)
  }

  /** Migration 0: the default state, keeping the three lists of the unversioned data. */
  function MigrateFromUnversioned(data: Store): Store {
    DefaultState.(repository := Some(data.repository.GetOr([])),
                  analysisHistory := Some(data.analysisHistory.GetOr([])),
                  detectedGaps := Some(data.detectedGaps.GetOr([])))
  }

  /** The migrations by source version; only version 0 has one. */
  function Migration(v: int, data: Store): Store {
    if v == 0 then MigrateFromUnversioned(data) else data
  }

  /** The storage document after the install handler has run. */
  function Installed(data: Store): Store {
    if StoredVersion(data) < CurrentDataVersion
    then Merge(data, if StoredVersion(data) <= 0 then MigrateFromUnversioned(data) else data)
    else data
  }

  /**
   * The `onInstalled` handler: data older than the current version is passed through every
   * migration from its version up and written back; current data is left alone.
   */
  method OnInstalled(data: Store) returns (saved: Store)
    ensures saved == Installed(data)
  {
    var currentVersion := StoredVersion(data);
    saved := data;
    if currentVersion < CurrentDataVersion {
      var migrated := data;
      var v := currentVersion;
      while v < CurrentDataVersion
        invariant currentVersion <= v <= CurrentDataVersion
        invariant migrated == if v <= 0 then data else MigrateFromUnversioned(data)
      {
        migrated := Migration(v, migrated);
        v := v + 1;
      }
      saved := Merge(data, migrated);
    }
  }

  /**
   * Migrating unversioned data keeps its repository, history and detected gaps (an absent list
   * becomes empty) and resets everything else to the defaults.
   */
  lemma InstallKeepsLists(data: Store)
    requires StoredVersion(data) < CurrentDataVersion
    ensures var r := Installed(data);
            && r.version == Some(CurrentDataVersion)
            && r.repository == Some(data.repository.GetOr([]))
            && r.analysisHistory == Some(data.analysisHistory.GetOr([]))
            && r.detectedGaps == Some(data.detectedGaps.GetOr([]))
            && r.errorLogs == Some([])
            && r.settings == Some(DefaultSettings)
  {
  }

  /** An empty store is initialised to the default state. */
  lemma InstallEmpty()
    ensures Installed(EmptyStore) == DefaultState
  {
  }

  /** Running the install handler a second time changes nothing. */
  lemma InstallIdempotent(data: Store)
    ensures Installed(Installed(data)) == Installed(data)
  {
    if StoredVersion(data) < CurrentDataVersion {
      InstallKeepsLists(data);
    }
  }

  // ---------------------------------------------------------------- rate limiting

  datatype RateLimit = RateLimit(maxRequests: nat, timeWindow: nat)

  /** `rateLimits[action]`: five `log_gap` and two `get_repository` requests per second. */
  function RateLimitFor(action: string): (r: Option<RateLimit>)
    ensures r.Some? ==> r.value.timeWindow > 0
  {
    if action == "log_gap" then Some(RateLimit(5, 1000))
    else if action == "get_repository" then Some(RateLimit(2, 1000))
    else None
  }

  /** `requestCounts`, keyed by the action and the index of the time window. */
  type Counts = map<(string, int), nat>

  datatype RateDecision = RateDecision(allowed: bool, counts: Counts)

  function CountOf(counts: Counts, key: (string, int)): nat {
    if key in counts then counts[key] else 0
  }

  /** `checkRateLimit(action)` at time `now` (milliseconds). */
  function RateCheck(counts: Counts, action: string, now: int): (d: RateDecision)
    ensures RateLimitFor(action).None? ==> d == RateDecision(true, counts)
    ensures RateLimitFor(action).Some? ==>
      var lim := RateLimitFor(action).value;
      var key := (action, now / lim.timeWindow);
      && (d.allowed <==> CountOf(counts, key) < lim.maxRequests)
      && (d.allowed ==> d.counts == counts[key := CountOf(counts, key) + 1])
      && (!d.allowed ==> d.counts == counts)
  {
    match RateLimitFor(action)
    case None => RateDecision(true, counts)
    case Some(lim) =>
      var key := (action, now / lim.timeWindow);
      var count := CountOf(counts, key);
      if count >= lim.maxRequests then RateDecision(false, counts)
      else RateDecision(true, counts[key := count + 1])
  }

  datatype RateRun = RateRun(decisions: seq<bool>, counts: Counts)

  /** A series of requests for one action at the given times, checked one after the other. */
  function RunChecks(counts: Counts, action: string, times: seq<int>): (r: RateRun)
    ensures |r.decisions| == |times|
    decreases |times|
  {
    if times == [] then RateRun([], counts)
    else
      var d := RateCheck(counts, action, times[0]);
      var rest := RunChecks(d.counts, action, times[1..]);
      RateRun([d.allowed] + rest.decisions, rest.counts)
  }

  /**
   * Within one time window, request `i` of a limited action is allowed exactly when the count
   * it finds plus `i` is below the limit; the count stops at the limit, and the counts of every
   * other action and window are untouched.
   */
  lemma {:induction false} FixedWindow(counts: Counts, action: string, times: seq<int>, w: int)
    requires RateLimitFor(action).Some?
    requires forall i :: 0 <= i < |times| ==> times[i] / RateLimitFor(action).value.timeWindow == w
    ensures var lim := RateLimitFor(action).value;
            var r := RunChecks(counts, action, times);
            var c0 := CountOf(counts, (action, w));
            && (forall i :: 0 <= i < |times| ==> (r.decisions[i] <==> c0 + i < lim.maxRequests))
            && CountOf(r.counts, (action, w)) == (if c0 + |times| <= lim.maxRequests then c0 + |times|
                                                  else if c0 <= lim.maxRequests then lim.maxRequests else c0)
            && (forall k :: k != (action, w) ==> (k in r.counts <==> k in counts))
            && (forall k :: k != (action, w) && k in counts ==> r.counts[k] == counts[k])
    decreases |times|
  {
    if times != [] {
      var d := RateCheck(counts, action, times[0]);
      assert forall i :: 0 <= i < |times[1..]| ==> times[1..][i] == times[i + 1];
      FixedWindow(d.counts, action, times[1..], w);
    }
  }

  /** An action without a limit is always allowed and leaves the counts alone. */
  lemma {:induction false} UnlimitedRuns(counts: Counts, action: string, times: seq<int>)
    requires RateLimitFor(action).None?
    ensures RunChecks(counts, action, times) == RateRun(seq(|times|, _ => true), counts)
  {
    if times != [] {
      UnlimitedRuns(counts, action, times[1..]);
    }
  }

  // ---------------------------------------------------------------- retry

  const RetryAttempts := 3
  const RetryDelay := 1000

  /**
   * The error of attempt `i` of an operation whose first `|faults|` attempts fail with those
   * messages and whose later attempts all fail with `persistent`, or succeed when it is `None`.
   */
  function AttemptError(faults: seq<string>, persistent: Option<string>, i: nat): Option<string> {
    if i < |faults| then Some(faults[i]) else persistent
  }

  datatype RetryOutcome = Returned(attempt: nat) | Rethrown(error: string) | NotAttempted

  /** What the retry loop ends with: the first attempt that succeeds, or the last attempt's error. */
  function RetryOutcomeOf(attempts: int, faults: seq<string>, persistent: Option<string>): (r: RetryOutcome)
    ensures r.Returned? ==> persistent.None? && r.attempt == |faults| < attempts
    ensures attempts > 0 ==> !r.NotAttempted?
    ensures r.Rethrown? ==> attempts > 0 && AttemptError(faults, persistent, attempts - 1) == Some(r.error)
  {
    if attempts <= 0 then NotAttempted
    else if persistent.None? && |faults| < attempts then Returned(|faults|)
    else Rethrown(AttemptError(faults, persistent, attempts - 1).value)
  }

  /** The waits after failed attempts `0 .. n-1`: `RETRY_DELAY * (i + 1)`. */
  function Backoff(n: nat): (r: seq<int>)
    ensures |r| == n
    ensures forall i :: 0 <= i < n ==> r[i] == RetryDelay * (i + 1)
  {
    seq(n, i requires 0 <= i < n => RetryDelay * (i + 1))
  }

  function Sum(s: seq<int>): int {
    if s == [] then 0 else Sum(s[..|s| - 1]) + s[|s| - 1]
  }

  /** The waits grow linearly, so `n` failed attempts wait `500 * n * (n + 1)` milliseconds in all. */
  lemma {:induction false} BackoffTotal(n: nat)
    ensures Sum(Backoff(n)) == 500 * n * (n + 1)
  {
    if n > 0 {
      assert Backoff(n)[..n - 1] == Backoff(n - 1);
      BackoffTotal(n - 1);
    }
  }

  /**
   * `retryOperation`: at most `attempts` calls; the first success is returned, the error of the
   * last attempt is rethrown, and every failed attempt but the last is followed by a wait.
   */
  method RetryOperation(attempts: int, faults: seq<string>, persistent: Option<string>)
    returns (outcome: RetryOutcome, waits: seq<int>)
    ensures outcome == RetryOutcomeOf(attempts, faults, persistent)
    ensures outcome.Returned? ==> waits == Backoff(outcome.attempt)
    ensures !outcome.Returned? ==> waits == Backoff(if attempts <= 0 then 0 else attempts - 1)
  {
    waits := [];
    var i := 0;
    while i < attempts
      invariant 0 <= i && (attempts > 0 ==> i < attempts) && (attempts <= 0 ==> i == 0)
      invariant waits == Backoff(i)
      invariant forall j :: 0 <= j < i ==> AttemptError(faults, persistent, j).Some?
      invariant persistent.None? ==> i <= |faults|
    {
      var error := AttemptError(faults, persistent, i);
      if error.None? {
        return Returned(i), waits;
      }
      if i == attempts - 1 {
        return Rethrown(error.value), waits;
      }
      waits := waits + [RetryDelay * (i + 1)];
      i := i + 1;
    }
    outcome := NotAttempted;
  }

  // ---------------------------------------------------------------- error log

  const MaxErrorLogs := 100

  /** The log after one entry: the entry in front, the oldest entries beyond 100 dropped. */
  function PushError(logs: seq<ErrorLog>, entry: ErrorLog): seq<ErrorLog> {
    Take([entry] + logs, MaxErrorLogs)
  }

  function ErrorEntry(message: string, context: string, clock: Clock): ErrorLog {
    ErrorLog(clock.iso, context, message, "error")
  }

  /** `logError`: `unshift` the entry, then `pop` while there are more than 100. */
  method LogError(store: Store, message: string, context: string, clock: Clock) returns (saved: Store)
    ensures saved == store.(errorLogs := Some(PushError(store.errorLogs.GetOr([]), ErrorEntry(message, context, clock))))
    ensures 1 <= |saved.errorLogs.value| <= MaxErrorLogs
    ensures saved.errorLogs.value[0] == ErrorEntry(message, context, clock)
  {
    var logs := store.errorLogs.GetOr([]);
    logs := [ErrorEntry(message, context, clock)] + logs;
    ghost var pushed := logs;
    while |logs| > MaxErrorLogs
      invariant |logs| <= |pushed| && logs == pushed[..|logs|]
      invariant |logs| == |pushed| || |logs| >= MaxErrorLogs
    {
      logs := logs[..|logs| - 1];
    }
    saved := store.(errorLogs := Some(logs));
  }

  /** The log after several entries, logged in order. */
  function LogAll(logs: seq<ErrorLog>, entries: seq<ErrorLog>): seq<ErrorLog> {
    if entries == [] then logs
    else PushError(LogAll(logs, entries[..|entries| - 1]), entries[|entries| - 1])
  }

  lemma TakeOfTake<T>(e: T, s: seq<T>, n: nat)
    ensures Take([e] + Take(s, n), n) == Take([e] + s, n)
  {
  }

  /** The log is most recent first: the newest entries, newest in front, at most 100 of them. */
  lemma {:induction false} LogMostRecentFirst(logs: seq<ErrorLog>, entries: seq<ErrorLog>)
    requires |logs| <= MaxErrorLogs
    ensures LogAll(logs, entries) == Take(Reverse(entries) + logs, MaxErrorLogs)
  {
    if entries != [] {
      var front := entries[..|entries| - 1];
      var e := entries[|entries| - 1];
      LogMostRecentFirst(logs, front);
      TakeOfTake(e, Reverse(front) + logs, MaxErrorLogs);
      assert Reverse(entries) == [e] + Reverse(front);
    }
  }

  // ---------------------------------------------------------------- messages

  /** A message: its action and its `data` object (absent reads as empty). */
  datatype Request = Request(action: string, data: Object)

  /** What `sendResponse` receives. */
  datatype Response =
    | Succeeded                                                  // {success: true}
    | RepositoryData(data: seq<Object>, offlineMode: Option<Value>)
    | OfflineModeChanged(nowOffline: bool)
    | ErrorLogData(logs: seq<ErrorLog>)
    | Failed(error: string, retryAfter: Option<int>)             // {success: false, error, retryAfter?}

  /** One run of an action's operation: it completes with the new storage and a response, or throws. */
  datatype Attempt = Completed(store: Store, response: Response) | Threw(message: string)

  /** The TypeError every settings-reading operation throws when `settings` is not in storage. */
  const SettingsTypeError := "Cannot read properties of undefined (reading 'offlineMode')"

  const KnownActions: set<string> :=
    {"log_gap", "get_repository", "toggle_offline_mode", "sync_data", "get_error_logs", "clear_error_logs"}

  /** `slice(-settings.maxHistoryItems)`: where the kept part of the repository starts. */
  function HistorySliceStart(maxHistoryItems: Option<Value>): int {
    match ToNumber(maxHistoryItems)
    case None => 0
    case Some(x) => Trunc(-x)
  }

  /** `{...request.data, timestamp, source: sender.tab?.url, offlineCreated: settings.offlineMode}` */
  function NewGap(data: Object, clock: Clock, senderUrl: Option<string>, settings: Object): Object {
    var source := if senderUrl.Some? then Some(Str(senderUrl.value)) else None;
    Put(Put(Put(data, "timestamp", Some(Str(clock.iso))), "source", source), "offlineCreated", Field(settings, "offlineMode"))
  }

  function LogGapAttempt(store: Store, request: Request, senderUrl: Option<string>, clock: Clock): Attempt {
    if store.settings.None? then Threw(SettingsTypeError)
    else
      var settings := store.settings.value;
      var updated := store.repository.GetOr([]) + [NewGap(request.data, clock, senderUrl, settings)];
      var kept := SliceFrom(updated, HistorySliceStart(Field(settings, "maxHistoryItems")));
      Completed(store.(repository := Some(kept)), Succeeded)
  }

  function GetRepositoryAttempt(store: Store): Attempt {
    if store.settings.None? then Threw(SettingsTypeError)
    else Completed(store, RepositoryData(store.repository.GetOr([]), Field(store.settings.value, "offlineMode")))
  }

  /** `{...settings, offlineMode: !settings.offlineMode, lastSync: offline ? now : settings.lastSync}` */
  function ToggledSettings(settings: Object, clock: Clock): Object {
    var wasOffline := TruthyField(Field(settings, "offlineMode"));
    Put(Put(settings, "offlineMode", Some(Bool(!wasOffline))),
        "lastSync", if wasOffline then Some(Str(clock.iso)) else Field(settings, "lastSync"))
  }

  function ToggleAttempt(store: Store, clock: Clock): Attempt {
    if store.settings.None? then Threw(SettingsTypeError)
    else
      var settings := store.settings.value;
      Completed(store.(settings := Some(ToggledSettings(settings, clock))),
                OfflineModeChanged(!TruthyField(Field(settings, "offlineMode"))))
  }

  function SyncAttempt(store: Store, clock: Clock): Attempt {
    if store.settings.None? then Threw(SettingsTypeError)
    else
      var settings := store.settings.value;
      if TruthyField(Field(settings, "offlineMode"))
      then Completed(store, Failed("Sync not available in offline mode", None))
      else Completed(store.(settings := Some(settings["lastSync" := Str(clock.iso)])), Succeeded)
  }

  /** The operation each known action hands to `retryOperation`. */
  function ActionAttempt(store: Store, request: Request, senderUrl: Option<string>, clock: Clock): Attempt
    requires request.action in KnownActions
  {
    match request.action
    case "log_gap" => LogGapAttempt(store, request, senderUrl, clock)
    case "get_repository" => GetRepositoryAttempt(store)
    case "toggle_offline_mode" => ToggleAttempt(store, clock)
    case "sync_data" => SyncAttempt(store, clock)
    case "get_error_logs" => Completed(store, ErrorLogData(store.errorLogs.GetOr([])))
    case _ => Completed(store.(errorLogs := Some([])), Succeeded)
  }

  datatype Reply = Reply(response: Response, store: Store)

  /** `handleError`: the error is logged under the action's name and answered with a retry hint. */
  function HandleError(store: Store, message: string, context: string, clock: Clock): Reply {
    Reply(Failed(message, Some(RetryDelay)),
          store.(errorLogs := Some(PushError(store.errorLogs.GetOr([]), ErrorEntry(message, context, clock)))))
  }

  /**
   * The answer to a request that passed the rate limit. `faults` are storage failures of the
   * first attempts; a failed attempt writes nothing.
   */
  function Dispatch(store: Store, request: Request, senderUrl: Option<string>, clock: Clock, faults: seq<string>): Reply {
    if request.action !in KnownActions then Reply(Failed("Unknown action", None), store)
    else
      var a := ActionAttempt(store, request, senderUrl, clock);
      var outcome := RetryOutcomeOf(RetryAttempts, faults, if a.Threw? then Some(a.message) else None);
      if outcome.Rethrown? then HandleError(store, outcome.error, request.action, clock)
      else Reply(a.response, a.store)
  }

  /** The response to a request the rate limiter rejects. */
  function RateLimited(action: string): Response {
    Failed("Rate limit exceeded", Some(if RateLimitFor(action).Some? then RateLimitFor(action).value.timeWindow else 1000))
  }

  /** The service worker's in-memory state: the rate-limit counts. */
  class ServiceWorker {
    var requestCounts: Counts

    constructor()
      ensures requestCounts == map[]
    {
      requestCounts := map[];
    }

    /** `checkRateLimit`: counts the request when it is allowed. */
    method CheckRateLimit(action: string, now: int) returns (allowed: bool)
      modifies this
      ensures RateDecision(allowed, requestCounts) == RateCheck(old(requestCounts), action, now)
    {
      var limit := RateLimitFor(action);
      if limit.None? {
        return true;
      }
      var key := (action, now / limit.value.timeWindow);
      var count := CountOf(requestCounts, key);
      if count >= limit.value.maxRequests {
        return false;
      }
      requestCounts := requestCounts[key := count + 1];
      allowed := true;
    }

    /**
     * The `onMessage` listener: the rate limit first, then the action's operation under
     * `retryOperation`, with `handleError` when the last attempt fails.
     */
    method HandleMessage(store: Store, request: Request, senderUrl: Option<string>, clock: Clock, faults: seq<string>)
      returns (response: Response, saved: Store)
      modifies this
      ensures var d := RateCheck(old(requestCounts), request.action, clock.ms);
              && requestCounts == d.counts
              && (!d.allowed ==> response == RateLimited(request.action) && saved == store)
              && (d.allowed ==> Reply(response, saved) == Dispatch(store, request, senderUrl, clock, faults))
    {
      var allowed := CheckRateLimit(request.action, clock.ms);
      if !allowed {
        return RateLimited(request.action), store;
      }
      if request.action !in KnownActions {
        return Failed("Unknown action", None), store;
      }
      var a := ActionAttempt(store, request, senderUrl, clock);
      var outcome, waits := RetryOperation(RetryAttempts, faults, if a.Threw? then Some(a.message) else None);
      if outcome.Rethrown? {
        saved := LogError(store, outcome.error, request.action, clock);
        response := Failed(outcome.error, Some(RetryDelay));
      } else {
        response, saved := a.response, a.store;
      }
    }
  }

  // ---------------------------------------------------------------- properties of the actions

  /** Requests with no settings in storage fail on every attempt and end in a logged TypeError. */
  lemma MissingSettingsIsLogged(store: Store, request: Request, senderUrl: Option<string>, clock: Clock, faults: seq<string>)
    requires store.settings.None?
    requires request.action in {"log_gap", "get_repository", "toggle_offline_mode", "sync_data"}
    ensures var expected := if |faults| >= RetryAttempts then faults[RetryAttempts - 1] else SettingsTypeError;
            Dispatch(store, request, senderUrl, clock, faults) == HandleError(store, expected, request.action, clock)
  {
  }

  /** Unknown actions, `log_error` among them, are answered without a retry hint and use no rate-limit slot. */
  lemma UnknownActionRejected(counts: Counts, store: Store, request: Request, senderUrl: Option<string>, clock: Clock, faults: seq<string>)
    requires request.action !in KnownActions
    ensures RateCheck(counts, request.action, clock.ms) == RateDecision(true, counts)
    ensures Dispatch(store, request, senderUrl, clock, faults) == Reply(Failed("Unknown action", None), store)
  {
  }

  /**
   * Toggling flips the mode, records the time only when going back online, and keeps every
   * other settings key; toggling twice restores the original mode.
   */
  lemma ToggleFlips(settings: Object, clock: Clock, later: Clock)
    ensures var once := ToggledSettings(settings, clock);
            && TruthyField(Field(once, "offlineMode")) == !TruthyField(Field(settings, "offlineMode"))
            && (TruthyField(Field(settings, "offlineMode")) ==> once["lastSync"] == Str(clock.iso))
            && (!TruthyField(Field(settings, "offlineMode")) ==> Field(once, "lastSync") == Field(settings, "lastSync"))
            && (forall k :: k != "offlineMode" && k != "lastSync" ==> Field(once, k) == Field(settings, k))
            && TruthyField(Field(ToggledSettings(once, later), "offlineMode")) == TruthyField(Field(settings, "offlineMode"))
  {
  }

  /**
   * `log_gap` appends the new record and keeps the newest `maxHistoryItems` records; with no
   * numeric limit (`slice(-NaN)`) or a limit of 0 (`slice(-0)`) it keeps them all.
   */
  lemma LogGapKeepsNewest(store: Store, request: Request, senderUrl: Option<string>, clock: Clock)
    requires store.settings.Some?
    ensures var settings := store.settings.value;
            var a := LogGapAttempt(store, request, senderUrl, clock);
            var updated := store.repository.GetOr([]) + [NewGap(request.data, clock, senderUrl, settings)];
            && a.Completed?
            && a.store == store.(repository := a.store.repository)
            && (forall n: nat :: Field(settings, "maxHistoryItems") == Some(Num(n as real)) ==>
                  a.store.repository == Some(if n == 0 then updated else Newest(updated, n)))
            && (Field(settings, "maxHistoryItems").None? ==> a.store.repository == Some(updated))
  {
  }

  /** Every `log_gap` record carries the time, the sender's URL and the offline flag of that moment. */
  lemma NewGapFields(data: Object, clock: Clock, senderUrl: Option<string>, settings: Object)
    ensures var g := NewGap(data, clock, senderUrl, settings);
            && Field(g, "timestamp") == Some(Str(clock.iso))
            && (senderUrl.Some? <==> "source" in g)
            && (senderUrl.Some? ==> g["source"] == Str(senderUrl.value))
            && Field(g, "offlineCreated") == Field(settings, "offlineMode")
            && (forall k :: k !in {"timestamp", "source", "offlineCreated"} ==> Field(g, k) == Field(data, k))
  {
  }

  /** Sync while offline answers with an error and writes nothing; online it only sets `lastSync`. */
  lemma SyncWritesOnlyLastSync(store: Store, clock: Clock)
    requires store.settings.Some?
    ensures var settings := store.settings.value;
            var a := SyncAttempt(store, clock);
            && a.Completed?
            && (TruthyField(Field(settings, "offlineMode")) ==>
                  a == Completed(store, Failed("Sync not available in offline mode", None)))
            && (!TruthyField(Field(settings, "offlineMode")) ==>
                  && a.response == Succeeded
                  && a.store.settings.Some?
                  && a.store == store.(settings := a.store.settings)
                  && a.store.settings.value["lastSync"] == Str(clock.iso)
                  && (forall k :: k != "lastSync" ==> Field(a.store.settings.value, k) == Field(settings, k)))
  {
  }
}
