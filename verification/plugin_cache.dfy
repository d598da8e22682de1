/** The plugin's cached view of the helper (`lastTempo`) and the throttled
    `refreshAll` that updates it. */
module PluginCache {
  import opened Wrappers
  import opened Values
  import opened Colors
  import opened PluginColors

  /** `lastTempo`: the three colours, the stats object, when it was last
      fetched (milliseconds) and the last error text. */
  datatype Snapshot = Snapshot(
    today: Color,
    tomorrow: Color,
    yesterday: Color,
    stats: JsonObject,
    fetchedAt: int,
    lastError: Scalar)

  /** The snapshot the plugin starts with. */
  const Initial := Snapshot(Unknown, Unknown, Unknown, map[], 0, Str(""))

  /** A non-forced refresh within this many milliseconds of the last fetch is
      skipped. */
  const MinInterval := 30000

  /** The members of the helper's `/tempo` document that the plugin reads.
      `stats` is None when the member is absent or falsy. */
  datatype TempoJson = TempoJson(
    today: Scalar,
    tomorrow: Scalar,
    yesterday: Scalar,
    stats: Option<JsonObject>,
    lastError: Scalar)

  /** The two URLs the plugin fetches. */
  datatype Endpoint = TempoUrl | StatsUrl

  /** The new snapshot and the URLs fetched to build it, in order. */
  datatype Refreshed = Refreshed(snap: Snapshot, fetched: seq<Endpoint>)

  /** `t.stats || {}`. */
  function StatsOf(t: TempoJson): JsonObject {
    t.stats.GetOr(map[])
  }

  /** The throttle test: not forced, and less than `MinInterval` since the
      last fetch (a clock that went back counts as "less"). */
  predicate Throttled(s: Snapshot, now: int, force: bool) {
    !force && now - s.fetchedAt < MinInterval
  }

  /** `refreshAll(force)` at time `now`. `primary` is the outcome of fetching
      `/tempo` (Fail carries `String(e)`), `secondary` the outcome of fetching
      `/stats`, consulted only when the primary stats are empty. */
  function RefreshAll(s: Snapshot, now: int, force: bool,
                      primary: Outcome<TempoJson>, secondary: Outcome<JsonObject>): (r: Refreshed)
    ensures Throttled(s, now, force) ==> r == Refreshed(s, [])
    ensures !Throttled(s, now, force) ==> r.snap.fetchedAt == now && r.fetched != [] && r.fetched[0] == TempoUrl
    ensures !Throttled(s, now, force) && primary.Fail? ==>
              r.snap.today == s.today && r.snap.tomorrow == s.tomorrow && r.snap.yesterday == s.yesterday
              && r.snap.stats == s.stats && r.snap.lastError == Str(primary.msg)
    ensures !Throttled(s, now, force) && primary.Ok? ==>
              r.snap.today == NormalizeColor(primary.value.today)
              && r.snap.tomorrow == NormalizeColor(primary.value.tomorrow)
              && r.snap.yesterday == NormalizeColor(primary.value.yesterday)
              && r.snap.lastError == Or(primary.value.lastError, Str(""))
    ensures StatsUrl in r.fetched <==> !Throttled(s, now, force) && primary.Ok? && StatsOf(primary.value) == map[]
    ensures !Throttled(s, now, force) && primary.Ok? && StatsOf(primary.value) != map[] ==>
              r.snap.stats == StatsOf(primary.value)
    ensures StatsUrl in r.fetched ==> r.snap.stats == (if secondary.Ok? then secondary.value else map[])
  {
    if Throttled(s, now, force) then Refreshed(s, [])
    else
      match primary
      case Fail(e) => Refreshed(s.(lastError := Str(e), fetchedAt := now), [TempoUrl])
      case Ok(t) =>
        var first := StatsOf(t);
        var stats := if first != map[] then first
                     else match secondary
                       case Ok(o) => o
                       case Fail(_) => first;
        var fetched := if first != map[] then [TempoUrl] else [TempoUrl, StatsUrl];
        Refreshed(
          Snapshot(NormalizeColor(t.today), NormalizeColor(t.tomorrow), NormalizeColor(t.yesterday),
                   stats, now, Or(t.lastError, Str(""))),
          fetched)
  }

  // ---------------------------------------------------------------------------
  // Properties
  // ---------------------------------------------------------------------------

  /** Right after a fetch, every non-forced refresh in the following
      `MinInterval` milliseconds is skipped, whatever the sources would say. */
  lemma ThrottleWindow(s: Snapshot, t1: int, force: bool, p1: Outcome<TempoJson>, q1: Outcome<JsonObject>,
                       t2: int, p2: Outcome<TempoJson>, q2: Outcome<JsonObject>)
    requires !Throttled(s, t1, force)
    requires t2 < t1 + MinInterval
    ensures RefreshAll(RefreshAll(s, t1, force, p1, q1).snap, t2, false, p2, q2).fetched == []
  {
  }

  /** ... and the first non-forced refresh `MinInterval` or more after it
      fetches again: the 60-second poll never skips a beat. */
  lemma FetchAfterInterval(s: Snapshot, t1: int, force: bool, p1: Outcome<TempoJson>, q1: Outcome<JsonObject>,
                           t2: int, p2: Outcome<TempoJson>, q2: Outcome<JsonObject>)
    requires !Throttled(s, t1, force)
    requires t2 >= t1 + MinInterval
    ensures RefreshAll(RefreshAll(s, t1, force, p1, q1).snap, t2, false, p2, q2).fetched != []
    ensures RefreshAll(RefreshAll(s, t1, force, p1, q1).snap, t2, false, p2, q2).snap.fetchedAt == t2
  {
  }

  /** A forced refresh (start-up, key press) always fetches. */
  lemma ForceFetches(s: Snapshot, now: int, p: Outcome<TempoJson>, q: Outcome<JsonObject>)
    ensures RefreshAll(s, now, true, p, q).fetched != []
    ensures RefreshAll(s, now, true, p, q).snap.fetchedAt == now
  {
  }

  /** The start-up refresh fetches even at time 0, and the poll a minute
      later fetches again. */
  lemma StartupThenPoll(now: int, p1: Outcome<TempoJson>, q1: Outcome<JsonObject>,
                        p2: Outcome<TempoJson>, q2: Outcome<JsonObject>)
    ensures RefreshAll(Initial, now, true, p1, q1).fetched != []
    ensures RefreshAll(RefreshAll(Initial, now, true, p1, q1).snap, now + 60000, false, p2, q2).fetched != []
  {
    FetchAfterInterval(Initial, now, true, p1, q1, now + 60000, p2, q2);
  }

  /** The snapshot the plugin starts with shows every day UNKNOWN, and any
      refresh, forced or not, fetches once the clock reads `MinInterval` or
      more. */
  lemma FirstRefreshFetches(now: int, force: bool, p: Outcome<TempoJson>, q: Outcome<JsonObject>)
    requires now >= MinInterval
    ensures Initial.today == Unknown && Initial.tomorrow == Unknown && Initial.yesterday == Unknown
    ensures RefreshAll(Initial, now, force, p, q).fetched != []
    ensures RefreshAll(Initial, now, force, p, q).snap.fetchedAt == now
  {
  }

  /** With a clock that does not run backwards, `fetchedAt` never decreases. */
  lemma FetchedAtMonotone(s: Snapshot, now: int, force: bool, p: Outcome<TempoJson>, q: Outcome<JsonObject>)
    requires s.fetchedAt <= now
    ensures s.fetchedAt <= RefreshAll(s, now, force, p, q).snap.fetchedAt <= now
  {
  }

  /** A successful fetch replaces the whole snapshot: what the plugin held
      before no longer matters. */
  lemma SuccessForgetsPrevious(s1: Snapshot, s2: Snapshot, now: int, t: TempoJson, q: Outcome<JsonObject>)
    ensures RefreshAll(s1, now, true, Ok(t), q) == RefreshAll(s2, now, true, Ok(t), q)
  {
  }

  /** A failed fetch keeps everything the plugin showed: the keys keep their
      colours and counters, and a second failure changes only the error
      text and the time. */
  lemma FailureKeepsPrevious(s: Snapshot, now: int, force: bool, e: string, q: Outcome<JsonObject>)
    requires !Throttled(s, now, force)
    ensures RefreshAll(s, now, force, Fail(e), q).snap == s.(fetchedAt := now, lastError := Str(e))
    ensures RefreshAll(s, now, force, Fail(e), q).fetched == [TempoUrl]
  {
  }

  /** The stats the snapshot ends up with are never empty when either source
      had some. */
  lemma StatsFallback(s: Snapshot, now: int, force: bool, t: TempoJson, q: Outcome<JsonObject>)
    requires !Throttled(s, now, force)
    ensures RefreshAll(s, now, force, Ok(t), q).snap.stats == map[] <==>
              StatsOf(t) == map[] && (q.Fail? || q.value == map[])
  {
  }

  // ---------------------------------------------------------------------------
  // Key press
  // ---------------------------------------------------------------------------

  /** The feedback a key shows after a press. */
  datatype Feedback = ShowOk | ShowAlert

  /** `onKeyDown` as written: `refreshAll(true).then(showOk).catch(showAlert)`.
      `refreshAll` catches a failed fetch itself and resolves, so the
      promise never rejects. */
  function KeyDownAsWritten(s: Snapshot, now: int, p: Outcome<TempoJson>, q: Outcome<JsonObject>): (r: (Refreshed, Feedback))
    ensures r.0 == RefreshAll(s, now, true, p, q)
    ensures r.1 == ShowOk
  {
    (RefreshAll(s, now, true, p, q), ShowOk)
  }

  /** The press the handler evidently intends: the alert is shown exactly when
      the refresh could not reach the helper. */
  function KeyDown(s: Snapshot, now: int, p: Outcome<TempoJson>, q: Outcome<JsonObject>): (r: (Refreshed, Feedback))
    ensures r.0 == RefreshAll(s, now, true, p, q)
    ensures r.1 == ShowAlert <==> p.Fail?
    ensures r.1 == ShowAlert ==> r.0.snap.lastError == Str(p.msg)
  {
    (RefreshAll(s, now, true, p, q), if p.Fail? then ShowAlert else ShowOk)
  }

  /** As written, a press while the helper is unreachable still shows OK, and
      the corrected handler shows the alert. */
  lemma KeyDownNeverAlerts(s: Snapshot, now: int, e: string, q: Outcome<JsonObject>)
    ensures KeyDownAsWritten(s, now, Fail(e), q).1 == ShowOk
    ensures KeyDown(s, now, Fail(e), q).1 == ShowAlert
    ensures KeyDownAsWritten(s, now, Fail(e), q).0.snap.lastError == Str(e)
  {
  }
}
