/** `TempoState.refresh` in the helper: every source is tried, every failure is
    recorded, and the whole state is replaced. */
module HelperState {
  import opened Wrappers
  import opened Text
  import opened Values
  import opened Colors
  import opened Dates
  import opened Fallback

  /** What `to_dict` serves: the three colours, the stats object, the time of the
      last refresh (whole seconds) and the joined error text. */
  datatype State = State(
    today: Color,
    tomorrow: Color,
    yesterday: Color,
    stats: JsonObject,
    lastUpdate: int,
    lastError: string)

  /** The state `TempoState()` starts in. */
  const Initial := State(Unknown, Unknown, Unknown, map[], 0, "")

  /** The outcomes of the calls `refresh` makes, in the order it makes them.
      `edf` is only consulted when `primary` failed; `cachedToday` is the
      `today` entry of the cache file, absent when the file is missing,
      unreadable or has no such entry. */
  datatype Sources = Sources(
    primary: Outcome<(Color, Color)>,
    edf: Outcome<Payload>,
    yesterday: Outcome<Color>,
    cachedToday: Option<Color>,
    stats: Outcome<JsonObject>)

  /** No step of `refresh` failed (the EDF fallback only runs when the
      primary source failed). */
  predicate AllFine(src: Sources) {
    src.primary.Ok? && src.yesterday.Ok? && src.stats.Ok?
  }

  /** The `err` list, in the order the steps run. */
  function Errors(src: Sources): (errs: seq<string>)
    ensures errs == [] <==> AllFine(src)
    ensures src.primary.Fail? ==> errs[0] == "primary failed: " + src.primary.msg
    ensures src.primary.Fail? && src.edf.Fail? ==> |errs| >= 2 && errs[1] == "edf failed: " + src.edf.msg
    ensures forall i :: 0 <= i < |errs| ==> errs[i] != ""
    ensures |errs| == (if src.primary.Fail? then (if src.edf.Fail? then 2 else 1) else 0)
                      + (if src.yesterday.Fail? then 1 else 0) + (if src.stats.Fail? then 1 else 0)
    ensures src.stats.Fail? ==> errs[|errs| - 1] == "stats failed: " + src.stats.msg
    ensures src.yesterday.Fail? ==>
              errs[|errs| - 1 - (if src.stats.Fail? then 1 else 0)] == "yesterday failed: " + src.yesterday.msg
  {
    (if src.primary.Fail? then
       ["primary failed: " + src.primary.msg]
       + (if src.edf.Fail? then ["edf failed: " + src.edf.msg] else [])
     else [])
    + (if src.yesterday.Fail? then ["yesterday failed: " + src.yesterday.msg] else [])
    + (if src.stats.Fail? then ["stats failed: " + src.stats.msg] else [])
  }

  /** Today's and tomorrow's colours: the primary source, else the EDF calendar,
      else UNKNOWN for both. */
  function Days(src: Sources, today: CivilDate): (r: (Color, Color))
    requires PyDate(today)
    ensures src.primary.Ok? ==> r == src.primary.value
    ensures src.primary.Fail? && src.edf.Ok? ==> r == FallbackDays(src.edf.value, today)
    ensures src.primary.Fail? && src.edf.Fail? ==> r == (Unknown, Unknown)
  {
    match src.primary
    case Ok(days) => days
    case Fail(_) =>
      match src.edf
      case Ok(j) => FallbackDays(j, today)
      case Fail(_) => (Unknown, Unknown)
  }

  /** `refresh()`: the new state depends only on the sources, the helper's local
      date `today` and the clock `now`, never on the previous state. */
  function Refresh(src: Sources, today: CivilDate, now: int): (s: State)
    requires PyDate(today)
    ensures src.primary.Ok? ==> (s.today, s.tomorrow) == src.primary.value
    ensures src.primary.Fail? && src.edf.Ok? ==> (s.today, s.tomorrow) == FallbackDays(src.edf.value, today)
    ensures src.primary.Fail? && src.edf.Fail? ==> s.today == Unknown && s.tomorrow == Unknown
    ensures src.yesterday.Ok? ==> s.yesterday == src.yesterday.value
    ensures src.yesterday.Fail? ==> s.yesterday == src.cachedToday.GetOr(Unknown)
    ensures s.stats == (if src.stats.Ok? then src.stats.value else map[])
    ensures s.lastUpdate == now
    ensures s.lastError == ErrorText(src)
  {
    var days := Days(src, today);
    var yesterday := match src.yesterday
      case Ok(c) => c
      case Fail(_) => src.cachedToday.GetOr(Unknown);
    var stats := match src.stats
      case Ok(st) => st
      case Fail(_) => map[];
    State(days.0, days.1, yesterday, stats, now, ErrorText(src))
  }

  /** `" | ".join(err)`: empty exactly when every step succeeded; a primary
      failure is reported first, followed by the EDF failure when the
      fallback failed too. */
  function ErrorText(src: Sources): (e: string)
    ensures e == "" <==> AllFine(src)
    ensures src.primary.Fail? ==> StartsWith(e, "primary failed: " + src.primary.msg)
    ensures src.primary.Fail? && src.edf.Fail? ==>
              StartsWith(e, "primary failed: " + src.primary.msg + " | edf failed: " + src.edf.msg)
    ensures src.stats.Fail? ==> EndsWith(e, "stats failed: " + src.stats.msg)
    ensures src.yesterday.Fail? ==> Contains(e, "yesterday failed: " + src.yesterday.msg)
  {
    EarlyErrorsJoined(src);
    LaterErrorsJoined(src);
    Join(Errors(src), " | ")
  }

  /** The joined text is empty exactly when nothing failed, and starts with the
      primary failure, then the EDF failure. */
  lemma EarlyErrorsJoined(src: Sources)
    ensures Join(Errors(src), " | ") == "" <==> AllFine(src)
    ensures src.primary.Fail? ==> StartsWith(Join(Errors(src), " | "), "primary failed: " + src.primary.msg)
    ensures src.primary.Fail? && src.edf.Fail? ==>
              StartsWith(Join(Errors(src), " | "), "primary failed: " + src.primary.msg + " | edf failed: " + src.edf.msg)
  {
    JoinFacts(Errors(src), " | ");
    assert " | " + "edf failed: " == " | edf failed: ";
  }

  /** The yesterday and stats failures survive the join: the stats message
      last, the yesterday message somewhere in the text. */
  lemma LaterErrorsJoined(src: Sources)
    ensures src.stats.Fail? ==> EndsWith(Join(Errors(src), " | "), "stats failed: " + src.stats.msg)
    ensures src.yesterday.Fail? ==> Contains(Join(Errors(src), " | "), "yesterday failed: " + src.yesterday.msg)
  {
    var errs := Errors(src);
    if src.stats.Fail? {
      JoinLast(errs, " | ");
    }
    if src.yesterday.Fail? {
      JoinContains(errs, " | ", |errs| - 1 - (if src.stats.Fail? then 1 else 0));
    }
  }

  /** Joining keeps the first two parts, in order, at the front, and is empty
      only for an empty list of non-empty parts. */
  lemma JoinFacts(xs: seq<string>, sep: string)
    requires forall i :: 0 <= i < |xs| ==> xs[i] != ""
    ensures Join(xs, sep) == "" <==> xs == []
    ensures |xs| >= 2 ==> StartsWith(Join(xs, sep), xs[0] + sep + xs[1])
  {
    if |xs| >= 2 {
      var rest := Join(xs[1..], sep);
      assert StartsWith(rest, xs[1]);
      assert Join(xs, sep) == xs[0] + sep + rest;
      assert (xs[0] + sep + rest)[..|xs[0] + sep + xs[1]|] == xs[0] + sep + rest[..|xs[1]|];
    }
  }

  /** Unlike the plugin, the helper forgets old colours: two states refreshed
      from the same failing sources are identical, whatever they held before. */
  lemma TotalFailureForgets(src: Sources, today: CivilDate, now: int)
    requires PyDate(today)
    requires src.primary.Fail? && src.edf.Fail? && src.yesterday.Fail? && src.stats.Fail?
    requires src.cachedToday.None?
    ensures Refresh(src, today, now) == State(Unknown, Unknown, Unknown, map[], now, Refresh(src, today, now).lastError)
    ensures StartsWith(Refresh(src, today, now).lastError, "primary failed: " + src.primary.msg + " | edf failed: " + src.edf.msg)
  {
  }
}
