/** The plugin's renderer: `updateOne` and the helpers it uses, down to the
    list of text lines `makeIcon` draws. */
module PluginRender {
  import opened Wrappers
  import opened Text
  import opened Values
  import opened Colors
  import opened Dates
  import opened PluginColors
  import opened PluginCache
  import opened PluginSettings

  // ---------------------------------------------------------------------------
  // Actions
  // ---------------------------------------------------------------------------

  /** `ACTIONS`: the action UUIDs declared in the plugin manifest. */
  const TodayAction := "com.mynewit.edf-tempo.local.v2.today"
  const TomorrowAction := "com.mynewit.edf-tempo.local.v2.tomorrow"
  const YesterdayAction := "com.mynewit.edf-tempo.local.v2.yesterday"
  const StatsBlueAction := "com.mynewit.edf-tempo.local.v2.stats.blue"
  const StatsWhiteAction := "com.mynewit.edf-tempo.local.v2.stats.white"
  const StatsRedAction := "com.mynewit.edf-tempo.local.v2.stats.red"

  /** The day a colour key shows. */
  datatype Day = Today | Tomorrow | Yesterday

  /** What a key shows: a day's colour, or the counters of one tariff. */
  datatype Kind = DayKey(day: Day) | StatsKey(tariff: Color)

  /** The kind `updateOne` derives from a key's action; an action it does not
      recognise shows today's colour. */
  function KindOf(action: string): (k: Kind)
    ensures k.StatsKey? ==> k.tariff != Unknown
    ensures k.StatsKey? <==> action == StatsBlueAction || action == StatsWhiteAction || action == StatsRedAction
  {
    if action == StatsBlueAction then StatsKey(Blue)
    else if action == StatsWhiteAction then StatsKey(White)
    else if action == StatsRedAction then StatsKey(Red)
    else if action == TomorrowAction then DayKey(Tomorrow)
    else if action == YesterdayAction then DayKey(Yesterday)
    else DayKey(Today)
  }

  /** The action UUID of each kind of key. */
  function ActionOf(k: Kind): string
    requires k.StatsKey? ==> k.tariff != Unknown
  {
    match k
    case DayKey(Today) => TodayAction
    case DayKey(Tomorrow) => TomorrowAction
    case DayKey(Yesterday) => YesterdayAction
    case StatsKey(Blue) => StatsBlueAction
    case StatsKey(White) => StatsWhiteAction
    case StatsKey(_) => StatsRedAction
  }

  /** Each declared action is recognised as its own kind. */
  lemma KindOfActionOf(k: Kind)
    requires k.StatsKey? ==> k.tariff != Unknown
    ensures KindOf(ActionOf(k)) == k
  {
    assert StatsRedAction[31] != YesterdayAction[31];
  }

  /** `offset`: days from today to the day shown. */
  function Offset(d: Day): int {
    match d
    case Today => 0
    case Tomorrow => 1
    case Yesterday => -1
  }

  /** The snapshot's colour for a day. */
  function ColorOf(s: Snapshot, d: Day): Color {
    match d
    case Today => s.today
    case Tomorrow => s.tomorrow
    case Yesterday => s.yesterday
  }

  /** `COLOR_MAP[c] || COLOR_MAP.UNKNOWN`. */
  function Hex(c: Color): string {
    match c
    case Blue => "#005AC8"
    case White => "#E6E6E6"
    case Red => "#C80000"
    case Unknown => "#555555"
  }

  // ---------------------------------------------------------------------------
  // Settings as the renderer reads them
  // ---------------------------------------------------------------------------

  /** `settings.lang || "fr"`. */
  function Lang(s: Settings): Scalar {
    Or(Get(s, "lang"), Str("fr"))
  }

  /** `lang === "en"`: strict equality, so only the string `en` is English. */
  predicate English(lang: Scalar) {
    lang == Str("en")
  }

  /** A boolean toggle as `if (settings.x)` reads it. */
  predicate Flag(s: Settings, name: string) {
    Truthy(Get(s, name))
  }

  /** The default settings read as French, with label, date and colour text
      shown and no timer. */
  lemma DefaultsView()
    ensures Lang(Defaults) == Str("fr") && !English(Lang(Defaults))
    ensures Get(Defaults, "dateFormat") == Str("ddmmyy")
    ensures Flag(Defaults, "showLabel") && Flag(Defaults, "showDate") && Flag(Defaults, "showColorText")
    ensures !Flag(Defaults, "showTimer")
    ensures Get(Defaults, "dateFormat") != Str("mmddyy")
    ensures Get(Defaults, "timerMode") != Str("endOfTargetDay")
  {
  }

  // ---------------------------------------------------------------------------
  // Text
  // ---------------------------------------------------------------------------

  /** `String(year).slice(-2)`. */
  function YearSuffix(year: int): (r: string)
    ensures 1 <= |r| <= 2
  {
    LastN(ShowInt(year), 2)
  }

  /** `formatDate(d, fmt)`: `dd/mm/yy`, or `mm/dd/yy` only when the format is
      exactly `mmddyy`. */
  function FormatDate(d: CivilDate, fmt: Scalar): (r: string)
    ensures |r| >= 7
  {
    var dd := Pad2(d.day);
    var mm := Pad2(d.month);
    var yy := YearSuffix(d.year);
    if fmt == Str("mmddyy") then mm + "/" + dd + "/" + yy else dd + "/" + mm + "/" + yy
  }

  /** The last two digits of a number of at least two digits read back as the
      number modulo 100. */
  lemma LastTwoDigits(n: nat)
    requires n >= 10
    ensures |LastN(ShowNat(n), 2)| == 2 && AllDigits(LastN(ShowNat(n), 2))
    ensures ParseNat(LastN(ShowNat(n), 2)) == n % 100
  {
    LastTwoChars(n);
    TwoDigitValue((n / 10) % 10, n % 10);
    ModHundred(n);
  }

  lemma LastTwoChars(n: nat)
    requires n >= 10
    ensures LastN(ShowNat(n), 2) == [DigitChar((n / 10) % 10), DigitChar(n % 10)]
  {
    var s := ShowNat(n / 10);
    var t := ShowNat(n);
    assert t == s + [DigitChar(n % 10)];
    assert |t| >= 2;
    assert t[|t| - 2] == s[|s| - 1] == DigitChar((n / 10) % 10);
    assert t[|t| - 1] == DigitChar(n % 10);
    assert LastN(t, 2) == t[|t| - 2..];
    assert t[|t| - 2..] == [t[|t| - 2], t[|t| - 1]];
  }

  lemma TwoDigitValue(a: nat, b: nat)
    requires a < 10 && b < 10
    ensures AllDigits([DigitChar(a), DigitChar(b)])
    ensures ParseNat([DigitChar(a), DigitChar(b)]) == a * 10 + b
  {
    var x := DigitChar(a);
    var y := DigitChar(b);
    ParseNatSnoc([], x);
    assert [] + [x] == [x];
    ParseNatSnoc([x], y);
    assert [x] + [y] == [x, y];
    DigitRoundTrip(a);
    DigitRoundTrip(b);
  }

  lemma DigitRoundTrip(d: nat)
    requires d < 10
    ensures DigitValue(DigitChar(d)) == d
  {
  }

  lemma ModHundred(n: nat)
    ensures n % 100 == ((n / 10) % 10) * 10 + n % 10
  {
    var q := n / 100;
    var r := n % 100;
    assert n == 100 * q + r;
    assert n / 10 == 10 * q + r / 10;
    assert (n / 10) % 10 == r / 10;
    assert n % 10 == r % 10;
  }

  /** A date renders as two digits, slash, two digits, slash, two digits that
      read back as its day, month (in the order the format asks) and year
      modulo 100. */
  lemma FormatDateDecode(d: CivilDate, fmt: Scalar)
    requires Valid(d) && d.year >= 10
    ensures var r := FormatDate(d, fmt);
      |r| == 8 && r[2] == '/' && r[5] == '/'
      && AllDigits(r[0..2]) && AllDigits(r[3..5]) && AllDigits(r[6..8])
      && ParseNat(r[6..8]) == d.year % 100
      && ParseNat(r[0..2]) == (if fmt == Str("mmddyy") then d.month else d.day)
      && ParseNat(r[3..5]) == (if fmt == Str("mmddyy") then d.day else d.month)
  {
    Pad2Value(d.day);
    Pad2Value(d.month);
    LastTwoDigits(d.year);
    var dd := Pad2(d.day);
    var mm := Pad2(d.month);
    var yy := YearSuffix(d.year);
    var first := if fmt == Str("mmddyy") then mm else dd;
    var second := if fmt == Str("mmddyy") then dd else mm;
    var r := first + "/" + second + "/" + yy;
    assert FormatDate(d, fmt) == r;
    assert r[0..2] == first;
    assert r[3..5] == second;
    assert r[6..8] == yy;
  }

  /** 5 March 2024 renders as `05/03/24`, or `03/05/24` in US order. */
  lemma FormatDateExample()
    ensures FormatDate(CivilDate(2024, 3, 5), Str("ddmmyy")) == "05/03/24"
    ensures FormatDate(CivilDate(2024, 3, 5), Str("mmddyy")) == "03/05/24"
  {
    ExampleFields();
  }

  lemma ExampleFields()
    ensures Pad2(5) == "05" && Pad2(3) == "03" && YearSuffix(2024) == "24"
  {
    assert ShowNat(2024) == "2024";
  }

  /** `formatColorName(color, lang)`: the English or French name, or `N/A`. */
  function FormatColorName(c: Color, lang: Scalar): (r: string)
    ensures r != ""
    ensures c == Unknown <==> r == "N/A"
  {
    if c == Unknown then "N/A"
    else if English(lang) then Name(c)
    else FrenchName(c)
  }

  /** A displayed colour name normalises back to the colour it names, so the
      plugin can read its own output. */
  lemma FormatColorNameRoundTrip(c: Color, lang: Scalar)
    requires c != Unknown
    ensures NormalizeColor(Str(FormatColorName(c, lang))) == c
  {
    NamesRoundTrip(c);
  }

  /** `labelFor(kind, lang)`. */
  function LabelFor(d: Day, lang: Scalar): (r: string)
    ensures r != ""
  {
    match d
    case Today => if English(lang) then "TODAY" else "AUJ"
    case Tomorrow => if English(lang) then "TOMORROW" else "DEMAIN"
    case Yesterday => if English(lang) then "YESTERDAY" else "HIER"
  }

  /** Different keys never share a label, and the two languages never share
      one either, so a label tells both the day and the language. */
  lemma LabelsDistinct(d: Day, e: Day, lang: Scalar)
    ensures d != e ==> LabelFor(d, lang) != LabelFor(e, lang)
    ensures LabelFor(d, Str("en")) != LabelFor(e, Str("fr"))
  {
  }

  /** The countdown's prefix. */
  function LeftPrefix(lang: Scalar): string {
    if English(lang) then "LEFT " else "RESTE "
  }

  /** Milliseconds to go, never negative. */
  function Remaining(deadline: int, now: int): nat {
    if deadline - now < 0 then 0 else deadline - now
  }

  /** `countdownText(target, lang)` at time `now`: whole minutes to go as
      hours and minutes, each padded to two digits. */
  function CountdownText(deadline: int, now: int, lang: Scalar): (r: string)
    ensures StartsWith(r, LeftPrefix(lang))
  {
    var totalMin := Remaining(deadline, now) / 60000;
    var r := LeftPrefix(lang) + Pad2(totalMin / 60) + ":" + Pad2(totalMin % 60);
    assert r[..|LeftPrefix(lang)|] == LeftPrefix(lang);
    r
  }

  /** The countdown reads back as the whole minutes remaining: hours times 60
      plus minutes, with minutes below 60 and in exactly two digits. */
  lemma CountdownDecode(deadline: int, now: int, lang: Scalar) returns (h: string, m: string)
    ensures CountdownText(deadline, now, lang) == LeftPrefix(lang) + h + ":" + m
    ensures AllDigits(h) && |h| >= 2 && AllDigits(m) && |m| == 2
    ensures ParseNat(m) < 60
    ensures ParseNat(h) * 60 + ParseNat(m) == Remaining(deadline, now) / 60000
  {
    var totalMin := Remaining(deadline, now) / 60000;
    h := Pad2(totalMin / 60);
    m := Pad2(totalMin % 60);
    Pad2Value(totalMin / 60);
    Pad2Value(totalMin % 60);
  }

  /** Once the deadline has passed the countdown stops at `00:00`. */
  lemma CountdownPast(deadline: int, now: int, lang: Scalar)
    requires deadline <= now
    ensures CountdownText(deadline, now, lang) == LeftPrefix(lang) + "00:00"
  {
    assert Pad2(0) == "00";
  }

  /** Fourteen hours before the deadline, in English: `LEFT 14:00`. */
  lemma CountdownExample(now: int)
    ensures CountdownText(now + 14 * 3600000, now, Str("en")) == "LEFT 14:00"
  {
    var total := Remaining(now + 14 * 3600000, now) / 60000;
    assert total / 60 == 14 && total % 60 == 0;
    assert Pad2(14) == "14" by {
      assert ShowInt(14) == "14";
    }
    assert Pad2(0) == "00";
  }

  // ---------------------------------------------------------------------------
  // Lines
  // ---------------------------------------------------------------------------

  /** The local time `updateOne` reads: `now` in milliseconds, today's local
      date and the time of today's local midnight. */
  datatype Clock = Clock(now: int, today: CivilDate, midnight: int)

  const DayMs := 86400000

  /** A clock whose three readings agree (no time-zone change in between). */
  predicate Consistent(c: Clock) {
    Valid(c.today) && c.midnight <= c.now < c.midnight + DayMs
  }

  /** The countdown's deadline: the end of the day shown when the timer mode
      is `endOfTargetDay`, else the end of today. */
  function Deadline(c: Clock, d: Day, mode: Scalar): (t: int)
    ensures mode != Str("endOfTargetDay") || d == Today ==> t == c.midnight + DayMs
    ensures mode == Str("endOfTargetDay") && d == Yesterday ==> t == c.midnight
    ensures mode == Str("endOfTargetDay") && d == Tomorrow ==> t == c.midnight + 2 * DayMs
  {
    var base := if mode == Str("endOfTargetDay") then c.midnight + Offset(d) * DayMs else c.midnight;
    base + DayMs
  }

  /** The lines of a colour key, as written: label, date, then the countdown
      or else the colour's name. Without a date line the colour's name is
      pushed only when fewer than two lines precede it. */
  function DayLines(d: Day, snap: Snapshot, s: Settings, c: Clock): (r: seq<string>)
    requires Valid(c.today)
    ensures r == (if Flag(s, "showLabel") then [LabelFor(d, Lang(s))] else [])
                 + (if Flag(s, "showDate") then [FormatDate(Shift(c.today, Offset(d)), Get(s, "dateFormat"))] else [])
                 + (if Flag(s, "showTimer") then [CountdownText(Deadline(c, d, Get(s, "timerMode")), c.now, Lang(s))]
                    else if Flag(s, "showColorText") then [FormatColorName(ColorOf(snap, d), Lang(s))]
                    else [])
  {
    var lang := Lang(s);
    var labelLine := if Flag(s, "showLabel") then [LabelFor(d, lang)] else [];
    var date := if Flag(s, "showDate") then [FormatDate(Shift(c.today, Offset(d)), Get(s, "dateFormat"))] else [];
    var lines := labelLine + date;
    var last :=
      if Flag(s, "showTimer") then [CountdownText(Deadline(c, d, Get(s, "timerMode")), c.now, lang)]
      else if Flag(s, "showColorText") then
        if Flag(s, "showDate") then [FormatColorName(ColorOf(snap, d), lang)]
        else if |lines| < 2 then [FormatColorName(ColorOf(snap, d), lang)]
        else []
      else [];
    lines + last
  }

  /** `value ?? "?"` in a template: only a missing or null counter shows `?`. */
  function Shown(v: Scalar): (r: string)
    ensures r == "?" <==> v == Null || v == Str("?")
  {
    if v == Null then "?" else JsStr(v)
  }

  /** The counters' key prefix for a tariff. */
  function StatKey(t: Color): string {
    match t
    case Blue => "bleu"
    case White => "blanc"
    case _ => "rouge"
  }

  /** The word before the used-days counter. The French literal is stored
      double-encoded in the source and is reproduced here as it is drawn. */
  function UsedPrefix(lang: Scalar): string {
    if English(lang) then "USED " else "PASS\U{00C3}\U{2030} "
  }

  /** The three lines of a stats key: the tariff's name, days left, days used. */
  function StatsLines(t: Color, stats: JsonObject, lang: Scalar): (r: seq<string>)
    requires t != Unknown
    ensures |r| == 3 && r[0] == FormatColorName(t, lang)
    ensures r[1] == LeftPrefix(lang) + Shown(Get(stats, StatKey(t) + "_left"))
    ensures r[2] == UsedPrefix(lang) + Shown(Get(stats, StatKey(t) + "_used"))
    ensures forall i :: 0 <= i < |r| ==> r[i] != ""
  {
    var name := if English(lang) then Name(t) else FrenchName(t);
    [name,
     LeftPrefix(lang) + Shown(Get(stats, StatKey(t) + "_left")),
     UsedPrefix(lang) + Shown(Get(stats, StatKey(t) + "_used"))]
  }

  /** A zero counter is shown as `0`, not as `?`. */
  lemma ZeroCounterShown(t: Color, stats: JsonObject, lang: Scalar)
    requires t != Unknown && Get(stats, StatKey(t) + "_left") == Int(0)
    ensures StatsLines(t, stats, lang)[1] == LeftPrefix(lang) + "0"
  {
    assert ShowNat(0) == "0";
  }

  // ---------------------------------------------------------------------------
  // Icons
  // ---------------------------------------------------------------------------

  /** `lines.filter(Boolean)`: the non-empty lines, in order. */
  function NonEmpty(lines: seq<string>): (r: seq<string>)
    ensures |r| <= |lines|
    ensures forall i :: 0 <= i < |r| ==> r[i] != ""
    ensures forall x :: x in r <==> x in lines && x != ""
    ensures (forall i :: 0 <= i < |lines| ==> lines[i] != "") ==> r == lines
  {
    if lines == [] then []
    else (if lines[0] == "" then [] else [lines[0]]) + NonEmpty(lines[1..])
  }

  /** Filtering distributes over concatenation, so the order of lines is kept. */
  lemma {:induction false} NonEmptyAppend(a: seq<string>, b: seq<string>)
    ensures NonEmpty(a + b) == NonEmpty(a) + NonEmpty(b)
  {
    if a == [] {
      assert a + b == b;
    } else {
      assert (a + b)[0] == a[0];
      assert (a + b)[1..] == a[1..] + b;
      NonEmptyAppend(a[1..], b);
    }
  }

  /** The lines `makeIcon` draws: the non-empty ones, at most three. */
  function SafeLines(lines: seq<string>): (r: seq<string>)
    ensures |r| <= 3
    ensures forall i :: 0 <= i < |r| ==> r[i] != ""
    ensures r <= NonEmpty(lines)
    ensures |NonEmpty(lines)| <= 3 ==> r == NonEmpty(lines)
    ensures |r| == if |NonEmpty(lines)| < 3 then |NonEmpty(lines)| else 3
  {
    Take(NonEmpty(lines), 3)
  }

  /** Sanitising twice is sanitising once. */
  lemma SafeLinesIdempotent(lines: seq<string>)
    ensures SafeLines(SafeLines(lines)) == SafeLines(lines)
  {
  }

  /** What `makeIcon` is asked to draw, after sanitising the lines. */
  datatype Icon = Icon(background: string, lines: seq<string>, invert: bool)

  function MakeIcon(background: string, lines: seq<string>, invert: bool): (r: Icon)
    ensures r.lines == SafeLines(lines) && r.background == background && r.invert == invert
  {
    Icon(background, SafeLines(lines), invert)
  }

  /** The colour whose background a key shows. */
  function IconColor(action: string, snap: Snapshot): Color {
    match KindOf(action)
    case StatsKey(t) => t
    case DayKey(d) => ColorOf(snap, d)
  }

  /** `updateOne(ctx)` for a registered key. */
  function UpdateOne(reg: Registration, snap: Snapshot, c: Clock): (r: Icon)
    requires Valid(c.today)
    ensures r.background == Hex(IconColor(reg.action, snap))
    ensures r.invert <==> IconColor(reg.action, snap) == White
    ensures |r.lines| <= 3
    ensures forall i :: 0 <= i < |r.lines| ==> r.lines[i] != ""
  {
    var lang := Lang(reg.settings);
    match KindOf(reg.action)
    case StatsKey(t) => MakeIcon(Hex(t), StatsLines(t, snap.stats, lang), t == White)
    case DayKey(d) =>
      var color := ColorOf(snap, d);
      MakeIcon(Hex(color), DayLines(d, snap, reg.settings, c), color == White)
  }

  /** Re-render every registered key (the five-second tick, and the end of
      every refresh that fetched). */
  function RenderAll(m: Contexts, snap: Snapshot, c: Clock): (r: map<string, Icon>)
    requires Valid(c.today)
    ensures r.Keys == m.Keys
    ensures forall k :: k in m ==> r[k] == UpdateOne(m[k], snap, c)
  {
    map k | k in m :: UpdateOne(m[k], snap, c)
  }

  // ---------------------------------------------------------------------------
  // Properties
  // ---------------------------------------------------------------------------

  /** A stats key always draws its three lines. */
  lemma StatsKeyThreeLines(reg: Registration, snap: Snapshot, c: Clock)
    requires Valid(c.today) && KindOf(reg.action).StatsKey?
    ensures UpdateOne(reg, snap, c).lines == StatsLines(KindOf(reg.action).tariff, snap.stats, Lang(reg.settings))
  {
  }

  /** A colour key draws every line `DayLines` produces: there are never more
      than three, and none is empty. */
  lemma DayKeyLines(reg: Registration, snap: Snapshot, c: Clock)
    requires Valid(c.today) && KindOf(reg.action).DayKey?
    ensures UpdateOne(reg, snap, c).lines == DayLines(KindOf(reg.action).day, snap, reg.settings, c)
  {
    var d := KindOf(reg.action).day;
    var lines := DayLines(d, snap, reg.settings, c);
    assert forall i :: 0 <= i < |lines| ==> lines[i] != "";
  }

  /** With every toggle off a colour key is a bare coloured square. */
  lemma AllTogglesOff(d: Day, snap: Snapshot, s: Settings, c: Clock)
    requires Valid(c.today)
    requires !Flag(s, "showLabel") && !Flag(s, "showDate") && !Flag(s, "showTimer") && !Flag(s, "showColorText")
    ensures DayLines(d, snap, s, c) == []
  {
  }

  /** The timer takes the colour name's place. */
  lemma TimerWins(d: Day, snap: Snapshot, s: Settings, c: Clock)
    requires Valid(c.today) && Flag(s, "showTimer")
    ensures var r := DayLines(d, snap, s, c);
      r != [] && r[|r| - 1] == CountdownText(Deadline(c, d, Get(s, "timerMode")), c.now, Lang(s))
  {
  }

  /** Yesterday's key counting down to the end of its own day always shows
      `00:00`: that deadline is today's midnight, already past. */
  lemma YesterdayTimerExpired(snap: Snapshot, s: Settings, c: Clock)
    requires Consistent(c) && Flag(s, "showTimer") && Get(s, "timerMode") == Str("endOfTargetDay")
    ensures var r := DayLines(Yesterday, snap, s, c);
      r != [] && r[|r| - 1] == LeftPrefix(Lang(s)) + "00:00"
  {
    CountdownPast(Deadline(c, Yesterday, Get(s, "timerMode")), c.now, Lang(s));
  }

  /** A key with default settings shows `AUJ`, the date as `dd/mm/yy` and the
      colour's French name. */
  lemma DefaultTodayKey(snap: Snapshot, c: Clock)
    requires Valid(c.today)
    ensures UpdateOne(Registration(TodayAction, Defaults), snap, c).lines
            == ["AUJ", FormatDate(c.today, Str("ddmmyy")), FormatColorName(snap.today, Str("fr"))]
  {
    DefaultsView();
    TodayActionKind();
    DayKeyLines(Registration(TodayAction, Defaults), snap, c);
  }

  lemma TodayActionKind()
    ensures KindOf(TodayAction) == DayKey(Today)
  {
  }

  /** A failed refresh leaves every key's icon as it was. */
  lemma FailureKeepsIcons(m: Contexts, s: Snapshot, now: int, force: bool, e: string,
                          q: Outcome<JsonObject>, c: Clock)
    requires Valid(c.today)
    ensures RenderAll(m, RefreshAll(s, now, force, Fail(e), q).snap, c) == RenderAll(m, s, c)
  {
    var s2 := RefreshAll(s, now, force, Fail(e), q).snap;
    forall k | k in m
      ensures UpdateOne(m[k], s2, c) == UpdateOne(m[k], s, c)
    {
      UpdateOneReadsColorsAndStats(m[k], s2, s, c);
    }
  }

  /** A key's icon depends on the snapshot's colours and stats only, not on
      when it was fetched or on the error text. */
  lemma UpdateOneReadsColorsAndStats(reg: Registration, s1: Snapshot, s2: Snapshot, c: Clock)
    requires Valid(c.today)
    requires s1.today == s2.today && s1.tomorrow == s2.tomorrow && s1.yesterday == s2.yesterday
    requires s1.stats == s2.stats
    ensures UpdateOne(reg, s1, c) == UpdateOne(reg, s2, c)
  {
  }

  /** A today key that has just appeared with empty settings turns blue when a
      key press fetches `BLEU` for today, and the press is acknowledged. */
  lemma PressShowsBlue(m: Contexts, ctx: string, s: Snapshot, now: int, t: TempoJson,
                       q: Outcome<JsonObject>, c: Clock)
    requires Valid(c.today) && t.today == Str("BLEU")
    ensures var m2 := WillAppear(m, ctx, TodayAction, Some(map[]));
            var r := KeyDown(s, now, Ok(t), q);
            ctx in RenderAll(m2, r.0.snap, c)
            && RenderAll(m2, r.0.snap, c)[ctx].background == "#005AC8"
            && r.1 == ShowOk
  {
    TodayActionKind();
    PluginColors.NamesRoundTrip(Blue);
    assert FrenchName(Blue) == "BLEU";
  }
}
