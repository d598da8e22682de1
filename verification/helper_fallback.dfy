/** The helper's date rendering and the by-date reduction of the EDF calendar
    payload (`_fmt_no_leading_zeros`, `fetch_edf_fallback` after the request). */
module Fallback {
  import opened Wrappers
  import opened Text
  import opened Values
  import opened Colors
  import opened Dates
  import opened HelperColors

  /** Python's `date` type holds years 1 to 9999; only the lower bound matters here. */
  predicate PyDate(d: CivilDate) {
    Valid(d) && d.year >= 1
  }

  /** Reads `y-m-d` back, with or without zero padding. */
  function ParseYmd(s: string): Option<CivilDate> {
    var parts := Split(s, '-');
    if |parts| == 3 && IsDigits(parts[0]) && IsDigits(parts[1]) && IsDigits(parts[2]) then
      Some(CivilDate(ParseNat(parts[0]), ParseNat(parts[1]), ParseNat(parts[2])))
    else None
  }

  lemma ParseYmdFields(a: string, b: string, c: string)
    requires IsDigits(a) && IsDigits(b) && IsDigits(c)
    ensures ParseYmd(a + "-" + b + "-" + c) == Some(CivilDate(ParseNat(a), ParseNat(b), ParseNat(c)))
  {
    SplitThree(a, b, c);
  }

  lemma SplitThree(a: string, b: string, c: string)
    requires IsDigits(a) && IsDigits(b) && IsDigits(c)
    ensures Split(a + "-" + b + "-" + c, '-') == [a, b, c]
  {
    assert '-' !in a && '-' !in b && '-' !in c;
    assert a + "-" + b + "-" + c == a + ['-'] + (b + ['-'] + c);
    SplitCons(a, '-', b + ['-'] + c);
    SplitCons(b, '-', c);
    SplitNone(c, '-');
  }

  lemma ShowNatNoLeadingZero(n: nat)
    requires n >= 1
    ensures ShowNat(n)[0] != '0'
  {
  }

  /** `_fmt_no_leading_zeros`: three `-`-separated numerals, none starting with
      a zero. */
  function FmtNoLeadingZeros(d: CivilDate): (s: string)
    requires PyDate(d)
    ensures |Split(s, '-')| == 3
    ensures forall i :: 0 <= i < 3 ==> IsDigits(Split(s, '-')[i]) && Split(s, '-')[i][0] != '0'
  {
    SplitThree(ShowNat(d.year), ShowNat(d.month), ShowNat(d.day));
    ShowNatNoLeadingZero(d.year);
    ShowNatNoLeadingZero(d.month);
    ShowNatNoLeadingZero(d.day);
    ShowNat(d.year) + "-" + ShowNat(d.month) + "-" + ShowNat(d.day)
  }

  /** The unpadded rendering reads back as the date it came from. */
  lemma FmtNoLeadingZerosRoundTrip(d: CivilDate)
    requires PyDate(d)
    ensures ParseYmd(FmtNoLeadingZeros(d)) == Some(d)
  {
    ParseYmdFields(ShowNat(d.year), ShowNat(d.month), ShowNat(d.day));
    ParseShowNat(d.year);
    ParseShowNat(d.month);
    ParseShowNat(d.day);
  }

  lemma FmtNoLeadingZerosExample()
    ensures FmtNoLeadingZeros(CivilDate(2024, 3, 5)) == "2024-3-5"
  {
    assert ShowNat(2024) == "2024" by {
      assert ShowNat(2) == "2";
      assert ShowNat(20) == "20";
      assert ShowNat(202) == "202";
    }
  }

  /** Python's `date.isoformat()`: `YYYY-MM-DD`, zero-padded. */
  function IsoFormat(d: CivilDate): (s: string)
    requires PyDate(d)
    ensures d.year <= 9999 ==> |s| == 10
  {
    Pad2Value(d.month);
    Pad2Value(d.day);
    Pad4(d.year) + "-" + Pad2(d.month) + "-" + Pad2(d.day)
  }

  /** The padded rendering reads back as the date too, so two days never share
      a key. */
  lemma IsoFormatRoundTrip(d: CivilDate)
    requires PyDate(d)
    ensures ParseYmd(IsoFormat(d)) == Some(d)
  {
    Pad2Value(d.month);
    Pad2Value(d.day);
    ParseYmdFields(Pad4(d.year), Pad2(d.month), Pad2(d.day));
  }

  lemma IsoFormatInjective(d: CivilDate, e: CivilDate)
    requires PyDate(d) && PyDate(e) && IsoFormat(d) == IsoFormat(e)
    ensures d == e
  {
    IsoFormatRoundTrip(d);
    IsoFormatRoundTrip(e);
  }

  // ---------------------------------------------------------------------------
  // The calendar payload
  // ---------------------------------------------------------------------------

  /** One entry of the calendar list. */
  type Item = JsonObject

  /** The decoded response: each top-level key holding a list of entries. */
  type Payload = map<string, seq<Item>>

  function ListOf(j: Payload, k: string): seq<Item> {
    if k in j then j[k] else []
  }

  /** `j.get("content") or j.get("jours") or j.get("data") or []`. */
  function Entries(j: Payload): (r: seq<Item>)
    ensures r != [] ==> r == ListOf(j, "content") || r == ListOf(j, "jours") || r == ListOf(j, "data")
    ensures ListOf(j, "content") != [] ==> r == ListOf(j, "content")
    ensures ListOf(j, "content") == [] && ListOf(j, "jours") != [] ==> r == ListOf(j, "jours")
    ensures ListOf(j, "content") == [] && ListOf(j, "jours") == [] ==> r == ListOf(j, "data")
  {
    if ListOf(j, "content") != [] then ListOf(j, "content")
    else if ListOf(j, "jours") != [] then ListOf(j, "jours")
    else ListOf(j, "data")
  }

  /** `it.get("dateApplication") or it.get("dateJour") or it.get("date") or it.get("dateApp")`. */
  function DateOf(it: Item): Scalar {
    Or(Get(it, "dateApplication"), Or(Get(it, "dateJour"), Or(Get(it, "date"), Get(it, "dateApp"))))
  }

  /** `it.get("codeJour") or it.get("typeJourEffacement") or it.get("code") or it.get("couleur")`. */
  function CodeOf(it: Item): Scalar {
    Or(Get(it, "codeJour"), Or(Get(it, "typeJourEffacement"), Or(Get(it, "code"), Get(it, "couleur"))))
  }

  /** Entries without a truthy date are skipped. */
  predicate Dated(it: Item) {
    Truthy(DateOf(it))
  }

  /** `str(dj)[:10]`: the day part of a date or timestamp. */
  function DateKey(it: Item): (k: string)
    ensures |k| <= 10
    ensures k <= PyStr(DateOf(it)) && |k| == Min(10, |PyStr(DateOf(it))|)
  {
    Take(PyStr(DateOf(it)), 10)
  }

  /** Digit codes go through `code_to_color`, anything else through
      `normalize_color`. Integer codes therefore always mean what
      `code_to_color` says, negative ones included. */
  function ItemColor(it: Item): (r: Color)
    ensures CodeOf(it).Int? ==> r == CodeToColor(CodeOf(it))
    ensures CodeOf(it).Str? && IsDigits(CodeOf(it).s) ==> IntOf(CodeOf(it)) == Some(ParseNat(CodeOf(it).s)) && r == CodeToColor(CodeOf(it))
    ensures CodeOf(it).Str? && !IsDigits(CodeOf(it).s) ==> r == NormalizeColor(CodeOf(it))
    ensures !CodeOf(it).Int? && !CodeOf(it).Str? ==> r == Unknown
  {
    var cc := CodeOf(it);
    CodeFacts(cc);
    if IsDigits(PyStr(cc)) then CodeToColor(cc) else NormalizeColor(cc)
  }

  lemma CodeFacts(cc: Scalar)
    ensures cc.Str? && IsDigits(cc.s) ==> IntOf(cc) == Some(ParseNat(cc.s))
    ensures cc.Int? && cc.i < 0 ==> !IsDigits(PyStr(cc)) && NormalizeColor(cc) == Unknown && CodeToColor(cc) == Unknown
    ensures cc.Null? || cc.Bool? ==> !IsDigits(PyStr(cc)) && NormalizeColor(cc) == Unknown
  {
    if cc.Null? || cc.Bool? {
      assert !IsDigit(PyStr(cc)[0]);
    }
    if cc.Bool? && cc.b {
      ClassifyTrue();
    }
    if cc.Str? && IsDigits(cc.s) {
      DigitsIntOf(cc.s);
    }
    if cc.Int? && cc.i < 0 {
      NegativeCodeUnknown(cc.i);
    }
  }

  /** `str(-n)` names no colour, as `code_to_color(-n)` names none. */
  lemma NegativeCodeUnknown(i: int)
    requires i < 0
    ensures !IsDigits(PyStr(Int(i)))
    ensures NormalizeColor(Int(i)) == Unknown && CodeToColor(Int(i)) == Unknown
  {
    var s := ShowInt(i);
    NegativeNumeral(i);
    NumeralNamesNoColour(s);
  }

  /** `str(-n)` is a minus sign and digits, already in canonical form. */
  lemma NegativeNumeral(i: int)
    requires i < 0
    ensures var s := ShowInt(i);
      s[0] == '-' && (forall k :: 0 <= k < |s| ==> s[k] == '-' || IsDigit(s[k])) && Canon(Int(i)) == s
  {
    var s := ShowInt(i);
    assert forall k :: 0 <= k < |s| ==> s[k] == '-' || IsDigit(s[k]);
    StripUnchanged(s);
    assert Upper(s) == s;
  }

  /** Text made of signs and digits names no colour. */
  lemma NumeralNamesNoColour(s: string)
    requires s != [] && forall k :: 0 <= k < |s| ==> s[k] == '-' || IsDigit(s[k])
    ensures Classify(s) == Unknown
  {
    assert s[0] != "BLUE"[0] && s[0] != "WHITE"[0] && s[0] != "RED"[0];
    NotContainsChar(s, "BLEU");
    NotContainsChar(s, "BLANC");
    NotContainsChar(s, "ROUGE");
  }

  /** What one entry does to `by_date`: a dated entry writes its day key with
      its colour, an undated one writes nothing. */
  function WriteOf(it: Item): Option<(string, Color)> {
    if Dated(it) then Some((DateKey(it), ItemColor(it))) else None
  }

  /** The writes of the loop `for it in jours: ...`, in order. */
  function Writes(items: seq<Item>): (ws: seq<Option<(string, Color)>>)
    ensures |ws| == |items|
    ensures forall i :: 0 <= i < |items| ==> ws[i] == WriteOf(items[i])
  {
    seq(|items|, i requires 0 <= i < |items| => WriteOf(items[i]))
  }

  /** `by_date` after the loop. */
  function ReduceByDate(items: seq<Item>): map<string, Color> {
    Apply(Writes(items))
  }

  /** A map built by performing optional writes in order, from empty. */
  function Apply<K(==), V>(ws: seq<Option<(K, V)>>): map<K, V>
    decreases |ws|
  {
    if ws == [] then map[]
    else
      var m := Apply(ws[..|ws| - 1]);
      match ws[|ws| - 1]
      case None => m
      case Some(w) => m[w.0 := w.1]
  }

  /** Write `i` stores key `k`. */
  predicate WritesAt<K(==), V>(ws: seq<Option<(K, V)>>, k: K, i: int) {
    0 <= i < |ws| && ws[i].Some? && ws[i].value.0 == k
  }

  /** Write `i` is the last one that stores key `k`. */
  predicate LastWriteAt<K(==), V>(ws: seq<Option<(K, V)>>, k: K, i: int) {
    WritesAt(ws, k, i) && forall j :: i < j < |ws| ==> !WritesAt(ws, k, j)
  }

  lemma {:induction false} ApplyKeys<K, V>(ws: seq<Option<(K, V)>>, k: K)
    ensures k in Apply(ws) <==> exists i :: WritesAt(ws, k, i)
    decreases |ws|
  {
    if ws != [] {
      var n := |ws| - 1;
      var init := ws[..n];
      ApplyKeys(init, k);
      if !WritesAt(ws, k, n) {
        if k in Apply(init) {
          var i :| WritesAt(init, k, i);
          assert WritesAt(ws, k, i);
        }
        if exists i :: WritesAt(ws, k, i) {
          var i :| WritesAt(ws, k, i);
          assert WritesAt(init, k, i);
        }
      }
    }
  }

  lemma {:induction false} ApplyLast<K, V>(ws: seq<Option<(K, V)>>, k: K, i: int)
    requires LastWriteAt(ws, k, i)
    ensures k in Apply(ws) && Apply(ws)[k] == ws[i].value.1
    decreases |ws|
  {
    var n := |ws| - 1;
    var init := ws[..n];
    if i < n {
      assert !WritesAt(ws, k, n);
      forall j | i < j < n ensures !WritesAt(init, k, j) {
        assert !WritesAt(ws, k, j);
      }
      ApplyLast(init, k, i);
    }
  }

  /** Entry `i` is dated and writes key `k`. */
  predicate KeyedAt(items: seq<Item>, k: string, i: int) {
    0 <= i < |items| && Dated(items[i]) && DateKey(items[i]) == k
  }

  /** Entry `i` is the last one that writes key `k`. */
  predicate LastKeyedAt(items: seq<Item>, k: string, i: int) {
    KeyedAt(items, k, i) && forall j :: i < j < |items| ==> !KeyedAt(items, k, j)
  }

  lemma KeyedAtWrites(items: seq<Item>, k: string)
    ensures forall i :: KeyedAt(items, k, i) <==> WritesAt(Writes(items), k, i)
  {
  }

  /** A key is present exactly when some dated entry writes it: undated entries
      are ignored. */
  lemma ReduceByDateKeys(items: seq<Item>, k: string)
    ensures k in ReduceByDate(items) <==> exists i :: KeyedAt(items, k, i)
  {
    KeyedAtWrites(items, k);
    ApplyKeys(Writes(items), k);
  }

  /** A present key holds the colour of the last entry that writes it: later
      entries overwrite earlier ones. */
  lemma ReduceByDateLast(items: seq<Item>, k: string, i: int)
    requires LastKeyedAt(items, k, i)
    ensures k in ReduceByDate(items) && ReduceByDate(items)[k] == ItemColor(items[i])
  {
    KeyedAtWrites(items, k);
    ApplyLast(Writes(items), k, i);
  }

  /** A key no dated entry writes is absent from the map. */
  lemma ReduceByDateAbsent(items: seq<Item>, k: string)
    requires forall i :: 0 <= i < |items| ==> !KeyedAt(items, k, i)
    ensures k !in ReduceByDate(items)
  {
    ReduceByDateKeys(items, k);
  }

  lemma LastWriters(items: seq<Item>, k: string)
    ensures forall i :: LastKeyedAt(items, k, i) ==> k in ReduceByDate(items) && ReduceByDate(items)[k] == ItemColor(items[i])
  {
    forall i | LastKeyedAt(items, k, i)
      ensures k in ReduceByDate(items) && ReduceByDate(items)[k] == ItemColor(items[i])
    {
      ReduceByDateLast(items, k, i);
    }
  }

  /** `by_date.get(key, "UNKNOWN")`. */
  function Lookup(m: map<string, Color>, key: string): Color {
    if key in m then m[key] else Unknown
  }

  /** What `fetch_edf_fallback` returns once its request succeeded: the colours
      recorded for today's and tomorrow's ISO dates, UNKNOWN for a date the
      calendar does not list. */
  function FallbackDays(j: Payload, today: CivilDate): (r: (Color, Color))
    requires PyDate(today)
    ensures forall i :: LastKeyedAt(Entries(j), IsoFormat(today), i) ==> r.0 == ItemColor(Entries(j)[i])
    ensures forall i :: LastKeyedAt(Entries(j), IsoFormat(NextDay(today)), i) ==> r.1 == ItemColor(Entries(j)[i])
    ensures (forall i :: !KeyedAt(Entries(j), IsoFormat(today), i)) ==> r.0 == Unknown
    ensures (forall i :: !KeyedAt(Entries(j), IsoFormat(NextDay(today)), i)) ==> r.1 == Unknown
  {
    var items := Entries(j);
    var m := ReduceByDate(items);
    ReduceByDateKeys(items, IsoFormat(today));
    ReduceByDateKeys(items, IsoFormat(NextDay(today)));
    LastWriters(items, IsoFormat(today));
    LastWriters(items, IsoFormat(NextDay(today)));
    (Lookup(m, IsoFormat(today)), Lookup(m, IsoFormat(NextDay(today))))
  }
}
