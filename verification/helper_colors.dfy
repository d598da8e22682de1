/** Colour decoding in the Python helper (`normalize_color`, `code_to_color`). */
module HelperColors {
  import opened Wrappers
  import opened Text
  import opened Values
  import opened Colors

  /** The form a value is matched in: `str(v).strip().upper()`. */
  function Canon(v: Scalar): string {
    Upper(Strip(PyStr(v)))
  }

  /** `u` names the colour in French anywhere, or is exactly its English name. */
  predicate Mentions(u: string, french: string, english: string) {
    Contains(u, french) || u == english
  }

  /** The colour a canonical string names, matched against blue, then white, then red.
      The source also accepts the suffixes `_BLEU`, `_BLANC`, `_ROUGE`; the
      contract shows they are already covered by the French substring tests. */
  function Classify(u: string): (r: Color)
    ensures r == Blue <==> Mentions(u, "BLEU", "BLUE")
    ensures r == White <==> !Mentions(u, "BLEU", "BLUE") && Mentions(u, "BLANC", "WHITE")
    ensures r == Red <==>
              !Mentions(u, "BLEU", "BLUE") && !Mentions(u, "BLANC", "WHITE") && Mentions(u, "ROUGE", "RED")
  {
    SuffixesRedundant(u);
    if Contains(u, "BLEU") || u == "BLUE" || EndsWith(u, "_BLEU") then Blue
    else if Contains(u, "BLANC") || u == "WHITE" || EndsWith(u, "_BLANC") then White
    else if Contains(u, "ROUGE") || u == "RED" || EndsWith(u, "_ROUGE") then Red
    else Unknown
  }

  /** `normalize_color`: falsy input (`None`, `""`, `0`, `False`) is UNKNOWN;
      anything else is classified by its stripped, upper-cased text. */
  function NormalizeColor(v: Scalar): (r: Color)
    ensures !Truthy(v) ==> r == Unknown
    ensures Truthy(v) && Contains(Canon(v), "BLEU") ==> r == Blue
  {
    if !Truthy(v) then Unknown else Classify(Canon(v))
  }

  lemma SuffixesRedundant(u: string)
    ensures EndsWith(u, "_BLEU") ==> Contains(u, "BLEU")
    ensures EndsWith(u, "_BLANC") ==> Contains(u, "BLANC")
    ensures EndsWith(u, "_ROUGE") ==> Contains(u, "ROUGE")
  {
    assert "_BLEU" == "_" + "BLEU";
    assert "_BLANC" == "_" + "BLANC";
    assert "_ROUGE" == "_" + "ROUGE";
    SuffixContains(u, "_", "BLEU");
    SuffixContains(u, "_", "BLANC");
    SuffixContains(u, "_", "ROUGE");
  }

  /** A string ending in `p + w` contains `w`. */
  lemma SuffixContains(u: string, p: string, w: string)
    ensures EndsWith(u, p + w) ==> Contains(u, w)
  {
    if EndsWith(u, p + w) {
      assert u[|u| - |w|..] == u[|u| - |p + w|..][|p|..];
      ContainsOccurs(u, w, |u| - |w|);
    }
  }

  /** The empty canonical form names no colour. */
  lemma ClassifyEmpty()
    ensures Classify([]) == Unknown
  {
    NotContainsChar([], "BLEU");
    NotContainsChar([], "BLANC");
    NotContainsChar([], "ROUGE");
  }

  /** A string with no lower-case letter and no surrounding white space is its
      own canonical form. */
  lemma CanonOfCanonical(s: string)
    requires forall i :: 0 <= i < |s| ==> !('a' <= s[i] <= 'z')
    requires s == [] || (!IsSpace(s[0]) && !IsSpace(s[|s| - 1]))
    ensures Canon(Str(s)) == s
  {
    StripUnchanged(s);
    assert Upper(s) == s;
  }

  /** The canonical form of a word without surrounding white space is its
      upper-case spelling. */
  lemma CanonOf(s: string, u: string)
    requires s != [] && !IsSpace(s[0]) && !IsSpace(s[|s| - 1]) && Upper(s) == u
    ensures Upper(Strip(s)) == u
  {
    StripUnchanged(s);
  }

  /** Matching ignores case and surrounding white space: a string and its
      stripped, upper-cased form normalise to the same colour. */
  lemma {:induction false} NormalizeIgnoresCaseAndSpace(s: string)
    ensures NormalizeColor(Str(s)) == NormalizeColor(Str(Upper(Strip(s))))
  {
    UpperStripIdempotent(s);
    var u := Upper(Strip(s));
    assert Canon(Str(u)) == Canon(Str(s));
    if s != [] && u == [] {
      ClassifyEmpty();
    }
  }

  /** Blue has priority: any value whose canonical form contains `BLEU` is blue,
      whatever else (`ROUGE`, `BLANC`) it contains; `None`, `False` and `0`
      have no such form. */
  lemma BlueWins(v: Scalar)
    requires Contains(Canon(v), "BLEU")
    ensures NormalizeColor(v) == Blue
  {
    if !Truthy(v) {
      match v
      case Null =>
        CanonOf("None", "NONE");
        NotContainsChar("NONE", "BLEU");
      case Bool(b) =>
        CanonOf("False", "FALSE");
        NotContainsChar("FALSE", "BLEU");
      case Int(i) =>
        CanonOf("0", "0");
        NotContainsChar("0", "BLEU");
      case Str(s) =>
        ClassifyEmpty();
        NotContainsChar([], "BLEU");
    }
  }

  /** The English names match only as the whole canonical string, while French
      names match anywhere: `BLUE SKY` names no colour, ` blue ` is blue,
      `rouge et bleu` is blue (blue has priority) and `TEMPO_ROUGE` is red. */
  lemma EnglishNamesMatchWhole()
    ensures NormalizeColor(Str("BLUE SKY")) == Unknown
    ensures NormalizeColor(Str(" blue ")) == Blue
    ensures NormalizeColor(Str("rouge et bleu")) == Blue
    ensures NormalizeColor(Str("TEMPO_ROUGE")) == Red
  {
    BlueSkyIsUnknown();
    PaddedBlueIsBlue();
    MixedIsBlue();
    TempoRougeIsRed();
  }

  lemma MixedIsBlue()
    ensures NormalizeColor(Str("rouge et bleu")) == Blue
  {
    var s := "rouge et bleu";
    var u := "ROUGE ET BLEU";
    CanonOf(s, u);
    ContainsOccurs(u, "BLEU", 9);
    BlueWins(Str(s));
  }

  lemma BlueSkyIsUnknown()
    ensures NormalizeColor(Str("BLUE SKY")) == Unknown
  {
    var u := "BLUE SKY";
    CanonOfCanonical(u);
    NotOccursAt(u, "BLEU", 0, 2);
    NoOccurrenceFrom(u, "BLEU", 1);
    NotOccursAt(u, "BLANC", 0, 2);
    NoOccurrenceFrom(u, "BLANC", 1);
    NotContainsChar(u, "ROUGE");
  }

  lemma PaddedBlueIsBlue()
    ensures NormalizeColor(Str(" blue ")) == Blue
  {
    StripPadded(" ", "blue", " ");
    assert Upper("blue") == "BLUE";
  }

  lemma TempoRougeIsRed()
    ensures NormalizeColor(Str("TEMPO_ROUGE")) == Red
  {
    var t := "TEMPO_ROUGE";
    CanonOfCanonical(t);
    NotContainsChar(t, "BLEU");
    NotContainsChar(t, "BLANC");
    ContainsOccurs(t, "ROUGE", 6);
  }

  /** Every canonical name, English or French, normalises back to its colour. */
  lemma NamesRoundTrip(c: Color)
    ensures NormalizeColor(Str(Name(c))) == c
    ensures NormalizeColor(Str(FrenchName(c))) == c
  {
    CanonOfCanonical(Name(c));
    CanonOfCanonical(FrenchName(c));
    match c
    case Blue => ClassifyBlueNames();
    case White => ClassifyWhiteNames();
    case Red => ClassifyRedNames();
    case Unknown => ClassifyUnknownName();
  }

  lemma ClassifyBlueNames()
    ensures Classify("BLUE") == Blue && Classify("BLEU") == Blue
  {
    ContainsOccurs("BLEU", "BLEU", 0);
  }

  lemma ClassifyWhiteNames()
    ensures Classify("WHITE") == White && Classify("BLANC") == White
  {
    NotContainsChar("WHITE", "BLEU");
    NotOccursAt("BLANC", "BLEU", 0, 2);
    NoOccurrenceFrom("BLANC", "BLEU", 1);
    ContainsOccurs("BLANC", "BLANC", 0);
  }

  lemma ClassifyRedNames()
    ensures Classify("RED") == Red && Classify("ROUGE") == Red
  {
    NotContainsChar("RED", "BLEU");
    NotContainsChar("RED", "BLANC");
    NotContainsChar("ROUGE", "BLEU");
    NotContainsChar("ROUGE", "BLANC");
    ContainsOccurs("ROUGE", "ROUGE", 0);
  }

  /** `str(True)` names no colour. */
  lemma ClassifyTrue()
    ensures Canon(Bool(true)) == "TRUE" && Classify("TRUE") == Unknown
  {
    StripUnchanged("True");
    NotContainsChar("TRUE", "BLEU");
    NotContainsChar("TRUE", "BLANC");
  }

  lemma ClassifyUnknownName()
    ensures Classify("UNKNOWN") == Unknown
  {
    NotContainsChar("UNKNOWN", "BLEU");
    NotContainsChar("UNKNOWN", "BLANC");
    NotContainsChar("UNKNOWN", "ROUGE");
  }

  // ---------------------------------------------------------------------------
  // Integer codes
  // ---------------------------------------------------------------------------

  /** Python's `int(v)` on a scalar: `None` raises, booleans are 0 and 1, and a
      string is stripped and read as an optionally signed decimal numeral. */
  function IntOf(v: Scalar): (r: Option<int>)
    ensures v.Null? ==> r == None
    ensures v.Int? ==> r == Some(v.i)
    ensures v.Str? && Strip(v.s) == "" ==> r == None
    ensures v.Str? && IsDigits(Strip(v.s)) ==> r == Some(ParseNat(Strip(v.s)))
  {
    match v
    case Null => None
    case Bool(b) => Some(if b then 1 else 0)
    case Int(i) => Some(i)
    case Str(s) => ParseIntLiteral(Strip(s))
  }

  function ParseIntLiteral(t: string): Option<int> {
    if |t| > 0 && (t[0] == '+' || t[0] == '-') then
      if IsDigits(t[1..]) then
        var n: int := ParseNat(t[1..]);
        Some(if t[0] == '-' then -n else n)
      else None
    else if IsDigits(t) then Some(ParseNat(t))
    else None
  }

  /** `code_to_color`: 1, 2, 3 are blue, white, red; every other integer, and
      everything `int()` rejects, is UNKNOWN. */
  function CodeToColor(code: Scalar): (r: Color)
    ensures r == Blue <==> IntOf(code) == Some(1)
    ensures r == White <==> IntOf(code) == Some(2)
    ensures r == Red <==> IntOf(code) == Some(3)
  {
    match IntOf(code)
    case None => Unknown
    case Some(c) => if c == 1 then Blue else if c == 2 then White else if c == 3 then Red else Unknown
  }

  /** A digit string reads as its decimal value (leading zeros allowed). */
  lemma DigitsIntOf(s: string)
    requires IsDigits(s)
    ensures IntOf(Str(s)) == Some(ParseNat(s))
  {
    StripUnchanged(s);
  }

  /** An integer and its decimal rendering are the same code. */
  lemma CodeToColorAgreesWithStr(i: int)
    ensures CodeToColor(Str(ShowInt(i))) == CodeToColor(Int(i))
  {
    IntOfShow(i);
  }

  /** `int(str(i)) == i`: the decimal rendering of an integer reads back as it. */
  lemma {:induction false} IntOfShow(i: int)
    ensures IntOf(Str(ShowInt(i))) == Some(i)
  {
    var s := ShowInt(i);
    if i >= 0 {
      ParseShowNat(i);
      DigitsIntOf(s);
    } else {
      ParseShowNat(-i);
      assert s[0] == '-' && !IsSpace(s[0]) && !IsSpace(s[|s| - 1]);
      StripUnchanged(s);
      assert IntOf(Str(s)) == Some(i);
    }
  }
}
