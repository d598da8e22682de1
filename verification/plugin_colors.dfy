/** Colour decoding in the Stream Deck plugin (`normalizeColor`), and how it
    compares with the helper's. */
module PluginColors {
  import opened Text
  import opened Values
  import opened Colors
  import HelperColors

  /** The form a value is matched in: `String(c || "").toUpperCase()`. Unlike
      the helper, the plugin does not trim. */
  function Canon(v: Scalar): string {
    Upper(if Truthy(v) then JsStr(v) else "")
  }

  /** `normalizeColor`: French names match anywhere, English names only as the
      whole upper-cased text, matched against blue, then white, then red. */
  function NormalizeColor(v: Scalar): (r: Color)
    ensures !Truthy(v) ==> r == Unknown
    ensures r == Blue <==> HelperColors.Mentions(Canon(v), "BLEU", "BLUE")
    ensures r == White <==>
              !HelperColors.Mentions(Canon(v), "BLEU", "BLUE") && HelperColors.Mentions(Canon(v), "BLANC", "WHITE")
    ensures r == Red <==>
              !HelperColors.Mentions(Canon(v), "BLEU", "BLUE") && !HelperColors.Mentions(Canon(v), "BLANC", "WHITE")
              && HelperColors.Mentions(Canon(v), "ROUGE", "RED")
  {
    var c := Canon(v);
    if Contains(c, "BLEU") || c == "BLUE" then Blue
    else if Contains(c, "BLANC") || c == "WHITE" then White
    else if Contains(c, "ROUGE") || c == "RED" then Red
    else Unknown
  }

  /** On text without surrounding white space the plugin and the helper agree. */
  lemma AgreesWithHelper(s: string)
    requires s == [] || (!IsSpace(s[0]) && !IsSpace(s[|s| - 1]))
    ensures NormalizeColor(Str(s)) == HelperColors.NormalizeColor(Str(s))
  {
    StripUnchanged(s);
    if s == [] {
      HelperColors.ClassifyEmpty();
    }
  }

  /** On integers they agree too (`String(3)` and `str(3)` are the same text). */
  lemma AgreesWithHelperOnInts(i: int)
    ensures NormalizeColor(Int(i)) == HelperColors.NormalizeColor(Int(i))
  {
    var s := ShowInt(i);
    assert s[0] == '-' || IsDigit(s[0]);
    assert IsDigit(s[|s| - 1]);
    AgreesWithHelper(s);
  }

  /** White space is where they part: the helper reads ` blue ` as BLUE, the
      plugin as UNKNOWN. */
  lemma PaddedBlueDiffers()
    ensures NormalizeColor(Str(" blue ")) == Unknown
    ensures HelperColors.NormalizeColor(Str(" blue ")) == Blue
  {
    HelperColors.PaddedBlueIsBlue();
    PaddedBlueUnknown();
  }

  lemma PaddedBlueUnknown()
    ensures NormalizeColor(Str(" blue ")) == Unknown
  {
    var u := " BLUE ";
    assert Upper(" blue ") == u;
    NotOccursAt(u, "BLEU", 1, 2);
    NoOccurrenceFrom(u, "BLEU", 2);
    NotOccursAt(u, "BLANC", 1, 2);
    NoOccurrenceFrom(u, "BLANC", 2);
    NotContainsChar(u, "ROUGE");
  }

  /** Every canonical name, English or French, normalises back to its colour. */
  lemma NamesRoundTrip(c: Color)
    ensures NormalizeColor(Str(Name(c))) == c
    ensures NormalizeColor(Str(FrenchName(c))) == c
  {
    HelperColors.NamesRoundTrip(c);
    match c
    case Blue => SameOnWords("BLUE", "BLEU");
    case White => SameOnWords("WHITE", "BLANC");
    case Red => SameOnWords("RED", "ROUGE");
    case Unknown => SameOnWords("UNKNOWN", "UNKNOWN");
  }

  lemma SameOnWords(a: string, b: string)
    requires a != [] && 'A' <= a[0] <= 'Z' && 'A' <= a[|a| - 1] <= 'Z'
    requires b != [] && 'A' <= b[0] <= 'Z' && 'A' <= b[|b| - 1] <= 'Z'
    ensures NormalizeColor(Str(a)) == HelperColors.NormalizeColor(Str(a))
    ensures NormalizeColor(Str(b)) == HelperColors.NormalizeColor(Str(b))
  {
    AgreesWithHelper(a);
    AgreesWithHelper(b);
  }
}
