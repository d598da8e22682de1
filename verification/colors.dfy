/** The four-value colour vocabulary that the helper and the plugin share. */
module Colors {

  datatype Color = Blue | White | Red | Unknown

  /** The canonical spelling both programs put on the wire and in the cache. */
  function Name(c: Color): string {
    match c
    case Blue => "BLUE"
    case White => "WHITE"
    case Red => "RED"
    case Unknown => "UNKNOWN"
  }

  /** The French spelling the helper's sources use (`BLEU`, `BLANC`, `ROUGE`). */
  function FrenchName(c: Color): string {
    match c
    case Blue => "BLEU"
    case White => "BLANC"
    case Red => "ROUGE"
    case Unknown => "UNKNOWN"
  }
}
