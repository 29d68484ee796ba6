/** The texts the JSON parser accepts, as a grammar of documents that keep every
    choice a text makes: white space, escapes, duplicate keys and their order. */
module JsonGrammar {
  import opened Json

  /** One character of a string, as it is written. */
  datatype Piece =
    | Plain(c: char)
    | Short(letter: char)              // backslash and a letter
    | Unit(hex: string)                // \u and four characters
    | Surrogates(hi: string, lo: string)

  datatype Doc =
    | DNull
    | DBool(b: bool)
    | DNumber(text: string)
    | DString(pieces: seq<Piece>)
    | DList(shape: Shape, lead: string, entries: seq<Entry>, trail: string)

  /** `key`, `pre` and `post` are used in objects only; `after` and `next` surround the
      comma that follows an entry other than the last. */
  datatype Entry = Entry(key: seq<Piece>, pre: string, post: string, value: Doc, after: string, next: string)

  predicate GoodPiece(p: Piece) {
    match p
    case Plain(c) => c != '"' && c != '\\'
    case Short(letter) => IsShortEscape(letter)
    case Unit(hex) => |hex| == 4 && U16FromHex(hex) >= 0 && !IsSurrogate(U16FromHex(hex))
    case Surrogates(hi, lo) => |hi| == 4 && |lo| == 4 && IsHigh(U16FromHex(hi)) && IsLow(U16FromHex(lo))
  }

  predicate GoodPieces(ps: seq<Piece>) {
    forall i :: 0 <= i < |ps| ==> GoodPiece(ps[i])
  }

  function PieceChar(p: Piece): char
    requires GoodPiece(p)
  {
    match p
    case Plain(c) => c
    case Short(letter) => ShortEscape(letter)
    case Unit(hex) => U16FromHex(hex) as char
    case Surrogates(hi, lo) => Combine(U16FromHex(hi), U16FromHex(lo))
  }

  function PiecesText(ps: seq<Piece>): string
    requires GoodPieces(ps)
  {
    if ps == [] then "" else [PieceChar(ps[0])] + PiecesText(ps[1..])
  }

  predicate GoodDoc(d: Doc)
    decreases d, 0
  {
    match d
    case DNumber(text) => IsNumber(text)
    case DString(ps) => GoodPieces(ps)
    case DList(shape, lead, entries, trail) => IsPad(lead) && IsPad(trail) && GoodEntries(shape, entries)
    case _ => true
  }

  predicate GoodEntries(shape: Shape, es: seq<Entry>)
    decreases es, 1
  {
    es == [] || (GoodEntry(shape, es[0]) && GoodEntries(shape, es[1..]))
  }

  predicate GoodEntry(shape: Shape, e: Entry)
    decreases e, 2
  {
    && (shape.ObjectShape? ==> GoodPieces(e.key) && IsPad(e.pre) && IsPad(e.post))
    && IsPad(e.after) && IsPad(e.next)
    && GoodDoc(e.value)
  }

  // ------------------------------------------- what a document is written as

  function PieceTo(p: Piece, t: string): string {
    match p
    case Plain(c) => [c] + t
    case Short(letter) => ['\\', letter] + t
    case Unit(hex) => "\\u" + hex + t
    case Surrogates(hi, lo) => "\\u" + hi + ("\\u" + lo + t)
  }

  function PiecesTo(ps: seq<Piece>, t: string): string {
    if ps == [] then t else PieceTo(ps[0], PiecesTo(ps[1..], t))
  }

  /** The text of a document followed by the text `t`. */
  function DocTo(d: Doc, t: string): string
    decreases d, 0
  {
    match d
    case DNull => "null" + t
    case DBool(b) => (if b then "true" else "false") + t
    case DNumber(text) => text + t
    case DString(ps) => ['"'] + PiecesTo(ps, ['"'] + t)
    case DList(shape, lead, es, trail) => [shape.Open()] + (lead + EntriesTo(shape, es, trail + ([shape.Close()] + t)))
  }

  function EntriesTo(shape: Shape, es: seq<Entry>, t: string): string
    decreases es, 1
  {
    if es == [] then t else EntryTo(shape, es[0], MoreTo(shape, es, t))
  }

  /** What follows the first entry. */
  function MoreTo(shape: Shape, es: seq<Entry>, t: string): string
    requires es != []
    decreases es, 0
  {
    if |es| == 1 then t else es[0].after + ([','] + (es[0].next + EntriesTo(shape, es[1..], t)))
  }

  function EntryTo(shape: Shape, e: Entry, t: string): string
    decreases e, 2
  {
    if shape.ArrayShape? then DocTo(e.value, t)
    else ['"'] + PiecesTo(e.key, ['"'] + (e.pre + ([':'] + (e.post + DocTo(e.value, t)))))
  }

  // ------------------------------------------------ what a document stands for

  function DocValue(d: Doc): Json
    requires GoodDoc(d)
    decreases d, 0
  {
    match d
    case DNull => Null
    case DBool(b) => Bool(b)
    case DNumber(text) => Number(text)
    case DString(ps) => String(PiecesText(ps))
    case DList(shape, _, es, _) => Built(shape, EntryValues(shape, es))
  }

  function EntryValues(shape: Shape, es: seq<Entry>): seq<Pair>
    requires GoodEntries(shape, es)
    decreases es, 1
  {
    if es == [] then [] else [EntryValue(shape, es[0])] + EntryValues(shape, es[1..])
  }

  function EntryValue(shape: Shape, e: Entry): Pair
    requires GoodEntry(shape, e)
    decreases e, 2
  {
    (if shape.ArrayShape? then "" else PiecesText(e.key), DocValue(e.value))
  }

  /** A number ends where no further digit, and no first dot, follows. */
  predicate Stops(d: Doc, t: string) {
    d.DNumber? && t != "" ==> !IsDigit(t[0]) && ('.' in d.text || t[0] != '.')
  }
}
