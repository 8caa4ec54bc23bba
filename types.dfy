/**
 * The records of the annotation tool: annotations over a text, the
 * selection they are made from, and typed connections between them.
 */
module Types {
  import opened Js

  /** The four highlight colours. */
  datatype AnnotationColor = Pink | Blue | Green | Yellow

  /** The four margin symbols. */
  datatype AnnotationSymbol = Question | Important | Character | Device

  /** What an annotation is: a coloured highlight or a symbol. */
  datatype AnnotationType = Highlight | Symbol

  /**
   * A colour or a symbol. The record does not tie the value to the
   * annotation's type: a `Symbol` annotation holding a colour is a
   * well-typed value, and pairing them is left to the callers.
   */
  datatype AnnotationValue = ColorValue(color: AnnotationColor) | SymbolValue(symbol: AnnotationSymbol)

  /** The string each colour stands for. */
  function ColorName(c: AnnotationColor): (r: string)
    ensures r in {"pink", "blue", "green", "yellow"}
  {
    match c
    case Pink => "pink"
    case Blue => "blue"
    case Green => "green"
    case Yellow => "yellow"
  }

  /** The string each symbol stands for: the glyph shown in the text. */
  function SymbolGlyph(s: AnnotationSymbol): (r: string)
    ensures r in {"?", "!", "O", "*"}
  {
    match s
    case Question => "?"
    case Important => "!"
    case Character => "O"
    case Device => "*"
  }

  /** The string an annotation value stands for. */
  function ValueText(v: AnnotationValue): string
  {
    match v
    case ColorValue(c) => ColorName(c)
    case SymbolValue(s) => SymbolGlyph(s)
  }

  /**
   * Reads a value back from its string: the eight strings of the two
   * enumerations and nothing else name a value.
   */
  function ParseValue(t: string): (r: Option<AnnotationValue>)
    ensures r.Some? <==> t in {"pink", "blue", "green", "yellow", "?", "!", "O", "*"}
    ensures r.Some? ==> ValueText(r.value) == t
  {
    match t
    case "pink" => Some(ColorValue(Pink))
    case "blue" => Some(ColorValue(Blue))
    case "green" => Some(ColorValue(Green))
    case "yellow" => Some(ColorValue(Yellow))
    case "?" => Some(SymbolValue(Question))
    case "!" => Some(SymbolValue(Important))
    case "O" => Some(SymbolValue(Character))
    case "*" => Some(SymbolValue(Device))
    case _ => None
  }

  /** Every value is read back from its own string, so no two values share one. */
  lemma ValueTextRoundTrip(v: AnnotationValue)
    ensures ParseValue(ValueText(v)) == Some(v)
  {
    match v
    case ColorValue(c) => {
      match c
      case Pink =>
      case Blue =>
      case Green =>
      case Yellow =>
    }
    case SymbolValue(s) => {
      match s
      case Question =>
      case Important =>
      case Character =>
      case Device =>
    }
  }

  /** The pairing the toolbars always use: colours for highlights, symbols for symbols. */
  predicate ValueMatchesType(kind: AnnotationType, v: AnnotationValue)
  {
    match kind
    case Highlight => v.ColorValue?
    case Symbol => v.SymbolValue?
  }

  /**
   * An annotation: the half-open span `[start, end)` of the text, a copy of
   * the text it covered when it was made, its type and value, and a note.
   */
  datatype Annotation = Annotation(
    id: string,
    start: int,
    end: int,
    text: string,
    kind: AnnotationType,
    value: AnnotationValue,
    note: string)

  /** A pair of offsets; the type does not require `start < end`. */
  datatype SelectionRange = SelectionRange(start: int, end: int)

  /** `!!selection && selection.start !== selection.end`. */
  predicate SelectionActive(sel: Option<SelectionRange>)
  {
    sel.Some? && sel.value.start != sel.value.end
  }

  /** An entry of the registry of connection kinds; `name` is its user-visible label. */
  datatype ConnectionType = ConnectionType(id: string, name: string)

  /**
   * A directed connection between two annotations, named by their ids
   * (`source` and `target` are the fields `from` and `to` of docs/types.ts). Its kind,
   * `typeName`, is the label of a connection type, not the type's id.
   */
  datatype Connection = Connection(id: string, source: string, target: string, typeName: string)
}
