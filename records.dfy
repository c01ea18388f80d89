/** The fixed-position records of the shipment export: an input line is a
    sequence of nullable text cells, an output row a sequence of texts. */
module Records {
  import opened Wrappers
  import opened Text

  /** One input field: `None` is a null (NaN) cell. */
  type Cell = Option<string>

  /** One input line, one cell per column of the headerless table. */
  type Row = seq<Cell>

  /** Column positions, 0-indexed. */
  const CodeColumn := 26
  const NameColumn := 27
  const Code2Column := 28
  const Name2Column := 29
  const OrderIdColumn := 32

  /** The narrowest table the converter can read: it needs column 32. */
  const MinWidth := 33

  /** The uploaded table: its column count and its lines. */
  datatype Table = Table(width: nat, rows: seq<Row>) {
    /** Every line has one cell per column, as in a data frame. */
    predicate Rectangular() {
      forall r :: r in rows ==> |r| == width
    }
  }

  /** A cell as the converter reads it: the stripped text, or "" for null. */
  function Field(c: Cell): string {
    match c
    case None => ""
    case Some(s) => Strip(s)
  }

  /** A product name that has to be supplied by the user. */
  predicate IsMissingName(name: string) {
    name == "" || name == "nan"
  }

  /** The fields of an order's first line, as copied into its output row. */
  function BaseRow(first: Row): seq<string> {
    seq(|first|, i requires 0 <= i < |first| => Field(first[i]))
  }

  /** The all-empty row put in front of the output. */
  function EmptyRow(width: nat): seq<string> {
    seq(width, _ => "")
  }
}
