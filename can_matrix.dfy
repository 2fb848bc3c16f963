/** The records the generators read from a loaded CAN matrix (canmatrix
    frames and signals) and from the per-file YAML configuration, reduced
    to the attributes the code looks at. */
module CanMatrix {
  import opened Common

  /** A value label; None stands for a label that is missing altogether. */
  type Label = Option<string>

  /** An enumeration table: integer code to label. Tables are compared by
      content, as Python dicts are. */
  type ValueTable = map<int, Label>

  /** A signal: `size`, `is_signed`, `factor` and `offset` (either may be
      None), `comment`, `unit` and its inline value table `values` (empty
      when the signal has none). */
  datatype Signal = Signal(
    name: string,
    size: int,
    isSigned: bool,
    factor: Option<real>,
    offset: Option<real>,
    comment: Option<string>,
    unit: Option<string>,
    values: ValueTable)

  /** A frame (message) and its signals in file order. */
  datatype Frame = Frame(name: string, signals: seq<Signal>)

  /** A loaded matrix: its frames and its global value tables, the latter
      in the insertion order of `db.value_tables`. */
  datatype Dbc = Dbc(frames: seq<Frame>, valueTables: seq<(string, ValueTable)>)

  /** The configuration entry of one input file: `enum_prefix` (empty for
      none) and `msgs`, the allow-list of message names (empty for none). */
  datatype Config = Config(enumPrefix: string, msgs: seq<string>)
}
