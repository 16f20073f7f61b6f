/** The entries of the dictionary that the loading scripts build. */
module Columns {
  import opened Samples
  import opened TimeBase

  /** A dictionary entry: a channel, or the timestamp column. */
  datatype Column = Values(ch: Channel) | Timestamps(stamps: seq<Stamp>)
}
