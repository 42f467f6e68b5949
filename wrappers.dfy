/** Failure-carrying values shared by the whole model. */
module Wrappers {

  /** The result of a Python dict `.get`: the entry, or None when the key is absent. */
  datatype Option<T> = None | Some(value: T)

  /** The ways a conversion aborts. Each stands for the exception the source raises. */
  datatype Error =
    | InvalidInput       // InvalidInputException: neither a number nor numerals were given
    | UnboundName        // NameError: the bare name `skt_num` read by the glyph translation
    | UnrecognizedGlyph  // TypeError: the join meets the None that `.get` gives for an unknown glyph
    | EmptyNumeral       // ValueError: `int("")`
    | NotIterable        // TypeError: enumerating the int 0 that break_down returns for zero
    | MissingTier        // KeyError: num_dict has no tier name above 15

  /** A value, or the error that aborted the operation. */
  datatype Result<T> = Ok(value: T) | Err(error: Error)
}
