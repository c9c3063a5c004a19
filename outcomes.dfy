/** Result values shared by the encoder and the decoder, and the constants of pbjson.h. */
module Outcomes {

  /** The two recoverable error kinds of the codec (the debug-build null-argument
      kind becomes preconditions instead). */
  datatype Error = IOError | InvalidData

  datatype Option<+T> = None | Some(value: T)

  /** Boolean result of a load routine, with the error kind on failure. */
  datatype Status = Ok | Err(error: Error)

  /** The result of reading one token from a stream: the value read and the
      stream position afterwards, or the error and the position where it arose. */
  datatype Read<+T> = Read(value: T, pos: nat) | ReadFail(error: Error, pos: nat)

  /** PBJSON_MAXLENGTHLBL: size of every label buffer of the decoder. */
  const MaxLengthLbl: nat := 500

  /** PBJSON_INDENT: one level of indentation in pretty mode. */
  const IndentUnit: string := "  "

  /** Character 'k' of 'x'. Quantified facts about the characters of a text
      are keyed on CharOf rather than on x[k], so that they are used only
      where a proof asks for a character by name. */
  function CharOf(x: string, k: int): char
    requires 0 <= k < |x|
  {
    x[k]
  }
}
