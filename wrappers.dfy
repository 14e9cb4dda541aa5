/** Option and the fatal-outcome datatype shared by the rename pipeline. */
module Wrappers {

  datatype Option<+T> = None | Some(value: T)

  /** The ways the one-shot expansion pass aborts the build (every one is a panic). */
  datatype Failure =
    | ReadIncludesFailed          // fs::read_to_string of the includes file
    | WriteProbeFailed            // File::create or write_all of expand_macros.c
    | ExpandMacrosFailed          // cc::Build::try_expand returned an error
    | OutputNotUtf8               // str::from_utf8 of the expanded bytes
    | MalformedMarker(line: string) // `l[1..]` on a marker line whose left token cannot lose one byte
    | RemoveProbeFailed           // fs::remove_file of expand_macros.c

  /** A value, or the panic that ended the pass. */
  datatype Outcome<+T> = Ok(value: T) | Fatal(failure: Failure)
}
