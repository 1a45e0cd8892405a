/** The exceptions that cross the converter's boundaries, with their
    messages kept as structured values rather than text. */
module Errors {
  import opened Formats
  import PurePaths

  /** What went wrong inside a converter's `load` or `dump`. */
  datatype Cause =
    | LibraryError(text: string)                         // the message of the wrapped library's exception
    | MissingAttribute(typeName: string, attribute: string)  // AttributeError: '<type>' object has no attribute '<name>'

  /** The text `str(e)` of an exception. */
  datatype Message =
    | Conversion(converter: Converter, direction: Direction, cause: Cause)  // "<format> parse/export error: <cause>"
    | UnsupportedSource(format: string)   // unsupported source format
    | UnsupportedTarget(format: string)   // unsupported target format
    | CannotOverwrite(path: string)       // refusing to overwrite the source file
    | ConversionFailed(inner: Message)    // the generic "conversion failed: " prefix
    | Unreadable(path: string)            // the input file cannot be read
    | MissingKey(key: string)             // KeyError
    | BadPath(error: PurePaths.PathError) // ValueError from pathlib

  datatype Exception =
    | ConversionError(message: Message)
    | ClickException(message: Message)
    | OSError(message: Message)
    | KeyError(message: Message)
    | ValueError(message: Message)
}
