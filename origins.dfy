/** The slice of `fileOrigin` (a position inside a source file) that the code
    printer relies on.  The file object itself is reduced to its identity:
    the source compares `file_t*` pointers with `==` and `<`, so a file is
    modelled by its address, with 0 standing for the null pointer. */
module Origins {
  import opened Wrappers

  type FileId = nat

  /** The null `file_t*`. */
  const NullFile: FileId := 0

  /** A location: the file, the 1-based line, the byte offset of the start
      of the token, and the text the enclosing context (`up`) prints for its
      stack, if there is one. */
  datatype Origin = Origin(file: FileId, line: int, start: int, stack: Option<string>)
  {
    /** An origin is usable only once it points into a file. */
    predicate IsValid() {
      file != NullFile
    }

    /** Two origins are on the same line iff they name the same file and line. */
    predicate OnSameLine(other: Origin) {
      file == other.file && line == other.line
    }

    /** Signed distance to another origin: positive iff `other` starts later. */
    function DistanceTo(other: Origin): (d: int)
      ensures d > 0 <==> other.start > start
      ensures d == 0 <==> other.start == start
    {
      other.start - start
    }
  }

  /** What a default-constructed `fileOrigin` holds: no file. */
  const NoOrigin: Origin := Origin(NullFile, 0, 0, None)
}
