/** The line records of a parsed patch (internal/ui/annotation/patch.go). */
module PatchLines {

  datatype Kind = Metadata | HunkHeader | Context | Added | Removed

  datatype PatchLine = PatchLine(kind: Kind, raw: string, content: string,
                                 oldLine: int, newLine: int, pairContent: string)
  {
    predicate Commentable() { kind.Context? || kind.Added? || kind.Removed? }
  }

  datatype PatchFile = PatchFile(oldPath: string, newPath: string, lines: seq<PatchLine>)
  {
    function Path(): string { if newPath != "" then newPath else oldPath }
  }
}
