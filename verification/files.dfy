/** The file record the browser lists. Its construction from a URL and its
    type classification are defined outside this model, so a record carries
    the values they produce. */
module Files {

  /** What `getFileType()` reports for an entry. `Other` stands for every
      kind the selection handler does not act on. */
  datatype FileType = Directory | Text | Image | Video | Other

  /** One listed entry: its location, its file name (with extension), its
      display name, its `extension` string and its classification. */
  datatype FileObject = FileObject(
    url: string,
    fileName: string,
    name: string,
    ext: string,
    kind: FileType)

  /** The sentinel extension given to directory entries. */
  const DirectoryExtension: string := "directory"

  /** The test the sort applies: the entry's extension is the sentinel. */
  predicate IsDirectoryEntry(f: FileObject) {
    f.ext == DirectoryExtension
  }
}
