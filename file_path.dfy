/** The reference to a stored file used by background music and images. */
module FilePath {
  /** Where the file is stored. */
  datatype SourceType = Default | Uploader | FirebaseStorage

  datatype FilePath = FilePath(path: string, sourceType: SourceType)
}
