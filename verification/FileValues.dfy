/** The file records that the virtual backends keep. */
module FileValues {
  datatype Encoding = Utf8 | Base64

  datatype FileData = FileData(content: string, encoding: Encoding, created: int, modified: int)
}
