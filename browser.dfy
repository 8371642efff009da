/** The browser `File` object as the application reads it. */
module Browser {

  /** A `File`: its name, its MIME type (`file.type`) and its size in bytes. */
  datatype File = File(name: string, mimeType: string, size: nat)
}
