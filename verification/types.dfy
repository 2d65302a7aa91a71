/** The record the uploader produces and the remote client consumes. */
module Types {
  import opened Optional

  /** An uploaded image: its payload (absent when the data URL held no comma),
      its declared media type and its original file name. */
  datatype ImageData = ImageData(base64: Option<string>, mimeType: string, name: string)
}
