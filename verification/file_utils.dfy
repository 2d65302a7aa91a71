/**
 Turning a file read as a data URL into an `ImageData` record: the payload is
 the second comma-separated field of the data URL, and the media type and name
 are the file's own.
 */
module FileUtils {
  import opened Optional
  import opened JsStrings
  import opened Types

  /** What the uploader knows about a chosen file. */
  datatype File = File(mimeType: string, name: string)

  /** How the platform's read of the file ended: the data URL it produced, or a read error. */
  datatype ReadOutcome = Loaded(dataUrl: string) | ReadFailed

  /** `dataUrl.split(',')[1]`: absent when there is no comma. */
  function PayloadOf(dataUrl: string): (payload: Option<string>)
    ensures payload.None? <==> ',' !in dataUrl
    ensures payload.Some? ==> ',' !in payload.value
  {
    SplitSegments(dataUrl, ',');
    var fields := Split(dataUrl, ',');
    if |fields| > 1 then Some(fields[1]) else None
  }

  /** The payload is the text after the first comma, up to the next comma or the end. */
  lemma PayloadBetweenFirstCommas(head: string, payload: string, rest: string)
    requires ',' !in head && ',' !in payload
    requires rest == "" || rest[0] == ','
    ensures PayloadOf(head + "," + payload + rest) == Some(payload)
  {
    var url := head + "," + payload + rest;
    assert url == head + [','] + (payload + rest);
    SplitAtFirstSeparator(head, ',', payload + rest);
    if rest == "" {
      assert payload + rest == payload;
      SplitWithoutSeparator(payload, ',');
    } else {
      assert payload + rest == payload + [','] + rest[1..];
      SplitAtFirstSeparator(payload, ',', rest[1..]);
    }
  }

  /** The settled value of `fileToImageData`: a record, or a rejection (absent)
      when the read fails. */
  function FileToImageData(file: File, read: ReadOutcome): (image: Option<ImageData>)
    ensures image.None? <==> read.ReadFailed?
    ensures image.Some? ==> image.value.mimeType == file.mimeType && image.value.name == file.name
    ensures image.Some? ==> image.value.base64 == PayloadOf(read.dataUrl)
  {
    match read
    case Loaded(url) => Some(ImageData(PayloadOf(url), file.mimeType, file.name))
    case ReadFailed => None
  }
}
