/**
 The comparison view: the name a downloaded result is saved under, the link
 that carries it, and the slider that clips the processed image.
 */
module ResultViewer {
  import opened Optional
  import opened JsStrings

  const DownloadTag := "-aethercanvas."

  /** `imageName.split('.')`, pop the last segment as the extension, join the
      rest back with dots and insert the tag between them. */
  function DownloadName(imageName: string): string
  {
    var parts := Split(imageName, '.');
    var extension := parts[|parts| - 1];
    var name := Join(parts[..|parts| - 1], '.');
    name + DownloadTag + extension
  }

  /** Where the extension starts: after the last dot, or at 0 when there is none. */
  function ExtensionStart(imageName: string): (start: nat)
    ensures start <= |imageName|
    ensures '.' !in imageName[start..]
    ensures start > 0 ==> imageName[start - 1] == '.'
  {
    match LastIndexOf(imageName, '.')
    case Some(k) => k + 1
    case None => 0
  }

  /** With a dot, the tag replaces the last dot (earlier dots stay in the base
      name); without one, the base name is empty and the whole name is the
      extension. */
  lemma {:induction false} DownloadNameAtLastDot(imageName: string)
    ensures LastIndexOf(imageName, '.').Some? ==>
      var k := LastIndexOf(imageName, '.').value;
      DownloadName(imageName) == imageName[..k] + DownloadTag + imageName[k + 1..]
    ensures LastIndexOf(imageName, '.').None? ==> DownloadName(imageName) == DownloadTag + imageName
  {
    var parts := Split(imageName, '.');
    var n := |parts|;
    assert DownloadName(imageName) == Join(parts[..n - 1], '.') + DownloadTag + parts[n - 1];
    assert Join(parts, '.') == imageName by { JoinSplit(imageName, '.'); }
    assert '.' !in parts[n - 1] && (n == 1 <==> '.' !in imageName) by { SplitSegments(imageName, '.'); }
    if n == 1 {
      assert parts[..0] == [];
    } else {
      var base := Join(parts[..n - 1], '.');
      var extension := parts[n - 1];
      assert imageName == base + ['.'] + extension by { JoinLast(parts, '.'); }
      assert LastIndexOf(imageName, '.') == Some(|base|) by {
        LastIndexOfAfterLastSeparator(base, '.', extension);
      }
      assert imageName[..|base|] == base;
      assert imageName[|base| + 1..] == extension;
    }
  }

  /** The saved name always carries the tag and ends with the original
      extension, which itself holds no dot. */
  lemma DownloadNameKeepsExtension(imageName: string)
    ensures var name := DownloadName(imageName);
            var extension := imageName[ExtensionStart(imageName)..];
            Includes(name, DownloadTag) && '.' !in extension
            && |extension| <= |name| && name[|name| - |extension|..] == extension
  {
    DownloadNameAtLastDot(imageName);
    var name := DownloadName(imageName);
    var start := ExtensionStart(imageName);
    var extension := imageName[start..];
    var base := if start == 0 then "" else imageName[..start - 1];
    assert name == base + DownloadTag + extension;
    IncludesInfix(base, DownloadTag, extension);
  }

  /** The anchor `handleDownload` clicks. */
  datatype DownloadLink = DownloadLink(href: string, download: string)

  /** The link points at the processed image unchanged and saves it under the derived name. */
  function Download(processedImage: string, imageName: string): (link: DownloadLink)
    ensures link.href == processedImage
    ensures link.download == DownloadName(imageName)
    ensures Includes(link.download, DownloadTag)
  {
    DownloadNameKeepsExtension(imageName);
    DownloadLink(processedImage, DownloadName(imageName))
  }

  /** The before/after slider: a position in percent, starting in the middle. */
  class ComparisonSlider {
    var position: int

    ghost predicate Valid()
      reads this
    {
      0 <= position <= 100
    }

    constructor ()
      ensures Valid() && position == 50
    {
      position := 50;
    }

    /** The range input reports whole numbers between its bounds. */
    method Change(value: int)
      requires 0 <= value <= 100
      modifies this
      ensures Valid() && position == value
    {
      position := value;
    }

    /** The right inset of the processed image's clip path, in percent: the
        part of the image to the right of the handle is hidden. */
    function ClipInset(): (inset: int)
      reads this
      requires Valid()
      ensures 0 <= inset <= 100
      ensures position + inset == 100
    {
      100 - position
    }
  }
}
