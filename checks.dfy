/** The dimension check script.js runs when a photo is loaded next to a
    reference file (the preview) and again when verification starts: the
    photo's width and height against the `width` and `height` the
    reference file's metadata recorded, read both ways round. */
module DimensionCheck {
  import opened Wrappers
  import opened PixelDataParser

  /** What the check reports: the photo has the recorded size, it has the
      recorded size turned by a quarter, or neither. */
  datatype Orientation = Mismatch | Rotated | Match

  /** `img.width === expectedWidth && img.height === expectedHeight`; a
      size the metadata did not record is `undefined` and equals no
      number. */
  predicate SameSize(width: nat, height: nat, md: Metadata) {
    md.width == Some(width) && md.height == Some(height)
  }

  /** `img.width === expectedHeight && img.height === expectedWidth`. */
  predicate SwappedSize(width: nat, height: nat, md: Metadata) {
    md.width == Some(height) && md.height == Some(width)
  }

  /** The branches as script.js orders them: neither size reads as a
      mismatch, and otherwise the rotated reading is tested first, so it
      wins whenever both readings hold. */
  function ClassifyAsWritten(width: nat, height: nat, md: Metadata): (o: Orientation)
    ensures o == Mismatch <==> !SameSize(width, height, md) && !SwappedSize(width, height, md)
    ensures o == Rotated <==> SwappedSize(width, height, md)
    ensures o == Match <==> SameSize(width, height, md) && !SwappedSize(width, height, md)
  {
    var isMatch := SameSize(width, height, md);
    var isRotated := SwappedSize(width, height, md);
    if !isMatch && !isRotated then Mismatch
    else if isRotated then Rotated
    else Match
  }

  /** Both readings hold exactly for a square photo whose recorded size is
      that same square. */
  lemma BothReadingsMeanSquare(width: nat, height: nat, md: Metadata)
    ensures SameSize(width, height, md) && SwappedSize(width, height, md) <==>
      width == height && md.width == Some(width) && md.height == Some(width)
  {
  }

  /** With a reference file loaded, a square photo of exactly the recorded
      size is reported as rotated, although it has the recorded size. */
  lemma SquareMatchReportedRotated(side: nat, data: PixelData)
    requires data.metadata.width == Some(side) && data.metadata.height == Some(side)
    ensures DimensionNotice(side, side, Some(data)) == Some(Rotated)
    ensures SameSize(side, side, data.metadata)
  {
  }

  /** The check with the exact reading tested first: a photo of the
      recorded size always matches, the rotated notice is kept for photos
      that only fit turned, and a mismatch is neither. */
  function Classify(width: nat, height: nat, md: Metadata): (o: Orientation)
    ensures o == Match <==> SameSize(width, height, md)
    ensures o == Rotated <==> !SameSize(width, height, md) && SwappedSize(width, height, md)
    ensures o == Mismatch <==> !SameSize(width, height, md) && !SwappedSize(width, height, md)
  {
    if SameSize(width, height, md) then Match
    else if SwappedSize(width, height, md) then Rotated
    else Mismatch
  }

  /** The two orders disagree only on a square photo of exactly the
      recorded size, and there the corrected check reports a match. */
  lemma ClassifyDiffersOnlyOnSquares(width: nat, height: nat, md: Metadata)
    ensures ClassifyAsWritten(width, height, md) != Classify(width, height, md) <==>
      width == height && md.width == Some(width) && md.height == Some(width)
    ensures ClassifyAsWritten(width, height, md) != Classify(width, height, md) ==>
      ClassifyAsWritten(width, height, md) == Rotated && Classify(width, height, md) == Match
  {
    BothReadingsMeanSquare(width, height, md);
  }

  /** The notice the page shows, `if (originalPixelData)`: nothing without
      a loaded reference file, otherwise the branches in script.js's order,
      so the rotated notice wins whenever the swapped reading holds. */
  function DimensionNotice(width: nat, height: nat, original: Option<PixelData>): (r: Option<Orientation>)
    ensures r.None? <==> original.None?
    ensures r == Some(Rotated) <==> original.Some? && SwappedSize(width, height, original.value.metadata)
    ensures r == Some(Match) <==>
      original.Some? && SameSize(width, height, original.value.metadata) && !SwappedSize(width, height, original.value.metadata)
    ensures r == Some(Mismatch) <==>
      original.Some? && !SameSize(width, height, original.value.metadata) && !SwappedSize(width, height, original.value.metadata)
  {
    match original
    case None => None
    case Some(data) => Some(ClassifyAsWritten(width, height, data.metadata))
  }

  /** The notice with the exact reading tested first: a photo of the
      recorded size always gets the match notice. */
  function CorrectedNotice(width: nat, height: nat, original: Option<PixelData>): (r: Option<Orientation>)
    ensures r.None? <==> original.None?
    ensures r == Some(Match) <==> original.Some? && SameSize(width, height, original.value.metadata)
    ensures r == Some(Rotated) <==>
      original.Some? && !SameSize(width, height, original.value.metadata) && SwappedSize(width, height, original.value.metadata)
    ensures r == Some(Mismatch) <==>
      original.Some? && !SameSize(width, height, original.value.metadata) && !SwappedSize(width, height, original.value.metadata)
  {
    match original
    case None => None
    case Some(data) => Some(Classify(width, height, data.metadata))
  }

  /** The page's notice and the corrected one differ only for a square
      photo of exactly the recorded size, which the page calls rotated and
      the corrected notice a match. */
  lemma NoticesDifferOnlyOnSquares(width: nat, height: nat, original: Option<PixelData>)
    ensures DimensionNotice(width, height, original) != CorrectedNotice(width, height, original) <==>
      original.Some? && width == height &&
      original.value.metadata.width == Some(width) && original.value.metadata.height == Some(width)
    ensures DimensionNotice(width, height, original) != CorrectedNotice(width, height, original) ==>
      DimensionNotice(width, height, original) == Some(Rotated) && CorrectedNotice(width, height, original) == Some(Match)
  {
    if original.Some? {
      ClassifyDiffersOnlyOnSquares(width, height, original.value.metadata);
    }
  }
}
