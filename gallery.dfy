/**
 * The public attributes `GalleryField` adds to the base field, with their
 * declared defaults. The class has no methods of its own.
 */
module Gallery {
  import opened Php

  datatype GalleryAttributes = GalleryAttributes(
    min: Value,
    max: Value,
    previewSize: Value,
    library: Value,
    minWidth: Value,
    minHeight: Value,
    minSize: Value,
    maxWidth: Value,
    maxHeight: Value,
    maxSize: Value,
    mimeTypes: Value)

  /** The property names, in declaration order. */
  const Names: seq<Bytes> := [
    "min", "max", "preview_size", "library", "min_width", "min_height",
    "min_size", "max_width", "max_height", "max_size", "mime_types"]

  /** The declared defaults of a fresh gallery field. */
  const Defaults: GalleryAttributes := GalleryAttributes(
    min := Int(0),
    max := Int(0),
    previewSize := Str("thumbnail"),
    library := Str("all"),
    minWidth := Int(0),
    minHeight := Int(0),
    minSize := Int(0),
    maxWidth := Int(0),
    maxHeight := Int(0),
    maxSize := Int(0),
    mimeTypes := Str(""))

  /** The gallery properties as name/value pairs, in declaration order. */
  function Entries(g: GalleryAttributes): (e: Entries)
    ensures Keys(e) == Names
  {
    [("min", g.min), ("max", g.max), ("preview_size", g.previewSize),
     ("library", g.library), ("min_width", g.minWidth), ("min_height", g.minHeight),
     ("min_size", g.minSize), ("max_width", g.maxWidth), ("max_height", g.maxHeight),
     ("max_size", g.maxSize), ("mime_types", g.mimeTypes)]
  }

  /** None of the defaults is null, so every one of them passes `isset`. */
  lemma DefaultsAreSet()
    ensures forall i :: 0 <= i < |Entries(Defaults)| ==> IsSet(Entries(Defaults)[i].1)
  {
  }
}
