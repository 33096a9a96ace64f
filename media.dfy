/**
 * Media files and the external uploader (`uploadToCloudinary`), which this
 * model treats as an oracle: each call either throws, resolves to nothing,
 * or resolves to `{ secure_url, public_id }`.
 */
module Media {
  import opened Text
  import opened Projects

  /** A browser `File`: its declared MIME type and its bytes (`size` is their number). */
  datatype File = File(mimeType: string, content: seq<bv8>)

  /** What one call of the uploader produced. */
  datatype UploaderOutcome =
    | Threw
    | NoResult
    | Uploaded(secureUrl: string, publicId: string)

  /** The largest file the admin page lets through: 100 MB. */
  const MaxUploadBytes: nat := 100 * 1024 * 1024

  /**
   * The resource type the upload route asks the uploader for: `video` for a
   * `video/` MIME type (the top-level `video` type of section 4.4 of RFC 2046),
   * `image` for every other type, media or not.
   */
  function KindOf(mimeType: string): (k: MediaKind)
    ensures k == Video <==> StartsWith(mimeType, "video/")
  {
    if StartsWith(mimeType, "video/") then Video else Image
  }

  /** The admin page's check before any request: an image or video type of at most 100 MB. */
  predicate PassesFileGate(f: File) {
    (StartsWith(f.mimeType, "video/") || StartsWith(f.mimeType, "image/"))
    && |f.content| <= MaxUploadBytes
  }

  /**
   * Every file the admin page lets through is classified by the upload
   * route according to its own top-level type: `image/` files as images,
   * `video/` files as videos.
   */
  lemma GateAgreesWithClassifier(f: File)
    requires PassesFileGate(f)
    ensures KindOf(f.mimeType) == Image <==> StartsWith(f.mimeType, "image/")
    ensures KindOf(f.mimeType) == Video <==> StartsWith(f.mimeType, "video/")
  {
    if StartsWith(f.mimeType, "image/") {
      assert f.mimeType[0] == 'i';
    }
  }
}
