/**
 * Choosing what to display for a mission photo: nothing, the stored uri
 * itself, or a local uri resolved from a media-library asset id.
 */
module MissionImage {
  import opened Wrappers

  /** The scheme of media-library references that cannot be displayed directly. */
  const AssetScheme: string := "ph://"

  /** How a `(photoUri, assetId)` pair is turned into something displayable. */
  datatype Locator =
    | NoImage                   // show nothing
    | Direct(uri: string)       // display the uri as it is
    | Resolve(assetId: string)  // ask the media library for the asset's local uri

  /** JavaScript truthiness of a `string | undefined`: present and non-empty. */
  predicate Truthy(s: Option<string>)
  {
    s.Some? && s.value != ""
  }

  /** `s.startsWith('ph://')`, case-sensitive. */
  predicate HasAssetScheme(s: string)
  {
    AssetScheme <= s
  }

  /**
   * The decision of the hook's effect. Each outcome is characterised by
   * its inputs, so the three are exhaustive and mutually exclusive.
   */
  function Locate(photoUri: Option<string>, assetId: Option<string>): (r: Locator)
    ensures r.NoImage? <==>
              !Truthy(photoUri) || (HasAssetScheme(photoUri.value) && !Truthy(assetId))
    ensures r.Direct? <==> Truthy(photoUri) && !HasAssetScheme(photoUri.value)
    ensures r.Direct? ==> photoUri == Some(r.uri)
    ensures r.Resolve? <==> Truthy(photoUri) && HasAssetScheme(photoUri.value) && Truthy(assetId)
    ensures r.Resolve? ==> assetId == Some(r.assetId)
  {
    if !Truthy(photoUri) then NoImage
    else if HasAssetScheme(photoUri.value) then
      if Truthy(assetId) then Resolve(assetId.value) else NoImage
    else Direct(photoUri.value)
  }

  /** The prefix test is exact: an upper-case scheme is not an asset reference. */
  lemma SchemeIsCaseSensitive(assetId: Option<string>)
    ensures Locate(Some("PH://1"), assetId) == Direct("PH://1")
    ensures Truthy(assetId) ==> Locate(Some("ph://1"), assetId) == Resolve(assetId.value)
  {
    assert !HasAssetScheme("PH://1") by {
      assert "PH://1"[0] != AssetScheme[0];
    }
    assert HasAssetScheme("ph://1") by {
      assert "ph://1"[..5] == AssetScheme;
    }
  }

  /** The `imageUri` state cell of one `useMissionImage` instance. */
  class ImageState {
    var imageUri: Option<string>

    constructor ()
      ensures imageUri == None
    {
      imageUri := None;
    }

    /**
     * One run of the effect for new inputs. `localUri` is the `localUri` of
     * the asset lookup (None when the lookup fails or has none); it is only
     * consulted when a lookup is requested, and `requested` is the asset id
     * asked for. A failed or empty resolution keeps the previous value.
     */
    method OnInputs(photoUri: Option<string>, assetId: Option<string>, localUri: Option<string>)
      returns (requested: Option<string>)
      modifies this
      ensures requested.Some? <==> Locate(photoUri, assetId).Resolve?
      ensures requested.Some? ==> requested == assetId
      ensures Locate(photoUri, assetId).NoImage? ==> imageUri == None
      ensures Locate(photoUri, assetId).Direct? ==> imageUri == photoUri
      ensures Locate(photoUri, assetId).Resolve? ==>
                imageUri == if Truthy(localUri) then localUri else old(imageUri)
    {
      match Locate(photoUri, assetId)
      case NoImage =>
        requested := None;
        imageUri := None;
      case Direct(uri) =>
        requested := None;
        imageUri := Some(uri);
      case Resolve(id) =>
        requested := Some(id);
        if Truthy(localUri) {
          imageUri := localUri;
        }
    }
  }
}
