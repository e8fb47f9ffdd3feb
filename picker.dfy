/**
 * The image-picker result both forms receive from `launchImageLibrary` or
 * `launchCamera`, and the acceptance rule both forms apply to it.
 */
module Picker {
  import opened Wrappers

  /** One picked asset as the picker library reports it; every field may be absent. */
  datatype Asset = Asset(
    uri: Option<string>,
    fileName: Option<string>,
    mimeType: Option<string>,
    fileSize: Option<int>)

  /** The picker's answer: cancelled, an error code, and the picked assets (if any). */
  datatype PickerResult = PickerResult(
    didCancel: bool,
    errorCode: Option<string>,
    assets: Option<seq<Asset>>)

  /** `result.assets?.[0]`: missing when there is no asset list or it is empty. */
  function FirstAsset(res: PickerResult): (r: Option<Asset>)
    ensures r.Some? <==> res.assets.Some? && res.assets.value != []
    ensures r.Some? ==> r.value == res.assets.value[0]
  {
    if res.assets.Some? && res.assets.value != [] then Some(res.assets.value[0]) else None
  }

  /** `result.errorCode` is truthy: present and not the empty string. */
  predicate HasError(res: PickerResult)
    ensures HasError(res) ==> res.errorCode.Some?
    ensures res.errorCode == Some("") ==> !HasError(res)
  {
    res.errorCode.Some? && res.errorCode.value != ""
  }

  /** `asset.fileSize && asset.fileSize > ceiling`. The truthiness test is
      redundant: a missing or zero size is never over the ceiling. */
  function ExceedsCeiling(a: Asset, ceiling: nat): (r: bool)
    ensures r <==> a.fileSize.Some? && a.fileSize.value > ceiling
    ensures a.fileSize.None? || a.fileSize.value == 0 ==> !r
  {
    a.fileSize.Some? && a.fileSize.value != 0 && a.fileSize.value > ceiling
  }

  /** Which early return, if any, a picker handler takes. */
  datatype Verdict = Ignored | PickFailed | TooLarge | Accepted(asset: Asset)

  /** The handlers' chain of early returns: cancel, then (only when the
      handler looks at it) the error code, then a missing asset, then the size
      ceiling. */
  function Judge(res: PickerResult, ceiling: nat, checkError: bool): (v: Verdict)
    ensures v.Accepted? <==>
              && !res.didCancel
              && !(checkError && HasError(res))
              && res.assets.Some? && res.assets.value != []
              && !(res.assets.value[0].fileSize.Some? && res.assets.value[0].fileSize.value > ceiling)
    ensures v.Accepted? ==> v.asset == res.assets.value[0]
    ensures v.Accepted? ==> v.asset.fileSize.None? || v.asset.fileSize.value <= ceiling
    ensures v.PickFailed? <==> !res.didCancel && checkError && HasError(res)
    ensures v.TooLarge? <==>
              && !res.didCancel
              && !(checkError && HasError(res))
              && FirstAsset(res).Some?
              && ExceedsCeiling(FirstAsset(res).value, ceiling)
  {
    if res.didCancel then Ignored
    else if checkError && HasError(res) then PickFailed
    else match FirstAsset(res)
      case None => Ignored
      case Some(a) => if ExceedsCeiling(a, ceiling) then TooLarge else Accepted(a)
  }
}
