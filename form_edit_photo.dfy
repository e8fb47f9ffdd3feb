/**
 * The profile-photo screen: camera and gallery pickers with a 5 MB ceiling,
 * a selection kept in three nullable fields, and the upload that refuses an
 * empty selection and navigates back on any parsed reply.
 */
module EditPhoto {
  import opened Wrappers
  import opened JsString
  import opened Multipart
  import opened Picker

  /** The 5 MB (5242880 byte) ceiling both pickers apply. */
  const PhotoCeiling: nat := 5242880

  /** The three selection fields `uriImage`, `typeImage`, `fileNameImage`. */
  datatype Selection = Selection(uri: Option<string>, mimeType: Option<string>, fileName: Option<string>)

  /** The selection after a picker handler receives `res`. An accepted asset
      overwrites all three fields, so an asset without a URI clears a prior
      selection; every other outcome leaves the selection as it was. */
  function SelectionAfterPick(sel: Selection, res: PickerResult): (r: Selection)
    ensures res.didCancel ==> r == sel
    ensures HasError(res) ==> r == sel
    ensures res.assets.None? || res.assets.value == [] ==> r == sel
    ensures res.assets.Some? && res.assets.value != [] &&
            res.assets.value[0].fileSize.Some? && res.assets.value[0].fileSize.value > PhotoCeiling
            ==> r == sel
    ensures Judge(res, PhotoCeiling, true).Accepted? ==>
              var a := res.assets.value[0];
              r == Selection(a.uri, a.mimeType, Some(a.fileName.GetOr("photo.jpg")))
  {
    match Judge(res, PhotoCeiling, true)
    case Accepted(a) => Selection(a.uri, a.mimeType, Some(a.fileName.GetOr("photo.jpg")))
    case _ => sel
  }

  /** The toast a picker handler shows; `errorText` is the handler's own
      message for a picker error. */
  function PickFeedback(res: PickerResult, errorText: string): (fb: Feedback)
    ensures !res.didCancel && HasError(res) ==> fb == Toast(errorText)
    ensures !res.didCancel && !HasError(res) && FirstAsset(res).Some? &&
            ExceedsCeiling(FirstAsset(res).value, PhotoCeiling)
            ==> fb == Toast("Ukuran gambar maksimal 5MB")
    ensures res.didCancel || (!HasError(res) && (FirstAsset(res).None? ||
                                                !ExceedsCeiling(FirstAsset(res).value, PhotoCeiling)))
            ==> fb == Silent
  {
    match Judge(res, PhotoCeiling, true)
    case PickFailed => Toast(errorText)
    case TooLarge => Toast("Ukuran gambar maksimal 5MB")
    case _ => Silent
  }

  /** `if (!uriImage)` refuses: a missing or empty URI. */
  predicate CanUpload(sel: Selection)
    ensures CanUpload(sel) ==> sel.uri.Some?
    ensures sel.uri == Some("") ==> !CanUpload(sel)
  {
    sel.uri.Some? && sel.uri.value != ""
  }

  /** The `photo` field: the selected URI, with `||` defaults for type and name. */
  function PhotoField(sel: Selection): (v: FieldValue)
    requires CanUpload(sel)
    ensures v.FileRef? && v.uri == sel.uri
    ensures v.mimeType != [] && v.name != []
    ensures sel.mimeType.Some? && sel.mimeType.value != [] ==> v.mimeType == sel.mimeType.value
    ensures sel.mimeType.None? || sel.mimeType.value == [] ==> v.mimeType == "image/jpeg"
    ensures sel.fileName.Some? && sel.fileName.value != [] ==> v.name == sel.fileName.value
    ensures sel.fileName.None? || sel.fileName.value == [] ==> v.name == "photo.jpg"
  {
    FileRef(sel.uri, OrElse(sel.fileName, "photo.jpg"), OrElse(sel.mimeType, "image/jpeg"))
  }

  /** The photo request: a POST whose only field is `photo`, with the bearer
      header and, unlike the assignment upload, no `Accept` header. */
  function PhotoRequest(token: Option<string>, sel: Selection): (r: Request)
    requires CanUpload(sel)
    ensures r.verb == "POST" && r.path == "/update-photo"
    ensures r.headers == [Header("Authorization", Bearer(token))]
    ensures r.body == [Part("photo", PhotoField(sel))]
  {
    Request("POST", "/update-photo", [Header("Authorization", Bearer(token))], [Part("photo", PhotoField(sel))])
  }

  /** The toast after the upload: the server's message (or a default) for any
      parsed reply, ok or not; a fixed failure text when the request throws. */
  function UploadFeedback(reply: Reply): (fb: Feedback)
    ensures fb.Toast? && fb.text != []
    ensures reply.Parsed? ==> fb == Toast(OrElse(reply.message, "Upload berhasil"))
    ensures reply.Parsed? && (reply.message.None? || reply.message.value == []) ==> fb == Toast("Upload berhasil")
    ensures reply.Thrown? ==> fb == Toast("Gagal upload foto")
  {
    match reply
    case Parsed(_, message) => Toast(OrElse(message, "Upload berhasil"))
    case Thrown => Toast("Gagal upload foto")
  }

  /** An accepted pick of an asset with a URI is what the next upload sends:
      its URI, its type or "image/jpeg", its file name or "photo.jpg" (the
      picker's `??` default followed by the upload's `||` default comes to a
      single `||`). */
  lemma AcceptedPickIsUploaded(sel: Selection, res: PickerResult)
    requires Judge(res, PhotoCeiling, true).Accepted?
    requires res.assets.value[0].uri.Some? && res.assets.value[0].uri.value != ""
    ensures CanUpload(SelectionAfterPick(sel, res))
    ensures var a := res.assets.value[0];
            PhotoField(SelectionAfterPick(sel, res)) ==
            FileRef(a.uri, OrElse(a.fileName, "photo.jpg"), OrElse(a.mimeType, "image/jpeg"))
  {
  }

  /** An accepted asset without a URI wipes out any earlier selection, so the
      next upload is refused. */
  lemma UriLessPickBlocksUpload(sel: Selection, res: PickerResult)
    requires Judge(res, PhotoCeiling, true).Accepted?
    requires res.assets.value[0].uri.None?
    ensures !CanUpload(SelectionAfterPick(sel, res))
  {
  }

  /** The screen's component state. `currentPhoto` is the route parameter
      shown until something is picked. */
  class PhotoForm {
    const currentPhoto: Option<string>
    var loadingButton: bool
    var uriImage: Option<string>
    var typeImage: Option<string>
    var fileNameImage: Option<string>

    function Selected(): Selection
      reads this
    {
      Selection(uriImage, typeImage, fileNameImage)
    }

    constructor (currentPhoto: Option<string>)
      ensures this.currentPhoto == currentPhoto
      ensures !loadingButton && Selected() == Selection(None, None, None)
    {
      this.currentPhoto := currentPhoto;
      loadingButton := false;
      uriImage, typeImage, fileNameImage := None, None, None;
    }

    /** `ambilDariKamera` with the camera's answer `res`. */
    method AmbilDariKamera(res: PickerResult) returns (fb: Feedback)
      modifies this`uriImage, this`typeImage, this`fileNameImage
      ensures Selected() == SelectionAfterPick(old(Selected()), res)
      ensures fb == PickFeedback(res, "Gagal membuka kamera")
    {
      if res.didCancel {
        return Silent;
      }
      if HasError(res) {
        return Toast("Gagal membuka kamera");
      }
      var asset := FirstAsset(res);
      if asset.None? {
        return Silent;
      }
      if ExceedsCeiling(asset.value, PhotoCeiling) {
        return Toast("Ukuran gambar maksimal 5MB");
      }
      uriImage := asset.value.uri;
      typeImage := asset.value.mimeType;
      fileNameImage := Some(asset.value.fileName.GetOr("photo.jpg"));
      fb := Silent;
    }

    /** `pilihDariGaleri` with the gallery's answer `res`: the same rules and
        the same new selection as the camera, only the error text differs. */
    method PilihDariGaleri(res: PickerResult) returns (fb: Feedback)
      modifies this`uriImage, this`typeImage, this`fileNameImage
      ensures Selected() == SelectionAfterPick(old(Selected()), res)
      ensures fb == PickFeedback(res, "Gagal membuka galeri")
    {
      if res.didCancel {
        return Silent;
      }
      if HasError(res) {
        return Toast("Gagal membuka galeri");
      }
      var asset := FirstAsset(res);
      if asset.None? {
        return Silent;
      }
      if ExceedsCeiling(asset.value, PhotoCeiling) {
        return Toast("Ukuran gambar maksimal 5MB");
      }
      uriImage := asset.value.uri;
      typeImage := asset.value.mimeType;
      fileNameImage := Some(asset.value.fileName.GetOr("photo.jpg"));
      fb := Silent;
    }

    /** `uploadImageToApi` up to the awaited `fetch`: the selection guard, the
        loading flag and the in-place construction of the `FormData`. */
    method BeginUpload(token: Option<string>) returns (req: Option<Request>, fb: Feedback)
      modifies this`loadingButton
      ensures req.None? <==> !CanUpload(Selected())
      ensures req.None? ==> loadingButton == old(loadingButton) && fb == Toast("Pilih gambar terlebih dahulu")
      ensures req.Some? ==> loadingButton && fb == Silent && req.value == PhotoRequest(token, Selected())
    {
      var sel := Selected();
      if !CanUpload(sel) {
        return None, Toast("Pilih gambar terlebih dahulu");
      }
      loadingButton := true;
      var formData := new FormData();
      formData.Append("photo", FileRef(sel.uri, OrElse(sel.fileName, "photo.jpg"), OrElse(sel.mimeType, "image/jpeg")));
      req := Some(Request("POST", "/update-photo", [Header("Authorization", Bearer(token))], formData.parts));
      fb := Silent;
    }

    /** The rest of `uploadImageToApi`: any parsed reply navigates back, with
        no look at `ok`; only a thrown error stays on the screen. */
    method FinishUpload(reply: Reply) returns (fb: Feedback, navigatedBack: bool)
      modifies this`loadingButton
      ensures !loadingButton
      ensures navigatedBack <==> reply.Parsed?
      ensures fb == UploadFeedback(reply)
    {
      match reply {
        case Parsed(_, message) =>
          fb := Toast(OrElse(message, "Upload berhasil"));
          navigatedBack := true;
        case Thrown =>
          fb := Toast("Gagal upload foto");
          navigatedBack := false;
      }
      loadingButton := false;
    }

    /** The whole of `uploadImageToApi`; `reply` is how the request would settle. */
    method UploadImageToApi(token: Option<string>, reply: Reply)
      returns (req: Option<Request>, fb: Feedback, navigatedBack: bool)
      modifies this`loadingButton
      ensures req.None? <==> !CanUpload(Selected())
      ensures req.None? ==> loadingButton == old(loadingButton) && !navigatedBack &&
                            fb == Toast("Pilih gambar terlebih dahulu")
      ensures req.Some? ==> req.value == PhotoRequest(token, Selected())
      ensures req.Some? ==> !loadingButton && fb == UploadFeedback(reply) && (navigatedBack <==> reply.Parsed?)
      ensures Selected() == old(Selected())
    {
      req, fb := BeginUpload(token);
      navigatedBack := false;
      if req.Some? {
        fb, navigatedBack := FinishUpload(reply);
      }
    }

    /** A tap on the upload button, which is `disabled={loadingButton}`;
        `false` when nothing happens. */
    method PressUpload(token: Option<string>, reply: Reply)
      returns (fired: bool, req: Option<Request>, fb: Feedback, navigatedBack: bool)
      modifies this`loadingButton
      ensures fired <==> !old(loadingButton)
      ensures !fired ==> req.None? && fb == Silent && !navigatedBack && loadingButton
      ensures fired ==> (req.None? <==> !CanUpload(Selected()))
      ensures fired && req.None? ==> !loadingButton && !navigatedBack && fb == Toast("Pilih gambar terlebih dahulu")
      ensures fired && req.Some? ==> req.value == PhotoRequest(token, Selected())
      ensures fired && req.Some? ==> !loadingButton && fb == UploadFeedback(reply) && (navigatedBack <==> reply.Parsed?)
      ensures Selected() == old(Selected())
    {
      if loadingButton {
        return false, None, Silent, false;
      }
      fired := true;
      req, fb, navigatedBack := UploadImageToApi(token, reply);
    }
  }
}
