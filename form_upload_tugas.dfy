/**
 * The assignment-submission screen: the detail fetch that decides whether
 * the deadline has passed, the media pick with its 50 MB ceiling, and the
 * submission that validates the answer and builds the multipart request.
 */
module UploadTugas {
  import opened Wrappers
  import opened JsString
  import opened Multipart
  import opened Picker

  /** `MAX_SIZE`: 50 MB. */
  const MaxSize: nat := 50 * 1024 * 1024

  /** The prefix that non-Android platforms strip from a file URI. */
  const FileScheme: string := "file://"

  /** The attachment held in the `file` state. Its `uri` is whatever the
      picker gave, which may be missing (the source's `asset.uri!` checks nothing). */
  datatype MediaFile = MediaFile(uri: Option<string>, name: string, mimeType: string)

  /** The part of the assignment detail the screen uses. The deadline is the
      instant `new Date(deadline)` denotes. A missing or unparseable deadline
      gives an Invalid Date, written `None`: every comparison with it is false.
      A `null` deadline is NOT `None`: `new Date(null)` is the epoch, `Some(0)`. */
  datatype Assignment = Assignment(judul: string, deskripsi: string, deadline: Option<int>)

  /** How the detail fetch ends: a parsed body with the response's `ok`, the
      body's `data` (possibly null) and `message`, or a thrown error. */
  datatype DetailReply =
    | DetailParsed(ok: bool, data: Option<Assignment>, message: Option<string>)
    | DetailThrown

  /** How a tap on the submit button ends before the network is involved:
      refused by validation, sent, or aborted by a `TypeError` while the
      payload was being built. */
  datatype Submission = Refused | Sent(request: Request) | Aborted

  /* ---------------- deadline ---------------- */

  /** `new Date() > new Date(deadline)`: never true of an Invalid Date. */
  predicate PastDeadline(now: int, a: Assignment)
    ensures a.deadline.None? ==> !PastDeadline(now, a)
    ensures a.deadline.Some? ==> (PastDeadline(now, a) <==> a.deadline.value < now)
  {
    a.deadline.Some? && now > a.deadline.value
  }

  /** Whether a detail reply sets `isExpired`: only a fetch that ends without
      an alert (an ok reply with data), and whose deadline lies before `now`. */
  predicate ExpiresOn(reply: DetailReply, now: int)
    ensures ExpiresOn(reply, now) <==>
              DetailFeedback(reply).Silent? && PastDeadline(now, reply.data.value)
  {
    reply.DetailParsed? && reply.ok && reply.data.Some? && PastDeadline(now, reply.data.value)
  }

  const DetailPath: string := "/tugas/detail?kode_tugas="

  /** The detail request: a GET with the bearer header and no body. The code is
      pasted into the query unencoded, so it can be read back from the path. */
  function DetailRequest(kode: string, token: Option<string>): (r: Request)
    ensures r.verb == "GET" && r.body == []
    ensures r.headers == [Header("Authorization", Bearer(token))]
    ensures |r.path| == |DetailPath| + |kode|
    ensures r.path[..|DetailPath|] == DetailPath && r.path[|DetailPath|..] == kode
  {
    Request("GET", DetailPath + kode, [Header("Authorization", Bearer(token))], [])
  }

  /** The alert after the detail fetch. An ok reply with null `data` throws a
      `TypeError` on `json.data.deadline` and lands in the same catch as a
      failed request. */
  function DetailFeedback(reply: DetailReply): (fb: Feedback)
    ensures fb.Silent? <==> reply.DetailParsed? && reply.ok && reply.data.Some?
    ensures reply.DetailParsed? && !reply.ok ==> fb == Alert("Error", reply.message)
    ensures reply.DetailThrown? || (reply.DetailParsed? && reply.ok && reply.data.None?) ==>
              fb == Alert("Error", Some("Gagal mengambil detail tugas"))
  {
    match reply
    case DetailThrown => Alert("Error", Some("Gagal mengambil detail tugas"))
    case DetailParsed(ok, data, message) =>
      if !ok then Alert("Error", message)
      else if data.None? then Alert("Error", Some("Gagal mengambil detail tugas"))
      else Silent
  }

  /* ---------------- media pick ---------------- */

  /** The `file` state an accepted asset produces: name and type default with `??`. */
  function MediaFileOf(a: Asset): (f: MediaFile)
    ensures f.uri == a.uri
    ensures a.fileName.None? ==> f.name == "media"
    ensures a.fileName.Some? ==> f.name == a.fileName.value
    ensures a.mimeType.None? ==> f.mimeType == "application/octet-stream"
    ensures a.mimeType.Some? ==> f.mimeType == a.mimeType.value
  {
    MediaFile(a.uri, a.fileName.GetOr("media"), a.mimeType.GetOr("application/octet-stream"))
  }

  /** The `file` state after `pickMedia` handles `res`. */
  function FileAfterPick(current: Option<MediaFile>, res: PickerResult): (r: Option<MediaFile>)
    ensures res.didCancel ==> r == current
    ensures res.assets.None? || res.assets.value == [] ==> r == current
    ensures res.assets.Some? && res.assets.value != [] &&
            res.assets.value[0].fileSize.Some? && res.assets.value[0].fileSize.value > MaxSize
            ==> r == current
    ensures !res.didCancel && res.assets.Some? && res.assets.value != [] &&
            (res.assets.value[0].fileSize.None? || res.assets.value[0].fileSize.value <= MaxSize)
            ==> r == Some(MediaFileOf(res.assets.value[0]))
  {
    match Judge(res, MaxSize, false)
    case Accepted(a) => Some(MediaFileOf(a))
    case _ => current
  }

  /** The alert `pickMedia` shows: the size message for an uncancelled pick
      whose first asset is over 50 MB, nothing otherwise. */
  function PickFeedback(res: PickerResult): (fb: Feedback)
    ensures !res.didCancel && FirstAsset(res).Some? && ExceedsCeiling(FirstAsset(res).value, MaxSize)
            ==> fb == Alert("Error", Some("Ukuran file maksimal 50 MB"))
    ensures !(!res.didCancel && FirstAsset(res).Some? && ExceedsCeiling(FirstAsset(res).value, MaxSize))
            ==> fb == Silent
  {
    if Judge(res, MaxSize, false).TooLarge? then Alert("Error", Some("Ukuran file maksimal 50 MB"))
    else Silent
  }

  /** A file picked with the picker's error code set is still taken: this
      handler never looks at `errorCode`. */
  lemma ErrorCodeIgnored(current: Option<MediaFile>, res: PickerResult, a: Asset)
    requires !res.didCancel && HasError(res)
    requires res.assets == Some([a]) && !ExceedsCeiling(a, MaxSize)
    ensures FileAfterPick(current, res) == Some(MediaFileOf(a))
  {
  }

  /* ---------------- submission ---------------- */

  /** `!jawaban.trim() && !file` rejects; anything else goes ahead: an answer
      with at least one non-space character, or an attached file. */
  predicate CanSubmit(jawaban: string, file: Option<MediaFile>)
    ensures CanSubmit(jawaban, file) <==> (exists i :: 0 <= i < |jawaban| && !IsJsSpace(jawaban[i])) || file.Some?
  {
    !IsBlank(jawaban) || file.Some?
  }

  /** The `uri` of the appended file: as picked on Android, otherwise with the
      first "file://" removed. `None` when the non-Android branch calls
      `replace` on a missing URI, which throws. */
  function UploadUri(uri: Option<string>, isAndroid: bool): (r: Option<Option<string>>)
    ensures r.None? <==> !isAndroid && uri.None?
    ensures isAndroid ==> r == Some(uri)
    ensures !isAndroid && uri.Some? ==> r == Some(Some(RemoveFirst(uri.value, FileScheme)))
  {
    if isAndroid then Some(uri)
    else if uri.None? then None
    else Some(Some(RemoveFirst(uri.value, FileScheme)))
  }

  /** On iOS a URI of the form "file://<path>" is sent as "<path>". */
  lemma IosStripsScheme(path: string)
    ensures UploadUri(Some(FileScheme + path), false) == Some(Some(path))
  {
  }

  /** The text fields `uploadJawaban` appends before any file: the assignment
      code, then the untrimmed answer when its trimmed form is not empty. */
  function TextParts(kode: string, jawaban: string): (r: seq<Part>)
    ensures r != [] && r[0] == Part("tugas_kode", Text(kode))
    ensures |r| == if IsBlank(jawaban) then 1 else 2
    ensures Has(r, "jawaban_text") <==> !IsBlank(jawaban)
    ensures !IsBlank(jawaban) ==> Get(r, "jawaban_text") == Some(Text(jawaban))
    ensures !Has(r, "file")
  {
    var head := [Part("tugas_kode", Text(kode))];
    if IsBlank(jawaban) then head
    else
      var r := head + [Part("jawaban_text", Text(jawaban))];
      assert r[1].key == "jawaban_text";
      r
  }

  /** The fields `uploadJawaban` appends to its `FormData`, in order; `None`
      when building them throws. */
  function SubmissionPayload(kode: string, jawaban: string, file: Option<MediaFile>, isAndroid: bool)
    : (r: Option<seq<Part>>)
    ensures r.None? <==> file.Some? && UploadUri(file.value.uri, isAndroid).None?
    ensures r.Some? ==> r.value != [] && r.value[0] == Part("tugas_kode", Text(kode))
    ensures r.Some? ==> |r.value| == 1 + (if IsBlank(jawaban) then 0 else 1) + (if file.Some? then 1 else 0)
    ensures r.Some? ==> (Has(r.value, "jawaban_text") <==> !IsBlank(jawaban))
    ensures r.Some? && !IsBlank(jawaban) ==> Get(r.value, "jawaban_text") == Some(Text(jawaban))
    ensures r.Some? ==> (Has(r.value, "file") <==> file.Some?)
    ensures r.Some? && file.Some? ==>
              Get(r.value, "file") ==
              Some(FileRef(UploadUri(file.value.uri, isAndroid).value, file.value.name, file.value.mimeType))
  {
    var text := TextParts(kode, jawaban);
    match file
    case None => Some(text)
    case Some(f) =>
      match UploadUri(f.uri, isAndroid)
      case None => None
      case Some(u) =>
        var parts := text + [Part("file", FileRef(u, f.name, f.mimeType))];
        AppendKeepsLookups(text, Part("file", FileRef(u, f.name, f.mimeType)));
        Some(parts)
  }

  /** Appending a field leaves every other key's presence and first value as
      they were, and makes the new key present. */
  lemma {:induction false} AppendKeepsLookups(parts: seq<Part>, p: Part)
    ensures Has(parts + [p], p.key)
    ensures !Has(parts, p.key) ==> Get(parts + [p], p.key) == Some(p.value)
    ensures forall k :: k != p.key ==> (Has(parts + [p], k) <==> Has(parts, k))
    ensures forall k :: k != p.key ==> Get(parts + [p], k) == Get(parts, k)
  {
    var q := parts + [p];
    assert q[|parts|] == p;
    if parts != [] {
      AppendKeepsLookups(parts[1..], p);
      assert q[1..] == parts[1..] + [p];
      forall k | k != p.key
        ensures Has(q, k) <==> Has(parts, k)
      {
        if Has(q, k) {
          var i :| 0 <= i < |q| && q[i].key == k;
          assert i < |parts| && parts[i].key == k;
        }
        if Has(parts, k) {
          var i :| 0 <= i < |parts| && parts[i].key == k;
          assert q[i].key == k;
        }
      }
    } else {
      assert q == [p];
    }
  }

  /** A submission that passes validation always carries content besides the
      assignment code: the answer text, the file, or both. */
  lemma SubmittedPayloadHasContent(kode: string, jawaban: string, file: Option<MediaFile>, isAndroid: bool)
    requires CanSubmit(jawaban, file)
    requires file.None? || isAndroid || file.value.uri.Some?
    ensures var parts := SubmissionPayload(kode, jawaban, file, isAndroid).value;
            |parts| >= 2 && (Has(parts, "jawaban_text") || Has(parts, "file"))
  {
  }

  /** An accepted pick always makes the form submittable, whatever the text. */
  lemma PickEnablesSubmit(jawaban: string, current: Option<MediaFile>, res: PickerResult)
    requires Judge(res, MaxSize, false).Accepted?
    ensures CanSubmit(jawaban, FileAfterPick(current, res))
  {
  }

  /** The upload request: a POST of exactly `parts`, with the bearer header
      and a request for a JSON reply. */
  function UploadRequest(token: Option<string>, parts: seq<Part>): (r: Request)
    ensures r.verb == "POST" && r.path == "/tugas/upload" && r.body == parts
    ensures Header("Authorization", Bearer(token)) in r.headers
    ensures Header("Accept", "application/json") in r.headers && |r.headers| == 2
  {
    Request("POST", "/tugas/upload",
            [Header("Authorization", Bearer(token)), Header("Accept", "application/json")],
            parts)
  }

  /** The alert after the upload request settles. */
  function UploadFeedback(reply: Reply): (fb: Feedback)
    ensures reply.Parsed? && reply.ok ==> fb == Alert("Sukses", reply.message)
    ensures reply.Parsed? && !reply.ok ==> fb == Alert("Gagal", Some(OrElse(reply.message, "Upload gagal")))
    ensures reply.Parsed? && !reply.ok ==> fb.message.Some? && fb.message.value != []
    ensures reply.Thrown? ==> fb == Alert("Error", Some("Upload gagal"))
  {
    match reply
    case Parsed(ok, message) =>
      if ok then Alert("Sukses", message) else Alert("Gagal", Some(OrElse(message, "Upload gagal")))
    case Thrown => Alert("Error", Some("Upload gagal"))
  }

  /* ---------------- the screen ---------------- */

  /** The screen's component state. */
  class TugasForm {
    const kodeTugas: string
    var tugas: Option<Assignment>
    var file: Option<MediaFile>
    var jawaban: string
    var loading: bool
    var uploading: bool
    var isExpired: bool

    constructor (kodeTugas: string)
      ensures this.kodeTugas == kodeTugas
      ensures tugas == None && file == None && jawaban == ""
      ensures loading && !uploading && !isExpired
    {
      this.kodeTugas := kodeTugas;
      tugas, file, jawaban := None, None, "";
      loading, uploading, isExpired := true, false, false;
    }

    /** Whether the form is on screen at all. While `loading` only a spinner
        is rendered; once loading ends without an assignment, rendering
        `tugas.judul` throws and no control is shown. */
    predicate Shown()
      reads this
    {
      !loading && tugas.Some?
    }

    /** `editable={!isExpired}` on the answer field and `disabled={isExpired}`
        on the pick button, on a form that is shown. */
    predicate Editable()
      reads this
    {
      Shown() && !isExpired
    }

    /** `disabled={uploading || isExpired}` on the submit button. */
    predicate UploadEnabled()
      reads this
    {
      Editable() && !uploading
    }

    /** `fetchDetail`, run once on mount; `now` is the clock at the reply. */
    method FetchDetail(token: Option<string>, now: int, reply: DetailReply) returns (req: Request, fb: Feedback)
      modifies this`tugas, this`isExpired, this`loading
      ensures req == DetailRequest(kodeTugas, token)
      ensures !loading
      ensures tugas == (if reply.DetailParsed? && reply.ok then reply.data else old(tugas))
      ensures isExpired == (old(isExpired) || ExpiresOn(reply, now))
      ensures fb == DetailFeedback(reply)
    {
      req := DetailRequest(kodeTugas, token);
      match reply {
        case DetailThrown =>
          fb := Alert("Error", Some("Gagal mengambil detail tugas"));
        case DetailParsed(ok, data, message) =>
          if ok {
            tugas := data;
            if data.None? {
              fb := Alert("Error", Some("Gagal mengambil detail tugas"));
            } else {
              if PastDeadline(now, data.value) {
                isExpired := true;
              }
              fb := Silent;
            }
          } else {
            fb := Alert("Error", message);
          }
      }
      loading := false;
    }

    /** `pickMedia` with the picker's answer `res`. */
    method PickMedia(res: PickerResult) returns (fb: Feedback)
      modifies this`file
      ensures file == FileAfterPick(old(file), res)
      ensures fb == PickFeedback(res)
    {
      if res.didCancel {
        return Silent;
      }
      var asset := FirstAsset(res);
      if asset.None? {
        return Silent;
      }
      if ExceedsCeiling(asset.value, MaxSize) {
        return Alert("Error", Some("Ukuran file maksimal 50 MB"));
      }
      file := Some(MediaFileOf(asset.value));
      fb := Silent;
    }

    /** `uploadJawaban` up to the awaited `fetch`: validation, the `uploading`
        flag and the in-place construction of the `FormData`. */
    method BeginUpload(token: Option<string>, isAndroid: bool) returns (s: Submission, fb: Feedback)
      modifies this`uploading
      ensures s.Refused? <==> !CanSubmit(jawaban, file)
      ensures s.Refused? ==> uploading == old(uploading) && fb == Alert("Error", Some("Isi jawaban atau pilih media"))
      ensures !s.Refused? ==> uploading && fb == Silent
      ensures s.Sent? <==> CanSubmit(jawaban, file) && SubmissionPayload(kodeTugas, jawaban, file, isAndroid).Some?
      ensures s.Sent? ==> s.request == UploadRequest(token, SubmissionPayload(kodeTugas, jawaban, file, isAndroid).value)
    {
      var text, attached, blank := jawaban, file, IsBlank(jawaban);
      if blank && attached.None? {
        return Refused, Alert("Error", Some("Isi jawaban atau pilih media"));
      }
      uploading := true;
      fb := Silent;
      var formData := new FormData();
      formData.Append("tugas_kode", Text(kodeTugas));
      if !blank {
        formData.Append("jawaban_text", Text(text));
      }
      assert formData.parts == TextParts(kodeTugas, text);
      if attached.Some? {
        var f := attached.value;
        var uri := UploadUri(f.uri, isAndroid);
        if uri.None? {
          return Aborted, fb;
        }
        formData.Append("file", FileRef(uri.value, f.name, f.mimeType));
      }
      s := Sent(UploadRequest(token, formData.parts));
    }

    /** The `finally` of `uploadJawaban` and the branch on the reply. */
    method FinishUpload(reply: Reply) returns (fb: Feedback, navigatedBack: bool)
      modifies this`uploading
      ensures !uploading
      ensures navigatedBack <==> reply.Parsed? && reply.ok
      ensures fb == UploadFeedback(reply)
    {
      match reply {
        case Parsed(ok, message) =>
          if ok {
            fb := Alert("Sukses", message);
            navigatedBack := true;
          } else {
            fb := Alert("Gagal", Some(OrElse(message, "Upload gagal")));
            navigatedBack := false;
          }
        case Thrown =>
          fb := Alert("Error", Some("Upload gagal"));
          navigatedBack := false;
      }
      uploading := false;
    }

    /** The whole of `uploadJawaban`; `reply` is how the request would settle. A
        failed upload keeps the answer and the attachment for a retry. */
    method UploadJawaban(token: Option<string>, isAndroid: bool, reply: Reply)
      returns (s: Submission, fb: Feedback, navigatedBack: bool)
      modifies this`uploading
      ensures s.Refused? <==> !CanSubmit(jawaban, file)
      ensures s.Sent? <==> CanSubmit(jawaban, file) && SubmissionPayload(kodeTugas, jawaban, file, isAndroid).Some?
      ensures s.Sent? ==> s.request == UploadRequest(token, SubmissionPayload(kodeTugas, jawaban, file, isAndroid).value)
      ensures s.Refused? ==> uploading == old(uploading) && !navigatedBack &&
                             fb == Alert("Error", Some("Isi jawaban atau pilih media"))
      ensures s.Sent? ==> !uploading && fb == UploadFeedback(reply) && (navigatedBack <==> reply.Parsed? && reply.ok)
      ensures s.Aborted? ==> uploading && !navigatedBack
      ensures file == old(file) && jawaban == old(jawaban)
    {
      s, fb := BeginUpload(token, isAndroid);
      navigatedBack := false;
      if s.Sent? {
        fb, navigatedBack := FinishUpload(reply);
      }
    }

    /** `onChangeText={setJawaban}`, ignored while the field is not editable. */
    method ChangeText(text: string)
      modifies this`jawaban
      ensures jawaban == if old(Editable()) then text else old(jawaban)
    {
      if Editable() {
        jawaban := text;
      }
    }

    /** A tap on the pick button; a disabled or absent button does nothing. */
    method PressPick(res: PickerResult) returns (fb: Feedback)
      modifies this`file
      ensures old(Editable()) ==> file == FileAfterPick(old(file), res) && fb == PickFeedback(res)
      ensures !old(Editable()) ==> file == old(file) && fb == Silent
    {
      if !Editable() {
        return Silent;
      }
      fb := PickMedia(res);
    }

    /** A tap on the submit button; `None` when the button is disabled or
        absent and nothing happens, otherwise exactly `uploadJawaban`. */
    method PressUpload(token: Option<string>, isAndroid: bool, reply: Reply)
      returns (s: Option<Submission>, fb: Feedback, navigatedBack: bool)
      modifies this`uploading
      ensures s.None? <==> !old(UploadEnabled())
      ensures s.None? ==> uploading == old(uploading) && fb == Silent && !navigatedBack
      ensures s.Some? ==> (s.value.Refused? <==> !CanSubmit(jawaban, file))
      ensures s.Some? ==> (s.value.Sent? <==> CanSubmit(jawaban, file) &&
                                              SubmissionPayload(kodeTugas, jawaban, file, isAndroid).Some?)
      ensures s.Some? && s.value.Sent? ==>
                s.value.request == UploadRequest(token, SubmissionPayload(kodeTugas, jawaban, file, isAndroid).value)
      ensures s.Some? && s.value.Refused? ==>
                uploading == old(uploading) && !navigatedBack &&
                fb == Alert("Error", Some("Isi jawaban atau pilih media"))
      ensures s.Some? && s.value.Sent? ==>
                !uploading && fb == UploadFeedback(reply) && (navigatedBack <==> reply.Parsed? && reply.ok)
      ensures s.Some? && s.value.Aborted? ==> uploading && !navigatedBack
    {
      if !UploadEnabled() {
        return None, Silent, false;
      }
      var sub;
      sub, fb, navigatedBack := UploadJawaban(token, isAndroid, reply);
      s := Some(sub);
    }
  }

  /** On a freshly mounted screen, the detail fetch sets `isExpired` exactly
      when the reply carries an assignment whose deadline lies before `now`.
      After an expired fetch, or one that brought no assignment, the given
      edit, pick and tap leave the empty answer and the missing attachment
      as they were and send nothing. */
  method ExpiryLocksScreen(kode: string, token: Option<string>, now: int, reply: DetailReply,
                           text: string, res: PickerResult, isAndroid: bool, upload: Reply)
    returns (expired: bool, answer: string, attached: Option<MediaFile>, sent: bool)
    ensures expired <==> ExpiresOn(reply, now)
    ensures expired || DetailFeedback(reply) != Silent ==> answer == "" && attached == None && !sent
  {
    var form := new TugasForm(kode);
    var _, _ := form.FetchDetail(token, now, reply);
    expired := form.isExpired;
    form.ChangeText(text);
    var _ := form.PressPick(res);
    var s, _, _ := form.PressUpload(token, isAndroid, upload);
    answer, attached := form.jawaban, form.file;
    sent := s.Some? && s.value.Sent?;
  }
}
