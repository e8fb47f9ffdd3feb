# Upload forms of the e-learning mobile client

This project models the client-side rules of the two media-upload screens of
a React Native e-learning client, and proves properties of them in Dafny:

- **Assignment submission** (`Screen/FormUploadTugas.tsx`). The screen
  fetches the assignment once and marks it expired when the current time is
  past its deadline. It lets the student type an answer and attach one image
  or video of at most 50 MB. It then sends a multipart request that carries
  the assignment code, the answer text only when its trimmed form is not
  empty, and the file only when one is attached.
- **Profile-photo change** (`Screen/UserStack/FormEditPhoto.tsx`). Camera
  and gallery pickers share one acceptance rule with a 5 MB ceiling. The
  selection is three nullable fields. The upload refuses an empty selection,
  fills in `image/jpeg` and `photo.jpg` for a missing or empty type and name,
  and navigates back after any parsed reply.

Each screen is a `class` whose fields are the component's state hooks. Each
handler is a method that changes those fields. An `async` handler that
awaits a request is split at the `await fetch` into `BeginUpload` (up to
and including building the `FormData` in place) and `FinishUpload` (the
reply branch and the `finally`). This makes the "uploading while the request
is in flight" state visible. A whole-handler method composes the two, with
the reply passed in as a parameter. The pure parts are functions, and the
lemmas prove their properties:

- the size test, the `trim` test and the `??` / `||` defaults;
- which multipart fields appear;
- the `file://` stripping.

JavaScript semantics are written out where they matter:

- `trim` removes exactly the ECMAScript white-space and line-terminator
  characters;
- `replace` with a string pattern removes only the first occurrence;
- `??` falls back only for a missing value, while `||` also falls back for
  the empty string;
- a missing token is interpolated as `Bearer null`;
- a file size of `0` or a missing size is never rejected.

Two edge cases of the code are modelled as written:

- The picker's `asset.uri!` is a TypeScript-only assertion, so the attached
  file's URI may be missing. On a non-Android platform, `file.uri.replace`
  then throws before the `try` block. `uploading` stays `true` and no
  request is sent (`Submission.Aborted`).
- An ok detail reply whose `data` is null stores the null and then throws
  on `json.data.deadline`. The same catch-all alert as for a failed request
  is shown, and `isExpired` is not touched.

Two behaviours of the code are modelled as written, although a reader might
expect otherwise:

- The photo upload navigates back after ANY parsed response, including a
  non-ok one. Only a thrown error keeps the screen.
- The assignment detail sets `isExpired` only to `true` and never clears it.

## Model

| member | source | states |
|---|---|---|
| `JsString.TrimStart` | Screen/FormUploadTugas.tsx:88 | `trim` drops exactly a white-space prefix; what remains starts with a non-space |
| `JsString.TrimEnd` | Screen/FormUploadTugas.tsx:88 | `trim` drops exactly a white-space suffix; what remains ends with a non-space |
| `JsString.Trim` | Screen/FormUploadTugas.tsx:100 | the trimmed answer is the answer with a white-space prefix and a white-space suffix cut off, and it neither starts nor ends with white space |
| `JsString.IsBlank` | Screen/FormUploadTugas.tsx:88-91 | an answer counts as empty exactly when every character of it is white space |
| `JsString.IndexOf` | Screen/FormUploadTugas.tsx:107 | the position `replace` acts on is an occurrence of the pattern and no earlier position is one; none is reported only when the pattern occurs nowhere |
| `JsString.RemoveFirst` | Screen/FormUploadTugas.tsx:107 | `replace('file://', '')` leaves a URI without the scheme unchanged, and otherwise removes exactly the first occurrence, so that putting it back restores the URI |
| `JsString.RemoveLeading` | Screen/FormUploadTugas.tsx:107 | a URI that starts with the pattern loses exactly that leading copy |
| `JsString.OrElse` | Screen/UserStack/FormEditPhoto.tsx:88-89 | the logical-or default keeps a non-empty string and falls back for a missing or empty one, so the result is never empty when the default is not |
| `Multipart.Get` | Screen/FormUploadTugas.tsx:96-111 | a field is found exactly when it was appended, and the value found is the first one appended under that name |
| `Multipart.FormData.constructor` | Screen/FormUploadTugas.tsx:96 | a new `FormData` holds no fields |
| `Multipart.FormData.Append` | Screen/FormUploadTugas.tsx:97 | `append` adds one field at the end and keeps the earlier ones |
| `Multipart.Bearer` | Screen/FormUploadTugas.tsx:117 | the authorization header is `Bearer <token>`, or `Bearer null` when no token is stored |
| `Picker.FirstAsset` | Screen/FormUploadTugas.tsx:71-72 | `res.assets?.[0]` is present exactly when the asset list exists and is non-empty, and it is the list's first asset |
| `Picker.HasError` | Screen/UserStack/FormEditPhoto.tsx:35 | an error code counts only when present, and an empty error code does not count |
| `Picker.ExceedsCeiling` | Screen/FormUploadTugas.tsx:74 | the size guard rejects exactly a present size above the ceiling; a missing or zero size is never rejected |
| `Picker.Judge` | Screen/UserStack/FormEditPhoto.tsx:34-46 | an asset is accepted exactly when the pick is not cancelled, no checked error code is set, an asset exists and its size is not above the ceiling; it is rejected as too large exactly when the same holds except that its size is above the ceiling; an accepted asset is the first one; an error is reported exactly when the handler checks for it and it is set |
| `UploadTugas.DetailFeedback` | Screen/FormUploadTugas.tsx:43-53 | no alert exactly for an ok reply with data; a non-ok reply shows `Error` with the server's message; a thrown fetch, or an ok reply with null `data`, shows `Error` with `Gagal mengambil detail tugas` |
| `UploadTugas.PastDeadline` | Screen/FormUploadTugas.tsx:47 | an unparseable deadline is never past; otherwise the deadline is past exactly when it lies before `now` |
| `UploadTugas.ExpiresOn` | Screen/FormUploadTugas.tsx:43-47 | a detail fetch marks the assignment expired exactly when it ends without an alert and the deadline lies before `now` |
| `UploadTugas.DetailRequest` | Screen/FormUploadTugas.tsx:38-41 | the detail fetch is a GET with the bearer header and no body, and its path is the detail path followed by the unencoded assignment code |
| `UploadTugas.MediaFileOf` | Screen/FormUploadTugas.tsx:79-83 | the attached file keeps the asset's URI, and its name defaults to `media` and its type to `application/octet-stream` only when they are missing |
| `UploadTugas.FileAfterPick` | Screen/FormUploadTugas.tsx:69-83 | a cancelled pick, a missing asset and an asset over 50 MB leave `file` unchanged; any other asset replaces the previous file |
| `UploadTugas.PickFeedback` | Screen/FormUploadTugas.tsx:69-77 | an uncancelled pick whose first asset is over 50 MB shows the alert `Ukuran file maksimal 50 MB`; every other pick shows nothing |
| `UploadTugas.ErrorCodeIgnored` | Screen/FormUploadTugas.tsx:69-83 | this handler takes an asset even when the picker reports an error code |
| `UploadTugas.UploadUri` | Screen/FormUploadTugas.tsx:107 | the file URI is sent unchanged on Android and with its first `file://` removed elsewhere; building it fails exactly for a missing URI off Android |
| `UploadTugas.IosStripsScheme` | Screen/FormUploadTugas.tsx:107 | off Android `file://<path>` is sent as `<path>` |
| `UploadTugas.TextParts` | Screen/FormUploadTugas.tsx:96-102 | `tugas_kode` comes first; `jawaban_text` is present exactly when the trimmed answer is non-empty, and it carries the untrimmed answer; there is no other field |
| `UploadTugas.SubmissionPayload` | Screen/FormUploadTugas.tsx:96-111 | the payload starts with `tugas_kode`; `jawaban_text` is present iff the trimmed answer is non-empty and then holds the untrimmed answer; `file` is present iff a file is attached and then holds the platform URI, name and type; there is no other field; building fails only for a missing URI off Android |
| `UploadTugas.AppendKeepsLookups` | Screen/FormUploadTugas.tsx:105-111 | appending the file field leaves the presence and value of every other field unchanged |
| `UploadTugas.SubmittedPayloadHasContent` | Screen/FormUploadTugas.tsx:88-111 | a submission that passes validation carries the answer text or the file besides the code |
| `UploadTugas.PickEnablesSubmit` | Screen/FormUploadTugas.tsx:79-91 | after an accepted pick, validation passes whatever the text |
| `UploadTugas.CanSubmit` | Screen/FormUploadTugas.tsx:88 | validation passes exactly when the answer has a non-space character or a file is attached |
| `UploadTugas.UploadRequest` | Screen/FormUploadTugas.tsx:114-121 | the upload is a POST to `/tugas/upload` of exactly the built fields, with the bearer header and `Accept: application/json` |
| `UploadTugas.UploadFeedback` | Screen/FormUploadTugas.tsx:123-133 | ok shows `Sukses` with the server message; non-ok shows `Gagal` with the server message, or `Upload gagal` when it is missing or empty; a thrown error shows `Upload gagal` |
| `UploadTugas.TugasForm.constructor` | Screen/FormUploadTugas.tsx:26-31 | the screen mounts with no assignment and no file, an empty answer, loading, not uploading and not expired |
| `UploadTugas.TugasForm.Shown` | Screen/FormUploadTugas.tsx:139-153 | definition, no contract of its own: the controls exist only once loading has ended with an assignment; otherwise a spinner or a failed render is all there is |
| `UploadTugas.TugasForm.Editable` | Screen/FormUploadTugas.tsx:173-192 | definition, no contract of its own: `editable={!isExpired}` and `disabled={isExpired}` on a shown form; the gating is proved by `ChangeText`, `PressPick` and `ExpiryLocksScreen` |
| `UploadTugas.TugasForm.UploadEnabled` | Screen/FormUploadTugas.tsx:199-201 | definition, no contract of its own: the submit button is disabled while uploading or expired, on a shown form; the gating is proved by `PressUpload` and `ExpiryLocksScreen` |
| `UploadTugas.TugasForm.FetchDetail` | Screen/FormUploadTugas.tsx:34-56 | loading ends in every case; `tugas` takes the data of an ok reply; `isExpired` becomes set exactly when an ok reply's deadline is before `now`, and is never cleared |
| `UploadTugas.TugasForm.PickMedia` | Screen/FormUploadTugas.tsx:63-84 | `file` becomes the rule's result for the picked asset, with the size alert |
| `UploadTugas.TugasForm.BeginUpload` | Screen/FormUploadTugas.tsx:87-111 | an empty trimmed answer with no file is refused with no request and `uploading` unchanged; otherwise `uploading` is set and the request carries exactly the payload `SubmissionPayload` describes, or building it aborts with `uploading` left set |
| `UploadTugas.TugasForm.FinishUpload` | Screen/FormUploadTugas.tsx:113-136 | `uploading` is false afterwards whatever the outcome; navigation back happens exactly on an ok reply |
| `UploadTugas.TugasForm.UploadJawaban` | Screen/FormUploadTugas.tsx:87-137 | a sent submission ends with `uploading` false; a refused one changes nothing; the answer and the file are kept for a retry in every case |
| `UploadTugas.TugasForm.ChangeText` | Screen/FormUploadTugas.tsx:167-175 | the answer changes only while the field is shown and the assignment is not expired |
| `UploadTugas.TugasForm.PressPick` | Screen/FormUploadTugas.tsx:190-196 | on a form that is not shown, or expired, a pick does nothing; otherwise it is `pickMedia` |
| `UploadTugas.TugasForm.PressUpload` | Screen/FormUploadTugas.tsx:199-207 | on a form that is not shown, or while uploading or expired, nothing happens; otherwise it is `uploadJawaban`: refused with its alert, sent with the specified request and then not uploading, navigating back exactly on ok, or aborted with `uploading` left set |
| `UploadTugas.ExpiryLocksScreen` | Screen/FormUploadTugas.tsx:47-202 | on a fresh screen `isExpired` holds exactly when the fetched deadline has passed; after an expired fetch, or one that brought no assignment, a following edit, pick and tap leave the answer empty and the attachment missing and send nothing |
| `EditPhoto.SelectionAfterPick` | Screen/UserStack/FormEditPhoto.tsx:34-50 | cancel, error code, missing asset and an asset over 5242880 bytes keep the selection; an accepted asset sets the URI or null, the type or null, and the file name or `photo.jpg` |
| `EditPhoto.PickFeedback` | Screen/UserStack/FormEditPhoto.tsx:34-46 | an uncancelled pick with an error code toasts the handler's own error text; one without an error whose first asset is over 5242880 bytes toasts `Ukuran gambar maksimal 5MB`; every other pick shows nothing |
| `EditPhoto.CanUpload` | Screen/UserStack/FormEditPhoto.tsx:78-81 | the upload needs a selected URI, and an empty URI counts as none |
| `EditPhoto.PhotoField` | Screen/UserStack/FormEditPhoto.tsx:85-90 | the `photo` field carries the selected URI, the type or `image/jpeg`, the name or `photo.jpg`, so that neither type nor name is ever empty |
| `EditPhoto.PhotoRequest` | Screen/UserStack/FormEditPhoto.tsx:85-101 | the photo upload is a POST to `/update-photo` whose only field is `photo`, with the bearer header and no `Accept` header |
| `EditPhoto.UploadFeedback` | Screen/UserStack/FormEditPhoto.tsx:103-107 | any parsed reply toasts the server message, or `Upload berhasil` when it is missing or empty, even for a non-ok reply; a thrown error toasts `Gagal upload foto` |
| `EditPhoto.AcceptedPickIsUploaded` | Screen/UserStack/FormEditPhoto.tsx:48-90 | after an accepted pick of an asset with a URI, the upload sends that URI, the asset's type or `image/jpeg`, and its name or `photo.jpg` |
| `EditPhoto.UriLessPickBlocksUpload` | Screen/UserStack/FormEditPhoto.tsx:48-81 | an accepted asset without a URI clears the previous selection, so the next upload is refused |
| `EditPhoto.PhotoForm.constructor` | Screen/UserStack/FormEditPhoto.tsx:19-24 | the screen mounts with nothing selected and the button not loading |
| `EditPhoto.PhotoForm.AmbilDariKamera` | Screen/UserStack/FormEditPhoto.tsx:31-51 | the camera handler's new selection is the shared pick rule's result |
| `EditPhoto.PhotoForm.PilihDariGaleri` | Screen/UserStack/FormEditPhoto.tsx:54-74 | the gallery handler's new selection is the same rule's result as the camera's for the same answer |
| `EditPhoto.PhotoForm.BeginUpload` | Screen/UserStack/FormEditPhoto.tsx:77-101 | a missing or empty URI is refused with a toast, no request and `loadingButton` unchanged; otherwise `loadingButton` is set and the request carries the `photo` field |
| `EditPhoto.PhotoForm.FinishUpload` | Screen/UserStack/FormEditPhoto.tsx:103-110 | `loadingButton` is false afterwards; navigation back happens exactly on a parsed reply, ok or not |
| `EditPhoto.PhotoForm.UploadImageToApi` | Screen/UserStack/FormEditPhoto.tsx:77-111 | a refused upload changes nothing; a sent one ends not loading and navigates back on any parsed reply; the selection is never changed |
| `EditPhoto.PhotoForm.PressUpload` | Screen/UserStack/FormEditPhoto.tsx:141-150 | while loading a tap does nothing; otherwise it is `uploadImageToApi`: refused with its toast, or the `photo` request sent and then not loading, with the reply's toast and navigation back on any parsed reply; the selection never changes |

## Left out

- Network, storage, alerts and toasts: `fetch`, `response.json()`, the
  `AsyncStorage` token read, `Alert.alert` and `ToastAndroid.show` are I/O.
  The token and the reply are parameters, the request is a returned value
  and the message shown is a returned `Feedback`.
- Platform of the photo screen's toasts: `ToastAndroid.show` shows nothing
  off Android, so on iOS the photo screen gives no visible message (picker
  error, size refusal, missing selection, upload result). The model does not
  take the platform as input there and returns the `Toast` the code asks for
  on every platform.
- The picker libraries `launchImageLibrary` and `launchCamera` are not part
  of this model. Their answer is an input `PickerResult`.
- Date parsing and locale formatting (`new Date`, `toLocaleDateString`,
  `toLocaleTimeString`). Times are integers. A missing or unparseable
  deadline is `None`, but a `null` deadline is the epoch, `Some(0)`, because
  `new Date(null)` is the epoch.
- Asynchrony. Each half of a handler is one atomic step, and a tap that
  races an in-flight request is not modelled beyond the disabled buttons.
  Other concurrent updates, and replies arriving after the screen is gone,
  are not modelled either.
- Non-string `message` values in a reply and a non-numeric `fileSize` such as
  `NaN`: `message` is a string or missing, and `fileSize` is an integer or
  missing.
- Rendering: the loading spinner, the preview of the attached file
  (image or name), and the avatar source choice between the new selection,
  the route's `currentPhoto` and the bundled picture.
- The render crash on `tugas.judul` (Screen/FormUploadTugas.tsx:153) is not
  modelled as an error. It happens whenever loading ends with no assignment,
  after a non-ok, thrown or null-data detail fetch. The model treats that
  screen as having no controls: `ChangeText`, `PressPick` and `PressUpload`
  do nothing unless `Shown()` holds. The form is unusable before a
  successful fetch with data.
- All other screens (login, course, module and assignment lists, to-do list,
  profile, password change) and the navigation shell are not part of this
  model. They only fetch and render, with no rule beyond branching on `ok`.
