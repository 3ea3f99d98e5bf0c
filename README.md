# LensLink gallery annotator — a Dafny model of its controller

LensLink is a single-page app. The user fills a 3×3 grid of nine upload
slots. An external multimodal model picks a cover photo among the uploaded
images and places one hotspot on it for every other photo. The page then
shows an annotated post: clicking a hotspot opens a drawer with the linked
photo and its interpretation.

This project models the three parts of the app with real logic:

- **The application controller** (`App.tsx`), module `App`. Its state is:
  - nine `ImageItem` slots with ids `slot-0` … `slot-8`;
  - the `isAnalyzing` flag;
  - an optional `GalleryAnalysis`;
  - an optional selected `Connection`.

  The class `App.Controller` holds these four fields. Its methods are the
  handlers: batch upload, single-slot upload, clearing one slot, clearing
  all, the two halves of `runAnalysis`, reset, and hotspot select and
  dismiss. The list sent to the model (`images.filter(img => img.base64)`)
  and the result view's lookups are functions. So are the facts relating
  them.
- **The data-URL split chains** shared by `processFile` and the camera
  component, modules `JsString` and `DataUrl`. JavaScript's `split` is
  modelled on one-character separators with its real edge cases: indexing
  past the last piece gives `undefined`, and the empty string splits into
  `[""]`. Data URLs follow section 3 of RFC 2397.
- **The camera capture path** (`components/CameraCapture.tsx`), module
  `CameraCapture`. `dataURItoBlob` is a method with the byte-copy loop over
  an array. `capturePhoto` is a method on the captured data URL.
- **The drop zone** (`components/ImageUploader.tsx`), module
  `ImageUploader`. It has the acceptance rules and the `isDragging` flag.

The browser and the network become parameters:
- `reader: File -> Option<Reading>` stands for `FileReader.readAsDataURL`
  plus `URL.createObjectURL`;
- `analyze` (or an explicit outcome) stands for `analyzeGallery`;
- `atob: string -> Option<string>` stands for the browser's base64 decoder;
- `dataUrl`, `elementsMounted` and `hasContext` stand for the canvas.

`types.ts` becomes the datatypes of module `Types`. Percentages are
`real`, and indices are `int` because the model's JSON may carry any
integer.

Points where the code's behaviour is narrower than a reader might expect,
and how the model follows the code:
- **Single-slot upload index.** Nothing in `handleSingleFileChange`
  range-checks `index` (App.tsx:66-76). It is only called with a grid
  index 0..8, so the model requires `index < 9`.
- **Preview release.** The code never calls `URL.revokeObjectURL`, so no
  preview is released when a slot is cleared or replaced, and the model
  releases none.
- **Payload and preview.** A slot can hold a preview and no usable
  payload: an empty file gives the empty string, and a data URL with no
  comma gives `undefined` (App.tsx:38). Such a slot does not count as
  uploaded. The slot invariant `App.WellFormed` keeps only "a payload
  implies a file and a preview".
- **Blob type.** `new Blob([ab], { type: mimeString })`
  (components/CameraCapture.tsx:74) records the type in ASCII lowercase,
  or as the empty string when it holds a character outside U+0020 to
  U+007E; `CameraCapture.BlobType` models that rule. The only caller
  replaces the type with `image/jpeg` (components/CameraCapture.tsx:60).

## Model

| member | source | states |
|---|---|---|
| `App.InitialSlots` | App.tsx:22-27 | nine slots, slot i with id `slot-i`, each with no file, preview or payload; nothing in them counts as uploaded |
| `App.DecimalInjective` | App.tsx:23 | different slot numbers print as different decimal strings |
| `App.SlotIdsDistinct` | App.tsx:23 | the slot ids (the grid's rendering keys) are pairwise distinct |
| `App.Uploaded` | App.tsx:94 | the filtered list is no longer than the slots and every entry in it has a non-empty payload |
| `App.PopulatedSlots` | App.tsx:94 | the filtered list is exactly the populated slots in increasing slot order: entry k is slot `PopulatedSlots[k]`, and every slot index appears iff that slot is populated |
| `App.NothingUploaded` | App.tsx:94 | with no populated slot the filtered list is empty |
| `App.HasUploads` | App.tsx:164 | the clear-all button shows iff the filtered list is non-empty |
| `App.Decimal` | App.tsx:23 | the digits `${i}` prints: at least one, and exactly one iff i < 10 |
| `App.SlotId` | App.tsx:23 | the id `slot-${i}` (also App.tsx:80); `App.SlotIdsDistinct` shows distinct slots get distinct ids |
| `App.EmptySlot` | App.tsx:80 | the cleared slot `i` has id `slot-i`, no file, preview or payload, and is not populated |
| `App.Populated` | App.tsx:94 | the truthiness test `img.base64`: a payload that is present and not the empty string |
| `App.CanAnalyze` | App.tsx:95 | the guard `uploaded.length < 2` negated (also the button's `disabled` test at App.tsx:205): at least two entries in the list sent; `App.GuardNeedsTwoSlots` characterises it |
| `App.Ingest` | App.tsx:55-60 | the spread `{ ...slot, file, previewUrl, base64 }` of both upload handlers (also App.tsx:69-74); `App.IngestDataUrl` states its meaning |
| `App.BackdropAsWritten` | App.tsx:218 | the backdrop as the view looks it up: the preview of slot `mainPhotoIndex` of the nine; the as-written half of the first finding |
| `App.DetailImageAsWritten` | App.tsx:284 | the drawer image as the view looks it up: the preview of slot `targetIndex` of the nine; the as-written half of the second finding |
| `App.GuardNeedsTwoSlots` | App.tsx:94-98 | the analyze guard passes iff two distinct slots are populated |
| `App.UploadedPrefix` | App.tsx:94 | when the populated slots are exactly 0..k-1, the filtered list is the first k slots, so position j of the list is slot j |
| `App.IngestDataUrl` | App.tsx:33-44 | ingesting a file keeps the slot id, sets file, preview and payload together, takes as payload the text after the comma of the data URL, and the slot counts as uploaded iff that text is non-empty |
| `App.TakeSlots` | App.tsx:50 | `slice(0, 9)` keeps the first min(n, 9) files in order |
| `App.FillInOrder` | App.tsx:53-61 | after the batch loop slot i < k holds file i ingested into the old slot i (id kept) and slots k..8 are unchanged |
| `App.IngestInOrder` | App.tsx:50-61 | the batch loop finishes iff every read delivers, and then yields `FillInOrder` of the old slots |
| `App.BatchIntoClearedSlots` | App.tsx:50-61 | a batch into empty slots with non-empty payloads populates exactly slots 0..k-1, so the list sent to the model is the first k slots |
| `App.ClearSlotUnpopulates` | App.tsx:78-82 | clearing slot i removes exactly slot i from the populated slots |
| `App.Backdrop` | App.tsx:218 | corrected backdrop lookup: the preview of the slot the model picked, position `mainPhotoIndex` of the list it was sent; always present |
| `App.DetailImage` | App.tsx:284 | corrected detail lookup: the preview of the slot at position `targetIndex` of the list sent; always present |
| `App.LookupsAgreeOnPrefix` | App.tsx:218 | when the populated slots are a prefix, the view's full-array lookups equal the corrected ones |
| `App.MisplacedBackdrop` | App.tsx:218 | with slot 0 empty and slots 1, 2 filled, `mainPhotoIndex = 0` means slot 1 but the view shows slot 0, which has no preview |
| `App.MisplacedDetailImage` | App.tsx:284 | in the same state `targetIndex = 1` means slot 2 but the drawer shows slot 1 |
| `App.GapReachable` | App.tsx:66-76 | from the initial state, single-slot uploads into slots 1 and 2 (each with a non-empty payload) reach the gap state: the model's `mainPhotoIndex = 0` means slot 1's preview while the view shows none, and `targetIndex = 1` means slot 2's preview while the drawer shows slot 1's |
| `App.Controller.constructor` | App.tsx:22-30 | initial slots, not analysing, no analysis, no selection |
| `App.Controller.Mode` | App.tsx:116-136 | loading screen iff analysing; annotated post iff not analysing and an analysis is present; the handlers' contracts state its transitions (below) |
| `App.Controller.HandleBatchUpload` | App.tsx:46-64 | a null file list changes nothing; otherwise the slots become `FillInOrder` of the first nine files, or stay as they were when a read never delivers; other fields unchanged |
| `App.Controller.HandleSingleFileChange` | App.tsx:66-76 | only slot `index` changes, to the file ingested into it (id kept); other fields unchanged |
| `App.Controller.HandleSlotInput` | App.tsx:195 | only the first selected file, if any, reaches the single-slot handler |
| `App.Controller.ClearSlot` | App.tsx:78-82 | slot `index` becomes empty with id `slot-index`; every other slot and field unchanged |
| `App.Controller.ClearAll` | App.tsx:84-91 | the slots equal the initial slots whatever they held |
| `App.Controller.BeginAnalysis` | App.tsx:93-99 | with fewer than two populated slots nothing changes and no request is made; otherwise `isAnalyzing` is set and the request is the populated slots in slot order; the screen becomes the loading screen iff the guard passes, otherwise it stays as it was |
| `App.Controller.FinishAnalysis` | App.tsx:100-108 | `isAnalyzing` ends; a success becomes the analysis and a failure keeps the previous one; slots and selection unchanged; the screen becomes the annotated post when the call succeeded or an analysis was already shown, otherwise the upload grid |
| `App.Controller.RunAnalysis` | App.tsx:93-109 | both halves together: the model is called on the populated slots iff there are at least two; afterwards not analysing, and the analysis is the result on success and unchanged otherwise; from the upload grid it ends on the annotated post iff the guard passes and the call succeeds, and a refused guard stays on the grid |
| `App.Controller.Reset` | App.tsx:111-114 | analysis and selection cleared, slots untouched; outside the loading screen it returns to the upload grid |
| `App.Controller.ActivateHotspot` | App.tsx:227 | the hotspot's connection becomes the selection directly, replacing any previous one |
| `App.Controller.Dismiss` | App.tsx:302 | no selection; everything else unchanged |
| `JsString.IndexOf` | components/CameraCapture.tsx:68 | the position of the first occurrence: it holds the character and none comes before it |
| `JsString.Split` | components/CameraCapture.tsx:68 | `split` yields at least one piece, exactly one iff the separator is absent, and no piece contains the separator |
| `JsString.Field` | App.tsx:38 | `split(sep)[k]` is defined iff k is below the number of pieces, and never contains the separator |
| `JsString.JoinSplit` | components/CameraCapture.tsx:68 | rejoining the pieces with the separator restores the string |
| `JsString.SplitJoin` | components/CameraCapture.tsx:68 | splitting a join of separator-free pieces gives back those pieces, so `split` is the unique such decomposition |
| `JsString.SecondField` | App.tsx:38 | `split(sep)[1]` is the text between the first and the second separator (or the end) |
| `JsString.FirstField` | components/CameraCapture.tsx:68 | `split(sep)[0]` is the text before the first separator |
| `DataUrl.Payload` | App.tsx:38 | the payload is undefined iff the URL has no comma, and never contains a comma |
| `DataUrl.PayloadBetweenCommas` | components/CameraCapture.tsx:57 | the payload is exactly the text between the first and second comma |
| `DataUrl.Header` | components/CameraCapture.tsx:68 | the header before the first comma contains no comma |
| `DataUrl.MimeType` | components/CameraCapture.tsx:68 | the chain throws iff the header has no colon; the MIME type contains no comma, colon or semicolon |
| `DataUrl.MimeTypeOfHeader` | components/CameraCapture.tsx:68 | the MIME type is the text between the first colon and the next semicolon of the header, whatever parameters follow, when that text holds no further colon (a second colon ends it early) |
| `DataUrl.JpegDataUrl` | components/CameraCapture.tsx:56-57 | a `data:image/jpeg;base64,<d>` URL yields MIME type `image/jpeg` and payload d |
| `CameraCapture.AtobArgument` | components/CameraCapture.tsx:67 | `atob` converts its argument to a string, so an undefined payload is decoded as the text "undefined" |
| `CameraCapture.StoredByte` | components/CameraCapture.tsx:72 | the `Uint8Array` store keeps a character code modulo 256: a one-byte code unchanged, and a character and its code modulo 256 store the same byte |
| `CameraCapture.DataUriToBlob` | components/CameraCapture.tsx:66-75 | fails with the decode error iff `atob` rejects the payload (an undefined payload is decoded as the text "undefined"), then with the type error iff the header has no colon; otherwise the blob has the decoded string's length, byte i is char code i modulo 256 (the code itself for one-byte characters), and its type is the extracted MIME type normalised by `BlobType` |
| `CameraCapture.BlobType` | components/CameraCapture.tsx:74 | the recorded type is empty when the given type holds a character outside U+0020 to U+007E, otherwise the given type in ASCII lowercase; it never holds a capital or a non-printable character |
| `CameraCapture.BlobTypeIdempotent` | components/CameraCapture.tsx:74 | normalising a recorded type again leaves it unchanged |
| `CameraCapture.BlobTypeKeepsLowercase` | components/CameraCapture.tsx:74 | a printable type without capitals, such as `image/jpeg`, is recorded as given |
| `CameraCapture.CapturePhoto` | components/CameraCapture.tsx:44-64 | no capture without the elements and the 2-D context; `onCapture` is called iff the blob can be built; otherwise the handler throws the decode error when `atob` rejects the payload and the type error when it does not; `onCapture` gets the payload of the same data URL and a file named `camera-capture.jpg` of type `image/jpeg` whose bytes are the decoded payload |
| `JsString.StartsWith` | components/ImageUploader.tsx:26 | `startsWith`: the string begins with the prefix |
| `ImageUploader.IsImageType` | components/ImageUploader.tsx:26 | `files[0].type.startsWith('image/')` |
| `ImageUploader.DropSelection` | components/ImageUploader.tsx:26-28 | a drop forwards a file iff the list is non-empty and the first file's type starts with `image/`, and then it is the first file |
| `ImageUploader.PickerSelection` | components/ImageUploader.tsx:33-35 | a picker change forwards a file iff the list is non-null and non-empty, and then it is the first file, with no type check |
| `ImageUploader.DropIgnoresLaterFiles` | components/ImageUploader.tsx:26 | files after the first never change what a drop forwards |
| `ImageUploader.DropRefusesDespiteLaterImage` | components/ImageUploader.tsx:26 | a non-image first file is refused even when images follow |
| `ImageUploader.PickerAcceptsWhatDropAccepts` | components/ImageUploader.tsx:26-35 | the picker forwards whatever a drop forwards, and also the non-image first files a drop refuses |
| `ImageUploader.Uploader.constructor` | components/ImageUploader.tsx:11 | not dragging initially |
| `ImageUploader.Uploader.HandleDragOver` | components/ImageUploader.tsx:13-16 | dragging becomes true |
| `ImageUploader.Uploader.HandleDragLeave` | components/ImageUploader.tsx:18-20 | dragging becomes false |
| `ImageUploader.Uploader.HandleDrop` | components/ImageUploader.tsx:22-29 | dragging becomes false and at most one file, the drop selection, is forwarded |
| `ImageUploader.Uploader.HandleChange` | components/ImageUploader.tsx:31-36 | at most one file, the picker selection, is forwarded |

## Findings

| source | as written | input that shows it | evidently intended | confidence | as-written member | corrected member |
|---|---|---|---|---|---|---|
| App.tsx:218 | the backdrop is `images[analysis.mainPhotoIndex]`, an index into the nine slots, but the model was given the filtered list `uploaded` (App.tsx:94, App.tsx:101) and answers with a position in it | photos in slots 1 and 2 only, slot 0 empty; the model answers `mainPhotoIndex = 0` (the photo of slot 1) | show `uploaded[mainPhotoIndex]` | high, not executed | `App.MisplacedBackdrop` | `App.Backdrop` |
| App.tsx:284 | the drawer image is `images[selectedConn.targetIndex]`, a slot index, while `targetIndex` is a position in the filtered list | the same state; a connection with `targetIndex = 1` (the photo of slot 2) | show `uploaded[targetIndex]` | high, not executed | `App.MisplacedDetailImage` | `App.DetailImage` |

The two lookups agree whenever the populated slots are a prefix of the
grid (`App.LookupsAgreeOnPrefix`). One such case is a batch upload into a
cleared grid (`App.BatchIntoClearedSlots`). They disagree once a gap is
left, for example after a single-slot upload into a later slot or after
clearing an earlier one; `App.GapReachable` reaches such a state from the
initial one through the controller's own handlers.

## Left out

- `geminiService.ts` (`analyzeGallery`) is not part of this model: the SDK call, the API key, the prompt, the response schema and `JSON.parse` are reduced to the `analyze` parameter of `RunAnalysis`, or to the outcome given to `FinishAnalysis`. The MIME type sent with each image (`img.file!.type`) is left out with it.
- `FileReader` and `URL.createObjectURL` are the `reader` parameter, a function of the file. The real `createObjectURL` returns a fresh URL on every call.
- A read whose result is `null` throws inside the reader callback, so `processFile` never settles. The model treats it as "the handler never resumes".
- The camera stream (`getUserMedia`, `startCamera`, track cleanup), drawing the video on the canvas, and `toDataURL` are left out. They are reduced to `elementsMounted`, `hasContext` and the `dataUrl` parameter of `CapturePhoto`.
- `atob` (base64 decoding, section 4 of RFC 4648) is a parameter. It is not re-implemented.
- `CameraCapture.DataUriToBlob`: characters are Unicode scalar values here. `charCodeAt` on a character above U+FFFF, which JavaScript stores as two UTF-16 code units, is not modelled. `atob` only produces characters below 256.
- The `bulkInputRef.current.value = ''` reset (App.tsx:63) is a DOM side effect and is left out. So are the `alert` and `console.error` notices.
- Async scheduling is left out. Each await is a sequential step. React's batching of state updates is not modelled. Both upload handlers write back a copy of the `images` value their closure captured when the event fired (App.tsx:51, taken before the await; App.tsx:68, taken after it but from the same captured value), so an update made by another handler in between could be lost; this is not modelled.
- `App.Controller.BeginAnalysis` and `App.Controller.RunAnalysis` require `!isAnalyzing`. While analysing, only the loading screen is rendered (App.tsx:116), so no button can start a second call.
- `App.BackdropAsWritten`, `App.DetailImageAsWritten`: the view would throw reading `.previewUrl` of `undefined`. These lookups require the index to be inside the slot array instead of modelling that crash; nothing range-checks the model's indices.
- The layout of the result view is left out. This covers hotspot placement at (x%, y%) and the `objectPosition` framing at (focusX%, focusY%) (App.tsx:224-234, App.tsx:283-288).
- `components/LoadingScreen.tsx` (a timer-driven progress animation), `components/ResultDashboard.tsx` and `components/Header.tsx` are left out: they are presentation only.
- Preview URLs are never released, because the code never calls `revokeObjectURL`.
