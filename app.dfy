/** The application controller: nine upload slots, the analysis flag, the
    current analysis and the selected connection, with the handlers that
    change them and the lookups the result view makes. */
module App {
  import opened Web
  import opened Types
  import opened DataUrl

  /** The number of upload slots. */
  const SlotCount: nat := 9

  // ---------------------------------------------------------------------
  // Slots
  // ---------------------------------------------------------------------

  /** The decimal digits of `n`, as a template literal prints them. */
  function Decimal(n: nat): (s: string)
    ensures |s| >= 1
    ensures n < 10 <==> |s| == 1
    decreases n
  {
    var digit := [(('0' as int) + n % 10) as char];
    if n < 10 then digit else Decimal(n / 10) + digit
  }

  /** Different numbers print differently. */
  lemma {:induction false} DecimalInjective(i: nat, j: nat)
    requires Decimal(i) == Decimal(j)
    ensures i == j
    decreases i
  {
    var si, sj := Decimal(i), Decimal(j);
    assert si[|si| - 1] == sj[|sj| - 1];
    assert i % 10 == j % 10;
    if i >= 10 {
      assert si[..|si| - 1] == Decimal(i / 10);
      assert sj[..|sj| - 1] == Decimal(j / 10);
      DecimalInjective(i / 10, j / 10);
    }
  }

  /** `slot-${i}`. */
  function SlotId(i: nat): string {
    "slot-" + Decimal(i)
  }

  /** Slot ids, the rendering keys, are pairwise distinct. */
  lemma SlotIdsDistinct(i: nat, j: nat)
    requires i != j
    ensures SlotId(i) != SlotId(j)
  {
    if SlotId(i) == SlotId(j) {
      assert Decimal(i) == SlotId(i)[5..];
      assert Decimal(j) == SlotId(j)[5..];
      DecimalInjective(i, j);
    }
  }

  /** `{ id: `slot-${i}`, file: null, previewUrl: null, base64: null }`. */
  function EmptySlot(i: nat): (r: ImageItem)
    ensures IsEmpty(r) && !Populated(r) && r.id == SlotId(i)
  {
    ImageItem(SlotId(i), None, None, None)
  }

  /** A slot holding no file, no preview and no payload. */
  predicate IsEmpty(item: ImageItem) {
    item.file.None? && item.previewUrl.None? && item.base64.None?
  }

  /** `!!img.base64`: the slot has a payload, and it is not the empty
      string (which is falsy). */
  predicate Populated(item: ImageItem) {
    item.base64.Some? && item.base64.value != ""
  }

  /** What every handler keeps: nine slots, slot `i` has id `slot-i`, and a
      slot with a payload also has its file and its preview. */
  predicate WellFormed(images: seq<ImageItem>) {
    && |images| == SlotCount
    && (forall i :: 0 <= i < |images| ==> images[i].id == SlotId(i))
    && (forall i :: 0 <= i < |images| && images[i].base64.Some? ==>
          images[i].file.Some? && images[i].previewUrl.Some?)
  }

  /** `Array.from({ length: 9 }, (_, i) => …)`: the initial slot array,
      which `clearAll` rebuilds. */
  function InitialSlots(): (r: seq<ImageItem>)
    ensures WellFormed(r)
    ensures forall i :: 0 <= i < |r| ==> IsEmpty(r[i])
    ensures Uploaded(r) == []
  {
    var r := seq(SlotCount, i requires 0 <= i => EmptySlot(i));
    NothingUploaded(r);
    r
  }

  // ---------------------------------------------------------------------
  // The list sent to the model
  // ---------------------------------------------------------------------

  /** `images.filter(img => img.base64)`. */
  function Uploaded(images: seq<ImageItem>): (r: seq<ImageItem>)
    ensures |r| <= |images|
    ensures forall k :: 0 <= k < |r| ==> Populated(r[k])
  {
    if images == [] then []
    else
      var n := |images| - 1;
      Uploaded(images[..n]) + (if Populated(images[n]) then [images[n]] else [])
  }

  /** The slot each entry of `Uploaded(images)` came from: the populated
      slots, in slot order, and only those. */
  function PopulatedSlots(images: seq<ImageItem>): (r: seq<int>)
    ensures |r| == |Uploaded(images)|
    ensures forall k :: 0 <= k < |r| ==>
              0 <= r[k] < |images| && Uploaded(images)[k] == images[r[k]]
    ensures forall k, l :: 0 <= k < l < |r| ==> r[k] < r[l]
    ensures forall i :: i in r <==> 0 <= i < |images| && Populated(images[i])
  {
    if images == [] then []
    else
      var n := |images| - 1;
      var front := images[..n];
      var p := PopulatedSlots(front);
      assert forall i :: 0 <= i < n ==> front[i] == images[i];
      if Populated(images[n]) then
        assert Uploaded(images) == Uploaded(front) + [images[n]];
        p + [n]
      else
        assert Uploaded(images) == Uploaded(front) + [];
        p
  }

  /** No slot populated, nothing sent. */
  lemma NothingUploaded(images: seq<ImageItem>)
    requires forall i :: 0 <= i < |images| ==> !Populated(images[i])
    ensures Uploaded(images) == []
  {
    var p := PopulatedSlots(images);
    assert forall k :: 0 <= k < |p| ==> p[k] in p;
  }

  /** `images.some(i => i.base64)`: whether the clear-all button shows. */
  function HasUploads(images: seq<ImageItem>): (b: bool)
    ensures b <==> Uploaded(images) != []
  {
    var p := PopulatedSlots(images);
    var b := exists i :: 0 <= i < |images| && Populated(images[i]);
    assert b ==> p != [] by {
      if b {
        var i :| 0 <= i < |images| && Populated(images[i]);
        assert i in p;
      }
    }
    assert p != [] ==> b by {
      if p != [] {
        assert p[0] in p;
      }
    }
    b
  }

  /** The guard of `runAnalysis` (and the `disabled` test of its button):
      at least two entries in the list to send. */
  predicate CanAnalyze(images: seq<ImageItem>) {
    |Uploaded(images)| >= 2
  }

  /** The guard passes exactly when two distinct slots are populated. */
  lemma GuardNeedsTwoSlots(images: seq<ImageItem>)
    ensures CanAnalyze(images) <==>
      exists i, j :: 0 <= i < j < |images| && Populated(images[i]) && Populated(images[j])
  {
    var p := PopulatedSlots(images);
    if |p| >= 2 {
      assert p[0] in p && p[1] in p;
      assert 0 <= p[0] < p[1] < |images| && Populated(images[p[0]]) && Populated(images[p[1]]);
    } else {
      forall i, j | 0 <= i < j < |images| && Populated(images[i])
        ensures !Populated(images[j])
      {
        AtMostOne(p, i, j);
      }
    }
  }

  /** A sequence of at most one element holds at most one value. */
  lemma AtMostOne(p: seq<int>, i: int, j: int)
    requires |p| < 2 && i in p && i != j
    ensures j !in p
  {
  }

  /** When the populated slots are exactly `0..k-1`, the list sent to the
      model is those slots, so a position in it is the same slot index. */
  lemma {:induction false} UploadedPrefix(images: seq<ImageItem>, k: nat)
    requires k <= |images|
    requires forall j :: 0 <= j < |images| ==> (Populated(images[j]) <==> j < k)
    ensures Uploaded(images) == images[..k]
    ensures forall j :: 0 <= j < k ==> Uploaded(images)[j] == images[j]
  {
    if images != [] {
      var n := |images| - 1;
      var front := images[..n];
      assert forall j :: 0 <= j < n ==> front[j] == images[j];
      if n < k {
        assert k == |images|;
        UploadedPrefix(front, n);
        assert images[..k] == front + [images[n]];
      } else {
        UploadedPrefix(front, k);
        assert front[..k] == images[..k];
      }
    }
  }

  // ---------------------------------------------------------------------
  // Ingestion and the upload handlers' effect on the slots
  // ---------------------------------------------------------------------

  /** What `FileReader.readAsDataURL` and `URL.createObjectURL` give for a
      file: the data URL and the preview URL. */
  datatype Reading = Reading(dataUrl: string, previewUrl: string)

  /** `processFile` then `{ ...slot, file, previewUrl, base64 }`. */
  function Ingest(slot: ImageItem, file: File, reading: Reading): ImageItem {
    slot.(file := Some(file), previewUrl := Some(reading.previewUrl),
          base64 := Payload(reading.dataUrl))
  }

  /** Ingesting keeps the slot's id, sets file, preview and payload
      together, and the payload is what follows the comma of the data URL;
      the slot then counts as uploaded exactly when that is non-empty. */
  lemma IngestDataUrl(slot: ImageItem, file: File, header: string, data: string, preview: string)
    requires ',' !in header && ',' !in data
    ensures var r := Ingest(slot, file, Reading(header + [','] + data, preview));
      && r.id == slot.id
      && r.file == Some(file)
      && r.previewUrl == Some(preview)
      && r.base64 == Some(data)
      && (Populated(r) <==> data != "")
  {
    assert header + [','] + data == header + [','] + data + [];
    PayloadBetweenCommas(header, data, []);
  }

  /** `Array.from(files).slice(0, 9)`. */
  function TakeSlots(files: seq<File>): (r: seq<File>)
    ensures |r| == if |files| <= SlotCount then |files| else SlotCount
    ensures r == files[..|r|]
  {
    if |files| <= SlotCount then files else files[..SlotCount]
  }

  /** Every file's read delivers a result. */
  predicate AllRead(files: seq<File>, reader: File -> Option<Reading>) {
    forall k :: 0 <= k < |files| ==> reader(files[k]).Some?
  }

  /** The slots after the batch loop has ingested `files` in order into
      slots `0..|files|-1`. */
  function FillInOrder(images: seq<ImageItem>, files: seq<File>, reader: File -> Option<Reading>): (r: seq<ImageItem>)
    requires |files| <= |images| && AllRead(files, reader)
    ensures |r| == |images|
    ensures forall i :: 0 <= i < |files| ==>
              r[i] == Ingest(images[i], files[i], reader(files[i]).value)
    ensures forall i :: |files| <= i < |images| ==> r[i] == images[i]
    decreases |files|
  {
    if files == [] then images
    else
      var n := |files| - 1;
      var before := FillInOrder(images, files[..n], reader);
      before[n := Ingest(before[n], files[n], reader(files[n]).value)]
  }

  /** One more turn of the batch loop ingests the next file. */
  lemma FillStep(images: seq<ImageItem>, files: seq<File>, reader: File -> Option<Reading>, i: nat)
    requires i < |files| <= |images|
    requires AllRead(files[..i], reader) && reader(files[i]).Some?
    ensures AllRead(files[..i + 1], reader)
    ensures FillInOrder(images, files[..i + 1], reader) ==
      FillInOrder(images, files[..i], reader)[i := Ingest(FillInOrder(images, files[..i], reader)[i], files[i], reader(files[i]).value)]
  {
    var fs := files[..i + 1];
    assert fs[..i] == files[..i];
    forall k | 0 <= k < |fs|
      ensures reader(fs[k]).Some?
    {
      if k < i {
        assert fs[k] == files[..i][k];
      }
    }
  }

  /** The batch keeps the slot invariant. */
  lemma FillKeepsWellFormed(images: seq<ImageItem>, files: seq<File>, reader: File -> Option<Reading>)
    requires WellFormed(images) && |files| <= |images| && AllRead(files, reader)
    ensures WellFormed(FillInOrder(images, files, reader))
  {
  }

  /** The loop of `handleBatchUpload` over a copy of the slots: file `i`
      is read, then written into slot `i` keeping its id. `None` when some
      read never delivers, so that the loop never finishes. */
  method IngestInOrder(images: seq<ImageItem>, files: seq<File>, reader: File -> Option<Reading>)
    returns (updated: Option<seq<ImageItem>>)
    requires |files| <= |images|
    ensures updated.Some? <==> AllRead(files, reader)
    ensures updated.Some? ==> updated.value == FillInOrder(images, files, reader)
  {
    var slots := images;
    for i := 0 to |files|
      invariant AllRead(files[..i], reader)
      invariant slots == FillInOrder(images, files[..i], reader)
    {
      var reading := reader(files[i]);
      if reading.None? {
        return None;
      }
      FillStep(images, files, reader, i);
      slots := slots[i := Ingest(slots[i], files[i], reading.value)];
    }
    assert files[..|files|] == files;
    return Some(slots);
  }

  /** A batch into cleared slots whose payloads are all non-empty leaves
      exactly slots `0..k-1` populated, so the list sent to the model is
      slot for slot the start of the array. */
  lemma BatchIntoClearedSlots(files: seq<File>, reader: File -> Option<Reading>)
    requires AllRead(TakeSlots(files), reader)
    requires forall k :: 0 <= k < |TakeSlots(files)| ==>
               Payload(reader(TakeSlots(files)[k]).value.dataUrl).Some? &&
               Payload(reader(TakeSlots(files)[k]).value.dataUrl).value != ""
    ensures var filled := FillInOrder(InitialSlots(), TakeSlots(files), reader);
      Uploaded(filled) == filled[..|TakeSlots(files)|]
  {
    var fs := TakeSlots(files);
    var filled := FillInOrder(InitialSlots(), fs, reader);
    forall j | 0 <= j < |filled|
      ensures Populated(filled[j]) <==> j < |fs|
    {
      if j >= |fs| {
        assert filled[j] == InitialSlots()[j];
      }
    }
    UploadedPrefix(filled, |fs|);
  }

  /** Clearing slot `i` takes exactly that slot out of the list sent. */
  lemma ClearSlotUnpopulates(images: seq<ImageItem>, i: nat)
    requires i < |images|
    ensures forall s :: s in PopulatedSlots(images[i := EmptySlot(i)]) <==>
                        s in PopulatedSlots(images) && s != i
  {
  }

  // ---------------------------------------------------------------------
  // The result view's lookups
  // ---------------------------------------------------------------------

  /** `images[analysis.mainPhotoIndex].previewUrl`: the backdrop as the
      view looks it up, in the full slot array. */
  function BackdropAsWritten(images: seq<ImageItem>, a: GalleryAnalysis): Option<string>
    requires 0 <= a.mainPhotoIndex < |images|
  {
    images[a.mainPhotoIndex].previewUrl
  }

  /** `images[selectedConn.targetIndex].previewUrl`: the detail image as
      the view looks it up, in the full slot array. */
  function DetailImageAsWritten(images: seq<ImageItem>, c: Connection): Option<string>
    requires 0 <= c.targetIndex < |images|
  {
    images[c.targetIndex].previewUrl
  }

  /** The backdrop the model chose: position `mainPhotoIndex` of the list
      it was sent. It is the preview of a populated slot. */
  function Backdrop(images: seq<ImageItem>, a: GalleryAnalysis): (r: Option<string>)
    requires WellFormed(images)
    requires 0 <= a.mainPhotoIndex < |Uploaded(images)|
    ensures r == images[PopulatedSlots(images)[a.mainPhotoIndex]].previewUrl
    ensures r.Some?
  {
    Uploaded(images)[a.mainPhotoIndex].previewUrl
  }

  /** The image of connection `c`: position `targetIndex` of the list sent
      to the model. It is the preview of a populated slot. */
  function DetailImage(images: seq<ImageItem>, c: Connection): (r: Option<string>)
    requires WellFormed(images)
    requires 0 <= c.targetIndex < |Uploaded(images)|
    ensures r == images[PopulatedSlots(images)[c.targetIndex]].previewUrl
    ensures r.Some?
  {
    Uploaded(images)[c.targetIndex].previewUrl
  }

  /** When the populated slots are a prefix, the view's full-array lookups
      show what the model chose. */
  lemma LookupsAgreeOnPrefix(images: seq<ImageItem>, k: nat, a: GalleryAnalysis, c: Connection)
    requires WellFormed(images) && k <= |images|
    requires forall j :: 0 <= j < |images| ==> (Populated(images[j]) <==> j < k)
    requires 0 <= a.mainPhotoIndex < k && 0 <= c.targetIndex < k
    ensures |Uploaded(images)| == k
    ensures BackdropAsWritten(images, a) == Backdrop(images, a)
    ensures DetailImageAsWritten(images, c) == DetailImage(images, c)
  {
    UploadedPrefix(images, k);
  }

  /** Two photos put into slots 1 and 2 (slot 0 left empty). */
  function GapState(): (r: seq<ImageItem>)
    ensures WellFormed(r)
    ensures Populated(r[1]) && Populated(r[2])
    ensures forall i :: 0 <= i < |r| && i != 1 && i != 2 ==> !Populated(r[i])
    ensures r[0].previewUrl == None
    ensures r[1].previewUrl == Some("blob:1") && r[2].previewUrl == Some("blob:2")
  {
    var f := File("a.png", "image/png", []);
    InitialSlots()
      [1 := ImageItem(SlotId(1), Some(f), Some("blob:1"), Some("AAAA"))]
      [2 := ImageItem(SlotId(2), Some(f), Some("blob:2"), Some("BBBB"))]
  }

  /** In `GapState` the list sent starts with slot 1, then slot 2. */
  lemma GapStateUploaded()
    ensures |PopulatedSlots(GapState())| >= 2
    ensures PopulatedSlots(GapState())[0] == 1 && PopulatedSlots(GapState())[1] == 2
  {
    var s := GapState();
    var p := PopulatedSlots(s);
    assert 1 in p && 2 in p;
    OneThenTwo(p);
  }

  /** An increasing sequence whose values are 1 and 2 starts with 1, 2. */
  lemma OneThenTwo(p: seq<int>)
    requires forall k, l :: 0 <= k < l < |p| ==> p[k] < p[l]
    requires forall x :: x in p <==> x == 1 || x == 2
    ensures |p| >= 2 && p[0] == 1 && p[1] == 2
  {
    assert 1 in p && 2 in p;
    var k :| 0 <= k < |p| && p[k] == 1;
    var l :| 0 <= l < |p| && p[l] == 2;
    assert p[0] in p;
    assert p[0] <= p[k];
    assert l >= 1;
    assert p[1] in p;
    assert p[1] <= p[l];
  }

  /** With slot 0 empty, a model answer `mainPhotoIndex = 0` means the
      photo in slot 1, but the view shows slot 0, which has no preview. */
  lemma MisplacedBackdrop()
    ensures var a := GalleryAnalysis(0, "", []);
      && 0 <= a.mainPhotoIndex < |Uploaded(GapState())|
      && Backdrop(GapState(), a) == Some("blob:1")
      && BackdropAsWritten(GapState(), a) == None
  {
    GapStateUploaded();
  }

  /** With slot 0 empty, a connection with `targetIndex = 1` means the
      photo in slot 2, but the detail view shows slot 1. */
  lemma MisplacedDetailImage()
    ensures var c := Connection(1, 50.0, 50.0, "", "", 50.0, 50.0);
      && 0 <= c.targetIndex < |Uploaded(GapState())|
      && DetailImage(GapState(), c) == Some("blob:2")
      && DetailImageAsWritten(GapState(), c) == Some("blob:1")
  {
    GapStateUploaded();
  }

  // ---------------------------------------------------------------------
  // The controller
  // ---------------------------------------------------------------------

  /** What the page renders: the loading screen, the upload grid, or the
      annotated post. */
  datatype ViewMode = Loading | Composing | Reviewing

  /** The `App` component's state and handlers. */
  class Controller {
    var images: seq<ImageItem>
    var isAnalyzing: bool
    var analysis: Option<GalleryAnalysis>
    var selectedConn: Option<Connection>

    ghost predicate Valid()
      reads this
    {
      WellFormed(images)
    }

    /** The initial `useState` values. */
    constructor ()
      ensures Valid()
      ensures images == InitialSlots()
      ensures !isAnalyzing && analysis == None && selectedConn == None
    {
      images := InitialSlots();
      isAnalyzing := false;
      analysis := None;
      selectedConn := None;
    }

    /** The screen rendered: loading while analysing, otherwise the post
      when an analysis is present, otherwise the upload grid. */
    function Mode(): (m: ViewMode)
      reads this
      ensures m == Loading <==> isAnalyzing
      ensures m == Reviewing <==> !isAnalyzing && analysis.Some?
    {
      if isAnalyzing then Loading
      else if analysis.Some? then Reviewing
      else Composing
    }

    /** `handleBatchUpload`: no file list, no change; otherwise the first
      nine files are read one after another and put into slots 0, 1, …
      in order. A read that delivers no result throws inside the reader
      callback, so the handler never resumes and the slots stay as they
      were. */
    method HandleBatchUpload(files: Option<seq<File>>, reader: File -> Option<Reading>)
      requires Valid()
      modifies this
      ensures Valid()
      ensures files.None? ==> images == old(images)
      ensures files.Some? ==>
        images == if AllRead(TakeSlots(files.value), reader)
                  then FillInOrder(old(images), TakeSlots(files.value), reader)
                  else old(images)
      ensures isAnalyzing == old(isAnalyzing) && analysis == old(analysis)
      ensures selectedConn == old(selectedConn)
    {
      if files.None? {
        return;
      }
      var fileList := TakeSlots(files.value);
      ghost var before := images;
      var updated := IngestInOrder(images, fileList, reader);
      if updated.Some? {
        FillKeepsWellFormed(before, fileList, reader);
        images := updated.value;
        assert images == FillInOrder(before, fileList, reader);
      } else {
        assert !AllRead(fileList, reader);
      }
    }

    /** `handleSingleFileChange`: slot `index` gets the file, its preview
      and its payload together and keeps its id; nothing else changes. */
    method HandleSingleFileChange(index: nat, file: File, reader: File -> Option<Reading>)
      requires Valid() && index < SlotCount
      modifies this
      ensures Valid()
      ensures images == if reader(file).Some?
                        then old(images)[index := Ingest(old(images)[index], file, reader(file).value)]
                        else old(images)
      ensures isAnalyzing == old(isAnalyzing) && analysis == old(analysis)
      ensures selectedConn == old(selectedConn)
    {
      var reading := reader(file);
      if reading.None? {
        return;
      }
      images := images[index := Ingest(images[index], file, reading.value)];
    }

    /** The slot input's `onChange`: only its first file, if there is one,
      goes to `handleSingleFileChange`. */
    method HandleSlotInput(index: nat, files: Option<seq<File>>, reader: File -> Option<Reading>)
      requires Valid() && index < SlotCount
      modifies this
      ensures Valid()
      ensures images == if files.Some? && |files.value| > 0 && reader(files.value[0]).Some?
                        then old(images)[index := Ingest(old(images)[index], files.value[0], reader(files.value[0]).value)]
                        else old(images)
      ensures isAnalyzing == old(isAnalyzing) && analysis == old(analysis)
      ensures selectedConn == old(selectedConn)
    {
      if files.Some? && |files.value| > 0 {
        HandleSingleFileChange(index, files.value[0], reader);
      }
    }

    /** `clearSlot`: slot `index` becomes empty with id `slot-index`; every
      other slot is unchanged. */
    method ClearSlot(index: nat)
      requires Valid() && index < SlotCount
      modifies this
      ensures Valid()
      ensures images == old(images)[index := EmptySlot(index)]
      ensures IsEmpty(images[index]) && !Populated(images[index])
      ensures isAnalyzing == old(isAnalyzing) && analysis == old(analysis)
      ensures selectedConn == old(selectedConn)
    {
      images := images[index := EmptySlot(index)];
    }

    /** `clearAll`: the nine empty slots of the initial state, whatever the
      slots held. */
    method ClearAll()
      requires Valid()
      modifies this
      ensures Valid()
      ensures images == InitialSlots()
      ensures isAnalyzing == old(isAnalyzing) && analysis == old(analysis)
      ensures selectedConn == old(selectedConn)
    {
      images := InitialSlots();
    }

    /** The first half of `runAnalysis`: with fewer than two populated slots
      nothing changes and the model is not called (`None`); otherwise
      `isAnalyzing` is set and the populated slots, in slot order, are the
      request. The button exists only while no analysis is running. */
    method BeginAnalysis() returns (request: Option<seq<ImageItem>>)
      requires Valid() && !isAnalyzing
      modifies this
      ensures Valid()
      ensures request.None? <==> !CanAnalyze(old(images))
      ensures request.Some? ==> request.value == Uploaded(old(images))
      ensures isAnalyzing == request.Some?
      ensures Mode() == (if request.Some? then Loading else old(Mode()))
      ensures images == old(images) && analysis == old(analysis)
      ensures selectedConn == old(selectedConn)
    {
      var uploaded := Uploaded(images);
      if |uploaded| < 2 {
        return None;
      }
      isAnalyzing := true;
      request := Some(uploaded);
    }

    /** The second half of `runAnalysis`: a result becomes the analysis, a
      failure leaves the previous one; either way `isAnalyzing` ends. */
    method FinishAnalysis(outcome: Result<GalleryAnalysis, AnalysisError>)
      requires Valid() && isAnalyzing
      modifies this
      ensures Valid()
      ensures !isAnalyzing
      ensures analysis == if outcome.Success? then Some(outcome.value) else old(analysis)
      ensures Mode() == (if outcome.Success? || old(analysis).Some? then Reviewing else Composing)
      ensures images == old(images) && selectedConn == old(selectedConn)
    {
      if outcome.Success? {
        analysis := Some(outcome.value);
      }
      isAnalyzing := false;
    }

    /** `runAnalysis` as a whole, with `analyze` standing for the call to
      the model: it is called on the populated slots only when there are
      at least two, and `isAnalyzing` is false afterwards. */
    method RunAnalysis(analyze: seq<ImageItem> -> Result<GalleryAnalysis, AnalysisError>)
      returns (request: Option<seq<ImageItem>>)
      requires Valid() && !isAnalyzing
      modifies this
      ensures Valid()
      ensures request.None? <==> !CanAnalyze(old(images))
      ensures request.Some? ==> request.value == Uploaded(old(images))
      ensures !isAnalyzing
      ensures old(Mode()) == Composing ==>
                (Mode() == Reviewing <==> request.Some? && analyze(request.value).Success?)
      ensures old(Mode()) == Composing && request.None? ==> Mode() == Composing
      ensures analysis == if request.Some? && analyze(request.value).Success?
                          then Some(analyze(request.value).value)
                          else old(analysis)
      ensures images == old(images) && selectedConn == old(selectedConn)
    {
      request := BeginAnalysis();
      if request.Some? {
        FinishAnalysis(analyze(request.value));
      }
    }

    /** `reset`: back to the upload grid; the slots are kept. */
    method Reset()
      requires Valid()
      modifies this
      ensures Valid()
      ensures analysis == None && selectedConn == None
      ensures !isAnalyzing ==> Mode() == Composing
      ensures images == old(images) && isAnalyzing == old(isAnalyzing)
    {
      analysis := None;
      selectedConn := None;
    }

    /** A hotspot's `onClick`: its connection becomes the selection at once,
      replacing any previous one. Hotspots exist only for the connections
      of the current analysis. */
    method ActivateHotspot(k: nat)
      requires Valid() && analysis.Some? && k < |analysis.value.connections|
      modifies this
      ensures Valid()
      ensures selectedConn == Some(old(analysis).value.connections[k])
      ensures images == old(images) && isAnalyzing == old(isAnalyzing)
      ensures analysis == old(analysis)
    {
      selectedConn := Some(analysis.value.connections[k]);
    }

    /** Either close button of the detail drawer: no selection. */
    method Dismiss()
      requires Valid()
      modifies this
      ensures Valid()
      ensures selectedConn == None
      ensures images == old(images) && isAnalyzing == old(isAnalyzing)
      ensures analysis == old(analysis)
    {
      selectedConn := None;
    }
  }

  /** The gap is reachable: from the initial state, single-slot uploads
      into slots 1 and 2 leave slot 0 empty, and then the view's lookups
      for `mainPhotoIndex = 0` and `targetIndex = 1` show other photos
      than the ones the model chose. */
  method GapReachable(f: File, g: File, reader: File -> Option<Reading>, r1: Reading, r2: Reading)
    returns (backdrop: Option<string>, shownBackdrop: Option<string>,
             detail: Option<string>, shownDetail: Option<string>)
    requires reader(f) == Some(r1) && reader(g) == Some(r2)
    requires Payload(r1.dataUrl).Some? && Payload(r1.dataUrl).value != ""
    requires Payload(r2.dataUrl).Some? && Payload(r2.dataUrl).value != ""
    ensures backdrop == Some(r1.previewUrl) && shownBackdrop == None
    ensures detail == Some(r2.previewUrl) && shownDetail == Some(r1.previewUrl)
  {
    var c := new Controller();
    c.HandleSingleFileChange(1, f, reader);
    c.HandleSingleFileChange(2, g, reader);
    var images := c.images;
    forall i | 0 <= i < |images|
      ensures Populated(images[i]) <==> i == 1 || i == 2
    {
      if i != 1 && i != 2 {
        assert images[i] == InitialSlots()[i];
      }
    }
    var p := PopulatedSlots(images);
    OneThenTwo(p);
    var a := GalleryAnalysis(0, "", []);
    var conn := Connection(1, 50.0, 50.0, "", "", 50.0, 50.0);
    backdrop := Backdrop(images, a);
    shownBackdrop := BackdropAsWritten(images, a);
    detail := DetailImage(images, conn);
    shownDetail := DetailImageAsWritten(images, conn);
  }
}
