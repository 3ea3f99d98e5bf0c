/** The drop zone and file picker: which file, if any, reaches
    `onFileSelect`, and the `isDragging` highlight flag. */
module ImageUploader {
  import opened Web
  import opened JsString

  /** `type.startsWith('image/')`. */
  predicate IsImageType(mimeType: string) {
    StartsWith(mimeType, "image/")
  }

  /** The file a drop forwards: the first one, and only if it is an image. */
  function DropSelection(files: seq<File>): (r: Option<File>)
    ensures r.Some? <==> |files| > 0 && IsImageType(files[0].mimeType)
    ensures r.Some? ==> r.value == files[0]
  {
    if |files| > 0 && IsImageType(files[0].mimeType) then Some(files[0]) else None
  }

  /** The file a picker change forwards: the first one, of any type. */
  function PickerSelection(files: Option<seq<File>>): (r: Option<File>)
    ensures r.Some? <==> files.Some? && |files.value| > 0
    ensures r.Some? ==> r.value == files.value[0]
  {
    if files.Some? && |files.value| > 0 then Some(files.value[0]) else None
  }

  /** Files after the first never matter to a drop, images or not. */
  lemma DropIgnoresLaterFiles(first: File, later: seq<File>)
    ensures DropSelection([first] + later) == DropSelection([first])
  {
  }

  /** A drop refuses a non-image first file even when an image follows. */
  lemma DropRefusesDespiteLaterImage(first: File, later: seq<File>)
    requires !IsImageType(first.mimeType)
    ensures DropSelection([first] + later) == None
  {
  }

  /** The picker forwards whatever a drop would, and also the non-images a
      drop refuses. */
  lemma PickerAcceptsWhatDropAccepts(files: seq<File>)
    ensures DropSelection(files).Some? ==> PickerSelection(Some(files)) == DropSelection(files)
    ensures |files| > 0 && !IsImageType(files[0].mimeType) ==>
              DropSelection(files) == None && PickerSelection(Some(files)) == Some(files[0])
  {
  }

  /** The `ImageUploader` component's state and handlers. A handler's
      result is the argument of its one `onFileSelect` call, if any. */
  class Uploader {
    var isDragging: bool

    /** `useState(false)`. */
    constructor ()
      ensures !isDragging
    {
      isDragging := false;
    }

    /** `handleDragOver`. */
    method HandleDragOver()
      modifies this
      ensures isDragging
    {
      isDragging := true;
    }

    /** `handleDragLeave`. */
    method HandleDragLeave()
      modifies this
      ensures !isDragging
    {
      isDragging := false;
    }

    /** `handleDrop`: the highlight ends, and the first file is forwarded
      when it is an image. */
    method HandleDrop(files: seq<File>) returns (selected: Option<File>)
      modifies this
      ensures !isDragging
      ensures selected == DropSelection(files)
    {
      isDragging := false;
      selected := DropSelection(files);
    }

    /** `handleChange`: the first picked file is forwarded, whatever its
      type; the highlight is untouched. */
    method HandleChange(files: Option<seq<File>>) returns (selected: Option<File>)
      ensures selected == PickerSelection(files)
    {
      selected := PickerSelection(files);
    }
  }
}
