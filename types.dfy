/** The records shared by the controller and the analysis call. */
module Types {
  import opened Web

  /** One of the nine upload slots. `base64` is `None` both for `null` and
      for the `undefined` that `split(',')[1]` gives when there is no comma. */
  datatype ImageItem = ImageItem(
    id: string,
    file: Option<File>,
    previewUrl: Option<string>,
    base64: Option<string>)

  /** A link from the main photo to one other photo: a hotspot at (x, y) on
      the main photo and a subject centre (focusX, focusY) on the target,
      all percentages. `targetIndex` indexes the list sent to the model. */
  datatype Connection = Connection(
    targetIndex: int,
    x: real,
    y: real,
    relationship: string,
    interpretation: string,
    focusX: real,
    focusY: real)

  /** The model's answer. `mainPhotoIndex` indexes the list sent to it. */
  datatype GalleryAnalysis = GalleryAnalysis(
    mainPhotoIndex: int,
    summary: string,
    connections: seq<Connection>)

  /** Why `analyzeGallery` rejected: the SDK call failed, the response had
      no text, or the text was not JSON. */
  datatype AnalysisError = RequestFailed | EmptyResponse | MalformedResponse
}
