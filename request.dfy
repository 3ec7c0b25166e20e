/** What the two POST handlers receive and send: the text part of a
    multipart body as Multer parses it, the files it stored on disk, and the
    JSON responses. Also the JavaScript conversions both handlers apply to
    body values. */
module Request {
  import opened Wrappers

  /** A body value after Multer: a key sent once is a string, a key sent more
      than once is an array of its strings. A key not sent is absent from the
      body (`undefined`). */
  datatype BodyField = Text(text: string) | List(items: seq<string>)

  type Body = map<string, BodyField>

  /** `req.body[key]`. */
  function Lookup(body: Body, key: string): Option<BodyField> {
    if key in body then Some(body[key]) else None
  }

  /** A file Multer wrote to its temporary directory. */
  datatype UploadedFile = UploadedFile(path: string, originalName: string, size: nat)

  /** JavaScript truthiness of a body value: `undefined` and the empty string
      are falsy, every array (even an empty one) is truthy. */
  predicate Truthy(v: Option<BodyField>) {
    match v
    case None => false
    case Some(Text(s)) => s != ""
    case Some(List(_)) => true
  }

  /** The categories normalisation both handlers perform: a falsy value gives
      the empty list, an array is taken as it is, a string becomes a list of
      one. */
  function Categories(v: Option<BodyField>): (cats: seq<string>)
    ensures !Truthy(v) ==> cats == []
    ensures v.Some? && v.value.List? ==> cats == v.value.items
    ensures v.Some? && v.value.Text? && v.value.text != "" ==> cats == [v.value.text]
  {
    if !Truthy(v) then []
    else match v.value
      case List(items) => items
      case Text(s) => [s]
  }

  /** `Array.prototype.join(",")`, which `String()` applies to an array. */
  function JoinComma(items: seq<string>): (s: string)
    ensures |items| == 1 ==> s == items[0]
    ensures items == [] ==> s == ""
  {
    if items == [] then ""
    else if |items| == 1 then items[0]
    else items[0] + "," + JoinComma(items[1..])
  }

  /** `String(v)` for a body value: `undefined` becomes "undefined". */
  function JsString(v: Option<BodyField>): (s: string)
    ensures v.None? ==> s == "undefined"
    ensures v.Some? && v.value.Text? ==> s == v.value.text
    ensures v.Some? && v.value.List? ==> s == JoinComma(v.value.items)
  {
    match v
    case None => "undefined"
    case Some(Text(t)) => t
    case Some(List(items)) => JoinComma(items)
  }

  /** The stored record's data. Text fields keep whatever the body held;
      `categories` and `imagePaths` are lists. */
  datatype CenterData = CenterData(
    centerName: Option<BodyField>,
    phone: Option<BodyField>,
    email: Option<BodyField>,
    city: Option<BodyField>,
    state: Option<BodyField>,
    zipCode: Option<BodyField>,
    country: Option<BodyField>,
    latitude: Option<BodyField>,
    longitude: Option<BodyField>,
    categories: seq<string>,
    imagePaths: seq<string>)

  /** A created row: the data with the identifier the database assigned. */
  datatype ServiceCenter = ServiceCenter(id: nat, data: CenterData)

  /** A thrown value: an `Error` with its message, or anything else. */
  datatype Thrown = ErrorObject(message: string) | OtherThrown

  /** The JSON body of a response. */
  datatype Json =
    | Onboarded(message: string, record: ServiceCenter)
    | ErrorJson(error: string, details: Option<string>)
    | Centers(rows: seq<ServiceCenter>)

  datatype ApiResponse = ApiResponse(status: nat, json: Json)

  const OnboardedMessage: string := "Service center onboarded successfully"
  const UploadFailedMessage: string := "Failed to upload images to cloud storage"
  const InternalErrorMessage: string := "Internal Server Error"
  const UnknownErrorDetails: string := "Unknown error"

  /** `error instanceof Error ? error.message : "Unknown error"`. */
  function Details(e: Thrown): (d: string)
    ensures e.ErrorObject? ==> d == e.message
    ensures e.OtherThrown? ==> d == UnknownErrorDetails
  {
    match e
    case ErrorObject(m) => m
    case OtherThrown => UnknownErrorDetails
  }

  /** The set of temporary paths of a list of files. */
  function PathSet(files: seq<UploadedFile>): (ps: set<string>)
    ensures forall i :: 0 <= i < |files| ==> files[i].path in ps
    ensures forall p :: p in ps ==> exists i :: 0 <= i < |files| && files[i].path == p
  {
    set i | 0 <= i < |files| :: files[i].path
  }

  /** The paths of a list of files, in order. */
  function Paths(files: seq<UploadedFile>): (ps: seq<string>)
    ensures |ps| == |files|
    ensures forall i :: 0 <= i < |files| ==> ps[i] == files[i].path
  {
    if files == [] then [] else [files[0].path] + Paths(files[1..])
  }

  /** No two files share a temporary path. */
  predicate DistinctPaths(files: seq<UploadedFile>) {
    forall i, j :: 0 <= i < j < |files| ==> files[i].path != files[j].path
  }
}
