/** controllers/serviceCenterController.ts: `onboardServiceCenter`, the
    handler behind `POST /api/service-center`. */
module Controller {
  import opened Wrappers
  import opened Request
  import opened Backend
  import opened ImageService
  import opened CenterService

  /** The data the controller hands to `createServiceCenter`: the body's text
      fields as they are, latitude and longitude through `String()`, the
      normalised categories and the uploaded URLs. */
  function ControllerData(body: Body, categories: seq<string>, urls: seq<string>): (d: CenterData)
    ensures d.latitude == Some(Text(JsString(Lookup(body, "latitude"))))
    ensures d.longitude == Some(Text(JsString(Lookup(body, "longitude"))))
    ensures d.categories == categories
    ensures d.imagePaths == urls
    ensures d.country == Lookup(body, "country")
  {
    CenterData(
      Lookup(body, "centerName"), Lookup(body, "phone"), Lookup(body, "email"),
      Lookup(body, "city"), Lookup(body, "state"), Lookup(body, "zipCode"),
      Lookup(body, "country"),
      Some(Text(JsString(Lookup(body, "latitude")))),
      Some(Text(JsString(Lookup(body, "longitude")))),
      categories,
      urls)
  }

  /** `(req.files as Express.Multer.File[]) || []`. */
  function RequestFiles(files: Option<seq<UploadedFile>>): seq<UploadedFile> {
    files.GetOr([])
  }

  /** The response for a request whose uploads gave `uploads` and whose
      database write failed with `failure` (or succeeded, giving the row with
      id `nextId`). */
  function ControllerResponse(body: Body, uploads: Option<seq<string>>, failure: Option<Thrown>, nextId: nat): ApiResponse {
    if uploads.None? then ApiResponse(500, ErrorJson(UploadFailedMessage, None))
    else if failure.Some? then ApiResponse(500, ErrorJson(InternalErrorMessage, Some(Details(failure.value))))
    else ApiResponse(201, Onboarded(OnboardedMessage, ServiceCenter(nextId, WithDefaultCountry(ControllerData(body, Categories(Lookup(body, "categories")), uploads.value)))))
  }

  /** Only a 201 response carries a row, and that row holds exactly the
      uploaded URLs and the normalised categories, with the country
      defaulted. */
  lemma ControllerResponseShape(body: Body, uploads: Option<seq<string>>, failure: Option<Thrown>, nextId: nat)
    ensures ControllerResponse(body, uploads, failure, nextId).status == 201 <==> uploads.Some? && failure.None?
    ensures ControllerResponse(body, uploads, failure, nextId).json.Onboarded? ==>
              var rec := ControllerResponse(body, uploads, failure, nextId).json.record;
              && rec.data.imagePaths == uploads.value
              && rec.data.categories == Categories(Lookup(body, "categories"))
              && Truthy(rec.data.country)
              && rec.data.latitude.Some? && rec.data.latitude.value.Text?
  {
  }

  /** `onboardServiceCenter`. The uploads run only when there are files; a
      failed upload answers 500 without touching the database; otherwise the
      row is created and a failed write cleans up and answers 500 with the
      error's details; success answers 201 with the row. On every path every
      temporary file is gone afterwards, and every stored image URL is one
      Cloudinary handed out. */
  method OnboardServiceCenter(body: Body, reqFiles: Option<seq<UploadedFile>>,
                              disk: LocalDisk, cloud: Cloudinary, db: Database, failure: Option<Thrown>)
    returns (res: ApiResponse)
    requires db.Valid() && RowsUseIssuedUrls(db, cloud)
    modifies disk, cloud, db
    ensures db.Valid() && RowsUseIssuedUrls(db, cloud)
    ensures disk.paths == old(disk.paths) - PathSet(RequestFiles(reqFiles))
    ensures res == ControllerResponse(body, UploadAll(cloud.answer, RequestFiles(reqFiles)), failure, old(db.nextId))
    ensures res.status == 201 ==> db.rows == old(db.rows) + [res.json.record]
    ensures res.status != 201 ==> db.rows == old(db.rows)
    ensures cloud.attempts == old(cloud.attempts) + Paths(RequestFiles(reqFiles))
  {
    var files := RequestFiles(reqFiles);
    var categories: seq<string> := [];
    if Truthy(Lookup(body, "categories")) {
      categories := Categories(Lookup(body, "categories"));
    }

    var uploadedImageUrls: seq<string> := [];
    if |files| > 0 {
      var uploads := UploadImagesToCloudinary(Some(files), disk, cloud);
      if uploads.None? {
        res := ApiResponse(500, ErrorJson(UploadFailedMessage, None));
        return;
      }
      uploadedImageUrls := uploads.value;
      CleanupLocalFiles(Some(files), disk);
      CleanedIsDifference(old(disk.paths) - PathSet(files), files);
    } else {
      assert PathSet(files) == {};
    }

    var data := ControllerData(body, categories, uploadedImageUrls);
    var created := CreateServiceCenter(data, db, failure);
    if created.Failure? {
      assert disk.paths == old(disk.paths) - PathSet(files);
      CleanupLocalFiles(Some(files), disk);
      CleanedIsDifference(old(disk.paths) - PathSet(files), files);
      assert disk.paths == old(disk.paths) - PathSet(files) - PathSet(files);
      res := ApiResponse(500, ErrorJson(InternalErrorMessage, Some(Details(created.error))));
      return;
    }
    res := ApiResponse(201, Onboarded(OnboardedMessage, created.value));
  }

  /** `getAllServiceCenters`: 200 with every row, newest first, or 500 when
      the query fails (`failure`). */
  method GetAllServiceCenters(db: Database, failure: Option<Thrown>) returns (res: ApiResponse)
    requires db.Valid()
    ensures failure.None? ==> res == ApiResponse(200, Centers(NewestFirst(db.rows)))
    ensures failure.Some? ==> res == ApiResponse(500, ErrorJson(InternalErrorMessage, None))
  {
    if failure.Some? {
      return ApiResponse(500, ErrorJson(InternalErrorMessage, None));
    }
    res := ApiResponse(200, Centers(NewestFirst(db.rows)));
  }
}
