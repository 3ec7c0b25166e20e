/** index.ts: the inline `POST /api/service-center` handler the server
    actually mounts. Unlike the controller, each file's temporary path is
    deleted without an existence check, and only after its upload succeeded;
    the `catch` block deletes whatever request files remain. */
module InlineHandler {
  import opened Wrappers
  import opened Request
  import opened Backend
  import opened ImageService
  import opened CenterService

  /** The outcome of the per-file uploads, and the paths left on disk. */
  datatype UploadRun = UploadRun(urls: Option<seq<string>>, left: set<string>)

  /** The uploads of `files` from a disk holding `paths`, one after the other:
      upload, then `unlinkSync` the path, which throws if it is already gone.
      The run fails if an upload or a delete failed. */
  function InlineRun(answer: string -> Option<string>, paths: set<string>, files: seq<UploadedFile>): UploadRun {
    if files == [] then UploadRun(Some([]), paths)
    else
      var before := InlineRun(answer, paths, files[..|files| - 1]);
      var path := files[|files| - 1].path;
      match answer(path)
      case None => UploadRun(None, before.left)
      case Some(url) =>
        if path !in before.left then UploadRun(None, before.left)
        else UploadRun(if before.urls.Some? then Some(before.urls.value + [url]) else None,
                       before.left - {path})
  }

  lemma InlineRunSnoc(answer: string -> Option<string>, paths: set<string>, files: seq<UploadedFile>, i: nat)
    requires i < |files|
    ensures InlineRun(answer, paths, files[..i + 1]) ==
              var before := InlineRun(answer, paths, files[..i]);
              var path := files[i].path;
              match answer(path)
              case None => UploadRun(None, before.left)
              case Some(url) =>
                if path !in before.left then UploadRun(None, before.left)
                else UploadRun(if before.urls.Some? then Some(before.urls.value + [url]) else None,
                               before.left - {path})
  {
    assert files[..i + 1][..i] == files[..i];
  }

  /** The uploads only ever delete request paths, and a successful run has
      deleted all of them. */
  lemma {:induction false} InlineRunLeft(answer: string -> Option<string>, paths: set<string>, files: seq<UploadedFile>)
    ensures paths - PathSet(files) <= InlineRun(answer, paths, files).left <= paths
    ensures InlineRun(answer, paths, files).urls.Some? ==> InlineRun(answer, paths, files).left == paths - PathSet(files)
  {
    if files != [] {
      var n := |files|;
      var init := files[..n - 1];
      var path := files[n - 1].path;
      InlineRunLeft(answer, paths, init);
      PathSetSnoc(files, n - 1);
      InlineRunSnoc(answer, paths, files, n - 1);
      assert files[..n] == files;
      var before := InlineRun(answer, paths, init);
      var after := InlineRun(answer, paths, files);
      assert PathSet(files) == PathSet(init) + {path};
      if answer(path).Some? && path in before.left {
        assert after.left == before.left - {path};
      } else {
        assert after.left == before.left && after.urls == None;
      }
    }
  }

  /** When the request's paths are distinct and all on disk, which is what
      Multer produces, the inline uploads give what the controller's uploads
      give: one URL per file in order, or failure if any upload failed. */
  lemma {:induction false} InlineRunMatchesUploadAll(answer: string -> Option<string>, paths: set<string>, files: seq<UploadedFile>)
    requires DistinctPaths(files) && PathSet(files) <= paths
    ensures InlineRun(answer, paths, files).urls == UploadAll(answer, files)
  {
    if files != [] {
      var n := |files|;
      var init := files[..n - 1];
      assert DistinctPaths(init) by {
        forall i, j | 0 <= i < j < |init| ensures init[i].path != init[j].path {
          assert init[i] == files[i] && init[j] == files[j];
        }
      }
      PathSetSnoc(files, n - 1);
      assert files[..n] == files;
      InlineRunMatchesUploadAll(answer, paths, init);
      InlineRunLeft(answer, paths, init);
      InlineRunSnoc(answer, paths, files, n - 1);
      UploadAllSnoc(answer, files, n - 1);
      forall i | 0 <= i < |init| ensures init[i].path != files[n - 1].path {
        assert init[i] == files[i];
      }
    }
  }

  /** A run that failed over a prefix of the list fails over the whole list. */
  lemma {:induction false} InlineRunFailureStays(answer: string -> Option<string>, paths: set<string>, files: seq<UploadedFile>, m: nat)
    requires m <= |files| && InlineRun(answer, paths, files[..m]).urls == None
    ensures InlineRun(answer, paths, files).urls == None
    decreases |files|
  {
    var n := |files|;
    assert files[..n] == files;
    if m < n {
      assert files[..n - 1][..m] == files[..m];
      InlineRunFailureStays(answer, paths, files[..n - 1], m);
      InlineRunSnoc(answer, paths, files, n - 1);
    }
  }

  /** Without an existence check, two files with the same temporary path
      make the second delete throw, so the run fails whatever the uploads
      answer. */
  lemma RepeatedPathFailsRun(answer: string -> Option<string>, paths: set<string>, files: seq<UploadedFile>, i: nat, j: nat)
    requires i < j < |files| && files[i].path == files[j].path
    ensures InlineRun(answer, paths, files).urls == None
  {
    var head := files[..j];
    InlineRunSnoc(answer, paths, files, j);
    InlineRunLeft(answer, paths, head);
    assert head[i] == files[i];
    assert files[j].path in PathSet(head);
    assert InlineRun(answer, paths, files[..j + 1]).urls == None;
    InlineRunFailureStays(answer, paths, files, j + 1);
  }

  /** When the request's files are all on disk and every upload succeeds,
      the inline run succeeds exactly when no two files share a path. */
  lemma InlineRunSucceedsIffDistinct(answer: string -> Option<string>, paths: set<string>, files: seq<UploadedFile>)
    requires PathSet(files) <= paths
    requires forall k :: 0 <= k < |files| ==> answer(files[k].path).Some?
    ensures InlineRun(answer, paths, files).urls.Some? <==> DistinctPaths(files)
  {
    if DistinctPaths(files) {
      InlineRunMatchesUploadAll(answer, paths, files);
      UploadAllExact(answer, files);
    } else {
      var i, j :| 0 <= i < j < |files| && files[i].path == files[j].path;
      RepeatedPathFailsRun(answer, paths, files, i, j);
    }
  }

  /** One callback of `files.map`: upload, then delete the path. */
  method InlineUploadOne(file: UploadedFile, disk: LocalDisk, cloud: Cloudinary) returns (url: Option<string>, ok: bool)
    modifies disk, cloud
    ensures url == cloud.answer(file.path)
    ensures ok <==> url.Some? && file.path in old(disk.paths)
    ensures disk.paths == if url.Some? then old(disk.paths) - {file.path} else old(disk.paths)
    ensures cloud.attempts == old(cloud.attempts) + [file.path]
    ensures cloud.issued == old(cloud.issued) + (if url.Some? then {url.value} else {})
  {
    url := cloud.Upload(file.path);
    if url.None? {
      return url, false;
    }
    ok := disk.Unlink(file.path);
  }

  /** The state after the first `i` files of `fs` were attempted, starting from
      a disk holding `paths0`, `attempts0` attempts and `issued0` issued URLs. */
  ghost predicate InlineUpTo(answer: string -> Option<string>, fs: seq<UploadedFile>, i: nat,
                             failed: bool, results: seq<string>,
                             paths0: set<string>, paths: set<string>,
                             attempts0: seq<string>, attempts: seq<string>,
                             issued0: set<string>, issued: set<string>)
  {
    && i <= |fs|
    && (failed <==> InlineRun(answer, paths0, fs[..i]).urls.None?)
    && (!failed ==> results == InlineRun(answer, paths0, fs[..i]).urls.value)
    && paths == InlineRun(answer, paths0, fs[..i]).left
    && attempts == attempts0 + Paths(fs[..i])
    && issued0 <= issued
    && (forall j :: 0 <= j < |results| ==> results[j] in issued)
  }

  /** One iteration of the inline upload loop: attempt file `i`. */
  method InlineUploadStep(fs: seq<UploadedFile>, i: nat, failed: bool, results: seq<string>,
                          disk: LocalDisk, cloud: Cloudinary,
                          ghost paths0: set<string>, ghost attempts0: seq<string>, ghost issued0: set<string>)
    returns (failed': bool, results': seq<string>)
    requires i < |fs|
    requires InlineUpTo(cloud.answer, fs, i, failed, results, paths0, disk.paths,
                        attempts0, cloud.attempts, issued0, cloud.issued)
    modifies disk, cloud
    ensures InlineUpTo(cloud.answer, fs, i + 1, failed', results', paths0, disk.paths,
                       attempts0, cloud.attempts, issued0, cloud.issued)
  {
    var url, ok := InlineUploadOne(fs[i], disk, cloud);
    failed', results' := failed, results;
    if !ok {
      failed' := true;
    } else {
      results' := results + [url.value];
    }
    InlineRunSnoc(cloud.answer, paths0, fs, i);
    PathsSnoc(fs, i);
  }

  /** The uploads over a non-empty list, every file attempted. */
  method InlineUploadEach(fs: seq<UploadedFile>, disk: LocalDisk, cloud: Cloudinary)
    returns (failed: bool, results: seq<string>)
    modifies disk, cloud
    ensures var run := InlineRun(cloud.answer, old(disk.paths), fs);
            && (failed <==> run.urls.None?)
            && (!failed ==> results == run.urls.value)
            && disk.paths == run.left
    ensures cloud.attempts == old(cloud.attempts) + Paths(fs)
    ensures old(cloud.issued) <= cloud.issued
    ensures forall j :: 0 <= j < |results| ==> results[j] in cloud.issued
  {
    results := [];
    failed := false;
    ghost var paths0, attempts0, issued0 := disk.paths, cloud.attempts, cloud.issued;
    assert fs[..0] == [];
    var i := 0;
    while i < |fs|
      invariant i <= |fs|
      invariant InlineUpTo(cloud.answer, fs, i, failed, results, paths0, disk.paths,
                           attempts0, cloud.attempts, issued0, cloud.issued)
    {
      failed, results := InlineUploadStep(fs, i, failed, results, disk, cloud, paths0, attempts0, issued0);
      i := i + 1;
    }
    assert fs[..i] == fs;
  }

  /** The data the inline handler writes: text fields, latitude and
      longitude as the body held them, the country defaulted, the normalised
      categories and the uploaded URLs. */
  function InlineData(body: Body, categories: seq<string>, urls: seq<string>): (d: CenterData)
    ensures d.country == CountryOrDefault(Lookup(body, "country"))
    ensures d.latitude == Lookup(body, "latitude") && d.longitude == Lookup(body, "longitude")
    ensures d.categories == categories && d.imagePaths == urls
  {
    CenterData(
      Lookup(body, "centerName"), Lookup(body, "phone"), Lookup(body, "email"),
      Lookup(body, "city"), Lookup(body, "state"), Lookup(body, "zipCode"),
      CountryOrDefault(Lookup(body, "country")),
      Lookup(body, "latitude"), Lookup(body, "longitude"),
      categories, urls)
  }

  /** The response for uploads that gave `uploads` and a database write that
      failed with `failure` or created the row with id `nextId`. Every error
      answers 500 with only "Internal Server Error". */
  function InlineResponse(body: Body, uploads: Option<seq<string>>, failure: Option<Thrown>, nextId: nat): (res: ApiResponse)
    ensures res.status == 201 <==> uploads.Some? && failure.None?
    ensures res.status != 201 ==> res == ApiResponse(500, ErrorJson(InternalErrorMessage, None))
    ensures res.status == 201 ==>
              res.json == Onboarded(OnboardedMessage, ServiceCenter(nextId, InlineData(body, Categories(Lookup(body, "categories")), uploads.value)))
  {
    if uploads.None? || failure.Some? then ApiResponse(500, ErrorJson(InternalErrorMessage, None))
    else ApiResponse(201, Onboarded(OnboardedMessage, ServiceCenter(nextId, InlineData(body, Categories(Lookup(body, "categories")), uploads.value))))
  }

  /** The handler's `catch`: delete the request files that still exist and
      answer 500. */
  method CatchBlock(reqFiles: Option<seq<UploadedFile>>, disk: LocalDisk) returns (res: ApiResponse)
    modifies disk
    ensures disk.paths == old(disk.paths) - PathSet(reqFiles.GetOr([]))
    ensures res == ApiResponse(500, ErrorJson(InternalErrorMessage, None))
  {
    CleanupLocalFiles(reqFiles, disk);
    if reqFiles.Some? {
      CleanedIsDifference(old(disk.paths), reqFiles.value);
    } else {
      assert PathSet(reqFiles.GetOr([])) == {};
    }
    res := ApiResponse(500, ErrorJson(InternalErrorMessage, None));
  }

  /** The `POST /api/service-center` handler of index.ts. */
  method PostServiceCenter(body: Body, reqFiles: Option<seq<UploadedFile>>,
                           disk: LocalDisk, cloud: Cloudinary, db: Database, failure: Option<Thrown>)
    returns (res: ApiResponse)
    requires db.Valid() && RowsUseIssuedUrls(db, cloud)
    modifies disk, cloud, db
    ensures db.Valid() && RowsUseIssuedUrls(db, cloud)
    ensures disk.paths == old(disk.paths) - PathSet(reqFiles.GetOr([]))
    ensures res == InlineResponse(body, InlineRun(cloud.answer, old(disk.paths), reqFiles.GetOr([])).urls, failure, old(db.nextId))
    ensures res.status == 201 ==> db.rows == old(db.rows) + [res.json.record]
    ensures res.status != 201 ==> db.rows == old(db.rows)
    ensures cloud.attempts == old(cloud.attempts) + Paths(reqFiles.GetOr([]))
  {
    ghost var files := reqFiles.GetOr([]);
    ghost var run := InlineRun(cloud.answer, old(disk.paths), files);
    var categories: seq<string> := [];
    if Truthy(Lookup(body, "categories")) {
      if Lookup(body, "categories").value.List? {
        categories := Lookup(body, "categories").value.items;
      } else {
        categories := [Lookup(body, "categories").value.text];
      }
    }
    assert categories == Categories(Lookup(body, "categories"));

    var uploadedImageUrls: seq<string> := [];
    var failed := false;
    if reqFiles.Some? && |reqFiles.value| > 0 {
      var results;
      failed, results := InlineUploadEach(reqFiles.value, disk, cloud);
      if !failed {
        uploadedImageUrls := uploadedImageUrls + results;
        assert uploadedImageUrls == results;
      }
    } else {
      assert files == [];
      assert PathSet(files) == {};
    }
    InlineRunLeft(cloud.answer, old(disk.paths), files);
    assert disk.paths == run.left;
    assert failed <==> run.urls.None?;
    assert !failed ==> run.urls == Some(uploadedImageUrls);

    if failed {
      assert disk.paths - PathSet(files) == old(disk.paths) - PathSet(files);
      res := CatchBlock(reqFiles, disk);
      return;
    }
    var data := InlineData(body, categories, uploadedImageUrls);
    var created := db.Create(data, failure);
    if created.Failure? {
      assert disk.paths - PathSet(files) == old(disk.paths) - PathSet(files);
      res := CatchBlock(reqFiles, disk);
      return;
    }
    res := ApiResponse(201, Onboarded(OnboardedMessage, created.value));
  }
}
