/** services/imageService.ts: uploading the request's temporary files to
    Cloudinary and deleting them from the local disk. The uploads run as one
    attempt per file, in list order, each settling before the next starts;
    `Promise.all` then fails if any attempt failed. */
module ImageService {
  import opened Wrappers
  import opened Request
  import opened Backend

  /** What `Promise.all` over the per-file uploads yields: every URL in file
      order, or `None` as soon as one upload is rejected. */
  function UploadAll(answer: string -> Option<string>, files: seq<UploadedFile>): Option<seq<string>> {
    if files == [] then Some([])
    else
      var init := UploadAll(answer, files[..|files| - 1]);
      var last := answer(files[|files| - 1].path);
      if init.Some? && last.Some? then Some(init.value + [last.value]) else None
  }

  /** The uploads succeed exactly when every file's upload succeeds, and then
      the result holds one URL per file, in file order. */
  lemma {:induction false} UploadAllExact(answer: string -> Option<string>, files: seq<UploadedFile>)
    ensures UploadAll(answer, files).Some? <==> forall i :: 0 <= i < |files| ==> answer(files[i].path).Some?
    ensures UploadAll(answer, files).Some? ==>
              && |UploadAll(answer, files).value| == |files|
              && forall i :: 0 <= i < |files| ==> UploadAll(answer, files).value[i] == answer(files[i].path).value
  {
    if files != [] {
      var n := |files|;
      var init := files[..n - 1];
      UploadAllExact(answer, init);
      assert forall i :: 0 <= i < n - 1 ==> init[i] == files[i];
    }
  }

  /** A single failed upload fails the whole call: there is no partial list. */
  lemma OneFailureFailsAll(answer: string -> Option<string>, files: seq<UploadedFile>, i: nat)
    requires i < |files| && answer(files[i].path).None?
    ensures UploadAll(answer, files) == None
  {
    UploadAllExact(answer, files);
  }

  /** `PathSet(files[..i + 1])` grows by the path of file `i`. */
  lemma PathSetSnoc(files: seq<UploadedFile>, i: nat)
    requires i < |files|
    ensures PathSet(files[..i + 1]) == PathSet(files[..i]) + {files[i].path}
  {
    assert files[..i + 1] == files[..i] + [files[i]];
    var a, b := files[..i + 1], files[..i];
    forall p | p in PathSet(a) ensures p in PathSet(b) + {files[i].path} {
      var k :| 0 <= k < |a| && a[k].path == p;
      if k < i {
        assert a[k] == b[k];
      }
    }
    forall p | p in PathSet(b) ensures p in PathSet(a) {
      var k :| 0 <= k < |b| && b[k].path == p;
      assert a[k] == b[k];
    }
  }

  lemma UploadAllSnoc(answer: string -> Option<string>, files: seq<UploadedFile>, i: nat)
    requires i < |files|
    ensures UploadAll(answer, files[..i + 1]) ==
              var init := UploadAll(answer, files[..i]);
              var last := answer(files[i].path);
              if init.Some? && last.Some? then Some(init.value + [last.value]) else None
  {
    assert files[..i + 1][..i] == files[..i];
  }

  lemma PathsSnoc(files: seq<UploadedFile>, i: nat)
    requires i < |files|
    ensures Paths(files[..i + 1]) == Paths(files[..i]) + [files[i].path]
  {
  }

  /** The disk after deleting, one after the other and only where they still
      exist, the paths of `files`. */
  function Cleaned(paths: set<string>, files: seq<UploadedFile>): set<string> {
    if files == [] then paths
    else Cleaned(paths, files[..|files| - 1]) - {files[|files| - 1].path}
  }

  /** Cleaning removes exactly the given paths and nothing else. */
  lemma {:induction false} CleanedIsDifference(paths: set<string>, files: seq<UploadedFile>)
    ensures Cleaned(paths, files) == paths - PathSet(files)
  {
    if files != [] {
      var n := |files|;
      CleanedIsDifference(paths, files[..n - 1]);
      PathSetSnoc(files, n - 1);
      assert files[..n] == files;
    }
  }

  /** Cleaning up twice leaves the disk as cleaning up once does. */
  lemma CleanupIdempotent(paths: set<string>, files: seq<UploadedFile>)
    ensures Cleaned(Cleaned(paths, files), files) == Cleaned(paths, files)
  {
    CleanedIsDifference(paths, files);
    CleanedIsDifference(Cleaned(paths, files), files);
  }

  /** The callback `uploadImagesToCloudinary` maps over the files: upload the
      file, then delete its temporary path if it still exists, on success and
      on failure alike. */
  method UploadOne(file: UploadedFile, disk: LocalDisk, cloud: Cloudinary) returns (url: Option<string>)
    modifies disk, cloud
    ensures url == cloud.answer(file.path)
    ensures cloud.attempts == old(cloud.attempts) + [file.path]
    ensures cloud.issued == old(cloud.issued) + (if url.Some? then {url.value} else {})
    ensures disk.paths == old(disk.paths) - {file.path}
  {
    url := cloud.Upload(file.path);
    var present := disk.Exists(file.path);
    if present {
      var _ := disk.Unlink(file.path);
    }
  }

  /** `uploadImagesToCloudinary`. A missing or empty list gives the empty list
      without any upload. Otherwise every file is uploaded and its temporary
      path is deleted if it still exists, whether the upload succeeded or
      not; the result is the URL list, or `None` when an upload failed. */
  method UploadImagesToCloudinary(files: Option<seq<UploadedFile>>, disk: LocalDisk, cloud: Cloudinary)
    returns (urls: Option<seq<string>>)
    modifies disk, cloud
    ensures files.None? || files.value == [] ==>
              && urls == Some([])
              && disk.paths == old(disk.paths)
              && cloud.attempts == old(cloud.attempts)
              && cloud.issued == old(cloud.issued)
    ensures files.Some? ==>
              && urls == UploadAll(cloud.answer, files.value)
              && cloud.attempts == old(cloud.attempts) + Paths(files.value)
              && disk.paths == old(disk.paths) - PathSet(files.value)
    ensures old(cloud.issued) <= cloud.issued
    ensures urls.Some? ==> forall j :: 0 <= j < |urls.value| ==> urls.value[j] in cloud.issued
  {
    if files.None? || |files.value| == 0 {
      return Some([]);
    }
    var failed, results := UploadEach(files.value, disk, cloud);
    urls := if failed then None else Some(results);
  }

  /** The state after the first `i` files of `fs` were attempted, starting from
      a disk holding `paths0`, `attempts0` attempts and `issued0` issued URLs. */
  ghost predicate UploadedUpTo(answer: string -> Option<string>, fs: seq<UploadedFile>, i: nat,
                               failed: bool, results: seq<string>,
                               paths0: set<string>, paths: set<string>,
                               attempts0: seq<string>, attempts: seq<string>,
                               issued0: set<string>, issued: set<string>)
  {
    && i <= |fs|
    && (failed <==> UploadAll(answer, fs[..i]).None?)
    && (!failed ==> results == UploadAll(answer, fs[..i]).value)
    && attempts == attempts0 + Paths(fs[..i])
    && paths == paths0 - PathSet(fs[..i])
    && issued0 <= issued
    && (forall j :: 0 <= j < |results| ==> results[j] in issued)
  }

  /** One iteration of the upload loop: attempt file `i`. */
  method UploadStep(fs: seq<UploadedFile>, i: nat, failed: bool, results: seq<string>,
                    disk: LocalDisk, cloud: Cloudinary,
                    ghost paths0: set<string>, ghost attempts0: seq<string>, ghost issued0: set<string>)
    returns (failed': bool, results': seq<string>)
    requires i < |fs|
    requires UploadedUpTo(cloud.answer, fs, i, failed, results, paths0, disk.paths,
                          attempts0, cloud.attempts, issued0, cloud.issued)
    modifies disk, cloud
    ensures UploadedUpTo(cloud.answer, fs, i + 1, failed', results', paths0, disk.paths,
                         attempts0, cloud.attempts, issued0, cloud.issued)
  {
    var url := UploadOne(fs[i], disk, cloud);
    failed', results' := failed, results;
    if url.None? {
      failed' := true;
    } else {
      results' := results + [url.value];
    }
    UploadAllSnoc(cloud.answer, fs, i);
    PathSetSnoc(fs, i);
    PathsSnoc(fs, i);
  }

  /** The `files.map(...)` and `Promise.all` of `uploadImagesToCloudinary`
      over a non-empty list: every file is attempted. */
  method UploadEach(fs: seq<UploadedFile>, disk: LocalDisk, cloud: Cloudinary)
    returns (failed: bool, results: seq<string>)
    modifies disk, cloud
    ensures failed <==> UploadAll(cloud.answer, fs).None?
    ensures !failed ==> results == UploadAll(cloud.answer, fs).value
    ensures cloud.attempts == old(cloud.attempts) + Paths(fs)
    ensures disk.paths == old(disk.paths) - PathSet(fs)
    ensures old(cloud.issued) <= cloud.issued
    ensures forall j :: 0 <= j < |results| ==> results[j] in cloud.issued
  {
    results := [];
    failed := false;
    ghost var paths0, attempts0, issued0 := disk.paths, cloud.attempts, cloud.issued;
    assert fs[..0] == [];
    var i := 0;
    while i < |fs|
      invariant i <= |fs|
      invariant UploadedUpTo(cloud.answer, fs, i, failed, results, paths0, disk.paths,
                             attempts0, cloud.attempts, issued0, cloud.issued)
    {
      failed, results := UploadStep(fs, i, failed, results, disk, cloud, paths0, attempts0, issued0);
      i := i + 1;
    }
    assert fs[..i] == fs;
  }

  /** `cleanupLocalFiles`: deletes the paths of the given files that still
      exist. The existence check means no delete ever fails. A missing list
      changes nothing. */
  method CleanupLocalFiles(files: Option<seq<UploadedFile>>, disk: LocalDisk)
    modifies disk
    ensures files.None? ==> disk.paths == old(disk.paths)
    ensures files.Some? ==> disk.paths == Cleaned(old(disk.paths), files.value)
  {
    if files.Some? {
      var fs := files.value;
      var i := 0;
      while i < |fs|
        invariant 0 <= i <= |fs|
        invariant disk.paths == Cleaned(old(disk.paths), fs[..i])
      {
        var present := disk.Exists(fs[i].path);
        if present {
          var ok := disk.Unlink(fs[i].path);
          assert ok;
        }
        assert fs[..i + 1][..i] == fs[..i];
        i := i + 1;
      }
      assert fs[..i] == fs;
    }
  }
}
