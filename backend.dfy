/** The external systems the server talks to, reduced to what the handlers
    observe: the local file system as a set of existing paths, Cloudinary as an
    oracle that answers each upload with a URL or a failure, and the Prisma
    table as a list of created rows. */
module Backend {
  import opened Wrappers
  import opened Request

  /** The disk Multer wrote the temporary files to. */
  class LocalDisk {
    var paths: set<string>

    constructor (initial: set<string>)
      ensures paths == initial
    {
      paths := initial;
    }

    /** `fs.existsSync(path)`. */
    method Exists(path: string) returns (b: bool)
      ensures b <==> path in paths
    {
      b := path in paths;
    }

    /** `fs.unlinkSync(path)`: removes an existing path and reports failure
        (a thrown error) for a missing one. */
    method Unlink(path: string) returns (ok: bool)
      modifies this
      ensures ok <==> path in old(paths)
      ensures paths == old(paths) - {path}
    {
      ok := path in paths;
      paths := paths - {path};
    }
  }

  /** `cloudinary.uploader.upload(path, { folder: "service-centers" })`. The
      service's answer for a path is given by `answer`; the object records the
      paths attempted and the URLs handed out. */
  class Cloudinary {
    const answer: string -> Option<string>
    var attempts: seq<string>
    var issued: set<string>

    constructor (answer: string -> Option<string>)
      ensures this.answer == answer && attempts == [] && issued == {}
    {
      this.answer := answer;
      attempts := [];
      issued := {};
    }

    /** One upload: the `secure_url` of the stored image, or a rejection. */
    method Upload(path: string) returns (url: Option<string>)
      modifies this
      ensures url == answer(path)
      ensures attempts == old(attempts) + [path]
      ensures issued == old(issued) + (if url.Some? then {url.value} else {})
    {
      url := answer(path);
      attempts := attempts + [path];
      if url.Some? {
        issued := issued + {url.value};
      }
    }
  }

  /** `prisma.serviceCenter`: the rows created so far, each with a fresh id. */
  class Database {
    var rows: seq<ServiceCenter>
    var nextId: nat

    /** Ids are handed out in creation order, so later rows have larger ids. */
    ghost predicate Valid()
      reads this
    {
      && (forall i :: 0 <= i < |rows| ==> rows[i].id < nextId)
      && (forall i, j :: 0 <= i < j < |rows| ==> rows[i].id < rows[j].id)
    }

    constructor ()
      ensures Valid() && rows == [] && nextId == 0
    {
      rows := [];
      nextId := 0;
    }

    /** `create({ data })`. Whether the database accepts the row (including
        Prisma's own validation of the data) is decided by `failure`: `None`
        stores it, `Some(e)` rejects with `e`. */
    method Create(data: CenterData, failure: Option<Thrown>) returns (r: Result<ServiceCenter, Thrown>)
      requires Valid()
      modifies this
      ensures Valid()
      ensures failure.Some? ==> r == Failure(failure.value) && rows == old(rows) && nextId == old(nextId)
      ensures failure.None? ==>
                && r == Success(ServiceCenter(old(nextId), data))
                && rows == old(rows) + [r.value]
                && nextId == old(nextId) + 1
    {
      if failure.Some? {
        r := Failure(failure.value);
      } else {
        r := Success(ServiceCenter(nextId, data));
        rows := rows + [r.value];
        nextId := nextId + 1;
      }
    }
  }

  /** `findMany({ orderBy: { createdAt: "desc" } })`: the rows, most recently
      created first. */
  function NewestFirst(rows: seq<ServiceCenter>): (r: seq<ServiceCenter>)
    ensures |r| == |rows|
    ensures forall i :: 0 <= i < |rows| ==> r[i] == rows[|rows| - 1 - i]
  {
    if rows == [] then [] else NewestFirst(rows[1..]) + [rows[0]]
  }

  /** Listing a table whose ids grow with creation gives strictly falling ids. */
  lemma NewestFirstFallingIds(db: Database)
    requires db.Valid()
    ensures var r := NewestFirst(db.rows);
            forall i, j :: 0 <= i < j < |r| ==> r[i].id > r[j].id
  {
    var r := NewestFirst(db.rows);
    var n := |db.rows|;
    forall i, j | 0 <= i < j < |r| ensures r[i].id > r[j].id {
      assert r[i] == db.rows[n - 1 - i] && r[j] == db.rows[n - 1 - j];
    }
  }

  /** Every image path stored in a row is a URL Cloudinary handed out. */
  ghost predicate RowsUseIssuedUrls(db: Database, cloud: Cloudinary)
    reads db, cloud
  {
    forall i, j :: 0 <= i < |db.rows| && 0 <= j < |db.rows[i].data.imagePaths| ==>
      db.rows[i].data.imagePaths[j] in cloud.issued
  }
}
