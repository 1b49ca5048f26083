/**
 * The project endpoints of the Go backend: file uploads into GridFS, the
 * file download endpoint, and creating, updating, deleting and listing the
 * projects of a category.
 */
module Projects {
  import opened Base
  import opened Text
  import opened Seqs
  import opened ObjectIds
  import opened Store
  import CategoryNames

  // ---------------------------------------------------------------------
  // Upload admission

  const MiB: nat := 1024 * 1024

  /** The size ceiling: 50 MiB for a video, 10 MiB for anything else. */
  function MaxUploadSize(fileType: string): nat {
    if fileType == "video" then 50 * MiB else 10 * MiB
  }

  /** The accepted `Content-Type` headers for an upload of the given kind. */
  function AllowedTypes(fileType: string): seq<string> {
    if fileType == "video" then ["video/mp4", "video/webm"] else ["image/jpeg", "image/png"]
  }

  /** An upload passes both checks of `uploadToGridFS`. */
  predicate Admissible(fileType: string, size: nat, contentType: string) {
    size <= MaxUploadSize(fileType) && contentType in AllowedTypes(fileType)
  }

  /** A file is a multipart part: its name, size, header and bytes. */
  datatype Upload = Upload(filename: string, size: nat, contentType: string, content: seq<Byte>)

  /** Videos may be five times larger than images, and the kinds share no type. */
  lemma AdmissionByKind(size: nat, contentType: string)
    ensures Admissible("video", size, contentType) <==>
      size <= 50 * 1024 * 1024 && (contentType == "video/mp4" || contentType == "video/webm")
    ensures forall t | t != "video" :: Admissible(t, size, contentType) <==>
      size <= 10 * 1024 * 1024 && (contentType == "image/jpeg" || contentType == "image/png")
    ensures !(Admissible("video", size, contentType) && Admissible("image", size, contentType))
  {
  }

  /** The header check of `uploadToGridFS`, a linear search that stops at the first match. */
  method IsAllowedType(contentType: string, allowed: seq<string>) returns (ok: bool)
    ensures ok <==> contentType in allowed
  {
    ok := false;
    var i := 0;
    while i < |allowed|
      invariant 0 <= i <= |allowed|
      invariant !ok && contentType !in allowed[..i]
    {
      if contentType == allowed[i] {
        ok := true;
        break;
      }
      i := i + 1;
    }
    assert ok || allowed[..i] == allowed;
  }

  function TooLargeMessage(fileType: string): string {
    "file too large, max size is " + Decimal(MaxUploadSize(fileType) / MiB) + "MB"
  }

  function BadTypeMessage(fileType: string): string {
    var t := AllowedTypes(fileType);
    "invalid file type, allowed types are [" + t[0] + " " + t[1] + "]"
  }

  // ---------------------------------------------------------------------
  // File URLs

  const FilesBase: string := "http://localhost:8081/files/"

  /** The URL `uploadToGridFS` hands back for a stored file. */
  function FileUrl(id: ObjectId): string {
    FilesBase + id
  }

  /**
   * The file a media URL refers to, as `deleteGridFSFile` and the listing
   * read it: at least five `/`-separated parts, the last a valid hex id.
   */
  function FileIdOf(url: string): (r: Option<ObjectId>)
    ensures |Split(url, '/')| < 5 ==> r.None?
    ensures |Split(url, '/')| >= 5 ==> r == FromHex(Split(url, '/')[|Split(url, '/')| - 1])
  {
    var parts := Split(url, '/');
    if |parts| < 5 then None else FromHex(parts[|parts| - 1])
  }

  lemma JoinCons(first: string, rest: seq<string>, sep: char)
    requires |rest| >= 1
    ensures Join([first] + rest, sep) == first + [sep] + Join(rest, sep)
  {
    assert ([first] + rest)[1..] == rest;
  }

  lemma JoinFive(a: string, b: string, c: string, d: string, e: string, sep: char)
    ensures Join([a, b, c, d, e], sep) == a + [sep] + b + [sep] + c + [sep] + d + [sep] + e
  {
    JoinCons(d, [e], sep);
    JoinCons(c, [d, e], sep);
    JoinCons(b, [c, d, e], sep);
    JoinCons(a, [b, c, d, e], sep);
    assert [a] + [b, c, d, e] == [a, b, c, d, e];
    assert [b] + [c, d, e] == [b, c, d, e];
    assert [c] + [d, e] == [c, d, e];
    assert [d] + [e] == [d, e];
  }

  lemma FilesBasePieces()
    ensures "http:" + "/" + "" + "/" + "localhost:8081" + "/" + "files" + "/" == FilesBase
    ensures '/' !in "http:" && '/' !in "localhost:8081" && '/' !in "files"
  {
  }

  /** Reading back an uploaded file's URL gives its identifier. */
  lemma FileUrlRoundTrip(id: ObjectId)
    ensures FileIdOf(FileUrl(id)) == Some(id)
  {
    var parts := ["http:", "", "localhost:8081", "files", id];
    JoinFive("http:", "", "localhost:8081", "files", id, '/');
    FilesBasePieces();
    NoSlash(id);
    SplitJoin(parts, '/');
    HexRoundTrip(id);
  }

  /** A URL with fewer than four slashes names no stored file. */
  lemma FewSlashesNoFile(url: string)
    requires Occurrences(url, '/') < 4
    ensures FileIdOf(url) == None
  {
  }

  /** Three slashes: a separator-free piece, a slash, and so on. */
  lemma ThreeSlashes(a: string, b: string, c: string, d: string)
    requires '/' !in a && '/' !in b && '/' !in c && '/' !in d
    ensures Occurrences(a + "/" + b + "/" + c + "/" + d, '/') == 3
  {
    NoOccurrences(a, '/');
    NoOccurrences(b, '/');
    NoOccurrences(c, '/');
    NoOccurrences(d, '/');
    assert Occurrences("/", '/') == 1;
    OccurrencesConcat(a, "/", '/');
    OccurrencesConcat(a + "/", b, '/');
    OccurrencesConcat(a + "/" + b, "/", '/');
    OccurrencesConcat(a + "/" + b + "/", c, '/');
    OccurrencesConcat(a + "/" + b + "/" + c, "/", '/');
    OccurrencesConcat(a + "/" + b + "/" + c + "/", d, '/');
  }

  /** A URL of four `/`-separated parts names no stored file. */
  lemma FourPartsNoFile(a: string, b: string, c: string, d: string)
    requires '/' !in a && '/' !in b && '/' !in c && '/' !in d
    ensures FileIdOf(a + "/" + b + "/" + c + "/" + d) == None
  {
    ThreeSlashes(a, b, c, d);
    FewSlashesNoFile(a + "/" + b + "/" + c + "/" + d);
  }

  /** A prefix with three slashes followed by a slash-free rest names no stored file. */
  lemma PrefixedNoFile(p: string, v: string)
    requires Occurrences(p, '/') == 3 && '/' !in v
    ensures FileIdOf(p + v) == None
  {
    NoOccurrences(v, '/');
    OccurrencesConcat(p, v, '/');
    FewSlashesNoFile(p + v);
  }

  lemma ShortLinkNoFile(v: string)
    requires '/' !in v
    ensures FileIdOf("https://youtu.be/" + v) == None
  {
    var p := "https://youtu.be/";
    ThreeSlashes("https:", "", "youtu.be", "");
    assert "https:" + "/" + "" + "/" + "youtu.be" + "/" + "" == p;
    PrefixedNoFile(p, v);
  }

  lemma WatchPrefixPieces()
    ensures '/' !in "watch?v="
    ensures "https:" + "/" + "" + "/" + "www.youtube.com" + "/" + "watch?v=" == "https://www.youtube.com/watch?v="
  {
  }

  lemma WatchPrefixSlashes()
    ensures Occurrences("https://www.youtube.com/watch?v=", '/') == 3
  {
    WatchPrefixPieces();
    ThreeSlashes("https:", "", "www.youtube.com", "watch?v=");
  }

  lemma WatchLinkNoFile(v: string)
    requires '/' !in v
    ensures FileIdOf("https://www.youtube.com/watch?v=" + v) == None
  {
    WatchPrefixSlashes();
    PrefixedNoFile("https://www.youtube.com/watch?v=", v);
  }

  /** Short YouTube links are never mistaken for stored files. */
  lemma YouTubeLinksNoFile(v: string)
    requires '/' !in v
    ensures FileIdOf("https://youtu.be/" + v) == None
    ensures FileIdOf("https://www.youtube.com/watch?v=" + v) == None
  {
    ShortLinkNoFile(v);
    WatchLinkNoFile(v);
  }

  // ---------------------------------------------------------------------
  // Serving files

  /**
   * `filepath.Ext`: the suffix from the last `.` of the final path
   * element, or nothing when that element has no dot.
   */
  function Extension(path: string): (ext: string)
    ensures ext == [] || (ext[0] == '.' && '.' !in ext[1..] && '/' !in ext)
    ensures |ext| <= |path| && ext == path[|path| - |ext|..]
  {
    match LastIndexOf(path, '.')
    case None => ""
    case Some(i) => if '/' in path[i + 1..] then "" else path[i..]
  }

  lemma ExtensionOfSuffix(stem: string, ext: string)
    requires |ext| > 0 && ext[0] == '.' && '.' !in ext[1..] && '/' !in ext
    ensures Extension(stem + ext) == ext
  {
    var path := stem + ext;
    assert path[|stem|] == '.';
    assert path[|stem| + 1..] == ext[1..];
    assert path[|stem|] == '.';
  }

  /** The `Content-Type` chosen from a stored file name's extension. */
  function ContentTypeFor(filename: string): (r: string)
    ensures r == "application/octet-stream" <==>
      Lower(Extension(filename)) !in [".jpg", ".jpeg", ".png", ".mp4", ".webm"]
    ensures r in ["image/jpeg", "image/png", "video/mp4", "video/webm", "application/octet-stream"]
  {
    var e := Lower(Extension(filename));
    if e == ".jpg" || e == ".jpeg" then "image/jpeg"
    else if e == ".png" then "image/png"
    else if e == ".mp4" then "video/mp4"
    else if e == ".webm" then "video/webm"
    else "application/octet-stream"
  }

  /**
   * Any name ending in one of the known extensions, in any letter case, is
   * served with its media type; content types of admitted uploads are
   * exactly those the extension table produces.
   */
  lemma ContentTypeOfKnownExtension(stem: string, ext: string)
    requires |ext| > 0 && ext[0] == '.' && '.' !in ext[1..] && '/' !in ext
    ensures Lower(ext) == ".png" ==> ContentTypeFor(stem + ext) == "image/png"
    ensures Lower(ext) == ".jpg" || Lower(ext) == ".jpeg" ==> ContentTypeFor(stem + ext) == "image/jpeg"
    ensures Lower(ext) == ".mp4" ==> ContentTypeFor(stem + ext) == "video/mp4"
    ensures Lower(ext) == ".webm" ==> ContentTypeFor(stem + ext) == "video/webm"
    ensures ContentTypeFor(stem + ext) != "application/octet-stream" ==>
      ContentTypeFor(stem + ext) in AllowedTypes("image") + AllowedTypes("video")
  {
    ExtensionOfSuffix(stem, ext);
  }

  /** A name without any dot is served as opaque bytes. */
  lemma ContentTypeWithoutExtension(filename: string)
    requires '.' !in filename
    ensures ContentTypeFor(filename) == "application/octet-stream"
  {
  }

  /** What `GetFileHandler` streams: headers from the stored name, then the bytes. */
  datatype FileResponse = FileResponse(contentType: string, filename: string, content: seq<Byte>)

  method GetFile(db: Db, rawId: string) returns (r: Result<FileResponse>)
    ensures rawId == "" ==> r == Err(Failure(BadRequest, "File ID is required"))
    ensures rawId != "" && FromHex(rawId).None? ==> r == Err(Failure(BadRequest, "Invalid file ID"))
    ensures rawId != "" && FromHex(rawId).Some? && FromHex(rawId).value !in db.blobs ==>
      r == Err(Failure(NotFound, "File not found"))
    ensures r.Ok? <==> rawId != "" && FromHex(rawId).Some? && FromHex(rawId).value in db.blobs
    ensures r.Ok? ==>
      var b := db.blobs[FromHex(rawId).value];
      r.value == FileResponse(ContentTypeFor(b.filename), b.filename, b.content)
  {
    if rawId == "" {
      return Err(Failure(BadRequest, "File ID is required"));
    }
    var id := FromHex(rawId);
    if id.None? {
      return Err(Failure(BadRequest, "Invalid file ID"));
    }
    if id.value !in db.blobs {
      return Err(Failure(NotFound, "File not found"));
    }
    var b := db.blobs[id.value];
    r := Ok(FileResponse(ContentTypeFor(b.filename), b.filename, b.content));
  }

  // ---------------------------------------------------------------------
  // Storing uploads

  /**
   * `uploadToGridFS`: check size, then content type; store the bytes in
   * GridFS and the metadata in FilesColl under the identifier GridFS
   * assigned, and answer the file's URL.
   */
  method UploadToGridFs(db: Db, file: Upload, fileType: string, fileId: ObjectId, now: int)
    returns (r: Result<string>)
    requires db.Valid() && fileId !in db.files
    modifies db`files, db`blobs
    ensures db.Valid()
    ensures r.Ok? <==> Admissible(fileType, file.size, file.contentType)
    ensures file.size > MaxUploadSize(fileType) ==> r == Err(Failure(BadRequest, TooLargeMessage(fileType)))
    ensures file.size <= MaxUploadSize(fileType) && file.contentType !in AllowedTypes(fileType) ==>
      r == Err(Failure(BadRequest, BadTypeMessage(fileType)))
    ensures r.Err? ==> db.files == old(db.files) && db.blobs == old(db.blobs)
    ensures r.Ok? ==>
      && r.value == FileUrl(fileId)
      && db.blobs == old(db.blobs)[fileId := Blob(file.filename, file.content)]
      && db.files == old(db.files)[fileId := FileMeta(fileId, file.filename, fileType, file.size, now)]
  {
    if file.size > MaxUploadSize(fileType) {
      return Err(Failure(BadRequest, TooLargeMessage(fileType)));
    }
    var ok := IsAllowedType(file.contentType, AllowedTypes(fileType));
    if !ok {
      return Err(Failure(BadRequest, BadTypeMessage(fileType)));
    }
    db.blobs := db.blobs[fileId := Blob(file.filename, file.content)];
    db.files := db.files[fileId := FileMeta(fileId, file.filename, fileType, file.size, now)];
    r := Ok(FileUrl(fileId));
  }

  /** `UploadFileHandler`: a file part and a kind of "image" or "video" are required. */
  method UploadFile(db: Db, claims: Option<string>, file: Option<Upload>, fileType: string,
                    fileId: ObjectId, now: int)
    returns (r: Result<string>)
    requires db.Valid() && fileId !in db.files
    modifies db`files, db`blobs
    ensures db.Valid()
    ensures claims.None? ==> r == Err(InvalidClaims)
    ensures claims.Some? && file.None? ==> r == Err(Failure(BadRequest, "Cannot get file from form"))
    ensures claims.Some? && file.Some? && fileType != "image" && fileType != "video" ==>
      r == Err(Failure(BadRequest, "Invalid file type"))
    ensures r.Ok? <==>
      && claims.Some? && file.Some? && (fileType == "image" || fileType == "video")
      && Admissible(fileType, file.value.size, file.value.contentType)
    ensures r.Err? ==> db.files == old(db.files) && db.blobs == old(db.blobs)
    ensures r.Ok? ==>
      && r.value == FileUrl(fileId)
      && db.blobs == old(db.blobs)[fileId := Blob(file.value.filename, file.value.content)]
      && db.files == old(db.files)[fileId := FileMeta(fileId, file.value.filename, fileType, file.value.size, now)]
  {
    if claims.None? {
      return Err(InvalidClaims);
    }
    if file.None? {
      return Err(Failure(BadRequest, "Cannot get file from form"));
    }
    if fileType != "image" && fileType != "video" {
      return Err(Failure(BadRequest, "Invalid file type"));
    }
    r := UploadToGridFs(db, file.value, fileType, fileId, now);
  }

  // ---------------------------------------------------------------------
  // Creating, updating and deleting projects

  /** The multipart form of a new project: `type` values, `videoUrl` values and `file` parts. */
  datatype ProjectForm = ProjectForm(uploadType: seq<string>, videoUrls: seq<string>, files: seq<Upload>)

  /** The form names a known upload kind, or carries a video link. */
  predicate KindOrLinkGiven(form: ProjectForm) {
    (|form.uploadType| > 0 && form.uploadType[0] in {"image", "video", "videoUrl"}) || |form.videoUrls| > 0
  }

  /** The form passes every check of `AddProjectHandler` after the category lookup. */
  predicate FormAccepted(form: ProjectForm) {
    && KindOrLinkGiven(form)
    && (if |form.files| > 0
        then |form.uploadType| > 0 && Admissible(form.uploadType[0], form.files[0].size, form.files[0].contentType)
        else |form.videoUrls| > 0)
  }

  /**
   * `AddProjectHandler`. The first file part (if any) is uploaded with the
   * first `type` value as its kind; an "image" upload becomes the image URL,
   * a "video" upload the video URL, and any other kind stores the file
   * without linking it. Without a file the first `videoUrl` value is kept
   * verbatim as the video URL.
   */
  method AddProject(db: Db, claims: Option<string>, rawCategory: string, form: ProjectForm,
                    projectId: ObjectId, fileId: ObjectId, now: int)
    returns (r: Result<Project>)
    requires db.Valid() && projectId !in db.projects && fileId !in db.files
    requires |form.files| > 0 ==> |form.uploadType| > 0
    modifies db`projects, db`files, db`blobs
    ensures db.Valid()
    ensures claims.None? ==> r == Err(InvalidClaims)
    ensures claims.Some? && CategoryOf(db.categories, rawCategory).Err? ==>
      r == Err(CategoryOf(db.categories, rawCategory).failure)
    ensures claims.Some? && CategoryOf(db.categories, rawCategory).Ok? && !KindOrLinkGiven(form) ==>
      r == Err(Failure(BadRequest, "Invalid or missing upload type or video URL"))
    ensures r.Ok? <==> claims.Some? && CategoryOf(db.categories, rawCategory).Ok? && FormAccepted(form)
    ensures r.Err? ==> db.projects == old(db.projects) && db.files == old(db.files) && db.blobs == old(db.blobs)
    ensures r.Ok? ==>
      && r.value.id == projectId
      && r.value.categoryId == CategoryOf(db.categories, rawCategory).value
      && r.value.createdAt == now && r.value.updatedAt == now
      && db.projects == old(db.projects)[projectId := r.value]
    ensures r.Ok? && |form.files| > 0 ==>
      var f := form.files[0];
      && db.blobs == old(db.blobs)[fileId := Blob(f.filename, f.content)]
      && db.files == old(db.files)[fileId := FileMeta(fileId, f.filename, form.uploadType[0], f.size, now)]
      && r.value.imageUrl == (if form.uploadType[0] == "image" then FileUrl(fileId) else "")
      && r.value.videoUrl == (if form.uploadType[0] == "video" then FileUrl(fileId) else "")
    ensures r.Ok? && |form.files| == 0 ==>
      && db.files == old(db.files) && db.blobs == old(db.blobs)
      && r.value.imageUrl == "" && r.value.videoUrl == form.videoUrls[0]
  {
    if claims.None? {
      return Err(InvalidClaims);
    }
    var category := ResolveCategory(db, rawCategory);
    if category.Err? {
      return Err(category.failure);
    }
    if !KindOrLinkGiven(form) {
      return Err(Failure(BadRequest, "Invalid or missing upload type or video URL"));
    }
    var imageUrl := "";
    var videoUrl := "";
    if |form.files| > 0 {
      var uploaded := UploadToGridFs(db, form.files[0], form.uploadType[0], fileId, now);
      if uploaded.Err? {
        return Err(uploaded.failure);
      }
      if form.uploadType[0] == "image" {
        imageUrl := uploaded.value;
      } else if form.uploadType[0] == "video" {
        videoUrl := uploaded.value;
      }
    } else if |form.videoUrls| > 0 {
      videoUrl := form.videoUrls[0];
    } else {
      return Err(Failure(BadRequest, "No file or video URL provided"));
    }
    var project := Project(projectId, imageUrl, videoUrl, category.value, now, now);
    PutProject(db, project);
    r := Ok(project);
  }

  /**
   * The checks `UpdateProjectHandler` and `DeleteProjectHandler` share:
   * a token with an email, a project id, a category that resolves, a hex
   * id, and a project with that id in that category.
   */
  ghost function ScopedProject(cats: map<ObjectId, Category>, projects: map<ObjectId, Project>,
                               claims: Option<string>, rawId: string, rawCategory: string): Result<Project>
  {
    if claims.None? then Err(InvalidClaims)
    else if rawId == "" then Err(Failure(BadRequest, "Project ID is required"))
    else if CategoryOf(cats, rawCategory).Err? then Err(CategoryOf(cats, rawCategory).failure)
    else if FromHex(rawId).None? then Err(Failure(BadRequest, "Invalid project ID"))
    else
      var id := FromHex(rawId).value;
      if id !in projects || projects[id].categoryId != CategoryOf(cats, rawCategory).value
      then Err(Failure(NotFound, "Project not found or category does not match"))
      else Ok(projects[id])
  }

  /** A project in scope is the stored project with the requested id, in the named category. */
  lemma ScopedProjectSound(cats: map<ObjectId, Category>, projects: map<ObjectId, Project>,
                           claims: Option<string>, rawId: string, rawCategory: string)
    ensures var r := ScopedProject(cats, projects, claims, rawId, rawCategory);
      r.Ok? ==>
        && claims.Some? && FromHex(rawId).Some? && FromHex(rawId).value in projects
        && r.value == projects[FromHex(rawId).value]
        && r.value.categoryId in cats && cats[r.value.categoryId].nameCategory == CategoryNames.Norm(rawCategory)
    ensures var r := ScopedProject(cats, projects, claims, rawId, rawCategory);
      r.Err? && claims.Some? && rawId != "" && CategoryOf(cats, rawCategory).Ok? && FromHex(rawId).Some? ==>
        r.failure == Failure(NotFound, "Project not found or category does not match")
  {
  }

  /**
   * A project is in scope exactly when the request names its id (in either
   * case) and its category (in any letter case).
   */
  lemma ScopedProjectExactly(cats: map<ObjectId, Category>, projects: map<ObjectId, Project>,
                             claims: Option<string>, rawId: string, rawCategory: string)
    requires NamesDistinct(cats) && claims.Some?
    ensures ScopedProject(cats, projects, claims, rawId, rawCategory).Ok? <==>
      && FromHex(rawId).Some? && FromHex(rawId).value in projects
      && projects[FromHex(rawId).value].categoryId in cats
      && cats[projects[FromHex(rawId).value].categoryId].nameCategory == CategoryNames.Norm(rawCategory)
      && CategoryNames.Norm(rawCategory) != ""
  {
    if FromHex(rawId).Some? && FromHex(rawId).value in projects {
      var k := projects[FromHex(rawId).value].categoryId;
      if k in cats && cats[k].nameCategory == CategoryNames.Norm(rawCategory) {
        CategoryNamedUnique(cats, CategoryNames.Norm(rawCategory), k);
      }
    }
  }

  method FindScopedProject(db: Db, claims: Option<string>, rawId: string, rawCategory: string)
    returns (r: Result<Project>)
    requires db.Valid()
    ensures r == ScopedProject(db.categories, db.projects, claims, rawId, rawCategory)
  {
    if claims.None? {
      return Err(InvalidClaims);
    }
    if rawId == "" {
      return Err(Failure(BadRequest, "Project ID is required"));
    }
    var category := ResolveCategory(db, rawCategory);
    if category.Err? {
      return Err(category.failure);
    }
    var id := FromHex(rawId);
    if id.None? {
      return Err(Failure(BadRequest, "Invalid project ID"));
    }
    if id.value !in db.projects || db.projects[id.value].categoryId != category.value {
      return Err(Failure(NotFound, "Project not found or category does not match"));
    }
    r := Ok(db.projects[id.value]);
  }

  /** The body of an update: the new media URLs, empty when absent. */
  datatype ProjectRequest = ProjectRequest(imageUrl: string, videoUrl: string)

  /**
   * `UpdateProjectHandler`: only a project of the named category is
   * touched; both URLs are overwritten, even with empty strings, and the
   * update time is set. Files the old URLs referred to stay stored.
   */
  method UpdateProject(db: Db, claims: Option<string>, rawId: string, rawCategory: string,
                       req: ProjectRequest, now: int)
    returns (r: Result<Project>)
    requires db.Valid()
    modifies db`projects
    ensures db.Valid()
    ensures var s := old(ScopedProject(db.categories, db.projects, claims, rawId, rawCategory));
      && (s.Err? ==> r == Err(s.failure) && db.projects == old(db.projects))
      && (s.Ok? ==>
            && r == Ok(s.value.(imageUrl := req.imageUrl, videoUrl := req.videoUrl, updatedAt := now))
            && db.projects == old(db.projects)[s.value.id := r.value])
  {
    var scoped := FindScopedProject(db, claims, rawId, rawCategory);
    if scoped.Err? {
      return Err(scoped.failure);
    }
    var updated := scoped.value.(imageUrl := req.imageUrl, videoUrl := req.videoUrl, updatedAt := now);
    PutProject(db, updated);
    r := Ok(updated);
  }

  const GridFsNotFound: string := "failed to delete file from GridFS: file with given parameters not found"

  /** The stored file `id` names is present, or there is none to remove. */
  predicate Deletable(keys: set<ObjectId>, id: Option<ObjectId>) {
    id.None? || id.value in keys
  }

  /** A store without the file `id`, if any. */
  function Without<V>(m: map<ObjectId, V>, id: Option<ObjectId>): (r: map<ObjectId, V>)
    ensures r.Keys <= m.Keys
    ensures forall k | k in r :: r[k] == m[k]
    ensures id.Some? ==> id.value !in r && r.Keys == m.Keys - {id.value}
    ensures id.None? ==> r == m
  {
    if id.Some? then m - {id.value} else m
  }

  /**
   * The `deleteGridFSFile` closure: a URL that names no file is skipped; a
   * named file missing from GridFS is an error; otherwise the file and its
   * metadata are removed.
   */
  method DeleteStoredFile(db: Db, url: string) returns (err: Option<Failure>)
    requires db.Valid()
    modifies db`files, db`blobs
    ensures db.Valid()
    ensures err.None? <==> Deletable(old(db.blobs).Keys, FileIdOf(url))
    ensures err.Some? ==>
      && err.value == Failure(InternalError, GridFsNotFound)
      && db.files == old(db.files) && db.blobs == old(db.blobs)
    ensures err.None? ==> db.files == Without(old(db.files), FileIdOf(url)) && db.blobs == Without(old(db.blobs), FileIdOf(url))
  {
    if url == "" {
      return None;
    }
    var id := FileIdOf(url);
    if id.None? {
      return None;
    }
    if id.value !in db.blobs {
      return Some(Failure(InternalError, GridFsNotFound));
    }
    db.blobs := db.blobs - {id.value};
    db.files := db.files - {id.value};
    err := None;
  }

  /**
   * The two `deleteGridFSFile` calls of `DeleteProjectHandler`: the image's
   * file first, then the video's, stopping at the first failure (a file
   * already removed stays removed).
   */
  method DeleteMedia(db: Db, p: Project) returns (err: Option<Failure>)
    requires db.Valid()
    modifies db`files, db`blobs
    ensures db.Valid()
    ensures var image := FileIdOf(p.imageUrl);
      var video := FileIdOf(p.videoUrl);
      if !Deletable(old(db.blobs).Keys, image) then
        err == Some(Failure(InternalError, GridFsNotFound)) && db.files == old(db.files) && db.blobs == old(db.blobs)
      else if !Deletable(Without(old(db.blobs), image).Keys, video) then
        && err == Some(Failure(InternalError, GridFsNotFound))
        && db.files == Without(old(db.files), image) && db.blobs == Without(old(db.blobs), image)
      else
        && err.None?
        && db.files == Without(Without(old(db.files), image), video)
        && db.blobs == Without(Without(old(db.blobs), image), video)
  {
    err := DeleteStoredFile(db, p.imageUrl);
    if err.Some? {
      return;
    }
    err := DeleteStoredFile(db, p.videoUrl);
  }

  /**
   * `DeleteProjectHandler`: the project must belong to the named category;
   * its media files are removed, and then the project, unless a referenced
   * file is missing from GridFS. Service steps are left alone: stored steps
   * carry no project reference.
   */
  method DeleteProject(db: Db, claims: Option<string>, rawId: string, rawCategory: string)
    returns (r: Result<()>)
    requires db.Valid()
    modifies db`projects, db`files, db`blobs
    ensures db.Valid()
    ensures var s := old(ScopedProject(db.categories, db.projects, claims, rawId, rawCategory));
      s.Err? ==> r == Err(s.failure) && unchanged(db)
    ensures var s := old(ScopedProject(db.categories, db.projects, claims, rawId, rawCategory));
      s.Ok? ==>
        var image := FileIdOf(s.value.imageUrl);
        var video := FileIdOf(s.value.videoUrl);
        if !Deletable(old(db.blobs).Keys, image) then
          r == Err(Failure(InternalError, GridFsNotFound)) && unchanged(db)
        else if !Deletable(Without(old(db.blobs), image).Keys, video) then
          && r == Err(Failure(InternalError, GridFsNotFound))
          && db.projects == old(db.projects)
          && db.files == Without(old(db.files), image)
          && db.blobs == Without(old(db.blobs), image)
        else
          && r == Ok(())
          && db.projects == old(db.projects) - {s.value.id}
          && db.files == Without(Without(old(db.files), image), video)
          && db.blobs == Without(Without(old(db.blobs), image), video)
  {
    ghost var s := ScopedProject(db.categories, db.projects, claims, rawId, rawCategory);
    var scoped := FindScopedProject(db, claims, rawId, rawCategory);
    if scoped.Err? {
      return Err(scoped.failure);
    }
    assert scoped.value == s.value;
    var err := DeleteMedia(db, scoped.value);
    if err.Some? {
      return Err(err.value);
    }
    RemoveProject(db, scoped.value.id);
    r := Ok(());
  }

  // ---------------------------------------------------------------------
  // Listing

  /**
   * The `mediaType` the listing adds: "youtube" for a video link on
   * YouTube, otherwise the stored kind of the file the video URL, or
   * failing a video URL the image URL, refers to; empty when unknown.
   */
  function MediaTypeOf(p: Project, files: map<ObjectId, FileMeta>): (r: string)
    ensures r == "" || r == "youtube" || exists id | id in files :: r == files[id].fileType
    ensures p.videoUrl == "" && p.imageUrl == "" ==> r == ""
  {
    if p.videoUrl != "" then
      if Contains(p.videoUrl, "youtube.com") || Contains(p.videoUrl, "youtu.be") then "youtube"
      else StoredKind(p.videoUrl, files)
    else if p.imageUrl != "" then StoredKind(p.imageUrl, files)
    else ""
  }

  function StoredKind(url: string, files: map<ObjectId, FileMeta>): string {
    match FileIdOf(url)
    case Some(id) => if id in files then files[id].fileType else ""
    case None => ""
  }

  /** A project created from an upload is listed with the kind it was uploaded as. */
  lemma MediaTypeOfUpload(p: Project, files: map<ObjectId, FileMeta>, id: ObjectId)
    requires id in files
    requires (p.imageUrl == FileUrl(id) && p.videoUrl == "") || p.videoUrl == FileUrl(id)
    ensures MediaTypeOf(p, files) == files[id].fileType
  {
    StoredKindOfUpload(id, files);
    if p.videoUrl == FileUrl(id) {
      FileUrlHasNoYouTube(id, "youtube.com");
      FileUrlHasNoYouTube(id, "youtu.be");
    }
  }

  lemma StoredKindOfUpload(id: ObjectId, files: map<ObjectId, FileMeta>)
    requires id in files
    ensures StoredKind(FileUrl(id), files) == files[id].fileType
  {
    FileUrlRoundTrip(id);
  }

  lemma FileUrlHasNoYouTube(id: ObjectId, sub: string)
    requires sub == "youtube.com" || sub == "youtu.be"
    ensures !Contains(FileUrl(id), sub)
  {
    var u := FileUrl(id);
    forall i | 0 <= i <= |u| - |sub|
      ensures !OccursAt(u, sub, i)
    {
      if i < |FilesBase| {
        assert u[i] == FilesBase[i];
        assert sub[0] == 'y';
        assert u[i] != 'y';
      } else {
        assert u[i + 1] == id[i + 1 - |FilesBase|];
        assert IsLowerHexDigit(u[i + 1]);
      }
    }
  }

  /** A YouTube link is listed as such, whatever else the project has. */
  lemma MediaTypeOfYouTube(p: Project, files: map<ObjectId, FileMeta>)
    requires Contains(p.videoUrl, "youtube.com") || Contains(p.videoUrl, "youtu.be")
    ensures MediaTypeOf(p, files) == "youtube"
  {
  }

  /** One entry of the listing: the project's fields as hex text plus its media kind. */
  datatype Entry = Entry(
    id: ObjectId, imageUrl: string, videoUrl: string, categoryId: ObjectId,
    createdAt: int, updatedAt: int, mediaType: string)

  function EntryOf(p: Project, files: map<ObjectId, FileMeta>): Entry {
    Entry(p.id, p.imageUrl, p.videoUrl, p.categoryId, p.createdAt, p.updatedAt, MediaTypeOf(p, files))
  }

  function EntriesOf(ps: seq<Project>, files: map<ObjectId, FileMeta>): (es: seq<Entry>)
    ensures |es| == |ps|
  {
    seq(|ps|, i requires 0 <= i < |ps| => EntryOf(ps[i], files))
  }

  function HasRealId(p: Project): bool { !IsZero(p.id) }

  /** The listing of a cursor: every project with a non-zero id, in cursor order. */
  function ListingOf(cursor: seq<Project>, files: map<ObjectId, FileMeta>): seq<Entry> {
    EntriesOf(Filter(cursor, HasRealId), files)
  }

  /** The loop of `GetProjectsByCategoryHandler` that builds the response. */
  method BuildListing(cursor: seq<Project>, files: map<ObjectId, FileMeta>) returns (out: seq<Entry>)
    ensures out == ListingOf(cursor, files)
  {
    out := [];
    var i := 0;
    while i < |cursor|
      invariant 0 <= i <= |cursor|
      invariant out == ListingOf(cursor[..i], files)
    {
      assert cursor[..i + 1] == cursor[..i] + [cursor[i]];
      FilterSnoc(cursor[..i], cursor[i], HasRealId);
      if !IsZero(cursor[i].id) {
        EntriesOfSnoc(Filter(cursor[..i], HasRealId), cursor[i], files);
        out := out + [EntryOf(cursor[i], files)];
      }
      i := i + 1;
    }
    assert cursor[..i] == cursor;
  }

  lemma EntriesOfSnoc(ps: seq<Project>, p: Project, files: map<ObjectId, FileMeta>)
    ensures EntriesOf(ps + [p], files) == EntriesOf(ps, files) + [EntryOf(p, files)]
  {
  }

  /** The projects newest first, each exactly once: the collection's `createdAt` descending order. */
  predicate IsCreationOrder(projects: map<ObjectId, Project>, order: seq<ObjectId>) {
    && (forall i | 0 <= i < |order| :: order[i] in projects)
    && (forall k | k in projects :: k in order)
    && NoDuplicates(order)
    && (forall i, j | 0 <= i < j < |order| :: projects[order[i]].createdAt >= projects[order[j]].createdAt)
  }

  function InOrder(projects: map<ObjectId, Project>, order: seq<ObjectId>): (ps: seq<Project>)
    requires forall i | 0 <= i < |order| :: order[i] in projects
    ensures |ps| == |order|
    ensures forall i | 0 <= i < |order| :: ps[i] == projects[order[i]]
  {
    seq(|order|, i requires 0 <= i < |order| => projects[order[i]])
  }

  predicate NewestFirst(ps: seq<Project>) {
    forall i, j | 0 <= i < j < |ps| :: ps[i].createdAt >= ps[j].createdAt
  }

  /** Keeping some projects of a newest-first list keeps it newest first. */
  lemma {:induction false} FilterNewestFirst(ps: seq<Project>, keep: Project -> bool)
    requires NewestFirst(ps)
    ensures NewestFirst(Filter(ps, keep))
  {
    if ps != [] {
      FilterNewestFirst(ps[1..], keep);
      var rest := Filter(ps[1..], keep);
      forall j | 0 <= j < |rest|
        ensures ps[0].createdAt >= rest[j].createdAt
      {
        assert rest[j] in ps[1..];
      }
    }
  }

  /** The sorted cursor lists every project, newest first. */
  lemma InOrderExactly(projects: map<ObjectId, Project>, order: seq<ObjectId>)
    requires IsCreationOrder(projects, order)
    ensures NewestFirst(InOrder(projects, order))
    ensures forall p :: p in InOrder(projects, order) <==> p in projects.Values
  {
    var ps := InOrder(projects, order);
    forall p | p in projects.Values ensures p in ps {
      var k :| k in projects && projects[k] == p;
      var i :| 0 <= i < |order| && order[i] == k;
      assert ps[i] == p;
    }
  }

  /** `GetAllProjectsHandler`: every project, once, newest first. */
  method GetAllProjects(db: Db, order: seq<ObjectId>) returns (ps: seq<Project>)
    requires IsCreationOrder(db.projects, order)
    ensures NewestFirst(ps)
    ensures forall p :: p in ps <==> p in db.projects.Values
    ensures |ps| == |db.projects|
  {
    ps := InOrder(db.projects, order);
    InOrderExactly(db.projects, order);
    assert db.projects.Keys == set k | k in order;
    NoDuplicatesCardinality(order);
  }

  /**
   * `GetProjectsByCategoryHandler`: the projects of the named category,
   * newest first, without any zero identifier, each with its media kind.
   */
  method GetProjectsByCategory(db: Db, rawCategory: string, order: seq<ObjectId>)
    returns (r: Result<seq<Entry>>)
    requires db.Valid() && IsCreationOrder(db.projects, order)
    ensures CategoryOf(db.categories, rawCategory).Err? ==> r == Err(CategoryOf(db.categories, rawCategory).failure)
    ensures CategoryOf(db.categories, rawCategory).Ok? ==>
      r == Ok(ListingOf(CategoryCursor(db.projects, order, CategoryOf(db.categories, rawCategory).value), db.files))
  {
    var category := ResolveCategory(db, rawCategory);
    if category.Err? {
      return Err(category.failure);
    }
    var cursor := CategoryCursor(db.projects, order, category.value);
    var listing := BuildListing(cursor, db.files);
    r := Ok(listing);
  }

  /** `ProjectsColl.Find({category_id: cid})` sorted by `createdAt` descending. */
  function CategoryCursor(projects: map<ObjectId, Project>, order: seq<ObjectId>, cid: ObjectId): seq<Project>
    requires forall i | 0 <= i < |order| :: order[i] in projects
  {
    Filter(InOrder(projects, order), (p: Project) => p.categoryId == cid)
  }

  /** The cursor of a category holds exactly that category's projects, newest first. */
  lemma CategoryCursorExactly(projects: map<ObjectId, Project>, order: seq<ObjectId>, cid: ObjectId)
    requires IsCreationOrder(projects, order)
    ensures NewestFirst(CategoryCursor(projects, order, cid))
    ensures forall p :: p in CategoryCursor(projects, order, cid) <==> p in projects.Values && p.categoryId == cid
  {
    InOrderExactly(projects, order);
    FilterNewestFirst(InOrder(projects, order), (p: Project) => p.categoryId == cid);
  }

  /** The listing skips zero ids and otherwise keeps the cursor's order. */
  lemma ListingShape(cursor: seq<Project>, files: map<ObjectId, FileMeta>)
    requires NewestFirst(cursor)
    ensures forall i | 0 <= i < |ListingOf(cursor, files)| :: !IsZero(ListingOf(cursor, files)[i].id)
    ensures forall i, j | 0 <= i < j < |ListingOf(cursor, files)| ::
      ListingOf(cursor, files)[i].createdAt >= ListingOf(cursor, files)[j].createdAt
    ensures forall p | p in cursor && !IsZero(p.id) :: EntryOf(p, files) in ListingOf(cursor, files)
  {
    var kept := Filter(cursor, HasRealId);
    FilterNewestFirst(cursor, HasRealId);
    var es := ListingOf(cursor, files);
    forall p | p in cursor && !IsZero(p.id) ensures EntryOf(p, files) in es {
      var i :| 0 <= i < |kept| && kept[i] == p;
      assert es[i] == EntryOf(p, files);
    }
  }
}
