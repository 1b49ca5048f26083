/**
 * The backend's persistent state: the MongoDB collections UsersColl,
 * CategoriesColl, ProjectsColl, ServiceStepsColl and FilesColl, and the
 * GridFS bucket that holds uploaded file contents, each as a map from the
 * document's key to the document.
 */
module Store {
  import opened Base
  import opened ObjectIds
  import CategoryNames

  newtype Byte = b: int | 0 <= b < 256

  /** A UsersColl document; users are found by email. */
  datatype UserDoc = UserDoc(email: string, password: string, updatedAt: Option<int>)

  /** A CategoriesColl document. */
  datatype Category = Category(id: ObjectId, nameCategory: string, updatedAt: Option<int>)

  /** A ProjectsColl document; an empty URL is a field left out by `omitempty`. */
  datatype Project = Project(
    id: ObjectId, imageUrl: string, videoUrl: string, categoryId: ObjectId,
    createdAt: int, updatedAt: int)

  datatype Subtitle = Subtitle(text: string, headings: seq<string>)

  /** A ServiceStepsColl document. */
  datatype ServiceStep = ServiceStep(
    id: ObjectId, categoryId: ObjectId, title: string, subtitles: seq<Subtitle>,
    createdAt: int, updatedAt: Option<int>)

  /** A FilesColl document: the metadata written after a GridFS upload. */
  datatype FileMeta = FileMeta(id: ObjectId, filename: string, fileType: string, size: nat, uploaded: int)

  /** A GridFS file: its name and its bytes. */
  datatype Blob = Blob(filename: string, content: seq<Byte>)

  /** Some category in `cats` carries the name `name`. */
  predicate HasName(cats: map<ObjectId, Category>, name: string) {
    exists k | k in cats :: cats[k].nameCategory == name
  }

  /** Some category other than `except` carries the name `name`. */
  predicate HasNameExcept(cats: map<ObjectId, Category>, name: string, except: ObjectId) {
    exists k | k in cats :: k != except && cats[k].nameCategory == name
  }

  predicate NamesDistinct(cats: map<ObjectId, Category>) {
    forall j, k | j in cats && k in cats && j != k :: cats[j].nameCategory != cats[k].nameCategory
  }

  predicate UsersKeyed(users: map<string, UserDoc>) {
    forall e | e in users :: users[e].email == e
  }

  predicate CategoriesOk(categories: map<ObjectId, Category>) {
    && (forall k | k in categories :: categories[k].id == k)
    && NamesDistinct(categories)
    && (forall k | k in categories :: CategoryNames.Norm(categories[k].nameCategory) == categories[k].nameCategory)
  }

  predicate ProjectsOk(projects: map<ObjectId, Project>, categories: map<ObjectId, Category>) {
    forall k | k in projects :: projects[k].id == k && projects[k].categoryId in categories
  }

  predicate StepsOk(steps: map<ObjectId, ServiceStep>, categories: map<ObjectId, Category>) {
    forall k | k in steps :: steps[k].id == k && steps[k].categoryId in categories
  }

  predicate FilesOk(files: map<ObjectId, FileMeta>, blobs: map<ObjectId, Blob>) {
    (forall k | k in files :: files[k].id == k) && files.Keys == blobs.Keys
  }

  class Db {
    var users: map<string, UserDoc>
    var categories: map<ObjectId, Category>
    var projects: map<ObjectId, Project>
    var steps: map<ObjectId, ServiceStep>
    var files: map<ObjectId, FileMeta>
    var blobs: map<ObjectId, Blob>

    /**
     * What the handlers keep true: every document sits under its own key,
     * category names are unique and in normal form, projects and service
     * steps point at existing categories, and every GridFS file has its
     * FilesColl metadata and the other way round.
     */
    predicate Valid()
      reads this
    {
      && UsersKeyed(users)
      && CategoriesOk(categories)
      && ProjectsOk(projects, categories)
      && StepsOk(steps, categories)
      && FilesOk(files, blobs)
    }

    constructor()
      ensures Valid()
      ensures users == map[] && categories == map[] && projects == map[]
      ensures steps == map[] && files == map[] && blobs == map[]
    {
      users := map[];
      categories := map[];
      projects := map[];
      steps := map[];
      files := map[];
      blobs := map[];
    }
  }

  /**
   * `CategoriesColl.FindOne({nameCategory: name})`. Names are unique, so
   * the category found is the only one with that name.
   */
  method FindCategoryByName(db: Db, name: string) returns (found: Option<Category>)
    requires db.Valid()
    ensures found.None? <==> !HasName(db.categories, name)
    ensures found.Some? ==> found.value.id in db.categories && db.categories[found.value.id] == found.value
    ensures found.Some? ==> found.value.nameCategory == name
    ensures found.Some? ==> forall k | k in db.categories && db.categories[k].nameCategory == name :: k == found.value.id
    ensures found.Some? ==> found.value.id == CategoryNamed(db.categories, name)
  {
    if k :| k in db.categories && db.categories[k].nameCategory == name {
      CategoryNamedUnique(db.categories, name, k);
      found := Some(db.categories[k]);
    } else {
      found := None;
    }
  }

  /** The category carrying `name`; with unique names it is the only one. */
  ghost function CategoryNamed(cats: map<ObjectId, Category>, name: string): (k: ObjectId)
    requires HasName(cats, name)
    ensures k in cats && cats[k].nameCategory == name
  {
    var k :| k in cats && cats[k].nameCategory == name; k
  }

  lemma CategoryNamedUnique(cats: map<ObjectId, Category>, name: string, k: ObjectId)
    requires NamesDistinct(cats) && k in cats && cats[k].nameCategory == name
    ensures HasName(cats, name) && CategoryNamed(cats, name) == k
  {
  }

  /**
   * The category a `:category` path parameter names, as the project
   * handlers resolve it: the normal form must be non-empty and carried by
   * a stored category.
   */
  ghost function CategoryOf(cats: map<ObjectId, Category>, rawCategory: string): (r: Result<ObjectId>)
    ensures r.Ok? <==> CategoryNames.Norm(rawCategory) != "" && HasName(cats, CategoryNames.Norm(rawCategory))
    ensures r.Ok? ==> r.value in cats && cats[r.value].nameCategory == CategoryNames.Norm(rawCategory)
    ensures r.Err? ==> r.failure.status == BadRequest
  {
    var name := CategoryNames.Norm(rawCategory);
    if name == "" then Err(Failure(BadRequest, "Category is required"))
    else if !HasName(cats, name) then Err(Failure(BadRequest, "Category not found"))
    else Ok(CategoryNamed(cats, name))
  }

  /** Differently cased spellings of a category name resolve alike. */
  lemma CategoryOfIgnoresCase(cats: map<ObjectId, Category>, a: string, b: string)
    requires CategoryNames.SameLetters(a, b)
    ensures CategoryOf(cats, a) == CategoryOf(cats, b)
  {
    CategoryNames.NormIgnoresCase(a, b);
  }

  method ResolveCategory(db: Db, rawCategory: string) returns (r: Result<ObjectId>)
    requires db.Valid()
    ensures r == CategoryOf(db.categories, rawCategory)
  {
    var name := CategoryNames.Norm(rawCategory);
    if name == "" {
      return Err(Failure(BadRequest, "Category is required"));
    }
    var category := FindCategoryByName(db, name);
    if category.None? {
      return Err(Failure(BadRequest, "Category not found"));
    }
    r := Ok(category.value.id);
  }

  /** `ProjectsColl.InsertOne` or a replacing update: the project under its own key. */
  method PutProject(db: Db, p: Project)
    requires db.Valid() && p.categoryId in db.categories
    modifies db`projects
    ensures db.Valid() && db.projects == old(db.projects)[p.id := p]
  {
    db.projects := db.projects[p.id := p];
  }

  /** `ProjectsColl.DeleteOne` by id. */
  method RemoveProject(db: Db, id: ObjectId)
    requires db.Valid()
    modifies db`projects
    ensures db.Valid() && db.projects == old(db.projects) - {id}
  {
    db.projects := db.projects - {id};
  }

  /** `CategoriesColl.DeleteOne` of a category no project and no service step is filed under. */
  method RemoveCategory(db: Db, id: ObjectId)
    requires db.Valid()
    requires forall k | k in db.projects :: db.projects[k].categoryId != id
    requires forall k | k in db.steps :: db.steps[k].categoryId != id
    modifies db`categories
    ensures db.Valid() && db.categories == old(db.categories) - {id}
  {
    db.categories := db.categories - {id};
  }

  /** The refusal every JWT-protected handler answers when the token carries no email. */
  const InvalidClaims: Failure := Failure(Unauthorized, "Invalid token claims")
}
