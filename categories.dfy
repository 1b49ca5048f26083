/**
 * The category endpoints of the Go backend: adding, listing, renaming and
 * deleting the categories projects and service steps are filed under.
 * Names are stored in their normal form (`CategoryNames.Norm`) and are
 * unique across the collection; a category still referenced by a project
 * or a service step cannot be deleted.
 */
module Categories {
  import opened Base
  import opened ObjectIds
  import opened Store
  import CategoryNames
  import Seqs

  /** The guards of `AddCategoryHandler`; on success, the name to store. */
  function AddCheck(cats: map<ObjectId, Category>, claims: Option<string>, rawName: string): (r: Result<string>)
    ensures r.Ok? <==> claims.Some? && rawName != "" && !HasName(cats, CategoryNames.Norm(rawName))
    ensures r.Ok? ==> r.value == CategoryNames.Norm(rawName) && r.value != ""
    ensures claims.Some? && rawName == "" ==> r == Err(Failure(BadRequest, "NameCategory is required"))
  {
    if claims.None? then Err(InvalidClaims)
    else if rawName == "" then Err(Failure(BadRequest, "NameCategory is required"))
    else
      var name := CategoryNames.Norm(rawName);
      if HasName(cats, name) then Err(Failure(BadRequest, "Category already exists"))
      else Ok(name)
  }

  /**
   * `AddCategoryHandler`: the normal form of the name is stored under a
   * fresh identifier unless some category already carries it.
   */
  method AddCategory(db: Db, claims: Option<string>, rawName: string, newId: ObjectId)
    returns (r: Result<Category>)
    requires db.Valid() && newId !in db.categories
    modifies db`categories
    ensures db.Valid()
    ensures var check := old(AddCheck(db.categories, claims, rawName));
      && (check.Err? ==> r == Err(check.failure) && db.categories == old(db.categories))
      && (check.Ok? ==>
            && r == Ok(Category(newId, check.value, None))
            && db.categories == old(db.categories)[newId := r.value])
  {
    if claims.None? {
      return Err(InvalidClaims);
    }
    if rawName == "" {
      return Err(Failure(BadRequest, "NameCategory is required"));
    }
    var name := CategoryNames.Norm(rawName);
    var existing := FindCategoryByName(db, name);
    if existing.Some? {
      return Err(Failure(BadRequest, "Category already exists"));
    }
    CategoryNames.NormIdempotent(rawName);
    var category := Category(newId, name, None);
    db.categories := db.categories[newId := category];
    r := Ok(category);
  }

  /**
   * Once a name has been added, adding it again in any letter case is
   * refused: spellings that differ only in case collide.
   */
  lemma AddTwiceConflicts(cats: map<ObjectId, Category>, claims: Option<string>,
                          first: string, second: string, newId: ObjectId)
    requires AddCheck(cats, claims, first).Ok?
    requires CategoryNames.SameLetters(first, second)
    ensures AddCheck(cats[newId := Category(newId, AddCheck(cats, claims, first).value, None)], claims, second)
      == Err(Failure(BadRequest, "Category already exists"))
  {
    var cats' := cats[newId := Category(newId, CategoryNames.Norm(first), None)];
    CategoryNames.NormIgnoresCase(first, second);
    assert |second| == |first| by {
      assert |CategoryNames.Norm(second)| == |second|;
    }
    assert cats'[newId].nameCategory == CategoryNames.Norm(second);
  }

  /** Adding keeps every category name distinct from every other. */
  lemma AddKeepsNamesDistinct(cats: map<ObjectId, Category>, claims: Option<string>,
                              rawName: string, newId: ObjectId)
    requires NamesDistinct(cats) && newId !in cats
    requires AddCheck(cats, claims, rawName).Ok?
    ensures NamesDistinct(cats[newId := Category(newId, AddCheck(cats, claims, rawName).value, None)])
  {
    var name := CategoryNames.Norm(rawName);
    var cats' := cats[newId := Category(newId, name, None)];
    forall j, k | j in cats' && k in cats' && j != k
      ensures cats'[j].nameCategory != cats'[k].nameCategory
    {
      if j == newId {
        assert cats'[k] == cats[k];
      } else if k == newId {
        assert cats'[j] == cats[j];
      }
    }
  }

  /** `GetCategoriesHandler`: every stored category once, in the collection's natural order. */
  method GetCategories(db: Db, order: seq<ObjectId>) returns (cs: seq<Category>, count: nat)
    requires forall i | 0 <= i < |order| :: order[i] in db.categories
    requires forall k | k in db.categories :: k in order
    requires Seqs.NoDuplicates(order)
    ensures forall c :: c in cs <==> c in db.categories.Values
    ensures count == |cs| == |db.categories|
  {
    var cats := db.categories;
    cs := seq(|order|, i requires 0 <= i < |order| => cats[order[i]]);
    forall c | c in cats.Values ensures c in cs {
      var k :| k in cats && cats[k] == c;
      var i :| 0 <= i < |order| && order[i] == k;
      assert cs[i] == c;
    }
    assert db.categories.Keys == set k | k in order;
    Seqs.NoDuplicatesCardinality(order);
    count := |cs|;
  }

  /** The guards of `UpdateCategoryHandler`; on success, the category to rename and its new name. */
  function UpdateCheck(cats: map<ObjectId, Category>, claims: Option<string>, rawId: string, rawName: string)
    : (r: Result<(ObjectId, string)>)
    ensures r.Ok? <==>
      && claims.Some? && rawId != "" && rawName != "" && FromHex(rawId).Some?
      && FromHex(rawId).value in cats
      && !HasNameExcept(cats, CategoryNames.Norm(rawName), FromHex(rawId).value)
    ensures r.Ok? ==> r.value == (FromHex(rawId).value, CategoryNames.Norm(rawName))
    ensures claims.Some? && rawId != "" && rawName != "" && FromHex(rawId).Some? && FromHex(rawId).value !in cats
      ==> r == Err(Failure(NotFound, "Category not found"))
  {
    if claims.None? then Err(InvalidClaims)
    else if rawId == "" then Err(Failure(BadRequest, "Category ID is required"))
    else if rawName == "" then Err(Failure(BadRequest, "NameCategory is required"))
    else
      var name := CategoryNames.Norm(rawName);
      match FromHex(rawId)
      case None => Err(Failure(BadRequest, "Invalid category ID"))
      case Some(id) =>
        if id !in cats then Err(Failure(NotFound, "Category not found"))
        else if HasNameExcept(cats, name, id) then Err(Failure(BadRequest, "Category name already exists"))
        else Ok((id, name))
  }

  /**
   * `UpdateCategoryHandler`: only the name (in normal form) and the update
   * time of the addressed category change; a name another category
   * carries is refused.
   */
  method UpdateCategory(db: Db, claims: Option<string>, rawId: string, rawName: string, now: int)
    returns (r: Result<Category>)
    requires db.Valid()
    modifies db`categories
    ensures db.Valid()
    ensures var check := old(UpdateCheck(db.categories, claims, rawId, rawName));
      && (check.Err? ==> r == Err(check.failure) && db.categories == old(db.categories))
      && (check.Ok? ==>
            && r == Ok(Category(check.value.0, check.value.1, Some(now)))
            && db.categories == old(db.categories)[check.value.0 := r.value])
  {
    if claims.None? {
      return Err(InvalidClaims);
    }
    if rawId == "" {
      return Err(Failure(BadRequest, "Category ID is required"));
    }
    if rawName == "" {
      return Err(Failure(BadRequest, "NameCategory is required"));
    }
    var name := CategoryNames.Norm(rawName);
    var id := FromHex(rawId);
    if id.None? {
      return Err(Failure(BadRequest, "Invalid category ID"));
    }
    if id.value !in db.categories {
      return Err(Failure(NotFound, "Category not found"));
    }
    if k :| k in db.categories && k != id.value && db.categories[k].nameCategory == name {
      return Err(Failure(BadRequest, "Category name already exists"));
    }
    CategoryNames.NormIdempotent(rawName);
    var updated := Category(id.value, name, Some(now));
    RenameKeepsNamesDistinct(db.categories, id.value, name, now);
    db.categories := db.categories[id.value := updated];
    r := Ok(updated);
  }

  lemma RenameKeepsNamesDistinct(cats: map<ObjectId, Category>, id: ObjectId, name: string, now: int)
    requires NamesDistinct(cats) && !HasNameExcept(cats, name, id)
    ensures NamesDistinct(cats[id := Category(id, name, Some(now))])
  {
    var cats' := cats[id := Category(id, name, Some(now))];
    forall j, k | j in cats' && k in cats' && j != k
      ensures cats'[j].nameCategory != cats'[k].nameCategory
    {
      if j == id {
        assert cats'[k] == cats[k];
      } else if k == id {
        assert cats'[j] == cats[j];
      }
    }
  }

  /**
   * Renaming a category to its own name, in any letter case, is allowed:
   * the duplicate check skips the category being renamed.
   */
  lemma RenameToOwnNameAllowed(cats: map<ObjectId, Category>, claims: Option<string>, id: ObjectId, rawName: string)
    requires NamesDistinct(cats) && claims.Some? && id in cats
    requires rawName != "" && CategoryNames.Norm(rawName) == cats[id].nameCategory
    ensures UpdateCheck(cats, claims, id, rawName) == Ok((id, cats[id].nameCategory))
  {
    HexRoundTrip(id);
    assert !HasNameExcept(cats, CategoryNames.Norm(rawName), id);
  }

  /** Renaming to a name another category carries is refused, whatever its letter case. */
  lemma RenameToOtherNameRefused(cats: map<ObjectId, Category>, claims: Option<string>,
                                 id: ObjectId, other: ObjectId, rawName: string)
    requires claims.Some? && id in cats && other in cats && other != id
    requires rawName != "" && CategoryNames.SameLetters(rawName, cats[other].nameCategory)
    requires CategoryNames.Norm(cats[other].nameCategory) == cats[other].nameCategory
    ensures UpdateCheck(cats, claims, id, rawName) == Err(Failure(BadRequest, "Category name already exists"))
  {
    HexRoundTrip(id);
    CategoryNames.NormIgnoresCase(rawName, cats[other].nameCategory);
  }

  /** Some project or service step is filed under the category `id`. */
  predicate InUse(projects: map<ObjectId, Project>, steps: map<ObjectId, ServiceStep>, id: ObjectId) {
    (exists k | k in projects :: projects[k].categoryId == id)
    || (exists k | k in steps :: steps[k].categoryId == id)
  }

  /** The guards of `DeleteCategoryHandler`; on success, the category to remove. */
  function DeleteCheck(cats: map<ObjectId, Category>, projects: map<ObjectId, Project>,
                       steps: map<ObjectId, ServiceStep>, claims: Option<string>, rawId: string)
    : (r: Result<ObjectId>)
    ensures r.Ok? <==>
      && claims.Some? && FromHex(rawId).Some? && FromHex(rawId).value in cats
      && !InUse(projects, steps, FromHex(rawId).value)
    ensures r.Ok? ==> r.value == FromHex(rawId).value
    ensures claims.Some? && rawId != "" && FromHex(rawId).None? ==> r == Err(Failure(BadRequest, "Invalid category ID"))
  {
    if claims.None? then Err(InvalidClaims)
    else if rawId == "" then Err(Failure(BadRequest, "Category ID is required"))
    else match FromHex(rawId)
      case None => Err(Failure(BadRequest, "Invalid category ID"))
      case Some(id) =>
        if id !in cats then Err(Failure(NotFound, "Category not found"))
        else if exists k | k in projects :: projects[k].categoryId == id then
          Err(Failure(BadRequest, "Cannot delete category with associated projects"))
        else if exists k | k in steps :: steps[k].categoryId == id then
          Err(Failure(BadRequest, "Cannot delete category with associated service steps"))
        else Ok(id)
  }

  /**
   * `DeleteCategoryHandler`: a category nothing refers to is removed, and
   * only it; one that some project or service step is filed under stays.
   */
  method DeleteCategory(db: Db, claims: Option<string>, rawId: string) returns (r: Result<()>)
    requires db.Valid()
    modifies db`categories
    ensures db.Valid()
    ensures var check := old(DeleteCheck(db.categories, db.projects, db.steps, claims, rawId));
      && (check.Err? ==> r == Err(check.failure) && db.categories == old(db.categories))
      && (check.Ok? ==> r == Ok(()) && db.categories == old(db.categories) - {check.value})
  {
    ghost var check := DeleteCheck(db.categories, db.projects, db.steps, claims, rawId);
    if claims.None? {
      return Err(InvalidClaims);
    }
    if rawId == "" {
      return Err(Failure(BadRequest, "Category ID is required"));
    }
    var id := FromHex(rawId);
    if id.None? {
      return Err(Failure(BadRequest, "Invalid category ID"));
    }
    if id.value !in db.categories {
      return Err(Failure(NotFound, "Category not found"));
    }
    if k :| k in db.projects && db.projects[k].categoryId == id.value {
      return Err(Failure(BadRequest, "Cannot delete category with associated projects"));
    }
    if k :| k in db.steps && db.steps[k].categoryId == id.value {
      return Err(Failure(BadRequest, "Cannot delete category with associated service steps"));
    }
    RemoveCategory(db, id.value);
    r := Ok(());
  }

  lemma UnusedRemovalKeepsReferences(cats: map<ObjectId, Category>, projects: map<ObjectId, Project>,
                                     steps: map<ObjectId, ServiceStep>, id: ObjectId)
    requires ProjectsOk(projects, cats) && StepsOk(steps, cats) && !InUse(projects, steps, id)
    ensures ProjectsOk(projects, cats - {id}) && StepsOk(steps, cats - {id})
  {
  }

  /**
   * A category with a project filed under it is never deleted, whoever
   * asks and however the id is spelled.
   */
  lemma DeleteRefusedWhileReferenced(cats: map<ObjectId, Category>, projects: map<ObjectId, Project>,
                                     steps: map<ObjectId, ServiceStep>, claims: Option<string>, p: ObjectId)
    requires p in projects && projects[p].categoryId in cats
    ensures DeleteCheck(cats, projects, steps, claims, projects[p].categoryId).Err?
    ensures DeleteCheck(cats, projects, steps, claims, Text.Upper(projects[p].categoryId)).Err?
  {
    var id := projects[p].categoryId;
    HexRoundTrip(id);
    FromHexIgnoresCase(id);
    assert InUse(projects, steps, id);
  }
}
