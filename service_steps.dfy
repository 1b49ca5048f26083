/**
 * The service-step endpoints of the Go backend. A service step is a titled
 * list of subtitles, each with its own headings, filed under a category.
 * Every request names the category twice, by name in the path and by id
 * in the body (for writes), and every lookup of a step is scoped to that
 * category.
 */
module ServiceSteps {
  import opened Base
  import opened Seqs
  import opened ObjectIds
  import opened Store
  import CategoryNames

  // ---------------------------------------------------------------------
  // Content of a step

  function IsNonEmpty(h: string): bool { h != "" }

  /** A subtitle with its empty headings dropped, the rest in order and untrimmed. */
  function Cleaned(s: Subtitle): (c: Subtitle)
    ensures c.text == s.text && "" !in c.headings && |c.headings| <= |s.headings|
  {
    Subtitle(s.text, Filter(s.headings, IsNonEmpty))
  }

  /** A subtitle that says something: some text, or some non-empty heading. */
  predicate HasText(s: Subtitle) {
    s.text != "" || Cleaned(s).headings != []
  }

  /** Cleaning a second time changes nothing. */
  lemma CleanedIdempotent(s: Subtitle)
    ensures Cleaned(Cleaned(s)) == Cleaned(s)
    ensures HasText(Cleaned(s)) == HasText(s)
  {
    FilterKeepsAll(Cleaned(s).headings, IsNonEmpty);
  }

  /**
   * The filter the handlers evidently intend: the subtitles with text or a
   * non-empty heading, in order, each cleaned of its empty headings. The
   * handlers themselves keep by the headings before cleaning
   * (`KeptAsWritten`).
   */
  function Kept(subs: seq<Subtitle>): (r: seq<Subtitle>)
    ensures |r| <= |subs|
    ensures forall i | 0 <= i < |r| :: HasText(r[i]) && "" !in r[i].headings
    ensures forall i | 0 <= i < |r| :: exists j | 0 <= j < |subs| :: r[i] == Cleaned(subs[j])
  {
    if subs == [] then []
    else
      var rest := Kept(subs[1..]);
      FromTail(subs, rest);
      if HasText(subs[0]) then
        CleanedIdempotent(subs[0]);
        [Cleaned(subs[0])] + rest
      else rest
  }

  /** What comes from the tail of a list comes from the list. */
  lemma FromTail(subs: seq<Subtitle>, rest: seq<Subtitle>)
    requires subs != []
    requires forall i | 0 <= i < |rest| :: exists j | 0 <= j < |subs[1..]| :: rest[i] == Cleaned(subs[1..][j])
    ensures forall i | 0 <= i < |rest| :: CleanedFrom(rest[i], subs)
  {
    forall i | 0 <= i < |rest| ensures CleanedFrom(rest[i], subs) {
      var j :| 0 <= j < |subs[1..]| && rest[i] == Cleaned(subs[1..][j]);
      assert subs[j + 1] == subs[1..][j];
    }
  }

  /** `x` is some subtitle of `subs`, cleaned. */
  ghost predicate CleanedFrom(x: Subtitle, subs: seq<Subtitle>) {
    exists j | 0 <= j < |subs| :: x == Cleaned(subs[j])
  }

  /** Keeping distributes over concatenation: the order of the input is kept. */
  lemma {:induction false} KeptConcat(a: seq<Subtitle>, b: seq<Subtitle>)
    ensures Kept(a + b) == Kept(a) + Kept(b)
  {
    if a == [] {
      assert a + b == b;
    } else {
      assert (a + b)[0] == a[0];
      assert (a + b)[1..] == a[1..] + b;
      KeptConcat(a[1..], b);
    }
  }

  /** Every subtitle with content passes the intended filter, cleaned. */
  lemma {:induction false} KeptKeepsContent(subs: seq<Subtitle>, j: nat)
    requires j < |subs| && HasText(subs[j])
    ensures Cleaned(subs[j]) in Kept(subs)
  {
    if j > 0 {
      KeptKeepsContent(subs[1..], j - 1);
    }
  }

  /** Filtering what was already filtered changes nothing. */
  lemma {:induction false} KeptIdempotent(subs: seq<Subtitle>)
    ensures Kept(Kept(subs)) == Kept(subs)
  {
    if subs != [] {
      KeptIdempotent(subs[1..]);
      var rest := Kept(subs[1..]);
      if HasText(subs[0]) {
        CleanedIdempotent(subs[0]);
        assert ([Cleaned(subs[0])] + rest)[1..] == rest;
      }
    }
  }

  /** Some subtitle has content exactly when the intended filter keeps something. */
  lemma {:induction false} ContentIffKept(subs: seq<Subtitle>)
    ensures (exists i | 0 <= i < |subs| :: HasText(subs[i])) <==> Kept(subs) != []
  {
    if subs != [] {
      ContentIffKept(subs[1..]);
      if exists i | 0 <= i < |subs| :: HasText(subs[i]) {
        var i :| 0 <= i < |subs| && HasText(subs[i]);
        if i > 0 {
          assert HasText(subs[1..][i - 1]);
        }
      } else {
        forall i | 0 <= i < |subs[1..]| ensures !HasText(subs[1..][i]) {
          assert subs[1..][i] == subs[i + 1];
        }
      }
    }
  }

  /**
   * The content check of the step handlers: a loop that stops at the first
   * subtitle with text or with any heading, empty ones included.
   */
  method HasContent(subs: seq<Subtitle>) returns (found: bool)
    ensures found <==> exists i | 0 <= i < |subs| :: CountsAsWritten(subs[i])
  {
    found := false;
    var i := 0;
    while i < |subs|
      invariant 0 <= i <= |subs|
      invariant !found
      invariant forall k | 0 <= k < i :: !CountsAsWritten(subs[k])
    {
      if subs[i].text != "" || |subs[i].headings| > 0 {
        found := true;
        break;
      }
      i := i + 1;
    }
  }

  /**
   * The filter loops of the step handlers: a subtitle with text or any
   * heading is kept, and its empty headings are dropped.
   */
  method FilterSubtitles(subs: seq<Subtitle>) returns (filtered: seq<Subtitle>)
    ensures filtered == KeptAsWritten(subs)
  {
    filtered := [];
    var i := 0;
    while i < |subs|
      invariant 0 <= i <= |subs|
      invariant filtered == KeptAsWritten(subs[..i])
    {
      assert subs[..i + 1] == subs[..i] + [subs[i]];
      KeptAsWrittenConcat(subs[..i], [subs[i]]);
      KeptAsWrittenOne(subs[i]);
      if subs[i].text != "" || |subs[i].headings| > 0 {
        var filteredHeadings := FilterHeadings(subs[i].headings);
        filtered := filtered + [Subtitle(subs[i].text, filteredHeadings)];
      }
      i := i + 1;
    }
    assert subs[..i] == subs;
  }

  /** The inner loop: the headings of one subtitle without the empty ones. */
  method FilterHeadings(headings: seq<string>) returns (filtered: seq<string>)
    ensures filtered == Filter(headings, IsNonEmpty)
  {
    filtered := [];
    var j := 0;
    while j < |headings|
      invariant 0 <= j <= |headings|
      invariant filtered == Filter(headings[..j], IsNonEmpty)
    {
      assert headings[..j + 1] == headings[..j] + [headings[j]];
      FilterSnoc(headings[..j], headings[j], IsNonEmpty);
      if headings[j] != "" {
        filtered := filtered + [headings[j]];
      }
      j := j + 1;
    }
    assert headings[..j] == headings;
  }

  lemma KeptAsWrittenOne(s: Subtitle)
    ensures KeptAsWritten([s]) == if CountsAsWritten(s) then [Cleaned(s)] else []
  {
    assert [s][1..] == [];
  }

  // ---------------------------------------------------------------------
  // The check as the handlers write it

  /** The handlers' own test for content: some text, or any heading at all. */
  predicate CountsAsWritten(s: Subtitle) {
    s.text != "" || |s.headings| > 0
  }

  /** The handlers' filter: the keep test looks at the headings before empty ones are dropped. */
  function KeptAsWritten(subs: seq<Subtitle>): (r: seq<Subtitle>)
    ensures |r| <= |subs|
    ensures forall i | 0 <= i < |r| :: "" !in r[i].headings
  {
    if subs == [] then []
    else if CountsAsWritten(subs[0]) then [Cleaned(subs[0])] + KeptAsWritten(subs[1..])
    else KeptAsWritten(subs[1..])
  }

  /** `xs.map(Cleaned)`. */
  function CleanAll(subs: seq<Subtitle>): (r: seq<Subtitle>)
    ensures |r| == |subs| && forall i | 0 <= i < |r| :: r[i] == Cleaned(subs[i])
  {
    seq(|subs|, i requires 0 <= i < |subs| => Cleaned(subs[i]))
  }

  /**
   * The handlers store exactly the subtitles with text or any heading, in
   * their order, each cleaned of its empty headings.
   */
  lemma {:induction false} KeptAsWrittenExactly(subs: seq<Subtitle>)
    ensures KeptAsWritten(subs) == CleanAll(Filter(subs, CountsAsWritten))
  {
    if subs != [] {
      var tail := Filter(subs[1..], CountsAsWritten);
      KeptAsWrittenExactly(subs[1..]);
      if CountsAsWritten(subs[0]) {
        assert Filter(subs, CountsAsWritten) == [subs[0]] + tail;
        CleanAllCons(subs[0], tail);
      } else {
        assert Filter(subs, CountsAsWritten) == tail;
      }
    }
  }

  lemma CleanAllCons(s: Subtitle, subs: seq<Subtitle>)
    ensures CleanAll([s] + subs) == [Cleaned(s)] + CleanAll(subs)
  {
    var l, r := CleanAll([s] + subs), [Cleaned(s)] + CleanAll(subs);
    forall i | 0 <= i < |l| ensures l[i] == r[i] {
      if i > 0 {
        assert ([s] + subs)[i] == subs[i - 1];
      }
    }
  }

  /** The handlers' filter distributes over concatenation: the order of the input is kept. */
  lemma {:induction false} KeptAsWrittenConcat(a: seq<Subtitle>, b: seq<Subtitle>)
    ensures KeptAsWritten(a + b) == KeptAsWritten(a) + KeptAsWritten(b)
  {
    if a == [] {
      assert a + b == b;
    } else {
      assert (a + b)[0] == a[0];
      assert (a + b)[1..] == a[1..] + b;
      KeptAsWrittenConcat(a[1..], b);
    }
  }

  /** The handlers' content check passes exactly when their filter stores something. */
  lemma {:induction false} ContentIffKeptAsWritten(subs: seq<Subtitle>)
    ensures (exists i | 0 <= i < |subs| :: CountsAsWritten(subs[i])) <==> KeptAsWritten(subs) != []
  {
    if subs != [] {
      ContentIffKeptAsWritten(subs[1..]);
      if exists i | 0 <= i < |subs| :: CountsAsWritten(subs[i]) {
        var i :| 0 <= i < |subs| && CountsAsWritten(subs[i]);
        if i > 0 {
          assert CountsAsWritten(subs[1..][i - 1]);
        }
      } else {
        forall i | 0 <= i < |subs[1..]| ensures !CountsAsWritten(subs[1..][i]) {
          assert subs[1..][i] == subs[i + 1];
        }
      }
    }
  }

  /**
   * A subtitle with no text and only empty headings passes the handlers'
   * check and is stored as an empty subtitle, which a second pass of the
   * same filter would drop; keeping by the cleaned headings stores nothing
   * for it.
   */
  lemma EmptySubtitleStoredAsWritten()
    ensures CountsAsWritten(Subtitle("", [""]))
    ensures KeptAsWritten([Subtitle("", [""])]) == [Subtitle("", [])]
    ensures KeptAsWritten(KeptAsWritten([Subtitle("", [""])])) == []
    ensures !HasText(Subtitle("", [""])) && Kept([Subtitle("", [""])]) == []
  {
    assert Filter([""], IsNonEmpty) == [] by {
      assert [""][1..] == [];
    }
  }

  /** Where the handlers' check and the intended one differ, only such subtitles are involved. */
  lemma AsWrittenDiffersOnlyOnEmptyHeadings(s: Subtitle)
    ensures HasText(s) ==> CountsAsWritten(s)
    ensures CountsAsWritten(s) && !HasText(s) ==> s.text == "" && |s.headings| > 0 && forall h | h in s.headings :: h == ""
  {
    if CountsAsWritten(s) && !HasText(s) {
      forall h | h in s.headings ensures h == "" {
        assert h in s.headings && IsNonEmpty(h) ==> h in Filter(s.headings, IsNonEmpty);
      }
    }
  }

  // ---------------------------------------------------------------------
  // Handlers

  /** The JSON body of a write: the category id, the title and the subtitles. */
  datatype StepRequest = StepRequest(categories: string, title: string, subtitles: seq<Subtitle>)

  /**
   * The checks `AddServiceStepHandler` and `UpdateServiceStepsHandler`
   * make of the body: on success, the category id it names, which must
   * be the category the path names.
   */
  ghost function BodyCheck(cats: map<ObjectId, Category>, categoryName: string, req: StepRequest): (r: Result<ObjectId>)
    ensures r.Ok? <==>
      && req.categories != "" && req.title != ""
      && (exists i | 0 <= i < |req.subtitles| :: CountsAsWritten(req.subtitles[i]))
      && FromHex(req.categories).Some? && FromHex(req.categories).value in cats
      && cats[FromHex(req.categories).value].nameCategory == categoryName
    ensures r.Ok? ==> r.value == FromHex(req.categories).value
    ensures r.Err? ==> r.failure.status == BadRequest
  {
    if req.categories == "" then Err(Failure(BadRequest, "Categories field is required"))
    else if req.title == "" then Err(Failure(BadRequest, "Service step title is required"))
    else if !exists i | 0 <= i < |req.subtitles| :: CountsAsWritten(req.subtitles[i]) then
      Err(Failure(BadRequest, "At least one subtitle or heading is required"))
    else match FromHex(req.categories)
      case None => Err(Failure(BadRequest, "Invalid categories ID"))
      case Some(cid) =>
        if cid !in cats then Err(Failure(BadRequest, "Category not found"))
        else if cats[cid].nameCategory != categoryName then
          Err(Failure(BadRequest, "Category ID does not match category name in URL"))
        else Ok(cid)
  }

  method CheckBody(db: Db, categoryName: string, req: StepRequest) returns (r: Result<ObjectId>)
    ensures r == BodyCheck(db.categories, categoryName, req)
  {
    if req.categories == "" {
      return Err(Failure(BadRequest, "Categories field is required"));
    }
    if req.title == "" {
      return Err(Failure(BadRequest, "Service step title is required"));
    }
    var hasContent := HasContent(req.subtitles);
    if !hasContent {
      return Err(Failure(BadRequest, "At least one subtitle or heading is required"));
    }
    var cid := FromHex(req.categories);
    if cid.None? {
      return Err(Failure(BadRequest, "Invalid categories ID"));
    }
    if cid.value !in db.categories {
      return Err(Failure(BadRequest, "Category not found"));
    }
    if db.categories[cid.value].nameCategory != categoryName {
      return Err(Failure(BadRequest, "Category ID does not match category name in URL"));
    }
    r := Ok(cid.value);
  }

  /**
   * The body's category id is accepted only for the category the path
   * names, in any letter case of the path: the body cannot file a step
   * under another category than the path's.
   */
  lemma BodyMatchesPath(cats: map<ObjectId, Category>, rawCategory: string, req: StepRequest)
    requires NamesDistinct(cats)
    requires BodyCheck(cats, CategoryNames.Norm(rawCategory), req).Ok?
    requires CategoryNames.Norm(rawCategory) != ""
    ensures CategoryOf(cats, rawCategory) == BodyCheck(cats, CategoryNames.Norm(rawCategory), req)
  {
    var cid := BodyCheck(cats, CategoryNames.Norm(rawCategory), req).value;
    CategoryNamedUnique(cats, CategoryNames.Norm(rawCategory), cid);
  }

  /** The checks every step handler starts with: a token with an email, then a category name in the path. */
  function PathCheck(claims: Option<string>, rawCategory: string): (r: Result<string>)
    ensures r.Ok? <==> claims.Some? && rawCategory != ""
    ensures r.Ok? ==> r.value == CategoryNames.Norm(rawCategory)
  {
    if claims.None? then Err(InvalidClaims)
    else
      var name := CategoryNames.Norm(rawCategory);
      if name == "" then Err(Failure(BadRequest, "Category is required")) else Ok(name)
  }

  /**
   * `AddServiceStepHandler`: a step with the title and the kept subtitles
   * is filed under the category both the path and the body name.
   */
  method AddServiceStep(db: Db, claims: Option<string>, rawCategory: string, req: StepRequest,
                        newId: ObjectId, now: int)
    returns (r: Result<ServiceStep>)
    requires db.Valid() && newId !in db.steps
    modifies db`steps
    ensures db.Valid()
    ensures var path := PathCheck(claims, rawCategory);
      var body := if path.Ok? then old(BodyCheck(db.categories, path.value, req)) else Err(path.failure);
      && (body.Err? ==> r == Err(body.failure) && db.steps == old(db.steps))
      && (body.Ok? ==>
            && r == Ok(ServiceStep(newId, body.value, req.title, KeptAsWritten(req.subtitles), now, None))
            && db.steps == old(db.steps)[newId := r.value])
  {
    var path := PathCheck(claims, rawCategory);
    if path.Err? {
      return Err(path.failure);
    }
    var cid := CheckBody(db, path.value, req);
    if cid.Err? {
      return Err(cid.failure);
    }
    var subtitles := FilterSubtitles(req.subtitles);
    var step := ServiceStep(newId, cid.value, req.title, subtitles, now, None);
    db.steps := db.steps[newId := step];
    r := Ok(step);
  }

  /** The step `rawStepId` names, if it is filed under `cid`. */
  function ScopedStep(steps: map<ObjectId, ServiceStep>, rawStepId: string, cid: ObjectId): (r: Result<ServiceStep>)
    ensures r.Ok? <==>
      FromHex(rawStepId).Some? && FromHex(rawStepId).value in steps
      && steps[FromHex(rawStepId).value].categoryId == cid
    ensures r.Ok? ==> r.value == steps[FromHex(rawStepId).value] && r.value.categoryId == cid
  {
    match FromHex(rawStepId)
    case None => Err(Failure(BadRequest, "Invalid step ID"))
    case Some(id) =>
      if id in steps && steps[id].categoryId == cid then Ok(steps[id])
      else Err(Failure(NotFound, "Service step not found"))
  }

  /** The guards of `UpdateServiceStepsHandler`; on success, the step to overwrite and its category. */
  ghost function UpdateCheck(db: Db, claims: Option<string>, rawStepId: string, rawCategory: string, req: StepRequest)
    : Result<(ServiceStep, ObjectId)>
    reads db
  {
    if claims.None? then Err(InvalidClaims)
    else if rawStepId == "" then Err(Failure(BadRequest, "Step ID is required"))
    else
      var path := PathCheck(claims, rawCategory);
      if path.Err? then Err(path.failure)
      else
        var body := BodyCheck(db.categories, path.value, req);
        if body.Err? then Err(body.failure)
        else
          var step := ScopedStep(db.steps, rawStepId, body.value);
          if step.Err? then Err(step.failure) else Ok((step.value, body.value))
  }

  /**
   * `UpdateServiceStepsHandler`: a step filed under the named category gets
   * the new title, the kept subtitles, the same category and an update
   * time; its id and creation time stay.
   */
  method UpdateServiceStep(db: Db, claims: Option<string>, rawStepId: string, rawCategory: string,
                           req: StepRequest, now: int)
    returns (r: Result<ServiceStep>)
    requires db.Valid()
    modifies db`steps
    ensures db.Valid()
    ensures var check := old(UpdateCheck(db, claims, rawStepId, rawCategory, req));
      && (check.Err? ==> r == Err(check.failure) && db.steps == old(db.steps))
      && (check.Ok? ==>
            var old_ := check.value.0;
            && r == Ok(ServiceStep(old_.id, check.value.1, req.title, KeptAsWritten(req.subtitles), old_.createdAt, Some(now)))
            && db.steps == old(db.steps)[old_.id := r.value])
  {
    if claims.None? {
      return Err(InvalidClaims);
    }
    if rawStepId == "" {
      return Err(Failure(BadRequest, "Step ID is required"));
    }
    var path := PathCheck(claims, rawCategory);
    if path.Err? {
      return Err(path.failure);
    }
    var cid := CheckBody(db, path.value, req);
    if cid.Err? {
      return Err(cid.failure);
    }
    var existing := ScopedStep(db.steps, rawStepId, cid.value);
    if existing.Err? {
      return Err(existing.failure);
    }
    var subtitles := FilterSubtitles(req.subtitles);
    var updated := existing.value.(title := req.title, subtitles := subtitles, categoryId := cid.value, updatedAt := Some(now));
    db.steps := db.steps[updated.id := updated];
    r := Ok(updated);
  }

  /**
   * The guards `DeleteServiceStepHandler` and `GetServiceStepHandler` share:
   * a token, a step id, a category the path names, and a step with that id
   * filed under that category.
   */
  ghost function PathScopedStep(db: Db, claims: Option<string>, rawStepId: string, rawCategory: string)
    : Result<ServiceStep>
    reads db
  {
    if claims.None? then Err(InvalidClaims)
    else if rawStepId == "" then Err(Failure(BadRequest, "Step ID is required"))
    else
      var category := CategoryOf(db.categories, rawCategory);
      if category.Err? then Err(category.failure)
      else ScopedStep(db.steps, rawStepId, category.value)
  }

  /** A step in scope belongs to the category the path names, and is the step the id names. */
  lemma PathScopedStepSound(db: Db, claims: Option<string>, rawStepId: string, rawCategory: string)
    ensures var r := PathScopedStep(db, claims, rawStepId, rawCategory);
      r.Ok? ==>
        && FromHex(rawStepId).Some? && FromHex(rawStepId).value in db.steps
        && r.value == db.steps[FromHex(rawStepId).value]
        && r.value.categoryId in db.categories
        && db.categories[r.value.categoryId].nameCategory == CategoryNames.Norm(rawCategory)
    ensures var r := PathScopedStep(db, claims, rawStepId, rawCategory);
      && claims.Some? && rawStepId != "" && CategoryOf(db.categories, rawCategory).Ok?
      && FromHex(rawStepId).Some? && FromHex(rawStepId).value in db.steps
      && db.steps[FromHex(rawStepId).value].categoryId != CategoryOf(db.categories, rawCategory).value
      ==> r == Err(Failure(NotFound, "Service step not found"))
  {
  }

  method FindPathScopedStep(db: Db, claims: Option<string>, rawStepId: string, rawCategory: string)
    returns (r: Result<ServiceStep>)
    requires db.Valid()
    ensures r == PathScopedStep(db, claims, rawStepId, rawCategory)
  {
    if claims.None? {
      return Err(InvalidClaims);
    }
    if rawStepId == "" {
      return Err(Failure(BadRequest, "Step ID is required"));
    }
    var category := ResolveCategory(db, rawCategory);
    if category.Err? {
      return Err(category.failure);
    }
    r := ScopedStep(db.steps, rawStepId, category.value);
  }

  /** `DeleteServiceStepHandler`: only the step filed under the named category is removed. */
  method DeleteServiceStep(db: Db, claims: Option<string>, rawStepId: string, rawCategory: string)
    returns (r: Result<()>)
    requires db.Valid()
    modifies db`steps
    ensures db.Valid()
    ensures var s := old(PathScopedStep(db, claims, rawStepId, rawCategory));
      && (s.Err? ==> r == Err(s.failure) && db.steps == old(db.steps))
      && (s.Ok? ==> r == Ok(()) && db.steps == old(db.steps) - {s.value.id})
  {
    var step := FindPathScopedStep(db, claims, rawStepId, rawCategory);
    if step.Err? {
      return Err(step.failure);
    }
    db.steps := db.steps - {step.value.id};
    r := Ok(());
  }

  /** `GetServiceStepHandler`: the step filed under the named category, and nothing changes. */
  method GetServiceStep(db: Db, claims: Option<string>, rawStepId: string, rawCategory: string)
    returns (r: Result<ServiceStep>)
    requires db.Valid()
    ensures r == PathScopedStep(db, claims, rawStepId, rawCategory)
    ensures r.Ok? ==> r.value in db.steps.Values && r.value.categoryId in db.categories
  {
    r := FindPathScopedStep(db, claims, rawStepId, rawCategory);
    PathScopedStepSound(db, claims, rawStepId, rawCategory);
  }

  /**
   * `GetAllServiceStepsHandler`: the steps filed under the named category,
   * in the collection's natural order `order`.
   */
  method GetServiceSteps(db: Db, claims: Option<string>, rawCategory: string, order: seq<ObjectId>)
    returns (r: Result<seq<ServiceStep>>)
    requires db.Valid()
    requires forall i | 0 <= i < |order| :: order[i] in db.steps
    requires forall k | k in db.steps :: k in order
    requires NoDuplicates(order)
    ensures claims.None? ==> r == Err(InvalidClaims)
    ensures claims.Some? ==> (r.Ok? <==> CategoryOf(db.categories, rawCategory).Ok?)
    ensures claims.Some? && CategoryOf(db.categories, rawCategory).Err? ==>
      r == Err(CategoryOf(db.categories, rawCategory).failure)
    ensures r.Ok? ==> forall s :: s in r.value <==>
      s in db.steps.Values && s.categoryId == CategoryOf(db.categories, rawCategory).value
    ensures r.Ok? ==> NoDuplicates(r.value)
  {
    if claims.None? {
      return Err(InvalidClaims);
    }
    var category := ResolveCategory(db, rawCategory);
    if category.Err? {
      return Err(category.failure);
    }
    var cid := category.value;
    var all := InOrder(db.steps, order);
    InOrderCovers(db.steps, order);
    InOrderOnce(db.steps, order);
    FilterNoDuplicates(all, (s: ServiceStep) => s.categoryId == cid);
    var found := Filter(all, (s: ServiceStep) => s.categoryId == cid);
    r := Ok(found);
  }

  /** The steps read in the order `order` gives their keys. */
  function InOrder(steps: map<ObjectId, ServiceStep>, order: seq<ObjectId>): (r: seq<ServiceStep>)
    requires forall i | 0 <= i < |order| :: order[i] in steps
    ensures |r| == |order| && forall i | 0 <= i < |r| :: r[i] == steps[order[i]]
  {
    seq(|order|, i requires 0 <= i < |order| => steps[order[i]])
  }

  /** An order naming every key reads every step. */
  lemma InOrderCovers(steps: map<ObjectId, ServiceStep>, order: seq<ObjectId>)
    requires forall i | 0 <= i < |order| :: order[i] in steps
    requires forall k | k in steps :: k in order
    ensures forall s :: s in InOrder(steps, order) <==> s in steps.Values
  {
    var all := InOrder(steps, order);
    forall s | s in steps.Values ensures s in all {
      var k :| k in steps && steps[k] == s;
      var i :| 0 <= i < |order| && order[i] == k;
      assert all[i] == s;
    }
  }

  /** Steps keyed by their own ids, read in an order without repeats, come out once each. */
  lemma InOrderOnce(steps: map<ObjectId, ServiceStep>, order: seq<ObjectId>)
    requires forall i | 0 <= i < |order| :: order[i] in steps
    requires forall k | k in steps :: steps[k].id == k
    requires NoDuplicates(order)
    ensures NoDuplicates(InOrder(steps, order))
  {
    var all := InOrder(steps, order);
    forall i, j | 0 <= i < j < |all| ensures all[i] != all[j] {
      assert all[i].id == order[i] && all[j].id == order[j];
    }
  }
}
