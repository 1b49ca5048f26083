/**
 * The static project catalogue of the public site (`lib/data.ts`, which
 * the user application and the public site each carry a copy of) and the
 * queries the pages run on it.
 */
module ProjectCatalog {
  import opened Base
  import Seqs

  /** The fields of a catalogue project the queries read. */
  datatype Project = Project(id: string, title: string, slug: string, category: string,
                             tags: seq<string>, featured: bool)

  /** `getFeaturedProjects`: the featured projects, in catalogue order. */
  function Featured(projects: seq<Project>): (r: seq<Project>)
    ensures forall p :: p in r <==> p in projects && p.featured
    ensures |r| <= |projects|
  {
    Seqs.Filter(projects, (p: Project) => p.featured)
  }

  /** `getProjectBySlug`: the first project with the slug, if any. */
  function BySlug(projects: seq<Project>, slug: string): (r: Option<Project>)
    ensures r.None? <==> forall i | 0 <= i < |projects| :: projects[i].slug != slug
    ensures r.Some? ==> exists i | 0 <= i < |projects| ::
      projects[i] == r.value && r.value.slug == slug && forall j | 0 <= j < i :: projects[j].slug != slug
  {
    if projects == [] then None
    else if projects[0].slug == slug then Some(projects[0])
    else
      var r := BySlug(projects[1..], slug);
      assert forall i | 1 <= i < |projects| :: projects[i] == projects[1..][i - 1];
      if r.Some? then
        var k :| 0 <= k < |projects[1..]| && projects[1..][k] == r.value && r.value.slug == slug
          && forall j | 0 <= j < k :: projects[1..][j].slug != slug;
        assert projects[k + 1] == r.value;
        r
      else r
  }

  /** `projects.map(p => p.category)`. */
  function CategoryList(projects: seq<Project>): (r: seq<string>)
    ensures |r| == |projects|
    ensures forall i | 0 <= i < |r| :: r[i] == projects[i].category
  {
    seq(|projects|, i requires 0 <= i < |projects| => projects[i].category)
  }

  /** `getAllCategories`: each category once, whatever number of projects carry it. */
  function Categories(projects: seq<Project>): (r: seq<string>)
    ensures forall c :: c in r <==> exists i | 0 <= i < |projects| :: projects[i].category == c
    ensures Seqs.NoDuplicates(r)
  {
    var r := Seqs.Distinct(CategoryList(projects));
    assert forall c :: c in CategoryList(projects) <==> exists i | 0 <= i < |projects| :: projects[i].category == c;
    r
  }

  /** The categories come in the order their first project appears in the catalogue. */
  lemma CategoriesInCatalogueOrder(projects: seq<Project>)
    ensures forall i, j | 0 <= i < j < |Categories(projects)| ::
      Seqs.FirstIndex(CategoryList(projects), Categories(projects)[i])
      < Seqs.FirstIndex(CategoryList(projects), Categories(projects)[j])
  {
    Seqs.DistinctFirstOccurrenceOrder(CategoryList(projects));
  }

  /** `getProjectsByCategory`: the projects of one category, in catalogue order. */
  function ByCategory(projects: seq<Project>, category: string): (r: seq<Project>)
    ensures forall p :: p in r <==> p in projects && p.category == category
    ensures |r| <= |projects|
  {
    Seqs.Filter(projects, (p: Project) => p.category == category)
  }

  /** A category page lists as many projects as carry the category. */
  lemma {:induction false} ByCategorySize(projects: seq<Project>, category: string)
    ensures |ByCategory(projects, category)| == Seqs.Count(CategoryList(projects), category)
  {
    if projects != [] {
      var init := projects[..|projects| - 1];
      var last := projects[|projects| - 1];
      assert projects == init + [last];
      ByCategorySize(init, category);
      Seqs.FilterSnoc(init, last, (p: Project) => p.category == category);
      assert CategoryList(projects) == CategoryList(init) + [last.category];
      Seqs.CountSnoc(CategoryList(init), last.category, category);
    }
  }

  /** The sizes of the category pages for `keys`, added up. */
  function PageSizes(projects: seq<Project>, keys: seq<string>): nat {
    if keys == [] then 0 else |ByCategory(projects, keys[0])| + PageSizes(projects, keys[1..])
  }

  lemma {:induction false} PageSizesAreCounts(projects: seq<Project>, keys: seq<string>)
    ensures PageSizes(projects, keys) == Seqs.SumOfCounts(keys, CategoryList(projects))
  {
    if keys != [] {
      ByCategorySize(projects, keys[0]);
      PageSizesAreCounts(projects, keys[1..]);
    }
  }

  /**
   * The category pages of the listed categories together show every
   * project of the catalogue exactly once.
   */
  lemma CategoryPagesPartitionCatalogue(projects: seq<Project>)
    ensures PageSizes(projects, Categories(projects)) == |projects|
  {
    var list := CategoryList(projects);
    PageSizesAreCounts(projects, Categories(projects));
    assert forall i | 0 <= i < |list| :: list[i] in Categories(projects);
    Seqs.SumOfCountsCovering(Categories(projects), list);
  }

  /** `projects.flatMap(p => p.tags)`. */
  function TagLists(projects: seq<Project>): (r: seq<seq<string>>)
    ensures |r| == |projects|
    ensures forall i | 0 <= i < |r| :: r[i] == projects[i].tags
  {
    seq(|projects|, i requires 0 <= i < |projects| => projects[i].tags)
  }

  /** `getAllTags`: every tag of every project, once each. */
  function Tags(projects: seq<Project>): (r: seq<string>)
    ensures forall t :: t in r <==> exists i | 0 <= i < |projects| :: t in projects[i].tags
    ensures Seqs.NoDuplicates(r)
  {
    Seqs.Distinct(Seqs.Flatten(TagLists(projects)))
  }
}

/** `hooks/use-toast.ts`: the toast list of the user application. */
module Toasts {
  import opened Base
  import Seqs

  datatype Variant = Default | Destructive

  datatype Toast = Toast(id: string, title: Option<string>, description: Option<string>,
                         variant: Variant, duration: int)

  /** The argument of `toast`; an absent field is `undefined`. */
  datatype ToastOptions = ToastOptions(title: Option<string>, description: Option<string>,
                                       variant: Option<Variant>, duration: Option<int>)

  const DefaultDurationMs: int := 5000

  /**
   * `toast`: a toast with the new `id` goes at the end of the list, the
   * variant defaulting to "default" and the duration to 5000 ms only when
   * they are absent.
   */
  function Show(toasts: seq<Toast>, options: ToastOptions, id: string): (r: seq<Toast>)
    ensures |r| == |toasts| + 1 && r[..|toasts|] == toasts
    ensures r[|toasts|].id == id && r[|toasts|].title == options.title && r[|toasts|].description == options.description
    ensures r[|toasts|].variant == (if options.variant.Some? then options.variant.value else Default)
    ensures r[|toasts|].duration == (if options.duration.Some? then options.duration.value else DefaultDurationMs)
  {
    var variant := match options.variant case Some(v) => v case None => Default;
    var duration := match options.duration case Some(d) => d case None => DefaultDurationMs;
    toasts + [Toast(id, options.title, options.description, variant, duration)]
  }

  /** `dismiss`: every toast with the id goes, the rest stay in order. */
  function Dismiss(toasts: seq<Toast>, id: string): (r: seq<Toast>)
    ensures forall t :: t in r <==> t in toasts && t.id != id
    ensures |r| <= |toasts|
  {
    Seqs.Filter(toasts, (t: Toast) => t.id != id)
  }

  /** Dismissing an id no toast carries changes nothing. */
  lemma DismissUnknown(toasts: seq<Toast>, id: string)
    requires forall i | 0 <= i < |toasts| :: toasts[i].id != id
    ensures Dismiss(toasts, id) == toasts
  {
    Seqs.FilterKeepsAll(toasts, (t: Toast) => t.id != id);
  }

  /** Dismissing a toast shown with a fresh id restores the list as it was. */
  lemma ShowThenDismiss(toasts: seq<Toast>, options: ToastOptions, id: string)
    requires forall i | 0 <= i < |toasts| :: toasts[i].id != id
    ensures Dismiss(Show(toasts, options, id), id) == toasts
  {
    var r := Show(toasts, options, id);
    assert r == toasts + [r[|toasts|]];
    Seqs.FilterSnoc(toasts, r[|toasts|], (t: Toast) => t.id != id);
    DismissUnknown(toasts, id);
  }

  /** Dismissing twice is dismissing once. */
  lemma DismissIdempotent(toasts: seq<Toast>, id: string)
    ensures Dismiss(Dismiss(toasts, id), id) == Dismiss(toasts, id)
  {
    var once := Dismiss(toasts, id);
    assert forall i | 0 <= i < |once| :: once[i] in once;
    DismissUnknown(once, id);
  }
}
