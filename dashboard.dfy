/**
 * The records the admin dashboard widgets read, and the category lookup
 * they all share: a project is filed under the name of the first category
 * with its category id, or under "Uncategorized".
 */
module DashboardData {
  import opened Base
  import Seqs

  /**
   * A project as the widgets read it. `createdAt` is the creation time in
   * milliseconds (`None` for a date JavaScript cannot parse) and `month`
   * its month of the year, 0 for January (`None` likewise).
   */
  datatype DashProject = DashProject(id: string, categoryId: string, createdAt: Option<int>, month: Option<nat>)

  /** A category; `createdAt` is `None` when the field is missing, empty or unparseable. */
  datatype DashCategory = DashCategory(id: string, name: string, createdAt: Option<int>)

  const Uncategorized: string := "Uncategorized"

  /** `categories.find(c => c.ID === p.CategoryID)`. */
  function FindCategory(categories: seq<DashCategory>, id: string): (r: Option<DashCategory>)
    ensures r.Some? ==> r.value in categories && r.value.id == id
    ensures r.None? <==> forall i | 0 <= i < |categories| :: categories[i].id != id
    ensures r.Some? ==> exists i | 0 <= i < |categories| ::
      categories[i] == r.value && forall j | 0 <= j < i :: categories[j].id != id
  {
    if categories == [] then None
    else if categories[0].id == id then Some(categories[0])
    else
      var r := FindCategory(categories[1..], id);
      assert forall i | 1 <= i < |categories| :: categories[i] == categories[1..][i - 1];
      r
  }

  /** The name a project is counted under. */
  function ResolvedName(categories: seq<DashCategory>, p: DashProject): (r: string)
    ensures r == Uncategorized || exists c | c in categories :: c.name == r
    ensures (forall i | 0 <= i < |categories| :: categories[i].id != p.categoryId) ==> r == Uncategorized
  {
    match FindCategory(categories, p.categoryId)
    case Some(c) => c.name
    case None => Uncategorized
  }

  /** The name of every project, in project order. */
  function Labels(projects: seq<DashProject>, categories: seq<DashCategory>): (r: seq<string>)
    ensures |r| == |projects|
    ensures forall i | 0 <= i < |r| :: r[i] == ResolvedName(categories, projects[i])
  {
    seq(|projects|, i requires 0 <= i < |projects| => ResolvedName(categories, projects[i]))
  }

  /** The category id of every project, in project order. */
  function ProjectCategoryIds(projects: seq<DashProject>): (r: seq<string>)
    ensures |r| == |projects|
    ensures forall i | 0 <= i < |r| :: r[i] == projects[i].categoryId
  {
    seq(|projects|, i requires 0 <= i < |projects| => projects[i].categoryId)
  }

  /** The id of every category, in category order. */
  function CategoryIds(categories: seq<DashCategory>): (r: seq<string>)
    ensures |r| == |categories|
    ensures forall i | 0 <= i < |r| :: r[i] == categories[i].id
  {
    seq(|categories|, i requires 0 <= i < |categories| => categories[i].id)
  }

  /** `projects.filter(p => p.CategoryID === id).length`. */
  function ProjectsIn(projects: seq<DashProject>, id: string): (r: nat)
    ensures r <= |projects|
    ensures r > 0 <==> exists i | 0 <= i < |projects| :: projects[i].categoryId == id
  {
    var ids := ProjectCategoryIds(projects);
    assert forall i | 0 <= i < |projects| :: ids[i] == projects[i].categoryId;
    Seqs.Count(ids, id)
  }
}

/**
 * The per-category tally of the category card and of the statistics
 * header: an object keyed by category name, counted project by project.
 */
module CategoryStats {
  import opened DashboardData
  import Seqs

  /** One `{ name, value }` row of the card's chart. */
  datatype Entry = Entry(name: string, value: nat)

  /** The rows for `keys` in that order, each with its count in `labels`. */
  function Entries(keys: seq<string>, labels: seq<string>): (r: seq<Entry>)
    ensures |r| == |keys|
    ensures forall i | 0 <= i < |r| :: r[i] == Entry(keys[i], Seqs.Count(labels, keys[i]))
  {
    if keys == [] then []
    else [Entry(keys[0], Seqs.Count(labels, keys[0]))] + Entries(keys[1..], labels)
  }

  function Total(entries: seq<Entry>): nat {
    if entries == [] then 0 else entries[0].value + Total(entries[1..])
  }

  lemma {:induction false} TotalIsSumOfCounts(keys: seq<string>, labels: seq<string>)
    ensures Total(Entries(keys, labels)) == Seqs.SumOfCounts(keys, labels)
  {
    if keys != [] {
      TotalIsSumOfCounts(keys[1..], labels);
      assert Entries(keys, labels)[1..] == Entries(keys[1..], labels);
    }
  }

  /** `counts` and its key order `keys` hold the tally of `seen`. */
  ghost predicate Counted(seen: seq<string>, keys: seq<string>, counts: map<string, nat>) {
    && keys == Seqs.Distinct(seen)
    && (forall x :: x in counts <==> x in keys)
    && (forall x | x in counts :: counts[x] == Seqs.Count(seen, x))
  }

  /** One more name: its counter goes up, and it becomes a key the first time. */
  lemma CountedStep(seen: seq<string>, keys: seq<string>, counts: map<string, nat>, name: string)
    requires Counted(seen, keys, counts)
    ensures Counted(seen + [name], if name in counts then keys else keys + [name],
                    counts[name := (if name in counts then counts[name] else 0) + 1])
  {
    Seqs.DistinctSnoc(seen, name);
    forall x ensures Seqs.Count(seen + [name], x) == Seqs.Count(seen, x) + (if name == x then 1 else 0) {
      Seqs.CountSnoc(seen, name, x);
    }
  }

  /**
   * `getCategoryStats` (and the `categoryCounts` loop of the statistics
   * header): the object gains a key the first time a name is met, so
   * `Object.entries` lists each name once, in order of first appearance,
   * with the number of projects filed under it.
   */
  method Tally(projects: seq<DashProject>, categories: seq<DashCategory>) returns (entries: seq<Entry>)
    ensures entries == Entries(Seqs.Distinct(Labels(projects, categories)), Labels(projects, categories))
  {
    ghost var labels := Labels(projects, categories);
    var counts: map<string, nat> := map[];
    var keys: seq<string> := [];
    for k := 0 to |projects|
      invariant Counted(labels[..k], keys, counts)
    {
      var name := ResolvedName(categories, projects[k]);
      assert labels[..k + 1] == labels[..k] + [name];
      CountedStep(labels[..k], keys, counts, name);
      keys, counts := (if name in counts then keys else keys + [name]),
                      counts[name := (if name in counts then counts[name] else 0) + 1];
    }
    assert labels[..|projects|] == labels;
    entries := seq(|keys|, i requires 0 <= i < |keys| => Entry(keys[i], counts[keys[i]]));
    CountedEntries(labels, keys, counts, entries);
  }

  /** The rows read off a finished tally are the entries of its keys. */
  lemma CountedEntries(labels: seq<string>, keys: seq<string>, counts: map<string, nat>, entries: seq<Entry>)
    requires Counted(labels, keys, counts)
    requires |entries| == |keys|
    requires forall i | 0 <= i < |keys| :: keys[i] in counts && entries[i] == Entry(keys[i], counts[keys[i]])
    ensures entries == Entries(keys, labels)
  {
  }

  /**
   * For the project names `labels` (see `Labels`): the card's rows name
   * every name exactly once, every row counts at least one project, and
   * the counts add up to the number of projects.
   */
  lemma TallyAccountsForEveryProject(labels: seq<string>)
    ensures var entries := Entries(Seqs.Distinct(labels), labels);
      && Total(entries) == |labels|
      && (forall i | 0 <= i < |entries| :: entries[i].value >= 1)
      && (forall x | x in labels :: exists j | 0 <= j < |entries| :: entries[j].name == x)
  {
    var keys := Seqs.Distinct(labels);
    TotalIsSumOfCounts(keys, labels);
    assert forall i | 0 <= i < |labels| :: labels[i] in keys;
    Seqs.SumOfCountsCovering(keys, labels);
    forall x | x in labels ensures exists j | 0 <= j < |keys| :: keys[j] == x {
      assert x in keys;
    }
  }
}

/** The four figures of the statistics header (`DashboardStats`). */
module DashboardStats {
  import opened Base
  import opened DashboardData
  import opened CategoryStats
  import Seqs

  /** The seed of the top-category reduction. */
  const NoTop := Entry("None", 0)

  /**
   * `reduce((max, curr) => curr.count > max.count ? curr : max, NoTop)`:
   * the first entry with the largest count, or the seed when every count
   * is 0.
   */
  function Top(entries: seq<Entry>): (r: Entry)
    ensures forall i | 0 <= i < |entries| :: entries[i].value <= r.value
    ensures (forall i | 0 <= i < |entries| :: entries[i].value == 0) ==> r == NoTop
    ensures (exists i | 0 <= i < |entries| :: entries[i].value > 0) ==>
      exists i | 0 <= i < |entries| :: entries[i] == r && forall j | 0 <= j < i :: entries[j].value < r.value
  {
    if entries == [] then NoTop
    else
      var init := entries[..|entries| - 1];
      var last := entries[|entries| - 1];
      assert entries == init + [last];
      var best := Top(init);
      if last.value > best.value then last else best
  }

  /** With at least one project the top category is a real one holding the most projects. */
  lemma TopOfTally(projects: seq<DashProject>, categories: seq<DashCategory>)
    requires projects != []
    ensures var labels := Labels(projects, categories);
      var top := Top(Entries(Seqs.Distinct(labels), labels));
      && top.value >= 1
      && top.name in labels
      && forall x | x in labels :: Seqs.Count(labels, x) <= top.value
  {
    var labels := Labels(projects, categories);
    TopIsAName(labels);
    TopCountsMost(labels);
  }

  lemma TopIsAName(labels: seq<string>)
    requires labels != []
    ensures var top := Top(Entries(Seqs.Distinct(labels), labels));
      top.value >= 1 && top.name in labels
  {
    var keys := Seqs.Distinct(labels);
    var entries := Entries(keys, labels);
    assert labels[0] in keys;
    var k := Seqs.FirstIndex(keys, labels[0]);
    assert entries[k].value > 0;
    var i :| 0 <= i < |entries| && entries[i] == Top(entries);
    assert entries[i].name == keys[i];
    assert entries[i].value == Seqs.Count(labels, keys[i]);
  }

  lemma TopCountsMost(labels: seq<string>)
    ensures var top := Top(Entries(Seqs.Distinct(labels), labels));
      forall x | x in labels :: Seqs.Count(labels, x) <= top.value
  {
    var keys := Seqs.Distinct(labels);
    var entries := Entries(keys, labels);
    forall x | x in labels ensures Seqs.Count(labels, x) <= Top(entries).value {
      var j := Seqs.FirstIndex(keys, x);
      assert entries[j].value == Seqs.Count(labels, x);
    }
  }

  const DayMs: int := 1000 * 60 * 60 * 24

  /**
   * `(now - created) / day <= 30`. An unparseable date gives NaN, which
   * compares false; a date in the future counts as recent.
   */
  predicate WithinThirtyDays(now: int, createdAt: Option<int>) {
    createdAt.Some? && now - createdAt.value <= 30 * DayMs
  }

  /**
   * The number of creation times within the last 30 days; the header's
   * `recentProjects`, `newProjectsLast30Days` (the same filter, written
   * twice) and `newCategoriesLast30Days` are all this count.
   */
  function RecentCount(now: int, dates: seq<Option<int>>): (r: nat)
    ensures r <= |dates|
    ensures r == |dates| <==> forall i | 0 <= i < |dates| :: WithinThirtyDays(now, dates[i])
    ensures (forall i | 0 <= i < |dates| :: dates[i].None?) ==> r == 0
  {
    FilterFull(dates, d => WithinThirtyDays(now, d));
    |Seqs.Filter(dates, d => WithinThirtyDays(now, d))|
  }

  /** A filter keeps every element exactly when it keeps as many as there are. */
  lemma FilterFull<T(!new)>(s: seq<T>, p: T -> bool)
    ensures |Seqs.Filter(s, p)| == |s| <==> forall i | 0 <= i < |s| :: p(s[i])
    ensures (forall i | 0 <= i < |s| :: !p(s[i])) ==> Seqs.Filter(s, p) == []
  {
    if |Seqs.Filter(s, p)| == |s| {
      FilterFullMeansAll(s, p);
    } else if forall i | 0 <= i < |s| :: p(s[i]) {
      Seqs.FilterKeepsAll(s, p);
    }
    if forall i | 0 <= i < |s| :: !p(s[i]) {
      assert forall x | x in Seqs.Filter(s, p) :: false;
    }
  }

  /** A filter that keeps as many elements as the list has kept every one. */
  lemma {:induction false} FilterFullMeansAll<T(!new)>(s: seq<T>, p: T -> bool)
    requires |Seqs.Filter(s, p)| == |s|
    ensures forall i | 0 <= i < |s| :: p(s[i])
  {
    if s != [] {
      assert p(s[0]);
      FilterFullMeansAll(s[1..], p);
      assert forall i | 1 <= i < |s| :: s[i] == s[1..][i - 1];
    }
  }

  /** The creation dates of a list of records, in order, as `createdAt` reads them. */
  function Dates<T>(xs: seq<T>, createdAt: T -> Option<int>): (r: seq<Option<int>>)
    ensures |r| == |xs| && forall i | 0 <= i < |r| :: r[i] == createdAt(xs[i])
  {
    seq(|xs|, i requires 0 <= i < |xs| => createdAt(xs[i]))
  }

  /** The four figures: total, top category, recent projects, categories; and the "+n" badges. */
  datatype Figures = Figures(totalProjects: nat, top: Entry, recentProjects: nat, newProjects: nat,
                             totalCategories: nat, newCategories: nat)

  method Compute(projects: seq<DashProject>, categories: seq<DashCategory>, now: int) returns (f: Figures)
    ensures f.totalProjects == |projects| && f.totalCategories == |categories|
    ensures f.top == Top(Entries(Seqs.Distinct(Labels(projects, categories)), Labels(projects, categories)))
    ensures f.recentProjects == f.newProjects == RecentCount(now, Dates(projects, (p: DashProject) => p.createdAt))
    ensures f.newCategories == RecentCount(now, Dates(categories, (c: DashCategory) => c.createdAt))
  {
    var entries := Tally(projects, categories);
    var recent := RecentCount(now, Dates(projects, (p: DashProject) => p.createdAt));
    f := Figures(|projects|, Top(entries), recent, recent, |categories|, RecentCount(now, Dates(categories, (c: DashCategory) => c.createdAt)));
  }
}

/** The category list of the dashboard (`ProjectCategories`). */
module ProjectCategories {
  import opened Text
  import opened DashboardData
  import Seqs

  datatype ProjectCategory = ProjectCategory(id: string, name: string, projectCount: nat, description: string)

  /** One row per category, in category order, with the number of projects it holds. */
  function Rows(categories: seq<DashCategory>, projects: seq<DashProject>): (r: seq<ProjectCategory>)
    ensures |r| == |categories|
    ensures forall i | 0 <= i < |r| ::
      && r[i].id == categories[i].id && r[i].name == categories[i].name
      && r[i].projectCount == ProjectsIn(projects, categories[i].id)
      && r[i].description == "Projects under " + categories[i].name + " category"
  {
    seq(|categories|, i requires 0 <= i < |categories| =>
      var c := categories[i];
      ProjectCategory(c.id, c.name, ProjectsIn(projects, c.id), "Projects under " + c.name + " category"))
  }

  /** The badge: "1 Project", otherwise "n Projects". */
  function Badge(count: nat): (r: string)
    ensures StartsWith(r, Decimal(count) + " Project")
    ensures r[|r| - 1] == 's' <==> count != 1
  {
    var head := Decimal(count) + " Project";
    var r := head + (if count != 1 then "s" else "");
    assert r[..|head|] == head;
    r
  }
}

/** The bar chart of projects per category (`ProjectChart`). */
module ProjectChart {
  import opened DashboardData
  import Seqs

  datatype Bar = Bar(name: string, count: nat)

  /** The bar colours; bar i takes colour i modulo their number. */
  const Colors: seq<string> := ["#f87171", "#60a5fa", "#34d399", "#fbbf24", "#a78bfa", "#fb7185", "#5eead4"]

  function ColorOf(index: nat): (r: string)
    ensures r in Colors
    ensures index < |Colors| ==> r == Colors[index]
  {
    Colors[index % |Colors|]
  }

  predicate HasCategory(categories: seq<DashCategory>, id: string) {
    id in CategoryIds(categories)
  }

  /** The projects whose category id no category has. */
  function UncategorizedCount(projects: seq<DashProject>, categories: seq<DashCategory>): (r: nat)
    ensures r <= |projects|
  {
    |Seqs.Filter(ProjectCategoryIds(projects), id => !HasCategory(categories, id))|
  }

  /**
   * The chart data: one bar per category, in category order, then an
   * "Uncategorized" bar when some project matches no category. The chart
   * says "No project data available" exactly when there are neither
   * categories nor projects.
   */
  method Bars(projects: seq<DashProject>, categories: seq<DashCategory>) returns (data: seq<Bar>)
    ensures |data| == |categories| + (if UncategorizedCount(projects, categories) > 0 then 1 else 0)
    ensures forall i | 0 <= i < |categories| :: data[i] == Bar(categories[i].name, ProjectsIn(projects, categories[i].id))
    ensures |data| > |categories| ==> data[|categories|] == Bar(Uncategorized, UncategorizedCount(projects, categories))
    ensures data == [] <==> categories == [] && projects == []
  {
    data := [];
    for i := 0 to |categories|
      invariant |data| == i
      invariant forall j | 0 <= j < i :: data[j] == Bar(categories[j].name, ProjectsIn(projects, categories[j].id))
    {
      var c := categories[i];
      data := data + [Bar(c.name, ProjectsIn(projects, c.id))];
    }
    var uncategorized := UncategorizedCount(projects, categories);
    if uncategorized > 0 {
      data := data + [Bar(Uncategorized, uncategorized)];
    }
    if categories == [] && projects != [] {
      var ids := ProjectCategoryIds(projects);
      assert !HasCategory(categories, ids[0]);
      assert ids[0] in Seqs.Filter(ids, id => !HasCategory(categories, id));
    }
  }

  /**
   * When category ids are distinct, the bars count every project exactly
   * once: the category bars and the "Uncategorized" bar add up to the
   * number of projects.
   */
  lemma BarsAccountForEveryProject(projects: seq<DashProject>, categories: seq<DashCategory>)
    requires Seqs.NoDuplicates(CategoryIds(categories))
    ensures Seqs.SumOfCounts(CategoryIds(categories), ProjectCategoryIds(projects))
            + UncategorizedCount(projects, categories) == |projects|
  {
    var ids := CategoryIds(categories);
    var pids := ProjectCategoryIds(projects);
    var isKey := (id: string) => HasCategory(categories, id);
    var notKey := (id: string) => !HasCategory(categories, id);
    Seqs.SumOfCountsFilter(ids, pids, isKey);
    Seqs.FilterPartition(pids, isKey, notKey);
  }
}

/**
 * The month-by-category table of the statistics card
 * (`getProjectStats`): six rows, January to June, each with a zero cell
 * per category name and for "Uncategorized", incremented per project.
 */
module ProjectStats {
  import opened Base
  import opened DashboardData
  import Seqs

  const MonthNames: seq<string> := ["Jan", "Feb", "Mar", "Apr", "May", "Jun"]

  /** A row: the month's label and one cell per column name. */
  datatype Row = Row(name: string, cells: map<string, nat>)

  function CategoryNames(categories: seq<DashCategory>): (r: seq<string>)
    ensures |r| == |categories| && forall i | 0 <= i < |r| :: r[i] == categories[i].name
  {
    seq(|categories|, i requires 0 <= i < |categories| => categories[i].name)
  }

  /** The column names: every category name and "Uncategorized". */
  function Columns(categories: seq<DashCategory>): set<string> {
    (set i | 0 <= i < |categories| :: categories[i].name) + {Uncategorized}
  }

  /** Every project's name lies among the columns. */
  lemma NameIsColumn(categories: seq<DashCategory>, p: DashProject)
    ensures ResolvedName(categories, p) in Columns(categories)
  {
    var r := ResolvedName(categories, p);
    if r != Uncategorized {
      var c :| c in categories && c.name == r;
      var i :| 0 <= i < |categories| && categories[i] == c;
    }
  }

  /** A row of zeros. */
  function EmptyRow(month: string, categories: seq<DashCategory>): (r: Row)
    ensures r.name == month && r.cells.Keys == Columns(categories)
    ensures forall k | k in r.cells :: r.cells[k] == 0
  {
    Row(month, map k | k in Columns(categories) :: 0)
  }

  /** The names of the projects created in `month`, in project order. */
  function MonthLabels(projects: seq<DashProject>, categories: seq<DashCategory>, month: nat): seq<string> {
    if projects == [] then []
    else
      var init := MonthLabels(projects[..|projects| - 1], categories, month);
      var p := projects[|projects| - 1];
      if p.month == Some(month) then init + [ResolvedName(categories, p)] else init
  }

  /** The months of the projects created January to June, in project order. */
  function EarlyMonths(projects: seq<DashProject>): (r: seq<nat>)
    ensures |r| <= |projects|
    ensures forall i | 0 <= i < |r| :: r[i] < |MonthNames|
  {
    if projects == [] then []
    else
      var init := EarlyMonths(projects[..|projects| - 1]);
      var p := projects[|projects| - 1];
      if p.month.Some? && p.month.value < |MonthNames| then init + [p.month.value] else init
  }

  lemma LabelsSnoc(projects: seq<DashProject>, p: DashProject, categories: seq<DashCategory>, month: nat)
    ensures MonthLabels(projects + [p], categories, month) ==
      MonthLabels(projects, categories, month) + (if p.month == Some(month) then [ResolvedName(categories, p)] else [])
  {
    assert (projects + [p])[..|projects|] == projects;
  }

  /** `row` is the row of month `m` in the table of the projects `ps`. */
  ghost predicate RowOf(row: Row, m: nat, ps: seq<DashProject>, categories: seq<DashCategory>) {
    && m < |MonthNames| && row.name == MonthNames[m] && row.cells.Keys == Columns(categories)
    && forall c | c in row.cells :: row.cells[c] == Seqs.Count(MonthLabels(ps, categories, m), c)
  }

  /** `rows` is the table of the projects `ps`. */
  ghost predicate Tabulated(rows: seq<Row>, ps: seq<DashProject>, categories: seq<DashCategory>) {
    |rows| == |MonthNames| && forall m | 0 <= m < |rows| :: RowOf(rows[m], m, ps, categories)
  }

  /** `row[key] = row[key] + 1`. */
  function Bump(row: Row, key: string): (r: Row)
    requires key in row.cells
    ensures r.name == row.name && r.cells.Keys == row.cells.Keys
    ensures r.cells[key] == row.cells[key] + 1
    ensures forall k | k in row.cells && k != key :: r.cells[k] == row.cells[k]
  {
    row.(cells := row.cells[key := row.cells[key] + 1])
  }

  /** A project of month `m` bumps the cell of its name in that month's row. */
  lemma RowBump(row: Row, m: nat, ps: seq<DashProject>, p: DashProject, categories: seq<DashCategory>)
    requires RowOf(row, m, ps, categories) && p.month == Some(m)
    ensures ResolvedName(categories, p) in row.cells
    ensures RowOf(Bump(row, ResolvedName(categories, p)), m, ps + [p], categories)
  {
    NameIsColumn(categories, p);
    var name := ResolvedName(categories, p);
    LabelsSnoc(ps, p, categories, m);
    forall c | c in row.cells
      ensures Seqs.Count(MonthLabels(ps + [p], categories, m), c) == Seqs.Count(MonthLabels(ps, categories, m), c) + (if c == name then 1 else 0)
    {
      Seqs.CountSnoc(MonthLabels(ps, categories, m), name, c);
    }
  }

  /** A project of another month leaves the row of month `m` as it is. */
  lemma RowKeep(row: Row, m: nat, ps: seq<DashProject>, p: DashProject, categories: seq<DashCategory>)
    requires RowOf(row, m, ps, categories) && p.month != Some(m)
    ensures RowOf(row, m, ps + [p], categories)
  {
    LabelsSnoc(ps, p, categories, m);
  }

  /** A project of January to June bumps the cell of its month and name. */
  lemma TableBump(rows: seq<Row>, ps: seq<DashProject>, p: DashProject, categories: seq<DashCategory>)
    requires Tabulated(rows, ps, categories)
    requires p.month.Some? && p.month.value < |MonthNames|
    ensures ResolvedName(categories, p) in rows[p.month.value].cells
    ensures Tabulated(rows[p.month.value := Bump(rows[p.month.value], ResolvedName(categories, p))], ps + [p], categories)
  {
    var month, name := p.month.value, ResolvedName(categories, p);
    var bumped := rows[month := Bump(rows[month], name)];
    RowBump(rows[month], month, ps, p, categories);
    forall m | 0 <= m < |bumped| ensures RowOf(bumped[m], m, ps + [p], categories) {
      if m != month {
        RowKeep(rows[m], m, ps, p, categories);
      }
    }
  }

  /** A project from July on, or without a date, leaves the table as it is. */
  lemma TableSkip(rows: seq<Row>, ps: seq<DashProject>, p: DashProject, categories: seq<DashCategory>)
    requires Tabulated(rows, ps, categories)
    requires !(p.month.Some? && p.month.value < |MonthNames|)
    ensures Tabulated(rows, ps + [p], categories)
  {
    forall m | 0 <= m < |rows| ensures RowOf(rows[m], m, ps + [p], categories) {
      RowKeep(rows[m], m, ps, p, categories);
    }
  }

  /**
   * The table: a cell holds the number of that month's projects filed
   * under that column; projects from July on, or with an unparseable
   * date, are not counted.
   */
  method Table(projects: seq<DashProject>, categories: seq<DashCategory>) returns (rows: seq<Row>)
    ensures |rows| == |MonthNames|
    ensures forall m | 0 <= m < |rows| :: rows[m].name == MonthNames[m] && rows[m].cells.Keys == Columns(categories)
    ensures forall m, k | 0 <= m < |rows| && k in rows[m].cells ::
      rows[m].cells[k] == Seqs.Count(MonthLabels(projects, categories, m), k)
  {
    var stats := new Row[|MonthNames|](m requires 0 <= m < |MonthNames| => EmptyRow(MonthNames[m], categories));
    assert Tabulated(stats[..], [], categories);
    for k := 0 to |projects|
      invariant Tabulated(stats[..], projects[..k], categories)
    {
      var p := projects[k];
      assert projects[..k + 1] == projects[..k] + [p];
      if p.month.Some? && p.month.value < |MonthNames| {
        var name := ResolvedName(categories, p);
        TableBump(stats[..], projects[..k], p, categories);
        stats[p.month.value] := Bump(stats[p.month.value], name);
      } else {
        TableSkip(stats[..], projects[..k], p, categories);
      }
    }
    assert projects[..|projects|] == projects;
    rows := stats[..];
  }

  lemma {:induction false} MonthLabelsCount(projects: seq<DashProject>, categories: seq<DashCategory>, month: nat)
    requires month < |MonthNames|
    ensures |MonthLabels(projects, categories, month)| == Seqs.Count(EarlyMonths(projects), month)
  {
    if projects != [] {
      var init := projects[..|projects| - 1];
      MonthLabelsCount(init, categories, month);
      var p := projects[|projects| - 1];
      if p.month.Some? && p.month.value < |MonthNames| {
        Seqs.CountSnoc(EarlyMonths(init), p.month.value, month);
      }
    }
  }

  /** The cells of month `m` add up to the number of projects created in it. */
  lemma RowAccountsForMonth(projects: seq<DashProject>, categories: seq<DashCategory>, m: nat)
    requires m < |MonthNames|
    ensures Seqs.SumOfCounts(Seqs.Distinct(CategoryNames(categories) + [Uncategorized]), MonthLabels(projects, categories, m))
      == Seqs.Count(EarlyMonths(projects), m)
  {
    MonthLabelsColumns(projects, categories, m);
    Seqs.SumOfCountsCovering(Seqs.Distinct(CategoryNames(categories) + [Uncategorized]), MonthLabels(projects, categories, m));
    MonthLabelsCount(projects, categories, m);
  }

  /**
   * Every project from January to June lands in exactly one cell: each
   * row's cells add up to the projects of its month (`RowAccountsForMonth`),
   * and the months add up to all the projects from the first half of the
   * year.
   */
  lemma TableAccountsForEarlyProjects(projects: seq<DashProject>)
    ensures Seqs.SumOfCounts([0, 1, 2, 3, 4, 5], EarlyMonths(projects)) == |EarlyMonths(projects)|
  {
    var months: seq<nat> := [0, 1, 2, 3, 4, 5];
    assert forall i | 0 <= i < |EarlyMonths(projects)| :: EarlyMonths(projects)[i] in months;
    Seqs.SumOfCountsCovering(months, EarlyMonths(projects));
  }

  lemma {:induction false} MonthLabelsColumns(projects: seq<DashProject>, categories: seq<DashCategory>, month: nat)
    ensures forall i | 0 <= i < |MonthLabels(projects, categories, month)| ::
      MonthLabels(projects, categories, month)[i] in Seqs.Distinct(CategoryNames(categories) + [Uncategorized])
  {
    if projects != [] {
      var init := projects[..|projects| - 1];
      var p := projects[|projects| - 1];
      MonthLabelsColumns(init, categories, month);
      NameIsColumn(categories, p);
      var name := ResolvedName(categories, p);
      if name != Uncategorized {
        var i :| 0 <= i < |categories| && categories[i].name == name;
        assert CategoryNames(categories)[i] == name;
      }
      assert name in CategoryNames(categories) + [Uncategorized];
    }
  }
}
