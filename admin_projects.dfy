/**
 * The project card of the admin dashboard: its header label and which
 * preview it shows for a project's media.
 */
module ProjectCard {
  import opened Base
  import opened YouTubeLinks

  /** The fields of a project the card reads. */
  datatype CardProject = CardProject(id: string, imageUrl: string, videoUrl: string, createdAt: string)

  /** What the preview area shows. */
  datatype Preview = ImagePreview(src: string) | EmbedPreview(src: string) | VideoPreview(src: string) | NoMedia

  /** The header: "Image", else "Video", else "No Media". */
  function HeaderLabel(imageUrl: string, videoUrl: string): (r: string)
    ensures r == "Image" <==> imageUrl != ""
    ensures r == "No Media" <==> imageUrl == "" && videoUrl == ""
  {
    if imageUrl != "" then "Image" else if videoUrl != "" then "Video" else "No Media"
  }

  /**
   * The preview, in order of precedence: the image, the YouTube player
   * when the video link is a YouTube link, the raw video, a placeholder.
   */
  function PreviewOf(imageUrl: string, videoUrl: string): (r: Preview)
    ensures imageUrl != "" ==> r == ImagePreview(imageUrl)
    ensures imageUrl == "" && StrictEmbedUrl(videoUrl).Some? ==> r == EmbedPreview(StrictEmbedUrl(videoUrl).value)
    ensures imageUrl == "" && StrictEmbedUrl(videoUrl).None? && videoUrl != "" ==> r == VideoPreview(videoUrl)
  {
    if imageUrl != "" then ImagePreview(imageUrl)
    else match StrictEmbedUrl(videoUrl)
      case Some(embed) => EmbedPreview(embed)
      case None => if videoUrl != "" then VideoPreview(videoUrl) else NoMedia
  }

  /** The header and the preview always tell the same story. */
  lemma HeaderAgreesWithPreview(imageUrl: string, videoUrl: string)
    ensures var header := HeaderLabel(imageUrl, videoUrl);
      var preview := PreviewOf(imageUrl, videoUrl);
      && (header == "Image" <==> preview.ImagePreview?)
      && (header == "Video" <==> preview.EmbedPreview? || preview.VideoPreview?)
      && (header == "No Media" <==> preview.NoMedia?)
  {
    if imageUrl == "" && videoUrl == "" {
      assert StrictId("") == None by {
        assert SchemeLength("") == 0;
        assert WwwLength("") == 0;
        assert StrictKeyLength("") == 0;
      }
    }
  }
}

/** The project detail dialog of the admin dashboard. */
module ProjectViewModal {
  import opened Base
  import opened YouTubeLinks
  import ProjectCard

  /** The dialog's preview; with no project selected every link reads as "". */
  function PreviewOf(selected: Option<ProjectCard.CardProject>): (r: ProjectCard.Preview)
    ensures selected.Some? ==> r == ProjectCard.PreviewOf(selected.value.imageUrl, selected.value.videoUrl)
    ensures selected.None? ==> r.NoMedia?
  {
    var imageUrl := if selected.Some? then selected.value.imageUrl else "";
    var videoUrl := if selected.Some? then selected.value.videoUrl else "";
    if imageUrl != "" then ProjectCard.ImagePreview(imageUrl)
    else match StrictEmbedUrl(videoUrl)
      case Some(embed) => ProjectCard.EmbedPreview(embed)
      case None => if videoUrl != "" then ProjectCard.VideoPreview(videoUrl) else ProjectCard.NoMedia
  }

  /** The category line: the name, or "Unknown" when it is missing or empty. */
  function CategoryLabel(categoryName: Option<string>): (r: string)
    ensures r != ""
    ensures categoryName.Some? && categoryName.value != "" ==> r == categoryName.value
  {
    if categoryName.Some? && categoryName.value != "" then categoryName.value else "Unknown"
  }
}

/** The pager under the admin project grid. */
module PaginationControls {
  import opened Text

  /** "Showing first+1 to min(last, total) of total projects". */
  function Summary(indexOfFirst: nat, indexOfLast: nat, total: nat): (r: string)
    ensures StartsWith(r, "Showing " + Decimal(indexOfFirst + 1) + " to ")
  {
    var shownLast := if indexOfLast < total then indexOfLast else total;
    var head := "Showing " + Decimal(indexOfFirst + 1) + " to ";
    var r := head + Decimal(shownLast) + " of " + Decimal(total) + " projects";
    assert r[..|head|] == head;
    r
  }

  /** The controls of the pager. */
  datatype Control = Previous | Next | PageButton(page: nat)

  /** The page buttons: 1 to totalPages, ascending. */
  function Buttons(totalPages: nat): (r: seq<Control>)
    ensures |r| == totalPages
    ensures forall i | 0 <= i < |r| :: r[i] == PageButton(i + 1)
  {
    if totalPages == 0 then [] else Buttons(totalPages - 1) + [PageButton(totalPages)]
  }

  /** Previous is disabled on page 1, Next on the last page; page buttons never are. */
  predicate Disabled(c: Control, currentPage: int, totalPages: nat) {
    match c
    case Previous => currentPage == 1
    case Next => currentPage == totalPages
    case PageButton(_) => false
  }

  /** Exactly the button of the current page is highlighted. */
  predicate Highlighted(c: Control, currentPage: int) {
    c.PageButton? && c.page == currentPage
  }

  /** The page a control asks for. */
  function Requested(c: Control, currentPage: int): int {
    match c
    case Previous => currentPage - 1
    case Next => currentPage + 1
    case PageButton(p) => p
  }

  /**
   * While the current page is in range, every enabled control asks for a
   * page in range, and exactly one page button is highlighted.
   */
  lemma ControlsStayInRange(currentPage: int, totalPages: nat, c: Control)
    requires 1 <= currentPage <= totalPages
    requires c in [Previous, Next] + Buttons(totalPages)
    ensures !Disabled(c, currentPage, totalPages) ==> 1 <= Requested(c, currentPage) <= totalPages
    ensures Highlighted(c, currentPage) <==> c == Buttons(totalPages)[currentPage - 1]
  {
    if c.PageButton? {
      var i :| 0 <= i < |Buttons(totalPages)| && Buttons(totalPages)[i] == c;
    }
  }
}

/**
 * The sample projects table of the admin dashboard: search and status
 * filtering, deleting the chosen project and shortening descriptions.
 */
module ProjectsPage {
  import opened Base
  import opened Text
  import Seqs

  datatype ProjectStatus = Planning | InProgress | Complete | OnHold | Cancelled

  /** The status selector: every status, or one. */
  datatype StatusFilter = All | Only(status: ProjectStatus)

  datatype TableProject = TableProject(id: int, title: string, description: string, imageUrl: string,
                                       status: ProjectStatus, createdAt: string, updatedAt: string)

  /** The title or the description contains the query, ignoring case. */
  predicate MatchesSearch(p: TableProject, query: string) {
    Contains(Lower(p.title), Lower(query)) || Contains(Lower(p.description), Lower(query))
  }

  predicate MatchesStatus(p: TableProject, filter: StatusFilter) {
    filter.All? || p.status == filter.status
  }

  /** `filteredProjects`: the projects matching both, in table order. */
  function Filtered(projects: seq<TableProject>, query: string, filter: StatusFilter): (r: seq<TableProject>)
    ensures forall p :: p in r <==> p in projects && MatchesSearch(p, query) && MatchesStatus(p, filter)
  {
    Seqs.Filter(projects, p => MatchesSearch(p, query) && MatchesStatus(p, filter))
  }

  /** An empty query with every status selected shows the whole table. */
  lemma EmptySearchShowsAll(projects: seq<TableProject>)
    ensures Filtered(projects, "", All) == projects
  {
    forall i | 0 <= i < |projects| ensures MatchesSearch(projects[i], "") {
      ContainsEmpty(Lower(projects[i].title));
    }
    Seqs.FilterKeepsAll(projects, p => MatchesSearch(p, "") && MatchesStatus(p, All));
  }

  /** Typing more of a query never brings back a project the shorter query hid. */
  lemma LongerQueryNarrows(projects: seq<TableProject>, query: string, more: string, filter: StatusFilter, p: TableProject)
    requires p in Filtered(projects, query + more, filter)
    ensures p in Filtered(projects, query, filter)
  {
    LowerConcat(query, more);
    if Contains(Lower(p.title), Lower(query + more)) {
      ContainsPrefix(Lower(p.title), Lower(query), Lower(more));
    } else {
      ContainsPrefix(Lower(p.description), Lower(query), Lower(more));
    }
  }

  /** The title of the toast a deletion raises. */
  const ProjectDeleted: string := "Project deleted"

  /**
   * `handleDeleteProject`: nothing happens without a chosen project;
   * otherwise every project with that id goes, the rest stay in order,
   * the "Project deleted" toast is raised and the choice is cleared.
   * The result is the table, the choice and the title of the toast raised.
   */
  function DeleteChosen(projects: seq<TableProject>, toDelete: Option<int>): (r: (seq<TableProject>, Option<int>, Option<string>))
    ensures toDelete.None? ==> r == (projects, None, None)
    ensures toDelete.Some? ==>
              && r.1.None? && r.2 == Some(ProjectDeleted)
              && r.0 == Seqs.Filter(projects, (p: TableProject) => p.id != toDelete.value)
    ensures forall p :: p in r.0 <==> p in projects && (toDelete.None? || p.id != toDelete.value)
  {
    match toDelete
    case None => (projects, None, None)
    case Some(id) => (Seqs.Filter(projects, (p: TableProject) => p.id != id), None, Some(ProjectDeleted))
  }

  /** Deleting an id no project has changes nothing but the choice, though the toast still says it was deleted. */
  lemma DeleteUnknownKeepsTable(projects: seq<TableProject>, id: int)
    requires forall i | 0 <= i < |projects| :: projects[i].id != id
    ensures DeleteChosen(projects, Some(id)) == (projects, None, Some(ProjectDeleted))
  {
    Seqs.FilterKeepsAll(projects, (p: TableProject) => p.id != id);
  }

  /** A description over 60 characters shows its first 60 and "...". */
  function ShortDescription(d: string): (r: string)
    ensures |d| <= 60 ==> r == d
    ensures |d| > 60 ==> |r| == 63 && r[..60] == d[..60] && r[60..] == "..."
  {
    if |d| > 60 then d[..60] + "..." else d
  }

  /** Shortening an already shortened description changes nothing. */
  lemma ShortDescriptionIdempotent(d: string)
    ensures ShortDescription(ShortDescription(d)) == ShortDescription(d)
  {
    if |d| > 60 {
      var r := ShortDescription(d);
      assert r == r[..60] + r[60..];
    }
  }

  /** Badge colours. */
  datatype Palette = Green | Blue | Amber | Gray | Red

  /**
   * `getStatusColor`: one colour per status. The switch's grey default
   * cannot be reached once the status is one of the five.
   */
  function StatusColor(status: ProjectStatus): (r: Palette)
    ensures r == Green <==> status == Complete
    ensures r == Blue <==> status == InProgress
    ensures r == Amber <==> status == Planning
    ensures r == Gray <==> status == OnHold
    ensures r == Red <==> status == Cancelled
  {
    match status
    case Complete => Green
    case InProgress => Blue
    case Planning => Amber
    case OnHold => Gray
    case Cancelled => Red
  }
}
