/**
 * Loading portfolio items page by page. The client asks for `limit`
 * items from `offset` on; the server is taken to answer with that window
 * of one fixed list. The advertisement, visual and website pages keep the
 * loaded items in a `Feed`; the logo page uses an infinite query.
 */
module PortfolioPaging {
  import opened Base
  import opened PortfolioItems
  import opened Text
  import Seqs

  const PageSize: nat := 8
  const FirstLoad: nat := 4

  function Min(a: nat, b: nat): nat { if a < b then a else b }

  /** The answer to `?limit=limit&offset=offset`. */
  function Window<T>(all: seq<T>, limit: nat, offset: nat): (r: seq<T>)
    ensures |r| <= limit
    ensures offset + limit <= |all| ==> |r| == limit
    ensures |r| < limit ==> offset + |r| >= |all|
    ensures forall i | 0 <= i < |r| :: offset + i < |all| && r[i] == all[offset + i]
  {
    all[Min(offset, |all|)..Min(offset + limit, |all|)]
  }

  /** The window after the loaded prefix extends it. */
  lemma WindowExtends<T>(all: seq<T>, loaded: nat, limit: nat)
    ensures all[..Min(loaded, |all|)] + Window(all, limit, loaded) == all[..Min(loaded + limit, |all|)]
  {
    assert all[..Min(loaded + limit, |all|)]
        == all[..Min(loaded, |all|)] + all[Min(loaded, |all|)..Min(loaded + limit, |all|)];
  }

  /** The message shown for a failure: its own text, else the page's default. */
  function ErrorText(message: string, default: string): (r: string)
    ensures r != "" <==> message != "" || default != ""
  {
    if message != "" then message else default
  }

  /** How the services fetch of the first load settled. */
  datatype StepsOutcome =
    | StepsRejected(message: string)
    | StepsAnswered(ok: bool, statusText: string, data: Option<seq<StepResponse>>)

  /** The error thrown for a services answer with a failure status; its status text follows. */
  const StepsFailed: string := "Failed to fetch service steps: "

  /** The service cards of an answer's `data`, in order; an absent `data` gives none. */
  function ServicesOf(data: Option<seq<StepResponse>>): (r: seq<Service>)
    ensures data.None? ==> r == []
    ensures data.Some? ==> |r| == |data.value| && forall i | 0 <= i < |r| :: r[i] == ServiceOf(data.value[i])
  {
    if data.None? then []
    else seq(|data.value|, i requires 0 <= i < |data.value| => ServiceOf(data.value[i]))
  }

  const LoadFailed: string := "เกิดข้อผิดพลาดขณะดึงข้อมูล"
  const LoadMoreFailed: string := "เกิดข้อผิดพลาดขณะดึงข้อมูลเพิ่มเติม"

  /**
   * The loaded items of the advertisement, visual and website pages, the
   * offset of the next request and whether more may come.
   */
  class Feed {
    var images: seq<PortfolioItem>
    var services: seq<Service>
    var offset: nat
    var hasMore: bool
    var loading: bool
    var isFetchingMore: bool
    var error: Option<string>

    /** Nothing loaded; the offset starts at 4, after the first load. */
    constructor()
      ensures images == [] && services == [] && offset == FirstLoad && hasMore
      ensures loading && !isFetchingMore && error.None?
    {
      images := [];
      services := [];
      offset := FirstLoad;
      hasMore := true;
      loading := true;
      isFetchingMore := false;
      error := None;
    }

    /**
     * The items shown are exactly the first `offset` items of the list, and
     * once `hasMore` is false the list has been read to its end.
     */
    ghost predicate Tracks(all: seq<PortfolioItem>)
      reads this
    {
      offset >= FirstLoad && (offset - FirstLoad) % PageSize == 0
      && images == all[..Min(offset, |all|)]
      && (!hasMore ==> offset >= |all|)
    }

    /**
     * The first load: the four items and the service steps are fetched
     * together, and a rejection of either fetch skips everything after the
     * wait, so the items are installed only when both fetches settled. A
     * services answer with a failure status still leaves the items in
     * place and sets the error from its status text; a good answer
     * installs the service cards, an absent `data` counting as none.
     */
    method Load(initial: Result<seq<PortfolioItem>>, steps: StepsOutcome, ghost all: seq<PortfolioItem>)
      modifies this
      ensures initial.Err? ==>
                images == old(images) && services == old(services)
                && error == Some(ErrorText(initial.failure.message, LoadFailed))
      ensures initial.Ok? && steps.StepsRejected? ==>
                images == old(images) && services == old(services)
                && error == Some(ErrorText(steps.message, LoadFailed))
      ensures initial.Ok? && steps.StepsAnswered? ==> images == initial.value
      ensures initial.Ok? && steps.StepsAnswered? && !steps.ok ==>
                services == old(services) && error == Some(StepsFailed + steps.statusText)
      ensures initial.Ok? && steps.StepsAnswered? && steps.ok ==>
                services == ServicesOf(steps.data) && error == old(error)
      ensures !loading && offset == old(offset) && hasMore == old(hasMore) && isFetchingMore == old(isFetchingMore)
      ensures old(offset) == FirstLoad && old(hasMore) && initial == Ok(Window(all, FirstLoad, 0)) && steps.StepsAnswered? ==>
                Tracks(all)
    {
      if initial.Err? {
        error := Some(ErrorText(initial.failure.message, LoadFailed));
        loading := false;
        return;
      }
      if steps.StepsRejected? {
        error := Some(ErrorText(steps.message, LoadFailed));
        loading := false;
        return;
      }
      images := initial.value;
      if !steps.ok {
        error := Some(StepsFailed + steps.statusText);
        loading := false;
        return;
      }
      services := ServicesOf(steps.data);
      loading := false;
    }

    /**
     * `fetchMoreProjects`: asks for eight items at `offset`; on an answer
     * appends it, moves the offset on by eight whatever came back, and
     * stops offering more once fewer than eight came; on a failure only
     * the error changes.
     */
    method FetchMore(response: Result<seq<PortfolioItem>>, ghost all: seq<PortfolioItem>)
      modifies this
      ensures response.Ok? ==> images == old(images) + response.value && offset == old(offset) + PageSize
      ensures response.Ok? ==> (hasMore <==> old(hasMore) && |response.value| >= PageSize)
      ensures response.Ok? ==> error == old(error)
      ensures response.Err? ==> images == old(images) && offset == old(offset) && hasMore == old(hasMore)
      ensures response.Err? ==> error == Some(ErrorText(response.failure.message, LoadMoreFailed))
      ensures services == old(services) && loading == old(loading) && !isFetchingMore
      ensures old(Tracks(all)) && response == Ok(Window(all, PageSize, old(offset))) ==> Tracks(all)
    {
      isFetchingMore := true;
      match response {
        case Ok(more) =>
          if old(Tracks(all)) && response == Ok(Window(all, PageSize, old(offset))) {
            WindowExtends(all, offset, PageSize);
          }
          images, offset, hasMore := images + more, offset + PageSize, if |more| < PageSize then false else hasMore;
        case Err(failure) =>
          error := Some(ErrorText(failure.message, LoadMoreFailed));
      }
      isFetchingMore := false;
    }
  }
}

/** The logo page: an initial query for four items and an infinite query for the rest. */
module LogoPage {
  import opened Base
  import opened PortfolioItems
  import opened Text
  import opened PortfolioPaging
  import Seqs

  /** A project as the server returns it. */
  datatype ProjectResponse = ProjectResponse(rawId: Option<string>, imageUrl: Option<string>,
                                             videoUrl: Option<string>, videoLink: Option<string>,
                                             title: Option<string>, description: Option<string>,
                                             mediaType: Option<string>)

  /** The item for the `index`-th project of an answer. */
  function MapProject(p: ProjectResponse, index: nat): (r: PortfolioItem)
    ensures r.id != "" && r.title != "" && r.category == "logo"
    ensures Truthy(p.rawId) ==> r.id == p.rawId.value
    ensures r.url.Some? && r.videoUrl.Some? && r.videoLink.Some? && r.description.Some?
    ensures Truthy(p.imageUrl) ==> r.url == p.imageUrl
    ensures Truthy(p.videoUrl) ==> r.videoUrl == p.videoUrl
    ensures r.mediaType == KnownMediaType(p.mediaType)
  {
    PortfolioItem(
      OrElse(p.rawId, FallbackId(index)),
      Some(OrElse(p.imageUrl, "")),
      Some(OrElse(p.videoUrl, "")),
      Some(OrElse(p.videoLink, "")),
      OrElse(p.title, "Logo Project"),
      "logo",
      Some(OrElse(p.description, "")),
      KnownMediaType(p.mediaType))
  }

  predicate HasId(item: PortfolioItem) { item.id != "" }

  /**
   * The items of an answer: every project mapped, then those without an
   * id dropped — which drops none, since a missing id gets a fallback.
   */
  function MapAnswer(ps: seq<ProjectResponse>): (r: seq<PortfolioItem>)
    ensures |r| == |ps|
    ensures forall i | 0 <= i < |ps| :: r[i] == MapProject(ps[i], i)
  {
    var mapped := seq(|ps|, i requires 0 <= i < |ps| => MapProject(ps[i], i));
    Seqs.FilterKeepsAll(mapped, HasId);
    Seqs.Filter(mapped, HasId)
  }

  /**
   * `getNextPageParam` as written: no next page after a short page,
   * otherwise the number of items the infinite query holds.
   */
  function NextPageParam<T(!new)>(lastPage: seq<T>, allPages: seq<seq<T>>): (r: Option<nat>)
    ensures r.None? <==> |lastPage| < PageSize
    ensures r.Some? ==> r.value == |Seqs.Flatten(allPages)|
  {
    if |lastPage| < PageSize then None else Some(|Seqs.Flatten(allPages)|)
  }

  /**
   * The pages the infinite query holds after `fetches` calls of
   * `fetchNextPage`; its first page is read at offset 4.
   */
  function PagesAsWritten<T(!new)>(all: seq<T>, fetches: nat): (ps: seq<seq<T>>)
    ensures |ps| >= 1
  {
    if fetches == 0 then [Window(all, PageSize, FirstLoad)]
    else
      var ps := PagesAsWritten(all, fetches - 1);
      match NextPageParam(ps[|ps| - 1], ps)
      case None => ps
      case Some(o) => ps + [Window(all, PageSize, o)]
  }

  /** `portfolioImages`: the first four, then every page of the infinite query. */
  function ImagesAsWritten<T(!new)>(all: seq<T>, fetches: nat): (r: seq<T>)
    ensures |r| >= Min(FirstLoad, |all|) && r[..Min(FirstLoad, |all|)] == all[..Min(FirstLoad, |all|)]
  {
    Window(all, FirstLoad, 0) + Seqs.Flatten(PagesAsWritten(all, fetches))
  }

  lemma FlattenOne<T(!new)>(w: seq<T>)
    ensures Seqs.Flatten([w]) == w
  {
    assert [w][1..] == [];
  }

  /**
   * With sixteen projects on the server, one press of "see more" asks for
   * offset 8 instead of 12: twenty items show, and projects 8 to 11 show
   * twice.
   */
  lemma OverlappingPages()
    ensures var shown := ImagesAsWritten(seq(16, i => i), 1);
      |shown| == 20 && shown[8] == 8 && shown[12] == 8
  {
    var all := seq(16, i => i);
    var first, second := Window(all, PageSize, FirstLoad), Window(all, PageSize, 8);
    SixteenPagesAsWritten(all);
    Seqs.FlattenConcat([first], [second]);
    FlattenOne(first);
    FlattenOne(second);
    assert [first] + [second] == [first, second];
    var shown := ImagesAsWritten(all, 1);
    assert shown == Window(all, FirstLoad, 0) + first + second;
    assert shown[8] == first[4] == all[8];
    assert shown[12] == second[0] == all[8];
  }

  /** With sixteen items the query holds, after one fetch, the windows at offsets 4 and 8. */
  lemma SixteenPagesAsWritten(all: seq<int>)
    requires |all| == 16
    ensures PagesAsWritten(all, 1) == [Window(all, PageSize, FirstLoad), Window(all, PageSize, 8)]
  {
    var first := Window(all, PageSize, FirstLoad);
    assert |first| == 8;
    FlattenOne(first);
    assert PagesAsWritten(all, 0) == [first];
    assert NextPageParam(first, [first]) == Some(8);
  }

  /** The next offset counted from the start of the list: the four shown first, plus the pages. */
  function NextPageParamFixed<T(!new)>(lastPage: seq<T>, allPages: seq<seq<T>>): (r: Option<nat>)
    ensures r.None? <==> |lastPage| < PageSize
    ensures r.Some? ==> r.value == FirstLoad + |Seqs.Flatten(allPages)|
  {
    if |lastPage| < PageSize then None else Some(FirstLoad + |Seqs.Flatten(allPages)|)
  }

  function Pages<T(!new)>(all: seq<T>, fetches: nat): (ps: seq<seq<T>>)
    ensures |ps| >= 1
  {
    if fetches == 0 then [Window(all, PageSize, FirstLoad)]
    else
      var ps := Pages(all, fetches - 1);
      match NextPageParamFixed(ps[|ps| - 1], ps)
      case None => ps
      case Some(o) => ps + [Window(all, PageSize, o)]
  }

  /** The images the page shows with the corrected next offset. */
  function Images<T(!new)>(all: seq<T>, fetches: nat): (r: seq<T>)
    ensures |r| >= Min(FirstLoad, |all|) && r[..Min(FirstLoad, |all|)] == all[..Min(FirstLoad, |all|)]
  {
    Window(all, FirstLoad, 0) + Seqs.Flatten(Pages(all, fetches))
  }

  /** A full last page moves the next offset on by exactly one page, and the new page follows the old ones. */
  lemma {:induction false} NextWindow<T(!new)>(all: seq<T>, ps: seq<seq<T>>)
    requires |ps| >= 1 && |ps[|ps| - 1]| >= PageSize
    requires ps[|ps| - 1] == Window(all, PageSize, FirstLoad + (|ps| - 1) * PageSize)
    requires Seqs.Flatten(ps) == all[Min(FirstLoad, |all|)..Min(FirstLoad + |ps| * PageSize, |all|)]
    ensures |Seqs.Flatten(ps)| == |ps| * PageSize
    ensures Seqs.Flatten(ps + [Window(all, PageSize, FirstLoad + |ps| * PageSize)])
         == all[Min(FirstLoad, |all|)..Min(FirstLoad + (|ps| + 1) * PageSize, |all|)]
  {
    var m := |ps|;
    var o := FirstLoad + m * PageSize;
    assert FirstLoad + (m - 1) * PageSize + 7 < |all|;
    assert o <= |all|;
    var w := Window(all, PageSize, o);
    Seqs.FlattenConcat(ps, [w]);
    FlattenOne(w);
    assert all[FirstLoad..Min(o + PageSize, |all|)] == all[FirstLoad..o] + all[o..Min(o + PageSize, |all|)];
  }

  lemma FirstPageWindow<T(!new)>(all: seq<T>)
    ensures Seqs.Flatten(Pages(all, 0)) == all[Min(FirstLoad, |all|)..Min(FirstLoad + PageSize, |all|)]
  {
    FlattenOne(Window(all, PageSize, FirstLoad));
  }

  /** The pages are consecutive windows of the list after its first four items. */
  ghost predicate Windowed<T(!new)>(all: seq<T>, ps: seq<seq<T>>) {
    && |ps| >= 1
    && ps[|ps| - 1] == Window(all, PageSize, FirstLoad + (|ps| - 1) * PageSize)
    && Seqs.Flatten(ps) == all[Min(FirstLoad, |all|)..Min(FirstLoad + |ps| * PageSize, |all|)]
  }

  /** One call of `fetchNextPage`: a page more after a full page, none after a short one. */
  lemma PagesStep<T(!new)>(all: seq<T>, fetches: nat)
    requires fetches > 0
    ensures Pages(all, fetches) == Grown(all, Pages(all, fetches - 1))
  {
  }

  /** The pages after one more call: unchanged after a short page, one window more after a full one. */
  function Grown<T(!new)>(all: seq<T>, ps: seq<seq<T>>): seq<seq<T>>
    requires |ps| >= 1
  {
    if |ps[|ps| - 1]| < PageSize then ps
    else ps + [Window(all, PageSize, FirstLoad + |Seqs.Flatten(ps)|)]
  }

  lemma WindowedGrows<T(!new)>(all: seq<T>, ps: seq<seq<T>>)
    requires Windowed(all, ps) && |ps[|ps| - 1]| >= PageSize
    ensures Windowed(all, ps + [Window(all, PageSize, FirstLoad + |Seqs.Flatten(ps)|)])
  {
    NextWindow(all, ps);
    var qs := ps + [Window(all, PageSize, FirstLoad + |ps| * PageSize)];
    assert qs[|qs| - 1] == Window(all, PageSize, FirstLoad + (|qs| - 1) * PageSize);
  }

  /** The pages hold the items after the first four, one window after another. */
  lemma {:induction false} PagesAreWindows<T(!new)>(all: seq<T>, fetches: nat)
    ensures Windowed(all, Pages(all, fetches))
  {
    if fetches == 0 {
      FirstPageWindow(all);
    } else {
      PagesAreWindows(all, fetches - 1);
      PagesStep(all, fetches);
      WindowedStep(all, Pages(all, fetches - 1));
    }
  }

  /** A call of `fetchNextPage` keeps the pages windowed. */
  lemma WindowedStep<T(!new)>(all: seq<T>, ps: seq<seq<T>>)
    requires Windowed(all, ps)
    ensures Windowed(all, Grown(all, ps))
  {
    if |ps[|ps| - 1]| >= PageSize {
      WindowedGrows(all, ps);
    }
  }

  /**
   * With the corrected offset the page shows the server's list from its
   * start, each project once, and all of it once a short page arrived.
   */
  lemma ImagesArePrefix<T(!new)>(all: seq<T>, fetches: nat)
    ensures var ps := Pages(all, fetches);
      && Images(all, fetches) == all[..Min(FirstLoad + |ps| * PageSize, |all|)]
      && (NextPageParamFixed(ps[|ps| - 1], ps).None? ==> Images(all, fetches) == all)
  {
    var ps := Pages(all, fetches);
    PagesAreWindows(all, fetches);
    assert Windowed(all, ps);
    assert all[..Min(FirstLoad + |ps| * PageSize, |all|)]
        == all[..Min(FirstLoad, |all|)] + all[Min(FirstLoad, |all|)..Min(FirstLoad + |ps| * PageSize, |all|)];
  }
}

/** The advertisement page's mapping; its loading is the shared `Feed`. */
module AdvertisementPage {
  import opened Base
  import opened PortfolioItems
  import opened Text

  /** A project under any of the field spellings the page accepts. */
  datatype ProjectApi = ProjectApi(
    rawId: Option<string>, upperId: Option<string>,
    imageUrl: Option<string>, imageUrlTitle: Option<string>, imageUrlUpper: Option<string>,
    videoUrl: Option<string>, videoUrlTitle: Option<string>, videoUrlUpper: Option<string>,
    videoLink: Option<string>, videoLinkTitle: Option<string>,
    title: Option<string>, description: Option<string>, mediaType: Option<string>)

  /**
   * Each field takes the first spelling that is set and not empty:
   * `_id || ID || fallback`, `imageUrl || ImageUrl || ImageURL || ""`, and
   * so on; the type passes only when it is one of the three known ones.
   */
  function MapProject(p: ProjectApi, index: nat): (r: PortfolioItem)
    ensures r.id != "" && r.title != "" && r.category == "advertisement"
    ensures Truthy(p.rawId) ==> r.id == p.rawId.value
    ensures !Truthy(p.rawId) && Truthy(p.upperId) ==> r.id == p.upperId.value
    ensures r.url.Some? && (r.url.value == "" <==> !Truthy(p.imageUrl) && !Truthy(p.imageUrlTitle) && !Truthy(p.imageUrlUpper))
    ensures r.videoUrl.Some? && (r.videoUrl.value == "" <==> !Truthy(p.videoUrl) && !Truthy(p.videoUrlTitle) && !Truthy(p.videoUrlUpper))
    ensures r.videoLink.Some? && (r.videoLink.value == "" <==> !Truthy(p.videoLink) && !Truthy(p.videoLinkTitle))
    ensures r.mediaType == KnownMediaType(p.mediaType)
  {
    PortfolioItem(
      OrElse(p.rawId, OrElse(p.upperId, FallbackId(index))),
      Some(OrElse(p.imageUrl, OrElse(p.imageUrlTitle, OrElse(p.imageUrlUpper, "")))),
      Some(OrElse(p.videoUrl, OrElse(p.videoUrlTitle, OrElse(p.videoUrlUpper, "")))),
      Some(OrElse(p.videoLink, OrElse(p.videoLinkTitle, ""))),
      OrElse(p.title, "Advertisement Project"),
      "advertisement",
      Some(OrElse(p.description, "")),
      KnownMediaType(p.mediaType))
  }
}

/** The visual page: mapping and the media check that blanks unreachable items. */
module VisualPage {
  import opened Base
  import opened Text
  import opened PortfolioItems
  import MediaItem

  datatype ProjectResponse = ProjectResponse(rawId: Option<string>, id: Option<string>, imageUrl: Option<string>,
                                             videoUrl: Option<string>, videoLink: Option<string>,
                                             title: Option<string>, description: Option<string>,
                                             mediaType: Option<string>, category: Option<string>)

  /** The type is only cast, so any string the server sends is kept. */
  function MapProject(p: ProjectResponse, index: nat): (r: PortfolioItem)
    ensures r.id != "" && r.title != "" && r.category != ""
    ensures Truthy(p.rawId) ==> r.id == p.rawId.value
    ensures !Truthy(p.rawId) && Truthy(p.id) ==> r.id == p.id.value
    ensures Truthy(p.category) ==> r.category == p.category.value
    ensures !Truthy(p.category) ==> r.category == "visual"
    ensures r.mediaType == p.mediaType
  {
    PortfolioItem(
      OrElse(p.rawId, OrElse(p.id, FallbackId(index))),
      Some(OrElse(p.imageUrl, "")),
      Some(OrElse(p.videoUrl, "")),
      Some(OrElse(p.videoLink, "")),
      OrElse(p.title, "Visual Project"),
      OrElse(p.category, "visual"),
      Some(OrElse(p.description, "")),
      p.mediaType)
  }

  /** `item.url || item.videoUrl || item.videoLink || ""`: the one link probed. */
  function ProbeTarget(item: PortfolioItem): string {
    OrElse(item.url, OrElse(item.videoUrl, OrElse(item.videoLink, "")))
  }

  /** `field ? "" : field`. */
  function Blanked(field: Option<string>): (r: Option<string>)
    ensures !Truthy(r)
    ensures field.None? ==> r.None?
  {
    if Truthy(field) then Some("") else field
  }

  /** The probed link is not YouTube and did not answer. */
  predicate Fails(item: PortfolioItem, accessible: string -> bool) {
    var target := ProbeTarget(item);
    target != "" && !MentionsYouTube(target) && !accessible(target)
  }

  /**
   * The check of one item: when its probed link fails, every link is
   * blanked and the type forgotten; otherwise the item is untouched.
   */
  function Checked(item: PortfolioItem, accessible: string -> bool): (r: PortfolioItem)
    ensures !Fails(item, accessible) ==> r == item
    ensures Fails(item, accessible) ==>
              && !Truthy(r.url) && !Truthy(r.videoUrl) && !Truthy(r.videoLink) && r.mediaType.None?
              && r.id == item.id && r.title == item.title && r.category == item.category
              && r.description == item.description
  {
    if Fails(item, accessible) then
      item.(url := Blanked(item.url), videoUrl := Blanked(item.videoUrl),
            videoLink := Blanked(item.videoLink), mediaType := None)
    else item
  }

  /**
   * The loop over the answer: each item is checked in place, one after
   * another; `accessible` stands for the outcome of each HEAD request.
   */
  method CheckMedia(items: array<PortfolioItem>, accessible: string -> bool)
    modifies items
    ensures forall i | 0 <= i < items.Length :: items[i] == Checked(old(items[i]), accessible)
  {
    for i := 0 to items.Length
      invariant forall j | 0 <= j < i :: items[j] == Checked(old(items[j]), accessible)
      invariant forall j | i <= j < items.Length :: items[j] == old(items[j])
    {
      var checked := CheckItem(items[i], accessible);
      items[i] := checked;
    }
  }

  /** The body of the loop for one item. */
  method CheckItem(item: PortfolioItem, accessible: string -> bool) returns (r: PortfolioItem)
    ensures r == Checked(item, accessible)
  {
    r := item;
    var mediaUrl := OrElse(item.url, OrElse(item.videoUrl, OrElse(item.videoLink, "")));
    if mediaUrl != "" && !(Contains(mediaUrl, "youtube.com") || Contains(mediaUrl, "youtu.be")) && !accessible(mediaUrl) {
      r := item.(url := if Truthy(item.url) then Some("") else item.url,
                 videoUrl := if Truthy(item.videoUrl) then Some("") else item.videoUrl,
                 videoLink := if Truthy(item.videoLink) then Some("") else item.videoLink,
                 mediaType := None);
    }
  }

  /**
   * An item whose link failed is shown as the "cannot load" card; a
   * YouTube link is never probed; checking again changes nothing.
   */
  lemma CheckedItemShows(item: PortfolioItem, accessible: string -> bool)
    ensures Fails(item, accessible) ==> MediaItem.TileOf(Checked(item, accessible)).Placeholder?
    ensures MentionsYouTube(ProbeTarget(item)) ==> Checked(item, accessible) == item
    ensures Checked(Checked(item, accessible), accessible) == Checked(item, accessible)
  {
    if Fails(item, accessible) {
      var r := Checked(item, accessible);
      assert ProbeTarget(r) == "";
      assert MediaUrl(r) == "";
    }
  }
}

/** The website page: mapping and a media check that blanks each failing link alone. */
module WebsiteDevelopPage {
  import opened Base
  import opened Text
  import opened PortfolioItems
  import AdvertisementPage

  /**
   * The same field spellings as the advertisement page; the type is only
   * cast, so any string the server sends is kept.
   */
  function MapProject(p: AdvertisementPage.ProjectApi, index: nat): (r: PortfolioItem)
    ensures r.id != "" && r.title != "" && r.category == "website-develop"
    ensures Truthy(p.rawId) ==> r.id == p.rawId.value
    ensures !Truthy(p.rawId) && Truthy(p.upperId) ==> r.id == p.upperId.value
    ensures r.url == AdvertisementPage.MapProject(p, index).url
    ensures r.videoUrl == AdvertisementPage.MapProject(p, index).videoUrl
    ensures r.videoLink == AdvertisementPage.MapProject(p, index).videoLink
    ensures r.mediaType == p.mediaType
  {
    PortfolioItem(
      OrElse(p.rawId, OrElse(p.upperId, FallbackId(index))),
      Some(OrElse(p.imageUrl, OrElse(p.imageUrlTitle, OrElse(p.imageUrlUpper, "")))),
      Some(OrElse(p.videoUrl, OrElse(p.videoUrlTitle, OrElse(p.videoUrlUpper, "")))),
      Some(OrElse(p.videoLink, OrElse(p.videoLinkTitle, ""))),
      OrElse(p.title, "Website Development Project"),
      "website-develop",
      Some(OrElse(p.description, "")),
      p.mediaType)
  }

  /** A set link is probed; video links only when they are not YouTube. */
  predicate Probed(field: Option<string>, skipYouTube: bool) {
    Truthy(field) && !(skipYouTube && MentionsYouTube(field.value))
  }

  /** The field after its check: blanked exactly when it was probed and did not answer. */
  function CheckField(field: Option<string>, skipYouTube: bool, accessible: string -> bool): (r: Option<string>)
    ensures Probed(field, skipYouTube) && !accessible(field.value) ==> r == Some("")
    ensures !(Probed(field, skipYouTube) && !accessible(field.value)) ==> r == field
  {
    if Probed(field, skipYouTube) && !accessible(field.value) then Some("") else field
  }

  /**
   * The check of one item: the image link is always probed, the two video
   * links unless they are YouTube links, and a failure blanks that link
   * alone.
   */
  function Checked(item: PortfolioItem, accessible: string -> bool): (r: PortfolioItem)
    ensures r.url == CheckField(item.url, false, accessible)
    ensures r.videoUrl == CheckField(item.videoUrl, true, accessible)
    ensures r.videoLink == CheckField(item.videoLink, true, accessible)
    ensures r.id == item.id && r.title == item.title && r.category == item.category
    ensures r.description == item.description && r.mediaType == item.mediaType
  {
    item.(url := CheckField(item.url, false, accessible),
          videoUrl := CheckField(item.videoUrl, true, accessible),
          videoLink := CheckField(item.videoLink, true, accessible))
  }

  /** The loop over the answer, checking each item's links in place. */
  method CheckMedia(items: array<PortfolioItem>, accessible: string -> bool)
    modifies items
    ensures forall i | 0 <= i < items.Length :: items[i] == Checked(old(items[i]), accessible)
  {
    for i := 0 to items.Length
      invariant forall j | 0 <= j < i :: items[j] == Checked(old(items[j]), accessible)
      invariant forall j | i <= j < items.Length :: items[j] == old(items[j])
    {
      var checked := CheckItem(items[i], accessible);
      items[i] := checked;
    }
  }

  /** The body of the loop for one item: each link probed and blanked on its own. */
  method CheckItem(item: PortfolioItem, accessible: string -> bool) returns (r: PortfolioItem)
    ensures r == Checked(item, accessible)
  {
    r := item;
    if Truthy(r.url) && !accessible(r.url.value) {
      r := r.(url := Some(""));
    }
    if Truthy(r.videoUrl) && !(Contains(r.videoUrl.value, "youtube.com") || Contains(r.videoUrl.value, "youtu.be")) {
      if !accessible(r.videoUrl.value) {
        r := r.(videoUrl := Some(""));
      }
    }
    if Truthy(r.videoLink) && !(Contains(r.videoLink.value, "youtube.com") || Contains(r.videoLink.value, "youtu.be")) {
      if !accessible(r.videoLink.value) {
        r := r.(videoLink := Some(""));
      }
    }
  }

  /**
   * A YouTube image link is still probed, a YouTube video link never is,
   * and checking again changes nothing.
   */
  lemma CheckedFields(item: PortfolioItem, accessible: string -> bool)
    ensures Truthy(item.url) && MentionsYouTube(item.url.value) && !accessible(item.url.value) ==>
              Checked(item, accessible).url == Some("")
    ensures Truthy(item.videoUrl) && MentionsYouTube(item.videoUrl.value) ==>
              Checked(item, accessible).videoUrl == item.videoUrl
    ensures Checked(Checked(item, accessible), accessible) == Checked(item, accessible)
  {
  }
}
