/**
 * The portfolio item and service records of the public site, the JavaScript
 * `a || b` fallbacks the pages build them with, and the media-type
 * detection the portfolio tile and the portfolio modal share.
 */
module PortfolioItems {
  import opened Base
  import opened Text
  import YouTubeLinks

  /**
   * A `PortfolioItem`. Optional fields are `Option`s; `mediaType` holds
   * whatever string the page put there (some pages only cast it).
   */
  datatype PortfolioItem = PortfolioItem(
    id: string,
    url: Option<string>,
    videoUrl: Option<string>,
    videoLink: Option<string>,
    title: string,
    category: string,
    description: Option<string>,
    mediaType: Option<string>)

  /** A `Service` card built from a service step. */
  datatype Service = Service(title: string, description: seq<string>, features: seq<string>,
                             timeline: string, revisions: string)

  /** A service step as the backend's JSON reads to the pages. */
  datatype StepResponse = StepResponse(title: Option<string>, subtitles: Option<seq<string>>,
                                       headings: Option<seq<string>>)

  const ImageType: string := "image"
  const VideoType: string := "video"
  const YouTubeType: string := "youtube"

  predicate IsMediaType(s: string) { s == ImageType || s == VideoType || s == YouTubeType }

  /**
   * `mapMediaType` of the logo page and `parseMediaType` of the
   * advertisement page (the two are the same): one of the three known
   * types passes, anything else becomes undefined.
   */
  function KnownMediaType(input: Option<string>): (r: Option<string>)
    ensures r.Some? <==> input.Some? && IsMediaType(input.value)
    ensures r.Some? ==> r == input
  {
    if input.Some? && IsMediaType(input.value) then input else None
  }

  /** `"fallback-" + index`. */
  function FallbackId(index: nat): (r: string)
    ensures |r| > |"fallback-"|
  {
    "fallback-" + Decimal(index)
  }

  /** The link mentions youtube.com or youtu.be. */
  predicate MentionsYouTube(u: string) {
    Contains(u, "youtube.com") || Contains(u, "youtu.be")
  }

  /** `item.videoUrl || item.url || ''`: the link the tile and the modal show. */
  function MediaUrl(item: PortfolioItem): string {
    OrElse(item.videoUrl, OrElse(item.url, ""))
  }

  /**
   * `detectMediaType` of the tile and the modal: an explicit type is kept
   * as it is; otherwise a link mentioning YouTube is "youtube", and
   * otherwise the item is a "video" when it has a video link and an
   * "image" when it has not.
   */
  function DetectMediaType(item: PortfolioItem): (r: string)
    ensures Truthy(item.mediaType) ==> r == item.mediaType.value
    ensures !Truthy(item.mediaType) ==> IsMediaType(r)
    ensures !Truthy(item.mediaType) ==> (r == YouTubeType <==> MentionsYouTube(MediaUrl(item)))
    ensures !Truthy(item.mediaType) && r == ImageType ==> !Truthy(item.videoUrl)
  {
    if Truthy(item.mediaType) then item.mediaType.value
    else if MentionsYouTube(MediaUrl(item)) then YouTubeType
    else if Truthy(item.videoUrl) then VideoType
    else ImageType
  }

  /** A link the thumbnail pattern reads is always detected as YouTube. */
  lemma ThumbnailImpliesYouTube(item: PortfolioItem)
    requires !Truthy(item.mediaType) && YouTubeLinks.LooseId(MediaUrl(item)).Some?
    ensures DetectMediaType(item) == YouTubeType
  {
    YouTubeLinks.LooseMeansYouTube(MediaUrl(item));
  }

  // ---------------------------------------------------------------------
  // Service cards

  /** The first entry containing `sub`, else "" (`find(...) || ""`). */
  function FirstContaining(entries: seq<string>, sub: string): (r: string)
    ensures r != "" ==> r in entries && Contains(r, sub)
    ensures sub != "" && (exists i | 0 <= i < |entries| :: Contains(entries[i], sub)) ==>
              exists i | 0 <= i < |entries| :: entries[i] == r && forall j | 0 <= j < i :: !Contains(entries[j], sub)
    ensures (forall i | 0 <= i < |entries| :: !Contains(entries[i], sub)) ==> r == ""
  {
    if entries == [] then ""
    else if Contains(entries[0], sub) then entries[0]
    else
      var r := FirstContaining(entries[1..], sub);
      assert forall i | 1 <= i < |entries| :: entries[i] == entries[1..][i - 1];
      r
  }

  const TimelineWord: string := "ระยะเวลา"
  const RevisionsWord: string := "แก้ไข"

  /**
   * The service mapping all four portfolio pages share: the title falls
   * back to "Service", the subtitles describe and the headings list
   * features, and the timeline and revisions lines are the first
   * subtitles mentioning the duration and the revisions.
   */
  function ServiceOf(step: StepResponse): (r: Service)
    ensures r.title != ""
    ensures r.description == (if step.subtitles.Some? then step.subtitles.value else [])
    ensures r.features == (if step.headings.Some? then step.headings.value else [])
    ensures r.timeline != "" ==> r.timeline in r.description && Contains(r.timeline, TimelineWord)
    ensures r.revisions != "" ==> r.revisions in r.description && Contains(r.revisions, RevisionsWord)
  {
    var subs := if step.subtitles.Some? then step.subtitles.value else [];
    Service(
      OrElse(step.title, "Service"),
      subs,
      if step.headings.Some? then step.headings.value else [],
      FirstContaining(subs, TimelineWord),
      FirstContaining(subs, RevisionsWord))
  }
}

/** The portfolio tile (`MediaItem`). */
module MediaItem {
  import opened PortfolioItems
  import opened Text
  import YouTubeLinks

  /** What the tile renders. */
  datatype Tile =
    | Placeholder                    // no link: the "cannot load" card
    | ImageTile(src: string)
    | VideoTile(src: string)
    | YouTubeTile(thumbnail: string)
    | Blank                          // a type outside the three: nothing is rendered

  function TileOf(item: PortfolioItem): (r: Tile)
    ensures MediaUrl(item) == "" <==> r.Placeholder?
    ensures r.ImageTile? ==> r.src == MediaUrl(item) && DetectMediaType(item) == ImageType
    ensures r.YouTubeTile? ==> r.thumbnail == YouTubeLinks.Thumbnail(MediaUrl(item))
    ensures r.Blank? ==> Truthy(item.mediaType) && !IsMediaType(item.mediaType.value)
  {
    var u := MediaUrl(item);
    var t := DetectMediaType(item);
    if u == "" then Placeholder
    else if t == ImageType then ImageTile(u)
    else if t == VideoType then VideoTile(u)
    else if t == YouTubeType then YouTubeTile(YouTubeLinks.Thumbnail(u))
    else Blank
  }

  /** The tile is square exactly for images. */
  predicate IsSquare(item: PortfolioItem) {
    DetectMediaType(item) == ImageType
  }

  /** An item without an explicit type is never rendered blank. */
  lemma UntypedNeverBlank(item: PortfolioItem)
    requires !Truthy(item.mediaType)
    ensures !TileOf(item).Blank?
    ensures IsSquare(item) ==> !Truthy(item.videoUrl)
  {
  }
}

/** The portfolio modal (`ModalContent`). */
module ModalContent {
  import opened Base
  import opened Text
  import opened PortfolioItems
  import YouTubeLinks

  /** What the modal renders. */
  datatype View =
    | Unavailable
    | ImageView(src: string)
    | VideoView(src: string)
    | YouTubeView(embed: string)
    | Blank

  function ViewOf(item: PortfolioItem): (r: View)
    ensures MediaUrl(item) == "" <==> r.Unavailable?
    ensures r.YouTubeView? ==> r.embed == YouTubeLinks.LooseEmbedUrl(MediaUrl(item))
  {
    var u := MediaUrl(item);
    var t := DetectMediaType(item);
    if u == "" then Unavailable
    else if t == ImageType then ImageView(u)
    else if t == VideoType then VideoView(u)
    else if t == YouTubeType then YouTubeView(YouTubeLinks.LooseEmbedUrl(u))
    else Blank
  }

  const Marker: string := "logo project"

  /** `Marker` occurs at `i`, ignoring ASCII case. */
  predicate MarkerAt(s: string, i: nat) {
    i + |Marker| <= |s| && Lower(s[i..i + |Marker|]) == Marker
  }

  /** The leftmost case-insensitive occurrence of the marker at or after `from`. */
  function FindMarker(s: string, from: nat): (r: Option<nat>)
    ensures r.Some? ==> from <= r.value && MarkerAt(s, r.value)
    ensures r.Some? ==> forall j | from <= j < r.value :: !MarkerAt(s, j)
    ensures r.None? ==> forall j | from <= j :: !MarkerAt(s, j)
    decreases |s| - from
  {
    if from + |Marker| > |s| then None
    else if MarkerAt(s, from) then Some(from)
    else FindMarker(s, from + 1)
  }

  /**
   * The modal title: the first "logo project" in any case removed, the
   * rest trimmed, and "Untitled" when nothing is left.
   */
  function CleanTitle(title: string): (r: string)
    ensures r != "" && !IsJsWhitespace(r[0]) && !IsJsWhitespace(r[|r| - 1])
    ensures FindMarker(title, 0).None? ==> r == (if AllJsWhitespace(title) then "Untitled" else Trim(title))
    ensures FindMarker(title, 0).Some? ==>
              var i := FindMarker(title, 0).value;
              var rest := title[..i] + title[i + |Marker|..];
              r == (if AllJsWhitespace(rest) then "Untitled" else Trim(rest))
  {
    var removed := match FindMarker(title, 0)
      case None => title
      case Some(i) => title[..i] + title[i + |Marker|..];
    var t := Trim(removed);
    if t == "" then "Untitled" else t
  }

  /** A title that starts with the marker shows what follows it, trimmed. */
  lemma LeadingMarkerDropped(t: string)
    requires !AllJsWhitespace(t)
    ensures CleanTitle(Marker + t) == Trim(t)
  {
    var title := Marker + t;
    assert title[0..|Marker|] == Marker;
    assert Lower(Marker) == Marker by {
      forall i | 0 <= i < |Marker| ensures !IsAsciiUpper(Marker[i]) { }
    }
    assert MarkerAt(title, 0);
    assert title[..0] + title[|Marker|..] == t;
  }

  /** A title that is only the marker, in any case, becomes "Untitled". */
  lemma MarkerOnlyIsUntitled(title: string)
    requires |title| == |Marker| && Lower(title) == Marker
    ensures CleanTitle(title) == "Untitled"
  {
    assert title[0..|Marker|] == title;
    assert MarkerAt(title, 0);
    assert FindMarker(title, 0) == Some(0);
    assert title[..0] + title[|Marker|..] == [];
    assert AllJsWhitespace([]);
  }
}
