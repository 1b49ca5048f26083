/**
 * YouTube link recognition as the frontends do it. Two patterns are in
 * use. The admin pages anchor theirs at the start of the link: an optional
 * `http://` or `https://`, an optional `www.`, then `youtube.com/watch?v=`
 * or `youtu.be/`, then an id of exactly eleven characters from
 * `[A-Za-z0-9_-]`. The portfolio pages search the whole link for the
 * leftmost `youtube.com/watch?v=`, `youtu.be/` or `youtube.com/embed/`
 * followed by a run of characters other than `&`, `?`, `#` and newline,
 * and take the whole run as the id.
 */
module YouTubeLinks {
  import opened Base
  import opened Text

  const EmbedBase: string := "https://www.youtube.com/embed/"
  const WatchKey: string := "youtube.com/watch?v="
  const ShortKey: string := "youtu.be/"
  const EmbedKey: string := "youtube.com/embed/"

  /** `\w` or `-`. */
  predicate IsIdChar(c: char) { IsAsciiLetter(c) || IsDigit(c) || c == '_' || c == '-' }

  predicate IsStrictId(id: string) {
    |id| == 11 && forall i | 0 <= i < 11 :: IsIdChar(id[i])
  }

  lemma StartsWithConcat(u: string, p: string, q: string)
    requires StartsWith(u, p + q)
    ensures StartsWith(u, p) && StartsWith(u[|p|..], q)
  {
    assert u[..|p|] == (p + q)[..|p|];
    assert u[|p|..][..|q|] == (p + q)[|p|..];
  }

  // ---------------------------------------------------------------------
  // The anchored pattern of the admin pages

  /** What the anchored pattern describes, one choice per optional part. */
  predicate StrictPattern(u: string, scheme: string, www: string, key: string, id: string) {
    && (scheme == "" || scheme == "http://" || scheme == "https://")
    && (www == "" || www == "www.")
    && (key == WatchKey || key == ShortKey)
    && IsStrictId(id)
    && StartsWith(u, scheme + www + key + id)
  }

  function SchemeLength(u: string): (r: nat)
    ensures r <= |u|
  {
    if StartsWith(u, "https://") then 8 else if StartsWith(u, "http://") then 7 else 0
  }

  function WwwLength(v: string): (r: nat)
    ensures r <= |v|
  {
    if StartsWith(v, "www.") then 4 else 0
  }

  function StrictKeyLength(w: string): (r: nat)
    ensures r <= |w|
  {
    if StartsWith(w, WatchKey) then |WatchKey| else if StartsWith(w, ShortKey) then |ShortKey| else 0
  }

  /**
   * The id captured by the anchored pattern, each optional part taken
   * when present (`ProjectCard`'s and `ProjectViewModal`'s
   * `getYouTubeEmbedUrl`).
   */
  function StrictId(u: string): (r: Option<string>)
    ensures r.Some? ==> IsStrictId(r.value)
  {
    var v := u[SchemeLength(u)..];
    var w := v[WwwLength(v)..];
    var k := StrictKeyLength(w);
    if k == 0 || |w| < k + 11 then None
    else
      var id := w[k..k + 11];
      if IsStrictId(id) then Some(id) else None
  }

  /** `getYouTubeEmbedUrl` of the admin pages; None stands for `undefined`. */
  function StrictEmbedUrl(u: string): (r: Option<string>)
    ensures r.Some? <==> StrictId(u).Some?
    ensures r.Some? ==> r.value == EmbedBase + StrictId(u).value
  {
    match StrictId(u)
    case None => None
    case Some(id) => Some(EmbedBase + id)
  }

  /** A link that starts with `h` only where its scheme does. */
  lemma SchemeTaken(u: string, scheme: string, rest: string)
    requires scheme == "" || scheme == "http://" || scheme == "https://"
    requires StartsWith(u, scheme + rest) && |rest| > 0 && rest[0] != 'h'
    ensures SchemeLength(u) == |scheme| && u[|scheme|..][..|rest|] == rest
  {
    assert u[..|scheme|] == scheme;
    if scheme == "" {
      assert u[0] == rest[0];
    } else if scheme == "http://" {
      assert u[4] == ':';
    }
    assert u[|scheme|..][..|rest|] == (scheme + rest)[|scheme|..];
  }

  /** The `www.` part is taken exactly when it is there. */
  lemma WwwTaken(v: string, www: string, rest: string)
    requires www == "" || www == "www."
    requires StartsWith(v, www + rest) && |rest| > 0 && rest[0] == 'y'
    ensures WwwLength(v) == |www| && v[|www|..][..|rest|] == rest
  {
    assert v[..|www|] == www;
    if www == "" {
      assert v[0] == rest[0];
    }
    assert v[|www|..][..|rest|] == (www + rest)[|www|..];
  }

  /** The key taken is the one that is there. */
  lemma KeyTaken(w: string, key: string, id: string)
    requires key == WatchKey || key == ShortKey
    requires StartsWith(w, key + id)
    ensures StrictKeyLength(w) == |key| && w[|key|..][..|id|] == id
  {
    assert w[..|key|] == key;
    if key == ShortKey {
      assert w[5] == '.';
    }
    assert w[|key|..][..|id|] == (key + id)[|key|..];
  }

  /** Every link the pattern describes yields the id it describes. */
  lemma StrictComplete(u: string, scheme: string, www: string, key: string, id: string)
    requires StrictPattern(u, scheme, www, key, id)
    ensures StrictId(u) == Some(id)
  {
    Reassociate(scheme, www, key, id);
    SchemeTaken(u, scheme, www + (key + id));
    var v := u[|scheme|..];
    assert StartsWith(v, www + (key + id));
    WwwTaken(v, www, key + id);
    var w := v[|www|..];
    assert StartsWith(w, key + id);
    KeyTaken(w, key, id);
    StrictIdFrom(u, w, id);
  }

  /** The recogniser reads the 11 characters after the key it finds. */
  lemma StrictIdFrom(u: string, w: string, id: string)
    requires w == u[SchemeLength(u)..][WwwLength(u[SchemeLength(u)..])..]
    requires StrictKeyLength(w) > 0 && IsStrictId(id) && StrictKeyLength(w) + |id| <= |w|
    requires w[StrictKeyLength(w)..][..|id|] == id
    ensures StrictId(u) == Some(id)
  {
    assert w[StrictKeyLength(w)..StrictKeyLength(w) + 11] == id;
  }

  /** Every id the recogniser yields is described by the pattern. */
  lemma StrictSound(u: string) returns (scheme: string, www: string, key: string)
    requires StrictId(u).Some?
    ensures StrictPattern(u, scheme, www, key, StrictId(u).value)
  {
    var a := SchemeLength(u);
    scheme := if a == 8 then "https://" else if a == 7 then "http://" else "";
    assert u[..a] == scheme;
    var v := u[a..];
    var b := WwwLength(v);
    www := if b == 4 then "www." else "";
    assert v[..b] == www;
    var w := v[b..];
    key := if StartsWith(w, WatchKey) then WatchKey else ShortKey;
    var id := StrictId(u).value;
    assert w[..|key|] == key;
    assert w[|key|..|key| + 11] == id;
    PrefixesCompose(w, |key|, key, id);
    PrefixesCompose(v, b, www, key + id);
    PrefixesCompose(u, a, scheme, www + (key + id));
    Reassociate(scheme, www, key, id);
  }

  lemma Reassociate(a: string, b: string, c: string, d: string)
    ensures a + (b + (c + d)) == a + b + c + d
  {
  }

  lemma PrefixesCompose(u: string, a: nat, p: string, q: string)
    requires a == |p| <= |u| && u[..a] == p && StartsWith(u[a..], q)
    ensures StartsWith(u, p + q)
  {
    assert u[..|p + q|] == u[..a] + u[a..][..|q|];
  }

  // ---------------------------------------------------------------------
  // The unanchored pattern of the portfolio pages

  /** The characters that end an id: `&`, newline, `?` and `#`. */
  predicate IsStop(c: char) { c == '&' || c == '\n' || c == '?' || c == '#' }

  /** Length of the longest prefix of `s` free of stop characters. */
  function RunLength(s: string): (r: nat)
    ensures r <= |s|
    ensures forall j | 0 <= j < r :: !IsStop(s[j])
    ensures r < |s| ==> IsStop(s[r])
  {
    if s == [] || IsStop(s[0]) then 0 else 1 + RunLength(s[1..])
  }

  /** Length of the key occurring at `i`, 0 when there is none. */
  function KeyLength(u: string, i: nat): nat {
    if OccursAt(u, WatchKey, i) then |WatchKey|
    else if OccursAt(u, ShortKey, i) then |ShortKey|
    else if OccursAt(u, EmbedKey, i) then |EmbedKey|
    else 0
  }

  /** The pattern matches at `i`: a key followed by at least one id character. */
  predicate MatchesAt(u: string, i: nat) {
    i <= |u| && KeyLength(u, i) > 0 && RunLength(u[i + KeyLength(u, i)..]) > 0
  }

  /** The leftmost match at or after `from`. */
  function FirstMatch(u: string, from: nat): (r: Option<nat>)
    ensures r.Some? ==> from <= r.value && MatchesAt(u, r.value)
    ensures r.Some? ==> forall j | from <= j < r.value :: !MatchesAt(u, j)
    ensures r.None? ==> forall j | from <= j <= |u| :: !MatchesAt(u, j)
    decreases |u| + 1 - from
  {
    if from > |u| then None
    else if MatchesAt(u, from) then Some(from)
    else FirstMatch(u, from + 1)
  }

  /** The id the unanchored pattern captures: the whole run after the leftmost key. */
  function LooseId(u: string): (r: Option<string>)
    ensures r.Some? <==> FirstMatch(u, 0).Some?
    ensures r.Some? ==> r.value != [] && forall j | 0 <= j < |r.value| :: !IsStop(r.value[j])
  {
    match FirstMatch(u, 0)
    case None => None
    case Some(i) =>
      var rest := u[i + KeyLength(u, i)..];
      Some(rest[..RunLength(rest)])
  }

  /** `getYouTubeThumbnail` of the portfolio tiles; "" without a match. */
  function Thumbnail(u: string): (r: string)
    ensures r == "" <==> LooseId(u).None?
  {
    match LooseId(u)
    case None => ""
    case Some(id) => "https://img.youtube.com/vi/" + id + "/mqdefault.jpg"
  }

  /** `getYouTubeEmbedUrl` of the portfolio modal; the link itself without a match. */
  function LooseEmbedUrl(u: string): (r: string)
    ensures LooseId(u).None? ==> r == u
    ensures LooseId(u).Some? ==> StartsWith(r, EmbedBase)
  {
    match LooseId(u)
    case None => u
    case Some(id) => EmbedBase + id
  }

  lemma FirstMatchAt(u: string, from: nat, i: nat)
    requires from <= i && MatchesAt(u, i)
    requires forall j | from <= j < i :: !MatchesAt(u, j)
    ensures FirstMatch(u, from) == Some(i)
  {
  }

  /** A run of id characters is read whole, up to a stop character or the end. */
  lemma RunCovers(s: string, t: string)
    requires StartsWith(s, t) && forall j | 0 <= j < |t| :: !IsStop(t[j])
    ensures RunLength(s) >= |t|
  {
  }

  /** A string occurs only where its first character does. */
  lemma NotAtOtherHead(u: string, key: string, j: nat)
    requires 0 < |key| && j < |u| && u[j] != key[0]
    ensures !OccursAt(u, key, j)
  {
    assert j + |key| <= |u| ==> u[j..j + |key|][0] == u[j];
  }

  /** No key starts at a position holding anything but `y`. */
  lemma NoMatchWithoutY(u: string, j: nat)
    requires j < |u| && u[j] != 'y'
    ensures !MatchesAt(u, j)
  {
    NotAtOtherHead(u, WatchKey, j);
    NotAtOtherHead(u, ShortKey, j);
    NotAtOtherHead(u, EmbedKey, j);
  }

  /** The embed link the modal builds is read back to the same id. */
  lemma LooseIdOfEmbed(id: string)
    requires id != [] && forall j | 0 <= j < |id| :: !IsStop(id[j])
    ensures LooseId(EmbedBase + id) == Some(id)
  {
    var u := EmbedBase + id;
    EmbedLeadNoMatch(id);
    EmbedKeyAt(id);
    assert StartsWith(id, id);
    RunCovers(id, id);
    FirstMatchAt(u, 0, 12);
  }

  /** No key starts in the `https://www.` of an embed link. */
  lemma EmbedLeadNoMatch(id: string)
    ensures forall j | 0 <= j < 12 :: !MatchesAt(EmbedBase + id, j)
  {
    var u := EmbedBase + id;
    forall j | 0 <= j < 12 ensures !MatchesAt(u, j) {
      assert u[j] == EmbedBase[j];
      NoMatchWithoutY(u, j);
    }
  }

  /** The embed key of an embed link is read whole, and the id follows it. */
  lemma EmbedKeyAt(id: string)
    ensures KeyLength(EmbedBase + id, 12) == |EmbedKey|
    ensures (EmbedBase + id)[12 + |EmbedKey|..] == id
  {
    var u := EmbedBase + id;
    assert u[12..12 + |EmbedKey|] == EmbedKey;
    assert u[12 + 12] == 'e';
    assert u[12 + 5] == 'b';
  }

  /** Building the modal's embed link twice changes nothing the second time. */
  lemma LooseEmbedIdempotent(u: string)
    ensures LooseEmbedUrl(LooseEmbedUrl(u)) == LooseEmbedUrl(u)
  {
    match LooseId(u)
    case None =>
    case Some(id) => LooseIdOfEmbed(id);
  }

  /**
   * Whatever the anchored pattern accepts, the unanchored one accepts at
   * the same key, and its id extends the eleven characters of the other.
   */
  lemma StrictImpliesLoose(u: string)
    requires StrictId(u).Some?
    ensures LooseId(u).Some? && StartsWith(LooseId(u).value, StrictId(u).value)
  {
    var scheme, www, key := StrictSound(u);
    LooseFromPattern(u, scheme, www, key, StrictId(u).value);
  }

  /** A link the anchored pattern describes has its leftmost key right after the scheme and `www.`. */
  lemma LooseFromPattern(u: string, scheme: string, www: string, key: string, id: string)
    requires StrictPattern(u, scheme, www, key, id)
    ensures LooseId(u).Some? && StartsWith(LooseId(u).value, id)
  {
    var lead := scheme + www;
    var p := |lead|;
    LeadHasNoY(scheme, www);
    StartsWithConcat(u, lead + key, id);
    StartsWithConcat(u, lead, key);
    NoMatchInLead(u, lead);
    KeyAt(u, p, key);
    assert StartsWith(u[p + |key|..], id);
    LooseAt(u, p, id);
  }

  /** A key at `p` with no match before it is the leftmost; the run after it is read whole. */
  lemma LooseAt(u: string, p: nat, id: string)
    requires p <= |u| && KeyLength(u, p) > 0
    requires forall j | 0 <= j < p :: !MatchesAt(u, j)
    requires id != [] && forall j | 0 <= j < |id| :: !IsStop(id[j])
    requires StartsWith(u[p + KeyLength(u, p)..], id)
    ensures LooseId(u).Some? && StartsWith(LooseId(u).value, id)
  {
    RunCovers(u[p + KeyLength(u, p)..], id);
    FirstMatchAt(u, 0, p);
  }

  lemma LeadHasNoY(scheme: string, www: string)
    requires scheme == "" || scheme == "http://" || scheme == "https://"
    requires www == "" || www == "www."
    ensures 'y' !in scheme + www
  {
    assert 'y' !in scheme;
    assert 'y' !in www;
  }

  /** No key starts inside a `y`-free prefix. */
  lemma NoMatchInLead(u: string, lead: string)
    requires StartsWith(u, lead) && 'y' !in lead
    ensures forall j | 0 <= j < |lead| :: !MatchesAt(u, j)
  {
    forall j | 0 <= j < |lead| ensures !MatchesAt(u, j) {
      assert u[j] == lead[j];
      NoMatchWithoutY(u, j);
    }
  }

  /** A key of the anchored pattern is read as that key by the unanchored one. */
  lemma KeyAt(u: string, p: nat, key: string)
    requires key == WatchKey || key == ShortKey
    requires p <= |u| && StartsWith(u[p..], key)
    ensures KeyLength(u, p) == |key|
  {
    assert u[p..p + |key|] == u[p..][..|key|];
    if key == ShortKey {
      assert u[p + 5] == '.';
    }
  }

  /** A link the unanchored pattern accepts mentions youtube.com or youtu.be. */
  lemma LooseMeansYouTube(u: string)
    requires LooseId(u).Some?
    ensures Contains(u, "youtube.com") || Contains(u, "youtu.be")
  {
    var i := FirstMatch(u, 0).value;
    KeyMentionsYouTube(u, i);
  }

  /** Each of the three keys begins with youtube.com or youtu.be. */
  lemma KeyMentionsYouTube(u: string, i: nat)
    requires KeyLength(u, i) > 0
    ensures OccursAt(u, "youtube.com", i) || OccursAt(u, "youtu.be", i)
  {
    if OccursAt(u, WatchKey, i) {
      assert u[i..i + 11] == u[i..i + |WatchKey|][..11];
    } else if OccursAt(u, ShortKey, i) {
      assert u[i..i + 8] == u[i..i + |ShortKey|][..8];
    } else {
      assert u[i..i + 11] == u[i..i + |EmbedKey|][..11];
    }
  }
}
