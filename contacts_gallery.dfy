/**
 * The contact messages page of the public site's admin area: the search
 * box with its status filter, changing a contact's status, the status
 * badge and the avatar initials.
 */
module ContactsPage {
  import opened Text
  import Seqs

  datatype ContactStatus = New | Replied | Pending | Closed

  /** The status drop-down: every status, or one. */
  datatype StatusFilter = All | Only(status: ContactStatus)

  datatype Contact = Contact(id: int, name: string, email: string, message: string,
                             status: ContactStatus, createdAt: string)

  /** The name, the email or the message contains the query, ignoring case. */
  predicate MatchesSearch(c: Contact, query: string) {
    || Contains(Lower(c.name), Lower(query))
    || Contains(Lower(c.email), Lower(query))
    || Contains(Lower(c.message), Lower(query))
  }

  predicate MatchesStatus(c: Contact, filter: StatusFilter) {
    filter.All? || c.status == filter.status
  }

  predicate Shown(c: Contact, query: string, filter: StatusFilter) {
    MatchesSearch(c, query) && MatchesStatus(c, filter)
  }

  /** `filteredContacts`: the contacts passing both the search and the status filter, in list order. */
  function Filtered(contacts: seq<Contact>, query: string, filter: StatusFilter): (r: seq<Contact>)
    ensures forall c :: c in r <==> c in contacts && MatchesSearch(c, query) && MatchesStatus(c, filter)
    ensures |r| <= |contacts|
  {
    Seqs.Filter(contacts, c => Shown(c, query, filter))
  }

  /** An empty search box with "All" selected shows every contact. */
  lemma NoFilterShowsAll(contacts: seq<Contact>)
    ensures Filtered(contacts, "", All) == contacts
  {
    forall i | 0 <= i < |contacts| ensures Shown(contacts[i], "", All) {
      ContainsEmpty(Lower(contacts[i].name));
    }
    Seqs.FilterKeepsAll(contacts, c => Shown(c, "", All));
  }

  /** Typing more never brings back a contact the shorter query hid. */
  lemma LongerQueryNarrows(contacts: seq<Contact>, query: string, more: string, filter: StatusFilter, c: Contact)
    requires c in Filtered(contacts, query + more, filter)
    ensures c in Filtered(contacts, query, filter)
  {
    LowerConcat(query, more);
    if Contains(Lower(c.name), Lower(query + more)) {
      ContainsPrefix(Lower(c.name), Lower(query), Lower(more));
    } else if Contains(Lower(c.email), Lower(query + more)) {
      ContainsPrefix(Lower(c.email), Lower(query), Lower(more));
    } else {
      ContainsPrefix(Lower(c.message), Lower(query), Lower(more));
    }
  }

  /** The four statuses split the contacts a search finds. */
  lemma {:induction false} StatusesPartitionSearch(contacts: seq<Contact>, query: string)
    ensures |Filtered(contacts, query, Only(New))| + |Filtered(contacts, query, Only(Replied))|
          + |Filtered(contacts, query, Only(Pending))| + |Filtered(contacts, query, Only(Closed))|
         == |Filtered(contacts, query, All)|
  {
    if contacts != [] {
      StatusesPartitionSearch(contacts[1..], query);
    }
  }

  /** The toast of a status change. */
  datatype Notice = StatusChanged(status: ContactStatus)

  datatype Page = Page(contacts: seq<Contact>, dialogOpen: bool, notices: seq<Notice>)

  /**
   * `updateContactStatus`: every contact with the id takes the new status,
   * nothing else about any contact changes, a toast names the status and
   * the dialog closes.
   */
  function UpdateStatus(page: Page, id: int, status: ContactStatus): (r: Page)
    ensures |r.contacts| == |page.contacts|
    ensures forall i | 0 <= i < |r.contacts| ::
      r.contacts[i].status == (if page.contacts[i].id == id then status else page.contacts[i].status)
    ensures forall i | 0 <= i < |r.contacts| :: r.contacts[i].(status := page.contacts[i].status) == page.contacts[i]
    ensures !r.dialogOpen
    ensures r.notices == page.notices + [StatusChanged(status)]
  {
    var contacts := seq(|page.contacts|, i requires 0 <= i < |page.contacts| =>
      if page.contacts[i].id == id then page.contacts[i].(status := status) else page.contacts[i]);
    Page(contacts, false, page.notices + [StatusChanged(status)])
  }

  /** Setting a status twice in a row leaves the contacts as setting it once. */
  lemma UpdateStatusIdempotent(page: Page, id: int, status: ContactStatus)
    ensures UpdateStatus(UpdateStatus(page, id, status), id, status).contacts == UpdateStatus(page, id, status).contacts
  {
  }

  /** Badge colours. */
  datatype Palette = Blue | Green | Amber | Gray

  /** `getStatusColor`. */
  function StatusColor(status: ContactStatus): (r: Palette)
    ensures r == Gray <==> status == Closed
    ensures status == New ==> r == Blue
    ensures status == Replied ==> r == Green
    ensures status == Pending ==> r == Amber
  {
    match status
    case New => Blue
    case Replied => Green
    case Pending => Amber
    case Closed => Gray
  }

  datatype Icon = ClockIcon | CheckIcon | CrossIcon

  /** `getStatusIcon`: new and pending share the clock. */
  function StatusIcon(status: ContactStatus): (r: Icon)
    ensures r == ClockIcon <==> status == New || status == Pending
    ensures r == CheckIcon <==> status == Replied
    ensures r == CrossIcon <==> status == Closed
  {
    match status
    case New => ClockIcon
    case Replied => CheckIcon
    case Pending => ClockIcon
    case Closed => CrossIcon
  }

  /** The colour and the icon together tell every status apart. */
  lemma BadgeDistinguishesStatuses(a: ContactStatus, b: ContactStatus)
    requires StatusColor(a) == StatusColor(b) && StatusIcon(a) == StatusIcon(b)
    ensures a == b
  {
  }

  /** `name.substring(0, 2).toUpperCase()`: the first two characters (fewer for a shorter name), upper-cased. */
  function Initials(name: string): (r: string)
    ensures |r| == if |name| < 2 then |name| else 2
    ensures forall i | 0 <= i < |r| :: r[i] == UpperChar(name[i]) && !IsAsciiLower(r[i])
  {
    Upper(name[..if |name| < 2 then |name| else 2])
  }
}

/** `ProjectGallery`: the image carousel of a project page. */
module ProjectGallery {

  /** `goToPrevious`: from the first image to the last, else one back. */
  function Previous(index: int, count: nat): (r: int)
    ensures 0 < index <= count ==> r == index - 1
    ensures index == 0 ==> r == count - 1
  {
    if index == 0 then count - 1 else index - 1
  }

  /** `goToNext`: from the last image to the first, else one on. */
  function Next(index: int, count: nat): (r: int)
    ensures index == count - 1 ==> r == 0
    ensures index != count - 1 ==> r == index + 1
  {
    if index == count - 1 then 0 else index + 1
  }

  /** `goToSlide`: a dot jumps to its own image. */
  function GoToSlide(index: int, dot: nat): int {
    dot
  }

  /**
   * With at least one image the arrows and the dots keep the index on an
   * image, and the two arrows undo each other.
   */
  lemma ArrowsStayInRange(index: int, count: nat, dot: nat)
    requires 0 <= index < count && dot < count
    ensures 0 <= GoToSlide(index, dot) < count
    ensures 0 <= Previous(index, count) < count && 0 <= Next(index, count) < count
    ensures Next(Previous(index, count), count) == index
    ensures Previous(Next(index, count), count) == index
  {
  }

  /** The index after `k` presses of the next arrow. */
  function Forward(index: int, count: nat, k: nat): int {
    if k == 0 then index else Next(Forward(index, count, k - 1), count)
  }

  /** Up to a full turn, `k` presses move `k` images on, wrapping past the last image once. */
  lemma {:induction false} ForwardWraps(index: int, count: nat, k: nat)
    requires 0 <= index < count && k <= count
    ensures Forward(index, count, k) == if index + k < count then index + k else index + k - count
  {
    if k > 0 {
      ForwardWraps(index, count, k - 1);
    }
  }

  /** Pressing the next arrow once per image returns to the image shown. */
  lemma FullTurn(index: int, count: nat)
    requires 0 <= index < count
    ensures Forward(index, count, count) == index
  {
    ForwardWraps(index, count, count);
  }

  /** Without images the previous arrow leaves the range of the image list. */
  lemma NoImagesPreviousOutOfRange()
    ensures Previous(0, 0) == -1
  {
  }
}
