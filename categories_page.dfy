/**
 * The category management page of the admin dashboard: the search box,
 * saving the category form (an edit or a new category) and deleting the
 * chosen category. Each handler hands a new list to the page's state.
 */
module CategoriesPage {
  import opened Base
  import opened Text
  import Seqs

  datatype Category = Category(id: string, name: string, createdAt: Option<string>, updatedAt: Option<string>)

  /** The name contains the query, ignoring case. */
  predicate Matches(c: Category, query: string) {
    Contains(Lower(c.name), Lower(query))
  }

  /** `filteredCategories`: the matching categories, in list order. */
  function Filtered(categories: seq<Category>, query: string): (r: seq<Category>)
    ensures forall c :: c in r <==> c in categories && Matches(c, query)
    ensures |r| <= |categories|
  {
    Seqs.Filter(categories, c => Matches(c, query))
  }

  /** An empty search box shows every category. */
  lemma EmptyQueryShowsAll(categories: seq<Category>)
    ensures Filtered(categories, "") == categories
  {
    forall i | 0 <= i < |categories| ensures Matches(categories[i], "") {
      ContainsEmpty(Lower(categories[i].name));
    }
    Seqs.FilterKeepsAll(categories, c => Matches(c, ""));
  }

  /** Typing more never brings back a category the shorter query hid. */
  lemma LongerQueryNarrows(categories: seq<Category>, query: string, more: string, c: Category)
    requires c in Filtered(categories, query + more)
    ensures c in Filtered(categories, query)
  {
    LowerConcat(query, more);
    ContainsPrefix(Lower(c.name), Lower(query), Lower(more));
  }

  /** `categories.map(c => c.ID === id ? record : c)`. */
  function ReplaceById(categories: seq<Category>, id: string, record: Category): (r: seq<Category>)
    ensures |r| == |categories|
    ensures forall i | 0 <= i < |r| :: categories[i].id == id ==> r[i] == record
    ensures forall i | 0 <= i < |r| :: categories[i].id != id ==> r[i] == categories[i]
  {
    seq(|categories|, i requires 0 <= i < |categories| => if categories[i].id == id then record else categories[i])
  }

  /**
   * With distinct ids, saving an edit replaces exactly the edited entry in
   * place; an id the list does not hold changes nothing.
   */
  lemma ReplaceByIdOnce(categories: seq<Category>, k: nat, record: Category)
    requires k < |categories|
    requires forall i, j | 0 <= i < j < |categories| :: categories[i].id != categories[j].id
    ensures ReplaceById(categories, categories[k].id, record) == categories[k := record]
  {
  }

  lemma ReplaceUnknownId(categories: seq<Category>, id: string, record: Category)
    requires forall i | 0 <= i < |categories| :: categories[i].id != id
    ensures ReplaceById(categories, id, record) == categories
  {
  }

  /** The answer of the category API: the saved record, or the error's message. */
  datatype Reply<T> = Done(value: T) | Error(message: string)

  /** The toasts of the page. */
  datatype Notice = CategoryUpdated | CategoryCreated | CategoryDeleted | Failed(message: string)

  /** `error.message || fallback`. */
  function MessageOr(message: string, fallback: string): (r: string)
    ensures message != "" ==> r == message
    ensures message == "" ==> r == fallback
  {
    if message != "" then message else fallback
  }

  /** The state the handlers change. */
  datatype Page = Page(categories: seq<Category>, categoryToDelete: Option<string>, formOpen: bool,
                       formCategory: Option<Category>, formName: string, notices: seq<Notice>)

  /**
   * `handleSaveCategory` once the API answered: an edit replaces the
   * entries with the edited id, a new category goes at the end, and the
   * form is closed and cleared. On an error only a toast is added.
   */
  function Save(page: Page, reply: Reply<Category>): (r: Page)
    ensures reply.Error? ==> r == page.(notices := page.notices + [Failed(MessageOr(reply.message, "Failed to save category."))])
    ensures reply.Done? ==> !r.formOpen && r.formCategory.None? && r.formName == "" && r.categoryToDelete == page.categoryToDelete
    ensures reply.Done? && page.formCategory.Some? ==>
      r.categories == ReplaceById(page.categories, page.formCategory.value.id, reply.value)
      && r.notices == page.notices + [CategoryUpdated]
    ensures reply.Done? && page.formCategory.None? ==>
      r.categories == page.categories + [reply.value] && r.notices == page.notices + [CategoryCreated]
  {
    match reply
    case Error(message) => page.(notices := page.notices + [Failed(MessageOr(message, "Failed to save category."))])
    case Done(record) =>
      var (categories, notice) := match page.formCategory
        case Some(edited) => (ReplaceById(page.categories, edited.id, record), CategoryUpdated)
        case None => (page.categories + [record], CategoryCreated);
      Page(categories, page.categoryToDelete, false, None, "", page.notices + [notice])
  }

  /** A created category shows in the search results exactly when its name matches. */
  lemma CreatedShowsWhenMatching(page: Page, record: Category, query: string)
    requires page.formCategory.None?
    ensures Filtered(Save(page, Done(record)).categories, query)
      == Filtered(page.categories, query) + (if Matches(record, query) then [record] else [])
  {
    Seqs.FilterSnoc(page.categories, record, c => Matches(c, query));
  }

  /**
   * `handleDeleteCategory` once the API answered: nothing happens without
   * a chosen category; otherwise a success removes every entry with that
   * id, keeping the rest in order, and the choice is cleared either way.
   */
  function Delete(page: Page, reply: Reply<()>): (r: Page)
    ensures page.categoryToDelete.None? ==> r == page
    ensures page.categoryToDelete.Some? ==>
      && r.categoryToDelete.None?
      && r.formOpen == page.formOpen && r.formCategory == page.formCategory && r.formName == page.formName
    ensures page.categoryToDelete.Some? && reply.Done? ==>
      r.categories == Seqs.Filter(page.categories, (c: Category) => c.id != page.categoryToDelete.value)
      && r.notices == page.notices + [CategoryDeleted]
    ensures page.categoryToDelete.Some? && reply.Error? ==>
      r.categories == page.categories
      && r.notices == page.notices + [Failed(MessageOr(reply.message, "Failed to delete category."))]
  {
    match page.categoryToDelete
    case None => page
    case Some(id) =>
      match reply
      case Done(_) =>
        page.(categories := Seqs.Filter(page.categories, (c: Category) => c.id != id),
              categoryToDelete := None, notices := page.notices + [CategoryDeleted])
      case Error(message) =>
        page.(categoryToDelete := None, notices := page.notices + [Failed(MessageOr(message, "Failed to delete category."))])
  }

  /** After a successful delete no entry has the id, and every other entry is still there. */
  lemma DeleteRemovesOnlyThatId(page: Page, id: string)
    requires page.categoryToDelete == Some(id)
    ensures var r := Delete(page, Done(()));
      forall c :: c in r.categories <==> c in page.categories && c.id != id
  {
  }
}
