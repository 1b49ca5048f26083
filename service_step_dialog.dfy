/**
 * The admin dialog that edits a service step (`EditServiceStepDialog`):
 * the editable lists of subtitles and headings, the category lookup by
 * name, the checks run before the update is sent, and what submitting
 * does to the dialog.
 */
module ServiceStepDialog {
  import opened Base
  import opened Text
  import Seqs

  // ---------------------------------------------------------------------
  // The editable lists

  /** A list as loaded from the step: its entries, or one empty entry when it has none. */
  function Loaded(entries: seq<string>): (r: seq<string>)
    ensures r != []
    ensures entries != [] ==> r == entries
    ensures entries == [] ==> r == [""]
  {
    if |entries| > 0 then entries else [""]
  }

  /** `xs.map((x, i) => i === index ? value : x)`. */
  function ReplaceAt(xs: seq<string>, index: int, value: string): (r: seq<string>)
    ensures |r| == |xs|
    ensures 0 <= index < |xs| ==> r[index] == value
    ensures forall j | 0 <= j < |xs| && j != index :: r[j] == xs[j]
  {
    seq(|xs|, j requires 0 <= j < |xs| => if j == index then value else xs[j])
  }

  /** Writing back the old entry undoes an edit; an index outside the list changes nothing. */
  lemma ReplaceAtUndo(xs: seq<string>, index: int, value: string)
    ensures 0 <= index < |xs| ==> ReplaceAt(ReplaceAt(xs, index, value), index, xs[index]) == xs
    ensures !(0 <= index < |xs|) ==> ReplaceAt(xs, index, value) == xs
  {
  }

  /** `[...xs, ""]`. */
  function AddEntry(xs: seq<string>): (r: seq<string>)
    ensures |r| == |xs| + 1 && r[..|xs|] == xs && r[|xs|] == ""
  {
    xs + [""]
  }

  /**
   * `xs.filter((_, i) => i !== index)`, walking the list as the filter
   * does: the entry at `index` is skipped, every other one kept.
   */
  function RemoveAt(xs: seq<string>, index: int): (r: seq<string>)
    ensures 0 <= index < |xs| ==> r == xs[..index] + xs[index + 1..]
    ensures !(0 <= index < |xs|) ==> r == xs
  {
    if xs == [] then []
    else
      var rest := RemoveAt(xs[1..], index - 1);
      if index == 0 then rest
      else
        assert 0 < index < |xs| ==> xs[..index] == [xs[0]] + xs[1..][..index - 1];
        assert 0 < index < |xs| ==> xs[index + 1..] == xs[1..][index..];
        [xs[0]] + rest
  }

  /** Removing the entry just added gives back the list. */
  lemma AddThenRemove(xs: seq<string>)
    ensures RemoveAt(AddEntry(xs), |xs|) == xs
  {
  }

  /**
   * A remove button is shown only while a list has more than one entry,
   * so editing through the dialog never empties a list.
   */
  predicate ShowRemove(xs: seq<string>) {
    |xs| > 1
  }

  lemma RemoveKeepsListNonEmpty(xs: seq<string>, index: int)
    requires ShowRemove(xs) && 0 <= index < |xs|
    ensures |RemoveAt(xs, index)| == |xs| - 1 >= 1
  {
  }

  // ---------------------------------------------------------------------
  // The category id

  /** A category of the list the dialog loads. */
  datatype NamedCategory = NamedCategory(id: string, name: string)

  const SignInFirst: string := "กรุณาเข้าสู่ระบบ"
  const CategoriesUnavailable: string := "ไม่สามารถโหลดหมวดหมู่ได้"
  const CategoryNotFound: string := "ไม่พบหมวดหมู่"

  /** The id of the first category whose name equals `name` ignoring case. */
  function FindCategoryId(categories: seq<NamedCategory>, name: string): (r: Option<string>)
    ensures r.Some? ==> exists i | 0 <= i < |categories| ::
      categories[i].id == r.value && Lower(categories[i].name) == Lower(name)
      && forall j | 0 <= j < i :: Lower(categories[j].name) != Lower(name)
    ensures r.None? ==> forall i | 0 <= i < |categories| :: Lower(categories[i].name) != Lower(name)
  {
    if categories == [] then None
    else if Lower(categories[0].name) == Lower(name) then Some(categories[0].id)
    else
      var r := FindCategoryId(categories[1..], name);
      assert forall i | 1 <= i < |categories| :: categories[i] == categories[1..][i - 1];
      r
  }

  /** The lookup ignores case: the name in capitals finds the same category. */
  lemma FindCategoryIdIgnoresCase(categories: seq<NamedCategory>, name: string)
    ensures FindCategoryId(categories, Upper(name)) == FindCategoryId(categories, name)
  {
    LowerOfUpper(name);
  }

  /** How the request for the category list settled. */
  datatype CategoriesReply =
    | Listed(categories: seq<NamedCategory>)   // an ok response and its `data` list
    | NotOk                                    // a response with a failure status
    | ListFailed(message: string)              // the request or the reading of its body threw

  /**
   * `fetchCategoryId`: the id to put in the payload, or the message of the
   * error toast, which is the thrown error's own message when it has one.
   */
  function CategoryIdFor(token: Option<string>, reply: CategoriesReply, name: string): (r: Result<string>)
    ensures token.None? || token.value == "" ==> r == Err(Failure(Unauthorized, SignInFirst))
    ensures r.Ok? <==> token.Some? && token.value != "" && reply.Listed? && FindCategoryId(reply.categories, name).Some?
    ensures r.Ok? ==> r.value == FindCategoryId(reply.categories, name).value
    ensures token.Some? && token.value != "" ==>
      && (reply.NotOk? ==> r == Err(Failure(InternalError, CategoriesUnavailable)))
      && (reply.ListFailed? ==> r.Err? && r.failure.message == MessageOr(reply.message, CategoriesUnavailable))
      && (reply.Listed? && FindCategoryId(reply.categories, name).None? ==> r == Err(Failure(NotFound, CategoryNotFound)))
  {
    if token.None? || token.value == "" then Err(Failure(Unauthorized, SignInFirst))
    else match reply
      case NotOk => Err(Failure(InternalError, CategoriesUnavailable))
      case ListFailed(message) => Err(Failure(InternalError, MessageOr(message, CategoriesUnavailable)))
      case Listed(categories) =>
        match FindCategoryId(categories, name)
        case Some(id) => Ok(id)
        case None => Err(Failure(NotFound, CategoryNotFound))
  }

  // ---------------------------------------------------------------------
  // Checking and sending the update

  /** `s.trim()` is truthy. */
  predicate HasText(s: string) {
    Trim(s) != ""
  }

  /** `xs.some((x) => x.trim())`: some entry of the list has text. */
  predicate SomeText(xs: seq<string>) {
    exists i | 0 <= i < |xs| :: HasText(xs[i])
  }

  /** The body of the update request. */
  datatype Payload = Payload(categories: string, title: string, subtitles: seq<string>, headings: seq<string>)

  const TitleRequired: string := "ต้องระบุชื่อ"
  const ContentRequired: string := "ต้องมีอย่างน้อยหนึ่งรายการย่อยหรือหัวข้อ"

  datatype Check = Ready(payload: Payload) | Rejected(message: string)

  /**
   * The checks before the update is sent: the title must have text, then
   * some subtitle or heading must. The payload trims the title and keeps,
   * untrimmed and in order, the entries with text.
   */
  function CheckForm(categoryId: string, title: string, subtitles: seq<string>, headings: seq<string>): (r: Check)
    ensures !HasText(title) ==> r == Rejected(TitleRequired)
    ensures HasText(title) ==> (!SomeText(subtitles) && !SomeText(headings) <==> r == Rejected(ContentRequired))
    ensures r.Ready? <==> HasText(title) && (SomeText(subtitles) || SomeText(headings))
    ensures r.Ready? ==>
      && r.payload.categories == categoryId
      && r.payload.title == Trim(title) && r.payload.title != ""
      && r.payload.subtitles == Seqs.Filter(subtitles, HasText)
      && r.payload.headings == Seqs.Filter(headings, HasText)
      && (r.payload.subtitles != [] || r.payload.headings != [])
  {
    if !HasText(title) then Rejected(TitleRequired)
    else if !(SomeText(subtitles) || SomeText(headings))
    then Rejected(ContentRequired)
    else
      assert (exists s | s in subtitles :: HasText(s)) || (exists h | h in headings :: HasText(h));
      Ready(Payload(categoryId, Trim(title), Seqs.Filter(subtitles, HasText), Seqs.Filter(headings, HasText)))
  }

  /** A sent payload passes the checks again unchanged: the checks are idempotent. */
  lemma PayloadPassesAgain(categoryId: string, title: string, subtitles: seq<string>, headings: seq<string>)
    requires CheckForm(categoryId, title, subtitles, headings).Ready?
    ensures var p := CheckForm(categoryId, title, subtitles, headings).payload;
      CheckForm(p.categories, p.title, p.subtitles, p.headings) == Ready(p)
  {
    var p := CheckForm(categoryId, title, subtitles, headings).payload;
    TrimIdempotent(title);
    Seqs.FilterKeepsAll(p.subtitles, HasText);
    Seqs.FilterKeepsAll(p.headings, HasText);
    if p.subtitles != [] {
      assert HasText(p.subtitles[0]);
    } else {
      assert HasText(p.headings[0]);
    }
  }

  /** What the backend did with the update. */
  datatype Reply =
    | Saved
    | Refused(error: Option<string>)   // the response was not ok; `error` is the body's error field
    | Thrown(message: string)          // the request itself failed

  const UpdateFailed: string := "ไม่สามารถอัปเดตรายการได้"

  /**
   * A toast the dialog shows: "สำเร็จ" / "อัปเดตรายการสำเร็จ" on success,
   * otherwise the destructive "เกิดข้อผิดพลาด" toast with a message.
   */
  datatype Notice = Updated | ErrorNotice(message: string)

  /** `error.message || fallback`. */
  function MessageOr(message: string, fallback: string): (r: string)
    ensures r != "" || fallback == ""
    ensures message != "" ==> r == message
  {
    if message != "" then message else fallback
  }

  /** The toast of a failed send: the body's error, else the default text. */
  function FailureText(token: Option<string>, reply: Reply): (r: string)
    ensures r != ""
    ensures token.None? || token.value == "" ==> r == SignInFirst
    ensures token.Some? && token.value != "" && reply.Refused? && reply.error.Some? && reply.error.value != "" ==> r == reply.error.value
  {
    if token.None? || token.value == "" then SignInFirst
    else match reply
      case Refused(error) => MessageOr(if error.Some? then error.value else "", UpdateFailed)
      case Thrown(message) => MessageOr(message, UpdateFailed)
      case Saved => UpdateFailed
  }

  /** The payload a submit sends: the checked one, when the checks pass and a token is present. */
  function Sent(check: Check, token: Option<string>): (r: Option<Payload>)
    ensures r.Some? <==> check.Ready? && token.Some? && token.value != ""
    ensures r.Some? ==> r.value == check.payload
  {
    if check.Ready? && token.Some? && token.value != "" then Some(check.payload) else None
  }

  /**
   * The one toast of a submit: the check's own message when the form is
   * refused, success only when the payload went out and was saved, and
   * the failure text otherwise.
   */
  function Outcome(check: Check, token: Option<string>, reply: Reply): (r: Notice)
    ensures r == Updated <==> Sent(check, token).Some? && reply.Saved?
    ensures check.Rejected? ==> r == ErrorNotice(check.message)
    ensures check.Ready? && r != Updated ==> r == ErrorNotice(FailureText(token, reply))
  {
    if check.Rejected? then ErrorNotice(check.message)
    else if Sent(check, token).Some? && reply.Saved? then Updated
    else ErrorNotice(FailureText(token, reply))
  }

  /** The dialog's state. */
  class Dialog {
    var title: string
    var subtitles: seq<string>
    var headings: seq<string>
    var categoryId: string
    var isLoading: bool
    var open: bool
    var notices: seq<Notice>

    /** The dialog opened on a step: its lists as `Loaded` shows them. */
    constructor (stepTitle: string, stepSubtitles: seq<string>, stepHeadings: seq<string>)
      ensures title == stepTitle && subtitles == Loaded(stepSubtitles) && headings == Loaded(stepHeadings)
      ensures categoryId == "" && !isLoading && open && notices == []
    {
      title := stepTitle;
      subtitles := Loaded(stepSubtitles);
      headings := Loaded(stepHeadings);
      categoryId := "";
      isLoading := false;
      open := true;
      notices := [];
    }

    /**
     * `handleSubmit`. Without a step nothing happens. Otherwise the
     * request goes out only when the checks pass and a token is present;
     * the returned payload is what is sent. One toast is shown, the dialog
     * closes only on success, the form itself is left as it is, and the
     * dialog is never left loading.
     */
    method Submit(hasStep: bool, token: Option<string>, reply: Reply) returns (sent: Option<Payload>)
      modifies this
      ensures !hasStep ==> sent.None? && unchanged(this)
      ensures title == old(title) && subtitles == old(subtitles) && headings == old(headings)
      ensures categoryId == old(categoryId)
      ensures hasStep ==> sent == Sent(CheckForm(old(categoryId), old(title), old(subtitles), old(headings)), token)
      ensures hasStep ==> notices == old(notices) + [Outcome(CheckForm(old(categoryId), old(title), old(subtitles), old(headings)), token, reply)]
      ensures open == (old(open) && !(sent.Some? && reply.Saved?))
      ensures hasStep ==> !isLoading
    {
      sent := None;
      if !hasStep {
        return;
      }
      var check := CheckForm(categoryId, title, subtitles, headings);
      sent := Sent(check, token);
      open, notices, isLoading := open && !(sent.Some? && reply.Saved?), notices + [Outcome(check, token, reply)], false;
    }
  }
}
