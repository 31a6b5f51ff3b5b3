/** The "Amount Badget" view (src/NewComponents/Badget.js): a list of budget records
    fetched from the store, searched by code or creator, shown one page at a time, and
    an edit form whose submission is validated and then sent as an update. */
module Badget {
  import opened Outcomes
  import opened Lists
  import opened Text

  /** The page sizes the rows-per-page selector offers. */
  const RowOptions: seq<nat> := [5, 10, 20]

  predicate IsRowOption(n: int) {
    n in RowOptions
  }

  /** One row of the `amount_badget` collection. The numeric columns are held as the
      text the form would show; `approved` is `None` when the column is null. */
  datatype BadgetRecord = BadgetRecord(
    id: nat,
    pwpCode: string,
    amountBadget: string,
    createdUser: string,
    createDate: string,
    remainingBalance: string,
    approved: Option<bool>)

  /** The edit form's draft. `id` is `None` until a record is loaded into it. */
  datatype Draft = Draft(
    id: Option<nat>,
    pwpCode: string,
    amountBadget: string,
    createdUser: string,
    remainingBalance: string,
    approved: bool)

  const EmptyDraft: Draft := Draft(None, "", "", "", "", false)

  /** The draft that editing `b` starts from (`badget.Approved || false` for the flag). */
  function DraftOf(b: BadgetRecord): (d: Draft)
    ensures d.id == Some(b.id)
    ensures d.approved <==> b.approved == Some(true)
    ensures d.pwpCode == b.pwpCode && d.amountBadget == b.amountBadget
    ensures d.createdUser == b.createdUser && d.remainingBalance == b.remainingBalance
  {
    Draft(Some(b.id), b.pwpCode, b.amountBadget, b.createdUser, b.remainingBalance,
          b.approved == Some(true))
  }

  /** The four text inputs of the form, by their `name` attribute. */
  datatype TextField = PwpCode | AmountBadget | CreatedUser | RemainingBalance

  /** An input's change event: a text input with its new value, or the `approved`
      checkbox with its new `checked` state. */
  datatype ChangeEvent = TextInput(field: TextField, value: string) | Checkbox(checked: bool)

  /** The value the draft holds for a text field. */
  function FieldText(d: Draft, f: TextField): string {
    match f
    case PwpCode => d.pwpCode
    case AmountBadget => d.amountBadget
    case CreatedUser => d.createdUser
    case RemainingBalance => d.remainingBalance
  }

  /** `handleChange`: the named field takes the event's value (`checked` for the
      checkbox); every other field of the draft keeps its value. */
  function ApplyChange(d: Draft, e: ChangeEvent): (r: Draft)
    ensures r.id == d.id
    ensures r.approved == if e.Checkbox? then e.checked else d.approved
    ensures forall f :: FieldText(r, f) == if e.TextInput? && e.field == f then e.value else FieldText(d, f)
  {
    match e
    case Checkbox(checked) => d.(approved := checked)
    case TextInput(PwpCode, v) => d.(pwpCode := v)
    case TextInput(AmountBadget, v) => d.(amountBadget := v)
    case TextInput(CreatedUser, v) => d.(createdUser := v)
    case TextInput(RemainingBalance, v) => d.(remainingBalance := v)
  }

  /** The validation failures of `handleSubmit`, one per check. */
  datatype BadgetError = MissingPwpCode | InvalidAmount | MissingCreatedUser | InvalidRemainingBalance

  /** The position of each check in the order `handleSubmit` runs them. */
  function Rank(e: BadgetError): nat {
    match e
    case MissingPwpCode => 0
    case InvalidAmount => 1
    case MissingCreatedUser => 2
    case InvalidRemainingBalance => 3
  }

  /** A numeric field passes when it is non-empty and `Number(...)` of it is not NaN;
      `isNumeric` stands for the latter. */
  predicate NumericText(s: string, isNumeric: string -> bool) {
    s != "" && isNumeric(s)
  }

  /** The draft violates the rule that `e` reports. */
  predicate Fails(d: Draft, e: BadgetError, isNumeric: string -> bool) {
    match e
    case MissingPwpCode => IsBlank(d.pwpCode)
    case InvalidAmount => !NumericText(d.amountBadget, isNumeric)
    case MissingCreatedUser => IsBlank(d.createdUser)
    case InvalidRemainingBalance => !NumericText(d.remainingBalance, isNumeric)
  }

  /** The fail-fast validation of `handleSubmit`: the checks run in the order code,
      amount, user, balance and the first that fails is reported. */
  function Validate(d: Draft, isNumeric: string -> bool): (r: Option<BadgetError>)
    ensures r.Some? ==> Fails(d, r.value, isNumeric)
    ensures r.None? ==>
              !IsBlank(d.pwpCode) && NumericText(d.amountBadget, isNumeric)
              && !IsBlank(d.createdUser) && NumericText(d.remainingBalance, isNumeric)
  {
    if IsBlank(d.pwpCode) then Some(MissingPwpCode)
    else if d.amountBadget == "" || !isNumeric(d.amountBadget) then Some(InvalidAmount)
    else if IsBlank(d.createdUser) then Some(MissingCreatedUser)
    else if d.remainingBalance == "" || !isNumeric(d.remainingBalance) then Some(InvalidRemainingBalance)
    else None
  }

  /** Validation reports no error exactly when every rule holds; otherwise it reports
      a rule that fails, and every rule that runs before it holds. */
  lemma ValidateFirstFailure(d: Draft, isNumeric: string -> bool)
    ensures Validate(d, isNumeric) == None <==> forall e :: !Fails(d, e, isNumeric)
    ensures Validate(d, isNumeric).Some? ==> Fails(d, Validate(d, isNumeric).value, isNumeric)
    ensures Validate(d, isNumeric).Some? ==>
      forall e :: Rank(e) < Rank(Validate(d, isNumeric).value) ==> !Fails(d, e, isNumeric)
  {
    var r := Validate(d, isNumeric);
    if r.Some? {
      assert Fails(d, r.value, isNumeric);
    }
    forall e | Rank(e) < (if r.Some? then Rank(r.value) else 4)
      ensures !Fails(d, e, isNumeric)
    {
      match e
      case MissingPwpCode =>
      case InvalidAmount =>
      case MissingCreatedUser =>
      case InvalidRemainingBalance =>
    }
  }

  /** The update `handleSubmit` sends: the four edited columns and the flag, for the
      row whose id is the draft's. */
  datatype BadgetUpdate = BadgetUpdate(
    id: Option<nat>,
    pwpCode: string,
    amountBadget: string,
    createdUser: string,
    remainingBalance: string,
    approved: bool)

  /** What `handleSubmit` dispatches for draft `d`: nothing when validation fails,
      otherwise an update that carries the draft's values unchanged. */
  function SubmitRequest(d: Draft, isNumeric: string -> bool): (r: Option<BadgetUpdate>)
    ensures r.None? <==> Validate(d, isNumeric).Some?
    ensures r.Some? ==> r.value.id == d.id && r.value.approved == d.approved
  {
    if Validate(d, isNumeric).Some? then None
    else Some(BadgetUpdate(d.id, d.pwpCode, d.amountBadget, d.createdUser, d.remainingBalance, d.approved))
  }

  /** The value an update carries for a text field. */
  function UpdateText(u: BadgetUpdate, f: TextField): string {
    match f
    case PwpCode => u.pwpCode
    case AmountBadget => u.amountBadget
    case CreatedUser => u.createdUser
    case RemainingBalance => u.remainingBalance
  }

  /** The update carries every text field exactly as the draft holds it. */
  lemma SubmitCarriesDraft(d: Draft, isNumeric: string -> bool, f: TextField)
    requires Validate(d, isNumeric).None?
    ensures SubmitRequest(d, isNumeric).Some?
    ensures UpdateText(SubmitRequest(d, isNumeric).value, f) == FieldText(d, f)
  {
  }

  // ---------------------------------------------------------------- search

  /** The search predicate: the lower-cased code or creator includes the lower-cased term. */
  function Matches(b: BadgetRecord, term: string): (r: bool)
    ensures term == "" ==> r
    ensures r ==> |term| <= |b.pwpCode| || |term| <= |b.createdUser|
  {
    ContainsEmpty(Lower(b.pwpCode));
    Contains(Lower(b.pwpCode), Lower(term)) || Contains(Lower(b.createdUser), Lower(term))
  }

  /** `filteredBadgets`: the records that match the term, in their original order. */
  function FilterBadgets(s: seq<BadgetRecord>, term: string): (r: seq<BadgetRecord>)
    ensures |r| <= |s|
    ensures forall b :: b in r <==> b in s && Matches(b, term)
  {
    Filter(s, b => Matches(b, term))
  }

  /** An empty search term keeps every record. */
  lemma EmptyTermKeepsAll(s: seq<BadgetRecord>)
    ensures FilterBadgets(s, "") == s
  {
    forall i | 0 <= i < |s| ensures Matches(s[i], "") {
      ContainsEmpty(Lower(s[i].pwpCode));
    }
    FilterKeepsAll(s, b => Matches(b, ""));
  }

  /** The search does not depend on the case of the term's letters. */
  lemma SearchIgnoresCase(s: seq<BadgetRecord>, term: string)
    ensures FilterBadgets(s, Lower(term)) == FilterBadgets(s, term)
  {
    LowerIdempotent(term);
    FilterAgree(s, b => Matches(b, Lower(term)), b => Matches(b, term));
  }

  // ------------------------------------------------------------ pagination

  /** `Math.ceil(n / size)`: the number of pages of `size` rows that hold `n` rows. */
  function TotalPages(n: nat, size: nat): (t: nat)
    requires size > 0
    ensures n <= t * size
    ensures t > 0 ==> (t - 1) * size < n
    ensures t == 0 <==> n == 0
  {
    (n + size - 1) / size
  }

  /** `startIndex`: the offset of the first row of `page`. */
  function StartIndex(page: int, size: nat): (r: int)
    ensures r + size == page * size
    ensures page >= 1 ==> r >= 0
  {
    MulMonotone(0, if page >= 1 then page - 1 else 0, size);
    (page - 1) * size
  }

  /** How `Array.prototype.slice` reads an index: negative counts from the end, and
      the result is clamped into `[0, len]`. */
  function SliceIndex(i: int, len: nat): (k: nat)
    ensures k <= len
    ensures 0 <= i <= len ==> k == i
  {
    if i < 0 then (if len + i < 0 then 0 else len + i)
    else if i > len then len
    else i
  }

  /** `s.slice(start, end)`. */
  function JsSlice<T>(s: seq<T>, start: int, end: int): (r: seq<T>)
    ensures |r| <= |s|
    ensures 0 <= start <= end <= |s| ==> r == s[start..end]
    ensures forall i :: 0 <= i < |r| ==> r[i] in s
  {
    var a := SliceIndex(start, |s|);
    var b := SliceIndex(end, |s|);
    if a < b then s[a..b] else []
  }

  function Min(a: int, b: int): int {
    if a <= b then a else b
  }

  /** `currentItems`: the rows of `f` shown on `page`. */
  function PageOf<T>(f: seq<T>, page: int, size: nat): (r: seq<T>)
    ensures |r| <= size
    ensures forall i :: 0 <= i < |r| ==> r[i] in f
  {
    JsSlice(f, StartIndex(page, size), StartIndex(page, size) + size)
  }

  /** A page from 1 on is the contiguous run of at most `size` rows that starts at
      `(page - 1) * size`; a page within the page count is not empty. */
  lemma PageIsSlice<T>(f: seq<T>, page: int, size: nat)
    requires page >= 1 && size > 0
    ensures PageOf(f, page, size) == f[Min((page - 1) * size, |f|)..Min(page * size, |f|)]
    ensures |PageOf(f, page, size)| <= size
    ensures page <= TotalPages(|f|, size) ==> PageOf(f, page, size) != []
  {
    var start := (page - 1) * size;
    MulMonotone(0, page - 1, size);
    assert start + size == page * size;
    var t := TotalPages(|f|, size);
    if page <= t {
      MulMonotone(page - 1, t - 1, size);
    }
  }

  /** Multiplying by a non-negative factor keeps the order. */
  lemma MulMonotone(a: int, b: int, c: nat)
    requires a <= b
    ensures a * c <= b * c
  {
    assert b * c - a * c == (b - a) * c;
  }

  /** Page 0, which `goToPage` stores when there are no pages, shows no rows. */
  lemma PageZeroIsEmpty<T>(f: seq<T>, size: nat)
    ensures PageOf(f, 0, size) == []
  {
  }

  /** The rows of pages `1..k`, one page after another. */
  function PagesUpTo<T>(f: seq<T>, size: nat, k: nat): seq<T> {
    if k == 0 then [] else PagesUpTo(f, size, k - 1) + PageOf(f, k, size)
  }

  /** Pages `1..k` together are the first `k * size` rows. */
  lemma {:induction false} PagesUpToPrefix<T>(f: seq<T>, size: nat, k: nat)
    requires size > 0
    ensures PagesUpTo(f, size, k) == f[..Min(k * size, |f|)]
  {
    if k > 0 {
      PagesUpToPrefix(f, size, k - 1);
      PageIsSlice(f, k, size);
      var a := Min((k - 1) * size, |f|);
      var b := Min(k * size, |f|);
      assert a <= b by {
        assert (k - 1) * size + size == k * size;
      }
      assert PagesUpTo(f, size, k) == f[..a] + f[a..b];
      assert f[..a] + f[a..b] == f[..b];
    }
  }

  /** Pages `1..totalPages` together are the whole filtered list. */
  lemma PagesCoverList<T>(f: seq<T>, size: nat)
    requires size > 0
    ensures PagesUpTo(f, size, TotalPages(|f|, size)) == f
  {
    PagesUpToPrefix(f, size, TotalPages(|f|, size));
    assert f[..|f|] == f;
  }

  /** The page `goToPage(page)` stores when there are `total` pages. */
  function ClampPage(page: int, total: nat): (r: int)
    ensures 1 <= page <= total ==> r == page
    ensures page < 1 ==> r == 1
    ensures page > total ==> r == total
    ensures r >= 0
  {
    if page < 1 then 1 else if page > total then total else page
  }

  /** With at least one page, the stored page is the page in `[1, total]` nearest to
      the requested one, and clamping it again changes nothing. */
  lemma ClampIsNearest(page: int, total: nat, q: int)
    requires total >= 1 && 1 <= q <= total
    ensures 1 <= ClampPage(page, total) <= total
    ensures ClampPage(ClampPage(page, total), total) == ClampPage(page, total)
    ensures Abs(ClampPage(page, total) - page) <= Abs(q - page)
  {
  }

  function Abs(x: int): nat {
    if x < 0 then -x else x
  }

  /** With no pages, every request from 1 on stores page 0, and a request below 1
      stores page 1. */
  lemma ClampWithNoPages(page: int)
    ensures ClampPage(page, 0) == if page < 1 then 1 else 0
  {
  }

  /** Whenever there is at least one page, the page `goToPage` stores shows rows. */
  lemma ClampedPageShowsRows<T>(f: seq<T>, size: nat, page: int)
    requires size > 0 && f != []
    ensures PageOf(f, ClampPage(page, TotalPages(|f|, size)), size) != []
  {
    PageIsSlice(f, ClampPage(page, TotalPages(|f|, size)), size);
  }

  // ------------------------------------------------------------------ view

  /** The pop-ups the view raises. */
  datatype Notice =
    | ValidationWarning(error: BadgetError)
    | FetchError(message: string)
    | UpdateError(message: string)
    | UpdateSuccess

  /** The component's state slots and its handlers. */
  class BadgetView {
    var badgets: seq<BadgetRecord>
    var loading: bool
    var modalOpen: bool
    var form: Draft
    var isEditing: bool
    var searchTerm: string
    var currentPage: int
    var itemsPerPage: nat

    /** The page size is one the selector offers, and no handler stores a negative page. */
    ghost predicate Valid()
      reads this
    {
      IsRowOption(itemsPerPage) && currentPage >= 0
    }

    /** `filteredBadgets`: the loaded records that match the current term. */
    function FilteredBadgets(): (r: seq<BadgetRecord>)
      reads this
      ensures forall b :: b in r <==> b in badgets && Matches(b, searchTerm)
    {
      FilterBadgets(badgets, searchTerm)
    }

    /** `totalPages`. */
    function PageCount(): (r: nat)
      reads this
      requires Valid()
      ensures r == 0 <==> FilteredBadgets() == []
      ensures |FilteredBadgets()| <= r * itemsPerPage
    {
      TotalPages(|FilteredBadgets()|, itemsPerPage)
    }

    /** `currentItems`: the rows the table shows. */
    function CurrentItems(): (r: seq<BadgetRecord>)
      reads this
      ensures |r| <= itemsPerPage
      ensures forall i :: 0 <= i < |r| ==> r[i] in FilteredBadgets()
    {
      PageOf(FilteredBadgets(), currentPage, itemsPerPage)
    }

    /** The initial state: no rows yet, loading, page 1 of 5 rows, the empty draft. */
    constructor ()
      ensures Valid()
      ensures badgets == [] && loading && !modalOpen && form == EmptyDraft && !isEditing
      ensures searchTerm == "" && currentPage == 1 && itemsPerPage == 5
    {
      badgets := [];
      loading := true;
      modalOpen := false;
      form := EmptyDraft;
      isEditing := false;
      searchTerm := "";
      currentPage := 1;
      itemsPerPage := 5;
    }

    /** `fetchBadgets`: a failed query keeps the rows already held; either way loading ends. */
    method FetchBadgets(result: Fetch<seq<BadgetRecord>>) returns (notices: seq<Notice>)
      requires Valid()
      modifies this`badgets, this`loading
      ensures Valid()
      ensures badgets == if result.Fetched? then result.data else old(badgets)
      ensures !loading
      ensures notices == if result.Fetched? then [] else [FetchError(result.message)]
    {
      loading := true;
      if result.FetchFailed? {
        notices := [FetchError(result.message)];
      } else {
        badgets := result.data;
        notices := [];
      }
      loading := false;
    }

    /** `openEditModal`: the draft becomes the record's values and the modal opens. */
    method OpenEditModal(b: BadgetRecord)
      requires Valid()
      modifies this`form, this`isEditing, this`modalOpen
      ensures Valid()
      ensures form == DraftOf(b) && isEditing && modalOpen
    {
      form := DraftOf(b);
      isEditing := true;
      modalOpen := true;
    }

    /** `handleChange`: one field of the draft takes the event's value. */
    method HandleChange(e: ChangeEvent)
      requires Valid()
      modifies this`form
      ensures Valid()
      ensures form == ApplyChange(old(form), e)
    {
      form := ApplyChange(form, e);
    }

    /** The modal's Cancel button. */
    method CancelEdit()
      requires Valid()
      modifies this`modalOpen
      ensures Valid() && !modalOpen
    {
      modalOpen := false;
    }

    /** `handleSubmit`: validate the draft; if it passes, send the update; on success
        close the modal and fetch the rows again. `update` and `refetch` are the
        store's answers to the update and to the following query. */
    method HandleSubmit(isNumeric: string -> bool, update: Outcome, refetch: Fetch<seq<BadgetRecord>>)
      returns (sent: Option<BadgetUpdate>, notices: seq<Notice>)
      requires Valid()
      modifies this
      ensures Valid()
      ensures sent == SubmitRequest(old(form), isNumeric)
      ensures sent.None? ==> unchanged(this) && notices == [ValidationWarning(Validate(old(form), isNumeric).value)]
      ensures sent.Some? && update.Failed? ==> unchanged(this) && notices == [UpdateError(update.message)]
      ensures sent.Some? && update.Succeeded? ==>
        && !modalOpen && !loading
        && badgets == (if refetch.Fetched? then refetch.data else old(badgets))
        && form == old(form) && isEditing == old(isEditing) && searchTerm == old(searchTerm)
        && currentPage == old(currentPage) && itemsPerPage == old(itemsPerPage)
        && notices == [UpdateSuccess] + (if refetch.Fetched? then [] else [FetchError(refetch.message)])
    {
      sent := SubmitRequest(form, isNumeric);
      if sent.None? {
        return None, [ValidationWarning(Validate(form, isNumeric).value)];
      }
      if update.Failed? {
        return sent, [UpdateError(update.message)];
      }
      modalOpen := false;
      var fetched := FetchBadgets(refetch);
      notices := [UpdateSuccess] + fetched;
    }

    /** `goToPage`: below 1 becomes 1, beyond the page count becomes the page count
        (0 when there are no pages), anything else is kept. */
    method GoToPage(page: int)
      requires Valid()
      modifies this`currentPage
      ensures Valid()
      ensures currentPage == ClampPage(page, PageCount())
    {
      var total := TotalPages(|FilteredBadgets()|, itemsPerPage);
      var p := page;
      if p < 1 {
        p := 1;
      } else if p > total {
        p := total;
      }
      currentPage := p;
    }

    /** `handleItemsPerPageChange`: the new page size, back to page 1. */
    method HandleItemsPerPageChange(size: nat)
      requires Valid() && IsRowOption(size)
      modifies this`itemsPerPage, this`currentPage
      ensures Valid()
      ensures itemsPerPage == size && currentPage == 1
      ensures badgets == old(badgets) && searchTerm == old(searchTerm)
    {
      itemsPerPage := size;
      currentPage := 1;
    }

    /** The search box's `onChange`: the new term, back to page 1. */
    method HandleSearchChange(term: string)
      requires Valid()
      modifies this`searchTerm, this`currentPage
      ensures Valid()
      ensures searchTerm == term && currentPage == 1
      ensures badgets == old(badgets) && itemsPerPage == old(itemsPerPage)
      ensures CurrentItems() == PageOf(FilterBadgets(badgets, term), 1, itemsPerPage)
      ensures (exists b :: b in badgets && Matches(b, term)) ==> CurrentItems() != []
    {
      searchTerm := term;
      currentPage := 1;
      if exists b :: b in badgets && Matches(b, term) {
        var b :| b in badgets && Matches(b, term);
        assert b in FilteredBadgets();
        PageIsSlice(FilteredBadgets(), 1, itemsPerPage);
      }
    }
  }
}
