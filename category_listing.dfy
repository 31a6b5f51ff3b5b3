/** The "Category Listings" view (src/NewComponents/Category_Listing.jsx): picking a
    category loads its listings; listings are searched by name, created or edited
    through a form, and deleted after confirmation. */
module CategoryListing {
  import opened Outcomes
  import opened Lists
  import opened Text

  /** A row of the read-only `category` collection. */
  datatype Category = Category(id: nat, name: string, code: string)

  /** A row of `category_listing` as the store returns it: a numeric id and a
      description that may be null. */
  datatype ListingRow = ListingRow(id: nat, name: string, description: Option<string>)

  /** A listing as the view holds it: the id as a string, the description never null. */
  datatype Listing = Listing(id: string, name: string, description: string)

  /** The form's draft; `id` is `None` when the form creates a new listing. */
  datatype ListingDraft = ListingDraft(id: Option<string>, name: string, description: string)

  const EmptyListingDraft: ListingDraft := ListingDraft(None, "", "")

  /** JavaScript truthiness of a string slot: present and not empty. */
  predicate Truthy(s: Option<string>) {
    s.Some? && s.value != ""
  }

  /** `x || null` for a string: the empty string becomes null. */
  function NullIfEmpty(s: string): (r: Option<string>)
    ensures r.None? <==> s == ""
    ensures r.Some? ==> r.value == s
  {
    if s == "" then None else Some(s)
  }

  /** The mapping `fetchListings` applies to one row: the id reads back to the row's
      id, the name is kept, and the description is the row's, or "" where that was
      null or empty. */
  function ToListing(row: ListingRow): (l: Listing)
    ensures AllDigits(l.id) && ParseNat(l.id) == row.id
    ensures l.name == row.name
    ensures l.description == if row.description.Some? then row.description.value else ""
  {
    ParseNatToString(row.id);
    Listing(NatToString(row.id), row.name,
            if row.description.Some? then row.description.value else "")
  }

  /** `fetchListings`' mapping over all rows: one listing per row, in order. */
  function MapRows(rows: seq<ListingRow>): (r: seq<Listing>)
    ensures |r| == |rows|
    ensures forall i :: 0 <= i < |rows| ==> r[i] == ToListing(rows[i])
  {
    if rows == [] then [] else [ToListing(rows[0])] + MapRows(rows[1..])
  }

  /** Rows with distinct ids become listings with distinct ids, so deleting by id
      cannot hit a second listing. */
  lemma MapRowsKeepsIdsDistinct(rows: seq<ListingRow>, i: nat, j: nat)
    requires i < |rows| && j < |rows| && rows[i].id != rows[j].id
    ensures MapRows(rows)[i].id != MapRows(rows)[j].id
  {
    NatToStringInjective(rows[i].id, rows[j].id);
  }

  // ---------------------------------------------------------------- search

  /** The search predicate: the lower-cased name includes the lower-cased term. */
  function NameMatches(l: Listing, term: string): (r: bool)
    ensures term == "" ==> r
    ensures r ==> |term| <= |l.name|
  {
    ContainsEmpty(Lower(l.name));
    Contains(Lower(l.name), Lower(term))
  }

  /** `filteredListings`: the listings whose name matches, in their original order. */
  function FilterListings(s: seq<Listing>, term: string): (r: seq<Listing>)
    ensures |r| <= |s|
    ensures forall l :: l in r <==> l in s && NameMatches(l, term)
  {
    Filter(s, l => NameMatches(l, term))
  }

  /** An empty search term keeps every listing. */
  lemma EmptyTermKeepsAllListings(s: seq<Listing>)
    ensures FilterListings(s, "") == s
  {
    forall i | 0 <= i < |s| ensures NameMatches(s[i], "") {
      ContainsEmpty(Lower(s[i].name));
    }
    FilterKeepsAll(s, l => NameMatches(l, ""));
  }

  // ---------------------------------------------------------------- delete

  /** A listing that deleting `id` keeps: `item.id !== id`. */
  predicate Survives(l: Listing, id: string) {
    l.id != id
  }

  /** The list after deleting `id`: every listing whose id differs, in order. */
  function RemoveById(s: seq<Listing>, id: string): (r: seq<Listing>)
    ensures forall l :: l in r <==> l in s && l.id != id
  {
    Filter(s, l => Survives(l, id))
  }

  /** Deleting removes exactly the listings with that id: every other listing stays
      as often as it was there, and one not holding the id loses nothing. */
  lemma RemoveByIdExact(s: seq<Listing>, id: string)
    ensures forall l :: multiset(RemoveById(s, id))[l] == if l.id != id then multiset(s)[l] else 0
    ensures (forall i :: 0 <= i < |s| ==> s[i].id != id) ==> RemoveById(s, id) == s
  {
    FilterCount(s, l => Survives(l, id));
    if forall i :: 0 <= i < |s| ==> s[i].id != id {
      FilterKeepsAll(s, l => Survives(l, id));
    }
  }

  /** With distinct ids, deleting an id that is present removes one listing. */
  lemma {:induction false} RemoveByIdRemovesOne(s: seq<Listing>, id: string, k: nat)
    requires k < |s| && s[k].id == id
    requires forall i, j :: 0 <= i < j < |s| ==> s[i].id != s[j].id
    ensures |RemoveById(s, id)| == |s| - 1
  {
    assert s == s[..k] + [s[k]] + s[k + 1..];
    FilterConcat(s[..k] + [s[k]], s[k + 1..], l => Survives(l, id));
    FilterConcat(s[..k], [s[k]], l => Survives(l, id));
    FilterKeepsAll(s[..k], l => Survives(l, id));
    FilterKeepsAll(s[k + 1..], l => Survives(l, id));
    assert Filter([s[k]], l => Survives(l, id)) == [];
  }

  /** After a delete, the searched list is the searched list of before without the
      deleted id: the view never needs to re-run the search by itself. */
  lemma DeleteThenSearch(s: seq<Listing>, id: string, term: string)
    ensures FilterListings(RemoveById(s, id), term) == RemoveById(FilterListings(s, term), id)
  {
    FilterCommute(s, l => Survives(l, id), l => NameMatches(l, term));
  }

  // ------------------------------------------------------------------ save

  /** Why `handleSave` refuses to send anything. */
  datatype SaveError = NameRequired | NoCategorySelected

  /** What `handleSave` sends: an update of name and description for the draft's id,
      or an insert that also carries the selected category's code and name. */
  datatype SaveRequest =
    | UpdateListing(id: string, name: string, description: Option<string>)
    | InsertListing(name: string, description: Option<string>, categoryCode: string, parentName: Option<string>)

  /** The outcome of `handleSave`'s checks: refused with a reason, or a request to send. */
  datatype SaveStep = Refused(error: SaveError) | Dispatch(request: SaveRequest)

  /** `handleSave` up to the store call, for draft `d` and the selected category's
      name and code. The name is checked before the category; a request is sent only
      when both checks pass; a truthy id means an update, otherwise an insert into
      the selected category; the description is sent as null exactly when it is
      empty. */
  function SaveDecision(d: ListingDraft, selectedName: Option<string>, selectedCode: Option<string>): (r: SaveStep)
    ensures r == Refused(NameRequired) <==> IsBlank(d.name)
    ensures r == Refused(NoCategorySelected) <==> !IsBlank(d.name) && !Truthy(selectedCode)
    ensures r.Dispatch? <==> !IsBlank(d.name) && Truthy(selectedCode)
    ensures r.Dispatch? ==>
      var q := r.request;
      && (q.UpdateListing? <==> Truthy(d.id))
      && q.name == d.name
      && (q.description.None? <==> d.description == "")
      && (q.description.Some? ==> q.description.value == d.description)
      && (q.UpdateListing? ==> q.id == d.id.value)
      && (q.InsertListing? ==> q.categoryCode == selectedCode.value && q.parentName == selectedName)
  {
    if IsBlank(d.name) then Refused(NameRequired)
    else if !Truthy(selectedCode) then Refused(NoCategorySelected)
    else if Truthy(d.id) then Dispatch(UpdateListing(d.id.value, d.name, NullIfEmpty(d.description)))
    else Dispatch(InsertListing(d.name, NullIfEmpty(d.description), selectedCode.value, selectedName))
  }

  /** Editing a listing that came from a fetch always saves as an update of that
      listing: its stringified id is never empty, hence truthy. */
  lemma EditingFetchedListingUpdates(row: ListingRow, name: string, selectedName: Option<string>, selectedCode: Option<string>)
    requires !IsBlank(name) && Truthy(selectedCode)
    ensures var l := ToListing(row);
      SaveDecision(ListingDraft(Some(l.id), name, l.description), selectedName, selectedCode)
        == Dispatch(UpdateListing(l.id, name, NullIfEmpty(l.description)))
  {
  }

  // ------------------------------------------------------------------ view

  /** The pop-ups the view raises. */
  datatype Notice =
    | SaveRefused(error: SaveError)
    | Saved
    | SaveFailed(message: string)
    | Deleted
    | DeleteFailed(message: string)

  /** The input fields of the listing form, by their `name` attribute. */
  datatype FormField = NameField | DescriptionField

  /** `handleInputChange`: the named field takes the value, the rest is kept. */
  function ApplyInput(d: ListingDraft, field: FormField, value: string): (r: ListingDraft)
    ensures r.id == d.id
    ensures r.name == if field == NameField then value else d.name
    ensures r.description == if field == DescriptionField then value else d.description
  {
    match field
    case NameField => d.(name := value)
    case DescriptionField => d.(description := value)
  }

  /** The component's state slots and its handlers. */
  class CategoryListingView {
    var selectedCategory: Option<string>
    var selectedCategoryCode: Option<string>
    var categoryListings: seq<Listing>
    var showFormModal: bool
    var formData: ListingDraft
    var searchTerm: string

    /** A category's name and code are selected and cleared together. */
    ghost predicate Valid()
      reads this
    {
      selectedCategory.Some? <==> selectedCategoryCode.Some?
    }

    /** `filteredListings`: the loaded listings whose name matches the current term. */
    function FilteredListings(): (r: seq<Listing>)
      reads this
      ensures forall l :: l in r <==> l in categoryListings && NameMatches(l, searchTerm)
    {
      FilterListings(categoryListings, searchTerm)
    }

    /** The initial state: nothing selected, no listings, the empty draft. */
    constructor ()
      ensures Valid()
      ensures selectedCategory == None && selectedCategoryCode == None
      ensures categoryListings == [] && !showFormModal && formData == EmptyListingDraft && searchTerm == ""
    {
      selectedCategory := None;
      selectedCategoryCode := None;
      categoryListings := [];
      showFormModal := false;
      formData := EmptyListingDraft;
      searchTerm := "";
    }

    /** `fetchListings`: the mapped rows, or no listings at all when the query fails. */
    method FetchListings(result: Fetch<seq<ListingRow>>)
      requires Valid()
      modifies this`categoryListings
      ensures Valid()
      ensures categoryListings == if result.Fetched? then MapRows(result.data) else []
    {
      if result.FetchFailed? {
        categoryListings := [];
      } else {
        categoryListings := MapRows(result.data);
      }
    }

    /** `handleClick`: select the category, hide the form, then load its listings;
        returns the code whose listings were queried. */
    method HandleClick(category: Category, result: Fetch<seq<ListingRow>>) returns (queried: string)
      requires Valid()
      modifies this`selectedCategory, this`selectedCategoryCode, this`showFormModal, this`categoryListings
      ensures Valid()
      ensures selectedCategory == Some(category.name) && selectedCategoryCode == Some(category.code)
      ensures !showFormModal && queried == category.code
      ensures categoryListings == if result.Fetched? then MapRows(result.data) else []
    {
      selectedCategory := Some(category.name);
      selectedCategoryCode := Some(category.code);
      showFormModal := false;
      FetchListings(result);
      queried := category.code;
    }

    /** `handleInputChange`: one field of the draft takes the typed value. */
    method HandleInputChange(field: FormField, value: string)
      requires Valid()
      modifies this`formData
      ensures Valid()
      ensures formData == ApplyInput(old(formData), field, value)
    {
      formData := ApplyInput(formData, field, value);
    }

    /** `handleSave`: check the name, then the selection; send an update or an insert;
        on success close the form, reset the draft and reload the selected category's
        listings. `outcome` and `refetch` are the store's answers to the request and
        to the following query; `refetched` is the code queried, if any. */
    method HandleSave(outcome: Outcome, refetch: Fetch<seq<ListingRow>>)
      returns (sent: Option<SaveRequest>, refetched: Option<string>, notice: Notice)
      requires Valid()
      modifies this`showFormModal, this`formData, this`categoryListings
      ensures Valid()
      ensures SaveDecision(old(formData), selectedCategory, selectedCategoryCode).Refused? ==>
        && sent.None? && refetched.None? && unchanged(this)
        && notice == SaveRefused(SaveDecision(old(formData), selectedCategory, selectedCategoryCode).error)
      ensures SaveDecision(old(formData), selectedCategory, selectedCategoryCode).Dispatch? ==>
        sent == Some(SaveDecision(old(formData), selectedCategory, selectedCategoryCode).request)
      ensures sent.Some? && outcome.Failed? ==>
        refetched.None? && unchanged(this) && notice == SaveFailed(outcome.message)
      ensures sent.Some? && outcome.Succeeded? ==>
        && notice == Saved && !showFormModal && formData == EmptyListingDraft
        && refetched == selectedCategoryCode
        && categoryListings == (if refetch.Fetched? then MapRows(refetch.data) else [])
      ensures sent.Some? && sent.value.InsertListing? ==> sent.value.parentName.Some?
    {
      var step := SaveDecision(formData, selectedCategory, selectedCategoryCode);
      if step.Refused? {
        return None, None, SaveRefused(step.error);
      }
      sent := Some(step.request);
      if outcome.Failed? {
        return sent, None, SaveFailed(outcome.message);
      }
      showFormModal := false;
      formData := EmptyListingDraft;
      FetchListings(refetch);
      refetched := selectedCategoryCode;
      notice := Saved;
    }

    /** `handleDelete`: nothing happens unless the user confirms; a delete the store
        accepts drops the listings with that id from the list; a failed one leaves
        the list as it was. `sent` tells whether the delete was issued. */
    method HandleDelete(id: string, confirmed: bool, outcome: Outcome)
      returns (sent: bool, notice: Option<Notice>)
      requires Valid()
      modifies this`categoryListings
      ensures Valid()
      ensures sent == confirmed
      ensures !confirmed ==> unchanged(this) && notice.None?
      ensures confirmed && outcome.Failed? ==> unchanged(this) && notice == Some(DeleteFailed(outcome.message))
      ensures confirmed && outcome.Succeeded? ==>
        categoryListings == RemoveById(old(categoryListings), id) && notice == Some(Deleted)
      ensures confirmed && outcome.Succeeded? ==>
        FilteredListings() == RemoveById(old(FilteredListings()), id)
    {
      if !confirmed {
        return false, None;
      }
      if outcome.Failed? {
        return true, Some(DeleteFailed(outcome.message));
      }
      DeleteThenSearch(categoryListings, id, searchTerm);
      categoryListings := RemoveById(categoryListings, id);
      return true, Some(Deleted);
    }

    /** `openFormModal`: the draft becomes the listing to edit, or the empty draft,
        and the form opens. */
    method OpenFormModal(existing: Option<Listing>)
      requires Valid()
      modifies this`formData, this`showFormModal
      ensures Valid()
      ensures showFormModal
      ensures formData == match existing
        case Some(l) => ListingDraft(Some(l.id), l.name, l.description)
        case None => EmptyListingDraft
    {
      formData := match existing
        case Some(l) => ListingDraft(Some(l.id), l.name, l.description)
        case None => EmptyListingDraft;
      showFormModal := true;
    }

    /** `closeModal`: no category selected, the form hidden, no listings. */
    method CloseModal()
      requires Valid()
      modifies this`selectedCategory, this`selectedCategoryCode, this`showFormModal, this`categoryListings
      ensures Valid()
      ensures selectedCategory == None && selectedCategoryCode == None
      ensures !showFormModal && categoryListings == []
    {
      selectedCategory := None;
      selectedCategoryCode := None;
      showFormModal := false;
      categoryListings := [];
    }

    /** The form's Cancel button. */
    method CancelForm()
      requires Valid()
      modifies this`showFormModal
      ensures Valid() && !showFormModal
    {
      showFormModal := false;
    }

    /** The search box's `onChange`. */
    method HandleSearchChange(term: string)
      requires Valid()
      modifies this`searchTerm
      ensures Valid() && searchTerm == term
    {
      searchTerm := term;
    }
  }
}
