/**
 * The admin's CSR page (app/admin/add-csr/page.js): it lists the CSRs the
 * API returns, keeps a filtered copy in step with the search box, and its
 * form creates or updates a CSR after checking that the two password
 * fields agree.
 *
 * The requests' outcomes are parameters; toasts are left out.
 */
module AddCsrPage {
  import opened Wrappers
  import opened Text
  import opened Lists
  import opened Api
  import CsrRoute
  import Models

  type CsrView = CsrRoute.CsrView

  /** The form's values. */
  datatype CsrForm = CsrForm(
    fullName: string, username: string, email: string, password: string, confirmPassword: string,
    isActive: bool, isLeadRole: bool)

  const DefaultForm := CsrForm("", "", "", "", "", true, false)

  /** The JSON sent: the form without `confirmPassword`. */
  datatype CsrPayload = CsrPayload(
    fullName: string, username: string, email: string, password: string, isActive: bool, isLeadRole: bool)

  /** `const { confirmPassword, ...csrData } = data`. */
  function Stripped(f: CsrForm): (p: CsrPayload)
    ensures (p.fullName, p.username, p.email, p.password) == (f.fullName, f.username, f.email, f.password)
    ensures (p.isActive, p.isLeadRole) == (f.isActive, f.isLeadRole)
  {
    CsrPayload(f.fullName, f.username, f.email, f.password, f.isActive, f.isLeadRole)
  }

  /** The filter: the term, lower-cased, inside the lower-cased name, username and email joined by spaces. */
  predicate Matches(c: CsrView, term: string) {
    Contains(Lower(c.fullName + " " + c.username + " " + c.email), Lower(term))
  }

  function FilterCsrs(csrs: seq<CsrView>, term: string): (r: seq<CsrView>)
    ensures forall c :: c in r <==> c in csrs && Matches(c, term)
    ensures IsSublist(r, csrs)
  {
    Filter(csrs, (c: CsrView) => Matches(c, term))
  }

  /** A term found inside any one field is found in the joined text. */
  lemma FieldMatchIsFound(c: CsrView, term: string)
    requires Contains(Lower(c.fullName), Lower(term)) || Contains(Lower(c.username), Lower(term))
          || Contains(Lower(c.email), Lower(term))
    ensures Matches(c, term)
  {
    var t := Lower(term);
    var a, b, e := c.fullName, c.username, c.email;
    LowerDistributes(a + " " + b, " " + e);
    LowerDistributes(a + " ", b);
    LowerDistributes(a, " ");
    LowerDistributes(" ", e);
    assert a + " " + b + " " + e == (a + " " + b) + (" " + e);
    ContainsInConcat(Lower(a), Lower(" "), t);
    ContainsInConcat(Lower(a) + Lower(" "), Lower(b), t);
    ContainsInConcat(Lower(" "), Lower(e), t);
    ContainsInConcat(Lower(a) + Lower(" ") + Lower(b), Lower(" ") + Lower(e), t);
  }

  /** The joined text also matches a term that spans two fields. */
  lemma MatchSpansFields()
    ensures Matches(CsrRoute.CsrView("i1", "Ann Lee", "alee", "a@x.io", true, false, true, false, 0), "lee al")
  {
    var joined := Lower("Ann Lee" + " " + "alee" + " " + "a@x.io");
    assert joined[4..10] == "lee al";
    assert OccursAt(joined, Lower("lee al"), 4);
  }

  /** The create request a payload leads to, as the route reads its body. */
  function AsInput(p: CsrPayload): CsrRoute.CsrInput {
    CsrRoute.CsrInput(Some(p.fullName), Some(p.username), Some(p.email), Some(p.password),
                      Some(p.isActive), Some(p.isLeadRole))
  }

  /**
   * Unticking "active" on the create form has no effect: the route stores
   * `isActive || true`, so the new CSR is active whatever the form said.
   */
  lemma UntickedActiveStillActive(f: CsrForm, store: seq<Models.CsrRecord>, hash: string -> string,
                                  id: string, now: nat)
    requires f.fullName != "" && f.username != "" && f.email != "" && f.password != ""
    requires !f.isActive
    requires CsrRoute.Post(AsInput(Stripped(f)), store, hash, id, now).response.Ok?
    ensures var v := CsrRoute.Post(AsInput(Stripped(f)), store, hash, id, now).response.value;
            v.isActive && (v.isLeadRole <==> f.isLeadRole)
  {
  }

  class Page {
    var csrs: seq<CsrView>
    var editingId: Option<string>
    var searchTerm: string
    var filteredCsrs: seq<CsrView>
    var loading: bool
    var fetchingCsrs: bool
    var showForm: bool
    var showDeleteModal: bool
    var deleteId: Option<string>
    var deleting: bool
    var form: CsrForm

    /** The filter effect has run on the current term and list. */
    predicate Valid()
      reads this
    {
      filteredCsrs == FilterCsrs(csrs, searchTerm)
    }

    constructor ()
      ensures Valid()
      ensures csrs == [] && editingId.None? && searchTerm == "" && !loading && fetchingCsrs
      ensures !showForm && !showDeleteModal && deleteId.None? && !deleting && form == DefaultForm
    {
      csrs := [];
      editingId := None;
      searchTerm := "";
      filteredCsrs := [];
      loading := false;
      fetchingCsrs := true;
      showForm := false;
      showDeleteModal := false;
      deleteId := None;
      deleting := false;
      form := DefaultForm;
    }

    /** Typing in the search box; the effect recomputes the filtered list. */
    method SetSearchTerm(term: string)
      modifies this
      ensures Valid() && searchTerm == term
      ensures csrs == old(csrs) && editingId == old(editingId) && form == old(form) && showForm == old(showForm)
      ensures loading == old(loading) && showDeleteModal == old(showDeleteModal) && deleteId == old(deleteId)
    {
      searchTerm := term;
      filteredCsrs := FilterCsrs(csrs, searchTerm);
    }

    /** `fetchCSRs`: on success the list is replaced and the effect refilters it. */
    method FetchCsrs(reply: Fetched<CsrView>)
      requires Valid()
      modifies this
      ensures Valid() && !fetchingCsrs
      ensures reply.FetchAnswered? && reply.success ==> csrs == reply.items.GetOr([])
      ensures !(reply.FetchAnswered? && reply.success) ==> csrs == old(csrs)
      ensures searchTerm == old(searchTerm) && editingId == old(editingId) && form == old(form)
      ensures showForm == old(showForm) && loading == old(loading)
      ensures showDeleteModal == old(showDeleteModal) && deleteId == old(deleteId)
    {
      fetchingCsrs := true;
      if reply.FetchAnswered? && reply.success {
        csrs := reply.items.GetOr([]);
        filteredCsrs := FilterCsrs(csrs, searchTerm);
      }
      fetchingCsrs := false;
    }

    /**
     * `onSubmit`. Mismatched passwords send nothing. Otherwise the payload
     * without `confirmPassword` goes to PUT `/api/csr/{editingId}` when an
     * id is being edited and to POST `/api/csr` otherwise; on success the
     * form resets and hides, an update ends the edit, and the list is
     * fetched again.
     */
    method OnSubmit(data: CsrForm, reply: Outcome) returns (sent: Option<Request<CsrPayload>>, refetch: bool)
      requires Valid()
      modifies this
      ensures Valid() && !loading
      ensures data.password != data.confirmPassword ==> sent.None? && !refetch
      ensures data.password == data.confirmPassword ==>
                sent == Some(if Truthy(old(editingId))
                             then Request(PUT, "/api/csr/" + old(editingId).value, Stripped(data))
                             else Request(POST, "/api/csr", Stripped(data)))
      ensures refetch <==> sent.Some? && reply == Answered(true)
      // only the update path ends the edit; a create leaves `editingId` as it was
      ensures editingId == (if refetch && Truthy(old(editingId)) then None else old(editingId))
      ensures refetch ==> form == DefaultForm && !showForm
      ensures !refetch ==> form == old(form) && showForm == old(showForm)
      ensures csrs == old(csrs) && searchTerm == old(searchTerm)
      ensures showDeleteModal == old(showDeleteModal) && deleteId == old(deleteId)
    {
      loading := true;
      sent := None;
      refetch := false;
      if data.password != data.confirmPassword {
        loading := false;
        return;
      }
      var payload := Stripped(data);
      if Truthy(editingId) {
        sent := Some(Request(PUT, "/api/csr/" + editingId.value, payload));
        if reply == Answered(true) {
          editingId := None;
          refetch := true;
          form := DefaultForm;
          showForm := false;
        }
      } else {
        sent := Some(Request(POST, "/api/csr", payload));
        if reply == Answered(true) {
          refetch := true;
          form := DefaultForm;
          showForm := false;
        }
      }
      loading := false;
    }

    /** `handleEdit(csr)`: the form takes the CSR's fields, with both password fields blank. */
    method HandleEdit(c: CsrView)
      modifies this
      ensures editingId == Some(c.id) && showForm
      ensures form == CsrForm(c.fullName, c.username, c.email, "", "", c.isActive, c.isLeadRole)
      ensures csrs == old(csrs) && searchTerm == old(searchTerm) && filteredCsrs == old(filteredCsrs)
      ensures loading == old(loading) && showDeleteModal == old(showDeleteModal) && deleteId == old(deleteId)
    {
      editingId := Some(c.id);
      showForm := true;
      form := form.(fullName := c.fullName, username := c.username, email := c.email);
      form := form.(password := "", confirmPassword := "");
      form := form.(isActive := c.isActive, isLeadRole := c.isLeadRole);
    }

    /** `handleDelete(id)`. */
    method HandleDelete(id: string)
      modifies this
      ensures deleteId == Some(id) && showDeleteModal
      ensures csrs == old(csrs) && searchTerm == old(searchTerm) && filteredCsrs == old(filteredCsrs)
      ensures editingId == old(editingId) && form == old(form) && showForm == old(showForm)
    {
      deleteId := Some(id);
      showDeleteModal := true;
    }

    /** `confirmDelete`: the modal closes only when the delete succeeded. */
    method ConfirmDelete(reply: Outcome) returns (sent: Request<()>, refetch: bool)
      modifies this
      ensures sent == Request(DELETE, "/api/csr/" + IdSegment(deleteId), ())
      ensures refetch <==> reply == Answered(true)
      ensures showDeleteModal == (old(showDeleteModal) && !refetch)
      ensures !deleting && deleteId == old(deleteId)
      ensures csrs == old(csrs) && searchTerm == old(searchTerm) && filteredCsrs == old(filteredCsrs)
      ensures editingId == old(editingId) && form == old(form) && showForm == old(showForm)
    {
      deleting := true;
      sent := Request(DELETE, "/api/csr/" + IdSegment(deleteId), ());
      refetch := false;
      if reply == Answered(true) {
        refetch := true;
        showDeleteModal := false;
      }
      deleting := false;
    }

    /** `handleCancel`. */
    method HandleCancel()
      modifies this
      ensures editingId.None? && form == DefaultForm && !showForm
      ensures csrs == old(csrs) && searchTerm == old(searchTerm) && filteredCsrs == old(filteredCsrs)
      ensures loading == old(loading) && showDeleteModal == old(showDeleteModal) && deleteId == old(deleteId)
    {
      editingId := None;
      form := DefaultForm;
      showForm := false;
    }
  }
}
