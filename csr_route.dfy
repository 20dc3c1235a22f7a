/**
 * `POST /api/csr` and `GET /api/csr` (app/api/csr/route.js): creating a
 * customer service representative after a required-field check and a
 * duplicate check on username and email, and listing the CSRs without
 * their password hashes.
 *
 * bcrypt's `hash` is the oracle `hash`; the new document's `_id` and its
 * `createdAt` stamp are the parameters `id` and `now`.
 */
module CsrRoute {
  import opened Wrappers
  import opened Text
  import opened Models
  import opened Api
  import LoginRoute
  import Session

  /** The JSON body of the request; a missing key is `None`. */
  datatype CsrInput = CsrInput(
    fullName: Option<string>, username: Option<string>, email: Option<string>,
    password: Option<string>, isActive: Option<bool>, isLeadRole: Option<bool>)

  /** The `csr` object of the create response: no password. */
  datatype CsrSummary = CsrSummary(
    id: string, fullName: string, username: string, email: string, isActive: bool, isLeadRole: bool)

  /** A document as `select('-password')` returns it. */
  datatype CsrView = CsrView(
    id: string, fullName: string, username: string, email: string,
    isActive: bool, isLeadRole: bool, isCSR: bool, isAdmin: bool, createdAt: nat)

  const ServerError := "Server error, please try again."

  function Summary(c: CsrRecord): CsrSummary {
    CsrSummary(c.id, c.fullName, c.username, c.email, c.isActive, c.isLeadRole)
  }

  function View(c: CsrRecord): CsrView {
    CsrView(c.id, c.fullName, c.username, c.email, c.isActive, c.isLeadRole, c.isCSR, c.isAdmin, c.createdAt)
  }

  /** The four required fields are present and non-empty. */
  predicate Complete(input: CsrInput) {
    Truthy(input.fullName) && Truthy(input.username) && Truthy(input.email) && Truthy(input.password)
  }

  /**
   * The document the handler builds: `isActive: isActive || true` is always
   * true, `isLeadRole: isLeadRole || false` is the input or false, and the
   * two role flags are fixed.
   */
  function Built(input: CsrInput, hash: string -> string, id: string, now: nat): (c: CsrRecord)
    requires Complete(input)
    ensures c.isActive && c.isCSR && !c.isAdmin
    ensures c.isLeadRole <==> input.isLeadRole == Some(true)
    ensures c.password == hash(input.password.value)
    ensures c.fullName == input.fullName.value && c.username == input.username.value && c.email == input.email.value
    ensures c.id == id && c.createdAt == now
  {
    NewCsr(id, input.fullName.value, input.username.value, hash(input.password.value), input.email.value,
           Some(true), Some(input.isLeadRole == Some(true)), Some(true), Some(false), now)
  }

  /** `newCSR.save()`: the validators and the two unique indexes, then the insert. */
  predicate SaveAccepts(store: seq<CsrRecord>, c: CsrRecord) {
    && CsrSavable(c)
    && (forall i :: 0 <= i < |store| ==> store[i].username != c.username && store[i].email != c.email)
  }

  /** The create handler. */
  function Post(input: CsrInput, store: seq<CsrRecord>, hash: string -> string, id: string, now: nat)
    : (p: Posted<CsrRecord, CsrSummary>)
    // a missing field: 400, nothing stored
    ensures !Complete(input) ==> p == Posted(Err(400, None, "Please fill in all required fields."), store)
    // a clash is reported on the field of the first clashing record, username before email
    ensures Complete(input) ==>
      var clash := FindFirst(store, (c: CsrRecord) => c.username == input.username.value || c.email == input.email.value);
      && (clash.Some? && clash.value.username == input.username.value ==>
            p == Posted(Err(400, Some("username"), "Username already exists."), store))
      && (clash.Some? && clash.value.username != input.username.value ==>
            p == Posted(Err(400, Some("email"), "Email already exists."), store))
      // with no clash the save succeeds exactly when the hash is not empty
      && (clash.None? ==> (p.response.Ok? <==> hash(input.password.value) != ""))
      && (clash.None? && hash(input.password.value) == "" ==> p == Posted(Err(500, None, ServerError), store))
    // only the new record is added, at the end, and it is the one built from the input
    ensures p.response.Ok? <==> Complete(input) && p.store != store
    ensures p.response.Ok? ==>
      && Complete(input)
      && p.store == store + [Built(input, hash, id, now)]
      && p.response == Ok("CSR created successfully!", Summary(Built(input, hash, id, now)))
    ensures p.response.Err? ==> p.store == store
  {
    if !Complete(input) then Posted(Err(400, None, "Please fill in all required fields."), store)
    else
      var username := input.username.value;
      var email := input.email.value;
      var existing := FindFirst(store, (c: CsrRecord) => c.username == username || c.email == email);
      if existing.Some? && existing.value.username == username then
        Posted(Err(400, Some("username"), "Username already exists."), store)
      else if existing.Some? && existing.value.email == email then
        Posted(Err(400, Some("email"), "Email already exists."), store)
      else
        var c := Built(input, hash, id, now);
        if !SaveAccepts(store, c) then Posted(Err(500, None, ServerError), store)
        else Posted(Ok("CSR created successfully!", Summary(c)), store + [c])
  }

  /** `CSR.find({}).select('-password')`: every document, in collection order, without the hash. */
  function Get(store: seq<CsrRecord>): (r: seq<CsrView>)
    ensures |r| == |store|
    ensures forall i :: 0 <= i < |store| ==> r[i] == View(store[i])
  {
    if store == [] then [] else [View(store[0])] + Get(store[1..])
  }

  /** A create keeps the collection's invariant: valid records, unique usernames and emails. */
  lemma PostKeepsCollection(input: CsrInput, store: seq<CsrRecord>, hash: string -> string, id: string, now: nat)
    requires CsrCollection(store)
    ensures CsrCollection(Post(input, store, hash, id, now).store)
  {
  }

  /** A successful create can be undone by removing the last record: nothing else moved. */
  lemma PostOnlyAppends(input: CsrInput, store: seq<CsrRecord>, hash: string -> string, id: string, now: nat)
    requires Post(input, store, hash, id, now).response.Ok?
    ensures var s' := Post(input, store, hash, id, now).store;
            |s'| == |store| + 1 && s'[..|store|] == store && s'[|store|].id == id
  {
    assert (store + [Built(input, hash, id, now)])[..|store|] == store;
  }

  /** A successful create never reuses a username or an email already in the collection. */
  lemma CreatedIsFresh(input: CsrInput, store: seq<CsrRecord>, hash: string -> string, id: string, now: nat)
    requires Post(input, store, hash, id, now).response.Ok?
    ensures forall c :: c in store ==> c.username != input.username.value && c.email != input.email.value
  {
  }

  /**
   * The create response does not depend on the password or its hash: the
   * hash is stored but never sent back.
   */
  lemma ResponseHidesHash(input: CsrInput, store: seq<CsrRecord>, h1: string -> string, h2: string -> string,
                          id: string, now: nat)
    requires forall pw :: h1(pw) != "" && h2(pw) != ""
    ensures Post(input, store, h1, id, now).response == Post(input, store, h2, id, now).response
  {
  }

  /** Two collections that differ only in password hashes list identically. */
  lemma {:induction false} GetHidesHashes(s1: seq<CsrRecord>, s2: seq<CsrRecord>)
    requires |s1| == |s2|
    requires forall i :: 0 <= i < |s1| ==> s1[i].(password := "") == s2[i].(password := "")
    ensures Get(s1) == Get(s2)
  {
    if s1 != [] {
      assert View(s1[0]) == View(s2[0]) by {
        assert s1[0].(password := "") == s2[0].(password := "");
      }
      GetHidesHashes(s1[1..], s2[1..]);
    }
  }

  /**
   * When an earlier record shares only the email and a later one shares
   * the username, the clash is reported on the email.
   */
  lemma EarlierEmailClashWins(input: CsrInput, first: CsrRecord, second: CsrRecord,
                              hash: string -> string, id: string, now: nat)
    requires Complete(input)
    requires first.email == input.email.value && first.username != input.username.value
    requires second.username == input.username.value
    ensures Post(input, [first, second], hash, id, now).response == Err(400, Some("email"), "Email already exists.")
  {
    var f := (c: CsrRecord) => c.username == input.username.value || c.email == input.email.value;
    assert FindFirst([first, second], f) == Some(first);
  }

  /**
   * The duplicate check looks only at the CSR collection: a CSR can be
   * created with an admin's username, and from then on that username logs
   * in as the admin, so the new CSR can never log in.
   */
  lemma CsrWithAdminUsernameIsShadowed(input: CsrInput, admins: seq<AdminRecord>, hash: string -> string,
                                       id: string, now: nat, password: string,
                                       compare: (string, string) -> bool, sign: Session.TokenRequest -> string,
                                       production: bool)
    requires Complete(input) && hash(input.password.value) != ""
    requires exists a :: a in admins && a.username == input.username.value
    ensures var p := Post(input, [], hash, id, now);
            && p.response.Ok?
            && LoginRoute.Lookup(input.username.value, admins, p.store).value.isActive.None?
  {
  }
}
