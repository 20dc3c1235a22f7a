/**
 * The two credential collections (models/Admin.js, models/CSR.js): record
 * shapes, the defaults Mongoose fills in, the `required` validators and the
 * `unique` indexes, stated as invariants of a collection held as a sequence.
 */
module Models {
  import opened Wrappers

  /** A document of the Admin collection. It has no `isActive` or `isLeadRole`. */
  datatype AdminRecord = AdminRecord(
    id: string,
    fullName: string,
    username: string,
    password: string,   // bcrypt hash
    email: string,
    isCSR: bool,
    isAdmin: bool,
    createdAt: nat)

  /** A document of the CSR collection. */
  datatype CsrRecord = CsrRecord(
    id: string,
    fullName: string,
    username: string,
    password: string,   // bcrypt hash
    email: string,
    isActive: bool,
    isLeadRole: bool,
    isCSR: bool,
    isAdmin: bool,
    createdAt: nat)

  /** `new Admin({...})`: absent flags take the schema defaults. */
  function NewAdmin(id: string, fullName: string, username: string, password: string, email: string,
                    isCSR: Option<bool>, isAdmin: Option<bool>, createdAt: nat): (r: AdminRecord)
    ensures r.isCSR <==> isCSR == Some(true)
    ensures r.isAdmin <==> isAdmin == Some(true)
    ensures (r.id, r.fullName, r.username, r.password, r.email, r.createdAt)
         == (id, fullName, username, password, email, createdAt)
  {
    AdminRecord(id, fullName, username, password, email, isCSR.GetOr(false), isAdmin.GetOr(false), createdAt)
  }

  /** `new CSR({...})`: absent flags take the schema defaults. */
  function NewCsr(id: string, fullName: string, username: string, password: string, email: string,
                  isActive: Option<bool>, isLeadRole: Option<bool>, isCSR: Option<bool>,
                  isAdmin: Option<bool>, createdAt: nat): (r: CsrRecord)
    ensures r.isActive <==> isActive != Some(false)
    ensures r.isLeadRole <==> isLeadRole == Some(true)
    ensures r.isCSR <==> isCSR != Some(false)
    ensures r.isAdmin <==> isAdmin == Some(true)
    ensures (r.id, r.fullName, r.username, r.password, r.email, r.createdAt)
         == (id, fullName, username, password, email, createdAt)
  {
    CsrRecord(id, fullName, username, password, email, isActive.GetOr(true), isLeadRole.GetOr(false),
              isCSR.GetOr(true), isAdmin.GetOr(false), createdAt)
  }

  /** The `required: true` validators: a required string may not be empty. */
  predicate AdminSavable(a: AdminRecord) {
    a.fullName != "" && a.username != "" && a.password != "" && a.email != ""
  }

  predicate CsrSavable(c: CsrRecord) {
    c.fullName != "" && c.username != "" && c.password != "" && c.email != ""
  }

  /** The Admin collection: every record valid, usernames unique (emails need not be). */
  predicate AdminCollection(s: seq<AdminRecord>) {
    && (forall i :: 0 <= i < |s| ==> AdminSavable(s[i]))
    && (forall i, j :: 0 <= i < j < |s| ==> s[i].username != s[j].username)
  }

  /** The CSR collection: every record valid, usernames unique and emails unique. */
  predicate CsrCollection(s: seq<CsrRecord>) {
    && (forall i :: 0 <= i < |s| ==> CsrSavable(s[i]))
    && (forall i, j :: 0 <= i < j < |s| ==> s[i].username != s[j].username)
    && (forall i, j :: 0 <= i < j < |s| ==> s[i].email != s[j].email)
  }

  /** `Model.findOne(filter)`: the first record, in collection order, that matches. */
  function FindFirst<T>(s: seq<T>, matches: T -> bool): (r: Option<T>)
    ensures r.Some? ==> r.value in s && matches(r.value)
    ensures r.None? <==> forall i :: 0 <= i < |s| ==> !matches(s[i])
  {
    if s == [] then None
    else if matches(s[0]) then Some(s[0])
    else FindFirst(s[1..], matches)
  }

  /** The first match is the one at `k` when nothing before `k` matches. */
  lemma {:induction false} FindFirstAt<T>(s: seq<T>, matches: T -> bool, k: nat)
    requires k < |s| && matches(s[k])
    requires forall j :: 0 <= j < k ==> !matches(s[j])
    ensures FindFirst(s, matches) == Some(s[k])
  {
    if k > 0 {
      FindFirstAt(s[1..], matches, k - 1);
    }
  }

  /** Conversely, what `FindFirst` returns is a match with no match before it. */
  lemma {:induction false} FindFirstIsFirst<T>(s: seq<T>, matches: T -> bool)
    requires FindFirst(s, matches).Some?
    ensures exists k :: 0 <= k < |s| && FindFirst(s, matches) == Some(s[k]) && matches(s[k])
                        && forall j :: 0 <= j < k ==> !matches(s[j])
  {
    if !matches(s[0]) {
      FindFirstIsFirst(s[1..], matches);
      var k :| 0 <= k < |s[1..]| && FindFirst(s[1..], matches) == Some(s[1..][k]) && matches(s[1..][k])
                && forall j :: 0 <= j < k ==> !matches(s[1..][j]);
      assert s[k + 1] == s[1..][k];
      forall j | 0 <= j < k + 1 ensures !matches(s[j]) {
        if j > 0 { assert s[j] == s[1..][j - 1]; }
      }
    }
  }

  /** Two admins may share an email: the Admin schema does not index it. */
  lemma AdminEmailNotUnique()
    ensures AdminCollection([
      AdminRecord("a1", "One", "one", "h1", "same@example.com", false, true, 0),
      AdminRecord("a2", "Two", "two", "h2", "same@example.com", false, true, 1)])
  {
  }
}
