/**
 * `POST /api/co-workers` and `GET /api/co-workers`
 * (app/api/co-workers/route.js): a co-worker is registered after a
 * required-field check, a CNIC shape check and a duplicate-CNIC lookup;
 * the schema trims every string field before its `required` validator
 * runs. The listing is newest first.
 */
module CoWorkersRoute {
  import opened Wrappers
  import opened Text
  import opened Lists
  import opened Models
  import opened Api
  import opened Patterns

  datatype CoWorkerInput = CoWorkerInput(
    fullName: Option<string>, cnic: Option<string>, reference: Option<string>, purpose: Option<string>)

  datatype CoWorkerRecord = CoWorkerRecord(
    id: string, fullName: string, cnic: string, reference: Option<string>, purpose: Option<string>,
    createdAt: nat)

  /** What the `trim: true` setters make of an optional field. */
  function TrimmedOpt(o: Option<string>): Option<string> {
    if o.Some? then Some(Trim(o.value)) else None
  }

  /** The stored documents: each passes the schema, and no CNIC occurs twice. */
  predicate CoWorkerCollection(s: seq<CoWorkerRecord>) {
    && (forall i :: 0 <= i < |s| ==> s[i].fullName != "" && IsCnic(s[i].cnic))
    && (forall i, j :: 0 <= i < j < |s| ==> s[i].cnic != s[j].cnic)
  }

  const RequiredMessage := "Full name and CNIC are required"
  const CnicMessage := "Invalid CNIC format. Use: 12345-1234567-1"
  const DuplicateMessage := "A co-worker with this CNIC already exists"

  /** The create handler: required fields, CNIC shape, duplicate CNIC, then the save. */
  function Post(input: CoWorkerInput, store: seq<CoWorkerRecord>, id: string, now: nat)
    : (p: Posted<CoWorkerRecord, CoWorkerRecord>)
    ensures !Truthy(input.fullName) || !Truthy(input.cnic) ==> p == Reject(store, 400, RequiredMessage)
    ensures Truthy(input.fullName) && Truthy(input.cnic) && !IsCnic(input.cnic.value) ==>
              p == Reject(store, 400, CnicMessage)
    ensures Truthy(input.fullName) && Truthy(input.cnic) && IsCnic(input.cnic.value)
            && (exists i :: 0 <= i < |store| && store[i].cnic == input.cnic.value) ==>
              p == Reject(store, 400, DuplicateMessage)
    ensures p.response.Ok? <==>
              && Truthy(input.fullName) && Trim(input.fullName.value) != ""
              && Truthy(input.cnic) && IsCnic(input.cnic.value)
              && (forall i :: 0 <= i < |store| ==> store[i].cnic != input.cnic.value)
    ensures p.response.Ok? ==>
              var r := CoWorkerRecord(id, Trim(input.fullName.value), input.cnic.value,
                                      TrimmedOpt(input.reference), TrimmedOpt(input.purpose), now);
              p.store == store + [r] && p.response == Ok("Co-worker added successfully", r)
    ensures p.response.Err? ==> p.store == store
  {
    if !Truthy(input.fullName) || !Truthy(input.cnic) then Reject(store, 400, RequiredMessage)
    else if !IsCnic(input.cnic.value) then Reject(store, 400, CnicMessage)
    else if FindFirst(store, (r: CoWorkerRecord) => r.cnic == input.cnic.value).Some? then
      Reject(store, 400, DuplicateMessage)
    else
      CnicSurvivesTrim(input.cnic.value);
      var r := CoWorkerRecord(id, Trim(input.fullName.value), Trim(input.cnic.value),
                              TrimmedOpt(input.reference), TrimmedOpt(input.purpose), now);
      // `save()` runs the validators on the trimmed values
      if r.fullName == "" || !IsCnic(r.cnic) then Reject(store, 500, "Failed to add co-worker")
      else Posted(Ok("Co-worker added successfully", r), store + [r])
  }

  /** `find({}).sort({ createdAt: -1 })`. */
  function Get(store: seq<CoWorkerRecord>): (r: seq<CoWorkerRecord>)
    ensures NewestFirst(r, (c: CoWorkerRecord) => c.createdAt)
    ensures multiset(r) == multiset(store)
  {
    SortNewestFirst(store, (c: CoWorkerRecord) => c.createdAt)
  }

  /** A create keeps every stored CNIC well-formed and distinct. */
  lemma PostKeepsCollection(input: CoWorkerInput, store: seq<CoWorkerRecord>, id: string, now: nat)
    requires CoWorkerCollection(store)
    ensures CoWorkerCollection(Post(input, store, id, now).store)
  {
  }

  /**
   * A full name made only of white space passes the handler's own check
   * but is emptied by `trim` and then refused by the schema: a 500 instead
   * of a 400, and nothing stored.
   */
  lemma BlankNameIsServerError(name: string, cnic: string, store: seq<CoWorkerRecord>, id: string, now: nat)
    requires name != "" && forall k :: 0 <= k < |name| ==> IsSpace(name[k])
    requires IsCnic(cnic) && forall i :: 0 <= i < |store| ==> store[i].cnic != cnic
    ensures Post(CoWorkerInput(Some(name), Some(cnic), None, None), store, id, now)
         == Reject(store, 500, "Failed to add co-worker")
  {
    TrimEmptyIff(name);
    CnicSurvivesTrim(cnic);
  }

  /** Registering the same CNIC twice in a row fails the second time. */
  lemma SecondRegistrationRefused(input: CoWorkerInput, again: CoWorkerInput, store: seq<CoWorkerRecord>,
                                  id1: string, id2: string, t1: nat, t2: nat)
    requires Post(input, store, id1, t1).response.Ok?
    requires Truthy(again.fullName) && again.cnic == input.cnic
    ensures var s1 := Post(input, store, id1, t1).store;
            Post(again, s1, id2, t2) == Reject(s1, 400, DuplicateMessage)
  {
    var s1 := Post(input, store, id1, t1).store;
    assert s1[|store|].cnic == input.cnic.value;
  }
}
