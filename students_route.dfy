/**
 * `POST /api/students` and `GET /api/students`
 * (app/api/students/route.js): a student is stored after a required-field
 * check, an email shape check and an 11-digit phone check, in that order;
 * there is no duplicate check. The schema trims the strings before its
 * validators run. The listing is newest first.
 */
module StudentsRoute {
  import opened Wrappers
  import opened Text
  import opened Lists
  import opened Api
  import opened Patterns

  datatype StudentInput = StudentInput(
    name: Option<string>, guardianName: Option<string>, email: Option<string>, phone: Option<string>)

  datatype StudentRecord = StudentRecord(
    id: string, name: string, guardianName: string, email: string, phone: string, createdAt: nat)

  /** The stored documents: each passes the schema's validators. */
  predicate StudentCollection(s: seq<StudentRecord>) {
    forall i :: 0 <= i < |s| ==>
      s[i].name != "" && s[i].guardianName != "" && EmailShape(s[i].email) && IsPhone(s[i].phone)
  }

  predicate Complete(input: StudentInput) {
    Truthy(input.name) && Truthy(input.guardianName) && Truthy(input.email) && Truthy(input.phone)
  }

  const RequiredMessage := "All fields are required"
  const EmailMessage := "Invalid email format"
  const PhoneMessage := "Phone number must be 11 digits"

  /** The create handler. The first failing check decides the answer. */
  function Post(input: StudentInput, store: seq<StudentRecord>, id: string, now: nat)
    : (p: Posted<StudentRecord, StudentRecord>)
    ensures !Complete(input) ==> p == Reject(store, 400, RequiredMessage)
    ensures Complete(input) && !EmailShape(input.email.value) ==> p == Reject(store, 400, EmailMessage)
    ensures Complete(input) && EmailShape(input.email.value) && !IsPhone(input.phone.value) ==>
              p == Reject(store, 400, PhoneMessage)
    ensures p.response.Ok? <==>
              && Complete(input) && EmailShape(input.email.value) && IsPhone(input.phone.value)
              && Trim(input.name.value) != "" && Trim(input.guardianName.value) != ""
    ensures p.response.Ok? ==>
              var r := StudentRecord(id, Trim(input.name.value), Trim(input.guardianName.value),
                                     input.email.value, input.phone.value, now);
              p.store == store + [r] && p.response == Ok("Student added successfully", r)
    ensures p.response.Err? ==> p.store == store
  {
    if !Complete(input) then Reject(store, 400, RequiredMessage)
    else if !MatchEmail(input.email.value) then
      MatchEmailIsShape(input.email.value);
      Reject(store, 400, EmailMessage)
    else if !IsPhone(input.phone.value) then
      MatchEmailIsShape(input.email.value);
      Reject(store, 400, PhoneMessage)
    else
      MatchEmailIsShape(input.email.value);
      EmailSurvivesTrim(input.email.value);
      PhoneSurvivesTrim(input.phone.value);
      var r := StudentRecord(id, Trim(input.name.value), Trim(input.guardianName.value),
                             Trim(input.email.value), Trim(input.phone.value), now);
      // `save()` runs the `required` and `match` validators on the trimmed values
      if r.name == "" || r.guardianName == "" || !MatchEmail(r.email) || !IsPhone(r.phone) then
        Reject(store, 500, "Failed to add student")
      else Posted(Ok("Student added successfully", r), store + [r])
  }

  /** `find({}).sort({ createdAt: -1 })`. */
  function Get(store: seq<StudentRecord>): (r: seq<StudentRecord>)
    ensures NewestFirst(r, (s: StudentRecord) => s.createdAt)
    ensures multiset(r) == multiset(store)
  {
    SortNewestFirst(store, (s: StudentRecord) => s.createdAt)
  }

  /** A create keeps every stored student valid. */
  lemma PostKeepsCollection(input: StudentInput, store: seq<StudentRecord>, id: string, now: nat)
    requires StudentCollection(store)
    ensures StudentCollection(Post(input, store, id, now).store)
  {
  }

  /** With no duplicate check, the same valid submission is stored twice. */
  lemma DuplicatesAccepted(input: StudentInput, store: seq<StudentRecord>, id1: string, id2: string, t1: nat, t2: nat)
    requires Post(input, store, id1, t1).response.Ok?
    ensures var s1 := Post(input, store, id1, t1).store;
            var s2 := Post(input, s1, id2, t2).store;
            |s2| == |store| + 2 && s2[|store|].email == s2[|store| + 1].email
  {
  }
}
