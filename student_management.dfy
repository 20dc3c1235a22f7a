/**
 * The CSR's student page (app/csr/student-management/page.js): a search
 * over the listed students, a form that creates or updates a student, and a
 * delete dialog.
 *
 * The requests' outcomes are parameters; toasts are left out.
 */
module StudentManagement {
  import opened Wrappers
  import opened Text
  import opened Lists
  import opened Api
  import StudentsRoute

  /** A student as the page holds it: any field of the JSON may be missing. */
  datatype Student = Student(
    id: string, name: Option<string>, guardianName: Option<string>, email: Option<string>, phone: Option<string>)

  /** A stored student, as the listing sends it. */
  function Listed(r: StudentsRoute.StudentRecord): (s: Student)
    ensures s.id == r.id && s.name == Some(r.name) && s.guardianName == Some(r.guardianName)
    ensures s.email == Some(r.email) && s.phone == Some(r.phone)
  {
    Student(r.id, Some(r.name), Some(r.guardianName), Some(r.email), Some(r.phone))
  }

  /** The form's four fields, sent as they are. */
  datatype StudentForm = StudentForm(name: string, guardianName: string, email: string, phone: string)

  /** `field?.toLowerCase().includes(term.toLowerCase())`: a missing field gives undefined, which is falsy. */
  predicate FoldedHit(field: Option<string>, term: string) {
    field.Some? && Contains(Lower(field.value), Lower(term))
  }

  /** The search: three fields compared without case, the phone compared exactly. */
  predicate Matches(s: Student, term: string) {
    FoldedHit(s.name, term) || FoldedHit(s.guardianName, term) || FoldedHit(s.email, term)
    || (s.phone.Some? && Contains(s.phone.value, term))
  }

  function FilterStudents(students: seq<Student>, term: string): (r: seq<Student>)
    ensures forall s :: s in r <==> s in students && Matches(s, term)
    ensures IsSublist(r, students)
  {
    Filter(students, (s: Student) => Matches(s, term))
  }

  /** A student whose four fields are all missing matches no term, not even the empty one. */
  lemma BlankStudentNeverShown(students: seq<Student>, id: string, term: string)
    ensures Student(id, None, None, None, None) !in FilterStudents(students, term)
  {
  }

  /** At least one of the four searched fields is present. */
  predicate HasField(s: Student) {
    s.name.Some? || s.guardianName.Some? || s.email.Some? || s.phone.Some?
  }

  /** The empty term keeps every student that has at least one field. */
  lemma EmptyTermKeepsListed(students: seq<Student>)
    requires forall i :: 0 <= i < |students| ==> HasField(students[i])
    ensures FilterStudents(students, "") == students
  {
    forall i | 0 <= i < |students|
      ensures Matches(students[i], "")
    {
      var s := students[i];
      if s.name.Some? {
        ContainsEmpty(Lower(s.name.value));
      } else if s.guardianName.Some? {
        ContainsEmpty(Lower(s.guardianName.value));
      } else if s.email.Some? {
        ContainsEmpty(Lower(s.email.value));
      } else {
        ContainsEmpty(s.phone.value);
      }
    }
  }

  /** The phone is compared with the term as typed: an upper-case letter in the term is not folded. */
  lemma PhoneMatchIsExact()
    ensures Matches(Student("s1", None, None, None, Some("0300ab")), "ab")
    ensures !Matches(Student("s1", None, None, None, Some("0300ab")), "AB")
  {
    assert OccursAt("0300ab", "ab", 4);
    assert !Contains("0300ab", "AB") by {
      forall k | 0 <= k <= |"0300ab"| - |"AB"|
        ensures !OccursAt("0300ab", "AB", k)
      {
        assert "0300ab"[k] != 'A';
      }
    }
  }

  /** The request `onSubmit` sends for the student being edited, if any. */
  function SubmitRequest(editing: Option<Student>, data: StudentForm): (r: Request<StudentForm>)
    ensures r.body == data
    ensures editing.Some? <==> r.verb == PUT
    ensures editing.None? <==> r.verb == POST
    ensures editing.Some? ==> r.url == "/api/students/" + editing.value.id
    ensures editing.None? ==> r.url == "/api/students"
  {
    if editing.Some? then Request(PUT, "/api/students/" + editing.value.id, data)
    else Request(POST, "/api/students", data)
  }

  class Page {
    var students: seq<Student>
    var loading: bool
    var editingStudent: Option<Student>
    var showDeleteModal: bool
    var deleteId: Option<string>
    var searchTerm: string
    var showForm: bool
    var submitting: bool
    var form: Option<StudentForm>

    constructor ()
      ensures students == [] && loading && editingStudent.None? && !showDeleteModal && deleteId.None?
      ensures searchTerm == "" && !showForm && !submitting && form.None?
    {
      students := [];
      loading := true;
      editingStudent := None;
      showDeleteModal := false;
      deleteId := None;
      searchTerm := "";
      showForm := false;
      submitting := false;
      form := None;
    }

    /** The list the page renders. */
    function Shown(): (r: seq<Student>)
      reads this
      ensures IsSublist(r, students)
      ensures forall s :: s in r <==> s in students && Matches(s, searchTerm)
    {
      FilterStudents(students, searchTerm)
    }

    /** `fetchStudents`: a successful reply replaces the list (`students || []`). */
    method FetchStudents(reply: Fetched<Student>)
      modifies this
      ensures !loading
      ensures reply.FetchAnswered? && reply.success ==> students == reply.items.GetOr([])
      ensures !(reply.FetchAnswered? && reply.success) ==> students == old(students)
      ensures editingStudent == old(editingStudent) && showForm == old(showForm) && form == old(form)
      ensures searchTerm == old(searchTerm) && showDeleteModal == old(showDeleteModal) && deleteId == old(deleteId)
    {
      loading := true;
      if reply.FetchAnswered? && reply.success {
        students := reply.items.GetOr([]);
      }
      loading := false;
    }

    /**
     * `onSubmit`: an update of the student being edited or a create; on
     * success the form is cleared, the edit ends and the form hides, on
     * failure all three stay as they were.
     */
    method OnSubmit(data: StudentForm, reply: Outcome) returns (sent: Request<StudentForm>, refetch: bool)
      modifies this
      ensures sent == SubmitRequest(old(editingStudent), data)
      ensures !submitting
      ensures refetch <==> reply == Answered(true)
      ensures refetch ==> editingStudent.None? && !showForm && form.None?
      ensures !refetch ==> editingStudent == old(editingStudent) && showForm == old(showForm) && form == old(form)
      ensures students == old(students) && searchTerm == old(searchTerm)
      ensures showDeleteModal == old(showDeleteModal) && deleteId == old(deleteId)
    {
      submitting := true;
      sent := SubmitRequest(editingStudent, data);
      refetch := false;
      if reply == Answered(true) {
        refetch := true;
        form := None;
        editingStudent := None;
        showForm := false;
      }
      submitting := false;
    }

    /** `handleEdit(student)`: the form takes the student's fields (a missing one leaves the field empty). */
    method HandleEdit(s: Student)
      modifies this
      ensures editingStudent == Some(s) && showForm
      ensures form == Some(StudentForm(s.name.GetOr(""), s.guardianName.GetOr(""), s.email.GetOr(""), s.phone.GetOr("")))
      ensures students == old(students) && searchTerm == old(searchTerm)
      ensures showDeleteModal == old(showDeleteModal) && deleteId == old(deleteId)
    {
      editingStudent := Some(s);
      showForm := true;
      form := Some(StudentForm(s.name.GetOr(""), s.guardianName.GetOr(""), s.email.GetOr(""), s.phone.GetOr("")));
    }

    /** `handleDeleteClick(id)`. */
    method HandleDeleteClick(id: string)
      modifies this
      ensures deleteId == Some(id) && showDeleteModal
      ensures students == old(students) && searchTerm == old(searchTerm)
      ensures editingStudent == old(editingStudent) && showForm == old(showForm) && form == old(form)
    {
      deleteId := Some(id);
      showDeleteModal := true;
    }

    /** `confirmDelete`: the dialog closes whatever the outcome; with no id chosen the url ends in "null". */
    method ConfirmDelete(reply: Outcome) returns (sent: Request<()>, refetch: bool)
      modifies this
      ensures sent == Request(DELETE, "/api/students/" + IdSegment(deleteId), ())
      ensures refetch <==> reply == Answered(true)
      ensures !showDeleteModal && deleteId == old(deleteId)
      ensures students == old(students) && searchTerm == old(searchTerm)
      ensures editingStudent == old(editingStudent) && showForm == old(showForm) && form == old(form)
    {
      sent := Request(DELETE, "/api/students/" + IdSegment(deleteId), ());
      refetch := reply == Answered(true);
      showDeleteModal := false;
    }

    /** `handleCancel`. */
    method HandleCancel()
      modifies this
      ensures editingStudent.None? && !showForm && form.None?
      ensures students == old(students) && searchTerm == old(searchTerm)
      ensures showDeleteModal == old(showDeleteModal) && deleteId == old(deleteId)
    {
      editingStudent := None;
      showForm := false;
      form := None;
    }
  }
}
