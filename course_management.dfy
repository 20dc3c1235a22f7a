/**
 * The admin's course page (app/admin/course-management/page.js): it lists
 * the courses with a label per selected duration, and its form maps a
 * trainer id to the trainer's name and the form's four duration checkboxes
 * to the API's four flags on submit, and back again on edit.
 *
 * The page's form library, its toasts and the `fetch` calls are outside the
 * model: each handler receives what the request produced as a parameter,
 * and `parseFloat` and `Number.prototype.toString` are oracles.
 */
module CourseManagement {
  import opened Wrappers
  import opened Text
  import opened Lists
  import opened Api
  import Models
  import CoursesRoute

  type Duration = CoursesRoute.Duration
  type CourseRecord = CoursesRoute.CourseRecord

  /** The fixed list of trainers the page offers. */
  datatype Trainer = Trainer(id: nat, name: string)

  const Trainers: seq<Trainer> := [
    Trainer(1, "John Smith"), Trainer(2, "Sarah Johnson"), Trainer(3, "Michael Brown"),
    Trainer(4, "Emily Davis"), Trainer(5, "Robert Wilson")]

  /** `trainers.find(trainer => trainer.id === parseInt(trainerId))`. */
  function TrainerById(trainerId: string): (t: Option<Trainer>)
    ensures t.Some? ==> t.value in Trainers && ParseInt(trainerId) == Some(t.value.id as int)
    ensures t.None? <==> forall k :: 0 <= k < |Trainers| ==> ParseInt(trainerId) != Some(Trainers[k].id as int)
  {
    Models.FindFirst(Trainers, (t: Trainer) => ParseInt(trainerId) == Some(t.id as int))
  }

  /** `trainers.find(t => t.name === trainerName)`. */
  function TrainerByName(trainerName: string): (t: Option<Trainer>)
    ensures t.Some? ==> t.value in Trainers && t.value.name == trainerName
    ensures t.None? <==> forall k :: 0 <= k < |Trainers| ==> Trainers[k].name != trainerName
  {
    Models.FindFirst(Trainers, (t: Trainer) => t.name == trainerName)
  }

  /**
   * Ids and names are distinct, so a trainer's name leads back to the
   * trainer, and the id the edit form prints leads back to it too.
   */
  lemma TrainerRoundTrip(k: nat)
    requires k < |Trainers|
    ensures TrainerByName(Trainers[k].name) == Some(Trainers[k])
    ensures TrainerById(NatToString(Trainers[k].id)) == Some(Trainers[k])
  {
    var t := Trainers[k];
    ParsePrinted(t.id);
    forall j | 0 <= j < k ensures Trainers[j].name != t.name && Trainers[j].id != t.id {
      assert Trainers[j].name[0] != t.name[0];
    }
    Models.FindFirstAt(Trainers, (u: Trainer) => u.name == t.name, k);
    Models.FindFirstAt(Trainers, (u: Trainer) => ParseInt(NatToString(t.id)) == Some(u.id as int), k);
  }

  /** The trainers' names carry no surrounding white space, so the route's `trim` keeps them. */
  lemma TrainerNameTrimmed(k: nat)
    requires k < |Trainers|
    ensures Trim(Trainers[k].name) == Trainers[k].name
  {
    var name := Trainers[k].name;
    assert 'A' <= name[0] <= 'Z' && 'a' <= name[|name| - 1] <= 'z' by {
      if k == 0 {} else if k == 1 {} else if k == 2 {} else if k == 3 {} else {}
    }
    TrimClean(name);
  }

  /** The duration labels, in the order the page pushes them. */
  const WeekendLabel := "Weekend/3 Months"
  const WeekdaysLabel := "Weekdays/2 Months"
  const OneMonthLabel := "1 Month"
  const LevelwiseLabel := "Levelwise"
  const AllLabels := [WeekendLabel, WeekdaysLabel, OneMonthLabel, LevelwiseLabel]

  /** Whether `name` is the label of a flag that is set. */
  predicate Selected(d: Duration, name: string) {
    || (name == WeekendLabel && d.weekend3Months)
    || (name == WeekdaysLabel && d.weekdays2Months)
    || (name == OneMonthLabel && d.oneMonth)
    || (name == LevelwiseLabel && d.levelwise)
  }

  /** The labels of the set flags, in the fixed order. */
  function LabelsOf(d: Duration): seq<string> {
    Filter(AllLabels, Keep(d))
  }

  function Keep(d: Duration): string -> bool {
    (l: string) => Selected(d, l)
  }

  /** The flags a list of labels names. */
  function FlagsOf(labels: seq<string>): Duration {
    CoursesRoute.Duration(WeekendLabel in labels, WeekdaysLabel in labels, OneMonthLabel in labels,
                          LevelwiseLabel in labels)
  }

  /** The four labels are distinct, so each names exactly its own flag. */
  lemma SelectedFlags(d: Duration)
    ensures Selected(d, WeekendLabel) == d.weekend3Months
    ensures Selected(d, WeekdaysLabel) == d.weekdays2Months
    ensures Selected(d, OneMonthLabel) == d.oneMonth
    ensures Selected(d, LevelwiseLabel) == d.levelwise
  {
    assert WeekendLabel[4] != WeekdaysLabel[4];
    assert WeekendLabel[0] != OneMonthLabel[0] && WeekendLabel[0] != LevelwiseLabel[0];
    assert WeekdaysLabel[0] != OneMonthLabel[0] && WeekdaysLabel[0] != LevelwiseLabel[0];
    assert OneMonthLabel[0] != LevelwiseLabel[0];
  }

  /** The filter over the four labels, one label at a time. */
  lemma {:induction false} LabelsUnfolded(d: Duration)
    ensures LabelsOf(d) == (if d.weekend3Months then [WeekendLabel] else [])
                         + ((if d.weekdays2Months then [WeekdaysLabel] else [])
                         + ((if d.oneMonth then [OneMonthLabel] else [])
                         + (if d.levelwise then [LevelwiseLabel] else [])))
  {
    SelectedFlags(d);
    var keep := Keep(d);
    var s3 := [LevelwiseLabel];
    var s2 := [OneMonthLabel] + s3;
    var s1 := [WeekdaysLabel] + s2;
    var s0 := [WeekendLabel] + s1;
    assert s0 == AllLabels;
    FilterStep(d, LevelwiseLabel, []);
    assert s3 == [LevelwiseLabel] + [];
    assert Filter(s3, keep) == (if d.levelwise then [LevelwiseLabel] else []);
    FilterStep(d, OneMonthLabel, s3);
    assert Filter(s2, keep) == (if d.oneMonth then [OneMonthLabel] else []) + Filter(s3, keep);
    FilterStep(d, WeekdaysLabel, s2);
    assert Filter(s1, keep) == (if d.weekdays2Months then [WeekdaysLabel] else []) + Filter(s2, keep);
    FilterStep(d, WeekendLabel, s1);
    assert Filter(s0, keep) == (if d.weekend3Months then [WeekendLabel] else []) + Filter(s1, keep);
  }

  lemma FilterStep(d: Duration, x: string, rest: seq<string>)
    ensures Filter([x] + rest, Keep(d)) == (if Selected(d, x) then [x] else []) + Filter(rest, Keep(d))
  {
    FilterCons(x, rest, Keep(d));
  }

  /**
   * A label is shown exactly when its flag is set, the labels keep the
   * fixed order, and the flags can be read back from them.
   */
  lemma LabelsExact(d: Duration)
    ensures WeekendLabel in LabelsOf(d) <==> d.weekend3Months
    ensures WeekdaysLabel in LabelsOf(d) <==> d.weekdays2Months
    ensures OneMonthLabel in LabelsOf(d) <==> d.oneMonth
    ensures LevelwiseLabel in LabelsOf(d) <==> d.levelwise
    ensures IsSublist(LabelsOf(d), AllLabels)
    ensures FlagsOf(LabelsOf(d)) == d
  {
    SelectedFlags(d);
  }

  /** The page's builder: four conditional pushes onto an empty array. */
  method BuildDurationLabels(d: Duration) returns (labels: seq<string>)
    ensures labels == LabelsOf(d)
  {
    var w := if d.weekend3Months then [WeekendLabel] else [];
    var wd := if d.weekdays2Months then [WeekdaysLabel] else [];
    var o := if d.oneMonth then [OneMonthLabel] else [];
    var l := if d.levelwise then [LevelwiseLabel] else [];
    labels := [];
    if d.weekend3Months { labels := labels + [WeekendLabel]; }
    assert labels == w;
    if d.weekdays2Months { labels := labels + [WeekdaysLabel]; }
    assert labels == w + wd;
    if d.oneMonth { labels := labels + [OneMonthLabel]; }
    assert labels == (w + wd) + o;
    if d.levelwise { labels := labels + [LevelwiseLabel]; }
    assert labels == ((w + wd) + o) + l;
    LabelsUnfolded(d);
    assert ((w + wd) + o) + l == w + (wd + (o + l));
  }

  /** A listed course: the document with its fields, `id` copied from `_id`, and its labels. */
  datatype ListedCourse = ListedCourse(course: CourseRecord, id: string, durationLabels: seq<string>)

  function Listed(c: CourseRecord): (l: ListedCourse)
    ensures l.course == c && l.id == c.id
    ensures FlagsOf(l.durationLabels) == c.duration
  {
    LabelsExact(c.duration);
    ListedCourse(c, c.id, LabelsOf(c.duration))
  }

  /** The four checkboxes of the form. */
  datatype FormDuration = FormDuration(weekend: bool, weekdays: bool, oneMonth: bool, levelwise: bool)

  /** The form's values; the text inputs hold strings. */
  datatype CourseForm = CourseForm(courseName: string, trainerId: string, price: string, duration: FormDuration)

  const DefaultForm := CourseForm("", "", "", FormDuration(false, false, false, false))

  /** The form's checkboxes under the API's names. */
  function ToApiDuration(f: FormDuration): CoursesRoute.DurationInput {
    CoursesRoute.DurationInput(Some(f.weekend), Some(f.weekdays), Some(f.oneMonth), Some(f.levelwise))
  }

  /** `course.duration?.weekend3Months || false` and the other three, as `handleEdit` reads them. */
  function FromApiDuration(d: Duration): FormDuration {
    FormDuration(d.weekend3Months, d.weekdays2Months, d.oneMonth, d.levelwise)
  }

  /** A submitted duration, once stored with the schema's defaults, reads back as the same checkboxes. */
  lemma DurationRoundTrip(f: FormDuration)
    ensures FromApiDuration(CoursesRoute.DurationOf(Some(ToApiDuration(f)))) == f
  {
  }

  /** `parseFloat(price)` serialised by `JSON.stringify`: NaN becomes `null`. */
  function PriceSent(parsed: Option<real>): CoursesRoute.PriceInput {
    if parsed.None? then CoursesRoute.Null else CoursesRoute.Numeric(parsed.value)
  }

  /** What `onSubmit` decides before any request: two refusals, or the request to send. */
  datatype Submission =
    | NoDuration
    | InvalidTrainer
    | Send(request: Request<CoursesRoute.CourseInput>)

  function Prepare(editingId: Option<string>, data: CourseForm, parseFloat: string -> Option<real>)
    : (s: Submission)
    ensures s == NoDuration <==> data.duration == FormDuration(false, false, false, false)
    ensures s == InvalidTrainer <==>
              data.duration != FormDuration(false, false, false, false) && TrainerById(data.trainerId).None?
    ensures s.Send? ==>
      && s.request.body.trainerName == Some(TrainerById(data.trainerId).value.name)
      && s.request.body.courseName == Some(data.courseName)
      && s.request.body.price == PriceSent(parseFloat(data.price))
      && s.request.body.duration == Some(ToApiDuration(data.duration))
    ensures s.Send? && editingId.None? ==> s.request.verb == POST && s.request.url == "/api/courses"
    ensures s.Send? && editingId.Some? ==>
              s.request.verb == PUT && s.request.url == "/api/courses/" + editingId.value
  {
    var d := data.duration;
    if !d.weekend && !d.weekdays && !d.oneMonth && !d.levelwise then NoDuration
    else match TrainerById(data.trainerId)
      case None => InvalidTrainer
      case Some(trainer) =>
        var body := CoursesRoute.CourseInput(Some(data.courseName), Some(trainer.name),
                                             PriceSent(parseFloat(data.price)), Some(ToApiDuration(d)));
        if editingId.Some? then Send(Request(PUT, "/api/courses/" + editingId.value, body))
        else Send(Request(POST, "/api/courses", body))
  }

  /** The form as `handleEdit` leaves it; the trainer id is kept when the name is unknown. */
  function EditedForm(form: CourseForm, c: CourseRecord, toString: real -> string): (f: CourseForm)
    ensures f.courseName == c.courseName && f.price == toString(c.price)
    ensures f.duration == FromApiDuration(c.duration)
    ensures TrainerByName(c.trainerName).None? ==> f.trainerId == form.trainerId
  {
    var trainerId := match TrainerByName(c.trainerName)
                     case Some(t) => NatToString(t.id)
                     case None => form.trainerId;
    CourseForm(c.courseName, trainerId, toString(c.price), FromApiDuration(c.duration))
  }

  class Page {
    var courses: seq<ListedCourse>
    var editingId: Option<string>
    var loading: bool
    var form: CourseForm

    constructor ()
      ensures courses == [] && editingId.None? && loading && form == DefaultForm
    {
      courses := [];
      editingId := None;
      loading := true;
      form := DefaultForm;
    }

    /** `fetchCourses`: on success the list becomes the fetched courses with ids and labels. */
    method FetchCourses(reply: Fetched<CourseRecord>)
      modifies this
      ensures !loading && editingId == old(editingId) && form == old(form)
      ensures reply.FetchAnswered? && reply.success ==>
        var fetched := reply.items.GetOr([]);
        |courses| == |fetched| && forall i :: 0 <= i < |fetched| ==> courses[i] == Listed(fetched[i])
      ensures !(reply.FetchAnswered? && reply.success) ==> courses == old(courses)
    {
      loading := true;
      if reply.FetchAnswered? && reply.success {
        var fetched := reply.items.GetOr([]);
        var processed: seq<ListedCourse> := [];
        var i := 0;
        while i < |fetched|
          invariant 0 <= i <= |fetched|
          invariant |processed| == i
          invariant forall k :: 0 <= k < i ==> processed[k] == Listed(fetched[k])
          invariant editingId == old(editingId) && form == old(form)
        {
          var c := fetched[i];
          var labels := BuildDurationLabels(c.duration);
          processed := processed + [ListedCourse(c, c.id, labels)];
          i := i + 1;
        }
        courses := processed;
      }
      loading := false;
    }

    /**
     * `onSubmit`. A refusal sends nothing and changes nothing. Otherwise
     * the request goes out; an update that succeeds ends editing; any
     * answer, success or failure, resets the form; an exception leaves
     * both as they were. `refetch` is the list reload after a success.
     */
    method OnSubmit(data: CourseForm, parseFloat: string -> Option<real>, reply: Outcome)
      returns (sent: Option<Request<CoursesRoute.CourseInput>>, refetch: bool)
      modifies this
      ensures var s := Prepare(old(editingId), data, parseFloat);
              sent == (if s.Send? then Some(s.request) else None)
      ensures courses == old(courses) && loading == old(loading)
      ensures sent.None? || reply.Threw? ==> editingId == old(editingId) && form == old(form)
      ensures sent.Some? && reply.Answered? ==>
                && form == DefaultForm
                && editingId == (if reply.success then None else old(editingId))
      ensures refetch <==> sent.Some? && reply == Answered(true)
    {
      sent := None;
      refetch := false;
      var s := Prepare(editingId, data, parseFloat);
      if s.Send? {
        sent := Some(s.request);
        if reply.Answered? {
          if reply.success {
            if editingId.Some? {
              editingId := None;
            }
            refetch := true;
          }
          form := DefaultForm;
        }
      }
    }

    /** `handleEdit(course)`. */
    method HandleEdit(c: ListedCourse, toString: real -> string)
      modifies this
      ensures editingId == Some(c.course.id)
      ensures form == EditedForm(old(form), c.course, toString)
      ensures courses == old(courses) && loading == old(loading)
    {
      editingId := Some(c.course.id);
      form := form.(courseName := c.course.courseName);
      var trainer := TrainerByName(c.course.trainerName);
      if trainer.Some? {
        form := form.(trainerId := NatToString(trainer.value.id));
      }
      form := form.(price := toString(c.course.price));
      form := form.(duration := FromApiDuration(c.course.duration));
    }

    /** `handleCancel`. */
    method HandleCancel()
      modifies this
      ensures editingId.None? && form == DefaultForm
      ensures courses == old(courses) && loading == old(loading)
    {
      editingId := None;
      form := DefaultForm;
    }
  }

  /**
   * Editing a stored course and submitting the form unchanged sends an
   * update for that course with the same trainer and the same duration
   * flags, provided its trainer is one of the five and one flag is set.
   */
  lemma EditThenSubmitPreserves(form: CourseForm, c: CourseRecord, toString: real -> string,
                                parseFloat: string -> Option<real>)
    requires TrainerByName(c.trainerName).Some?
    requires c.duration != CoursesRoute.Duration(false, false, false, false)
    ensures var s := Prepare(Some(c.id), EditedForm(form, c, toString), parseFloat);
            && s.Send?
            && s.request == Request(PUT, "/api/courses/" + c.id, s.request.body)
            && s.request.body.trainerName == Some(c.trainerName)
            && CoursesRoute.DurationOf(s.request.body.duration) == c.duration
  {
    var t := TrainerByName(c.trainerName).value;
    var k :| 0 <= k < |Trainers| && Trainers[k] == t;
    TrainerRoundTrip(k);
  }

  /**
   * A new course with a non-blank name, a listed trainer, a set flag and a
   * price that parses to a non-negative number is stored by the route, with
   * the trainer's name and the chosen flags.
   */
  lemma CreateIsStored(data: CourseForm, parseFloat: string -> Option<real>, store: seq<CourseRecord>,
                       id: string, now: nat)
    requires Trim(data.courseName) != ""
    requires TrainerById(data.trainerId).Some?
    requires data.duration != FormDuration(false, false, false, false)
    requires parseFloat(data.price).Some? && parseFloat(data.price).value >= 0.0
    ensures var s := Prepare(None, data, parseFloat);
            s.Send? &&
            var p := CoursesRoute.Post(s.request.body, store, id, now);
            && p.response.Ok?
            && FromApiDuration(p.response.value.duration) == data.duration
            && p.response.value.price == parseFloat(data.price).value
  {
    var t := TrainerById(data.trainerId).value;
    var k :| 0 <= k < |Trainers| && Trainers[k] == t;
    TrainerNameTrimmed(k);
    assert data.courseName != "" by { assert Trim("") == ""; }
    var s := Prepare(None, data, parseFloat);
    var body := s.request.body;
    assert body == CoursesRoute.CourseInput(Some(data.courseName), Some(t.name),
                                            CoursesRoute.Numeric(parseFloat(data.price).value),
                                            Some(ToApiDuration(data.duration)));
    assert Trim(body.trainerName.value) == t.name && t.name != "";
    var p := CoursesRoute.Post(body, store, id, now);
    assert p.response.Ok?;
    assert p.response.value.duration == CoursesRoute.DurationOf(Some(ToApiDuration(data.duration)));
    DurationRoundTrip(data.duration);
  }

  /**
   * A price the browser cannot parse is sent as `null`, which passes the
   * route's checks and fails the schema: the admin sees a server error.
   */
  lemma UnparseablePriceIsServerError(data: CourseForm, parseFloat: string -> Option<real>,
                                      store: seq<CourseRecord>, id: string, now: nat)
    requires data.courseName != ""
    requires TrainerById(data.trainerId).Some?
    requires data.duration != FormDuration(false, false, false, false)
    requires parseFloat(data.price).None?
    ensures var s := Prepare(None, data, parseFloat);
            s.Send? && CoursesRoute.Post(s.request.body, store, id, now).response == Err(500, None, "Failed to add course")
  {
  }
}
