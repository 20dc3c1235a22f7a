/**
 * `POST /api/courses` and `GET /api/courses` (app/api/courses/route.js):
 * a course is stored after a required-field check and a price check; the
 * schema trims the two names, requires a price, and gives each of the four
 * duration flags the default false. The listing is newest first.
 *
 * Prices are JSON numbers; they are modelled as reals (JSON has no NaN or
 * infinity), and what reaches `isNaN` as something else is classified by
 * `PriceInput`.
 */
module CoursesRoute {
  import opened Wrappers
  import opened Text
  import opened Lists
  import opened Api

  /**
   * The `price` member of the request body: absent, `null`, a value that
   * `isNaN` rejects, or a number (a numeric string counts as its number,
   * which is how both `isNaN` and Mongoose's cast read it).
   */
  datatype PriceInput = Undefined | Null | NonNumeric | Numeric(value: real)

  datatype DurationInput = DurationInput(
    weekend3Months: Option<bool>, weekdays2Months: Option<bool>, oneMonth: Option<bool>, levelwise: Option<bool>)

  datatype CourseInput = CourseInput(
    courseName: Option<string>, trainerName: Option<string>, price: PriceInput, duration: Option<DurationInput>)

  /** The four duration flags as stored. */
  datatype Duration = Duration(weekend3Months: bool, weekdays2Months: bool, oneMonth: bool, levelwise: bool)

  datatype CourseRecord = CourseRecord(
    id: string, courseName: string, trainerName: string, price: real, duration: Duration, createdAt: nat)

  /** The schema defaults: an omitted flag, or an omitted `duration`, is false. */
  function DurationOf(d: Option<DurationInput>): (r: Duration)
    ensures d.None? ==> r == Duration(false, false, false, false)
    ensures d.Some? ==>
      && (r.weekend3Months <==> d.value.weekend3Months == Some(true))
      && (r.weekdays2Months <==> d.value.weekdays2Months == Some(true))
      && (r.oneMonth <==> d.value.oneMonth == Some(true))
      && (r.levelwise <==> d.value.levelwise == Some(true))
  {
    if d.None? then Duration(false, false, false, false)
    else Duration(d.value.weekend3Months.GetOr(false), d.value.weekdays2Months.GetOr(false),
                  d.value.oneMonth.GetOr(false), d.value.levelwise.GetOr(false))
  }

  /** The stored documents: names present and prices not negative. */
  predicate CourseCollection(s: seq<CourseRecord>) {
    forall i :: 0 <= i < |s| ==> s[i].courseName != "" && s[i].trainerName != "" && s[i].price >= 0.0
  }

  const RequiredMessage := "Course name, trainer name, and price are required"
  const PriceMessage := "Price must be a positive number"
  const SaveFailedMessage := "Failed to add course"

  /** `isNaN(data.price) || data.price < 0`; `null` passes, as `isNaN(null)` is false. */
  predicate PriceRejected(p: PriceInput) {
    p.NonNumeric? || (p.Numeric? && p.value < 0.0)
  }

  /** The create handler. */
  function Post(input: CourseInput, store: seq<CourseRecord>, id: string, now: nat)
    : (p: Posted<CourseRecord, CourseRecord>)
    ensures !Truthy(input.courseName) || !Truthy(input.trainerName) || input.price.Undefined? ==>
              p == Reject(store, 400, RequiredMessage)
    ensures Truthy(input.courseName) && Truthy(input.trainerName) && !input.price.Undefined?
            && PriceRejected(input.price) ==>
              p == Reject(store, 400, PriceMessage)
    // a null price gets past both checks and is refused by the `required` validator
    ensures Truthy(input.courseName) && Truthy(input.trainerName) && input.price.Null? ==>
              p == Reject(store, 500, SaveFailedMessage)
    ensures p.response.Ok? <==>
              && Truthy(input.courseName) && Trim(input.courseName.value) != ""
              && Truthy(input.trainerName) && Trim(input.trainerName.value) != ""
              && input.price.Numeric? && input.price.value >= 0.0
    ensures p.response.Ok? ==>
              var r := CourseRecord(id, Trim(input.courseName.value), Trim(input.trainerName.value),
                                    input.price.value, DurationOf(input.duration), now);
              p.store == store + [r] && p.response == Ok("Course added successfully", r)
    ensures p.response.Err? ==> p.store == store
  {
    if !Truthy(input.courseName) || !Truthy(input.trainerName) || input.price.Undefined? then
      Reject(store, 400, RequiredMessage)
    else if PriceRejected(input.price) then Reject(store, 400, PriceMessage)
    else
      var courseName := Trim(input.courseName.value);
      var trainerName := Trim(input.trainerName.value);
      // `save()`: the `required` validators on the trimmed names and the price, then `min: 0`
      if courseName == "" || trainerName == "" || !input.price.Numeric? || input.price.value < 0.0 then
        Reject(store, 500, SaveFailedMessage)
      else
        var r := CourseRecord(id, courseName, trainerName, input.price.value, DurationOf(input.duration), now);
        Posted(Ok("Course added successfully", r), store + [r])
  }

  /** `find({}).sort({ createdAt: -1 })`. */
  function Get(store: seq<CourseRecord>): (r: seq<CourseRecord>)
    ensures NewestFirst(r, (c: CourseRecord) => c.createdAt)
    ensures multiset(r) == multiset(store)
  {
    SortNewestFirst(store, (c: CourseRecord) => c.createdAt)
  }

  /** A create keeps every stored course named and non-negatively priced. */
  lemma PostKeepsCollection(input: CourseInput, store: seq<CourseRecord>, id: string, now: nat)
    requires CourseCollection(store)
    ensures CourseCollection(Post(input, store, id, now).store)
  {
  }
}
