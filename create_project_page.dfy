/**
 * The Admin's project form, for creating and for editing:
 * frontend/src/pages/CreateProjectPage.jsx. Each field is checked for
 * presence and then against its pattern, the first failure reported.
 */
module CreateProjectPage {
  import opened Wrappers
  import opened Text
  import opened Mongo
  import opened Http
  import opened ProjectModel
  import opened Database
  import opened Session
  import opened ProjectController
  import opened ApiResponse

  /** `/^\d{10}$/`: exactly ten ASCII digits. */
  predicate PhonePattern(s: string) {
    |s| == 10 && forall i :: 0 <= i < |s| ==> IsAsciiDigit(s[i])
  }

  /** A phone the form accepts always passes the server's length check. */
  lemma FormPhonePassesServer(s: string)
    requires PhonePattern(s)
    ensures !PhoneTooLongFor(s)
  {
    JsLengthOfBmp(s);
  }

  /** The server accepts phones the form refuses: shorter ones, and ones that are not digits. */
  lemma ServerPhoneIsLooser()
    ensures !PhoneTooLongFor("12345") && !PhonePattern("12345")
    ensures !PhoneTooLongFor("phone") && !PhonePattern("phone")
  {
    JsLengthOfBmp("12345");
    JsLengthOfBmp("phone");
  }

  /** `[^\s@]`. */
  predicate Plain(c: char) {
    !IsJsWhitespace(c) && c != '@'
  }

  predicate AllPlain(t: string) {
    forall k :: 0 <= k < |t| ==> Plain(t[k])
  }

  /**
   * `/^[^\s@]+@[^\s@]+\.[^\s@]+$/`: the string splits at an '@' and a later
   * '.' into three non-empty runs of characters that are neither white
   * space nor '@'.
   */
  predicate EmailPattern(s: string) {
    exists i, j :: 0 < i && i + 1 < j && j + 1 < |s| && s[i] == '@' && s[j] == '.' &&
                   AllPlain(s[..i]) && AllPlain(s[i + 1..j]) && AllPlain(s[j + 1..])
  }

  /** No character of the string is white space. */
  predicate NoSpace(s: string) {
    forall k :: 0 <= k < |s| ==> !IsJsWhitespace(s[k])
  }

  /** Position i holds the string's only '@'. */
  predicate OnlyAt(s: string, i: nat) {
    i < |s| && s[i] == '@' && forall k :: 0 <= k < |s| && k != i ==> s[k] != '@'
  }

  /** Some '.' after position i has a character on either side. */
  predicate DotAfter(s: string, i: nat) {
    exists j :: i + 1 < j < |s| - 1 && s[j] == '.'
  }

  /**
   * The same set of addresses described by its shape: no white space, exactly
   * one '@', not at the start, and a '.' after it with a character on
   * either side.
   */
  predicate EmailShape(s: string) {
    NoSpace(s) && exists i: nat :: 0 < i < |s| && OnlyAt(s, i) && DotAfter(s, i)
  }

  lemma PatternHasShape(s: string)
    requires EmailPattern(s)
    ensures EmailShape(s)
  {
    var i, j :| 0 < i && i + 1 < j && j + 1 < |s| && s[i] == '@' && s[j] == '.' &&
                AllPlain(s[..i]) && AllPlain(s[i + 1..j]) && AllPlain(s[j + 1..]);
    forall k | 0 <= k < |s| && k != i
      ensures Plain(s[k])
    {
      if k < i {
        assert s[k] == s[..i][k];
      } else if k < j {
        assert s[k] == s[i + 1..j][k - i - 1];
      } else if k > j {
        assert s[k] == s[j + 1..][k - j - 1];
      }
    }
    assert OnlyAt(s, i) && DotAfter(s, i);
  }

  lemma ShapeMatchesPattern(s: string)
    requires EmailShape(s)
    ensures EmailPattern(s)
  {
    var i: nat :| 0 < i < |s| && OnlyAt(s, i) && DotAfter(s, i);
    var j :| i + 1 < j < |s| - 1 && s[j] == '.';
    assert AllPlain(s[..i]);
    assert AllPlain(s[i + 1..j]);
    assert AllPlain(s[j + 1..]);
  }

  lemma EmailPatternIsShape(s: string)
    ensures EmailPattern(s) <==> EmailShape(s)
  {
    if EmailPattern(s) {
      PatternHasShape(s);
    }
    if EmailShape(s) {
      ShapeMatchesPattern(s);
    }
  }

  /** Presence, then pattern: the first failing rule of a field. */
  function FieldError(value: string, required: string, pattern: bool, invalid: string): (e: Option<string>)
    ensures e.None? <==> value != "" && pattern
    ensures value == "" ==> e == Some(required)
  {
    if value == "" then Some(required) else if !pattern then Some(invalid) else None
  }

  /**
   * The error shown under each of the six fields, in form order: the
   * field's "… is required" message when it is empty, "Must be 10 digits"
   * for a phone that is not ten ASCII digits, "Invalid email" for an e-mail
   * without the address shape, and nothing otherwise.
   */
  function FormErrors(f: ProjectFields): (es: seq<Option<string>>)
    ensures |es| == 6
    ensures es[0] == (if f.name == "" then Some("Project name is required") else None)
    ensures es[1] == (if f.location == "" then Some("Location is required") else None)
    ensures es[2] == Some("Phone is required") <==> f.phone == ""
    ensures es[2] == Some("Must be 10 digits") <==> f.phone != "" && !PhonePattern(f.phone)
    ensures es[2].None? <==> f.phone != "" && PhonePattern(f.phone)
    ensures es[3] == Some("Email is required") <==> f.email == ""
    ensures es[3] == Some("Invalid email") <==> f.email != "" && !EmailShape(f.email)
    ensures es[3].None? <==> f.email != "" && EmailShape(f.email)
    ensures es[4] == (if f.startDate == "" then Some("Start date is required") else None)
    ensures es[5] == (if f.endDate == "" then Some("End date is required") else None)
  {
    EmailPatternIsShape(f.email);
    [ FieldError(f.name, "Project name is required", true, ""),
      FieldError(f.location, "Location is required", true, ""),
      FieldError(f.phone, "Phone is required", PhonePattern(f.phone), "Must be 10 digits"),
      FieldError(f.email, "Email is required", EmailPattern(f.email), "Invalid email"),
      FieldError(f.startDate, "Start date is required", true, ""),
      FieldError(f.endDate, "End date is required", true, "") ]
  }

  /** react-hook-form's rules pass exactly when every field is present and the phone and email match their patterns. */
  predicate FormValid(f: ProjectFields) {
    forall k :: 0 <= k < 6 ==> FormErrors(f)[k].None?
  }

  lemma FormValidMeans(f: ProjectFields)
    ensures FormValid(f) <==>
      && f.name != "" && f.location != "" && f.startDate != "" && f.endDate != ""
      && PhonePattern(f.phone) && EmailShape(f.email)
  {
    EmailPatternIsShape(f.email);
    var es := FormErrors(f);
    assert es[0].None? && es[1].None? && es[2].None? && es[3].None? && es[4].None? && es[5].None? ==> FormValid(f);
  }

  /** Whatever a submitted form holds, the create handler accepts it: the phone fits and no required field is empty. */
  lemma ValidFormPassesServer(f: ProjectFields, creator: ObjectId, now: nat)
    requires FormValid(f)
    ensures !PhoneTooLongFor(f.phone)
    ensures RequiredPresent(NewProject(f, creator, now))
  {
    FormValidMeans(f);
    FormPhonePassesServer(f.phone);
  }

  /** An edit submitted from the form sends every field, so every stored field is replaced. */
  lemma ValidFormReplacesEveryField(p: Project, f: ProjectFields, now: nat)
    requires FormValid(f)
    ensures ApplyUpdate(p, f, now) ==
      p.(name := f.name, location := f.location, phone := f.phone, email := f.email,
         startDate := f.startDate, endDate := f.endDate, updatedAt := now)
  {
    FormValidMeans(f);
  }

  /** `s.split("T")[0]`: the text before the first 'T', all of it when there is none. */
  function BeforeT(s: string): (r: string)
    ensures r <= s
    ensures forall k :: 0 <= k < |r| ==> r[k] != 'T'
    ensures |r| < |s| ==> s[|r|] == 'T'
  {
    if s == [] || s[0] == 'T' then [] else [s[0]] + BeforeT(s[1..])
  }

  /** A date with no 'T' comes back whole; a stored timestamp comes back as its date. */
  lemma BeforeTOfTimestamp(date: string, time: string)
    requires forall k :: 0 <= k < |date| ==> date[k] != 'T'
    ensures BeforeT(date) == date
    ensures BeforeT(date + "T" + time) == date
  {
    var r := BeforeT(date + "T" + time);
    assert (date + "T" + time)[|date|] == 'T';
    assert r <= date + "T" + time;
    assert r == (date + "T" + time)[..|r|];
  }

  /** The values the form starts with: blanks for a new project, the project's own values when editing. */
  function Prefill(editing: Option<(ObjectId, Project)>): (f: ProjectFields)
    ensures editing.None? ==> f == ProjectFields("", "", "", "", "", "")
    ensures editing.Some? ==>
      var p := editing.value.1;
      && f.name == p.name && f.location == p.location && f.phone == p.phone && f.email == p.email
      && f.startDate == BeforeT(p.startDate) && f.endDate == BeforeT(p.endDate)
  {
    if editing.None? then ProjectFields("", "", "", "", "", "")
    else
      var p := editing.value.1;
      ProjectFields(p.name, p.location, p.phone, p.email, BeforeT(p.startDate), BeforeT(p.endDate))
  }

  /**
   * Editing a project whose dates were stored as timestamps fills the date
   * inputs with the calendar dates, and every other field with its stored
   * value; submitting that form unchanged writes the dates back without
   * their times.
   */
  lemma PrefillOfStoredProject(id: ObjectId, p: Project, startDay: string, startTime: string,
                               endDay: string, endTime: string, now: nat)
    requires forall k :: 0 <= k < |startDay| ==> startDay[k] != 'T'
    requires forall k :: 0 <= k < |endDay| ==> endDay[k] != 'T'
    requires startDay != "" && endDay != ""
    requires p.startDate == startDay + "T" + startTime && p.endDate == endDay + "T" + endTime
    ensures Prefill(Some((id, p))) == ProjectFields(p.name, p.location, p.phone, p.email, startDay, endDay)
    ensures ApplyUpdate(p, Prefill(Some((id, p))), now) ==
      p.(startDate := startDay, endDate := endDay, updatedAt := now)
  {
    BeforeTOfTimestamp(startDay, startTime);
    BeforeTOfTimestamp(endDay, endTime);
  }

  /** Where the form is sent: a PUT to the edited project, or a POST of a new one. */
  datatype Target = Put(id: ObjectId) | Post

  function TargetOf(editing: Option<(ObjectId, Project)>): (t: Target)
    ensures t.Put? <==> editing.Some?
    ensures t.Put? ==> t.id == editing.value.0
  {
    if editing.Some? then Put(editing.value.0) else Post
  }

  /**
   * `onSubmit` once the call settles: a reply raises the response toast,
   * with the mode's success message, and goes to /projects only when it
   * reports success; a thrown error raises the mode's failure message as
   * fallback and stays.
   */
  function AfterSubmit(editing: bool, call: Call<()>): (r: (Toast, Option<string>))
    ensures call.Responded? ==> r.1 == (if DataOf(call.response).success then Some("/projects") else None)
    ensures call.Responded? ==>
      r.0 == HandleApiResponse(call.response, true,
               if editing then "Project updated successfully" else "Project created successfully").1
    ensures call.Threw? ==>
      r == (HandleApiError(call.error, if editing then "Failed to update project" else "Failed to create project"), None)
  {
    match call
    case Responded(res) =>
      var (data, toast) := HandleApiResponse(res, true,
                             if editing then "Project updated successfully" else "Project created successfully");
      (toast, if data.success then Some("/projects") else None)
    case Threw(e) =>
      (HandleApiError(e, if editing then "Failed to update project" else "Failed to create project"), None)
  }

  /** A new project submitted from the form is always stored, with nobody granted yet. */
  method CreateFromPage(db: Db, admin: SessionUser, f: ProjectFields, now: nat) returns (r: Reply<(ObjectId, Project)>)
    requires db.Valid() && FormValid(f)
    modifies db
    ensures db.Valid()
    ensures r.Ok? && r.status == StatusCreated
    ensures r.value.0 in db.projects && db.projects[r.value.0] == NewProject(f, admin.id, now)
    ensures db.projects[r.value.0].clientsWithAccess == []
  {
    ValidFormPassesServer(f, admin.id, now);
    r := CreateProject(db, admin, f, now);
  }
}
