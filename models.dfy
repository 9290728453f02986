/**
 * The tracker's records: Project, Issue, Status and Type, with the field
 * bounds, choice lists and defaults their declarations carry, and how a
 * submitted form becomes a record.
 */
module Models {
  import opened Wrappers
  import opened Text
  import opened Forms
  import opened Validate

  /** A calendar date, as a day number; only its order matters here. */
  type Date = int

  // ---------------------------------------------------------------- choices

  datatype StatusChoice = New | InProgress | Done

  /** The stored values of STATUS_CHOICES, in declaration order. */
  const StatusChoices: seq<string> := ["New", "In_progress", "Done"]

  const DefaultStatus: StatusChoice := New

  function StatusCode(c: StatusChoice): string {
    match c
    case New => "New"
    case InProgress => "In_progress"
    case Done => "Done"
  }

  function ParseStatus(code: string): (r: Option<StatusChoice>)
    ensures r.Some? <==> code in StatusChoices
    ensures r.Some? ==> StatusCode(r.value) == code
  {
    if code == "New" then Some(New)
    else if code == "In_progress" then Some(InProgress)
    else if code == "Done" then Some(Done)
    else None
  }

  lemma StatusCodeRoundTrip(c: StatusChoice)
    ensures StatusCode(c) in StatusChoices
    ensures ParseStatus(StatusCode(c)) == Some(c)
  {
  }

  /** `Task` is the choice stored as "Issue". */
  datatype TypeChoice = Task | Bug | Enhancement

  /** The stored values of Type_CHOICES, in declaration order. */
  const TypeChoices: seq<string> := ["Issue", "Bug", "Enhancement"]

  const DefaultType: TypeChoice := Task

  function TypeCode(c: TypeChoice): string {
    match c
    case Task => "Issue"
    case Bug => "Bug"
    case Enhancement => "Enhancement"
  }

  function ParseType(code: string): (r: Option<TypeChoice>)
    ensures r.Some? <==> code in TypeChoices
    ensures r.Some? ==> TypeCode(r.value) == code
  {
    if code == "Issue" then Some(Task)
    else if code == "Bug" then Some(Bug)
    else if code == "Enhancement" then Some(Enhancement)
    else None
  }

  lemma TypeCodeRoundTrip(c: TypeChoice)
    ensures TypeCode(c) in TypeChoices
    ensures ParseType(TypeCode(c)) == Some(c)
  {
  }

  // ---------------------------------------------------------- Status, Type

  datatype Status = Status(pk: nat, status: StatusChoice)

  datatype Type = Type(pk: nat, name: TypeChoice)

  /**
   * A Status row from a submitted value: the value must be one of the
   * choices, and an omitted value takes the default "New".
   */
  function CreateStatus(pk: nat, value: Option<string>): (r: Option<Status>)
    ensures r.Some? <==> value.None? || value.value in StatusChoices
    ensures r.Some? ==> r.value.pk == pk && StatusCode(r.value.status) == value.GetOr("New")
  {
    match value
    case None => Some(Status(pk, DefaultStatus))
    case Some(code) =>
      match ParseStatus(code)
      case Some(c) => Some(Status(pk, c))
      case None => None
  }

  /** A Type row from a submitted value, defaulting to "Issue". */
  function CreateType(pk: nat, value: Option<string>): (r: Option<Type>)
    ensures r.Some? <==> value.None? || value.value in TypeChoices
    ensures r.Some? ==> r.value.pk == pk && TypeCode(r.value.name) == value.GetOr("Issue")
  {
    match value
    case None => Some(Type(pk, DefaultType))
    case Some(code) =>
      match ParseType(code)
      case Some(c) => Some(Type(pk, c))
      case None => None
  }

  /** `Status.__str__` and `Type.__str__` print the stored choice. */
  function StatusLabel(s: Status): (r: string)
    ensures r in StatusChoices && ParseStatus(r) == Some(s.status)
  {
    StatusCodeRoundTrip(s.status);
    StatusCode(s.status)
  }

  function TypeLabel(t: Type): (r: string)
    ensures r in TypeChoices && ParseType(r) == Some(t.name)
  {
    TypeCodeRoundTrip(t.name);
    TypeCode(t.name)
  }

  // ---------------------------------------------------------------- Project

  const ProjectNameMaxLength := 50
  const ProjectDescriptionMaxLength := 300

  datatype Project = Project(
    pk: nat,
    name: string,
    description: string,
    startsDate: Date,
    finishDate: Option<Date>,
    isDeleted: bool)

  /** The field bounds of a Project: name and description present and within their lengths. */
  ghost predicate ValidProject(p: Project) {
    && 0 < |p.name| <= ProjectNameMaxLength
    && 0 < |p.description| <= ProjectDescriptionMaxLength
  }

  /** What the project form submits. */
  datatype ProjectDraft = ProjectDraft(
    name: string,
    description: string,
    startsDate: Option<Date>,
    finishDate: Option<Date>)

  /**
   * A new Project from the project form: name and description are cleaned
   * as required text of at most 50 and 300 characters, a start date is
   * required, the finish date is optional, and the soft-delete flag starts
   * cleared.
   */
  function CreateProject(pk: nat, d: ProjectDraft): (r: Option<Project>)
    ensures r.Some? <==> && CleanCharField(d.name, true, ProjectNameMaxLength).Some?
                         && CleanCharField(d.description, true, ProjectDescriptionMaxLength).Some?
                         && d.startsDate.Some?
    ensures r.Some? ==> && ValidProject(r.value)
                        && !r.value.isDeleted
                        && r.value.pk == pk
                        && r.value.name == Strip(d.name)
                        && r.value.description == Strip(d.description)
                        && Some(r.value.startsDate) == d.startsDate
                        && r.value.finishDate == d.finishDate
  {
    match (CleanCharField(d.name, true, ProjectNameMaxLength),
           CleanCharField(d.description, true, ProjectDescriptionMaxLength),
           d.startsDate)
    case (Some(name), Some(description), Some(starts)) =>
      Some(Project(pk, name, description, starts, d.finishDate, false))
    case _ => None
  }

  /**
   * `Project.__str__`: the primary key in decimal, ". ", then the name.
   * The label can be split back into the two.
   */
  function Label(p: Project): (r: string)
    ensures ParseLabel(r) == Some((p.pk, p.name))
    ensures r[0] == '0' ==> LeadingDigits(r) == 1
  {
    var digits := Decimal(p.pk);
    var r := digits + ". " + p.name;
    assert r == digits + (". " + p.name);
    LeadingDigitsOfConcat(digits, ". " + p.name);
    ParseDecimalOfDecimal(p.pk);
    assert r[..|digits|] == digits;
    assert r[|digits|..|digits| + 2] == ". ";
    assert r[|digits| + 2..] == p.name;
    r
  }

  /** Reads a label back: a run of digits, ". ", then the rest is the name. */
  function ParseLabel(s: string): Option<(nat, string)> {
    var k := LeadingDigits(s);
    if 0 < k && k + 2 <= |s| && s[k..k + 2] == ". " then
      assert AllDigits(s[..k]);
      Some((ParseDecimal(s[..k]), s[k + 2..]))
    else
      None
  }

  /** Two projects print alike only when they share primary key and name. */
  lemma LabelInjective(p: Project, q: Project)
    requires Label(p) == Label(q)
    ensures p.pk == q.pk && p.name == q.name
  {
  }

  lemma LabelExample()
    ensures Label(Project(12, "Tracker", "Issues", 0, None, false)) == "12. Tracker"
  {
  }

  // ------------------------------------------------------------------ Issue

  const SummaryMaxLength := 300
  const IssueDescriptionMaxLength := 3500

  /**
   * An Issue: its project and status are foreign keys (primary keys of a
   * Project and a Status row), its types a set of Type primary keys.
   */
  datatype Issue = Issue(
    pk: nat,
    project: nat,
    summary: string,
    description: string,
    status: nat,
    types: set<nat>)

  /** The cleaned fields of the issue form. */
  datatype IssueFields = IssueFields(summary: string, description: string, status: nat, types: set<nat>)

  /**
   * The field bounds of an Issue: a summary of 1 to 300 characters that
   * `title` accepts, a description of at most 3500 characters that `null`
   * accepts, and at least one type.
   */
  ghost predicate ValidIssueFields(f: IssueFields) {
    && 0 < |f.summary| <= SummaryMaxLength
    && Title(f.summary) == Accepted
    && |f.description| <= IssueDescriptionMaxLength
    && Null(f.description) == Accepted
    && f.types != {}
  }

  ghost predicate ValidIssue(i: Issue) {
    ValidIssueFields(IssueFields(i.summary, i.description, i.status, i.types))
  }

  /** What the issue form submits. */
  datatype IssueDraft = IssueDraft(summary: string, description: string, status: Option<nat>, types: set<nat>)

  /**
   * The issue form: the summary is required text of at most 300 characters
   * passing `title`; the description is optional text of at most 3500
   * characters passing `null`; the status must name an existing Status row
   * and the types a non-empty set of existing Type rows.
   */
  function CleanIssueForm(d: IssueDraft, statuses: set<nat>, types: set<nat>): (r: Option<IssueFields>)
    ensures r.Some? ==> ValidIssueFields(r.value)
    ensures r.Some? ==> && r.value.summary == Strip(d.summary)
                        && r.value.description == Strip(d.description)
                        && Some(r.value.status) == d.status && r.value.status in statuses
                        && r.value.types == d.types && d.types <= types
    ensures r.Some? <==> && CleanCharField(d.summary, true, SummaryMaxLength).Some?
                         && IsUpper(Strip(d.summary)[0])
                         && CleanCharField(d.description, false, IssueDescriptionMaxLength).Some?
                         && (forall i :: 0 <= i < |Strip(d.description)| ==> Strip(d.description)[i] != '0')
                         && d.status.Some? && d.status.value in statuses
                         && d.types != {} && d.types <= types
  {
    match (CleanCharField(d.summary, true, SummaryMaxLength),
           CleanCharField(d.description, false, IssueDescriptionMaxLength))
    case (Some(summary), Some(description)) =>
      if Title(summary) == Accepted && Null(description) == Accepted
         && d.status.Some? && d.status.value in statuses
         && d.types != {} && d.types <= types
      then Some(IssueFields(summary, description, d.status.value, d.types))
      else None
    case _ => None
  }

  /** The declared defaults of an Issue's text fields pass their own validators. */
  lemma IssueDefaultsAreValid()
    ensures Title("None") == Accepted
    ensures Null("None description") == Accepted
  {
  }
}
