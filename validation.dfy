/** The front end's input schemas, written as explicit ordered checks.

    Each schema is a list of checks run in order; every failing check contributes
    one issue, and the issues keep the order of the checks (the checks of a field
    run one after another, and the fields of an object in declaration order). */
module Validation {
  import opened Wrappers
  import opened JsString
  import Domain

  // ---------------------------------------------------------------------------
  // File upload

  const MaxFileSize: nat := 10 * 1024 * 1024
  const AllowedFormats: seq<string> := ["image/jpeg", "image/png", "image/webp", "image/heic"]

  const TooLargeMessage := "File size must be less than 10MB"
  const NotImageMessage := "File must be an image"
  const FormatMessage := "Supported formats: JPEG, PNG, WebP, HEIC"
  const FallbackMessage := "Invalid file"

  /** What the schema reads of a browser `File`: its size in bytes and its MIME type. */
  datatype FileInfo = FileInfo(size: nat, mimeType: string)

  /** One `.refine(check, { message })` step. */
  datatype Refinement = Refinement(check: FileInfo -> bool, message: string)

  /** The three refinements of the upload schema, in the order they are chained. */
  function FileRefinements(): seq<Refinement> {
    [ Refinement((f: FileInfo) => f.size <= MaxFileSize, TooLargeMessage),
      Refinement((f: FileInfo) => StartsWith(f.mimeType, Domain.ImagePrefix), NotImageMessage),
      Refinement((f: FileInfo) => f.mimeType in AllowedFormats, FormatMessage) ]
  }

  /** The messages of the refinements `f` fails, in chain order. */
  function RefinementIssues(rs: seq<Refinement>, f: FileInfo): (issues: seq<string>)
    ensures issues == [] <==> forall k :: 0 <= k < |rs| ==> rs[k].check(f)
    ensures issues != [] ==>
      exists k :: 0 <= k < |rs| && !rs[k].check(f) && issues[0] == rs[k].message
        && forall j :: 0 <= j < k ==> rs[j].check(f)
    decreases |rs|
  {
    if rs == [] then []
    else
      var rest := RefinementIssues(rs[1..], f);
      if rs[0].check(f) then
        assert forall k :: 1 <= k < |rs| ==> rs[k] == rs[1..][k - 1];
        rest
      else [rs[0].message] + rest
  }

  /** The upload schema's own statement of what it accepts. */
  predicate FileAccepted(f: FileInfo) {
    f.size <= MaxFileSize && f.mimeType in AllowedFormats
  }

  /** The result record of `validateFile`. */
  datatype FileCheck = FileCheck(success: bool, error: Option<string>)

  /** `validateFile`: run the schema and report its first issue. */
  function ValidateFile(f: FileInfo): (r: FileCheck)
    ensures r.success <==> FileAccepted(f)
    ensures r.success ==> r.error == None
    ensures !r.success && f.size > MaxFileSize ==> r.error == Some(TooLargeMessage)
    ensures !r.success && f.size <= MaxFileSize && !StartsWith(f.mimeType, Domain.ImagePrefix)
      ==> r.error == Some(NotImageMessage)
    ensures !r.success && f.size <= MaxFileSize && StartsWith(f.mimeType, Domain.ImagePrefix)
      ==> r.error == Some(FormatMessage)
  {
    AllowedFormatsAreImages(f.mimeType);
    var issues := RefinementIssues(FileRefinements(), f);
    if issues != [] then
      FileCheck(false, Some(if issues[0] != "" then issues[0] else FallbackMessage))
    else
      FileCheck(true, None)
  }

  /** Every allowed format carries the image prefix, so the second refinement can fail
      only for a type the third would reject too. */
  lemma AllowedFormatsAreImages(t: string)
    ensures t in AllowedFormats ==> StartsWith(t, Domain.ImagePrefix)
  {
  }

  /** The size bound is inclusive: a file of exactly 10 MiB in an allowed format passes,
      although the message speaks of "less than 10MB"; one byte more fails. */
  lemma TenMebibytesAccepted(t: string)
    requires t in AllowedFormats
    ensures ValidateFile(FileInfo(10485760, t)) == FileCheck(true, None)
    ensures ValidateFile(FileInfo(10485761, t)) == FileCheck(false, Some(TooLargeMessage))
  {
  }

  // ---------------------------------------------------------------------------
  // Object schemas

  /** The checks a zod string field can carry here. */
  datatype StringCheck = MinLength(min: nat) | MaxLength(max: nat) | Url

  /** The issue codes the object schemas can report. */
  datatype IssueCode = TooShort(min: nat) | TooLong(max: nat) | InvalidUrl | InvalidEnumValue
    | NotAnInteger | NotPositive | TooBig(limit: int)

  /** One issue: the field it is about and what is wrong. */
  datatype Issue = Issue(field: string, code: IssueCode)

  /** The issues of one string field under its checks, in check order. `isUrl` stands for
      zod's URL recognition, which the model leaves abstract. */
  function StringIssues(field: string, s: string, checks: seq<StringCheck>, isUrl: string -> bool)
    : (issues: seq<Issue>)
    ensures issues == [] <==> forall k :: 0 <= k < |checks| ==> StringCheckHolds(s, checks[k], isUrl)
    ensures forall k :: 0 <= k < |issues| ==> issues[k].field == field
    decreases |checks|
  {
    if checks == [] then []
    else
      var rest := StringIssues(field, s, checks[1..], isUrl);
      assert forall k :: 1 <= k < |checks| ==> checks[k] == checks[1..][k - 1];
      if StringCheckHolds(s, checks[0], isUrl) then rest
      else [Issue(field, StringCheckCode(checks[0]))] + rest
  }

  predicate StringCheckHolds(s: string, c: StringCheck, isUrl: string -> bool) {
    match c
    case MinLength(n) => |s| >= n
    case MaxLength(n) => |s| <= n
    case Url => isUrl(s)
  }

  function StringCheckCode(c: StringCheck): IssueCode {
    match c
    case MinLength(n) => TooShort(n)
    case MaxLength(n) => TooLong(n)
    case Url => InvalidUrl
  }

  /** The input of `projectCreateSchema`. */
  datatype ProjectCreate = ProjectCreate(name: string, userId: string, originalUrl: string, storagePath: string)

  /** The issues of `projectCreateSchema`, field by field in declaration order. */
  function ProjectCreateIssues(p: ProjectCreate, isUrl: string -> bool): (issues: seq<Issue>)
    ensures forall k :: 0 <= k < |issues| ==>
      issues[k].field in {"name", "userId", "originalUrl", "storagePath"}
  {
    StringIssues("name", p.name, [MinLength(1), MaxLength(255)], isUrl)
    + StringIssues("userId", p.userId, [MinLength(1)], isUrl)
    + StringIssues("originalUrl", p.originalUrl, [Url], isUrl)
    + StringIssues("storagePath", p.storagePath, [MinLength(1)], isUrl)
  }

  /** A project create input is valid exactly when its name has 1 to 255 characters,
      its user id and storage path are non-empty and its original URL is a URL. */
  lemma ProjectCreateValid(p: ProjectCreate, isUrl: string -> bool)
    ensures ProjectCreateIssues(p, isUrl) == [] <==>
      1 <= |p.name| <= 255 && p.userId != "" && isUrl(p.originalUrl) && p.storagePath != ""
  {
    var name := StringIssues("name", p.name, [MinLength(1), MaxLength(255)], isUrl);
    assert name == [] <==> 1 <= |p.name| <= 255 by {
      var cs := [MinLength(1), MaxLength(255)];
      assert name == [] <==> StringCheckHolds(p.name, cs[0], isUrl) && StringCheckHolds(p.name, cs[1], isUrl);
    }
    var user := StringIssues("userId", p.userId, [MinLength(1)], isUrl);
    assert user == [] <==> StringCheckHolds(p.userId, [MinLength(1)][0], isUrl);
    var url := StringIssues("originalUrl", p.originalUrl, [Url], isUrl);
    assert url == [] <==> StringCheckHolds(p.originalUrl, [Url][0], isUrl);
    var path := StringIssues("storagePath", p.storagePath, [MinLength(1)], isUrl);
    assert path == [] <==> StringCheckHolds(p.storagePath, [MinLength(1)][0], isUrl);
  }

  /** The input of `projectUpdateSchema`: every field optional. */
  datatype ProjectUpdate = ProjectUpdate(status: Option<string>, processedUrl: Option<string>, error: Option<string>)

  /** The status literals `projectUpdateSchema` admits. */
  const UpdateStatuses: seq<string> := ["pending", "processing", "completed", "failed"]

  /** The issues of `projectUpdateSchema`. An absent field is never an issue; `error`
      admits any string. */
  function ProjectUpdateIssues(u: ProjectUpdate, isUrl: string -> bool): (issues: seq<Issue>)
    ensures |issues| <= 2
    ensures forall k :: 0 <= k < |issues| ==> issues[k].field in {"status", "processedUrl"}
    ensures u.status.None? && u.processedUrl.None? ==> issues == []
    ensures u.status.None? ==> forall k :: 0 <= k < |issues| ==> issues[k].field != "status"
    ensures u.processedUrl.None? ==> forall k :: 0 <= k < |issues| ==> issues[k].field != "processedUrl"
    ensures |issues| == 2 ==> issues[0].field == "status" && issues[1].field == "processedUrl"
  {
    (if u.status.Some? && u.status.value !in UpdateStatuses then [Issue("status", InvalidEnumValue)] else [])
    + (if u.processedUrl.Some? then StringIssues("processedUrl", u.processedUrl.value, [Url], isUrl) else [])
  }

  /** An update that sets nothing is valid. */
  lemma EmptyUpdateValid(isUrl: string -> bool)
    ensures ProjectUpdateIssues(ProjectUpdate(None, None, None), isUrl) == []
  {
  }

  /** A present status is valid exactly when it is a `ProjectStatus` value, and a present
      processed URL exactly when it is a URL; the error text is unconstrained. */
  lemma ProjectUpdateValid(u: ProjectUpdate, isUrl: string -> bool)
    ensures ProjectUpdateIssues(u, isUrl) == [] <==>
      (u.status.Some? ==> Domain.ParseStatus(u.status.value).Some?)
      && (u.processedUrl.Some? ==> isUrl(u.processedUrl.value))
  {
    if u.status.Some? {
      Domain.StatusValuesAreExactlyFour(u.status.value);
    }
    if u.processedUrl.Some? {
      var issues := StringIssues("processedUrl", u.processedUrl.value, [Url], isUrl);
      assert issues == [] <==> StringCheckHolds(u.processedUrl.value, [Url][0], isUrl);
    }
  }

  /** The status the processing function writes on failure does not pass the update
      schema, whatever else the update holds. */
  lemma ErrorStatusRejected(processedUrl: Option<string>, error: Option<string>, isUrl: string -> bool)
    ensures Issue("status", InvalidEnumValue) in ProjectUpdateIssues(ProjectUpdate(Some("error"), processedUrl, error), isUrl)
  {
    assert "error" != UpdateStatuses[0] && "error" != UpdateStatuses[1];
    assert "error" != UpdateStatuses[2] && "error" != UpdateStatuses[3];
  }

  // ---------------------------------------------------------------------------
  // Pagination

  const DefaultLimit := 12
  const MaxLimit := 100

  /** The input of `paginationSchema`; `limit` is a JavaScript number. */
  datatype PaginationInput = PaginationInput(limit: Option<real>, startAfter: Option<string>)

  /** What the schema produces on success: the limit is always present. */
  datatype Pagination = Pagination(limit: int, startAfter: Option<string>)

  datatype ParsedPagination = Valid(page: Pagination) | Invalid(issues: seq<Issue>)

  predicate IsInteger(x: real) {
    x.Floor as real == x
  }

  /** The issues of the `limit` number after its default is filled in: integer, positive,
      at most 100, each checked in turn. */
  function LimitIssues(x: real): (issues: seq<Issue>)
    ensures issues == [] <==> IsInteger(x) && 0.0 < x <= MaxLimit as real
    ensures forall k :: 0 <= k < |issues| ==> issues[k].field == "limit"
  {
    (if IsInteger(x) then [] else [Issue("limit", NotAnInteger)])
    + (if x > 0.0 then [] else [Issue("limit", NotPositive)])
    + (if x <= MaxLimit as real then [] else [Issue("limit", TooBig(MaxLimit))])
  }

  /** `paginationSchema`: an absent limit defaults to 12; a present one must be an
      integer from 1 to 100; `startAfter` passes through. */
  function ParsePagination(p: PaginationInput): (r: ParsedPagination)
    ensures r.Valid? <==> (p.limit.Some? ==> IsInteger(p.limit.value) && 1.0 <= p.limit.value <= 100.0)
    ensures r.Valid? ==> 1 <= r.page.limit <= MaxLimit && r.page.startAfter == p.startAfter
    ensures r.Valid? && p.limit.None? ==> r.page.limit == DefaultLimit
    ensures r.Valid? && p.limit.Some? ==> r.page.limit as real == p.limit.value
    ensures r.Invalid? ==> r.issues != []
  {
    var x := p.limit.GetOr(DefaultLimit as real);
    var issues := LimitIssues(x);
    if issues == [] then Valid(Pagination(x.Floor, p.startAfter)) else Invalid(issues)
  }
}
