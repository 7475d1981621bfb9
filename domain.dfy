/** The domain types of the front end: branded identifier strings, their
    guards and constructors, and the project status enumeration.

    A branded type in the TypeScript source is a plain string at run time that
    the type checker keeps apart from other strings; here each brand is a
    one-field wrapper datatype, so the model keeps them apart the same way. */
module Domain {
  import opened Wrappers

  datatype UserId = UserId(value: string)
  datatype ProjectId = ProjectId(value: string)
  datatype StoragePath = StoragePath(value: string)
  datatype DownloadUrl = DownloadUrl(value: string)

  /** The MIME type prefix shared by all image types. The upload schema and the
      processing function's event filter both test for it. */
  const ImagePrefix := "image/"

  /** `isUserId`: a string may be branded a user id exactly when it is non-empty. */
  predicate IsUserId(v: string)
    ensures IsUserId(v) <==> v != []
  {
    |v| > 0
  }

  /** `isProjectId`: a string may be branded a project id exactly when it is non-empty. */
  predicate IsProjectId(v: string)
    ensures IsProjectId(v) <==> v != []
  {
    |v| > 0
  }

  /** `createUserId` brands its argument without checking or changing it. */
  function CreateUserId(id: string): (r: UserId)
    ensures r.value == id
  {
    UserId(id)
  }

  /** `createProjectId` brands its argument without checking or changing it. */
  function CreateProjectId(id: string): (r: ProjectId)
    ensures r.value == id
  {
    ProjectId(id)
  }

  /** `createStoragePath` brands its argument without checking or changing it. */
  function CreateStoragePath(path: string): (r: StoragePath)
    ensures r.value == path
  {
    StoragePath(path)
  }

  /** `createDownloadURL` brands its argument without checking or changing it. */
  function CreateDownloadUrl(url: string): (r: DownloadUrl)
    ensures r.value == url
  {
    DownloadUrl(url)
  }

  /** The constructors accept every string, the empty one included: the guards
      are not applied by them, so a branded id may still be empty. */
  lemma ConstructorsDoNotGuard()
    ensures CreateUserId("").value == "" && !IsUserId(CreateUserId("").value)
    ensures CreateProjectId("").value == "" && !IsProjectId(CreateProjectId("").value)
  {
  }

  /** The `ProjectStatus` enumeration. */
  datatype ProjectStatus = Pending | Processing | Completed | Failed

  /** The string each enumeration member stands for. */
  function StatusValue(st: ProjectStatus): string {
    match st
    case Pending => "pending"
    case Processing => "processing"
    case Completed => "completed"
    case Failed => "failed"
  }

  /** Reading a stored status string back as an enumeration member. */
  function ParseStatus(v: string): (r: Option<ProjectStatus>)
    ensures r.Some? ==> StatusValue(r.value) == v
    ensures r.None? ==> forall st: ProjectStatus :: StatusValue(st) != v
  {
    if v == "pending" then Some(Pending)
    else if v == "processing" then Some(Processing)
    else if v == "completed" then Some(Completed)
    else if v == "failed" then Some(Failed)
    else None
  }

  /** The enumeration's string values are pairwise distinct, and every value reads
      back as the member it came from. */
  lemma StatusValuesRoundTrip(st: ProjectStatus)
    ensures ParseStatus(StatusValue(st)) == Some(st)
  {
  }

  /** Exactly four strings are status values. */
  lemma StatusValuesAreExactlyFour(v: string)
    ensures ParseStatus(v).Some? <==> v in ["pending", "processing", "completed", "failed"]
  {
  }

  /** The status the processing function writes on failure, "error", is not a member
      of the enumeration: the enumeration's failure member is "failed". */
  lemma ErrorIsNotAProjectStatus()
    ensures ParseStatus("error") == None
    ensures forall st: ProjectStatus :: StatusValue(st) != "error"
  {
  }
}
