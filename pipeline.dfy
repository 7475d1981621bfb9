/** What one invocation of the storage-triggered processing function does to the
    document store and the object store, as a function of their state before it.

    The stores are values here: the project records of all users in store order,
    the objects by path, the set of objects made public, and the log of every call
    the function has issued to either store (reads included), in order. Each call
    may throw; which ones do is given by a failure oracle, the set of steps that
    fail. The class in module Backend performs the same invocation step by step
    and is proved to end in the state this module computes. */
module Pipeline {
  import opened Wrappers
  import opened JsString
  import opened Paths
  import Domain
  import Validation

  /** The document field values the function reads or writes. */
  datatype Value = Text(text: string) | Time(millis: int)

  type Fields = map<string, Value>

  /** A project record in `users/{owner}/projects/{id}`. */
  datatype Doc = Doc(owner: string, id: string, fields: Fields)

  datatype StoredObject = StoredObject(bytes: seq<bv8>, contentType: Option<string>)

  /** The calls the function makes to the two stores. */
  datatype Call =
    | FindByPath(owner: string, path: string)
    | UpdateDoc(index: nat, update: Fields)
    | CopyObject(source: string, destination: string)
    | MakePublic(objectPath: string)

  datatype Store = Store(
    docs: seq<Doc>,
    objects: map<string, StoredObject>,
    publicPaths: set<string>,
    calls: seq<Call>)

  /** The awaited steps that can throw, in the order the function reaches them. */
  datatype Step =
    | FindProject | MarkProcessing | CopyResult | PublishResult | MarkCompleted
    | FindProjectAgain | MarkError

  /** The finalize notification: bucket, object path and content type (possibly absent). */
  datatype StorageEvent = StorageEvent(bucket: string, name: string, contentType: Option<string>)

  /** How an invocation ends. `Escaped` is an exception thrown from inside the catch block. */
  datatype Outcome =
    | Skipped
    | NoProject
    | Completed(processedUrl: string)
    | MarkedError
    | ErrorNotRecorded
    | Escaped

  const StoragePathField := "storagePath"
  const StatusField := "status"
  const ProcessedUrlField := "processedUrl"
  const UpdatedAtField := "updatedAt"
  const ErrorField := "error"

  const ProcessingStatus := "processing"
  const CompletedStatus := "completed"
  const ErrorStatus := "error"

  function ProcessingUpdate(): Fields {
    map[StatusField := Text(ProcessingStatus)]
  }

  function CompletedUpdate(url: string, now: int): Fields {
    map[StatusField := Text(CompletedStatus), ProcessedUrlField := Text(url), UpdatedAtField := Time(now)]
  }

  function ErrorUpdate(): Fields {
    map[StatusField := Text(ErrorStatus)]
  }

  /** The record the uploader creates next to each upload: original URL, storage path,
      status "pending", creation time and display name. */
  function UploadRecord(storagePath: string, originalUrl: string, name: string, createdAt: int): Fields {
    map["originalUrl" := Text(originalUrl), StoragePathField := Text(storagePath),
        StatusField := Text("pending"), "createdAt" := Time(createdAt), "name" := Text(name)]
  }

  // ---------------------------------------------------------------------------
  // The query and the calls

  /** A record of `owner` whose storage path is `path`. */
  predicate Matches(d: Doc, owner: string, path: string) {
    d.owner == owner && StoragePathField in d.fields && d.fields[StoragePathField] == Text(path)
  }

  /** `where("storagePath", "==", path).limit(1)` within `users/{owner}/projects`:
      the first matching record at or after `from`, in store order. */
  function FirstMatchFrom(docs: seq<Doc>, owner: string, path: string, from: nat): (r: Option<nat>)
    requires from <= |docs|
    ensures r.Some? ==> from <= r.value < |docs| && Matches(docs[r.value], owner, path)
    ensures r.Some? ==> forall k :: from <= k < r.value ==> !Matches(docs[k], owner, path)
    ensures r.None? ==> forall k :: from <= k < |docs| ==> !Matches(docs[k], owner, path)
    decreases |docs| - from
  {
    if from == |docs| then None
    else if Matches(docs[from], owner, path) then Some(from)
    else FirstMatchFrom(docs, owner, path, from + 1)
  }

  function FirstMatch(docs: seq<Doc>, owner: string, path: string): Option<nat> {
    FirstMatchFrom(docs, owner, path, 0)
  }

  /** Whether the store carries a call out when nothing is injected to fail: a
      record update needs the record, a copy its source and publishing its object. */
  predicate Performable(s: Store, c: Call) {
    match c
    case FindByPath(_, _) => true
    case UpdateDoc(i, _) => i < |s.docs|
    case CopyObject(src, _) => src in s.objects
    case MakePublic(p) => p in s.objects
  }

  /** The effect of a call that succeeds. An update merges its fields into the record;
      a copy overwrites the destination with the source object. */
  function Perform(s: Store, c: Call): Store
    requires Performable(s, c)
  {
    match c
    case FindByPath(_, _) => s
    case UpdateDoc(i, f) => s.(docs := s.docs[i := s.docs[i].(fields := s.docs[i].fields + f)])
    case CopyObject(src, dst) => s.(objects := s.objects[dst := s.objects[src]])
    case MakePublic(p) => s.(publicPaths := s.publicPaths + {p})
  }

  /** Issuing a call: it is logged, and it either throws (second component true),
      leaving the stores as they were, or takes effect. */
  function IssueCall(s: Store, c: Call, injected: bool): (r: (Store, bool))
    ensures r.0.calls == s.calls + [c]
    ensures r.1 <==> injected || !Performable(s, c)
    ensures r.1 ==> r.0.docs == s.docs && r.0.objects == s.objects && r.0.publicPaths == s.publicPaths
  {
    var logged := s.(calls := s.calls + [c]);
    if injected || !Performable(s, c) then (logged, true) else (Perform(logged, c), false)
  }

  // ---------------------------------------------------------------------------
  // One invocation

  /** The try block: find the record, mark it processing, copy the upload to the result
      path, make the result public, mark the record completed. The second component is
      the way the block returned, or None when it threw. */
  function TryBlock(s: Store, path: string, t: Target, fails: set<Step>, publicUrl: string -> string, now: int)
    : (Store, Option<Outcome>)
  {
    var (s1, e1) := IssueCall(s, FindByPath(t.uid, path), FindProject in fails);
    if e1 then (s1, None)
    else match FirstMatch(s1.docs, t.uid, path)
      case None => (s1, Some(NoProject))
      case Some(i) =>
        var (s2, e2) := IssueCall(s1, UpdateDoc(i, ProcessingUpdate()), MarkProcessing in fails);
        if e2 then (s2, None)
        else
          var dst := ResultPath(t.uid, t.fileName);
          var (s3, e3) := IssueCall(s2, CopyObject(path, dst), CopyResult in fails);
          if e3 then (s3, None)
          else
            var (s4, e4) := IssueCall(s3, MakePublic(dst), PublishResult in fails);
            if e4 then (s4, None)
            else
              var url := publicUrl(dst);
              var (s5, e5) := IssueCall(s4, UpdateDoc(i, CompletedUpdate(url, now)), MarkCompleted in fails);
              if e5 then (s5, None) else (s5, Some(Completed(url)))
  }

  /** The catch block: look the record up again and, if found, set its status to "error". */
  function CatchBlock(s: Store, path: string, uid: string, fails: set<Step>): (Store, Outcome) {
    var (s1, e1) := IssueCall(s, FindByPath(uid, path), FindProjectAgain in fails);
    if e1 then (s1, Escaped)
    else match FirstMatch(s1.docs, uid, path)
      case None => (s1, ErrorNotRecorded)
      case Some(j) =>
        var (s2, e2) := IssueCall(s1, UpdateDoc(j, ErrorUpdate()), MarkError in fails);
        (s2, if e2 then Escaped else MarkedError)
  }

  /** One invocation of the function on a finalize event. `publicUrl` is the store's
      public URL of a path and `now` the time `new Date()` reads. */
  function Handle(s: Store, ev: StorageEvent, fails: set<Step>, publicUrl: string -> string, now: int)
    : (Store, Outcome)
  {
    if !IsProcessable(ev.name, ev.contentType) then (s, Skipped)
    else match ParsePath(ev.name)
      case None => (s, Skipped)
      case Some(t) =>
        var (s1, returned) := TryBlock(s, ev.name, t, fails, publicUrl, now);
        if returned.Some? then (s1, returned.value) else CatchBlock(s1, ev.name, t.uid, fails)
  }

  // ---------------------------------------------------------------------------
  // Properties

  /** The steps of the try block, any of which sends the invocation to the catch block. */
  predicate TryFails(s: Store, path: string, fails: set<Step>) {
    FindProject in fails || MarkProcessing in fails || CopyResult in fails || path !in s.objects
    || PublishResult in fails || MarkCompleted in fails
  }

  /** An event outside the filter, or one whose path lacks an owner or a file name,
      is ignored without a single call to either store. */
  lemma IgnoredEventsIssueNoCalls(s: Store, ev: StorageEvent, fails: set<Step>, publicUrl: string -> string, now: int)
    requires !IsProcessable(ev.name, ev.contentType) || ParsePath(ev.name).None?
    ensures Handle(s, ev, fails, publicUrl, now) == (s, Skipped)
  {
  }

  /** When no record of the owner has the object's storage path, the invocation
      stops after the one query, writing nothing. */
  lemma NoProjectNoWrites(s: Store, ev: StorageEvent, fails: set<Step>, publicUrl: string -> string, now: int)
    requires IsProcessable(ev.name, ev.contentType) && ParsePath(ev.name).Some?
    requires FindProject !in fails
    requires forall k :: 0 <= k < |s.docs| ==> !Matches(s.docs[k], ParsePath(ev.name).value.uid, ev.name)
    ensures Handle(s, ev, fails, publicUrl, now)
      == (s.(calls := s.calls + [FindByPath(ParsePath(ev.name).value.uid, ev.name)]), NoProject)
  {
  }

  /** Merging a second update that sets every key of the first forgets the first. */
  lemma OverrideTwice(f: Fields, a: Fields, b: Fields)
    requires a.Keys <= b.Keys
    ensures (f + a) + b == f + b
  {
  }

  /** Under success of every step the record ends completed with the public URL of
      the result path and the time, nothing else in it changes, the upload is copied
      to the result path and made public there, and the calls come in the order
      query, mark processing, copy, make public, mark completed. */
  lemma SuccessCompletes(s: Store, ev: StorageEvent, fails: set<Step>, publicUrl: string -> string, now: int)
    requires IsProcessable(ev.name, ev.contentType) && ParsePath(ev.name).Some?
    requires FirstMatch(s.docs, ParsePath(ev.name).value.uid, ev.name).Some?
    requires !TryFails(s, ev.name, fails)
    ensures
      var t := ParsePath(ev.name).value;
      var i := FirstMatch(s.docs, t.uid, ev.name).value;
      var dst := ResultPath(t.uid, t.fileName);
      var url := publicUrl(dst);
      Handle(s, ev, fails, publicUrl, now) == (
        Store(
          s.docs[i := s.docs[i].(fields := s.docs[i].fields + CompletedUpdate(url, now))],
          s.objects[dst := s.objects[ev.name]],
          s.publicPaths + {dst},
          s.calls + [FindByPath(t.uid, ev.name), UpdateDoc(i, ProcessingUpdate()), CopyObject(ev.name, dst),
                     MakePublic(dst), UpdateDoc(i, CompletedUpdate(url, now))]),
        Completed(url))
  {
    var t := ParsePath(ev.name).value;
    var path := ev.name;
    var i := FirstMatch(s.docs, t.uid, path).value;
    var dst := ResultPath(t.uid, t.fileName);
    var url := publicUrl(dst);
    var c1, c2, c3 := FindByPath(t.uid, path), UpdateDoc(i, ProcessingUpdate()), CopyObject(path, dst);
    var c4, c5 := MakePublic(dst), UpdateDoc(i, CompletedUpdate(url, now));
    var s1 := s.(calls := s.calls + [c1]);
    assert IssueCall(s, c1, false) == (s1, false);
    var s2 := s1.(calls := s1.calls + [c2], docs := s.docs[i := s.docs[i].(fields := s.docs[i].fields + ProcessingUpdate())]);
    assert IssueCall(s1, c2, false) == (s2, false);
    var s3 := s2.(calls := s2.calls + [c3], objects := s.objects[dst := s.objects[path]]);
    assert IssueCall(s2, c3, false) == (s3, false);
    var s4 := s3.(calls := s3.calls + [c4], publicPaths := s.publicPaths + {dst});
    assert dst in s3.objects;
    assert IssueCall(s3, c4, false) == (s4, false);
    OverrideTwice(s.docs[i].fields, ProcessingUpdate(), CompletedUpdate(url, now));
    var s5 := s4.(calls := s4.calls + [c5], docs := s.docs[i := s.docs[i].(fields := s.docs[i].fields + CompletedUpdate(url, now))]);
    assert Performable(s4, c5);
    assert s4.docs[i].fields + CompletedUpdate(url, now) == s.docs[i].fields + CompletedUpdate(url, now);
    assert Perform(s4.(calls := s4.calls + [c5]), c5).docs == s5.docs;
    assert IssueCall(s4, c5, false) == (s5, false);
    assert TryBlock(s, path, t, fails, publicUrl, now) == (s5, Some(Completed(url)));
    assert s5.calls == s.calls + [c1, c2, c3, c4, c5];
    assert Handle(s, ev, fails, publicUrl, now) == (s5, Completed(url));
  }

  /** On success the result object is byte for byte the upload (content type included)
      and the upload itself is unchanged; the record reads completed, with the result's
      public URL and the update time. */
  lemma SuccessResultIsCopy(s: Store, ev: StorageEvent, fails: set<Step>, publicUrl: string -> string, now: int)
    requires IsProcessable(ev.name, ev.contentType) && ParsePath(ev.name).Some?
    requires FirstMatch(s.docs, ParsePath(ev.name).value.uid, ev.name).Some?
    requires !TryFails(s, ev.name, fails)
    ensures
      var t := ParsePath(ev.name).value;
      var i := FirstMatch(s.docs, t.uid, ev.name).value;
      var dst := ResultPath(t.uid, t.fileName);
      var r := Handle(s, ev, fails, publicUrl, now).0;
      && r.objects[dst] == s.objects[ev.name]
      && r.objects[ev.name] == s.objects[ev.name]
      && dst in r.publicPaths
      && r.docs[i].fields[StatusField] == Text(CompletedStatus)
      && r.docs[i].fields[ProcessedUrlField] == Text(publicUrl(dst))
      && r.docs[i].fields[UpdatedAtField] == Time(now)
  {
  }

  /** An update leaves every record's owner and storage path, hence the query, as they were. */
  lemma UpdateKeepsQuery(s: Store, i: nat, f: Fields, owner: string, path: string)
    requires i < |s.docs| && StoragePathField !in f
    ensures FirstMatch(Perform(s, UpdateDoc(i, f)).docs, owner, path) == FirstMatch(s.docs, owner, path)
  {
    var docs' := Perform(s, UpdateDoc(i, f)).docs;
    assert forall k :: 0 <= k < |s.docs| ==> (Matches(docs'[k], owner, path) <==> Matches(s.docs[k], owner, path));
    FirstMatchAgrees(s.docs, docs', owner, path, 0);
  }

  /** Two record sequences that agree on which records match give the same first match. */
  lemma {:induction false} FirstMatchAgrees(a: seq<Doc>, b: seq<Doc>, owner: string, path: string, from: nat)
    requires |a| == |b| && from <= |a|
    requires forall k :: 0 <= k < |a| ==> (Matches(a[k], owner, path) <==> Matches(b[k], owner, path))
    ensures FirstMatchFrom(a, owner, path, from) == FirstMatchFrom(b, owner, path, from)
    decreases |a| - from
  {
    if from < |a| {
      FirstMatchAgrees(a, b, owner, path, from + 1);
    }
  }

  /** When a try step fails and the second lookup and the error update go through, the
      record found first ends with status "error". It is the record with nothing but
      that status written over it: no processed URL and no error message are added. */
  lemma FailureMarksError(s: Store, ev: StorageEvent, fails: set<Step>, publicUrl: string -> string, now: int)
    requires IsProcessable(ev.name, ev.contentType) && ParsePath(ev.name).Some?
    requires FirstMatch(s.docs, ParsePath(ev.name).value.uid, ev.name).Some?
    requires TryFails(s, ev.name, fails)
    requires FindProjectAgain !in fails && MarkError !in fails
    ensures
      var i := FirstMatch(s.docs, ParsePath(ev.name).value.uid, ev.name).value;
      var r := Handle(s, ev, fails, publicUrl, now);
      && r.1 == MarkedError
      && |r.0.docs| == |s.docs|
      && r.0.docs[i] == s.docs[i].(fields := s.docs[i].fields + ErrorUpdate())
      && (ProcessedUrlField in r.0.docs[i].fields <==> ProcessedUrlField in s.docs[i].fields)
      && (ErrorField in r.0.docs[i].fields <==> ErrorField in s.docs[i].fields)
  {
    var t := ParsePath(ev.name).value;
    var path := ev.name;
    var i := FirstMatch(s.docs, t.uid, path).value;
    var (s1, e1) := IssueCall(s, FindByPath(t.uid, path), FindProject in fails);
    if !e1 {
      var (s2, e2) := IssueCall(s1, UpdateDoc(i, ProcessingUpdate()), MarkProcessing in fails);
      if !e2 {
        UpdateKeepsQuery(s1.(calls := s1.calls + [UpdateDoc(i, ProcessingUpdate())]), i, ProcessingUpdate(), t.uid, path);
        OverrideTwice(s.docs[i].fields, ProcessingUpdate(), ErrorUpdate());
      }
    }
  }

  /** How the records may evolve in one invocation whose query finds `m`: none is added
      or removed, each keeps its owner, id and storage path, and only the one at `m`
      may change otherwise. */
  predicate Evolves(a: seq<Doc>, b: seq<Doc>, m: Option<nat>) {
    && |a| == |b|
    && (forall k :: 0 <= k < |a| ==> SameIdentity(a[k], b[k]))
    && (forall k :: 0 <= k < |a| && m != Some(k) ==> b[k] == a[k])
  }

  predicate SameIdentity(d: Doc, e: Doc) {
    && d.owner == e.owner && d.id == e.id
    && (StoragePathField in d.fields <==> StoragePathField in e.fields)
    && (StoragePathField in d.fields ==> d.fields[StoragePathField] == e.fields[StoragePathField])
  }

  lemma EvolvesTransitive(a: seq<Doc>, b: seq<Doc>, c: seq<Doc>, m: Option<nat>)
    requires Evolves(a, b, m) && Evolves(b, c, m)
    ensures Evolves(a, c, m)
  {
  }

  /** Records that evolved this way answer the query as before. */
  lemma EvolvesKeepsQuery(a: seq<Doc>, b: seq<Doc>, m: Option<nat>, owner: string, path: string)
    requires Evolves(a, b, m)
    ensures FirstMatch(b, owner, path) == FirstMatch(a, owner, path)
  {
  }

  /** The try block evolves the records that way around the query's match. */
  lemma TryBlockEvolves(s: Store, path: string, t: Target, fails: set<Step>, publicUrl: string -> string, now: int)
    ensures Evolves(s.docs, TryBlock(s, path, t, fails, publicUrl, now).0.docs, FirstMatch(s.docs, t.uid, path))
  {
  }

  /** So does the catch block, around the match of its own query. */
  lemma CatchBlockEvolves(s: Store, path: string, uid: string, fails: set<Step>)
    ensures Evolves(s.docs, CatchBlock(s, path, uid, fails).0.docs, FirstMatch(s.docs, uid, path))
  {
  }

  /** Whatever fails, only the record the first query finds can change: no record is
      added or removed, every record keeps its owner, id and storage path, and every
      record but the match ends as it began. */
  lemma OnlyMatchedRecordChanges(s: Store, ev: StorageEvent, fails: set<Step>, publicUrl: string -> string, now: int)
    requires IsProcessable(ev.name, ev.contentType) && ParsePath(ev.name).Some?
    ensures
      Evolves(s.docs, Handle(s, ev, fails, publicUrl, now).0.docs, FirstMatch(s.docs, ParsePath(ev.name).value.uid, ev.name))
  {
    var t := ParsePath(ev.name).value;
    var m := FirstMatch(s.docs, t.uid, ev.name);
    var (s1, returned) := TryBlock(s, ev.name, t, fails, publicUrl, now);
    TryBlockEvolves(s, ev.name, t, fails, publicUrl, now);
    if returned.None? {
      EvolvesKeepsQuery(s.docs, s1.docs, m, t.uid, ev.name);
      CatchBlockEvolves(s1, ev.name, t.uid, fails);
      EvolvesTransitive(s.docs, s1.docs, CatchBlock(s1, ev.name, t.uid, fails).0.docs, m);
    }
  }

  /** The status values the function writes: "processing", "completed" and "error". */
  predicate WrittenStatus(f: Fields) {
    StatusField in f && f[StatusField] in {Text(ProcessingStatus), Text(CompletedStatus), Text(ErrorStatus)}
  }

  /** The calls an invocation adds to the log: the log only grows, and every record
      update in it sets a status that is not "pending". */
  predicate ExtendsWithStatusWrites(before: Store, after: Store) {
    && |before.calls| <= |after.calls| && after.calls[..|before.calls|] == before.calls
    && forall p :: |before.calls| <= p < |after.calls| && after.calls[p].UpdateDoc? ==> WrittenStatus(after.calls[p].update)
  }

  lemma ExtendsTransitive(a: Store, b: Store, c: Store)
    requires ExtendsWithStatusWrites(a, b) && ExtendsWithStatusWrites(b, c)
    ensures ExtendsWithStatusWrites(a, c)
  {
    assert c.calls[..|a.calls|] == c.calls[..|b.calls|][..|a.calls|];
    forall p | |a.calls| <= p < |c.calls| && c.calls[p].UpdateDoc? ensures WrittenStatus(c.calls[p].update) {
      if p < |b.calls| {
        assert c.calls[p] == c.calls[..|b.calls|][p] == b.calls[p];
      }
    }
  }

  /** Issuing one call extends the log by that call. */
  lemma IssueCallExtends(s: Store, c: Call, injected: bool)
    requires c.UpdateDoc? ==> WrittenStatus(c.update)
    ensures ExtendsWithStatusWrites(s, IssueCall(s, c, injected).0)
  {
    var r := IssueCall(s, c, injected).0;
    assert r.calls == s.calls + [c];
    assert r.calls[..|s.calls|] == s.calls;
  }

  /** The try block only appends to the log, and only forward status writes. */
  lemma TryBlockWritesForward(s: Store, path: string, t: Target, fails: set<Step>, publicUrl: string -> string, now: int)
    ensures ExtendsWithStatusWrites(s, TryBlock(s, path, t, fails, publicUrl, now).0)
  {
    var (s1, e1) := IssueCall(s, FindByPath(t.uid, path), FindProject in fails);
    IssueCallExtends(s, FindByPath(t.uid, path), FindProject in fails);
    if !e1 && FirstMatch(s1.docs, t.uid, path).Some? {
      var i := FirstMatch(s1.docs, t.uid, path).value;
      var (s2, e2) := IssueCall(s1, UpdateDoc(i, ProcessingUpdate()), MarkProcessing in fails);
      IssueCallExtends(s1, UpdateDoc(i, ProcessingUpdate()), MarkProcessing in fails);
      ExtendsTransitive(s, s1, s2);
      if !e2 {
        var dst := ResultPath(t.uid, t.fileName);
        var (s3, e3) := IssueCall(s2, CopyObject(path, dst), CopyResult in fails);
        IssueCallExtends(s2, CopyObject(path, dst), CopyResult in fails);
        ExtendsTransitive(s, s2, s3);
        if !e3 {
          var (s4, e4) := IssueCall(s3, MakePublic(dst), PublishResult in fails);
          IssueCallExtends(s3, MakePublic(dst), PublishResult in fails);
          ExtendsTransitive(s, s3, s4);
          if !e4 {
            var url := publicUrl(dst);
            IssueCallExtends(s4, UpdateDoc(i, CompletedUpdate(url, now)), MarkCompleted in fails);
            ExtendsTransitive(s, s4, IssueCall(s4, UpdateDoc(i, CompletedUpdate(url, now)), MarkCompleted in fails).0);
          }
        }
      }
    }
  }

  /** So does the catch block. */
  lemma CatchBlockWritesForward(s: Store, path: string, uid: string, fails: set<Step>)
    ensures ExtendsWithStatusWrites(s, CatchBlock(s, path, uid, fails).0)
  {
  }

  /** Every record update an invocation issues sets the status to "processing",
      "completed" or "error", never back to "pending"; earlier log entries stay. */
  lemma UpdatesSetForwardStatus(s: Store, ev: StorageEvent, fails: set<Step>, publicUrl: string -> string, now: int)
    ensures ExtendsWithStatusWrites(s, Handle(s, ev, fails, publicUrl, now).0)
  {
    if IsProcessable(ev.name, ev.contentType) && ParsePath(ev.name).Some? {
      var t := ParsePath(ev.name).value;
      var (s1, returned) := TryBlock(s, ev.name, t, fails, publicUrl, now);
      TryBlockWritesForward(s, ev.name, t, fails, publicUrl, now);
      if returned.None? {
        CatchBlockWritesForward(s1, ev.name, t.uid, fails);
        ExtendsTransitive(s, s1, CatchBlock(s1, ev.name, t.uid, fails).0);
      }
    }
  }

  /** The failure status is outside the front end's `ProjectStatus` enumeration and is
      refused by its update schema. */
  lemma ErrorStatusOutsideEnumeration(isUrl: string -> bool)
    ensures ErrorUpdate()[StatusField] == Text(ErrorStatus)
    ensures Domain.ParseStatus(ErrorStatus) == None
    ensures Validation.ProjectUpdateIssues(Validation.ProjectUpdate(Some(ErrorStatus), None, None), isUrl) != []
  {
    Domain.ErrorIsNotAProjectStatus();
    Validation.ErrorStatusRejected(None, None, isUrl);
  }

  /** End to end: an image the uploader stored at `users/{uid}/uploads/{fileId}_{name}`,
      with its "pending" record the first of the user's records with that path, ends
      completed with the public URL of `users/{uid}/results/{fileId}_{name}` when no
      step fails. */
  lemma UploadedImageCompletes(
    s: Store, i: nat, uid: string, fileId: string, name: string, docId: string, originalUrl: string,
    createdAt: int, contentType: string, bucket: string, fails: set<Step>, publicUrl: string -> string, now: int)
    requires uid != "" && Slash !in uid && Slash !in fileId && Slash !in name
    requires StartsWith(contentType, Domain.ImagePrefix)
    requires i < |s.docs|
    requires s.docs[i] == Doc(uid, docId, UploadRecord(UploadPath(uid, fileId, name), originalUrl, name, createdAt))
    requires forall k :: 0 <= k < i ==> !Matches(s.docs[k], uid, UploadPath(uid, fileId, name))
    requires !TryFails(s, UploadPath(uid, fileId, name), fails)
    ensures
      var path := UploadPath(uid, fileId, name);
      var url := publicUrl(ResultPath(uid, fileId + "_" + name));
      var r := Handle(s, StorageEvent(bucket, path, Some(contentType)), fails, publicUrl, now);
      && r.1 == Completed(url)
      && r.0.docs[i].fields[StatusField] == Text(CompletedStatus)
      && r.0.docs[i].fields[ProcessedUrlField] == Text(url)
      && r.0.docs[i].fields[StoragePathField] == Text(path)
  {
    var path := UploadPath(uid, fileId, name);
    var ev := StorageEvent(bucket, path, Some(contentType));
    UploadPathParses(uid, fileId, name);
    assert Matches(s.docs[i], uid, path);
    var m := FirstMatch(s.docs, uid, path);
    assert m.Some?;
    assert !(m.value < i) && !(i < m.value);
    SuccessCompletes(s, ev, fails, publicUrl, now);
  }
}
