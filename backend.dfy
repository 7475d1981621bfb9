/** The storage-triggered processing function as it runs: an object holding the
    document store and the object store, whose handler issues its calls one after
    another and turns a thrown call into a jump to the catch block. Every call
    method and the handler are proved to leave the stores in the state module
    Pipeline computes, so the properties proved there hold of this object. */
module Backend {
  import opened Wrappers
  import opened Paths
  import opened Pipeline

  class Services {
    /** The project records of all users, in store (query) order. */
    var docs: seq<Doc>
    /** The bucket's objects by path. */
    var objects: map<string, StoredObject>
    /** The objects made publicly readable. */
    var publicPaths: set<string>
    /** Every call issued so far, in order. */
    ghost var calls: seq<Call>

    ghost function State(): Store
      reads this
    {
      Store(docs, objects, publicPaths, calls)
    }

    constructor (docs: seq<Doc>, objects: map<string, StoredObject>)
      ensures State() == Store(docs, objects, {}, [])
    {
      this.docs := docs;
      this.objects := objects;
      this.publicPaths := {};
      this.calls := [];
    }

    /** `projectsRef.where("storagePath", "==", path).limit(1).get()`: the first
        matching record, or a throw when `injected`. */
    method FindByStoragePath(owner: string, path: string, injected: bool) returns (threw: bool, found: Option<nat>)
      modifies this`calls
      ensures (State(), threw) == IssueCall(old(State()), FindByPath(owner, path), injected)
      ensures found == if threw then None else FirstMatch(docs, owner, path)
      ensures found.Some? ==> found.value < |docs|
    {
      calls := calls + [FindByPath(owner, path)];
      threw := injected;
      found := if threw then None else FirstMatch(docs, owner, path);
    }

    /** `doc.ref.update(fields)`: merge `fields` into record `i`. */
    method UpdateRecord(i: nat, fields: Fields, injected: bool) returns (threw: bool)
      modifies this`docs, this`calls
      ensures (State(), threw) == IssueCall(old(State()), UpdateDoc(i, fields), injected)
    {
      calls := calls + [UpdateDoc(i, fields)];
      threw := injected || i >= |docs|;
      if !threw {
        docs := docs[i := docs[i].(fields := docs[i].fields + fields)];
      }
    }

    /** `file.copy(destination)`: throws when the source object does not exist. */
    method Copy(source: string, destination: string, injected: bool) returns (threw: bool)
      modifies this`objects, this`calls
      ensures (State(), threw) == IssueCall(old(State()), CopyObject(source, destination), injected)
    {
      calls := calls + [CopyObject(source, destination)];
      threw := injected || source !in objects;
      if !threw {
        objects := objects[destination := objects[source]];
      }
    }

    /** `file.makePublic()`: throws when the object does not exist. */
    method Publish(path: string, injected: bool) returns (threw: bool)
      modifies this`publicPaths, this`calls
      ensures (State(), threw) == IssueCall(old(State()), MakePublic(path), injected)
    {
      calls := calls + [MakePublic(path)];
      threw := injected || path !in objects;
      if !threw {
        publicPaths := publicPaths + {path};
      }
    }

    /** The catch block: find the record again and mark it "error". */
    method RecordFailure(path: string, uid: string, fails: set<Step>) returns (outcome: Outcome)
      modifies this`docs, this`calls
      ensures (State(), outcome) == CatchBlock(old(State()), path, uid, fails)
    {
      var threw, found := FindByStoragePath(uid, path, FindProjectAgain in fails);
      if threw {
        return Escaped;
      }
      if found.None? {
        return ErrorNotRecorded;
      }
      threw := UpdateRecord(found.value, ErrorUpdate(), MarkError in fails);
      outcome := if threw then Escaped else MarkedError;
    }

    /** `generateProfessionalBackground`, run on one finalize event. */
    method OnObjectFinalized(ev: StorageEvent, fails: set<Step>, publicUrl: string -> string, now: int)
      returns (outcome: Outcome)
      modifies this
      ensures (State(), outcome) == Handle(old(State()), ev, fails, publicUrl, now)
    {
      var filePath := ev.name;
      if !IsProcessable(filePath, ev.contentType) {
        return Skipped;
      }
      var target := ParsePath(filePath);
      if target.None? {
        return Skipped;
      }
      var uid, fileName := target.value.uid, target.value.fileName;
      ghost var start := State();

      // try
      var threw, found := FindByStoragePath(uid, filePath, FindProject in fails);
      if !threw {
        if found.None? {
          return NoProject;
        }
        var i := found.value;
        threw := UpdateRecord(i, ProcessingUpdate(), MarkProcessing in fails);
        if !threw {
          var resultPath := ResultPath(uid, fileName);
          threw := Copy(filePath, resultPath, CopyResult in fails);
          if !threw {
            threw := Publish(resultPath, PublishResult in fails);
            if !threw {
              var processedUrl := publicUrl(resultPath);
              threw := UpdateRecord(i, CompletedUpdate(processedUrl, now), MarkCompleted in fails);
              if !threw {
                return Completed(processedUrl);
              }
            }
          }
        }
      }
      assert (State(), None) == TryBlock(start, filePath, target.value, fails, publicUrl, now);

      // catch
      outcome := RecordFailure(filePath, uid, fails);
    }
  }
}
