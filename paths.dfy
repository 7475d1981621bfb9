/** The pure part of the storage-triggered processing function: which finalized
    objects it handles, how it reads the owner and file name out of the object
    path, and where it puts the result. Also the path and the initial record the
    uploader produces, which are what the function expects to receive. */
module Paths {
  import opened Wrappers
  import opened JsString
  import Domain

  const Slash := '/'
  const UploadsMarker := "/uploads/"

  /** The event filter: the object path contains "/uploads/" and the object has a
      content type that starts with "image/". An absent content type is rejected. */
  predicate IsProcessable(path: string, contentType: Option<string>) {
    Includes(path, UploadsMarker) && contentType.Some? && StartsWith(contentType.value, Domain.ImagePrefix)
  }

  /** What the function reads out of an object path. */
  datatype Target = Target(uid: string, fileName: string)

  /** The owner is the second "/"-separated part, the file name the last; the function
      stops when the second part is missing or either is empty. */
  function ParsePath(path: string): (r: Option<Target>)
    ensures r.Some? <==>
      |Split(path, Slash)| >= 2 && Split(path, Slash)[1] != "" && Last(Split(path, Slash)) != ""
    ensures r.Some? ==> r.value.uid == Split(path, Slash)[1] && r.value.fileName == Last(Split(path, Slash))
    ensures r.Some? ==> Slash !in r.value.uid && Slash !in r.value.fileName
  {
    var parts := Split(path, Slash);
    SplitPartsFree(path, Slash);
    var uid := if |parts| >= 2 then parts[1] else "";
    var fileName := Last(parts);
    if uid == "" || fileName == "" then None else Some(Target(uid, fileName))
  }

  /** Where the processed copy is written. */
  function ResultPath(uid: string, fileName: string): string {
    "users/" + uid + "/results/" + fileName
  }

  /** The path the uploader gives an upload: `users/{uid}/uploads/{fileId}_{name}`. */
  function UploadPath(uid: string, fileId: string, name: string): string {
    "users/" + uid + "/uploads/" + fileId + "_" + name
  }

  /** The result path splits into its four parts when owner and file name have no slash. */
  lemma SplitResultPath(uid: string, fileName: string)
    requires Slash !in uid && Slash !in fileName
    ensures Split(ResultPath(uid, fileName), Slash) == ["users", uid, "results", fileName]
  {
    assert ResultPath(uid, fileName) == "users" + [Slash] + (uid + [Slash] + ("results" + [Slash] + fileName));
    SplitAfterSep("users", uid + [Slash] + ("results" + [Slash] + fileName), Slash);
    SplitAfterSep(uid, "results" + [Slash] + fileName, Slash);
    SplitAfterSep("results", fileName, Slash);
    SplitWithoutSep(fileName, Slash);
  }

  /** An uploaded object passes the path filter and parses back into the uploader's
      user id and the stored file name `{fileId}_{name}`, provided none of the three
      contains a slash and the user id is non-empty. */
  lemma UploadPathParses(uid: string, fileId: string, name: string)
    requires uid != ""
    requires Slash !in uid && Slash !in fileId && Slash !in name
    ensures Includes(UploadPath(uid, fileId, name), UploadsMarker)
    ensures ParsePath(UploadPath(uid, fileId, name)) == Some(Target(uid, fileId + "_" + name))
  {
    var file := fileId + "_" + name;
    assert Slash !in file by {
      forall k | 0 <= k < |file| ensures file[k] != Slash {
        if k < |fileId| { assert file[k] == fileId[k]; }
        else if k > |fileId| { assert file[k] == name[k - |fileId| - 1]; }
      }
    }
    var path := UploadPath(uid, fileId, name);
    assert path == ("users/" + uid) + UploadsMarker + file;
    IncludesInfix("users/" + uid, UploadsMarker, file);
    assert path == "users" + [Slash] + (uid + [Slash] + ("uploads" + [Slash] + file));
    SplitAfterSep("users", uid + [Slash] + ("uploads" + [Slash] + file), Slash);
    SplitAfterSep(uid, "uploads" + [Slash] + file, Slash);
    SplitAfterSep("uploads", file, Slash);
    SplitWithoutSep(file, Slash);
    assert Split(path, Slash) == ["users", uid, "uploads", file];
  }

  /** A parsed result path gives back the owner and file name it was built from. */
  lemma ResultPathParses(uid: string, fileName: string)
    requires uid != "" && fileName != ""
    requires Slash !in uid && Slash !in fileName
    ensures ParsePath(ResultPath(uid, fileName)) == Some(Target(uid, fileName))
  {
    SplitResultPath(uid, fileName);
  }

  /** Distinct parsed targets get distinct result paths, so one upload's result never
      overwrites another's. */
  lemma ResultPathInjective(a: Target, b: Target)
    requires Slash !in a.uid && Slash !in a.fileName
    requires Slash !in b.uid && Slash !in b.fileName
    requires ResultPath(a.uid, a.fileName) == ResultPath(b.uid, b.fileName)
    ensures a == b
  {
    SplitResultPath(a.uid, a.fileName);
    SplitResultPath(b.uid, b.fileName);
    var sa := Split(ResultPath(a.uid, a.fileName), Slash);
    assert sa[1] == a.uid && sa[1] == b.uid;
    assert sa[3] == a.fileName && sa[3] == b.fileName;
  }

  /** The written result does not itself pass the path filter (so finalizing it does
      not start another round of processing) unless the owner id is literally
      "uploads". */
  lemma ResultNotReprocessed(uid: string, fileName: string)
    requires Slash !in uid && Slash !in fileName
    requires uid != "uploads"
    ensures !Includes(ResultPath(uid, fileName), UploadsMarker)
  {
    if Includes(ResultPath(uid, fileName), UploadsMarker) {
      assert UploadsMarker == [Slash] + "uploads" + [Slash];
      IncludesDelimited(ResultPath(uid, fileName), "uploads", Slash);
      SplitResultPath(uid, fileName);
      assert false;
    }
  }
}
