/**
 * The upload page's state: the list of picked files, the uploading flag, the
 * progress figure, the error line and where the router was sent. Picking,
 * removing and clearing files are pure list transforms applied to the list;
 * the upload handler uploads the files one by one and, when all succeed,
 * sends the browser to the success page with the comma-joined access ids.
 */
module Home {
  import opened Wrappers

  /** A file the user picked. */
  datatype LocalFile = LocalFile(name: string, size: int, fileType: string)

  // ---------------------------------------------------------------------
  // List transforms
  // ---------------------------------------------------------------------

  /** Adding files: a null file list changes nothing; otherwise the new files go after the old ones. */
  function Appended(files: seq<LocalFile>, newFiles: Option<seq<LocalFile>>): (r: seq<LocalFile>)
    ensures newFiles.None? ==> r == files
    ensures newFiles.Some? ==>
      |r| == |files| + |newFiles.value| && r[..|files|] == files && r[|files|..] == newFiles.value
  {
    if newFiles.None? then files else files + newFiles.value
  }

  /** The elements of `s` whose position, counted from `offset`, differs from `index` (a filter on the index). */
  function KeepOtherIndices<T>(s: seq<T>, index: int, offset: int): seq<T>
  {
    if s == [] then []
    else (if offset == index then [] else [s[0]]) + KeepOtherIndices(s[1..], index, offset + 1)
  }

  /**
   * The filter on the index: an index in range drops exactly that element and
   * keeps the others in order; an index outside the list changes nothing.
   */
  function RemovedAt<T>(s: seq<T>, index: int): (r: seq<T>)
    ensures 0 <= index < |s| ==> r == s[..index] + s[index + 1..]
    ensures 0 <= index < |s| ==>
      && |r| == |s| - 1
      && forall j :: 0 <= j < |s| - 1 ==> r[j] == s[if j < index then j else j + 1]
    ensures !(0 <= index < |s|) ==> r == s
  {
    KeepOtherIndicesSlices(s, index, 0);
    KeepOtherIndices(s, index, 0)
  }

  lemma {:induction false} KeepOtherIndicesSlices<T>(s: seq<T>, index: int, offset: int)
    ensures KeepOtherIndices(s, index, offset) ==
      if offset <= index < offset + |s| then s[..index - offset] + s[index - offset + 1..] else s
  {
    if s != [] {
      KeepOtherIndicesSlices(s[1..], index, offset + 1);
      if offset == index {
      } else if offset < index < offset + |s| {
        assert s[..index - offset] == [s[0]] + s[1..][..index - offset - 1];
        assert s[index - offset + 1..] == s[1..][index - offset..];
      } else {
        assert s == [s[0]] + s[1..];
      }
    }
  }

  // ---------------------------------------------------------------------
  // The ids hand-off
  // ---------------------------------------------------------------------

  /** The number of commas in a string. */
  function Commas(s: string): nat
  {
    if s == [] then 0 else (if s[0] == ',' then 1 else 0) + Commas(s[1..])
  }

  lemma {:induction false} CommasConcat(a: string, b: string)
    ensures Commas(a + b) == Commas(a) + Commas(b)
  {
    if a == [] {
      assert a + b == b;
    } else {
      assert (a + b)[0] == a[0] && (a + b)[1..] == a[1..] + b;
      CommasConcat(a[1..], b);
    }
  }

  lemma {:induction false} NoCommas(s: string)
    ensures Commas(s) == 0 <==> ',' !in s
  {
    if s != [] {
      NoCommas(s[1..]);
      assert s == [s[0]] + s[1..];
    }
  }

  /** Array join with ",": n comma-free parts give a string with n - 1 commas, one between each two parts. */
  function Join(parts: seq<string>): (joined: string)
    ensures |parts| >= 1 && (forall i :: 0 <= i < |parts| ==> ',' !in parts[i]) ==> Commas(joined) == |parts| - 1
  {
    if |parts| == 0 then ""
    else if |parts| == 1 then
      NoCommas(parts[0]);
      parts[0]
    else
      var rest := Join(parts[1..]);
      NoCommas(parts[0]);
      CommasConcat(parts[0] + ",", rest);
      CommasConcat(parts[0], ",");
      assert forall i :: 0 <= i < |parts| - 1 ==> parts[1..][i] == parts[i + 1];
      parts[0] + "," + rest
  }

  /** The shape of a client-side id: at most 16 characters of [0-9a-z] (a base-36 fraction's digits). */
  predicate IsClientId(id: string)
  {
    |id| <= 16 && forall i :: 0 <= i < |id| ==> ('0' <= id[i] <= '9') || ('a' <= id[i] <= 'z')
  }

  const SuccessPrefix := "/success?ids="

  function SuccessPath(ids: seq<string>): string
  {
    SuccessPrefix + Join(ids)
  }

  /** How the upload call for one file ends. */
  datatype UploadOutcome =
    | Uploaded
    | ThrewError(message: string)  // an Error object
    | ThrewOther                   // any other thrown value

  const NoSelectionError := "Please select at least one file"
  const GenericUploadError := "Upload failed"

  function ErrorText(o: UploadOutcome): string
  {
    match o
    case ThrewError(message) => message
    case _ => GenericUploadError
  }

  predicate AllUploaded(outcomes: seq<UploadOutcome>)
  {
    forall i :: 0 <= i < |outcomes| ==> outcomes[i] == Uploaded
  }

  /** The position of the first upload that throws. */
  function FirstFailure(outcomes: seq<UploadOutcome>): (k: nat)
    requires !AllUploaded(outcomes)
    ensures k < |outcomes| && outcomes[k] != Uploaded
    ensures forall j :: 0 <= j < k ==> outcomes[j] == Uploaded
  {
    if outcomes[0] != Uploaded then 0
    else
      assert !AllUploaded(outcomes[1..]) by {
        var i :| 0 <= i < |outcomes| && outcomes[i] != Uploaded;
        assert outcomes[1..][i - 1] == outcomes[i];
      }
      1 + FirstFailure(outcomes[1..])
  }

  // ---------------------------------------------------------------------
  // The page
  // ---------------------------------------------------------------------

  class HomePage {
    var files: seq<LocalFile>
    var uploading: bool
    var progress: int
    var error: Option<string>
    /** The last path the router was sent to. */
    var location: Option<string>

    constructor ()
      ensures files == [] && !uploading && progress == 0 && error == None && location == None
    {
      files, uploading, progress, error, location := [], false, 0, None, None;
    }

    /** Picking or dropping files; a non-null list also clears the error line. */
    method AddFiles(newFiles: Option<seq<LocalFile>>)
      modifies this
      ensures files == Appended(old(files), newFiles)
      ensures error == if newFiles.None? then old(error) else None
      ensures uploading == old(uploading) && progress == old(progress) && location == old(location)
    {
      if newFiles.None? {
        return;
      }
      files := files + newFiles.value;
      error := None;
    }

    method RemoveFile(index: int)
      modifies this`files
      ensures files == RemovedAt(old(files), index)
    {
      files := RemovedAt(files, index);
    }

    method ClearAll()
      modifies this`files
      ensures files == []
    {
      files := [];
    }

    /**
     * The upload handler. `accessIds[i]` is the id drawn for file i and
     * `outcomes[i]` how its upload ends. With no files it only sets the error
     * line. Otherwise it ends with `uploading` false and either sends the
     * browser to the success page with every id joined in upload order, or
     * shows the first failure's message with the progress reset.
     */
    method HandleUpload(accessIds: seq<string>, outcomes: seq<UploadOutcome>)
      requires |accessIds| == |files| && |outcomes| == |files|
      modifies this
      ensures files == old(files)
      ensures old(files) == [] ==>
        error == Some(NoSelectionError) &&
        uploading == old(uploading) && progress == old(progress) && location == old(location)
      ensures old(files) != [] ==> !uploading
      ensures old(files) != [] && AllUploaded(outcomes) ==>
        location == Some(SuccessPath(accessIds)) && progress == 100 && error == None
      ensures old(files) != [] && !AllUploaded(outcomes) ==>
        location == old(location) && progress == 0 &&
        error == Some(ErrorText(outcomes[FirstFailure(outcomes)]))
    {
      if |files| == 0 {
        error := Some(NoSelectionError);
        return;
      }
      uploading := true;
      progress := 0;
      error := None;
      var results: seq<string> := [];
      var i := 0;
      while i < |files|
        invariant 0 <= i <= |files| && files == old(files) && location == old(location)
        invariant results == accessIds[..i]
        invariant forall j :: 0 <= j < i ==> outcomes[j] == Uploaded
      {
        var accessId := accessIds[i];
        if outcomes[i] != Uploaded {
          error := Some(ErrorText(outcomes[i]));
          progress := 0;
          uploading := false;
          return;
        }
        results := results + [accessId];
        i := i + 1;
      }
      progress := 100;
      assert results == accessIds;
      location := Some(SuccessPath(results));
      uploading := false;
    }
  }
}
