/**
 * The file-upload handler (src/api/file/upload.ts): the stored name and
 * extension of the uploaded file, the guards that refuse the upload, and
 * where the file is placed.
 */
module Upload {
  import opened Wrappers
  import opened QueryUtils
  import opened ServiceOptions

  // ---------------------------------------------------------------------
  // extractNameFrom and extractExtensionFrom
  // ---------------------------------------------------------------------

  /** `s.lastIndexOf(c)`: the last index of `c`, or -1. */
  function LastIndexOf(s: string, c: char): (i: int)
    ensures -1 <= i < |s|
    ensures i >= 0 ==> s[i] == c && forall j :: i < j < |s| ==> s[j] != c
    ensures i == -1 ==> forall j :: 0 <= j < |s| ==> s[j] != c
  {
    if s == [] then -1
    else if s[|s| - 1] == c then |s| - 1
    else LastIndexOf(s[..|s| - 1], c)
  }

  /**
   * `extractNameFrom(filename)`: null for a missing or empty name, else the
   * text before the last dot; `substring(0, -1)` is empty, so a name without
   * a dot gives the empty text.
   */
  function ExtractNameFrom(filename: Option<string>): (name: Option<string>)
    ensures name.None? <==> filename.None? || filename.value == ""
    ensures name.Some? && '.' !in filename.value ==> name.value == ""
    ensures name.Some? && '.' in filename.value ==>
      exists tail :: '.' !in tail && filename.value == name.value + "." + tail
  {
    if filename.None? || filename.value == "" then None
    else
      var s := filename.value;
      var dot := LastIndexOf(s, '.');
      if dot < 0 then Some("")
      else
        assert s == s[..dot] + "." + s[dot + 1..];
        Some(s[..dot])
  }

  /**
   * Where `/(?:\.([^.]+))?$/` captures its group: at a dot followed by a
   * non-empty run of non-dots up to the end.
   */
  predicate CapturesAt(s: string, i: int) {
    0 <= i < |s| - 1 && s[i] == '.' && forall j :: i < j < |s| ==> s[j] != '.'
  }

  /**
   * `extractExtensionFrom(filename)`: null for a missing or empty name. The
   * expression always matches (at the end, at worst), so `exec` is never
   * null; when the group is not captured, `exec[1].toLowerCase()` throws.
   */
  function ExtractExtensionFrom(filename: Option<string>): (r: Result<Option<string>>)
    ensures (filename.None? || filename.value == "") ==> r == Ok(None)
    ensures (filename.Some? && filename.value != "") ==>
      (r.Ok? <==> exists i :: CapturesAt(filename.value, i))
    ensures r.Err? ==> r.error == TypeError
    ensures r.Ok? && r.value.Some? ==>
      exists i :: CapturesAt(filename.value, i) && r.value.value == Lower(filename.value[i + 1..])
  {
    if filename.None? || filename.value == "" then Ok(None)
    else
      var s := filename.value;
      var dot := LastIndexOf(s, '.');
      if 0 <= dot < |s| - 1 then
        assert CapturesAt(s, dot);
        Ok(Some(Lower(s[dot + 1..])))
      else
        assert forall i :: !CapturesAt(s, i) by {
          forall i | 0 <= i < |s| - 1 && s[i] == '.' ensures exists j :: i < j < |s| && s[j] == '.' {
            assert s[|s| - 1] == '.';
          }
        }
        Err(TypeError)
  }

  /** A name with an extension is its name, a dot and its extension (before lower-casing). */
  lemma NameAndExtensionSplitTheFilename(filename: string, i: int)
    requires CapturesAt(filename, i)
    ensures ExtractNameFrom(Some(filename)) == Some(filename[..i])
    ensures ExtractExtensionFrom(Some(filename)) == Ok(Some(Lower(filename[i + 1..])))
    ensures filename == filename[..i] + "." + filename[i + 1..]
  {
    assert filename[i] == '.';
  }

  /** A name ending in a dot, or without one, has no extension: the handler throws on it. */
  lemma NoExtensionThrows(filename: string)
    requires filename != ""
    requires '.' !in filename || filename[|filename| - 1] == '.'
    ensures ExtractExtensionFrom(Some(filename)) == Err(TypeError)
  {
    if '.' !in filename {
      assert forall i :: 0 <= i < |filename| ==> filename[i] != '.';
    } else {
      assert filename[|filename| - 1] == '.';
    }
  }

  // ---------------------------------------------------------------------
  // privateUrl
  // ---------------------------------------------------------------------

  /** `pattern` occurs in `s` at index `i`. */
  predicate OccursAt(s: string, pattern: string, i: int) {
    0 <= i && i + |pattern| <= |s| && forall k :: 0 <= k < |pattern| ==> s[i + k] == pattern[k]
  }

  lemma OccursAtStart(s: string, pattern: string)
    requires |pattern| <= |s|
    ensures OccursAt(s, pattern, 0) <==> s[..|pattern|] == pattern
  {
    if OccursAt(s, pattern, 0) {
      assert forall k :: 0 <= k < |pattern| ==> s[..|pattern|][k] == pattern[k];
    }
  }

  /** `s.replace(pattern, replacement)` with a text pattern: only the first occurrence is replaced. */
  function ReplaceFirst(s: string, pattern: string, replacement: string): string
    requires pattern != ""
  {
    if |s| < |pattern| then s
    else if s[..|pattern|] == pattern then replacement + s[|pattern|..]
    else [s[0]] + ReplaceFirst(s[1..], pattern, replacement)
  }

  /** A text without the pattern is left unchanged. */
  lemma {:induction false} ReplaceFirstWithoutPattern(s: string, pattern: string, replacement: string)
    requires pattern != ""
    requires forall i :: !OccursAt(s, pattern, i)
    ensures ReplaceFirst(s, pattern, replacement) == s
    decreases |s|
  {
    if |s| >= |pattern| {
      OccursAtStart(s, pattern);
      forall i ensures !OccursAt(s[1..], pattern, i) {
        assert !OccursAt(s, pattern, i + 1);
      }
      ReplaceFirstWithoutPattern(s[1..], pattern, replacement);
    }
  }

  /** The pattern is replaced at its first occurrence, and nowhere else. */
  lemma {:induction false} ReplaceFirstAtFirstOccurrence(s: string, pattern: string, replacement: string, i: int)
    requires pattern != ""
    requires OccursAt(s, pattern, i) && forall j :: 0 <= j < i ==> !OccursAt(s, pattern, j)
    ensures ReplaceFirst(s, pattern, replacement) == s[..i] + replacement + s[i + |pattern|..]
    decreases i
  {
    OccursAtStart(s, pattern);
    if i > 0 {
      var t := s[1..];
      assert OccursAt(t, pattern, i - 1);
      forall j | 0 <= j < i - 1 ensures !OccursAt(t, pattern, j) {
        assert !OccursAt(s, pattern, j + 1);
      }
      ReplaceFirstAtFirstOccurrence(t, pattern, replacement, i - 1);
      assert s[..i] == [s[0]] + t[..i - 1];
      assert s[i + |pattern|..] == t[i - 1 + |pattern|..];
    }
  }

  // ---------------------------------------------------------------------
  // The handler
  // ---------------------------------------------------------------------

  /** `req.file`, as multer gives it. */
  datatype UploadedFile = UploadedFile(originalname: Option<string>, size: int)

  /** An entry of the storage table: destination folder, size limit, public read, bypass of the storage permission. */
  datatype StorageConfig = StorageConfig(folder: string, maxSizeInBytes: Option<int>, publicRead: bool,
                                         bypassWritingPermissions: bool)

  datatype UploadRequest = UploadRequest(storageId: string, file: Option<UploadedFile>, currentUser: Option<CurrentUser>)

  /** The arguments of `FileStorage.upload(file, privateUrl, filename, publicRead, maxSizeInBytes)`. */
  datatype Placement = Placement(privateUrl: string, filename: string, publicRead: bool, maxSizeInBytes: Option<int>)

  /** The data of the file record the handler asks the file service to create. */
  datatype FileRecordData = FileRecordData(title: Option<string>, name: Option<string>, sizeInBytes: int,
                                           privateUrl: string, downloadUrl: string, uploaderId: string)

  const UserIdPlaceholder := ":userId"

  /** `${fileId}.${extension}`: a missing extension is written `null`. */
  function StoredFilename(fileId: string, extension: Option<string>): string {
    fileId + "." + (if extension.Some? then extension.value else "null")
  }

  /**
   * The handler up to the storage write: the extension is extracted before
   * any guard, then Forbidden for a missing current user (or id), for an
   * unknown storage id, and for a destination whose storage permission the
   * caller lacks unless the destination bypasses it. `storage` is the
   * storage table and `hasStorage` the permission checker's answer.
   */
  function Place(req: UploadRequest, fileId: string, storage: map<string, StorageConfig>,
                 hasStorage: string -> bool): (r: Result<Placement>)
    ensures req.file.None? ==> r == Err(TypeError)
    ensures req.file.Some? && ExtractExtensionFrom(req.file.value.originalname).Err? ==> r == Err(TypeError)
    ensures (req.file.Some? && ExtractExtensionFrom(req.file.value.originalname).Ok? &&
             (req.currentUser.None? || req.currentUser.value.id == "")) ==> r == Err(Forbidden)
    ensures (req.file.Some? && ExtractExtensionFrom(req.file.value.originalname).Ok? &&
             req.currentUser.Some? && req.currentUser.value.id != "" && req.storageId !in storage) ==> r == Err(Forbidden)
    ensures r.Ok? <==>
      (req.file.Some? && ExtractExtensionFrom(req.file.value.originalname).Ok? &&
       req.currentUser.Some? && req.currentUser.value.id != "" && req.storageId in storage &&
       (storage[req.storageId].bypassWritingPermissions || hasStorage(req.storageId)))
    ensures r.Err? ==> r.error == TypeError || r.error == Forbidden
    ensures r.Ok? ==>
      (var filename := StoredFilename(fileId, ExtractExtensionFrom(req.file.value.originalname).value);
       var config := storage[req.storageId];
       r.value == Placement(ReplaceFirst(config.folder + "/" + filename, UserIdPlaceholder, req.currentUser.value.id),
                            filename, config.publicRead, config.maxSizeInBytes))
  {
    if req.file.None? then Err(TypeError)
    else
      var extension :- ExtractExtensionFrom(req.file.value.originalname);
      var filename := StoredFilename(fileId, extension);
      if req.currentUser.None? || req.currentUser.value.id == "" then Err(Forbidden)
      else if req.storageId !in storage then Err(Forbidden)
      else
        var config := storage[req.storageId];
        if !config.bypassWritingPermissions && !hasStorage(req.storageId) then Err(Forbidden)
        else
          var privateUrl := ReplaceFirst(config.folder + "/" + filename, UserIdPlaceholder, req.currentUser.value.id);
          Ok(Placement(privateUrl, filename, config.publicRead, config.maxSizeInBytes))
  }

  /**
   * The whole handler: the placement, the storage write (`upload`, the file
   * storage's answer: the download URL or its error), and the data of the
   * file record.
   */
  function Handle(req: UploadRequest, fileId: string, storage: map<string, StorageConfig>, hasStorage: string -> bool,
                  upload: Placement -> Result<string>): (r: Result<FileRecordData>)
    ensures Place(req, fileId, storage, hasStorage).Err? ==> r == Place(req, fileId, storage, hasStorage).PropagateFailure()
    ensures Place(req, fileId, storage, hasStorage).Ok? ==>
      (var placement := Place(req, fileId, storage, hasStorage).value;
       (upload(placement).Err? ==> r == upload(placement).PropagateFailure()) &&
       (upload(placement).Ok? ==>
          r == Ok(FileRecordData(ExtractNameFrom(req.file.value.originalname), req.file.value.originalname,
                                 req.file.value.size, placement.privateUrl, upload(placement).value,
                                 req.currentUser.value.id))))
  {
    var placement :- Place(req, fileId, storage, hasStorage);
    var downloadUrl :- upload(placement);
    Ok(FileRecordData(ExtractNameFrom(req.file.value.originalname), req.file.value.originalname,
                      req.file.value.size, placement.privateUrl, downloadUrl, req.currentUser.value.id))
  }

  /**
   * The private URL is the destination folder, with its first `:userId`
   * replaced by the caller's id, then a slash and the stored name.
   */
  lemma PrivateUrlNamesTheCallersFolder(folder: string, filename: string, userId: string, i: int)
    requires OccursAt(folder, UserIdPlaceholder, i)
    requires forall j :: 0 <= j < i ==> !OccursAt(folder, UserIdPlaceholder, j)
    ensures ReplaceFirst(folder + "/" + filename, UserIdPlaceholder, userId) ==
      folder[..i] + userId + folder[i + |UserIdPlaceholder|..] + "/" + filename
  {
    var s := folder + "/" + filename;
    var n := |UserIdPlaceholder|;
    assert OccursAt(s, UserIdPlaceholder, i);
    forall j | 0 <= j < i ensures !OccursAt(s, UserIdPlaceholder, j) {
      assert !OccursAt(folder, UserIdPlaceholder, j);
    }
    ReplaceFirstAtFirstOccurrence(s, UserIdPlaceholder, userId, i);
    assert s[..i] == folder[..i];
    assert s[i + n..] == folder[i + n..] + "/" + filename;
  }

  /** A folder without `:userId` is used as it is. */
  lemma FolderWithoutPlaceholder(folder: string, filename: string, userId: string)
    requires forall j :: !OccursAt(folder + "/" + filename, UserIdPlaceholder, j)
    ensures ReplaceFirst(folder + "/" + filename, UserIdPlaceholder, userId) == folder + "/" + filename
  {
    ReplaceFirstWithoutPattern(folder + "/" + filename, UserIdPlaceholder, userId);
  }
}
