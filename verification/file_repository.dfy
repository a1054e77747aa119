/** The repository of the `file` collection (src/database/repositories/fileRepository.ts). */
module FileRepository {
  import opened Wrappers
  import opened QueryUtils
  import opened FileModel
  import opened External
  import opened Database
  import Ordering

  /** A file as the API returns it: the stored record plus `downloadUrl`. */
  datatype FileView = FileView(file: File, downloadUrl: string)

  /**
   * `_mapRelationshipsAndFillDownloadUrl`: null stays null; otherwise the
   * public URL when it is a non-empty text, else the storage's URL for the
   * record's name and private URL. The schema has no `name`, so the storage is
   * always asked with an absent name.
   */
  function MapRelationshipsAndFillDownloadUrl(env: Env, record: Option<File>): (v: Option<FileView>)
    ensures v.None? <==> record.None?
    ensures v.Some? ==> v.value.file == record.value
    ensures v.Some? && record.value.publicUrl.Some? && record.value.publicUrl.value != "" ==>
      v.value.downloadUrl == record.value.publicUrl.value
    ensures v.Some? && (record.value.publicUrl.None? || record.value.publicUrl.value == "") ==>
      v.value.downloadUrl == env.storageDownloadUrl(None, record.value.privateUrl)
  {
    if record.None? then None
    else
      var f := record.value;
      var url := if f.publicUrl.Some? && f.publicUrl.value != "" then f.publicUrl.value
                 else env.storageDownloadUrl(None, f.privateUrl);
      Some(FileView(f, url))
  }

  /** The download URL of one file. */
  function DownloadUrlOf(env: Env, f: File): string {
    MapRelationshipsAndFillDownloadUrl(env, Some(f)).value.downloadUrl
  }

  /** A non-empty public URL is the download URL. */
  lemma PublicUrlIsPreferred(env: Env, f: File)
    requires f.publicUrl.Some? && f.publicUrl.value != ""
    ensures DownloadUrlOf(env, f) == f.publicUrl.value
  {
  }

  /**
   * Whatever name an upload supplied, a file without a public URL gets the
   * storage URL of an absent name and its private URL.
   */
  lemma StoredNameNeverReachesStorage(env: Env, id: Id, d: FileData, now: int)
    requires IsValidObjectId(id) && FileModel.Create(id, d, now).Ok?
    requires d.publicUrl.None? || d.publicUrl == Some("")
    ensures DownloadUrlOf(env, FileModel.Create(id, d, now).value) == env.storageDownloadUrl(None, d.privateUrl)
  {
  }

  /** What `cleanupForRelationships` is given: nothing, one populated file or an array of them. */
  datatype Attachments = NoAttachment | OneFile(file: File) | FileList(files: seq<File>)

  function AttachedFiles(a: Attachments): seq<File> {
    match a
    case NoAttachment => []
    case OneFile(f) => [f]
    case FileList(fs) => fs
  }

  /**
   * `cleanupForRelationships`: a falsy input is returned as is; a single file
   * is wrapped in a list; every file gains its download URL, in the same order.
   */
  function CleanupForRelationships(env: Env, a: Attachments): (r: Option<seq<FileView>>)
    ensures r.None? <==> a.NoAttachment?
    ensures r.Some? ==> |r.value| == |AttachedFiles(a)|
    ensures r.Some? ==> forall i :: 0 <= i < |r.value| ==>
      r.value[i].file == AttachedFiles(a)[i] && r.value[i].downloadUrl == DownloadUrlOf(env, AttachedFiles(a)[i])
  {
    if a.NoAttachment? then None
    else
      var fs := AttachedFiles(a);
      Some(seq(|fs|, i requires 0 <= i < |fs| => FileView(fs[i], DownloadUrlOf(env, fs[i]))))
  }

  /** An empty array is truthy: it gives an empty list, not null. */
  lemma EmptyListStaysList(env: Env)
    ensures CleanupForRelationships(env, FileList([])) == Some([])
  {
  }

  /** An element given to `filterIds`: null, an object with an `id`, or a raw id text. */
  datatype FileRef = NullRef | ObjectRef(id: string) | RawRef(text: string)

  /**
   * `file.id || file`: reading `id` of null is a TypeError; an object whose id
   * is empty stays an object, which cannot be cast to an ObjectId.
   */
  function RefKey(ref: FileRef): Result<string> {
    match ref
    case NullRef => Err(TypeError)
    case ObjectRef(id) => if id != "" then Ok(id) else Err(CastError)
    case RawRef(text) => Ok(text)
  }

  /** The keys of all refs, or the error the first bad one raises: TypeError during `map`, else CastError in `$in`. */
  function RefKeys(refs: seq<FileRef>): (r: Result<seq<string>>)
    ensures r.Ok? ==> |r.value| == |refs| && forall i :: 0 <= i < |refs| ==> RefKey(refs[i]) == Ok(r.value[i])
    ensures r.Ok? <==> forall i :: 0 <= i < |refs| ==> RefKey(refs[i]).Ok? && IsValidObjectId(RefKey(refs[i]).value)
    ensures r.Err? && (exists i :: 0 <= i < |refs| && refs[i].NullRef?) ==> r.error == TypeError
  {
    if exists i :: 0 <= i < |refs| && refs[i].NullRef? then Err(TypeError)
    else if forall i :: 0 <= i < |refs| ==> RefKey(refs[i]).Ok? && IsValidObjectId(RefKey(refs[i]).value) then
      Ok(seq(|refs|, i requires 0 <= i < |refs| => RefKey(refs[i]).value))
    else Err(CastError)
  }

  /** The ids `filterIds` answers with, as a set: the given keys that name a stored file. */
  function FilteredIds(files: map<Id, File>, keys: seq<string>): set<Id> {
    set id | id in files && id in keys
  }

  /**
   * `filterIds(files)`: `[]` for a missing or empty input; otherwise the ids of
   * the stored files among the given ones, once each, in store order.
   */
  method FilterIds(files: map<Id, File>, refs: Option<seq<FileRef>>) returns (r: Result<seq<Id>>)
    ensures refs.None? || refs.value == [] ==> r == Ok([])
    ensures refs.Some? && refs.value != [] ==> (r.Ok? <==> RefKeys(refs.value).Ok?)
    ensures refs.Some? && refs.value != [] && r.Err? ==> r == RefKeys(refs.value).PropagateFailure()
    ensures refs.Some? && refs.value != [] && r.Ok? ==>
      multiset(r.value) == multiset(FilteredIds(files, RefKeys(refs.value).value))
  {
    if refs.None? || refs.value == [] {
      return Ok([]);
    }
    var keys := RefKeys(refs.value);
    if keys.Err? {
      return keys.PropagateFailure();
    }
    var ids := Ordering.Enumerate(FilteredIds(files, keys.value));
    return Ok(ids);
  }

  /** Every id `filterIds` answers is a stored file that was asked for; none is repeated. */
  lemma FilterIdsAnswer(files: map<Id, File>, keys: seq<string>, ids: seq<Id>)
    requires multiset(ids) == multiset(FilteredIds(files, keys))
    ensures forall id :: id in ids <==> id in files && id in keys
    ensures forall i, j :: 0 <= i < j < |ids| ==> ids[i] != ids[j]
  {
    forall id ensures id in ids <==> id in files && id in keys {
      assert id in ids <==> id in multiset(ids);
    }
    forall x ensures multiset(ids)[x] <= 1 {
      assert x in FilteredIds(files, keys) || x !in FilteredIds(files, keys);
    }
    NoRepeats(ids);
  }

  /** A sequence in which nothing occurs twice has no two equal positions. */
  lemma {:induction false} NoRepeats(ids: seq<Id>)
    requires forall x :: multiset(ids)[x] <= 1
    ensures forall i, j :: 0 <= i < j < |ids| ==> ids[i] != ids[j]
  {
    if ids != [] {
      var rest := ids[1..];
      assert ids == [ids[0]] + rest;
      assert multiset(ids) == multiset{ids[0]} + multiset(rest);
      assert multiset(ids)[ids[0]] <= 1;
      assert multiset(ids)[ids[0]] == 1 + multiset(rest)[ids[0]];
      forall x ensures multiset(rest)[x] <= 1 {
        assert multiset(rest)[x] <= multiset(ids)[x];
      }
      NoRepeats(rest);
      forall i, j | 0 <= i < j < |ids| ensures ids[i] != ids[j] {
        if i == 0 {
          assert ids[j] == rest[j - 1] && rest[j - 1] in multiset(rest);
        } else {
          assert ids[i] == rest[i - 1] && ids[j] == rest[j - 1];
        }
      }
    }  }

  /** `filterId(file)`: the first element of `filterIds([file])`, or null. */
  method FilterId(files: map<Id, File>, ref: FileRef) returns (r: Result<Option<Id>>)
    ensures r.Err? <==> RefKey(ref).Err? || !IsValidObjectId(RefKey(ref).value)
    ensures r.Err? && ref.NullRef? ==> r.error == TypeError
    ensures r.Ok? ==> (r.value.Some? <==> RefKey(ref).value in files)
    ensures r.Ok? && r.value.Some? ==> r.value.value == RefKey(ref).value
  {
    var ids := FilterIds(files, Some([ref]));
    if ids.Err? {
      return Err(ids.error);
    }
    assert [ref][0] == ref;
    var key := RefKeys([ref]).value[0];
    assert RefKey(ref) == Ok(key);
    assert |RefKeys([ref]).value| == 1;
    assert RefKeys([ref]).value == [key];
    assert FilteredIds(files, [key]) == if key in files then {key} else {};
    if ids.value == [] {
      assert multiset(FilteredIds(files, [key])) == multiset{};
      assert key !in FilteredIds(files, [key]);
      return Ok(None);
    }
    assert ids.value[0] in multiset(ids.value);
    return Ok(Some(ids.value[0]));
  }

  /** `findById`: NotFound for an absent id, else the file with its download URL. */
  function FindById(env: Env, files: map<Id, File>, id: string): (r: Result<FileView>)
    ensures r.Ok? <==> FindOne(files, id).Ok?
    ensures r.Err? ==> r.error == FindOne(files, id).error
    ensures r.Ok? ==> r.value.file == files[id] && r.value.downloadUrl == DownloadUrlOf(env, files[id])
  {
    var record :- FindOne(files, id);
    Ok(MapRelationshipsAndFillDownloadUrl(env, Some(record)).value)
  }

  /** `create`: inserts the validated record under a new id and answers it re-read. */
  method Create(env: Env, db: Store, data: FileData, newId: Id, now: int) returns (r: Result<FileView>)
    requires db.Valid() && IsValidObjectId(newId) && newId !in db.files
    modifies db
    ensures db.Valid()
    ensures FileModel.Create(newId, data, now).Err? ==> r.Err? && db.Contents() == old(db.Contents())
    ensures FileModel.Create(newId, data, now).Ok? ==>
      db.Contents() == old(db.Contents()).(files := old(db.files)[newId := FileModel.Create(newId, data, now).value]) &&
      r == Ok(FileView(FileModel.Create(newId, data, now).value, DownloadUrlOf(env, FileModel.Create(newId, data, now).value)))
  {
    var record := FileModel.Create(newId, data, now);
    if record.Err? {
      return Err(record.error);
    }
    db.files := db.files[newId := record.value];
    r := FindById(env, db.files, newId);
  }

  /** `update`: no existence check before `updateOne`; the re-read raises NotFound for an absent id. */
  method Update(env: Env, db: Store, id: string, data: FileData) returns (r: Result<FileView>)
    requires db.Valid()
    modifies db
    ensures db.Valid()
    ensures id !in old(db.files) ==> db.Contents() == old(db.Contents()) && r.Err?
    ensures id in old(db.files) ==>
      db.Contents() == old(db.Contents()).(files := old(db.files)[id := FileModel.Update(old(db.files)[id], data)]) &&
      r == Ok(FileView(db.files[id], DownloadUrlOf(env, db.files[id])))
  {
    if id in db.files {
      db.files := db.files[id := FileModel.Update(db.files[id], data)];
    }
    r := FindById(env, db.files, id);
  }
}
