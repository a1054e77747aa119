/** The `file` collection's schema. */
module FileModel {
  import opened Wrappers
  import opened QueryUtils
  import opened SchemaTypes

  datatype File = File(
    id: Id,
    title: string,
    sizeInBytes: Option<int>,
    privateUrl: Option<string>,
    publicUrl: Option<string>,
    createdAt: int)

  /** A create document; `name` is what the upload handler supplies but the schema lacks. */
  datatype FileData = FileData(
    title: Option<string>,
    name: Option<string>,
    sizeInBytes: Option<int>,
    privateUrl: Option<string>,
    publicUrl: Option<string>)

  /** title required and at most 255 long; privateUrl and publicUrl at most 2047. */
  predicate DataValidates(d: FileData) {
    IsPresent(d.title) && WithinLength(d.title, 255) &&
    WithinLength(d.privateUrl, 2047) && WithinLength(d.publicUrl, 2047)
  }

  predicate IsValid(f: File) {
    IsValidObjectId(f.id) && f.title != "" && |f.title| <= 255 &&
    WithinLength(f.privateUrl, 2047) && WithinLength(f.publicUrl, 2047)
  }

  /** `File.create([data])`: the undeclared `name` is dropped. */
  function Create(id: Id, d: FileData, now: int): (r: Result<File>)
    requires IsValidObjectId(id)
    ensures r.Ok? <==> DataValidates(d)
    ensures r.Err? ==> r.error == ValidationError
    ensures r.Ok? ==> IsValid(r.value) && r.value.id == id && r.value.createdAt == now
    ensures r.Ok? ==> r.value.title == d.title.value && r.value.privateUrl == d.privateUrl && r.value.publicUrl == d.publicUrl
  {
    if !DataValidates(d) then Err(ValidationError)
    else Ok(File(id, d.title.value, d.sizeInBytes, d.privateUrl, d.publicUrl, now))
  }

  /** `File.updateOne({_id}, data)`: no validators. */
  function Update(f: File, d: FileData): (u: File)
    ensures u.id == f.id && u.createdAt == f.createdAt
    ensures d.title.Some? ==> u.title == d.title.value
  {
    File(f.id, Overwrite(d.title, f.title), OverwriteOptional(d.sizeInBytes, f.sizeInBytes),
         OverwriteOptional(d.privateUrl, f.privateUrl), OverwriteOptional(d.publicUrl, f.publicUrl),
         f.createdAt)
  }

  /** Nothing of the supplied name survives a create. */
  lemma NameIsDropped(id: Id, d: FileData, now: int, name: Option<string>)
    requires IsValidObjectId(id)
    ensures Create(id, d.(name := name), now) == Create(id, d, now)
  {
  }

  /** An upload with an empty title is refused. */
  lemma EmptyTitleRefused(d: FileData)
    requires d.title == Some("")
    ensures !DataValidates(d)
  {
  }
}
