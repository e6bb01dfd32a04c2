/** upload_file (app/api/upload.py): hands the uploaded file to save_file
    and turns its report into the HTTP response. */
module Upload {
  import opened Pandas
  import opened FileHandler

  /** The multipart file as the request carries it. */
  datatype UploadedFile = UploadedFile(filename: string, content: seq<byte>)

  /** A 200 with status "success", or an error status with status "error". */
  datatype UploadResponse =
    | Uploaded(filename: string, size: nat, message: string)
    | Rejected(status: nat, message: string)

  const NoFile := "No file received"
  const InvalidFile := "Unsupported or invalid file format"
  const Loaded := "File uploaded and dataframe loaded \U{2705}"

  /** The response for what save_file reported, or for no file at all. */
  function Respond(result: Option<SaveResult>): (r: UploadResponse)
    ensures r.Uploaded? <==> result.Some? && result.value.Saved?
    ensures r.Rejected? ==> r.status == 400
  {
    match result
    case None => Rejected(400, NoFile)
    case Some(NotSaved(_)) => Rejected(400, InvalidFile)
    case Some(Saved(name, size)) => Uploaded(name, size, Loaded)
  }

  /** Success exactly when save_file succeeded, echoing its filename and
      size; every failure is the same 400, whatever save_file's message. */
  lemma RespondMirrorsSave(result: SaveResult)
    ensures Respond(Some(result)).Uploaded? <==> result.Saved?
    ensures result.Saved? ==>
      Respond(Some(result)) == Uploaded(result.filename, result.size, Loaded)
    ensures result.NotSaved? ==> Respond(Some(result)) == Rejected(400, InvalidFile)
  {
  }

  /** upload_file: the store is only touched when a file came. */
  method UploadFile(store: DatasetStore, file: Option<UploadedFile>, lib: Library) returns (r: UploadResponse)
    requires store.Invariant() && Sound(lib)
    modifies store
    ensures store.Invariant()
    ensures file.None? ==> r == Rejected(400, NoFile) && store.current == old(store.current)
    ensures file.Some? ==>
      var (saved, slot) := Ingest(old(store.current), file.value.filename, file.value.content, lib);
      r == Respond(Some(saved)) && store.current == slot
  {
    if file.None? {
      return Rejected(400, NoFile);
    }
    var result := store.SaveFile(file.value.filename, file.value.content, lib);
    r := Respond(Some(result));
  }

  /** A successful upload reports the byte size of the content and leaves
      the derived table in the store; a failed one is a 400. */
  lemma UploadOutcome(slot: Option<Table>, f: UploadedFile, lib: Library)
    requires Sound(lib)
    ensures var (saved, after) := Ingest(slot, f.filename, f.content, lib);
      var r := Respond(Some(saved));
      && (r.Uploaded? ==> r.filename == f.filename && r.size == |f.content| && after.Some?)
      && (r.Rejected? ==> r.status == 400)
  {
  }
}
