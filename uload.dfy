/** The `uload` command: pick a local file and stream it to the agent at
    the given path with the chunked upload protocol. */
module UloadCommand {
  import opened Wrappers
  import opened Store
  import opened Chunked

  /** The usage line, which names `dload` as the source does. */
  const Usage := "Usage: dload [path/to/file]"
  /** The RPC method the command writes through. */
  const WriteName := "writefile"

  /** The picked file: its size and the values its stream reader yields. */
  datatype PickedFile = PickedFile(size: nat, values: seq<Bytes>)

  function ErrorLine(message: string): string {
    "uload error: " + message
  }

  /** Truthiness of the parsed `path` option: absent or empty is false. */
  predicate HasPath(path: Option<string>) {
    path.Some? && path.value != ""
  }

  /** `uload` with its parsed `path` option, the file picker's outcome (a
      rejection carries the thrown value's text) and the agent call that
      throws, if any. Returns the agent calls made and the lines written. */
  method Uload(hasTerm: bool, hasAgent: bool, path: Option<string>, picked: Result<PickedFile, string>,
               failure: Option<CallFailure>)
    returns (calls: seq<Call<byte>>, lines: seq<string>)
    ensures !hasTerm || !hasAgent ==> calls == [] && lines == []
    ensures hasTerm && hasAgent && !HasPath(path) ==> calls == [] && lines == [Usage]
    ensures hasTerm && hasAgent && HasPath(path) && picked.Failure? ==>
      calls == [] && lines == [ErrorLine(picked.error)]
    ensures hasTerm && hasAgent && HasPath(path) && picked.Success? ==>
      var full := UploadCalls(WriteName, path.value, picked.value.size, picked.value.values);
      if failure.Some? && failure.value.index < |full| then
        calls == full[..failure.value.index + 1] && lines == [ErrorLine(failure.value.message)]
      else
        calls == full && lines == []
  {
    calls, lines := [], [];
    if !hasTerm || !hasAgent {
      return;
    }
    if !HasPath(path) {
      lines := [Usage];
      return;
    }
    if picked.Failure? {
      lines := [ErrorLine(picked.error)];
      return;
    }
    var total, error;
    calls, total, error := Transfer(WriteName, path.value, picked.value.size, picked.value.values, failure);
    if error.Some? {
      lines := [ErrorLine(error.value)];
    }
  }

  /** A completed upload carries exactly the file's bytes, in chunks of at
      most 16 KiB, opened first and closed last. */
  lemma UploadDeliversFile(path: string, file: PickedFile)
    ensures var full := UploadCalls(WriteName, path, file.size, file.values);
      Payload(full) == Concat(file.values)
      && full[0] == OpenCall(path, file.size) && full[|full| - 1] == CloseCall(path)
      && forall k :: 0 < k < |full| - 1 ==> full[k].WriteCall? && full[k].name == WriteName
                                              && |full[k].data| <= ChunkSize
  {
    var full := UploadCalls(WriteName, path, file.size, file.values);
    UploadPayload(WriteName, path, file.size, file.values);
    OpenFirstCloseLast(WriteName, path, file.size, file.values);
    UploadWritesBounded(WriteName, path, file.values);
    forall k | 0 < k < |full| - 1
      ensures full[k].WriteCall? && full[k].name == WriteName && |full[k].data| <= ChunkSize
    {
      assert full[k] == ValueWrites(WriteName, path, file.values)[k - 1];
      assert full[k] in ValueWrites(WriteName, path, file.values);
      WritesNamed(WriteName, path, file.values, full[k]);
    }
  }
}
