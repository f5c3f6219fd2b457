/** The `fs` syscall object of api/fs.ts: directory listing with owners,
    `stat`, `readfile`, and a module-level table of open upload streams
    keyed by the path exactly as given (this module resolves nothing). */
module Fs {
  import opened Wrappers
  import opened Store

  /** `Owner.User`, the owner recorded for objects without owner metadata. */
  const OwnerUser := "user"

  /** What the module does to streams, the store and the error log, in order. */
  datatype FsEffect =
    | UploadStarted(path: string, size: nat, owner: string, stream: Writable)
    | Written(stream: Writable, data: Bytes)
    | StreamClosed(stream: Writable)
    | LoggedError(line: string)

  /** `readdir`: one file entry per object, owner defaulting to "user", then
      one directory entry per delimited prefix (kept in this order: `sort()`
      sees every entry as the same string). */
  function ReadDir(l: Listing): (entries: seq<FSEntry>)
    ensures |entries| == |l.objects| + |l.delimitedPrefixes|
    ensures forall i :: 0 <= i < |l.objects| ==>
      entries[i] == FSEntry(File, l.objects[i].key, Some(l.objects[i].size), Some(l.objects[i].uploaded),
                            Some(l.objects[i].owner.GetOr(OwnerUser)), None)
    ensures forall j :: 0 <= j < |l.delimitedPrefixes| ==>
      entries[|l.objects| + j] == DirEntry(l.delimitedPrefixes[j])
  {
    seq(|l.objects|, i requires 0 <= i < |l.objects| =>
      var obj := l.objects[i];
      FSEntry(File, obj.key, Some(obj.size), Some(obj.uploaded), Some(obj.owner.GetOr(OwnerUser)), None))
    + seq(|l.delimitedPrefixes|, j requires 0 <= j < |l.delimitedPrefixes| => DirEntry(l.delimitedPrefixes[j]))
  }

  /** Every file entry `readdir` produces has an owner. */
  lemma ReadDirFilesHaveOwners(l: Listing, k: nat)
    requires k < |ReadDir(l)|
    ensures ReadDir(l)[k].kind == File <==> k < |l.objects|
    ensures ReadDir(l)[k].kind == File ==> ReadDir(l)[k].owner.Some?
  {
    if k >= |l.objects| {
      assert ReadDir(l)[|l.objects| + (k - |l.objects|)] == DirEntry(l.delimitedPrefixes[k - |l.objects|]);
    }
  }

  /** `stat`: null when the head lookup finds nothing; otherwise a file
      entry whose owner is the metadata's, with no default. */
  function Stat(bucket: Bucket, path: string): (r: Option<FSEntry>)
    ensures r.None? <==> path !in bucket
    ensures r.Some? ==> r.value == FSEntry(File, bucket[path].key, Some(bucket[path].size),
                                           Some(bucket[path].uploaded), bucket[path].owner, None)
  {
    if path !in bucket then None
    else
      var obj := bucket[path];
      Some(FSEntry(File, obj.key, Some(obj.size), Some(obj.uploaded), obj.owner, None))
  }

  /** `stat` and `readdir` agree on an object except where its owner
      metadata is missing: `readdir` says "user", `stat` says nothing. */
  lemma StatAgreesWithReadDir(l: Listing, i: nat, bucket: Bucket)
    requires i < |l.objects|
    requires l.objects[i].key in bucket && bucket[l.objects[i].key] == l.objects[i]
    ensures Stat(bucket, l.objects[i].key).Some?
    ensures var s := Stat(bucket, l.objects[i].key).value; var e := ReadDir(l)[i];
      s.(owner := e.owner) == e
      && (l.objects[i].owner.Some? ==> s == e)
      && (l.objects[i].owner.None? ==> s.owner.None? && e.owner == Some(OwnerUser))
  {
  }

  datatype ReadResult = StreamResult(body: Body) | TextResult(text: string)

  /** `readfile`: null when there is no object or it has no body; otherwise
      the body stream when `stream` is set, else the text. */
  function ReadFile(bucket: Bucket, path: string, stream: bool): (r: Option<ReadResult>)
    ensures r.None? <==> path !in bucket || bucket[path].body.None?
    ensures r.Some? && stream ==> r.value == StreamResult(bucket[path].body.value)
    ensures r.Some? && !stream ==> r.value == TextResult(bucket[path].text)
  {
    if path !in bucket || bucket[path].body.None? then None
    else if stream then Some(StreamResult(bucket[path].body.value))
    else Some(TextResult(bucket[path].text))
  }

  /** The line the upload watcher logs when an upload fails. */
  function OpenErrorLine(name: string, message: string): string {
    "-- DURING OPEN --" + name + ": " + message
  }

  /** The module-level `openFileDescriptors` map with the effects issued
      through it. */
  class Descriptors {
    var open: map<string, Writable>
    var effects: seq<FsEffect>

    constructor ()
      ensures open == map[] && effects == []
    {
      open := map[];
      effects := [];
    }

    /** `fs.open`: registers the stream under the path as given and starts
        the upload with the owner as metadata. */
    method Open(path: string, size: nat, owner: string, stream: Writable)
      modifies this
      ensures open == old(open)[path := stream]
      ensures effects == old(effects) + [UploadStarted(path, size, owner, stream)]
    {
      open := open[path := stream];
      effects := effects + [UploadStarted(path, size, owner, stream)];
    }

    /** The watcher `fs.open` returns, once the upload settles: a failure
        (its error name and message) is logged, and in either case the entry
        for the path is deleted. */
    method UploadSettled(path: string, failure: Option<(string, string)>)
      modifies this
      ensures path !in open
      ensures open == old(open) - {path}
      ensures effects == old(effects) +
        if failure.Some? then [LoggedError(OpenErrorLine(failure.value.0, failure.value.1))] else []
    {
      if failure.Some? {
        effects := effects + [LoggedError(OpenErrorLine(failure.value.0, failure.value.1))];
      }
      open := open - {path};
    }

    /** `fs.close`: a no-op for an unknown path; otherwise closes that
        stream and deletes exactly that entry. */
    method Close(path: string)
      modifies this
      ensures path in old(open) ==>
        open == old(open) - {path} && effects == old(effects) + [StreamClosed(old(open)[path])]
      ensures path !in old(open) ==> open == old(open) && effects == old(effects)
    {
      if path !in open {
        return;
      }
      effects := effects + [StreamClosed(open[path])];
      open := open - {path};
    }

    /** `fs.writefile`: returns null (`written` false) and writes nothing
        when no stream is open for the path. */
    method WriteFile(path: string, data: Bytes) returns (written: bool)
      modifies this
      ensures open == old(open)
      ensures written <==> path in open
      ensures effects == if written then old(effects) + [Written(open[path], data)] else old(effects)
    {
      if path !in open {
        return false;
      }
      effects := effects + [Written(open[path], data)];
      written := true;
    }
  }

  /** A whole upload through the table: open, one write, close, settle.
      The write reaches the stream opened for the path, and afterwards no
      entry is left for it; a write after the close is refused. */
  method UploadOnce(path: string, size: nat, owner: string, stream: Writable, data: Bytes)
    returns (effects: seq<FsEffect>, late: bool, left: bool)
    ensures effects == [UploadStarted(path, size, owner, stream), Written(stream, data), StreamClosed(stream)]
    ensures !late && !left
  {
    var d := new Descriptors();
    d.Open(path, size, owner, stream);
    var w := d.WriteFile(path, data);
    d.Close(path);
    late := d.WriteFile(path, data);
    d.UploadSettled(path, None);
    effects := d.effects;
    left := path in d.open;
  }
}
