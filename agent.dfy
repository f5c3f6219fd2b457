/** The `Quorra` agent of api/index.ts: its persisted state (the current
    directory), path resolution, directory listing, `cd`, and the table of
    open upload streams driven by `open`, `writeFile` and `close`. */
module Agent {
  import opened Wrappers
  import opened JsStrings
  import opened Store

  /** What the agent does to streams and the store, in order. */
  datatype StoreEffect =
    | UploadStarted(path: string, size: nat, stream: Writable)  // put(absPath, readable end)
    | Written(stream: Writable, data: Bytes)
    | StreamClosed(stream: Writable)

  /** A message sent back on a streaming call. */
  datatype StreamMsg = Send(chunk: Bytes) | End

  /** A directory path as the agent keeps it: absolute, with a trailing "/". */
  predicate IsDirectory(p: string) {
    StartsWith(p, "/") && EndsWith(p, "/")
  }

  /** `toAbsolutePath`: an absolute path is kept, anything else is appended
      to the current directory with no separator added. */
  function ToAbsolutePath(cwd: string, path: string): (r: string)
    ensures StartsWith(path, "/") ==> r == path
    ensures !StartsWith(path, "/") ==> r == cwd + path
  {
    if StartsWith(path, "/") then path else cwd + path
  }

  /** Resolving against an absolute directory always gives an absolute path,
      and resolving again changes nothing. */
  lemma AbsolutePathProperties(cwd: string, path: string)
    requires StartsWith(cwd, "/")
    ensures StartsWith(ToAbsolutePath(cwd, path), "/")
    ensures ToAbsolutePath(cwd, ToAbsolutePath(cwd, path)) == ToAbsolutePath(cwd, path)
  {
    if !StartsWith(path, "/") {
      assert (cwd + path)[..1] == cwd[..1];
    }
  }

  /** The directory `cd` moves to: the resolved path, with "/" appended when
      it does not already end with one. */
  function CdTarget(cwd: string, arg: string): (r: string)
    ensures r == ToAbsolutePath(cwd, arg) || r == ToAbsolutePath(cwd, arg) + "/"
    ensures EndsWith(r, "/")
    ensures EndsWith(ToAbsolutePath(cwd, arg), "/") ==> r == ToAbsolutePath(cwd, arg)
  {
    var p := ToAbsolutePath(cwd, arg);
    if EndsWith(p, "/") then p else (EndsWithConcat(p, "/"); p + "/")
  }

  lemma CdTargetIsDirectory(cwd: string, arg: string)
    requires StartsWith(cwd, "/")
    ensures IsDirectory(CdTarget(cwd, arg))
  {
    var p := ToAbsolutePath(cwd, arg);
    AbsolutePathProperties(cwd, arg);
    if !EndsWith(p, "/") {
      assert (p + "/")[..1] == p[..1];
    }
  }

  function FileEntry(obj: StoredObject): FSEntry {
    FSEntry(File, obj.key, Some(obj.size), Some(obj.uploaded), None, None)
  }

  /** `listDir`: one file entry per stored object, then one directory entry
      per delimited prefix. (`entries.sort()` compares every entry as the
      same string "[object Object]", so it keeps this order.) */
  function ListDir(l: Listing): (entries: seq<FSEntry>)
    ensures |entries| == |l.objects| + |l.delimitedPrefixes|
    ensures forall i :: 0 <= i < |l.objects| ==>
      entries[i].kind == File && entries[i].path == l.objects[i].key
      && entries[i].size == Some(l.objects[i].size) && entries[i].ts == Some(l.objects[i].uploaded)
      && entries[i].content.None?
    ensures forall j :: 0 <= j < |l.delimitedPrefixes| ==>
      entries[|l.objects| + j] == DirEntry(l.delimitedPrefixes[j])
  {
    seq(|l.objects|, i requires 0 <= i < |l.objects| => FileEntry(l.objects[i]))
    + seq(|l.delimitedPrefixes|, j requires 0 <= j < |l.delimitedPrefixes| => DirEntry(l.delimitedPrefixes[j]))
  }

  /** `getFile`: null when the store has no object at the path; otherwise a
      file entry, which carries the body only when not `headOnly`. */
  function GetFile(bucket: Bucket, path: string, headOnly: bool): (r: Option<FSEntry>)
    ensures r.None? <==> path !in bucket
    ensures r.Some? ==> (r.value.kind == File && r.value.path == bucket[path].key
      && r.value.size == Some(bucket[path].size) && r.value.ts == Some(bucket[path].uploaded))
    ensures r.Some? ==> r.value.content == if headOnly then None else bucket[path].body
  {
    if path !in bucket then None
    else
      var obj := bucket[path];
      Some(FSEntry(File, obj.key, Some(obj.size), Some(obj.uploaded), None,
                   if headOnly then None else obj.body))
  }

  class Quorra {
    /** Whether the agent has persisted state; `cwd` is meaningful only then. */
    var hasState: bool
    var cwd: string
    /** The module-level `openFileDescriptors` map, keyed by absolute path. */
    var descriptors: map<string, Writable>
    /** Everything done to streams and the store so far. */
    var effects: seq<StoreEffect>

    ghost predicate Valid()
      reads this
    {
      hasState ==> IsDirectory(cwd)
    }

    /** An agent woken with the state it saved earlier, if any. */
    constructor (saved: Option<string>)
      requires saved.Some? ==> IsDirectory(saved.value)
      ensures Valid()
      ensures hasState == saved.Some? && (saved.Some? ==> cwd == saved.value)
      ensures descriptors == map[] && effects == []
    {
      hasState := saved.Some?;
      cwd := saved.GetOr("");
      descriptors := map[];
      effects := [];
    }

    /** `onStart`: with no saved state the directory becomes "/". */
    method OnStart()
      requires Valid()
      modifies this
      ensures Valid() && hasState
      ensures cwd == if old(hasState) then old(cwd) else "/"
      ensures descriptors == old(descriptors) && effects == old(effects)
    {
      if !hasState {
        hasState := true;
        cwd := "/";
      }
    }

    /** `open`: registers the new stream under the absolute path and starts
        the upload of its readable end. */
    method Open(path: string, size: nat, stream: Writable)
      requires Valid() && hasState
      modifies this
      ensures Valid() && hasState && cwd == old(cwd)
      ensures descriptors == old(descriptors)[ToAbsolutePath(cwd, path) := stream]
      ensures effects == old(effects) + [UploadStarted(ToAbsolutePath(cwd, path), size, stream)]
    {
      var absPath := ToAbsolutePath(cwd, path);
      descriptors := descriptors[absPath := stream];
      effects := effects + [UploadStarted(absPath, size, stream)];
    }

    /** `close`: a no-op for a path with no open stream; otherwise closes
        that stream and forgets exactly that entry. */
    method Close(path: string)
      requires Valid() && hasState
      modifies this
      ensures Valid() && hasState && cwd == old(cwd)
      ensures var absPath := ToAbsolutePath(cwd, path);
        if absPath in old(descriptors) then
          descriptors == old(descriptors) - {absPath}
          && effects == old(effects) + [StreamClosed(old(descriptors)[absPath])]
        else
          descriptors == old(descriptors) && effects == old(effects)
    {
      var absPath := ToAbsolutePath(cwd, path);
      if absPath !in descriptors {
        return;
      }
      effects := effects + [StreamClosed(descriptors[absPath])];
      descriptors := descriptors - {absPath};
    }

    /** `writeFile`: with no open stream for the absolute path it returns
        null (`written` false) and writes nothing; otherwise the data goes
        to that stream. */
    method WriteFile(path: string, data: Bytes) returns (written: bool)
      requires Valid() && hasState
      modifies this
      ensures Valid() && hasState && cwd == old(cwd) && descriptors == old(descriptors)
      ensures written <==> ToAbsolutePath(cwd, path) in descriptors
      ensures effects == if written then old(effects) + [Written(descriptors[ToAbsolutePath(cwd, path)], data)]
                         else old(effects)
    {
      var absPath := ToAbsolutePath(cwd, path);
      if absPath !in descriptors {
        return false;
      }
      effects := effects + [Written(descriptors[absPath], data)];
      written := true;
    }

    /** `ls`: lists the current directory, or the resolved first argument. */
    method Ls(args: seq<string>, list: string -> Listing) returns (entries: seq<FSEntry>)
      requires Valid() && hasState
      ensures entries == ListDir(list(if |args| > 0 then ToAbsolutePath(cwd, args[0]) else cwd))
    {
      var dirPath := if |args| > 0 then ToAbsolutePath(cwd, args[0]) else cwd;
      entries := ListDir(list(dirPath));
    }

    /** `cd`: needs exactly one argument and a target whose listing is not
        empty; then the directory becomes the normalised target, which is
        returned. In every other case nothing changes and nothing is
        returned. */
    method Cd(args: seq<string>, list: string -> Listing) returns (r: Option<string>)
      requires Valid() && hasState
      modifies this
      ensures Valid() && hasState
      ensures descriptors == old(descriptors) && effects == old(effects)
      ensures |args| != 1 ==> r.None? && cwd == old(cwd)
      ensures |args| == 1 ==>
        var target := CdTarget(old(cwd), args[0]);
        if |ListDir(list(target))| > 0 then r == Some(target) && cwd == target
        else r.None? && cwd == old(cwd)
    {
      if |args| != 1 {
        return None;
      }
      var newCwd := CdTarget(cwd, args[0]);
      CdTargetIsDirectory(cwd, args[0]);
      var dir := ListDir(list(newCwd));
      if |dir| > 0 {
        cwd := newCwd;
        return Some(newCwd);
      }
      r := None;
    }

    /** `cat`: with no argument or no such object nothing is sent; otherwise
        every chunk of the body is sent in order, then the stream is ended.
        An object without a body makes `entry.content!.getReader()` throw. */
    method Cat(args: seq<string>, bucket: Bucket) returns (r: Result<seq<StreamMsg>, string>)
      requires Valid() && hasState
      ensures |args| == 0 || ToAbsolutePath(cwd, args[0]) !in bucket ==> r == Success([])
      ensures |args| > 0 && ToAbsolutePath(cwd, args[0]) in bucket ==>
        var obj := bucket[ToAbsolutePath(cwd, args[0])];
        if obj.body.None? then r.Failure?
        else (r.Success? && |r.value| == |obj.body.value.chunks| + 1
          && (forall i :: 0 <= i < |obj.body.value.chunks| ==> r.value[i] == Send(obj.body.value.chunks[i]))
          && r.value[|r.value| - 1] == End)
    {
      if |args| == 0 {
        return Success([]);
      }
      var entry := GetFile(bucket, ToAbsolutePath(cwd, args[0]), false);
      if entry.None? {
        return Success([]);
      }
      if entry.value.content.None? {
        return Failure("TypeError: cannot read properties of undefined (reading 'getReader')");
      }
      var chunks := entry.value.content.value.chunks;
      var sent: seq<StreamMsg> := [];
      var i := 0;
      while i < |chunks|
        invariant 0 <= i <= |chunks|
        invariant |sent| == i
        invariant forall k :: 0 <= k < i ==> sent[k] == Send(chunks[k])
      {
        sent := sent + [Send(chunks[i])];
        i := i + 1;
      }
      r := Success(sent + [End]);
    }

    /** `file`: the head-only entry for the resolved first argument. */
    method File(args: seq<string>, bucket: Bucket) returns (r: Option<FSEntry>)
      requires Valid() && hasState
      ensures |args| == 0 ==> r.None?
      ensures |args| > 0 ==> (r.Some? <==> ToAbsolutePath(cwd, args[0]) in bucket)
      ensures r.Some? ==> r.value.content.None? && r.value.kind.File?
      ensures |args| > 0 ==> r == GetFile(bucket, ToAbsolutePath(cwd, args[0]), true)
    {
      if |args| == 0 {
        return None;
      }
      r := GetFile(bucket, ToAbsolutePath(cwd, args[0]), true);
    }
  }

  /** Starting with no saved state and then issuing any `cd` keeps the
      current directory absolute with a trailing "/". */
  method StartThenCd(args: seq<string>, list: string -> Listing) returns (cwd: string)
    ensures IsDirectory(cwd)
    ensures |args| != 1 ==> cwd == "/"
  {
    var q := new Quorra(None);
    q.OnStart();
    assert q.cwd == "/";
    var _ := q.Cd(args, list);
    cwd := q.cwd;
  }
}
