/** The values exchanged with the object store and the file-system entries
    built from them (the `FSEntry` type shared by api/index.ts, api/fs.ts and
    the terminal commands). The store itself is external: a lookup is a
    `Bucket` map from key to object, and `list(prefix)` is a `Listing`
    supplied by the caller. Streams are opaque tokens. */
module Store {
  import opened Wrappers

  newtype byte = x: int | 0 <= x < 256

  type Bytes = seq<byte>

  /** An upload time, as the store reports it; only ever copied. */
  type Timestamp = nat

  /** A readable stream over an object's body: the chunks its reader yields. */
  datatype Body = Body(chunks: seq<Bytes>)

  /** The writable end of an upload stream. */
  datatype Writable = Writable(id: nat)

  /** One stored object as `get`/`head`/`list` describe it. */
  datatype StoredObject = StoredObject(
    key: string,
    size: nat,
    uploaded: Timestamp,
    owner: Option<string>,   // customMetadata.owner
    body: Option<Body>,
    text: string)            // what `obj.text()` resolves to

  type Bucket = map<string, StoredObject>

  /** The result of `list({ prefix, delimiter: "/" })`. */
  datatype Listing = Listing(objects: seq<StoredObject>, delimitedPrefixes: seq<string>)

  datatype Kind = File | Dir

  datatype FSEntry = FSEntry(
    kind: Kind,
    path: string,
    size: Option<nat>,
    ts: Option<Timestamp>,
    owner: Option<string>,
    content: Option<Body>)

  function DirEntry(prefix: string): FSEntry {
    FSEntry(Dir, prefix, None, None, None, None)
  }
}
