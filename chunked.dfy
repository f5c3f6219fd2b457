/** The chunked upload protocol the terminal's `uload` commands run over the
    agent connection: one `open` with the declared size, then for every
    value the file reader yields, that value cut into slices of at most
    16 KiB, each sent with a write call, then one `close` once the reader is
    done. Any agent call may throw; the model takes the index of the call
    that throws (if any) and its message, and stops there. */
module Chunked {
  import opened Wrappers

  /** `1024 * 16`. */
  const ChunkSize: nat := 16384

  /** One agent call; `name` is the RPC method the write goes to. */
  datatype Call<T> =
    | OpenCall(path: string, size: nat)
    | WriteCall(name: string, path: string, data: seq<T>)
    | CloseCall(path: string)

  /** The call at `index` is the one that throws, with `message`. */
  datatype CallFailure = CallFailure(index: nat, message: string)

  predicate FailsAt(failure: Option<CallFailure>, k: nat) {
    failure.Some? && failure.value.index == k
  }

  function Concat<T>(ss: seq<seq<T>>): seq<T> {
    if ss == [] then [] else ss[0] + Concat(ss[1..])
  }

  /** The slices the inner loop sends for one value, starting at `offset`:
      full 16 KiB slices while more than 16 KiB remain, then the rest
      (which may be exactly 16 KiB, or empty) in one last write. */
  function ChunksFrom<T>(v: seq<T>, offset: nat): seq<seq<T>>
    requires offset <= |v|
    decreases |v| - offset
  {
    if |v| - offset > ChunkSize then [v[offset..offset + ChunkSize]] + ChunksFrom(v, offset + ChunkSize)
    else [v[offset..]]
  }

  /** The slices join back into the rest of the value, there is at least
      one, and none exceeds 16 KiB. */
  lemma {:induction false} ChunksFromProperties<T>(v: seq<T>, offset: nat)
    requires offset <= |v|
    ensures Concat(ChunksFrom(v, offset)) == v[offset..]
    ensures |ChunksFrom(v, offset)| >= 1
    ensures forall k :: 0 <= k < |ChunksFrom(v, offset)| ==> |ChunksFrom(v, offset)[k]| <= ChunkSize
    decreases |v| - offset
  {
    var cs := ChunksFrom(v, offset);
    if |v| - offset > ChunkSize {
      ChunksFromProperties(v, offset + ChunkSize);
      assert cs[1..] == ChunksFrom(v, offset + ChunkSize);
      assert v[offset..] == v[offset..offset + ChunkSize] + v[offset + ChunkSize..];
      forall k | 0 <= k < |cs| ensures |cs[k]| <= ChunkSize {
        if k > 0 { assert cs[k] == cs[1..][k - 1]; }
      }
    } else {
      assert cs[1..] == [];
    }
  }

  function Writes<T>(name: string, path: string, chunks: seq<seq<T>>): (calls: seq<Call<T>>)
    ensures |calls| == |chunks|
  {
    if chunks == [] then [] else [WriteCall(name, path, chunks[0])] + Writes(name, path, chunks[1..])
  }

  /** Each chunk becomes one write call, in order. */
  lemma {:induction false} WritesAt<T>(name: string, path: string, chunks: seq<seq<T>>)
    ensures forall k :: 0 <= k < |chunks| ==> Writes(name, path, chunks)[k] == WriteCall(name, path, chunks[k])
  {
    if chunks != [] {
      WritesAt(name, path, chunks[1..]);
    }
  }

  /** The writes for all the values read, in order. */
  function ValueWrites<T>(name: string, path: string, values: seq<seq<T>>): seq<Call<T>> {
    if values == [] then [] else Writes(name, path, ChunksFrom(values[0], 0)) + ValueWrites(name, path, values[1..])
  }

  /** The whole exchange when no call throws. */
  function UploadCalls<T>(name: string, path: string, size: nat, values: seq<seq<T>>): seq<Call<T>> {
    [OpenCall(path, size)] + ValueWrites(name, path, values) + [CloseCall(path)]
  }

  /** Everything the write calls carry, in order. */
  function Payload<T>(calls: seq<Call<T>>): seq<T> {
    if calls == [] then []
    else Payload(calls[..|calls| - 1]) + (if calls[|calls| - 1].WriteCall? then calls[|calls| - 1].data else [])
  }

  lemma {:induction false} PayloadAppend<T>(a: seq<Call<T>>, b: seq<Call<T>>)
    ensures Payload(a + b) == Payload(a) + Payload(b)
    decreases |b|
  {
    if b != [] {
      var b' := b[..|b| - 1];
      PayloadAppend(a, b');
      assert (a + b)[..|a + b| - 1] == a + b';
    } else {
      assert a + b == a;
    }
  }

  lemma {:induction false} PayloadOfWrites<T>(name: string, path: string, chunks: seq<seq<T>>)
    ensures Payload(Writes(name, path, chunks)) == Concat(chunks)
  {
    if chunks != [] {
      PayloadOfWrites(name, path, chunks[1..]);
      PayloadAppend([WriteCall(name, path, chunks[0])], Writes(name, path, chunks[1..]));
      assert Payload([WriteCall(name, path, chunks[0])]) == Payload<T>([]) + chunks[0];
    }
  }

  /** What the writes carry, joined, is exactly what the reader yielded. */
  lemma {:induction false} UploadPayload<T>(name: string, path: string, size: nat, values: seq<seq<T>>)
    ensures Payload(ValueWrites(name, path, values)) == Concat(values)
    ensures Payload(UploadCalls(name, path, size, values)) == Concat(values)
  {
    if values != [] {
      UploadPayload(name, path, size, values[1..]);
      ChunksFromProperties(values[0], 0);
      PayloadOfWrites(name, path, ChunksFrom(values[0], 0));
      PayloadAppend(Writes(name, path, ChunksFrom(values[0], 0)), ValueWrites(name, path, values[1..]));
      assert values[0][0..] == values[0];
    }
    var vw := ValueWrites(name, path, values);
    PayloadAppend([OpenCall(path, size)], vw);
    var close: seq<Call<T>> := [CloseCall(path)];
    var open: seq<Call<T>> := [OpenCall(path, size)];
    PayloadAppend(open + vw, close);
    assert Payload(open) == Payload<T>([]);
  }

  /** Every write carries at most 16 KiB, and every value read gives at
      least one write. */
  lemma {:induction false} UploadWritesBounded<T>(name: string, path: string, values: seq<seq<T>>)
    ensures forall c :: c in ValueWrites(name, path, values) ==> c.WriteCall? && |c.data| <= ChunkSize
    ensures |ValueWrites(name, path, values)| >= |values|
  {
    if values != [] {
      UploadWritesBounded(name, path, values[1..]);
      ChunksFromProperties(values[0], 0);
      var w := Writes(name, path, ChunksFrom(values[0], 0));
      WritesAt(name, path, ChunksFrom(values[0], 0));
      forall c | c in w ensures c.WriteCall? && |c.data| <= ChunkSize {
        var k :| 0 <= k < |w| && w[k] == c;
      }
    }
  }

  /** Every write goes to the same RPC method and path. */
  lemma {:induction false} WritesNamed<T>(name: string, path: string, values: seq<seq<T>>, c: Call<T>)
    requires c in ValueWrites(name, path, values)
    ensures c.WriteCall? && c == WriteCall(name, path, c.data)
  {
    var w := Writes(name, path, ChunksFrom(values[0], 0));
    if c in w {
      WritesAt(name, path, ChunksFrom(values[0], 0));
      var k :| 0 <= k < |w| && w[k] == c;
    } else {
      WritesNamed(name, path, values[1..], c);
    }
  }

  /** Renaming the write method changes nothing but the name. */
  lemma {:induction false} RenamedWrites<T>(name: string, other: string, path: string, values: seq<seq<T>>)
    ensures |ValueWrites(name, path, values)| == |ValueWrites(other, path, values)|
    ensures forall k :: 0 <= k < |ValueWrites(name, path, values)| ==>
      ValueWrites(name, path, values)[k].WriteCall?
      && ValueWrites(other, path, values)[k] == WriteCall(other, path, ValueWrites(name, path, values)[k].data)
  {
    if values != [] {
      RenamedWrites(name, other, path, values[1..]);
      var cs := ChunksFrom(values[0], 0);
      WritesAt(name, path, cs);
      WritesAt(other, path, cs);
      var a := ValueWrites(name, path, values);
      var b := ValueWrites(other, path, values);
      forall k | 0 <= k < |a|
        ensures a[k].WriteCall? && b[k] == WriteCall(other, path, a[k].data)
      {
        if k >= |cs| {
          assert a[k] == ValueWrites(name, path, values[1..])[k - |cs|];
          assert b[k] == ValueWrites(other, path, values[1..])[k - |cs|];
        }
      }
    }
  }

  /** `open` comes first and only first, `close` last and only last. */
  lemma OpenFirstCloseLast<T>(name: string, path: string, size: nat, values: seq<seq<T>>)
    ensures var calls := UploadCalls(name, path, size, values);
      calls[0] == OpenCall(path, size) && calls[|calls| - 1] == CloseCall(path)
      && forall k :: 0 < k < |calls| - 1 ==> calls[k].WriteCall?
  {
    var calls := UploadCalls(name, path, size, values);
    UploadWritesBounded(name, path, values);
    forall k | 0 < k < |calls| - 1 ensures calls[k].WriteCall? {
      assert calls[k] == ValueWrites(name, path, values)[k - 1];
      assert calls[k] in ValueWrites(name, path, values);
    }
  }

  lemma ValueWritesStep<T>(name: string, path: string, values: seq<seq<T>>, i: nat)
    requires i < |values|
    ensures ValueWrites(name, path, values[i..])
      == Writes(name, path, ChunksFrom(values[i], 0)) + ValueWrites(name, path, values[i + 1..])
  {
    assert values[i..][1..] == values[i + 1..];
  }

  /** The next slice the inner loop sends from `offset`. */
  function NextChunk<T>(v: seq<T>, offset: nat): seq<T>
    requires offset <= |v|
  {
    if |v| - offset > ChunkSize then v[offset..offset + ChunkSize] else v[offset..]
  }

  lemma WritesStep<T>(name: string, path: string, v: seq<T>, offset: nat)
    requires offset <= |v|
    ensures Writes(name, path, ChunksFrom(v, offset))
      == [WriteCall(name, path, NextChunk(v, offset))]
         + (if |v| - offset > ChunkSize then Writes(name, path, ChunksFrom(v, offset + ChunkSize)) else [])
  {
    var cs := ChunksFrom(v, offset);
    if |v| - offset > ChunkSize {
      assert cs[1..] == ChunksFrom(v, offset + ChunkSize);
    } else {
      assert cs[1..] == [];
    }
  }

  lemma PrefixOf<T>(a: seq<T>, b: seq<T>, t: seq<T>)
    requires a + b == t
    ensures t[..|a|] == a
  {
  }

  lemma PrefixSlice<T>(a: seq<T>, b: seq<T>, t: seq<T>, n: nat)
    requires a + b == t && n <= |a|
    ensures t[..n] == a[..n]
  {
  }

  /** One more call adds its data, if it is a write, to the payload. */
  lemma PayloadSnoc<T>(calls: seq<Call<T>>, c: Call<T>)
    ensures Payload(calls + [c]) == Payload(calls) + (if c.WriteCall? then c.data else [])
  {
    assert (calls + [c])[..|calls|] == calls;
  }

  /** The calls still to come, split after the next slice's write. */
  lemma ChunkSent<T>(name: string, path: string, value: seq<T>, offset: nat, calls: seq<Call<T>>,
                     target: seq<Call<T>>)
    requires offset <= |value|
    requires calls + Writes(name, path, ChunksFrom(value, offset)) == target
    ensures var sent := calls + [WriteCall(name, path, NextChunk(value, offset))];
      if |value| - offset > ChunkSize then sent + Writes(name, path, ChunksFrom(value, offset + ChunkSize)) == target
      else sent + [] == target
  {
    WritesStep(name, path, value, offset);
  }

  /** The inner `while (true)` loop: the slices of one value, appended to
      the calls made so far; stops at the call that throws. */
  method SendValue<T>(name: string, path: string, value: seq<T>, calls0: seq<Call<T>>, total0: nat,
                      failure: Option<CallFailure>)
    returns (calls: seq<Call<T>>, total: nat, error: Option<string>)
    requires total0 == |Payload(calls0)|
    requires failure.None? || failure.value.index >= |calls0|
    ensures var target := calls0 + Writes(name, path, ChunksFrom(value, 0));
      if failure.Some? && failure.value.index < |target| then
        calls == target[..failure.value.index + 1] && error == Some(failure.value.message)
      else
        calls == target && error.None? && total == |Payload(calls)|
  {
    ghost var target := calls0 + Writes(name, path, ChunksFrom(value, 0));
    calls, total := calls0, total0;
    var offset := 0;
    while true
      invariant offset <= |value|
      invariant calls + Writes(name, path, ChunksFrom(value, offset)) == target
      invariant failure.None? || failure.value.index >= |calls|
      invariant total == |Payload(calls)|
      decreases |value| - offset
    {
      var more := |value| - offset > ChunkSize;
      var chunk := NextChunk(value, offset);
      ChunkSent(name, path, value, offset, calls, target);
      ghost var later := if more then Writes(name, path, ChunksFrom(value, offset + ChunkSize)) else [];
      PayloadSnoc(calls, WriteCall(name, path, chunk));
      calls := calls + [WriteCall(name, path, chunk)];
      total := total + |chunk|;
      if FailsAt(failure, |calls| - 1) {
        PrefixOf(calls, later, target);
        return calls, total, Some(failure.value.message);
      }
      if more {
        offset := offset + ChunkSize;
      } else {
        return calls, total, None;
      }
    }
  }

  /** The calls still to come, split after the next value's writes. */
  lemma NextValue<T>(name: string, path: string, values: seq<seq<T>>, i: nat, calls: seq<Call<T>>,
                     full: seq<Call<T>>)
    requires i < |values|
    requires calls + (ValueWrites(name, path, values[i..]) + [CloseCall(path)]) == full
    ensures (calls + Writes(name, path, ChunksFrom(values[i], 0)))
            + (ValueWrites(name, path, values[i + 1..]) + [CloseCall(path)]) == full
  {
    ValueWritesStep(name, path, values, i);
  }

  /** What one value's writes leave: the calls so far stop where the
      failure does, or else are followed by the calls still to come. */
  lemma AfterValue<T>(target: seq<Call<T>>, rest: seq<Call<T>>, full: seq<Call<T>>, calls: seq<Call<T>>,
                      failure: Option<CallFailure>, error: Option<string>)
    requires target + rest == full
    requires if failure.Some? && failure.value.index < |target| then
        calls == target[..failure.value.index + 1] && error == Some(failure.value.message)
      else
        calls == target && error.None?
    ensures error.Some? ==>
      failure.Some? && failure.value.index < |full|
      && calls == full[..failure.value.index + 1] && error == Some(failure.value.message)
    ensures error.None? ==> calls + rest == full && (failure.None? || failure.value.index >= |calls|)
  {
    if error.Some? {
      PrefixSlice(target, rest, full, failure.value.index + 1);
    }
  }

  /** The outer `while (true)` loop: read values until the reader is done,
      then close; `total` counts what the writes carried. */
  method Transfer<T>(name: string, path: string, size: nat, values: seq<seq<T>>, failure: Option<CallFailure>)
    returns (calls: seq<Call<T>>, total: nat, error: Option<string>)
    ensures var full := UploadCalls(name, path, size, values);
      if failure.Some? && failure.value.index < |full| then
        calls == full[..failure.value.index + 1] && error == Some(failure.value.message)
      else
        calls == full && error.None? && total == |Payload(calls)|
  {
    ghost var full := UploadCalls(name, path, size, values);
    total := 0;
    calls := [OpenCall(path, size)];
    assert calls + (ValueWrites(name, path, values[0..]) + [CloseCall(path)]) == full by {
      assert values[0..] == values;
    }
    if FailsAt(failure, 0) {
      return calls, total, Some(failure.value.message);
    }
    var i := 0;
    while i < |values|
      invariant 0 <= i <= |values|
      invariant calls + (ValueWrites(name, path, values[i..]) + [CloseCall(path)]) == full
      invariant failure.None? || failure.value.index >= |calls|
      invariant total == |Payload(calls)|
    {
      ghost var target := calls + Writes(name, path, ChunksFrom(values[i], 0));
      ghost var rest := ValueWrites(name, path, values[i + 1..]) + [CloseCall(path)];
      NextValue(name, path, values, i, calls, full);
      calls, total, error := SendValue(name, path, values[i], calls, total, failure);
      AfterValue(target, rest, full, calls, failure, error);
      if error.Some? {
        return;
      }
      i := i + 1;
    }
    assert values[i..] == [];
    assert calls + [CloseCall(path)] == full by {
      assert ValueWrites(name, path, values[i..]) + [CloseCall(path)] == [CloseCall(path)];
    }
    PayloadSnoc(calls, CloseCall(path));
    calls := calls + [CloseCall(path)];
    if FailsAt(failure, |calls| - 1) {
      return calls, total, Some(failure.value.message);
    }
    error := None;
  }
}
