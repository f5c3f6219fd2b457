/** The editor's `saveFile`: the buffer's text is cut into slices of at
    most 16384 characters, each UTF-8 encoded and written to the agent
    between an `open` that declares the size and a `close`. The agent's
    `open` builds a fixed-length stream of exactly the declared size, so the
    declared size must count bytes, not characters (see `SaveFileAsWritten`
    and `SaveFile`). */
module Editor {
  import opened Wrappers
  import opened Store
  import opened Chunked

  const WriteName := "writefile"

  /** What `saveFile` logs: success, or the error it caught. */
  datatype LogLine = Saved | SaveFailed(error: string)

  /** `TextEncoder` on one character: its UTF-8 form. */
  function EncodeChar(c: char): (bs: Bytes)
    ensures 1 <= |bs| <= 4
    ensures |bs| == 1 <==> c as int < 0x80
  {
    var n := c as int;
    if n < 0x80 then [n as byte]
    else if n < 0x800 then [(0xC0 + n / 64) as byte, (0x80 + n % 64) as byte]
    else if n < 0x10000 then [(0xE0 + n / 4096) as byte, (0x80 + n / 64 % 64) as byte, (0x80 + n % 64) as byte]
    else [(0xF0 + n / 262144) as byte, (0x80 + n / 4096 % 64) as byte, (0x80 + n / 64 % 64) as byte,
          (0x80 + n % 64) as byte]
  }

  predicate IsAscii(s: string) {
    forall i :: 0 <= i < |s| ==> s[i] as int < 0x80
  }

  /** `TextEncoder.encode`: one to four bytes per character, one byte each
      exactly when the text is ASCII. */
  function Encode(s: string): (bs: Bytes)
    ensures |s| <= |bs| <= 4 * |s|
    ensures |bs| == |s| <==> IsAscii(s)
  {
    if s == [] then []
    else
      var rest := Encode(s[1..]);
      assert IsAscii(s) <==> s[0] as int < 0x80 && IsAscii(s[1..]) by {
        assert forall i :: 1 <= i < |s| ==> s[i] == s[1..][i - 1];
      }
      EncodeChar(s[0]) + rest
  }

  /** Encoding a concatenation encodes the parts, so cutting text into
      slices before encoding loses and adds nothing. */
  lemma {:induction false} EncodeAppend(a: string, b: string)
    ensures Encode(a + b) == Encode(a) + Encode(b)
  {
    if a == [] {
      assert a + b == b;
    } else {
      var ab := a + b;
      assert ab[0] == a[0];
      assert ab[1..] == a[1..] + b;
      EncodeAppend(a[1..], b);
      var head := EncodeChar(a[0]);
      calc {
        Encode(ab);
        head + Encode(a[1..] + b);
        head + (Encode(a[1..]) + Encode(b));
        (head + Encode(a[1..])) + Encode(b);
      }
    }
  }

  /** The encoding has one byte per character exactly when the text is
      ASCII, and more bytes than characters otherwise. */
  lemma {:induction false} EncodeLength(s: string)
    ensures |Encode(s)| >= |s|
    ensures |Encode(s)| == |s| <==> IsAscii(s)
  {
    if s != [] {
      EncodeLength(s[1..]);
      if IsAscii(s) {
        assert IsAscii(s[1..]) by {
          forall i | 0 <= i < |s[1..]| ensures s[1..][i] as int < 0x80 {
            assert s[1..][i] == s[i + 1];
          }
        }
      }
      if IsAscii(s[1..]) && s[0] as int < 0x80 {
        forall i | 0 <= i < |s| ensures s[i] as int < 0x80 {
          if i > 0 { assert s[i] == s[1..][i - 1]; }
        }
      }
    }
  }

  function Min(a: int, b: int): int {
    if a < b then a else b
  }

  /** The slices the loop takes from `total` on: `content.slice(total,
      total + 16384)` while `content.length > total`. */
  function Slices(content: string, total: nat): (ss: seq<string>)
    ensures ss == [] <==> |content| <= total
    ensures forall k :: 0 <= k < |ss| ==> 0 < |ss[k]| <= ChunkSize
    decreases |content| - total
  {
    if |content| > total then [content[total..Min(total + ChunkSize, |content|)]] + Slices(content, total + ChunkSize)
    else []
  }

  /** The slices are non-empty, at most 16384 characters long, there are
      as many as 16384-character blocks needed to cover the rest (none for
      an empty rest), and joined they give the rest back. */
  lemma {:induction false} SlicesProperties(content: string, total: nat)
    requires total <= |content|
    ensures Concat(Slices(content, total)) == content[total..]
    ensures |Slices(content, total)| == (|content| - total + ChunkSize - 1) / ChunkSize
    ensures forall k :: 0 <= k < |Slices(content, total)| ==> 0 < |Slices(content, total)[k]| <= ChunkSize
    decreases |content| - total
  {
    var ss := Slices(content, total);
    if |content| > total {
      if total + ChunkSize <= |content| {
        SlicesProperties(content, total + ChunkSize);
        assert content[total..] == content[total..total + ChunkSize] + content[total + ChunkSize..];
      } else {
        assert Slices(content, total + ChunkSize) == [];
      }
      assert ss[1..] == Slices(content, total + ChunkSize);
      forall k | 0 <= k < |ss| ensures 0 < |ss[k]| <= ChunkSize {
        if k > 0 { assert ss[k] == ss[1..][k - 1]; }
      }
    }
  }

  function EncodeEach(ss: seq<string>): (bs: seq<Bytes>)
    ensures |bs| == |ss|
  {
    if ss == [] then [] else [Encode(ss[0])] + EncodeEach(ss[1..])
  }

  lemma {:induction false} ConcatEncodeEach(ss: seq<string>)
    ensures Concat(EncodeEach(ss)) == Encode(Concat(ss))
  {
    if ss != [] {
      ConcatEncodeEach(ss[1..]);
      EncodeAppend(ss[0], Concat(ss[1..]));
    }
  }

  /** The whole exchange when no call throws. */
  function SaveCalls(path: string, size: nat, content: string): seq<Call<byte>> {
    [OpenCall(path, size)] + Writes(WriteName, path, EncodeEach(Slices(content, 0))) + [CloseCall(path)]
  }

  /** The writes carry the content's encoding; there is one write per
      started 16384-character block, none for empty content. */
  lemma SavedPayload(path: string, size: nat, content: string)
    ensures Payload(SaveCalls(path, size, content)) == Encode(content)
    ensures |SaveCalls(path, size, content)| == 2 + (|content| + ChunkSize - 1) / ChunkSize
    ensures content == "" ==> SaveCalls(path, size, content) == [OpenCall(path, size), CloseCall(path)]
  {
    var ss := Slices(content, 0);
    var w := Writes(WriteName, path, EncodeEach(ss));
    SlicesProperties(content, 0);
    assert content[0..] == content;
    PayloadOfWrites(WriteName, path, EncodeEach(ss));
    ConcatEncodeEach(ss);
    var open: seq<Call<byte>> := [OpenCall(path, size)];
    var close: seq<Call<byte>> := [CloseCall(path)];
    PayloadAppend(open, w);
    PayloadAppend(open + w, close);
    assert Payload(open) == [] by { assert open[..0] == []; }
    assert Payload(close) == [] by { assert close[..0] == []; }
  }

  lemma WritesStep(path: string, content: string, total: nat)
    requires |content| > total
    ensures Writes(WriteName, path, EncodeEach(Slices(content, total)))
      == [WriteCall(WriteName, path, Encode(content[total..Min(total + ChunkSize, |content|)]))]
         + Writes(WriteName, path, EncodeEach(Slices(content, total + ChunkSize)))
  {
    var ss := Slices(content, total);
    assert ss[1..] == Slices(content, total + ChunkSize);
    assert EncodeEach(ss)[1..] == EncodeEach(ss[1..]);
  }

  /** The `while` loop: one encoded write per slice, appended to the calls
      made so far; stops at the call that throws. */
  method WriteSlices(path: string, content: string, calls0: seq<Call<byte>>, failure: Option<CallFailure>)
    returns (calls: seq<Call<byte>>, error: Option<string>)
    requires failure.None? || failure.value.index >= |calls0|
    ensures var target := calls0 + Writes(WriteName, path, EncodeEach(Slices(content, 0)));
      if failure.Some? && failure.value.index < |target| then
        calls == target[..failure.value.index + 1] && error == Some(failure.value.message)
      else
        calls == target && error.None?
  {
    ghost var target := calls0 + Writes(WriteName, path, EncodeEach(Slices(content, 0)));
    calls := calls0;
    var total := 0;
    while |content| > total
      invariant calls + Writes(WriteName, path, EncodeEach(Slices(content, total))) == target
      invariant failure.None? || failure.value.index >= |calls|
      decreases |content| - total
    {
      var chunk := content[total..Min(total + ChunkSize, |content|)];
      WritesStep(path, content, total);
      ghost var later := Writes(WriteName, path, EncodeEach(Slices(content, total + ChunkSize)));
      calls := calls + [WriteCall(WriteName, path, Encode(chunk))];
      assert calls + later == target;
      if FailsAt(failure, |calls| - 1) {
        PrefixOf(calls, later, target);
        return calls, Some(failure.value.message);
      }
      total := total + ChunkSize;
    }
    assert calls == target;
    error := None;
  }

  /** The `try` block: open with the given size, the slices, close; a
      throwing call ends it with the error logged. */
  method WriteContent(path: string, size: nat, content: string, failure: Option<CallFailure>)
    returns (calls: seq<Call<byte>>, log: seq<LogLine>)
    ensures var full := SaveCalls(path, size, content);
      if failure.Some? && failure.value.index < |full| then
        calls == full[..failure.value.index + 1] && log == [SaveFailed(failure.value.message)]
      else
        calls == full && log == [Saved]
  {
    ghost var full := SaveCalls(path, size, content);
    var open: seq<Call<byte>> := [OpenCall(path, size)];
    var close: seq<Call<byte>> := [CloseCall(path)];
    ghost var target := open + Writes(WriteName, path, EncodeEach(Slices(content, 0)));
    assert full == target + close;
    if FailsAt(failure, 0) {
      PrefixOf(open, Writes(WriteName, path, EncodeEach(Slices(content, 0))) + close, full);
      return open, [SaveFailed(failure.value.message)];
    }
    var error;
    calls, error := WriteSlices(path, content, open, failure);
    if error.Some? {
      PrefixOf(target, close, full);
      assert full[..failure.value.index + 1] == target[..failure.value.index + 1];
      return calls, [SaveFailed(error.value)];
    }
    calls := calls + close;
    if FailsAt(failure, |calls| - 1) {
      return calls, [SaveFailed(failure.value.message)];
    }
    log := [Saved];
  }

  /** `saveFile` as written: the declared size is `content.length`, the
      number of characters. */
  method SaveFileAsWritten(hasEditor: bool, hasAgent: bool, path: string, content: string,
                           failure: Option<CallFailure>)
    returns (calls: seq<Call<byte>>, log: seq<LogLine>)
    ensures !(hasEditor && hasAgent) ==> calls == [] && log == []
    ensures hasEditor && hasAgent ==>
      var full := SaveCalls(path, |content|, content);
      if failure.Some? && failure.value.index < |full| then
        calls == full[..failure.value.index + 1] && log == [SaveFailed(failure.value.message)]
      else
        calls == full && log == [Saved]
  {
    if !(hasEditor && hasAgent) {
      return [], [];
    }
    calls, log := WriteContent(path, |content|, content, failure);
  }

  /** As written, the declared size matches the bytes sent only for ASCII
      text: for "é" it declares 1 and sends 2 bytes, which the agent's
      fixed-length stream refuses. */
  lemma AsWrittenSizeMismatch(path: string, content: string)
    ensures var full := SaveCalls(path, |content|, content);
      full[0].size == |Payload(full)| <==> IsAscii(content)
    ensures var full := SaveCalls(path, 1, "é");
      full[0].size == 1 && Payload(full) == [0xC3, 0xA9]
  {
    var full := SaveCalls(path, |content|, content);
    assert full[0].size == |Payload(full)| <==> IsAscii(content) by {
      assert full[0].size == |content|;
      SavedPayload(path, |content|, content);
      EncodeLength(content);
    }
    var example := SaveCalls(path, 1, "é");
    assert example[0].size == 1 && Payload(example) == [0xC3, 0xA9] by {
      SavedPayload(path, 1, "é");
      assert EncodeChar('é') == [0xC3, 0xA9];
      assert Encode("é") == EncodeChar('é') + Encode("");
    }
  }

  /** `saveFile` with the declared size counting the encoded bytes. */
  method SaveFile(hasEditor: bool, hasAgent: bool, path: string, content: string, failure: Option<CallFailure>)
    returns (calls: seq<Call<byte>>, log: seq<LogLine>)
    ensures !(hasEditor && hasAgent) ==> calls == [] && log == []
    ensures hasEditor && hasAgent ==>
      var full := SaveCalls(path, |Encode(content)|, content);
      if failure.Some? && failure.value.index < |full| then
        calls == full[..failure.value.index + 1] && log == [SaveFailed(failure.value.message)]
      else
        calls == full && log == [Saved]
  {
    if !(hasEditor && hasAgent) {
      return [], [];
    }
    calls, log := WriteContent(path, |Encode(content)|, content, failure);
  }

  /** With the corrected size, a completed save declares exactly the bytes
      it writes, and those bytes are the content's encoding. */
  lemma CorrectedSizeMatches(path: string, content: string)
    ensures var full := SaveCalls(path, |Encode(content)|, content);
      full[0] == OpenCall(path, |Payload(full)|) && Payload(full) == Encode(content)
  {
    SavedPayload(path, |Encode(content)|, content);
  }
}
