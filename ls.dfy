/** The `ls` command of src/system/commands/ls.ts: which directory it asks
    for, how it names and owns each entry, which entries it hides, and how
    the long listing pads its columns. Timestamps are formatted by a
    function supplied from outside (`formatTimestamp` reads the clock and
    the locale). */
module LsCommand {
  import opened Wrappers
  import opened JsStrings
  import opened Store
  import opened Ansi

  datatype LsOptions = LsOptions(path: Option<string>, long: bool, all: bool)

  /** The column widths of a long listing. */
  datatype Widths = Widths(owner: nat, size: nat, ts: nat)

  /** The directory asked for: the path option, else the current directory,
      else "/"; always with a trailing "/". */
  function RequestPath(path: Option<string>, cwd: Option<string>): (r: string)
    ensures EndsWith(r, "/")
    ensures var base := if path.Some? && path.value != "" then path.value else cwd.GetOr("/");
      r == base || r == base + "/"
    ensures path.Some? && path.value != "" && EndsWith(path.value, "/") ==> r == path.value
    ensures var base := if path.Some? && path.value != "" then path.value else cwd.GetOr("/");
      EndsWith(base, "/") ==> r == base
  {
    var base := if path.Some? && path.value != "" then path.value else cwd.GetOr("/");
    if EndsWith(base, "/") then base else (EndsWithConcat(base, "/"); base + "/")
  }

  /** `parseOwner`: "user" stands for the session's user name. */
  function ParseOwner(owner: string, username: string): (r: string)
    ensures owner == "user" ==> r == username
    ensures owner != "user" ==> r == owner
  {
    if owner == "user" then username else owner
  }

  /** The owner shown for an entry; an entry without one counts as "user". */
  function OwnerOf(e: FSEntry, username: string): string {
    ParseOwner(e.owner.GetOr("user"), username)
  }

  /** `parseName`: the last path segment of a file, the one before last of
      a directory; undefined when the path has too few segments. */
  function ParseName(e: FSEntry): (r: Option<string>)
    ensures r.Some? ==> '/' !in r.value
    ensures e.kind == File ==> r.Some?
  {
    var parts := Split(e.path, '/');
    var k := |parts| - (if e.kind == File then 1 else 2);
    if k < 0 then None else SplitPiecesLackSeparator(e.path, '/'); Some(parts[k])
  }

  /** A file `d + n` is named `n`, and a directory `d + n + "/"` is named
      `n`, whenever `d` ends with "/" and `n` has no "/". */
  lemma {:induction false} ParseNameOfChild(d: string, n: string, ts: Option<Timestamp>, size: Option<nat>, owner: Option<string>)
    requires EndsWith(d, "/") && '/' !in n
    ensures ParseName(FSEntry(File, d + n, size, ts, owner, None)) == Some(n)
    ensures ParseName(FSEntry(Dir, d + n + "/", None, None, None, None)) == Some(n)
  {
    var d' := d[..|d| - 1];
    assert d == d' + "/";
    SplitConcat(d', '/', n);
    SplitWithoutSeparator(n, '/');
    assert d + n == d' + ['/'] + n;
    SplitConcat(d' + ['/'] + n, '/', "");
    assert d + n + "/" == (d' + ['/'] + n) + ['/'] + "";
    assert Split("", '/') == [""];
  }

  predicate AllNamed(entries: seq<FSEntry>) {
    forall i :: 0 <= i < |entries| ==> ParseName(entries[i]).Some?
  }

  function NameOf(e: FSEntry): string
    requires ParseName(e).Some?
  {
    ParseName(e).value
  }

  /** Names starting with "." are shown only with `all`. */
  predicate Shown(e: FSEntry, all: bool)
    requires ParseName(e).Some?
  {
    all || !StartsWith(NameOf(e), ".")
  }

  /** The name as displayed: directories start bold. */
  function Display(e: FSEntry): string
    requires ParseName(e).Some?
  {
    if e.kind == File then NameOf(e) else Bold + NameOf(e)
  }

  function SizeText(e: FSEntry): string {
    if e.size.Some? then DecimalString(e.size.value) else "-"
  }

  function TimeText(e: FSEntry, format: Timestamp -> string): string {
    if e.ts.Some? then format(e.ts.value) else "-"
  }

  /** Each width is the longest text of its column over all entries, hidden
      ones included. With no entries `Math.max()` gives -Infinity where this
      gives 0; no line is padded then, so nothing shown depends on it. */
  function ColumnWidths(entries: seq<FSEntry>, username: string, format: Timestamp -> string): (w: Widths)
    ensures forall i :: 0 <= i < |entries| ==>
      |OwnerOf(entries[i], username)| <= w.owner && |SizeText(entries[i])| <= w.size
      && |TimeText(entries[i], format)| <= w.ts
    ensures entries != [] ==> exists i :: 0 <= i < |entries| && |OwnerOf(entries[i], username)| == w.owner
    ensures entries != [] ==> exists i :: 0 <= i < |entries| && |SizeText(entries[i])| == w.size
    ensures entries != [] ==> exists i :: 0 <= i < |entries| && |TimeText(entries[i], format)| == w.ts
    ensures entries == [] ==> w == Widths(0, 0, 0)
  {
    var owners := seq(|entries|, i requires 0 <= i < |entries| => OwnerOf(entries[i], username));
    var sizes := seq(|entries|, i requires 0 <= i < |entries| => SizeText(entries[i]));
    var times := seq(|entries|, i requires 0 <= i < |entries| => TimeText(entries[i], format));
    assert forall i :: 0 <= i < |entries| ==>
      owners[i] == OwnerOf(entries[i], username) && sizes[i] == SizeText(entries[i])
      && times[i] == TimeText(entries[i], format);
    Widths(MaxLength(owners), MaxLength(sizes), MaxLength(times))
  }

  /** Every field of every entry fits its column, so padding brings each
      owner and each size to exactly the column width: owners end in
      spaces, sizes start with them. */
  lemma ColumnsAlign(entries: seq<FSEntry>, username: string, format: Timestamp -> string, i: nat)
    requires i < |entries|
    ensures var w := ColumnWidths(entries, username, format);
      var o := PadEnd(OwnerOf(entries[i], username), w.owner);
      var s := PadStart(SizeText(entries[i]), w.size);
      |o| == w.owner && StartsWith(o, OwnerOf(entries[i], username))
      && |s| == w.size && EndsWith(s, SizeText(entries[i]))
      && |PadEnd(TimeText(entries[i], format), w.ts)| == w.ts
  {
    var owners := seq(|entries|, k requires 0 <= k < |entries| => OwnerOf(entries[k], username));
    var sizes := seq(|entries|, k requires 0 <= k < |entries| => SizeText(entries[k]));
    var times := seq(|entries|, k requires 0 <= k < |entries| => TimeText(entries[k], format));
    assert owners[i] == OwnerOf(entries[i], username);
    assert sizes[i] == SizeText(entries[i]);
    assert times[i] == TimeText(entries[i], format);
  }

  /** One line of the long listing: owner, size, time and name, separated
      by two spaces. */
  function LongLine(e: FSEntry, w: Widths, username: string, format: Timestamp -> string): string
    requires ParseName(e).Some?
  {
    Join([PadEnd(OwnerOf(e, username), w.owner), PadStart(SizeText(e), w.size),
          PadEnd(TimeText(e, format), w.ts), Display(e)], "  ")
  }

  /** The long listing's lines, one per shown entry, in order. */
  function LongLines(entries: seq<FSEntry>, all: bool, w: Widths, username: string, format: Timestamp -> string)
    : seq<string>
    requires AllNamed(entries)
  {
    if entries == [] then []
    else
      var last := entries[|entries| - 1];
      LongLines(entries[..|entries| - 1], all, w, username, format)
      + (if Shown(last, all) then [Stdout(LongLine(last, w, username, format))] else [])
  }

  /** The short listing's single line: each shown name followed by a tab. */
  function ShortLine(entries: seq<FSEntry>, all: bool): string
    requires AllNamed(entries)
  {
    if entries == [] then ""
    else
      var last := entries[|entries| - 1];
      ShortLine(entries[..|entries| - 1], all) + (if Shown(last, all) then Display(last) + "\t" else "")
  }

  /** `sub` keeps some of the elements of `s`, in their order. */
  predicate SubsequenceOf<T(==)>(sub: seq<T>, s: seq<T>)
    decreases |s|
  {
    sub == [] || (s != [] && ((sub[|sub| - 1] == s[|s| - 1] && SubsequenceOf(sub[..|sub| - 1], s[..|s| - 1]))
                              || SubsequenceOf(sub, s[..|s| - 1])))
  }

  /** The entries that are shown: exactly those, kept in order. */
  function ShownEntries(entries: seq<FSEntry>, all: bool): (r: seq<FSEntry>)
    requires AllNamed(entries)
    ensures AllNamed(r)
    ensures forall i :: 0 <= i < |r| ==> Shown(r[i], all)
    ensures forall i :: 0 <= i < |entries| && Shown(entries[i], all) ==> entries[i] in r
    ensures SubsequenceOf(r, entries)
  {
    if entries == [] then []
    else
      var init := entries[..|entries| - 1];
      var s := ShownEntries(init, all);
      FilterStep(entries, all, s);
      s + (if Shown(entries[|entries| - 1], all) then [entries[|entries| - 1]] else [])
  }

  /** A shown entry is kept as many times as it occurs. */
  lemma {:induction false} ShownEntriesKeepsCount(entries: seq<FSEntry>, all: bool, e: FSEntry)
    requires AllNamed(entries) && ParseName(e).Some? && Shown(e, all)
    ensures multiset(ShownEntries(entries, all))[e] == multiset(entries)[e]
  {
    if entries != [] {
      var init := entries[..|entries| - 1];
      var last := entries[|entries| - 1];
      PrefixNamed(entries, |entries| - 1);
      var kept := ShownEntries(init, all);
      var tail := if Shown(last, all) then [last] else [];
      assert ShownEntries(entries, all) == kept + tail;
      ShownEntriesKeepsCount(init, all, e);
      CountSplitsLast(entries, e);
      if !Shown(last, all) {
        assert last != e;
        assert multiset([last])[e] == 0;
      }
      assert multiset(kept + tail) == multiset(kept) + multiset(tail);
    }
  }

  /** A count over a sequence is the count over all but its last element,
      plus the last one's. */
  lemma CountSplitsLast<T>(s: seq<T>, x: T)
    requires s != []
    ensures multiset(s)[x] == multiset(s[..|s| - 1])[x] + multiset([s[|s| - 1]])[x]
  {
    assert s == s[..|s| - 1] + [s[|s| - 1]];
  }

  /** One more entry: kept exactly when it is shown. */
  lemma FilterStep(entries: seq<FSEntry>, all: bool, s: seq<FSEntry>)
    requires AllNamed(entries) && entries != []
    requires AllNamed(s) && forall i :: 0 <= i < |s| ==> Shown(s[i], all)
    requires var init := entries[..|entries| - 1];
      (forall i :: 0 <= i < |init| && ParseName(init[i]).Some? && Shown(init[i], all) ==> init[i] in s)
      && SubsequenceOf(s, init)
    ensures var last := entries[|entries| - 1];
      var r := s + (if Shown(last, all) then [last] else []);
      AllNamed(r) && (forall i :: 0 <= i < |r| ==> Shown(r[i], all))
      && (forall i :: 0 <= i < |entries| && Shown(entries[i], all) ==> entries[i] in r)
      && SubsequenceOf(r, entries)
  {
    var init := entries[..|entries| - 1];
    var last := entries[|entries| - 1];
    var r := s + (if Shown(last, all) then [last] else []);
    assert r[..|s|] == s;
    forall i | 0 <= i < |entries| && Shown(entries[i], all) ensures entries[i] in r {
      if i < |init| {
        assert entries[i] == init[i];
        assert init[i] in s;
      }
    }
    if Shown(last, all) {
      assert r[|r| - 1] == entries[|entries| - 1] && r[..|r| - 1] == s;
    } else {
      assert r == s;
    }
  }

  /** Hiding is only a filter: listing the shown entries with `all` set
      gives the same long lines (the widths stay those of the full
      listing), one per shown entry. */
  lemma {:induction false} HidingFiltersLong(entries: seq<FSEntry>, all: bool, w: Widths, username: string,
                                             format: Timestamp -> string)
    requires AllNamed(entries)
    ensures LongLines(entries, all, w, username, format) == LongLines(ShownEntries(entries, all), true, w, username, format)
    ensures |LongLines(entries, all, w, username, format)| == |ShownEntries(entries, all)|
  {
    if entries != [] {
      var init := entries[..|entries| - 1];
      var last := entries[|entries| - 1];
      HidingFiltersLong(init, all, w, username, format);
      var s := ShownEntries(init, all);
      var ls := LongLines(init, all, w, username, format);
      if Shown(last, all) {
        var s' := s + [last];
        assert ShownEntries(entries, all) == s';
        assert LongLines(s', true, w, username, format)
            == LongLines(s, true, w, username, format) + [Stdout(LongLine(last, w, username, format))] by {
          assert s'[..|s|] == s && s'[|s|] == last;
        }
      } else {
        assert ShownEntries(entries, all) == s;
        assert LongLines(entries, all, w, username, format) == ls;
      }
    }
  }

  /** The same for the short listing's line. */
  lemma {:induction false} HidingFiltersShort(entries: seq<FSEntry>, all: bool)
    requires AllNamed(entries)
    ensures ShortLine(entries, all) == ShortLine(ShownEntries(entries, all), true)
  {
    if entries != [] {
      var init := entries[..|entries| - 1];
      var last := entries[|entries| - 1];
      HidingFiltersShort(init, all);
      var s := ShownEntries(init, all);
      if Shown(last, all) {
        var s' := s + [last];
        assert ShownEntries(entries, all) == s';
        assert ShortLine(s', true) == ShortLine(s, true) + Display(last) + "\t" by {
          assert s'[..|s|] == s && s'[|s|] == last;
        }
      } else {
        assert ShownEntries(entries, all) == s;
      }
    }
  }

  lemma PrefixNamed(entries: seq<FSEntry>, i: nat)
    requires AllNamed(entries) && i <= |entries|
    ensures AllNamed(entries[..i])
  {
    assert forall k :: 0 <= k < i ==> entries[..i][k] == entries[k];
  }

  /** The `forEach` of the long listing: one line per shown entry. */
  method LongListing(entries: seq<FSEntry>, all: bool, widths: Widths, username: string, format: Timestamp -> string)
    returns (lines: seq<string>)
    requires AllNamed(entries)
    ensures lines == LongLines(entries, all, widths, username, format)
  {
    lines := [];
    for i := 0 to |entries|
      invariant AllNamed(entries[..i])
      invariant lines == LongLines(entries[..i], all, widths, username, format)
    {
      PrefixNamed(entries, i + 1);
      assert entries[..i + 1][..i] == entries[..i];
      assert entries[..i + 1][i] == entries[i];
      if Shown(entries[i], all) {
        lines := lines + [Stdout(LongLine(entries[i], widths, username, format))];
      }
    }
    assert entries[..|entries|] == entries;
  }

  /** The `forEach` of the short listing: the shown names, each followed by
      a tab. */
  method ShortListing(entries: seq<FSEntry>, all: bool) returns (str: string)
    requires AllNamed(entries)
    ensures str == ShortLine(entries, all)
  {
    str := "";
    for i := 0 to |entries|
      invariant AllNamed(entries[..i])
      invariant str == ShortLine(entries[..i], all)
    {
      PrefixNamed(entries, i + 1);
      assert entries[..i + 1][..i] == entries[..i];
      assert entries[..i + 1][i] == entries[i];
      if Shown(entries[i], all) {
        str := str + Display(entries[i]) + "\t";
      }
    }
    assert entries[..|entries|] == entries;
  }

  /** What reading `.length` of undefined throws. */
  const WidthsError := "TypeError: Cannot read properties of undefined (reading 'length')"

  /** Some entry is owned by "user" (or by no one) while the session has no
      user name: `parseOwner` then gives undefined, whose length the owner
      column reads. */
  predicate OwnerUnresolved(entries: seq<FSEntry>, username: Option<string>) {
    username.None? && exists i :: 0 <= i < |entries| && entries[i].owner.GetOr("user") == "user"
  }

  /** When every owner resolves without a user name, the name is never
      read: any stand-in gives the same owners. */
  lemma OwnersIgnoreUnreadName(entries: seq<FSEntry>, u: string, u': string)
    requires !OwnerUnresolved(entries, None)
    ensures forall i :: 0 <= i < |entries| ==> OwnerOf(entries[i], u) == OwnerOf(entries[i], u') != "user"
  {
  }

  /** The terminal's output for a listing the agent returned, or the
      TypeError raised computing the column widths: when an owner cannot be
      resolved, or when some entry has no name. Without a user name, no
      owner shown is "user", so the name stood in for it is never read. */
  method Ls(entries: seq<FSEntry>, opts: LsOptions, username: Option<string>, format: Timestamp -> string)
    returns (r: Result<seq<string>, string>)
    ensures r.Failure? <==> OwnerUnresolved(entries, username) || !AllNamed(entries)
    ensures r.Failure? ==> r.error == WidthsError
    ensures var u := username.GetOr("");
      r.Success? && opts.long ==>
      r == Success(LongLines(entries, opts.all, ColumnWidths(entries, u, format), u, format))
    ensures r.Success? && !opts.long ==> r == Success([Stdout(ShortLine(entries, opts.all))])
  {
    if OwnerUnresolved(entries, username) || !AllNamed(entries) {
      return Failure(WidthsError);
    }
    var u := username.GetOr("");
    var widths := ColumnWidths(entries, u, format);
    if opts.long {
      var lines := LongListing(entries, opts.all, widths, u, format);
      r := Success(lines);
    } else {
      var str := ShortListing(entries, opts.all);
      r := Success([Stdout(str)]);
    }
  }
}
