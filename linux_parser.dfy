/** The system-wide accessors of the /proc reader (namespace LinuxParser in
    linux_parser.cpp). Each accessor is given the contents of the file it
    would open, as its lines in order; a file that cannot be opened reads as
    no lines. The /proc directory listing is given as its entries. */
module LinuxParser {
  import opened Options
  import opened Text

  /** The line `std::getline` reads first: empty when there is none. */
  function FirstLine(lines: seq<string>): string {
    if lines == [] then "" else lines[0]
  }

  // ---------------------------------------------------------------------
  // Reading `key value` pairs: a loop that extracts two words at a time

  /** Where a scan for a key stands: the value paired with it was found, or
      it was not, and the value variable holds `last`. */
  datatype Step<T> = Found(value: T) | Carry(last: T)

  /** The pair loop that returns the value of the first pair keyed `k`, over the
      tokens `t` of one line, with string variables. Pairs start at even
      positions; a trailing odd token is read into `key` only and leaves
      `value` alone. `last` is what `value` held before the line. */
  function PairScan(t: seq<string>, k: string, last: string): Step<string>
    decreases |t|
  {
    if |t| < 2 then Carry(last)
    else if t[0] == k then Found(t[1])
    else PairScan(t[2..], k, t[1])
  }

  /** The first pair whose key is `k` decides the scan of a line. */
  lemma {:induction false} PairScanFirstMatch(t: seq<string>, k: string, last: string, j: nat)
    requires j % 2 == 0 && j + 1 < |t| && t[j] == k
    requires forall i :: 0 <= i < j && i % 2 == 0 ==> t[i] != k
    ensures PairScan(t, k, last) == Found(t[j + 1])
    decreases j
  {
    if j > 0 {
      assert t[0] != k;
      forall i | 0 <= i < j - 2 && i % 2 == 0
        ensures t[2..][i] != k
      {
        assert t[2..][i] == t[i + 2];
      }
      PairScanFirstMatch(t[2..], k, t[1], j - 2);
    }
  }

  /** Without a pair keyed `k`, a line leaves `value` holding the value of
      its last complete pair, or what it held before if there is none. */
  lemma {:induction false} PairScanNoMatch(t: seq<string>, k: string, last: string)
    requires forall i :: 0 <= i && i + 1 < |t| && i % 2 == 0 ==> t[i] != k
    ensures PairScan(t, k, last) == Carry(if |t| < 2 then last else t[|t| / 2 * 2 - 1])
    decreases |t|
  {
    if |t| >= 2 {
      assert t[0] != k;
      forall i | 0 <= i && i + 1 < |t| - 2 && i % 2 == 0
        ensures t[2..][i] != k
      {
        assert t[2..][i] == t[i + 2];
      }
      PairScanNoMatch(t[2..], k, t[1]);
      if |t| - 2 >= 2 {
        assert t[2..][(|t| - 2) / 2 * 2 - 1] == t[|t| / 2 * 2 - 1];
      }
    }
  }

  /** A value found by a pair scan is one of the line's tokens. */
  lemma {:induction false} PairScanFoundIn(t: seq<string>, k: string, last: string)
    requires PairScan(t, k, last).Found?
    ensures PairScan(t, k, last).value in t
    decreases |t|
  {
    if t[0] != k {
      PairScanFoundIn(t[2..], k, t[1]);
      assert PairScan(t, k, last).value in t[2..];
    }
  }

  // ---------------------------------------------------------------------
  // OperatingSystem: PRETTY_NAME from /etc/os-release

  const PrettyNameKey := "PRETTY_NAME"

  /** A line of the os-release file as OperatingSystem rewrites it before
      reading pairs: spaces become '_', then '=' and '"' become spaces. */
  function OsReleaseTokens(line: string): seq<string> {
    Tokens(Replace(Replace(Replace(line, ' ', '_'), '=', ' '), '"', ' '))
  }

  /** The pair scan of the whole file: the raw value paired with the first
      PRETTY_NAME key, or the last value read. */
  function PrettyNameScan(lines: seq<string>, value: string): Step<string>
    decreases |lines|
  {
    if lines == [] then Carry(value)
    else
      match PairScan(OsReleaseTokens(lines[0]), PrettyNameKey, value)
      case Found(v) => Found(v)
      case Carry(v) => PrettyNameScan(lines[1..], v)
  }

  /** What OperatingSystem returns: the PRETTY_NAME value with '_' turned
      back into spaces; when there is no PRETTY_NAME key, the last value
      read, as it was read (its '_' are not turned back). */
  function OperatingSystemOf(lines: seq<string>): string {
    match PrettyNameScan(lines, "")
    case Found(v) => Replace(v, '_', ' ')
    case Carry(v) => v
  }

  method OperatingSystem(lines: seq<string>) returns (name: string)
    ensures name == OperatingSystemOf(lines)
  {
    var value := "";
    var i := 0;
    while i < |lines|
      invariant 0 <= i <= |lines|
      invariant PrettyNameScan(lines[i..], value) == PrettyNameScan(lines, "")
    {
      var line := Replace(lines[i], ' ', '_');
      line := Replace(line, '=', ' ');
      line := Replace(line, '"', ' ');
      var tokens := Tokens(line);
      ghost var atLineStart := value;
      var j := 0;
      while j + 1 < |tokens|
        invariant 0 <= j <= |tokens|
        invariant PairScan(tokens[j..], PrettyNameKey, value) == PairScan(tokens, PrettyNameKey, atLineStart)
      {
        var key := tokens[j];
        value := tokens[j + 1];
        if key == PrettyNameKey {
          name := Replace(value, '_', ' ');
          return;
        }
        assert tokens[j..][2..] == tokens[j + 2..];
        j := j + 2;
      }
      assert lines[i..][1..] == lines[i + 1..];
      i := i + 1;
    }
    name := value;
  }

  /** Scanning a file in two parts: the first part's PRETTY_NAME wins. */
  lemma {:induction false} PrettyNameScanAppend(a: seq<string>, b: seq<string>, value: string)
    ensures PrettyNameScan(a + b, value) ==
      match PrettyNameScan(a, value)
      case Found(v) => Found(v)
      case Carry(v) => PrettyNameScan(b, v)
    decreases |a|
  {
    if a != [] {
      assert (a + b)[0] == a[0];
      assert (a + b)[1..] == a[1..] + b;
      match PairScan(OsReleaseTokens(a[0]), PrettyNameKey, value)
      case Found(v) =>
      case Carry(v) => PrettyNameScanAppend(a[1..], b, v);
    } else {
      assert a + b == b;
    }
  }

  /** A value `OsReleaseLine` can carry through the rewrite unharmed:
      non-empty, no '_', '=' or '"', and no whitespace but ' '. */
  predicate IsOsReleaseValue(v: string) {
    v != [] && forall c :: c in v ==> c != '_' && c != '=' && c != '"' && (IsSpace(c) ==> c == ' ')
  }

  /** A key of the os-release file: a word without '=' or '"'. */
  predicate IsOsReleaseKey(k: string) {
    IsWord(k) && '=' !in k && '"' !in k
  }

  /** The os-release line `KEY="value"`. */
  function OsReleaseLine(k: string, v: string): string {
    k + "=\"" + v + "\""
  }

  lemma ReplaceAbsent(s: string, from: char, to: char)
    requires from !in s
    ensures Replace(s, from, to) == s
  {
    var r := Replace(s, from, to);
    assert forall i :: 0 <= i < |s| ==> s[i] in s && r[i] == s[i];
  }

  lemma ReplaceConcat(a: string, b: string, from: char, to: char)
    ensures Replace(a + b, from, to) == Replace(a, from, to) + Replace(b, from, to)
  {
    var l, r := Replace(a + b, from, to), Replace(a, from, to) + Replace(b, from, to);
    assert forall i :: 0 <= i < |a| ==> (a + b)[i] == a[i];
    assert forall i :: |a| <= i < |a| + |b| ==> (a + b)[i] == b[i - |a|];
    assert |l| == |r|;
    forall i | 0 <= i < |l| ensures l[i] == r[i] {
      if i < |a| {
        assert r[i] == Replace(a, from, to)[i];
      } else {
        assert r[i] == Replace(b, from, to)[i - |a|];
      }
    }
  }

  /** `std::replace` on `a + m + b` when only the middle part `m` holds `from`
      and the two constant parts map to `a'` and `b'`. */
  lemma ReplaceAround(k: string, a: string, m: string, b: string, from: char, to: char)
    requires from !in k
    ensures Replace(k + a + m + b, from, to) ==
      k + Replace(a, from, to) + Replace(m, from, to) + Replace(b, from, to)
  {
    ReplaceAbsent(k, from, to);
    ReplaceConcat(k, a, from, to);
    ReplaceConcat(k + a, m, from, to);
    ReplaceConcat(k + a + m, b, from, to);
  }

  lemma RewriteSpaces(k: string, v: string)
    requires IsOsReleaseKey(k) && IsOsReleaseValue(v)
    ensures Replace(OsReleaseLine(k, v), ' ', '_') == k + "=\"" + Replace(v, ' ', '_') + "\""
  {
    assert ' ' !in k by {
      assert forall c :: c in k ==> !IsSpace(c);
    }
    ReplaceAround(k, "=\"", v, "\"", ' ', '_');
    ReplaceAbsent("=\"", ' ', '_');
    ReplaceAbsent("\"", ' ', '_');
  }

  lemma RewriteEquals(k: string, w: string)
    requires '=' !in k && '=' !in w
    ensures Replace(k + "=\"" + w + "\"", '=', ' ') == k + " \"" + w + "\""
  {
    ReplaceAround(k, "=\"", w, "\"", '=', ' ');
    ReplaceAbsent(w, '=', ' ');
    ReplaceAbsent("\"", '=', ' ');
    assert Replace("=\"", '=', ' ') == " \"";
  }

  lemma RewriteQuotes(k: string, w: string)
    requires '"' !in k && '"' !in w
    ensures Replace(k + " \"" + w + "\"", '"', ' ') == k + "  " + w + " "
  {
    ReplaceAround(k, " \"", w, "\"", '"', ' ');
    ReplaceAbsent(w, '"', ' ');
    assert Replace(" \"", '"', ' ') == "  ";
    assert Replace("\"", '"', ' ') == " ";
  }

  lemma TokensOfRewrittenLine(k: string, w: string)
    requires IsWord(k) && IsWord(w)
    ensures Tokens(k + "  " + w + " ") == [k, w]
  {
    var tail := w + [' '] + [];
    var mid := [] + [' '] + tail;
    assert k + "  " + w + " " == k + [' '] + mid;
    assert Tokens([]) == [];
    TokensOfWord(k);
    TokensOfWord(w);
    TokensAroundSpace(w, ' ', []);
    assert Tokens(tail) == [w];
    TokensAroundSpace([], ' ', tail);
    assert Tokens(mid) == [w];
    TokensAroundSpace(k, ' ', mid);
  }

  /** The rewrite turns `KEY="value"` into the pair `KEY`, value-with-'_'. */
  lemma OsReleaseLineTokens(k: string, v: string)
    requires IsOsReleaseKey(k) && IsOsReleaseValue(v)
    ensures OsReleaseTokens(OsReleaseLine(k, v)) == [k, Replace(v, ' ', '_')]
  {
    var w := Replace(v, ' ', '_');
    forall i | 0 <= i < |w| ensures w[i] != '=' && w[i] != '"' && !IsSpace(w[i]) {
      assert v[i] in v;
    }
    assert forall c :: c in w ==> c != '=' && c != '"' && !IsSpace(c);
    RewriteSpaces(k, v);
    RewriteEquals(k, w);
    RewriteQuotes(k, w);
    TokensOfRewrittenLine(k, w);
  }

  lemma RestoreUnderscores(v: string)
    requires IsOsReleaseValue(v)
    ensures Replace(Replace(v, ' ', '_'), '_', ' ') == v
  {
    var r := Replace(Replace(v, ' ', '_'), '_', ' ');
    forall i | 0 <= i < |v| ensures r[i] == v[i] {
      assert v[i] in v;
    }
  }

  /** `PRETTY_NAME="Foo Bar"` reads as `Foo Bar`, and once a PRETTY_NAME
      line is reached the lines after it do not matter. */
  lemma {:induction false} OperatingSystemReadsPrettyName(pre: seq<string>, v: string, rest: seq<string>)
    requires IsOsReleaseValue(v)
    requires PrettyNameScan(pre, "").Carry?
    ensures OperatingSystemOf(pre + [OsReleaseLine(PrettyNameKey, v)] + rest) == v
  {
    var line := OsReleaseLine(PrettyNameKey, v);
    assert IsOsReleaseKey(PrettyNameKey);
    OsReleaseLineTokens(PrettyNameKey, v);
    PrettyNameScanAppend(pre, [line] + rest, "");
    assert pre + [line] + rest == pre + ([line] + rest);
    assert ([line] + rest)[0] == line;
    RestoreUnderscores(v);
  }

  /** A `KEY="value"` line with a key other than PRETTY_NAME finds nothing
      and leaves the value, with its spaces as '_', in the value variable. */
  lemma OtherKeyLine(k: string, v: string, value: string)
    requires IsOsReleaseKey(k) && IsOsReleaseValue(v) && k != PrettyNameKey
    ensures PrettyNameScan([OsReleaseLine(k, v)], value) == Carry(Replace(v, ' ', '_'))
  {
    var w := Replace(v, ' ', '_');
    OsReleaseLineTokens(k, v);
    assert [OsReleaseLine(k, v)][1..] == [];
    assert [k, w][2..] == [];
    assert PairScan([k, w], PrettyNameKey, value) == Carry(w);
  }

  /** The fallback: a file whose one line is `KEY="value"` with a key other
      than PRETTY_NAME yields the value as read, its spaces still '_'. */
  lemma OperatingSystemFallback(k: string, v: string)
    requires IsOsReleaseKey(k) && IsOsReleaseValue(v) && k != PrettyNameKey
    ensures OperatingSystemOf([OsReleaseLine(k, v)]) == Replace(v, ' ', '_')
  {
    OtherKeyLine(k, v, "");
  }

  /** The example's key and values are well formed; stated apart so that the
      example's own proof does not unfold these predicates. */
  lemma ExampleOsReleaseFields()
    ensures IsOsReleaseKey("NAME")
    ensures IsOsReleaseValue("Ubuntu Linux") && IsOsReleaseValue("Foo Bar")
  {
  }

  /** Example: `NAME="Ubuntu Linux"` comes first, then `PRETTY_NAME="Foo Bar"` wins. */
  lemma OperatingSystemExample(rest: seq<string>)
    ensures OperatingSystemOf([OsReleaseLine("NAME", "Ubuntu Linux")] + [OsReleaseLine(PrettyNameKey, "Foo Bar")] + rest)
      == "Foo Bar"
  {
    var pre := [OsReleaseLine("NAME", "Ubuntu Linux")];
    ExampleOsReleaseFields();
    OtherKeyLine("NAME", "Ubuntu Linux", "");
    OperatingSystemReadsPrettyName(pre, "Foo Bar", rest);
  }

  lemma {:induction false} TokensCharsFrom(s: string, k: nat, c: char)
    requires k < |Tokens(s)| && c in Tokens(s)[k]
    ensures c in s
    decreases |s|
  {
    if IsSpace(s[0]) {
      TokensCharsFrom(s[1..], k, c);
    } else {
      var n := WordLength(s);
      if k == 0 {
        assert c in s[..n];
      } else {
        assert Tokens(s)[k] == Tokens(s[n..])[k - 1];
        TokensCharsFrom(s[n..], k - 1, c);
      }
    }
  }

  /** A PRETTY_NAME that was found comes back with no '_', '=' or '"' in it. */
  lemma {:induction false} PrettyNameHasNoSeparators(lines: seq<string>, value: string)
    requires PrettyNameScan(lines, value).Found?
    ensures var r := Replace(PrettyNameScan(lines, value).value, '_', ' ');
      '_' !in r && '=' !in r && '"' !in r
    decreases |lines|
  {
    var t := OsReleaseTokens(lines[0]);
    match PairScan(t, PrettyNameKey, value)
    case Carry(u) =>
      PrettyNameHasNoSeparators(lines[1..], u);
    case Found(v) =>
      PairScanFoundIn(t, PrettyNameKey, value);
      var k :| 0 <= k < |t| && t[k] == v;
      var s1 := Replace(Replace(lines[0], ' ', '_'), '=', ' ');
      var s := Replace(s1, '"', ' ');
      ReplaceRemoves(s1, '"', ' ');
      ReplaceRemoves(Replace(lines[0], ' ', '_'), '=', ' ');
      assert '=' !in s by {
        forall i | 0 <= i < |s| ensures s[i] != '=' {
          assert s1[i] in s1;
        }
      }
      forall c | c in v ensures c != '=' && c != '"' {
        TokensCharsFrom(s, k, c);
      }
      var r := Replace(v, '_', ' ');
      ReplaceRemoves(v, '_', ' ');
      forall i | 0 <= i < |r| ensures r[i] != '=' && r[i] != '"' {
        assert v[i] in v;
      }
  }

  // ---------------------------------------------------------------------
  // Kernel: the release field of /proc/version

  /** Three word extractions from the first line, the third into the
      result: its third word, or empty when it has fewer than three. */
  function Kernel(lines: seq<string>): (kernel: string)
    ensures kernel == "" || IsWord(kernel)
  {
    var t := Tokens(FirstLine(lines));
    if |t| >= 3 then t[2] else ""
  }

  /** On `Linux version 5.15.0 ...` Kernel returns the third word. */
  lemma KernelIsThirdWord(ws: seq<string>, rest: seq<string>)
    requires forall k :: 0 <= k < |ws| ==> IsWord(ws[k])
    ensures Kernel([Unwords(ws)] + rest) == if |ws| >= 3 then ws[2] else ""
  {
    TokensOfUnwords(ws);
  }

  // ---------------------------------------------------------------------
  // Pids: the numeric sub-directories of /proc

  /** One entry of a directory listing, as readdir reports it. */
  datatype DirEntry = DirEntry(name: string, isDirectory: bool)

  /** A directory whose name is all decimal digits names a process. */
  predicate IsPidEntry(e: DirEntry) {
    e.isDirectory && AllDigits(e.name)
  }

  /** The process ids of a listing, in enumeration order. */
  function PidsOf(entries: seq<DirEntry>): seq<int> {
    if entries == [] then []
    else
      var e := entries[|entries| - 1];
      PidsOf(entries[..|entries| - 1]) + (if IsPidEntry(e) then [DigitsValue(e.name) as int] else [])
  }

  /** The listing loop: every directory whose name is all digits is read
      with std::stoi and appended. std::stoi throws on an empty name, which
      std::all_of accepts; directory entries are never empty, so the
      listing is required to have none. */
  method Pids(entries: seq<DirEntry>) returns (pids: seq<int>)
    requires forall e :: e in entries && e.isDirectory ==> e.name != ""
    ensures pids == PidsOf(entries)
  {
    pids := [];
    var i := 0;
    while i < |entries|
      invariant 0 <= i <= |entries|
      invariant pids == PidsOf(entries[..i])
    {
      var file := entries[i];
      if file.isDirectory && AllDigits(file.name) {
        assert file in entries;
        LeadingIntOfDigits(file.name);
        var pid := LeadingInt(file.name).value;
        pids := pids + [pid];
      }
      assert entries[..i + 1][..i] == entries[..i];
      i := i + 1;
    }
    assert entries[..i] == entries;
  }

  /** Listing order is kept: the ids of two listings in a row are the ids
      of the first followed by those of the second. */
  lemma {:induction false} PidsOfAppend(a: seq<DirEntry>, b: seq<DirEntry>)
    ensures PidsOf(a + b) == PidsOf(a) + PidsOf(b)
    decreases |b|
  {
    if b == [] {
      assert a + b == a;
    } else {
      var c := a + b;
      assert c[..|c| - 1] == a + b[..|b| - 1];
      assert c[|c| - 1] == b[|b| - 1];
      PidsOfAppend(a, b[..|b| - 1]);
    }
  }

  /** A single entry contributes its id exactly when it is a directory
      named by digits only. */
  lemma PidsOfEntry(e: DirEntry)
    ensures PidsOf([e]) == if IsPidEntry(e) then [DigitsValue(e.name) as int] else []
  {
    assert [e][..0] == [];
  }

  /** `p` is listed exactly when some numeric directory is named by it. */
  lemma {:induction false} PidsOfMembers(entries: seq<DirEntry>, p: int)
    ensures p in PidsOf(entries) <==>
      exists i :: 0 <= i < |entries| && IsPidEntry(entries[i]) && DigitsValue(entries[i].name) == p
    decreases |entries|
  {
    if entries != [] {
      var n := |entries| - 1;
      var init := entries[..n];
      var e := entries[n];
      assert PidsOf(entries) == PidsOf(init) + (if IsPidEntry(e) then [DigitsValue(e.name) as int] else []);
      PidsOfMembers(init, p);
      if exists i :: 0 <= i < n && IsPidEntry(init[i]) && DigitsValue(init[i].name) == p {
        var i :| 0 <= i < n && IsPidEntry(init[i]) && DigitsValue(init[i].name) == p;
        assert entries[i] == init[i];
      }
      if exists i :: 0 <= i < |entries| && IsPidEntry(entries[i]) && DigitsValue(entries[i].name) == p {
        var i :| 0 <= i < |entries| && IsPidEntry(entries[i]) && DigitsValue(entries[i].name) == p;
        if i < n {
          assert init[i] == entries[i];
        }
      }
    }
  }

  lemma DigitsExample()
    ensures AllDigits("123") && DigitsValue("123") == 123
  {
    assert "123"[..2] == "12" && "12"[..1] == "1";
  }

  lemma LettersExample()
    ensures !AllDigits("abc")
  {
    assert "abc"[0] in "abc";
  }

  lemma TrailingLetterExample()
    ensures !AllDigits("45x")
  {
    assert "45x"[2] in "45x";
  }

  /** Example: of `123`, `abc`, `45x` (directories) and `456` (a file),
      only 123 is a process id. */
  lemma PidsExample(a: DirEntry, b: DirEntry, c: DirEntry, d: DirEntry)
    requires a == DirEntry("123", true) && b == DirEntry("abc", true)
    requires c == DirEntry("45x", true) && d == DirEntry("456", false)
    ensures PidsOf([a, b, c, d]) == [123]
  {
    DigitsExample();
    LettersExample();
    TrailingLetterExample();
    PidsOfEntry(a);
    PidsOfEntry(b);
    PidsOfEntry(c);
    PidsOfEntry(d);
    assert PidsOf([a]) == [123] && PidsOf([b]) == [] && PidsOf([c]) == [] && PidsOf([d]) == [];
    assert [a, b] == [a] + [b];
    PidsOfAppend([a], [b]);
    assert [a, b, c] == [a, b] + [c];
    PidsOfAppend([a, b], [c]);
    assert [a, b, c, d] == [a, b, c] + [d];
    PidsOfAppend([a, b, c], [d]);
  }


  // ---------------------------------------------------------------------
  // MemoryUtilization: /proc/meminfo

  /** The two variables the meminfo scan keeps; `None` until a pair sets it. */
  datatype MemInfo = MemInfo(total: Option<int>, free: Option<int>)

  const MemTotalKey := "MemTotal:"
  const MemFreeKey := "MemFree:"

  /** The pair loop (a word, then a number) over one line: a later MemTotal: or
      MemFree: pair overwrites an earlier one; the loop stops at the first
      pair whose second token is not a number. */
  function MemLine(t: seq<string>, m: MemInfo): MemInfo
    decreases |t|
  {
    if |t| < 2 || !IsNumeral(t[1]) then m
    else
      var v := NumeralValue(t[1]);
      MemLine(t[2..], if t[0] == MemTotalKey then m.(total := Some(v))
                      else if t[0] == MemFreeKey then m.(free := Some(v))
                      else m)
  }

  /** The variables after the whole file. */
  function MemScan(lines: seq<string>): MemInfo {
    if lines == [] then MemInfo(None, None)
    else MemLine(Tokens(lines[|lines| - 1]), MemScan(lines[..|lines| - 1]))
  }

  /** (MemTotal - MemFree) / MemTotal as an exact ratio; `None` when either
      was never read (the source divides uninitialised variables) or
      MemTotal is 0 (the source's float division gives inf or NaN). */
  function MemoryUtilizationOf(lines: seq<string>): Option<real> {
    var m := MemScan(lines);
    if m.total.Some? && m.free.Some? && m.total.value != 0 then
      Some((m.total.value - m.free.value) as real / m.total.value as real)
    else None
  }

  method MemoryUtilization(lines: seq<string>) returns (utilization: Option<real>)
    ensures utilization == MemoryUtilizationOf(lines)
  {
    var memtotal: Option<int> := None;
    var memfree: Option<int> := None;
    var i := 0;
    while i < |lines|
      invariant 0 <= i <= |lines|
      invariant MemInfo(memtotal, memfree) == MemScan(lines[..i])
    {
      var tokens := Tokens(lines[i]);
      var j := 0;
      while j + 1 < |tokens| && IsNumeral(tokens[j + 1])
        invariant 0 <= j <= |tokens|
        invariant MemLine(tokens[j..], MemInfo(memtotal, memfree)) == MemLine(tokens, MemScan(lines[..i]))
      {
        var datakey := tokens[j];
        var datavalue := NumeralValue(tokens[j + 1]);
        if datakey == MemTotalKey {
          memtotal := Some(datavalue);
        } else if datakey == MemFreeKey {
          memfree := Some(datavalue);
        }
        assert tokens[j..][2..] == tokens[j + 2..];
        j := j + 2;
      }
      assert lines[..i + 1][..i] == lines[..i];
      i := i + 1;
    }
    assert lines[..i] == lines;
    if memtotal.Some? && memfree.Some? && memtotal.value != 0 {
      utilization := Some((memtotal.value - memfree.value) as real / memtotal.value as real);
    } else {
      utilization := None;
    }
  }

  /** The meminfo line `KEY value unit`. */
  function MemInfoLine(k: string, v: nat, unit: string): string {
    Unwords([k, DecimalString(v), unit])
  }

  /** A `MemTotal: v kB` or `MemFree: v kB` line overwrites that variable
      and leaves the other alone, whatever came before it. */
  lemma MemInfoLastLineWins(lines: seq<string>, k: string, v: nat, unit: string)
    requires k == MemTotalKey || k == MemFreeKey
    requires IsWord(unit)
    ensures MemScan(lines + [MemInfoLine(k, v, unit)]) ==
      if k == MemTotalKey then MemScan(lines).(total := Some(v)) else MemScan(lines).(free := Some(v))
  {
    var d := DecimalString(v);
    var t := [k, d, unit];
    NumeralOfString(v);
    assert IntToString(v) == d;
    assert IsNumeral(d) && NumeralValue(d) == v;
    assert IsWord(k) by {
      assert forall c :: c in k ==> !IsSpace(c);
    }
    DecimalIsWord(v);
    assert forall i :: 0 <= i < |t| ==> IsWord(t[i]);
    TokensOfUnwords(t);
    assert Tokens(MemInfoLine(k, v, unit)) == t;
    var m := MemScan(lines);
    var m' := if k == MemTotalKey then m.(total := Some(v)) else m.(free := Some(v));
    assert t[2..] == [unit];
    assert MemLine([unit], m') == m';
    assert MemLine(t, m) == m';
    var all := lines + [MemInfoLine(k, v, unit)];
    assert all[..|all| - 1] == lines;
    assert all[|all| - 1] == MemInfoLine(k, v, unit);
  }

  /** A decimal string is one word. */
  lemma DecimalIsWord(v: nat)
    ensures IsWord(DecimalString(v))
  {
    var d := DecimalString(v);
    assert forall c :: c in d ==> IsDigit(c) && !IsSpace(c);
  }

  /** MemTotal T and MemFree F, each on its own line, give (T - F) / T. */
  lemma MemoryUtilizationOfTotals(total: nat, free: nat, unit: string)
    requires IsWord(unit) && total != 0
    ensures MemoryUtilizationOf([MemInfoLine(MemTotalKey, total, unit), MemInfoLine(MemFreeKey, free, unit)])
      == Some((total - free) as real / total as real)
  {
    var a, b := MemInfoLine(MemTotalKey, total, unit), MemInfoLine(MemFreeKey, free, unit);
    MemInfoLastLineWins([], MemTotalKey, total, unit);
    MemInfoLastLineWins([a], MemFreeKey, free, unit);
    assert [] + [a] == [a];
    assert [a] + [b] == [a, b];
    assert MemScan([]) == MemInfo(None, None);
    assert MemScan([a, b]) == MemInfo(Some(total), Some(free));
  }

  /** Example: `MemTotal: 1000 kB` and `MemFree: 400 kB` give 0.6. */
  lemma MemoryUtilizationExample(total: nat, free: nat)
    requires total == 1000 && free == 400
    ensures MemoryUtilizationOf([MemInfoLine(MemTotalKey, total, KiloBytes), MemInfoLine(MemFreeKey, free, KiloBytes)]) == Some(0.6)
  {
    assert IsWord(KiloBytes);
    assert (1000 - 400) as real / 1000 as real == 0.6;
    MemoryUtilizationOfTotals(total, free, KiloBytes);
  }

  const KiloBytes := "kB"

  /** With 0 <= MemFree <= MemTotal the utilization is a fraction in [0, 1]. */
  lemma MemoryUtilizationInRange(lines: seq<string>)
    requires MemScan(lines).total.Some? && MemScan(lines).free.Some?
    requires 0 <= MemScan(lines).free.value <= MemScan(lines).total.value
    requires MemScan(lines).total.value > 0
    ensures MemoryUtilizationOf(lines).Some?
    ensures 0.0 <= MemoryUtilizationOf(lines).value <= 1.0
  {
    var m := MemScan(lines);
    ShareInUnit(m.total.value as real, m.free.value as real);
  }

  /** (t - f) / t lies in [0, 1] when 0 <= f <= t and t > 0. */
  lemma ShareInUnit(t: real, f: real)
    requires 0.0 <= f <= t && t > 0.0
    ensures 0.0 <= (t - f) / t <= 1.0
  {
    assert (t - f) / t <= t / t;
  }

  // ---------------------------------------------------------------------
  // UpTime: /proc/uptime

  /** std::stol of the first word of the first line: the whole seconds of
      `12345.67 ...`. Without a word std::stol("") throws: `None`. */
  function UpTime(lines: seq<string>): (r: Option<int>)
    ensures Tokens(FirstLine(lines)) == [] ==> r.None?
    ensures r.Some? ==> LeadingInt(Tokens(FirstLine(lines))[0]) == r
  {
    var t := Tokens(FirstLine(lines));
    if t == [] then None else LeadingInt(t[0])
  }

  /** `secs.frac idle` reads as `secs`: the fraction is dropped. */
  lemma UpTimeWholeSeconds(secs: nat, frac: string, idle: seq<string>, rest: seq<string>)
    requires AllDigits(frac)
    requires forall k :: 0 <= k < |idle| ==> IsWord(idle[k])
    ensures UpTime([Unwords([DecimalString(secs) + "." + frac] + idle)] + rest) == Some(secs)
  {
    var ws := [DecimalString(secs) + "." + frac] + idle;
    DecimalFractionIsWord(secs, frac);
    assert forall k :: 0 <= k < |ws| ==> IsWord(ws[k]);
    UpTimeFirstWord(ws, rest);
    WholeSecondsReadBack(secs, frac);
  }

  /** The uptime is read from the first word of the first line. */
  lemma UpTimeFirstWord(ws: seq<string>, rest: seq<string>)
    requires |ws| >= 1 && forall k :: 0 <= k < |ws| ==> IsWord(ws[k])
    ensures UpTime([Unwords(ws)] + rest) == LeadingInt(ws[0])
  {
    TokensOfUnwords(ws);
    assert FirstLine([Unwords(ws)] + rest) == Unwords(ws);
  }

  /** std::stol stops at the decimal point. */
  lemma WholeSecondsReadBack(secs: nat, frac: string)
    ensures LeadingInt(DecimalString(secs) + "." + frac) == Some(secs)
  {
    assert IntToString(secs) == DecimalString(secs);
    assert DecimalString(secs) + "." + frac == IntToString(secs) + ("." + frac);
    LeadingIntOfString(secs, "." + frac);
  }

  lemma DecimalFractionIsWord(secs: nat, frac: string)
    requires AllDigits(frac)
    ensures IsWord(DecimalString(secs) + "." + frac)
  {
    var d := DecimalString(secs);
    var w := d + "." + frac;
    forall i | 0 <= i < |w| ensures !IsSpace(w[i]) {
      if i < |d| {
        assert w[i] == d[i] && d[i] in d;
      } else if i > |d| {
        assert w[i] == frac[i - |d| - 1] && frac[i - |d| - 1] in frac;
      }
    }
  }

  // ---------------------------------------------------------------------
  // CpuUtilization: the aggregate `cpu` line of /proc/stat

  // Positions of the counters, in the order the `cpu` line lists them.
  const kUser := 0
  const kNice := 1
  const kSystem := 2
  const kIdle := 3
  const kIOwait := 4
  const kIRQ := 5
  const kSoftIRQ := 6
  const kSteal := 7
  const kGuest := 8
  const kGuestNice := 9
  const CpuStates := kGuestNice + 1

  /** The key loop over the tokens of one line, which on a `cpu` key reads
      ten counters in a row. A `cpu` token at any position starts a
      read of the next ten tokens into the counters in order; the stream
      fails once the line runs out, so a short read fills the first
      counters and leaves the others as they were. Tokens consumed as
      counters are not keys. */
  function CpuLine(t: seq<string>, jiffies: seq<string>): (r: seq<string>)
    requires |jiffies| == CpuStates
    ensures |r| == CpuStates
    decreases |t|
  {
    if t == [] then jiffies
    else if t[0] == "cpu" then
      var n := if |t| - 1 < CpuStates then |t| - 1 else CpuStates;
      CpuLine(t[1 + n..], t[1..1 + n] + jiffies[n..])
    else CpuLine(t[1..], jiffies)
  }

  /** The counters after the whole file, starting from ten empty strings;
      every `cpu` token of every line takes part, the last one winning. */
  function CpuScan(lines: seq<string>): (jiffies: seq<string>)
    ensures |jiffies| == CpuStates
  {
    if lines == [] then seq(CpuStates, _ => "")
    else CpuLine(Tokens(lines[|lines| - 1]), CpuScan(lines[..|lines| - 1]))
  }

  /** The scan of /proc/stat into a ten-slot buffer filled by index. */
  method CpuUtilization(lines: seq<string>) returns (jiffies: seq<string>)
    ensures jiffies == CpuScan(lines)
  {
    var buffer := new string[CpuStates](_ => "");
    var i := 0;
    while i < |lines|
      invariant 0 <= i <= |lines|
      invariant buffer.Length == CpuStates
      invariant buffer[..] == CpuScan(lines[..i])
    {
      ReadCpuLine(buffer, Tokens(lines[i]));
      assert lines[..i + 1][..i] == lines[..i];
      i := i + 1;
    }
    assert lines[..i] == lines;
    jiffies := buffer[..];
  }

  /** The key loop over one line's tokens, writing the counters that follow
      each `cpu` key into the buffer slot by slot. */
  method ReadCpuLine(buffer: array<string>, tokens: seq<string>)
    requires buffer.Length == CpuStates
    modifies buffer
    ensures buffer[..] == CpuLine(tokens, old(buffer[..]))
  {
    var j := 0;
    while j < |tokens|
      invariant 0 <= j <= |tokens|
      invariant CpuLine(tokens[j..], buffer[..]) == CpuLine(tokens, old(buffer[..]))
    {
      var key := tokens[j];
      if key == "cpu" {
        ghost var before := buffer[..];
        ghost var at := j;
        j := j + 1;
        var k := 0;
        while k < CpuStates && j < |tokens|
          invariant 0 <= k <= CpuStates
          invariant j == at + 1 + k <= |tokens|
          invariant forall m :: 0 <= m < k ==> buffer[m] == tokens[at + 1 + m]
          invariant forall m :: k <= m < CpuStates ==> buffer[m] == before[m]
        {
          buffer[k] := tokens[j];
          k := k + 1;
          j := j + 1;
        }
        assert buffer[..] == tokens[at + 1..j] + before[k..];
        CpuLineAtCpu(tokens, at, before);
      } else {
        CpuLineAtOther(tokens, j, buffer[..]);
        j := j + 1;
      }
    }
  }

  /** One step of `CpuLine` at a `cpu` key in the middle of a line. */
  lemma CpuLineAtCpu(t: seq<string>, at: nat, jiffies: seq<string>)
    requires at < |t| && t[at] == "cpu" && |jiffies| == CpuStates
    ensures var n := if |t| - at - 1 < CpuStates then |t| - at - 1 else CpuStates;
      CpuLine(t[at..], jiffies) == CpuLine(t[at + 1 + n..], t[at + 1..at + 1 + n] + jiffies[n..])
  {
    var n := if |t| - at - 1 < CpuStates then |t| - at - 1 else CpuStates;
    assert t[at..][1 + n..] == t[at + 1 + n..];
    assert t[at..][1..1 + n] == t[at + 1..at + 1 + n];
  }

  /** One step of `CpuLine` at any other token. */
  lemma CpuLineAtOther(t: seq<string>, at: nat, jiffies: seq<string>)
    requires at < |t| && t[at] != "cpu" && |jiffies| == CpuStates
    ensures CpuLine(t[at..], jiffies) == CpuLine(t[at + 1..], jiffies)
  {
    assert t[at..][1..] == t[at + 1..];
  }

  /** A line without a `cpu` token leaves the counters as they were. */
  lemma {:induction false} CpuLineWithoutCpu(t: seq<string>, jiffies: seq<string>)
    requires |jiffies| == CpuStates
    requires "cpu" !in t
    ensures CpuLine(t, jiffies) == jiffies
    decreases |t|
  {
    if t != [] {
      assert t[0] in t;
      assert forall x :: x in t[1..] ==> x in t;
      CpuLineWithoutCpu(t[1..], jiffies);
    }
  }

  /** `cpu` is matched wherever it stands in a line, and a short read fills
      only the leading counters: `intr cpu 1 2 3` sets user, nice and system
      and keeps the rest. */
  lemma {:induction false} CpuLineAnywhere(pre: seq<string>, vs: seq<string>, jiffies: seq<string>)
    requires |jiffies| == CpuStates && |vs| <= CpuStates
    requires "cpu" !in pre
    ensures CpuLine(pre + ["cpu"] + vs, jiffies) == vs + jiffies[|vs|..]
    decreases |pre|
  {
    var t := pre + ["cpu"] + vs;
    if pre == [] {
      assert t == ["cpu"] + vs;
      assert t[1..1 + |vs|] == vs;
      assert t[1 + |vs|..] == [];
    } else {
      assert pre[0] in pre;
      assert forall x :: x in pre[1..] ==> x in pre;
      assert t[1..] == pre[1..] + ["cpu"] + vs;
      CpuLineAnywhere(pre[1..], vs, jiffies);
    }
  }

  /** The decimal strings of some counters. */
  function CounterWords(c: seq<nat>): (ws: seq<string>)
    ensures |ws| == |c|
  {
    seq(|c|, i requires 0 <= i < |c| => DecimalString(c[i]))
  }

  /** A /proc/stat whose first line is `cpu c0 ... c9`, and whose other lines
      have no `cpu` token, yields exactly those ten counters. */
  lemma {:induction false} CpuUtilizationOfStat(c: seq<nat>, others: seq<string>)
    requires |c| == CpuStates
    requires forall i :: 0 <= i < |others| ==> "cpu" !in Tokens(others[i])
    ensures CpuScan([Unwords(["cpu"] + CounterWords(c))] + others) == CounterWords(c)
    decreases |others|
  {
    var lines := [Unwords(["cpu"] + CounterWords(c))] + others;
    if others == [] {
      var ws := ["cpu"] + CounterWords(c);
      forall k | 0 <= k < |ws| ensures IsWord(ws[k]) {
        if k > 0 {
          var d := DecimalString(c[k - 1]);
          assert ws[k] == d;
          assert forall ch :: ch in d ==> IsDigit(ch) && !IsSpace(ch);
        }
      }
      TokensOfUnwords(ws);
      assert lines[..0] == [];
      CpuLineAnywhere([], CounterWords(c), seq(CpuStates, _ => ""));
      assert [] + ["cpu"] + CounterWords(c) == ws;
    } else {
      var n := |lines| - 1;
      assert lines[..n] == [Unwords(["cpu"] + CounterWords(c))] + others[..|others| - 1];
      assert lines[n] == others[|others| - 1];
      CpuUtilizationOfStat(c, others[..|others| - 1]);
      CpuLineWithoutCpu(Tokens(lines[n]), CpuScan(lines[..n]));
    }
  }

  // ---------------------------------------------------------------------
  // Jiffies, ActiveJiffies, IdleJiffies: sums of the counters

  /** Each counter read with std::stol; `None` where std::stol throws. */
  function CounterValues(j: seq<string>): (c: seq<Option<int>>)
    requires |j| == CpuStates
    ensures |c| == CpuStates
  {
    seq(CpuStates, k requires 0 <= k < CpuStates => LeadingInt(j[k]))
  }

  /** user + nice + system + irq + softirq + steal; `None` when any of them
      is not a number. */
  function ActiveSum(c: seq<Option<int>>): Option<int>
    requires |c| == CpuStates
  {
    if c[kUser].Some? && c[kNice].Some? && c[kSystem].Some? && c[kIRQ].Some? && c[kSoftIRQ].Some? && c[kSteal].Some? then
      Some(c[kUser].value + c[kNice].value + c[kSystem].value + c[kIRQ].value + c[kSoftIRQ].value + c[kSteal].value)
    else None
  }

  /** idle + iowait; `None` when either is not a number. */
  function IdleSum(c: seq<Option<int>>): Option<int>
    requires |c| == CpuStates
  {
    if c[kIdle].Some? && c[kIOwait].Some? then Some(c[kIdle].value + c[kIOwait].value) else None
  }

  /** ActiveJiffies(): std::stol of the user, nice, system, irq, softirq
      and steal counters of the scanned `cpu` line, summed; `None` when any
      of the six reads throws. */
  function ActiveJiffies(lines: seq<string>): (r: Option<int>)
    ensures var j := CpuScan(lines);
      r.Some? <==> LeadingInt(j[kUser]).Some? && LeadingInt(j[kNice]).Some? && LeadingInt(j[kSystem]).Some?
                   && LeadingInt(j[kIRQ]).Some? && LeadingInt(j[kSoftIRQ]).Some? && LeadingInt(j[kSteal]).Some?
    ensures var j := CpuScan(lines);
      r.Some? ==> r.value == LeadingInt(j[kUser]).value + LeadingInt(j[kNice]).value + LeadingInt(j[kSystem]).value
                             + LeadingInt(j[kIRQ]).value + LeadingInt(j[kSoftIRQ]).value + LeadingInt(j[kSteal]).value
  {
    ActiveSum(CounterValues(CpuScan(lines)))
  }

  /** IdleJiffies(): std::stol of the idle and iowait counters of the
      scanned `cpu` line, summed; `None` when either read throws. */
  function IdleJiffies(lines: seq<string>): (r: Option<int>)
    ensures var j := CpuScan(lines);
      r.Some? <==> LeadingInt(j[kIdle]).Some? && LeadingInt(j[kIOwait]).Some?
    ensures var j := CpuScan(lines);
      r.Some? ==> r.value == LeadingInt(j[kIdle]).value + LeadingInt(j[kIOwait]).value
  {
    IdleSum(CounterValues(CpuScan(lines)))
  }

  /** The active sum plus the idle sum: defined exactly when the eight
      counters user..steal all read as numbers, and then their sum (the two
      guest counters take no part). */
  function TotalSum(c: seq<Option<int>>): (r: Option<int>)
    requires |c| == CpuStates
    ensures r.Some? <==> (forall k :: kUser <= k <= kSteal ==> c[k].Some?)
    ensures r.Some? ==> r.value == c[kUser].value + c[kNice].value + c[kSystem].value + c[kIdle].value
                                   + c[kIOwait].value + c[kIRQ].value + c[kSoftIRQ].value + c[kSteal].value
  {
    var active, idle := ActiveSum(c), IdleSum(c);
    if active.Some? && idle.Some? then Some(active.value + idle.value) else None
  }

  /** Jiffies() = ActiveJiffies() + IdleJiffies(): defined exactly when
      both are, and then their sum. */
  function Jiffies(lines: seq<string>): (r: Option<int>)
    ensures r.Some? <==> ActiveJiffies(lines).Some? && IdleJiffies(lines).Some?
    ensures r.Some? ==> r.value == ActiveJiffies(lines).value + IdleJiffies(lines).value
  {
    TotalSum(CounterValues(CpuScan(lines)))
  }

  /** Reading `cpu c0 ... c9` back: every counter is the number written. */
  lemma CountersReadBack(c: seq<nat>, others: seq<string>)
    requires |c| == CpuStates
    requires forall i :: 0 <= i < |others| ==> "cpu" !in Tokens(others[i])
    ensures var v := CounterValues(CpuScan([Unwords(["cpu"] + CounterWords(c))] + others));
      forall k :: 0 <= k < CpuStates ==> v[k] == Some(c[k] as int)
  {
    CpuUtilizationOfStat(c, others);
    ValuesOfCounterWords(c);
  }

  /** std::stol reads every counter back from its decimal string. */
  lemma ValuesOfCounterWords(c: seq<nat>)
    requires |c| == CpuStates
    ensures forall k :: 0 <= k < CpuStates ==> CounterValues(CounterWords(c))[k] == Some(c[k] as int)
  {
    forall k | 0 <= k < CpuStates ensures CounterValues(CounterWords(c))[k] == Some(c[k] as int) {
      assert CounterWords(c)[k] == DecimalString(c[k]);
      LeadingIntOfDecimal(c[k]);
    }
  }

  /** The sums of counters that all read as numbers. */
  lemma SumsOfNumbers(c: seq<nat>, v: seq<Option<int>>)
    requires |c| == CpuStates && |v| == CpuStates
    requires forall k :: 0 <= k < CpuStates ==> v[k] == Some(c[k] as int)
    ensures ActiveSum(v) == Some(c[kUser] + c[kNice] + c[kSystem] + c[kIRQ] + c[kSoftIRQ] + c[kSteal])
    ensures IdleSum(v) == Some(c[kIdle] + c[kIOwait])
    ensures TotalSum(v) == Some(c[kUser] + c[kNice] + c[kSystem] + c[kIdle] + c[kIOwait]
                                + c[kIRQ] + c[kSoftIRQ] + c[kSteal])
  {
    assert v[kUser] == Some(c[kUser] as int) && v[kNice] == Some(c[kNice] as int);
    assert v[kSystem] == Some(c[kSystem] as int) && v[kIdle] == Some(c[kIdle] as int);
    assert v[kIOwait] == Some(c[kIOwait] as int) && v[kIRQ] == Some(c[kIRQ] as int);
    assert v[kSoftIRQ] == Some(c[kSoftIRQ] as int) && v[kSteal] == Some(c[kSteal] as int);
  }

  /** The active, idle and total sums of `cpu c0 ... c9` are those of the
      counters. */
  lemma JiffiesOfCounters(c: seq<nat>, others: seq<string>)
    requires |c| == CpuStates
    requires forall i :: 0 <= i < |others| ==> "cpu" !in Tokens(others[i])
    ensures var lines := [Unwords(["cpu"] + CounterWords(c))] + others;
      && ActiveJiffies(lines) == Some(c[kUser] + c[kNice] + c[kSystem] + c[kIRQ] + c[kSoftIRQ] + c[kSteal])
      && IdleJiffies(lines) == Some(c[kIdle] + c[kIOwait])
      && Jiffies(lines) == Some(c[kUser] + c[kNice] + c[kSystem] + c[kIdle] + c[kIOwait]
                                + c[kIRQ] + c[kSoftIRQ] + c[kSteal])
  {
    CpuUtilizationOfStat(c, others);
    ValuesOfCounterWords(c);
    SumsOfNumbers(c, CounterValues(CounterWords(c)));
  }

  /** Example: `cpu 10 20 30 40 50 60 70 80 90 100` gives 270 active,
      90 idle and 360 jiffies in all. */
  lemma JiffiesExample(c: seq<nat>)
    requires c == [10, 20, 30, 40, 50, 60, 70, 80, 90, 100]
    ensures var lines := [Unwords(["cpu"] + CounterWords(c))];
      ActiveJiffies(lines) == Some(270) && IdleJiffies(lines) == Some(90) && Jiffies(lines) == Some(360)
  {
    JiffiesOfCounters(c, []);
    assert [Unwords(["cpu"] + CounterWords(c))] + [] == [Unwords(["cpu"] + CounterWords(c))];
  }

  // ---------------------------------------------------------------------
  // TotalProcesses, RunningProcesses: numeric keys of /proc/stat

  /** The pair loop (a word, then a number) that returns the number paired
      with the first `k`, over one
      line: pairs start at even positions, and the loop stops at the first
      pair whose second token is not a number. */
  function IntPairScan(t: seq<string>, k: string): Option<int>
    decreases |t|
  {
    if |t| < 2 || !IsNumeral(t[1]) then None
    else if t[0] == k then Some(NumeralValue(t[1]))
    else IntPairScan(t[2..], k)
  }

  /** The value paired with the first `k` of the file; `None` when there is
      none (the source then returns an uninitialised variable). */
  function StatValueOf(lines: seq<string>, k: string): Option<int>
    decreases |lines|
  {
    if lines == [] then None
    else
      match IntPairScan(Tokens(lines[0]), k)
      case Some(v) => Some(v)
      case None => StatValueOf(lines[1..], k)
  }

  /** The scan TotalProcesses and RunningProcesses share. */
  method StatValue(lines: seq<string>, key: string) returns (value: Option<int>)
    ensures value == StatValueOf(lines, key)
  {
    var i := 0;
    while i < |lines|
      invariant 0 <= i <= |lines|
      invariant StatValueOf(lines[i..], key) == StatValueOf(lines, key)
    {
      var tokens := Tokens(lines[i]);
      var j := 0;
      while j + 1 < |tokens| && IsNumeral(tokens[j + 1])
        invariant 0 <= j <= |tokens|
        invariant IntPairScan(tokens[j..], key) == IntPairScan(tokens, key)
      {
        if tokens[j] == key {
          value := Some(NumeralValue(tokens[j + 1]));
          return;
        }
        assert tokens[j..][2..] == tokens[j + 2..];
        j := j + 2;
      }
      assert lines[i..][1..] == lines[i + 1..];
      i := i + 1;
    }
    value := None;
  }

  method TotalProcesses(lines: seq<string>) returns (processes: Option<int>)
    ensures processes == StatValueOf(lines, "processes")
  {
    processes := StatValue(lines, "processes");
  }

  method RunningProcesses(lines: seq<string>) returns (running: Option<int>)
    ensures running == StatValueOf(lines, "procs_running")
  {
    running := StatValue(lines, "procs_running");
  }

  /** The first pair keyed `k` decides a line, provided every pair before
      it was read (its second token a number). */
  lemma {:induction false} IntPairScanFirstMatch(t: seq<string>, k: string, j: nat)
    requires j % 2 == 0 && j + 1 < |t| && t[j] == k && IsNumeral(t[j + 1])
    requires forall i :: 0 <= i < j && i % 2 == 0 ==> t[i] != k
    requires forall i :: 0 < i < j && i % 2 == 1 ==> IsNumeral(t[i])
    ensures IntPairScan(t, k) == Some(NumeralValue(t[j + 1]))
    decreases j
  {
    if j > 0 {
      assert t[0] != k && IsNumeral(t[1]);
      var u := t[2..];
      forall i | 0 <= i < j - 2 && i % 2 == 0 ensures u[i] != k {
        assert u[i] == t[i + 2] && (i + 2) % 2 == 0;
      }
      forall i | 0 < i < j - 2 && i % 2 == 1 ensures IsNumeral(u[i]) {
        assert u[i] == t[i + 2] && (i + 2) % 2 == 1;
      }
      IntPairScanFirstMatch(u, k, j - 2);
    }
  }

  /** A value found is the number right after a `k` at an even position. */
  lemma {:induction false} IntPairScanSound(t: seq<string>, k: string)
    requires IntPairScan(t, k).Some?
    ensures exists j :: (0 <= j && j + 1 < |t| && j % 2 == 0 && t[j] == k && IsNumeral(t[j + 1])
                         && NumeralValue(t[j + 1]) == IntPairScan(t, k).value)
    decreases |t|
  {
    if t[0] != k {
      IntPairScanSound(t[2..], k);
      var j :| 0 <= j && j + 1 < |t[2..]| && j % 2 == 0 && t[2..][j] == k && IsNumeral(t[2..][j + 1])
        && NumeralValue(t[2..][j + 1]) == IntPairScan(t[2..], k).value;
      assert t[j + 2] == k && t[j + 3] == t[2..][j + 1];
      assert (j + 2) % 2 == 0;
    } else {
      assert t[0] == k && 0 % 2 == 0;
    }
  }

  /** Scanning a file in two parts: the first part's value wins. */
  lemma {:induction false} StatValueOfAppend(a: seq<string>, b: seq<string>, k: string)
    ensures StatValueOf(a + b, k) == if StatValueOf(a, k).Some? then StatValueOf(a, k) else StatValueOf(b, k)
    decreases |a|
  {
    if a == [] {
      assert a + b == b;
    } else {
      assert (a + b)[0] == a[0];
      assert (a + b)[1..] == a[1..] + b;
      StatValueOfAppend(a[1..], b, k);
    }
  }

  /** A `key value` line after lines without the key gives its value;
      what follows does not matter. */
  lemma StatValueOfLine(pre: seq<string>, k: string, v: int, rest: seq<string>)
    requires IsWord(k) && StatValueOf(pre, k).None?
    ensures StatValueOf(pre + [Unwords([k, IntToString(v)])] + rest, k) == Some(v)
  {
    var w := IntToString(v);
    NumeralOfString(v);
    assert IsWord(w) by {
      assert w[0] == '-' || w[0] in w;
      forall c | c in w ensures !IsSpace(c) {
        if v < 0 {
          assert w == "-" + DecimalString(-v);
          assert c == '-' || c in DecimalString(-v);
        }
      }
    }
    TokensOfUnwords([k, w]);
    IntPairScanFirstMatch([k, w], k, 0);
    var line := Unwords([k, w]);
    StatValueOfAppend(pre, [line] + rest, k);
    assert pre + [line] + rest == pre + ([line] + rest);
    assert ([line] + rest)[0] == line;
  }
}
