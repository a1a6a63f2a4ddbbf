/** The per-process accessors of LinuxParser: the ones that take a pid and
    read /proc/[pid]/cmdline, /proc/[pid]/status, /proc/[pid]/stat and
    /etc/passwd. Every file is given as its lines; the pid only chooses
    which file, so it does not appear. */
module PidParser {
  import opened Options
  import opened Text
  import LinuxParser

  // ---------------------------------------------------------------------
  // Command: /proc/[pid]/cmdline

  /** One std::getline: the first line of the file, or empty when there is
      none. */
  function Command(lines: seq<string>): (command: string)
    ensures lines != [] ==> command == lines[0]
    ensures lines == [] ==> command == ""
  {
    LinuxParser.FirstLine(lines)
  }

  // ---------------------------------------------------------------------
  // Ram: the VmSize: entry of /proc/[pid]/status

  const VmSizeKey := "VmSize:"

  /** The loop that extracts three words at a time (key, size, unit), over
      the tokens of one line: triples start at positions 0, 3, 6, ...; the
      loop ends when fewer than three tokens are left. */
  function VmSizeInLine(t: seq<string>): Option<string>
    decreases |t|
  {
    if |t| < 3 then None
    else if t[0] == VmSizeKey then Some(t[1])
    else VmSizeInLine(t[3..])
  }

  /** The size paired with the first VmSize: of the file. */
  function VmSizeOf(lines: seq<string>): Option<string>
    decreases |lines|
  {
    if lines == [] then None
    else
      match VmSizeInLine(Tokens(lines[0]))
      case Some(size) => Some(size)
      case None => VmSizeOf(lines[1..])
  }

  /** The size read with std::stol, divided by 1000 and truncated toward
      zero to whole megabytes, in decimal; "0" when there is no VmSize:
      entry; `None` when std::stol throws on the size. */
  function RamOf(lines: seq<string>): Option<string> {
    match VmSizeOf(lines)
    case None => Some(IntToString(0))
    case Some(size) =>
      match LeadingInt(size)
      case None => None
      case Some(kb) => Some(IntToString(TruncDiv(kb, 1000)))
  }

  method Ram(lines: seq<string>) returns (ram: Option<string>)
    ensures ram == RamOf(lines)
  {
    var unitInMb := 0;
    var i := 0;
    while i < |lines|
      invariant 0 <= i <= |lines|
      invariant VmSizeOf(lines[i..]) == VmSizeOf(lines)
    {
      var tokens := Tokens(lines[i]);
      var j := 0;
      while j + 2 < |tokens|
        invariant 0 <= j <= |tokens|
        invariant VmSizeInLine(tokens[j..]) == VmSizeInLine(tokens)
      {
        if tokens[j] == VmSizeKey {
          assert lines[i..][0] == lines[i];
          var size := LeadingInt(tokens[j + 1]);
          if size.None? {
            return None;
          }
          unitInMb := TruncDiv(size.value, 1000);
          return Some(IntToString(unitInMb));
        }
        assert tokens[j..][3..] == tokens[j + 3..];
        j := j + 3;
      }
      assert lines[i..][0] == lines[i];
      assert lines[i..][1..] == lines[i + 1..];
      i := i + 1;
    }
    ram := Some(IntToString(unitInMb));
  }

  /** Scanning a file in two parts: the first part's VmSize: wins. */
  lemma {:induction false} VmSizeOfAppend(a: seq<string>, b: seq<string>)
    ensures VmSizeOf(a + b) == if VmSizeOf(a).Some? then VmSizeOf(a) else VmSizeOf(b)
    decreases |a|
  {
    if a == [] {
      assert a + b == b;
    } else {
      assert (a + b)[0] == a[0];
      assert (a + b)[1..] == a[1..] + b;
      VmSizeOfAppend(a[1..], b);
    }
  }

  /** `VmSize: kb unit` after lines without one gives ⌊kb / 1000⌋ megabytes
      in decimal. */
  lemma RamOfVmSize(pre: seq<string>, kb: nat, unit: string, rest: seq<string>)
    requires VmSizeOf(pre).None? && IsWord(unit)
    ensures RamOf(pre + [Unwords([VmSizeKey, DecimalString(kb), unit])] + rest) == Some(DecimalString(kb / 1000))
  {
    var d := DecimalString(kb);
    var line := Unwords([VmSizeKey, d, unit]);
    assert IsWord(VmSizeKey);
    LinuxParser.DecimalIsWord(kb);
    TokensOfUnwords([VmSizeKey, d, unit]);
    assert VmSizeOf([line] + rest) == Some(d) by {
      assert ([line] + rest)[0] == line;
    }
    VmSizeOfAppend(pre, [line] + rest);
    assert pre + [line] + rest == pre + ([line] + rest);
    assert IntToString(kb) == d && d + [] == d;
    LeadingIntOfString(kb, []);
    assert TruncDiv(kb, 1000) == kb / 1000;
  }

  /** Example: `VmSize: 5000 kB` gives "5". */
  lemma RamExample()
    ensures RamOf([Unwords([VmSizeKey, DecimalString(5000), LinuxParser.KiloBytes])]) == Some("5")
  {
    assert IsWord(LinuxParser.KiloBytes);
    RamOfVmSize([], 5000, LinuxParser.KiloBytes, []);
    assert [] + [Unwords([VmSizeKey, DecimalString(5000), LinuxParser.KiloBytes])] + []
      == [Unwords([VmSizeKey, DecimalString(5000), LinuxParser.KiloBytes])];
    assert DecimalString(5) == "5";
  }

  /** A `VmSize: kb` line without a unit is never read: the triple loop stops
      on it, and Ram gives "0". */
  lemma RamWithoutUnit(kb: nat)
    ensures RamOf([Unwords([VmSizeKey, DecimalString(kb)])]) == Some("0")
  {
    assert IsWord(VmSizeKey);
    LinuxParser.DecimalIsWord(kb);
    var line := Unwords([VmSizeKey, DecimalString(kb)]);
    TokensOfUnwords([VmSizeKey, DecimalString(kb)]);
    assert VmSizeInLine(Tokens(line)) == None;
    assert [line][0] == line && [line][1..] == [];
    assert VmSizeOf([line]) == None;
    assert IntToString(0) == "0";
  }

  /** The string Ram returns reads back, with std::stol, as the size in kB
      divided by 1000 and truncated. */
  lemma RamReadsBack(lines: seq<string>)
    requires VmSizeOf(lines).Some? && LeadingInt(VmSizeOf(lines).value).Some?
    ensures RamOf(lines).Some?
    ensures LeadingInt(RamOf(lines).value) == Some(TruncDiv(LeadingInt(VmSizeOf(lines).value).value, 1000))
  {
    var q := TruncDiv(LeadingInt(VmSizeOf(lines).value).value, 1000);
    LeadingIntOfString(q, []);
    assert IntToString(q) + [] == IntToString(q);
  }

  // ---------------------------------------------------------------------
  // Uid: the Uid: entry of /proc/[pid]/status

  const UidKey := "Uid:"

  /** The pair loop that returns the value of the first pair keyed Uid:,
      over the lines, the value variable carried from line to line. */
  function UidScan(lines: seq<string>, userid: string): LinuxParser.Step<string>
    decreases |lines|
  {
    if lines == [] then LinuxParser.Carry(userid)
    else
      match LinuxParser.PairScan(Tokens(lines[0]), UidKey, userid)
      case Found(v) => LinuxParser.Found(v)
      case Carry(v) => UidScan(lines[1..], v)
  }

  /** The real user id; without a Uid: key, the last value read. */
  function UidOf(lines: seq<string>): string {
    match UidScan(lines, "")
    case Found(v) => v
    case Carry(v) => v
  }

  method Uid(lines: seq<string>) returns (userid: string)
    ensures userid == UidOf(lines)
  {
    userid := "";
    var i := 0;
    while i < |lines|
      invariant 0 <= i <= |lines|
      invariant UidScan(lines[i..], userid) == UidScan(lines, "")
    {
      var tokens := Tokens(lines[i]);
      ghost var atLineStart := userid;
      var j := 0;
      while j + 1 < |tokens|
        invariant 0 <= j <= |tokens|
        invariant LinuxParser.PairScan(tokens[j..], UidKey, userid) == LinuxParser.PairScan(tokens, UidKey, atLineStart)
      {
        var key := tokens[j];
        userid := tokens[j + 1];
        if key == UidKey {
          assert lines[i..][0] == lines[i];
          return;
        }
        assert tokens[j..][2..] == tokens[j + 2..];
        j := j + 2;
      }
      assert lines[i..][0] == lines[i];
      assert lines[i..][1..] == lines[i + 1..];
      i := i + 1;
    }
  }

  /** Scanning a file in two parts: the first part's Uid: wins, and the
      second part starts from the value the first left behind. */
  lemma {:induction false} UidScanAppend(a: seq<string>, b: seq<string>, userid: string)
    ensures UidScan(a + b, userid) ==
      match UidScan(a, userid)
      case Found(v) => LinuxParser.Found(v)
      case Carry(v) => UidScan(b, v)
    decreases |a|
  {
    if a != [] {
      assert (a + b)[0] == a[0];
      assert (a + b)[1..] == a[1..] + b;
      match LinuxParser.PairScan(Tokens(a[0]), UidKey, userid)
      case Found(v) =>
      case Carry(v) => UidScanAppend(a[1..], b, v);
    } else {
      assert a + b == b;
    }
  }

  /** `Uid: real effective saved fs` after lines without a Uid: key gives the
      real user id, the first of the four. */
  lemma UidOfStatusLine(pre: seq<string>, ruid: string, ids: seq<string>, rest: seq<string>)
    requires UidScan(pre, "").Carry?
    requires IsWord(ruid) && forall k :: 0 <= k < |ids| ==> IsWord(ids[k])
    ensures UidOf(pre + [Unwords([UidKey, ruid] + ids)] + rest) == ruid
  {
    var ws := [UidKey, ruid] + ids;
    var line := Unwords(ws);
    assert IsWord(UidKey);
    assert forall k :: 0 <= k < |ws| ==> IsWord(ws[k]);
    TokensOfUnwords(ws);
    var last := UidScan(pre, "").last;
    LinuxParser.PairScanFirstMatch(ws, UidKey, last, 0);
    assert ([line] + rest)[0] == line;
    assert UidScan([line] + rest, last) == LinuxParser.Found(ruid);
    UidScanAppend(pre, [line] + rest, "");
    assert pre + [line] + rest == pre + ([line] + rest);
  }

  /** Without a Uid: key the value of the last pair read comes back: a
      `Gid: 100` line gives "100". */
  lemma UidWithoutKey(k: string, v: string)
    requires IsWord(k) && IsWord(v) && k != UidKey
    ensures UidOf([Unwords([k, v])]) == v
  {
    TokensOfUnwords([k, v]);
    assert [k, v][2..] == [];
    var line := Unwords([k, v]);
    assert LinuxParser.PairScan(Tokens(line), UidKey, "") == LinuxParser.Carry(v);
    assert [line][0] == line && [line][1..] == [];
    assert UidScan([line], "") == UidScan([], v);
  }

  // ---------------------------------------------------------------------
  // User: the /etc/passwd name of a user id

  /** The tokens of a passwd line once std::replace has blanked every ':'
      and then every 'x' -- also those inside names. */
  function PasswdTokens(line: string): seq<string> {
    Tokens(Replace(Replace(line, ':', ' '), 'x', ' '))
  }

  /** The pair loop (name, then id) that returns the name of the first pair
      whose id is `uid`, over one line. A trailing odd token is still read into `username`
      before the read of `userid` fails; `last` is what `username` held
      before the line. */
  function UserScan(t: seq<string>, uid: string, last: string): LinuxParser.Step<string>
    decreases |t|
  {
    if t == [] then LinuxParser.Carry(last)
    else if |t| == 1 then LinuxParser.Carry(t[0])
    else if t[1] == uid then LinuxParser.Found(t[0])
    else UserScan(t[2..], uid, t[0])
  }

  /** The scan over the lines of the file, `username` carried along. */
  function UserLines(lines: seq<string>, uid: string, username: string): LinuxParser.Step<string>
    decreases |lines|
  {
    if lines == [] then LinuxParser.Carry(username)
    else
      match UserScan(PasswdTokens(lines[0]), uid, username)
      case Found(v) => LinuxParser.Found(v)
      case Carry(v) => UserLines(lines[1..], uid, v)
  }

  /** The name paired with `uid`; without one, the last name read. */
  function UserOf(passwd: seq<string>, uid: string): string {
    match UserLines(passwd, uid, "")
    case Found(v) => v
    case Carry(v) => v
  }

  /** User(pid): the user id comes from the process's status file, read once
      (the source reads it again for every pair; the file is the same). */
  method User(passwd: seq<string>, status: seq<string>) returns (username: string)
    ensures username == UserOf(passwd, UidOf(status))
  {
    var uid := Uid(status);
    username := "";
    var i := 0;
    while i < |passwd|
      invariant 0 <= i <= |passwd|
      invariant UserLines(passwd[i..], uid, username) == UserLines(passwd, uid, "")
    {
      var line := Replace(passwd[i], ':', ' ');
      line := Replace(line, 'x', ' ');
      var tokens := Tokens(line);
      ghost var atLineStart := username;
      var j := 0;
      while j < |tokens|
        invariant 0 <= j <= |tokens|
        invariant UserScan(tokens[j..], uid, username) == UserScan(tokens, uid, atLineStart)
      {
        username := tokens[j];
        if j + 1 == |tokens| {
          j := j + 1;
        } else {
          var userid := tokens[j + 1];
          if userid == uid {
            assert passwd[i..][0] == passwd[i];
            return;
          }
          assert tokens[j..][2..] == tokens[j + 2..];
          j := j + 2;
        }
      }
      assert passwd[i..][0] == passwd[i];
      assert passwd[i..][1..] == passwd[i + 1..];
      i := i + 1;
    }
  }

  /** Scanning the passwd file in two parts: the first part's match wins. */
  lemma {:induction false} UserLinesAppend(a: seq<string>, b: seq<string>, uid: string, username: string)
    ensures UserLines(a + b, uid, username) ==
      match UserLines(a, uid, username)
      case Found(v) => LinuxParser.Found(v)
      case Carry(v) => UserLines(b, uid, v)
    decreases |a|
  {
    if a != [] {
      assert (a + b)[0] == a[0];
      assert (a + b)[1..] == a[1..] + b;
      match UserScan(PasswdTokens(a[0]), uid, username)
      case Found(v) =>
      case Carry(v) => UserLinesAppend(a[1..], b, uid, v);
    } else {
      assert a + b == b;
    }
  }

  /** A passwd field the rewrite leaves whole: one word with no ':' or 'x'. */
  predicate IsPasswdField(f: string) {
    IsWord(f) && ':' !in f && 'x' !in f
  }

  /** The passwd line `name:x:uid:tail`. */
  function PasswdLine(name: string, uid: string, tail: string): string {
    name + ":x:" + uid + ":" + tail
  }

  /** Leading blanks do not change the tokens. */
  lemma {:induction false} TokensAfterBlanks(gap: string, y: string)
    requires forall i :: 0 <= i < |gap| ==> IsSpace(gap[i])
    ensures Tokens(gap + y) == Tokens(y)
    decreases |gap|
  {
    if gap != [] {
      assert gap + y == [] + [gap[0]] + (gap[1..] + y);
      TokensAroundSpace([], gap[0], gap[1..] + y);
      assert Tokens([]) == [];
      assert forall i :: 0 <= i < |gap[1..]| ==> gap[1..][i] == gap[i + 1];
      TokensAfterBlanks(gap[1..], y);
      assert Tokens(gap + y) == [] + Tokens(gap[1..] + y);
    } else {
      assert gap + y == y;
    }
  }

  /** A word followed by blanks is the first token. */
  lemma TokensOfWordThenBlanks(a: string, gap: string, y: string)
    requires IsWord(a)
    requires gap != [] && forall i :: 0 <= i < |gap| ==> IsSpace(gap[i])
    ensures Tokens(a + gap + y) == [a] + Tokens(y)
  {
    assert a + gap + y == a + [gap[0]] + (gap[1..] + y);
    TokensAroundSpace(a, gap[0], gap[1..] + y);
    assert forall i :: 0 <= i < |gap[1..]| ==> gap[1..][i] == gap[i + 1];
    TokensAfterBlanks(gap[1..], y);
    TokensOfWord(a);
  }

  /** Two words separated by blanks and followed by a blank start the tokens. */
  lemma TokensOfTwoWords(a: string, gap: string, b: string, r: string)
    requires IsWord(a) && IsWord(b)
    requires gap != [] && forall i :: 0 <= i < |gap| ==> IsSpace(gap[i])
    ensures Tokens(a + gap + b + " " + r) == [a, b] + Tokens(r)
  {
    var y := b + [' '] + r;
    assert a + gap + b + " " + r == a + gap + y;
    TokensOfWordThenBlanks(a, gap, y);
    assert forall i :: 0 <= i < |[' ']| ==> IsSpace([' '][i]);
    TokensOfWordThenBlanks(b, [' '], r);
    assert [a] + ([b] + Tokens(r)) == [a, b] + Tokens(r);
  }

  /** The passwd rewrite of `name:x:uid:tail`. */
  lemma PasswdLineRewrite(name: string, uid: string, tail: string)
    requires ':' !in name && 'x' !in name && ':' !in uid && 'x' !in uid
    ensures Replace(Replace(PasswdLine(name, uid, tail), ':', ' '), 'x', ' ') ==
      name + "   " + uid + " " + Replace(Replace(tail, ':', ' '), 'x', ' ')
  {
    var t1 := Replace(tail, ':', ' ');
    LinuxParser.ReplaceConcat(name + ":x:" + uid + ":", tail, ':', ' ');
    LinuxParser.ReplaceConcat(name + ":x:" + uid, ":", ':', ' ');
    LinuxParser.ReplaceConcat(name + ":x:", uid, ':', ' ');
    LinuxParser.ReplaceConcat(name, ":x:", ':', ' ');
    LinuxParser.ReplaceAbsent(name, ':', ' ');
    LinuxParser.ReplaceAbsent(uid, ':', ' ');
    assert Replace(":x:", ':', ' ') == " x ";
    assert Replace(":", ':', ' ') == " ";
    assert Replace(PasswdLine(name, uid, tail), ':', ' ') == name + " x " + uid + " " + t1;
    LinuxParser.ReplaceConcat(name + " x " + uid + " ", t1, 'x', ' ');
    LinuxParser.ReplaceConcat(name + " x " + uid, " ", 'x', ' ');
    LinuxParser.ReplaceConcat(name + " x ", uid, 'x', ' ');
    LinuxParser.ReplaceConcat(name, " x ", 'x', ' ');
    LinuxParser.ReplaceAbsent(name, 'x', ' ');
    LinuxParser.ReplaceAbsent(uid, 'x', ' ');
    LinuxParser.ReplaceAbsent(" ", 'x', ' ');
    assert Replace(" x ", 'x', ' ') == "   ";
  }

  /** `name:x:uid:...` after lines that do not pair `uid` gives `name`,
      whatever the rest of the line holds. */
  lemma UserOfPasswdLine(pre: seq<string>, name: string, uid: string, tail: string, rest: seq<string>)
    requires UserLines(pre, uid, "").Carry?
    requires IsPasswdField(name) && IsPasswdField(uid)
    ensures UserOf(pre + [PasswdLine(name, uid, tail)] + rest, uid) == name
  {
    var line := PasswdLine(name, uid, tail);
    PasswdLineTokens(name, uid, tail);
    UserLinesOfPairLine(pre, line, name, uid, rest);
  }

  /** The tokens of `name:x:uid:tail` start with the name and the id. */
  lemma PasswdLineTokens(name: string, uid: string, tail: string)
    requires IsPasswdField(name) && IsPasswdField(uid)
    ensures |PasswdTokens(PasswdLine(name, uid, tail))| >= 2
    ensures PasswdTokens(PasswdLine(name, uid, tail))[0] == name
    ensures PasswdTokens(PasswdLine(name, uid, tail))[1] == uid
  {
    PasswdLineRewrite(name, uid, tail);
    var r := Replace(Replace(tail, ':', ' '), 'x', ' ');
    TokensOfTwoWords(name, "   ", uid, r);
  }

  /** A line whose first pair is `name uid` answers the scan for `uid`,
      after lines that did not. */
  lemma UserLinesOfPairLine(pre: seq<string>, line: string, name: string, uid: string, rest: seq<string>)
    requires UserLines(pre, uid, "").Carry?
    requires |PasswdTokens(line)| >= 2 && PasswdTokens(line)[0] == name && PasswdTokens(line)[1] == uid
    ensures UserOf(pre + [line] + rest, uid) == name
  {
    var last := UserLines(pre, uid, "").last;
    assert UserScan(PasswdTokens(line), uid, last) == LinuxParser.Found(name);
    assert ([line] + rest)[0] == line;
    assert UserLines([line] + rest, uid, last) == LinuxParser.Found(name);
    UserLinesAppend(pre, [line] + rest, uid, "");
    assert pre + [line] + rest == pre + ([line] + rest);
  }

  /** Example: `root:x:0:0:root:/root:/bin/bash` is user 0's line. */
  lemma UserExample()
    ensures UserOf([PasswdLine("root", "0", "0:root:/root:/bin/bash")], "0") == "root"
  {
    assert IsPasswdField("root") && IsPasswdField("0");
    UserOfPasswdLine([], "root", "0", "0:root:/root:/bin/bash", []);
    assert [] + [PasswdLine("root", "0", "0:root:/root:/bin/bash")] + []
      == [PasswdLine("root", "0", "0:root:/root:/bin/bash")];
  }

  /** A name ending in 'x' loses it: `alex:x:1000:...` gives "ale" for 1000,
      because every 'x' of the line is blanked. */
  lemma UserNameLosesX(pre: seq<string>, stem: string, uid: string, tail: string, rest: seq<string>)
    requires UserLines(pre, uid, "").Carry?
    requires IsPasswdField(stem) && IsPasswdField(uid)
    ensures UserOf(pre + [PasswdLine(stem + "x", uid, tail)] + rest, uid) == stem
  {
    StemLineTokens(stem, uid, tail);
    UserLinesOfPairLine(pre, PasswdLine(stem + "x", uid, tail), stem, uid, rest);
  }

  /** The tokens of `stem` + `x:x:uid:tail` start with `stem` and `uid`. */
  lemma StemLineTokens(stem: string, uid: string, tail: string)
    requires IsPasswdField(stem) && IsPasswdField(uid)
    ensures var t := PasswdTokens(PasswdLine(stem + "x", uid, tail));
      |t| >= 2 && t[0] == stem && t[1] == uid
  {
    var line := PasswdLine(stem + "x", uid, tail);
    assert line == stem + "x:x:" + uid + ":" + tail;
    var r := Replace(Replace(tail, ':', ' '), 'x', ' ');
    StemRewrite(stem, uid, tail);
    TokensOfTwoWords(stem, "    ", uid, r);
    assert PasswdTokens(line) == [stem, uid] + Tokens(r);
  }

  /** The rewrite of `stem` + `x:x:uid:tail`. */
  lemma StemRewrite(stem: string, uid: string, tail: string)
    requires ':' !in stem && 'x' !in stem && ':' !in uid && 'x' !in uid
    ensures Replace(Replace(stem + "x:x:" + uid + ":" + tail, ':', ' '), 'x', ' ') ==
      stem + "    " + uid + " " + Replace(Replace(tail, ':', ' '), 'x', ' ')
  {
    var t1 := Replace(tail, ':', ' ');
    LinuxParser.ReplaceConcat(stem + "x:x:" + uid + ":", tail, ':', ' ');
    LinuxParser.ReplaceConcat(stem + "x:x:" + uid, ":", ':', ' ');
    LinuxParser.ReplaceConcat(stem + "x:x:", uid, ':', ' ');
    LinuxParser.ReplaceConcat(stem, "x:x:", ':', ' ');
    LinuxParser.ReplaceAbsent(stem, ':', ' ');
    LinuxParser.ReplaceAbsent(uid, ':', ' ');
    assert Replace("x:x:", ':', ' ') == "x x ";
    assert Replace(":", ':', ' ') == " ";
    LinuxParser.ReplaceConcat(stem + "x x " + uid + " ", t1, 'x', ' ');
    LinuxParser.ReplaceConcat(stem + "x x " + uid, " ", 'x', ' ');
    LinuxParser.ReplaceConcat(stem + "x x ", uid, 'x', ' ');
    LinuxParser.ReplaceConcat(stem, "x x ", 'x', ' ');
    LinuxParser.ReplaceAbsent(stem, 'x', ' ');
    LinuxParser.ReplaceAbsent(uid, 'x', ' ');
    LinuxParser.ReplaceAbsent(" ", 'x', ' ');
    assert Replace("x x ", 'x', ' ') == "    ";
  }

  /** A name that was found has no ':' or 'x' in it. */
  lemma {:induction false} UserFoundHasNoSeparators(lines: seq<string>, uid: string, username: string)
    requires UserLines(lines, uid, username).Found?
    ensures ':' !in UserLines(lines, uid, username).value
    ensures 'x' !in UserLines(lines, uid, username).value
    decreases |lines|
  {
    var t := PasswdTokens(lines[0]);
    match UserScan(t, uid, username)
    case Carry(u) =>
      UserFoundHasNoSeparators(lines[1..], uid, u);
    case Found(v) =>
      UserScanFoundIn(t, uid, username);
      var k :| 0 <= k < |t| && t[k] == v;
      var s1 := Replace(lines[0], ':', ' ');
      var s := Replace(s1, 'x', ' ');
      ReplaceRemoves(s1, 'x', ' ');
      ReplaceRemoves(lines[0], ':', ' ');
      assert ':' !in s by {
        forall i | 0 <= i < |s| ensures s[i] != ':' {
          assert s1[i] in s1;
        }
      }
      forall c | c in v ensures c != ':' && c != 'x' {
        LinuxParser.TokensCharsFrom(s, k, c);
      }
  }

  /** A name that was found is one of the line's tokens. */
  lemma {:induction false} UserScanFoundIn(t: seq<string>, uid: string, last: string)
    requires UserScan(t, uid, last).Found?
    ensures UserScan(t, uid, last).value in t
    decreases |t|
  {
    if t[1] != uid {
      UserScanFoundIn(t[2..], uid, t[0]);
      assert UserScan(t, uid, last).value in t[2..];
    }
  }

  // ---------------------------------------------------------------------
  // ActiveJiffies(pid): fields 14 to 17 of /proc/[pid]/stat

  // Zero-based positions in the stat line: utime, stime, cutime, cstime
  // and starttime.
  const kUtime := 13
  const kStime := 14
  const kCutime := 15
  const kCstime := 16
  const kStarttime := 21

  /** The fields repeated `std::getline(stream, field, ' ')` reads from the
      first line while the stream is good: one per single space, empty ones
      included. */
  function StatFields(lines: seq<string>): seq<string> {
    Split(LinuxParser.FirstLine(lines), ' ')
  }

  /** utime + stime + cutime + cstime of the stat fields, each read with
      std::stoi; `None` when one of them is not a number (std::stoi throws). */
  function StatTimes(f: seq<string>): Option<int>
    requires |f| > kCstime
  {
    var utime, stime := LeadingInt(f[kUtime]), LeadingInt(f[kStime]);
    var cutime, cstime := LeadingInt(f[kCutime]), LeadingInt(f[kCstime]);
    if utime.Some? && stime.Some? && cutime.Some? && cstime.Some? then
      Some(utime.value + stime.value + cutime.value + cstime.value)
    else None
  }

  /** ActiveJiffies(pid) of the stat file. */
  function ActiveJiffiesOf(lines: seq<string>): Option<int>
    requires |StatFields(lines)| > kCstime
  {
    StatTimes(StatFields(lines))
  }

  /** The loop that, while the stream is good, reads up to the next single
      space with std::getline and appends what it read: a field per single
      space, then the rest of the line.
      The stream stays good after a delimiter, so a trailing space yields a
      last, empty field. */
  method GetlineFields(line: string) returns (storestat: seq<string>)
    ensures storestat == Split(line, ' ')
  {
    storestat := [];
    var unread := line;
    var good := true;
    while good
      invariant good ==> storestat + Split(unread, ' ') == Split(line, ' ')
      invariant !good ==> storestat == Split(line, ' ')
      decreases |unread| + (if good then 1 else 0)
    {
      var n := FieldLength(unread, ' ');
      var key := unread[..n];
      ghost var before := storestat;
      storestat := storestat + [key];
      if n < |unread| {
        assert Split(unread, ' ') == [key] + Split(unread[n + 1..], ' ');
        assert storestat + Split(unread[n + 1..], ' ') == before + ([key] + Split(unread[n + 1..], ' '));
        unread := unread[n + 1..];
      } else {
        assert key == unread;
        unread := [];
        good := false;
      }
    }
  }

  /** ActiveJiffies(pid): indexing past the fields read is undefined, so at
      least 17 are required. */
  method ActiveJiffies(lines: seq<string>) returns (jiffies: Option<int>)
    requires |StatFields(lines)| > kCstime
    ensures jiffies == ActiveJiffiesOf(lines)
  {
    var line := LinuxParser.FirstLine(lines);
    var storestat := GetlineFields(line);
    jiffies := StatTimes(storestat);
  }

  /** A stat line whose fields 14 to 17 are the decimal counters utime,
      stime, cutime and cstime gives their sum. */
  lemma ActiveJiffiesOfFields(fs: seq<string>, utime: nat, stime: nat, cutime: nat, cstime: nat, rest: seq<string>)
    requires |fs| > kCstime
    requires forall k :: 0 <= k < |fs| ==> ' ' !in fs[k]
    requires fs[kUtime] == DecimalString(utime) && fs[kStime] == DecimalString(stime)
    requires fs[kCutime] == DecimalString(cutime) && fs[kCstime] == DecimalString(cstime)
    ensures |StatFields([Join(fs, ' ')] + rest)| > kCstime
    ensures ActiveJiffiesOf([Join(fs, ' ')] + rest) == Some(utime + stime + cutime + cstime)
  {
    StatFieldsOfJoin(fs, rest);
    StatTimesOfDecimals(fs, utime, stime, cutime, cstime);
  }

  lemma StatTimesOfDecimals(fs: seq<string>, utime: nat, stime: nat, cutime: nat, cstime: nat)
    requires |fs| > kCstime
    requires fs[kUtime] == DecimalString(utime) && fs[kStime] == DecimalString(stime)
    requires fs[kCutime] == DecimalString(cutime) && fs[kCstime] == DecimalString(cstime)
    ensures StatTimes(fs) == Some(utime + stime + cutime + cstime)
  {
    LeadingIntOfDecimal(utime);
    LeadingIntOfDecimal(stime);
    LeadingIntOfDecimal(cutime);
    LeadingIntOfDecimal(cstime);
    StatTimesOfValues(fs, utime, stime, cutime, cstime);
  }

  /** The four times that read as numbers are summed; stated apart so that
      the sum is not unfolded together with the decimal strings. */
  lemma StatTimesOfValues(fs: seq<string>, utime: nat, stime: nat, cutime: nat, cstime: nat)
    requires |fs| > kCstime
    requires LeadingInt(fs[kUtime]) == Some(utime as int) && LeadingInt(fs[kStime]) == Some(stime as int)
    requires LeadingInt(fs[kCutime]) == Some(cutime as int) && LeadingInt(fs[kCstime]) == Some(cstime as int)
    ensures StatTimes(fs) == Some(utime + stime + cutime + cstime)
  {
  }

  /** The fields of a stat line joined by single spaces are read back. */
  lemma StatFieldsOfJoin(fs: seq<string>, rest: seq<string>)
    requires |fs| >= 1
    requires forall k :: 0 <= k < |fs| ==> ' ' !in fs[k]
    ensures StatFields([Join(fs, ' ')] + rest) == fs
  {
    SplitJoin(fs, ' ');
    assert LinuxParser.FirstLine([Join(fs, ' ')] + rest) == Join(fs, ' ');
  }

  /** Single-space splitting keeps empty fields: a doubled space adds a field
      and shifts every later position, which whitespace tokenising does not. */
  lemma DoubledSpaceShiftsFields(a: string, b: string)
    requires IsWord(a) && IsWord(b)
    ensures Split(a + "  " + b, ' ') == [a, "", b]
    ensures Tokens(a + "  " + b) == [a, b]
  {
    assert ' ' !in a && ' ' !in b by {
      assert forall c :: c in a ==> !IsSpace(c);
      assert forall c :: c in b ==> !IsSpace(c);
    }
    DoubledSpaceJoin(a, b);
    SplitJoin([a, "", b], ' ');
    var mid := [] + [' '] + b;
    assert a + "  " + b == a + [' '] + mid;
    TokensOfWord(a);
    TokensOfWord(b);
    assert Tokens([]) == [];
    TokensAroundSpace([], ' ', b);
    assert Tokens(mid) == [b];
    TokensAroundSpace(a, ' ', mid);
  }

  lemma DoubledSpaceJoin(a: string, b: string)
    ensures Join([a, "", b], ' ') == a + "  " + b
  {
    assert [a, "", b][1..] == ["", b] && ["", b][1..] == [b];
    assert Join(["", b], ' ') == "" + [' '] + b;
  }


  // ---------------------------------------------------------------------
  // UpTime(pid): start time from /proc/[pid]/stat

  /** Every whitespace token of the file, line after line: what the
      `stream >> key` loop collects. */
  function FileTokens(lines: seq<string>): seq<string> {
    if lines == [] then []
    else FileTokens(lines[..|lines| - 1]) + Tokens(lines[|lines| - 1])
  }

  /** System uptime minus starttime / clock ticks, in whole seconds, with
      C++'s truncating long division; `None` when either std::stol throws.
      Indexing past the tokens is undefined, so 22 are required; the clock
      tick rate from sysconf is a parameter and positive. */
  function UpTimeOf(stat: seq<string>, uptime: seq<string>, clockTicks: int): Option<int>
    requires |FileTokens(stat)| > kStarttime && clockTicks > 0
  {
    Elapsed(LinuxParser.UpTime(uptime), LeadingInt(FileTokens(stat)[kStarttime]), clockTicks)
  }

  /** Seconds since the start, from the system uptime and the start time in
      ticks; `None` when either was not read. */
  function Elapsed(system: Option<int>, start: Option<int>, clockTicks: int): Option<int>
    requires clockTicks > 0
  {
    if system.Some? && start.Some? then Some(system.value - TruncDiv(start.value, clockTicks))
    else None
  }

  method UpTime(stat: seq<string>, uptime: seq<string>, clockTicks: int) returns (seconds: Option<int>)
    requires |FileTokens(stat)| > kStarttime && clockTicks > 0
    ensures seconds == UpTimeOf(stat, uptime, clockTicks)
  {
    var stateinfo: seq<string> := [];
    var i := 0;
    while i < |stat|
      invariant 0 <= i <= |stat|
      invariant stateinfo == FileTokens(stat[..i])
    {
      var tokens := Tokens(stat[i]);
      var j := 0;
      while j < |tokens|
        invariant 0 <= j <= |tokens|
        invariant stateinfo == FileTokens(stat[..i]) + tokens[..j]
      {
        stateinfo := stateinfo + [tokens[j]];
        assert tokens[..j + 1] == tokens[..j] + [tokens[j]];
        j := j + 1;
      }
      assert tokens[..j] == tokens;
      assert stat[..i + 1][..i] == stat[..i];
      i := i + 1;
    }
    assert stat[..i] == stat;
    seconds := Elapsed(LinuxParser.UpTime(uptime), LeadingInt(stateinfo[kStarttime]), clockTicks);
  }

  /** Tokens of one line of words are those words. */
  lemma FileTokensOfLine(ws: seq<string>)
    requires forall k :: 0 <= k < |ws| ==> IsWord(ws[k])
    ensures FileTokens([Unwords(ws)]) == ws
  {
    TokensOfUnwords(ws);
    assert [Unwords(ws)][..0] == [];
  }

  /** A process started `start` ticks after boot, on a system up `secs.frac`
      seconds, has been running secs - ⌊start / ticks⌋ seconds. */
  lemma UpTimeOfStart(fs: seq<string>, start: nat, secs: nat, frac: string, clockTicks: int)
    requires |fs| > kStarttime && clockTicks > 0 && AllDigits(frac)
    requires forall k :: 0 <= k < |fs| ==> IsWord(fs[k])
    requires fs[kStarttime] == DecimalString(start)
    ensures |FileTokens([Unwords(fs)])| > kStarttime
    ensures UpTimeOf([Unwords(fs)], [Unwords([DecimalString(secs) + "." + frac])], clockTicks)
      == Some(secs - start / clockTicks)
  {
    FileTokensOfLine(fs);
    var uptime := [Unwords([DecimalString(secs) + "." + frac])];
    LinuxParser.UpTimeWholeSeconds(secs, frac, [], []);
    assert uptime + [] == [Unwords([DecimalString(secs) + "." + frac] + [])];
    LeadingIntOfDecimal(start);
  }
}
