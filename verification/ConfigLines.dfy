// What loadConf makes of any text, in terms of its raw lines.
module ConfigLines {
  import opened Wrappers
  import opened ConfigFile

  // ---------------------------------------------------------------- the forms of a line

  // Spaces and tabs.
  predicate Blanks(s: string) {
    forall k :: 0 <= k < |s| ==> s[k] == ' ' || s[k] == '\t'
  }

  // core between blanks.
  ghost predicate Padded(s: string, core: string) {
    Bare(core) && exists before, after :: AllBlank(before) && AllBlank(after) && s == before + core + after
  }

  // Blank, or with # as its first character that is no blank.
  ghost predicate Ignored(line: string) {
    exists k :: 0 <= k <= |line| && AllBlank(line[..k]) && (k == |line| || line[k] == '#')
  }

  // Any other line with an equals sign: key before the first one, value after it, blanks around both.
  ghost predicate Assigns(line: string, key: string, value: string) {
    !Ignored(line) &&
    exists left, right :: Padded(left, key) && Padded(right, value) && '=' !in left && line == left + "=" + right
  }

  // Any other line without one.
  ghost predicate Bareword(line: string, key: string) {
    !Ignored(line) && '=' !in line && Padded(line, key)
  }

  // Without an equals sign the key is its own value.
  ghost predicate Gives(line: string, key: string, value: string) {
    Assigns(line, key, value) || (Bareword(line, key) && value == key)
  }

  ghost predicate Names(line: string, key: string) {
    exists value :: Gives(line, key, value)
  }

  lemma PaddedIsTrim(s: string, core: string)
    ensures Padded(s, core) <==> core == Trim(s)
  {
    if Padded(s, core) {
      var before, after :| AllBlank(before) && AllBlank(after) && s == before + core + after;
      TrimIs(before, core, after);
    }
    var before, middle, after := Split(s);
    TrimIs(before, middle, after);
  }

  lemma TrimInside(before: string, s: string, after: string)
    requires AllBlank(before) && AllBlank(after)
    ensures Trim(before + s + after) == Trim(s)
  {
    var x, middle, y := Split(s);
    TrimIs(x, middle, y);
    AllBlankConcat(before, x);
    AllBlankConcat(y, after);
    Regroup(before, x, middle, y, after);
    TrimIs(before + x, middle, y + after);
  }

  lemma AllBlankConcat(a: string, b: string)
    requires AllBlank(a) && AllBlank(b)
    ensures AllBlank(a + b)
  {
  }

  lemma Regroup(a: string, x: string, m: string, y: string, b: string)
    ensures a + (x + m + y) + b == (a + x) + m + (y + b)
  {
  }

  lemma IgnoredExactly(line: string)
    ensures Ignored(line) <==> EntryOf(line) == Comment
  {
    var before, middle, after := Split(line);
    TrimIs(before, middle, after);
    if middle == "" || middle[0] == '#' {
      CommentIgnored(before, middle, after);
    } else if Ignored(line) {
      NotIgnored(before, middle, after);
    }
  }

  lemma CommentIgnored(before: string, middle: string, after: string)
    requires AllBlank(before) && AllBlank(after) && (middle == "" || middle[0] == '#')
    ensures Ignored(before + middle + after)
  {
    var line := before + middle + after;
    if middle == "" {
      assert line[..|line|] == before + after;
    } else {
      assert line[..|before|] == before && line[|before|] == middle[0];
    }
  }

  lemma NotIgnored(before: string, middle: string, after: string)
    requires AllBlank(before) && Bare(middle) && middle != "" && middle[0] != '#'
    ensures !Ignored(before + middle + after)
  {
    var line := before + middle + after;
    assert line[|before|] == middle[0];
    forall k | 0 <= k <= |line| ensures !(AllBlank(line[..k]) && (k == |line| || line[k] == '#')) {
      if k > |before| {
        NotAllBlank(line, |before|, k);
      } else if k < |before| {
        assert line[k] == before[k];
      }
    }
  }

  lemma NotAllBlank(s: string, i: nat, k: nat)
    requires i < k <= |s| && !IsBlank(s[i])
    ensures !AllBlank(s[..k])
  {
    assert s[..k][i] == s[i];
  }

  // The blanks at one end of a string.
  lemma {:induction false} FrontBlanks(s: string) returns (blanks: string, rest: string)
    ensures s == blanks + rest && AllBlank(blanks) && (rest != "" ==> !IsBlank(rest[0]))
  {
    if s == "" || !IsBlank(s[0]) {
      blanks, rest := "", s;
    } else {
      blanks, rest := FrontBlanks(s[1..]);
      blanks := [s[0]] + blanks;
    }
  }

  lemma {:induction false} BackBlanks(s: string) returns (rest: string, blanks: string)
    ensures s == rest + blanks && AllBlank(blanks) && (rest != "" ==> !IsBlank(rest[|rest| - 1]))
  {
    if s == "" || !IsBlank(s[|s| - 1]) {
      rest, blanks := s, "";
    } else {
      rest, blanks := BackBlanks(s[..|s| - 1]);
      blanks := blanks + [s[|s| - 1]];
    }
  }

  lemma AssignsEntry(line: string, key: string, value: string)
    requires Assigns(line, key, value)
    ensures EntryOf(line) == Setting(KeyNamed(key), value, true)
  {
    var left, right :| Padded(left, key) && Padded(right, value) && '=' !in left && line == left + "=" + right;
    PaddedIsTrim(left, key);
    PaddedIsTrim(right, value);
    IgnoredExactly(line);
    var before, l := FrontBlanks(left);
    var r, after := BackBlanks(right);
    TrimFrontOnly(left, before, l);
    TrimBackOnly(right, r, after);
    TrimmedAtEquals(line, left, right, before, l, r, after);
    EqualsSplits(line, l, r);
  }

  lemma TrimFrontOnly(s: string, before: string, rest: string)
    requires s == before + rest && AllBlank(before)
    ensures Trim(s) == Trim(rest)
  {
    assert s == before + rest + "";
    TrimInside(before, rest, "");
  }

  lemma TrimBackOnly(s: string, rest: string, after: string)
    requires s == rest + after && AllBlank(after)
    ensures Trim(s) == Trim(rest)
  {
    assert s == "" + rest + after;
    TrimInside("", rest, after);
  }

  lemma TrimmedAtEquals(line: string, left: string, right: string, before: string, l: string, r: string, after: string)
    requires line == left + "=" + right && left == before + l && right == r + after
    requires AllBlank(before) && (l != "" ==> !IsBlank(l[0]))
    requires AllBlank(after) && (r != "" ==> !IsBlank(r[|r| - 1]))
    ensures Trim(line) == l + "=" + r
  {
    assert line == before + (l + "=" + r) + after;
    TrimIs(before, l + "=" + r, after);
  }

  lemma EqualsSplits(line: string, l: string, r: string)
    requires Trim(line) == l + "=" + r && '=' !in l && EntryOf(line) != Comment
    ensures EntryOf(line) == Setting(KeyNamed(Trim(l)), Trim(r), true)
  {
    var t := l + "=" + r;
    assert t[|l|] == '=';
    SplitsAtEquals(t, l, r);
  }

  lemma SplitsAtEquals(t: string, l: string, r: string)
    requires t == l + "=" + r && '=' !in l
    ensures KeyOf(t) == Trim(l) && ValueOf(t) == Trim(r)
  {
    assert forall k :: 0 <= k < |l| ==> t[k] == l[k];
    assert t[..|l|] == l && t[|l| + 1..] == r;
    FindFirstIs(t, c => c == '=', |l|);
  }

  lemma BarewordEntry(line: string, key: string)
    requires Bareword(line, key)
    ensures EntryOf(line) == Setting(KeyNamed(key), key, false)
  {
    PaddedIsTrim(line, key);
    IgnoredExactly(line);
    TrimHoldsNone(line);
    NoEquals(line, key);
  }

  lemma NoEquals(line: string, key: string)
    requires Trim(line) == key && Bare(key) && '=' !in key && EntryOf(line) != Comment
    ensures EntryOf(line) == Setting(KeyNamed(key), key, false)
  {
    TrimIs("", key, "");
    assert "" + key + "" == key;
    FindFirstNone(key, c => c == '=');
  }

  lemma TrimHoldsNone(line: string)
    requires '=' !in line
    ensures '=' !in Trim(line)
  {
    var before, middle, after := Split(line);
    TrimIs(before, middle, after);
    forall k | 0 <= k < |middle| ensures middle[k] != '=' {
      assert middle[k] == line[|before| + k];
    }
  }

  lemma {:induction false} CutAtEquals(line: string) returns (left: string, right: string)
    requires '=' in line
    ensures line == left + "=" + right && '=' !in left
  {
    if line[0] == '=' {
      left, right := "", line[1..];
    } else {
      left, right := CutAtEquals(line[1..]);
      left := [line[0]] + left;
    }
  }

  // Every line has one of the three forms.
  lemma LineForms(line: string)
    ensures Ignored(line) || exists key, value :: Gives(line, key, value)
  {
    if Ignored(line) {
    } else if '=' in line {
      EqualsForm(line);
    } else {
      var key := Core(line);
      assert Gives(line, key, key);
    }
  }

  lemma Core(s: string) returns (core: string)
    ensures Padded(s, core)
  {
    core := Trim(s);
    PaddedIsTrim(s, core);
  }

  lemma EqualsForm(line: string)
    requires !Ignored(line) && '=' in line
    ensures exists key, value :: Gives(line, key, value)
  {
    var left, right := CutAtEquals(line);
    var key := Core(left);
    var value := Core(right);
    assert Gives(line, key, value);
  }

  // The second form spelled out; the blanks round the equals sign are optional.
  lemma AssignsSpelled(before: string, key: string, mid: string, mid2: string, value: string, after: string)
    requires Blanks(before) && Blanks(mid) && Blanks(mid2) && Blanks(after) && Bare(key) && Bare(value)
    requires '=' !in key && (key != "" ==> key[0] != '#')
    ensures Assigns((before + key + mid) + "=" + (mid2 + value + after), key, value)
  {
    var left, right := before + key + mid, mid2 + value + after;
    var line := left + "=" + right;
    assert AllBlank(before) && AllBlank(mid) && AllBlank(mid2) && AllBlank(after);
    assert Padded(left, key) && Padded(right, value);
    if k :| 0 <= k <= |line| && AllBlank(line[..k]) && (k == |line| || line[k] == '#') {
      KeyBeforeHash(before, key, mid, line, k);
    }
  }

  lemma KeyBeforeHash(before: string, key: string, mid: string, line: string, k: nat)
    requires AllBlank(before) && AllBlank(mid) && Bare(key) && (key != "" ==> key[0] != '#') && k <= |line|
    requires |line| > |before + key + mid| && line[..|before + key + mid|] == before + key + mid
    requires line[|before + key + mid|] == '='
    ensures !(AllBlank(line[..k]) && (k == |line| || line[k] == '#'))
  {
    var left := before + key + mid;
    assert forall i :: 0 <= i < |left| ==> line[i] == left[i];
    var first := if key == "" then |left| else |before|;
    assert !IsBlank(line[first]) && line[first] != '#';
    if k > first { NotAllBlank(line, first, k); }
    if k < first { assert left[k] == if k < |before| then before[k] else mid[k - |before|]; }
  }

  // ---------------------------------------------------------------- the keys

  function NameOf(key: Key): string
    requires !key.UnknownKey?
  {
    match key
    case IntKey(f) => Name(f)
    case RateKey => "DefaultRate"
    case FolderKey => "SavedFolderPath"
  }

  lemma KeysByName(key: Key, name: string)
    requires !key.UnknownKey?
    ensures KeyNamed(name) == key <==> name == NameOf(key)
  {
  }

  lemma GivesEntry(line: string, key: Key, value: string)
    requires !key.UnknownKey? && Gives(line, NameOf(key), value)
    ensures EntryOf(line).Setting? && EntryOf(line).key == key && EntryOf(line).value == value
  {
    KeysByName(key, NameOf(key));
    if Assigns(line, NameOf(key), value) {
      AssignsEntry(line, NameOf(key), value);
    } else {
      BarewordEntry(line, value);
    }
  }

  lemma NamesExactly(line: string, key: Key)
    requires !key.UnknownKey?
    ensures Names(line, NameOf(key)) <==> EntryOf(line).Setting? && EntryOf(line).key == key
  {
    if Names(line, NameOf(key)) {
      var value :| Gives(line, NameOf(key), value);
      GivesEntry(line, key, value);
    }
    LineForms(line);
    IgnoredExactly(line);
    if name, value :| Gives(line, name, value) {
      KeysByName(key, name);
      GivesAnyEntry(line, name, value);
    }
  }

  lemma GivesAnyEntry(line: string, name: string, value: string)
    requires Gives(line, name, value)
    ensures EntryOf(line) == Setting(KeyNamed(name), value, Assigns(line, name, value))
  {
    if Assigns(line, name, value) {
      AssignsEntry(line, name, value);
    } else {
      BarewordEntry(line, name);
    }
  }

  // ---------------------------------------------------------------- the settings after any entries

  // The text given to key by the last entry that names it.
  function LastText(key: Key, es: seq<Entry>): Option<string> {
    if es == [] then None
    else
      var e := es[|es| - 1];
      if e.Setting? && e.key == key then Some(e.value) else LastText(key, es[..|es| - 1])
  }

  lemma {:induction false} LastTextAt(key: Key, es: seq<Entry>, k: nat)
    requires k < |es| && es[k].Setting? && es[k].key == key
    requires forall j :: k < j < |es| ==> !(es[j].Setting? && es[j].key == key)
    ensures LastText(key, es) == Some(es[k].value)
  {
    if k >= |es| - 1 {
    } else {
      LastTextAt(key, es[..|es| - 1], k);
    }
  }

  lemma {:induction false} LastTextNone(key: Key, es: seq<Entry>)
    ensures LastText(key, es).None? <==> forall j :: 0 <= j < |es| ==> !(es[j].Setting? && es[j].key == key)
  {
    if es == [] {
    } else {
      LastTextNone(key, es[..|es| - 1]);
    }
  }

  // What the text t makes of an integer setting, of the rate and of the folder.
  function TextValue(f: Field, t: string): int {
    if Stoi(t).Some? && Allowed(f, Stoi(t).value) then Stoi(t).value else Default(f)
  }

  function TextRate(env: Env, t: string): real {
    match env.parseRate(t)
    case None => 100.0
    case Some(rate) => if rate <= 0.0 then 100.0 else rate
  }

  function TextFolder(env: Env, t: string): string {
    if env.dirExists(t) && t != "" then t else env.documents
  }

  // d has for key what the text t makes of it.
  ghost predicate Has(env: Env, d: Conf, key: Key, t: string) {
    match key
    case IntKey(f) => Value(d, f) == TextValue(f, t)
    case RateKey => d.rate == TextRate(env, t)
    case FolderKey => d.folder == TextFolder(env, t)
    case UnknownKey => true
  }

  ghost predicate Same(c: Conf, d: Conf, key: Key) {
    match key
    case IntKey(f) => Value(d, f) == Value(c, f)
    case RateKey => d.rate == c.rate
    case FolderKey => d.folder == c.folder
    case UnknownKey => true
  }

  lemma TakeValue(env: Env, r: Reading, e: Entry, key: Key)
    ensures var d := Take(env, r, e).conf;
            if e.Setting? && e.key == key then Has(env, d, key, e.value) else Same(r.conf, d, key)
  {
  }

  lemma {:induction false} LoadedSnoc(env: Env, r: Reading, es: seq<Entry>, last: Entry)
    ensures Loaded(env, r, es + [last]) == Take(env, Loaded(env, r, es), last)
    decreases |es|
  {
    if es == [] {
    } else {
      assert (es + [last])[1..] == es[1..] + [last];
      LoadedSnoc(env, Take(env, r, es[0]), es[1..], last);
    }
  }

  lemma {:induction false} LastEntryWins(env: Env, r: Reading, es: seq<Entry>, key: Key)
    ensures var d := Loaded(env, r, es).conf;
            match LastText(key, es)
            case None => Same(r.conf, d, key)
            case Some(t) => Has(env, d, key, t)
    decreases |es|
  {
    if es == [] {
    } else {
      var front, last := es[..|es| - 1], es[|es| - 1];
      assert es == front + [last];
      LoadedSnoc(env, r, front, last);
      LastEntryWins(env, r, front, key);
      TakeValue(env, Loaded(env, r, front), last, key);
    }
  }

  predicate Bad(env: Env, e: Entry) {
    match e
    case Comment => false
    case Setting(key, value, hasEquals) =>
      !hasEquals ||
      match key
      case IntKey(f) => !(Stoi(value).Some? && Allowed(f, Stoi(value).value))
      case RateKey => !(env.parseRate(value).Some? && env.parseRate(value).value > 0.0)
      case FolderKey => value == "" || !env.dirExists(value)
      case UnknownKey => true
  }

  lemma TakeFails(env: Env, r: Reading, e: Entry)
    ensures Take(env, r, e).error <==> r.error || Bad(env, e)
  {
  }

  lemma {:induction false} FailsOnBadEntry(env: Env, r: Reading, es: seq<Entry>)
    ensures Loaded(env, r, es).error <==> r.error || SomeBadEntry(env, es)
    decreases |es|
  {
    if es == [] {
    } else {
      FailsOnBadEntry(env, Take(env, r, es[0]), es[1..]);
      TakeFails(env, r, es[0]);
      assert forall k :: 0 < k < |es| ==> es[k] == es[1..][k - 1];
    }
  }

  // ---------------------------------------------------------------- the theorems, for any text

  // The lines are the text cut at its newlines, and hold none; one at its very end starts no line.
  lemma LinesMeaning(text: string)
    ensures forall k :: 0 <= k < |Lines(text)| ==> '\n' !in Lines(text)[k]
    ensures Joined(Lines(text)) == if text == "" || text[|text| - 1] == '\n' then text else text + "\n"
  {
    forall k | 0 <= k < |Lines(text)| ensures '\n' !in Lines(text)[k] {
      LineHoldsNone(text, k);
    }
    LinesJoined(text);
  }

  // The first newline, and the lines before and after it.
  lemma FirstLine(text: string) returns (line: string, rest: string)
    requires '\n' in text
    ensures text == line + "\n" + rest && '\n' !in line && Lines(text) == [line] + Lines(rest)
  {
    var i := FindFirst(text, c => c == '\n');
    if i.None? { NoneFound(text, c => c == '\n'); }
    NoneBefore(text, c => c == '\n', i.value);
    line, rest := text[..i.value], text[i.value + 1..];
  }

  lemma OnlyLine(text: string)
    requires text != "" && '\n' !in text
    ensures Lines(text) == [text]
  {
    FindFirstNone(text, c => c == '\n');
  }

  lemma {:induction false} LineHoldsNone(text: string, k: nat)
    requires k < |Lines(text)|
    ensures '\n' !in Lines(text)[k]
    decreases |text|
  {
    if '\n' !in text {
      OnlyLine(text);
    } else {
      var line, rest := FirstLine(text);
      if k > 0 { LineHoldsNone(rest, k - 1); }
    }
  }

  lemma {:induction false} LinesJoined(text: string)
    ensures Joined(Lines(text)) == if text == "" || text[|text| - 1] == '\n' then text else text + "\n"
    decreases |text|
  {
    if text == "" {
    } else if '\n' !in text {
      OnlyLine(text);
      OneLineJoined(text);
    } else {
      var line, rest := FirstLine(text);
      LinesJoined(rest);
      FirstLineJoined(text, line, rest, Lines(rest));
    }
  }

  lemma OneLineJoined(line: string)
    ensures Joined([line]) == line + "\n"
  {
    assert [line][1..] == [] && Joined([]) == "";
  }

  lemma FirstLineJoined(text: string, line: string, rest: string, lines: seq<string>)
    requires text == line + "\n" + rest
    requires Joined(lines) == if rest == "" || rest[|rest| - 1] == '\n' then rest else rest + "\n"
    ensures Joined([line] + lines) == if text[|text| - 1] == '\n' then text else text + "\n"
  {
    assert ([line] + lines)[1..] == lines;
    assert text[|text| - 1] == if rest == "" then '\n' else rest[|rest| - 1];
    assert (line + "\n") + (rest + "\n") == text + "\n";
  }

  lemma {:induction false} NoneFound(s: string, p: char -> bool)
    requires FindFirst(s, p).None?
    ensures forall k :: 0 <= k < |s| ==> !p(s[k])
  {
    if s == "" {
    } else {
      NoneFound(s[1..], p);
    }
  }

  lemma {:induction false} NoneBefore(s: string, p: char -> bool, i: nat)
    requires FindFirst(s, p) == Some(i)
    ensures i < |s| && forall k :: 0 <= k < i ==> !p(s[k])
  {
    if p(s[0]) {
    } else {
      NoneBefore(s[1..], p, i - 1);
    }
  }

  function LoadedText(env: Env, c: Conf, text: string): Reading {
    Loaded(env, Reading(c, false), Entries(Lines(text)))
  }

  lemma {:induction false} EntryAt(lines: seq<string>, k: nat)
    requires k < |lines|
    ensures Entries(lines)[k] == EntryOf(lines[k])
  {
    if k == 0 {
    } else {
      EntryAt(lines[1..], k - 1);
    }
  }

  // A line that is blank or a comment changes nothing and is no error.
  lemma IgnoredLine(env: Env, r: Reading, blanks: string, comment: string)
    requires Blanks(blanks) && (comment == "" || comment[0] == '#')
    ensures Take(env, r, EntryOf(blanks + comment)) == r
  {
    var line := blanks + comment;
    assert line[..|blanks|] == blanks && AllBlank(blanks);
    IgnoredExactly(line);
  }

  // A setting takes the value of the last line that names it: an integer in its range, a positive rate,
  // a directory that is there, and otherwise the default.
  lemma LastLineWins(env: Env, c: Conf, text: string, key: Key, k: nat, value: string)
    requires !key.UnknownKey? && k < |Lines(text)| && Gives(Lines(text)[k], NameOf(key), value)
    requires forall j :: k < j < |Lines(text)| ==> !Names(Lines(text)[j], NameOf(key))
    ensures Has(env, LoadedText(env, c, text).conf, key, value)
  {
    var lines := Lines(text);
    EntryAt(lines, k);
    GivesEntry(lines[k], key, value);
    forall j | k < j < |lines| ensures !(Entries(lines)[j].Setting? && Entries(lines)[j].key == key) {
      EntryAt(lines, j);
      NamesExactly(lines[j], key);
    }
    LastTextAt(key, Entries(lines), k);
    LastEntryWins(env, Reading(c, false), Entries(lines), key);
  }

  // The limits of the five settings and what replaces a number outside them.
  lemma IntegerLimits(v: int)
    requires -2147483648 <= v <= 2147483647
    ensures TextValue(GidIndex, IntText(v)) == if v < 0 then 0 else v
    ensures TextValue(Port, IntText(v)) == if v < 1 || v > 65535 then 52025 else v
    ensures TextValue(Threads, IntText(v)) == if v < 1 || v > 1024 then 16 else v
    ensures TextValue(BlockSize, IntText(v)) == if v < 1 || v > 1048576 then 1024 else v
    ensures TextValue(BlockNum, IntText(v)) == if v < 1 || v > 65536 then 256 else v
  {
    StoiReadsBack(v);
  }

  // The value is no good for what the key names; for any other key no value is good.
  ghost predicate Unfit(env: Env, key: string, value: string) {
    if key == "DefaultRate" then env.parseRate(value).None? || env.parseRate(value).value <= 0.0
    else if key == "SavedFolderPath" then value == "" || !env.dirExists(value)
    else forall f: Field :: key == Name(f) ==> Stoi(value).None? || !Allowed(f, Stoi(value).value)
  }

  ghost predicate BadLine(env: Env, line: string) {
    || (exists key :: Bareword(line, key))
    || (exists key, value :: Assigns(line, key, value) && Unfit(env, key, value))
  }

  lemma UnfitIsBad(env: Env, key: string, value: string)
    ensures Unfit(env, key, value) <==> Bad(env, Setting(KeyNamed(key), value, true))
  {
    forall f: Field ensures KeyNamed(key) == IntKey(f) <==> key == Name(f) {
      KeysByName(IntKey(f), key);
    }
    KeysByName(RateKey, key);
    KeysByName(FolderKey, key);
  }

  lemma BadLineExactly(env: Env, line: string)
    ensures BadLine(env, line) <==> Bad(env, EntryOf(line))
  {
    IgnoredExactly(line);
    LineForms(line);
    if key :| Bareword(line, key) { BarewordEntry(line, key); }
    forall key, value | Assigns(line, key, value)
      ensures Unfit(env, key, value) <==> Bad(env, EntryOf(line))
    {
      AssignsEntry(line, key, value);
      UnfitIsBad(env, key, value);
    }
  }

  ghost predicate SomeBad(env: Env, lines: seq<string>) {
    exists k :: 0 <= k < |lines| && BadLine(env, lines[k])
  }

  ghost predicate SomeBadEntry(env: Env, es: seq<Entry>) {
    exists k :: 0 <= k < |es| && Bad(env, es[k])
  }

  lemma BadEntries(env: Env, lines: seq<string>)
    ensures SomeBad(env, lines) <==> SomeBadEntry(env, Entries(lines))
  {
    if k :| 0 <= k < |lines| && BadLine(env, lines[k]) {
      EntryAt(lines, k);
      BadLineExactly(env, lines[k]);
    }
    if k :| 0 <= k < |lines| && Bad(env, Entries(lines)[k]) {
      EntryAt(lines, k);
      BadLineExactly(env, lines[k]);
    }
  }

  // Loading fails exactly when some line has no equals sign, an unknown key or a value that is no good.
  lemma FailsOnBadLine(env: Env, c: Conf, text: string)
    ensures LoadedText(env, c, text).error <==> SomeBad(env, Lines(text))
  {
    FailsOnBadEntry(env, Reading(c, false), Entries(Lines(text)));
    BadEntries(env, Lines(text));
  }

  ghost predicate NamedIn(lines: seq<string>, key: Key)
    requires !key.UnknownKey?
  {
    exists k :: 0 <= k < |lines| && Names(lines[k], NameOf(key))
  }

  lemma NamedEntries(lines: seq<string>, key: Key)
    requires !key.UnknownKey?
    ensures NamedIn(lines, key) <==> LastText(key, Entries(lines)).Some?
  {
    forall k | 0 <= k < |lines|
      ensures Names(lines[k], NameOf(key)) <==> Entries(lines)[k].Setting? && Entries(lines)[k].key == key
    {
      EntryAt(lines, k);
      NamesExactly(lines[k], key);
    }
    LastTextNone(key, Entries(lines));
  }

  // A setting that no line names keeps its value.
  lemma UnnamedStays(env: Env, c: Conf, text: string, key: Key)
    requires !key.UnknownKey? && !NamedIn(Lines(text), key)
    ensures Same(c, LoadedText(env, c, text).conf, key)
  {
    NamedEntries(Lines(text), key);
    LastEntryWins(env, Reading(c, false), Entries(Lines(text)), key);
  }

  // An integer setting ends in its range exactly when it began there or some line names it.
  lemma EndsInRange(env: Env, c: Conf, text: string, f: Field)
    ensures Allowed(f, Value(LoadedText(env, c, text).conf, f)) <==>
            Allowed(f, Value(c, f)) || NamedIn(Lines(text), IntKey(f))
  {
    NamedEntries(Lines(text), IntKey(f));
    EntriesInRange(env, Reading(c, false), Entries(Lines(text)), f);
  }

  lemma EntriesInRange(env: Env, r: Reading, es: seq<Entry>, f: Field)
    ensures Allowed(f, Value(Loaded(env, r, es).conf, f)) <==>
            Allowed(f, Value(r.conf, f)) || LastText(IntKey(f), es).Some?
  {
    LastEntryWins(env, r, es, IntKey(f));
    if LastText(IntKey(f), es).Some? { TextInRange(f, LastText(IntKey(f), es).value); }
  }

  lemma TextInRange(f: Field, t: string)
    ensures Allowed(f, TextValue(f, t))
  {
  }

  lemma NamesAreKeys(f: Field)
    ensures KeyNamed(Name(f)) == IntKey(f) && Bare(Name(f)) && Name(f) != "" && 'A' <= Name(f)[0] <= 'Z'
    ensures forall k :: 0 <= k < |Name(f)| ==> Name(f)[k] != '=' && Name(f)[k] != '\n'
  {
  }

  // A key alone on its line is its own value: it fails and resets the setting.
  lemma BareKeyResets(env: Env, r: Reading, line: string, f: Field)
    requires Bareword(line, Name(f))
    ensures Take(env, r, EntryOf(line)) == Reading(With(r.conf, f, Default(f)), true)
  {
    NamesAreKeys(f);
    BarewordEntry(line, Name(f));
    NameIsNoNumber(Name(f));
  }

  lemma NameIsNoNumber(name: string)
    requires name != "" && 'A' <= name[0] <= 'Z'
    ensures Stoi(name) == None
  {
    assert AfterSpace(name) == name;
  }
}
