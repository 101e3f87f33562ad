// LocalConf.cpp: the configuration file, written by saveConf and read back by loadConf.
module ConfigFile {
  import opened Wrappers

  // The five integer settings.
  datatype Field = GidIndex | Port | Threads | BlockSize | BlockNum

  datatype Conf = Conf(gidIndex: int, port: int, threads: int, rate: real, blockSize: int, blockNum: int,
                       folder: string)

  // What the file's two other settings need from outside: how a double is printed and parsed, which
  // directories there are, and the one used when the file names none of them.
  datatype Env = Env(rateText: real -> string, parseRate: string -> Option<real>, dirExists: string -> bool,
                     documents: string)

  function Value(c: Conf, f: Field): int {
    match f
    case GidIndex => c.gidIndex
    case Port => c.port
    case Threads => c.threads
    case BlockSize => c.blockSize
    case BlockNum => c.blockNum
  }

  function With(c: Conf, f: Field, v: int): Conf {
    match f
    case GidIndex => c.(gidIndex := v)
    case Port => c.(port := v)
    case Threads => c.(threads := v)
    case BlockSize => c.(blockSize := v)
    case BlockNum => c.(blockNum := v)
  }

  function Name(f: Field): string {
    match f
    case GidIndex => "RdmaGidIndex"
    case Port => "ListenPort"
    case Threads => "MaxThreadNum"
    case BlockSize => "BlockSize"
    case BlockNum => "BlockNum"
  }

  datatype Key = IntKey(f: Field) | RateKey | FolderKey | UnknownKey

  function KeyNamed(key: string): Key {
    if key == "RdmaGidIndex" then IntKey(GidIndex)
    else if key == "ListenPort" then IntKey(Port)
    else if key == "MaxThreadNum" then IntKey(Threads)
    else if key == "DefaultRate" then RateKey
    else if key == "BlockSize" then IntKey(BlockSize)
    else if key == "BlockNum" then IntKey(BlockNum)
    else if key == "SavedFolderPath" then FolderKey
    else UnknownKey
  }

  const INT_MIN := -0x8000_0000
  const INT_MAX := 0x7FFF_FFFF

  predicate IsInt(v: int) {
    INT_MIN <= v <= INT_MAX
  }

  // The documented range of each setting, and what replaces a value outside it.
  predicate Allowed(f: Field, v: int) {
    match f
    case GidIndex => 0 <= v <= INT_MAX
    case Port => 1 <= v <= 65535
    case Threads => 1 <= v <= 1024
    case BlockSize => 1 <= v <= 1024 * 1024
    case BlockNum => 1 <= v <= 65536
  }

  function Default(f: Field): (v: int)
    ensures Allowed(f, v)
  {
    match f
    case GidIndex => 0
    case Port => 52025
    case Threads => 16
    case BlockSize => 1024
    case BlockNum => 256
  }

  // ---------------------------------------------------------------- strings

  predicate IsBlank(c: char) {
    c == ' ' || c == '\t'
  }

  function FindFirst(s: string, p: char -> bool): (i: Option<nat>)
    ensures i.Some? ==> i.value < |s| && p(s[i.value])
  {
    if s == "" then None
    else if p(s[0]) then Some(0)
    else
      var i := FindFirst(s[1..], p);
      if i.None? then None else Some(i.value + 1)
  }

  function FindLast(s: string, p: char -> bool): (i: Option<nat>)
    ensures i.Some? ==> i.value < |s| && p(s[i.value])
  {
    if s == "" then None
    else if p(s[|s| - 1]) then Some(|s| - 1)
    else FindLast(s[..|s| - 1], p)
  }

  // trim: where nothing is found, npos erases everything, and npos + 1 is 0.
  function TrimFront(s: string): string {
    match FindFirst(s, c => !IsBlank(c))
    case None => ""
    case Some(i) => s[i..]
  }

  function TrimBack(s: string): string {
    match FindLast(s, c => !IsBlank(c))
    case None => ""
    case Some(i) => s[..i + 1]
  }

  function Trim(s: string): string {
    TrimBack(TrimFront(s))
  }

  predicate AllBlank(s: string) {
    forall k :: 0 <= k < |s| ==> IsBlank(s[k])
  }

  predicate Bare(s: string) {
    s == "" || (!IsBlank(s[0]) && !IsBlank(s[|s| - 1]))
  }

  lemma {:induction false} FindFirstIs(s: string, p: char -> bool, i: nat)
    requires i < |s| && p(s[i]) && forall k :: 0 <= k < i ==> !p(s[k])
    ensures FindFirst(s, p) == Some(i)
  {
    if i == 0 {
    } else {
      FindFirstIs(s[1..], p, i - 1);
    }
  }

  lemma {:induction false} FindFirstNone(s: string, p: char -> bool)
    requires forall k :: 0 <= k < |s| ==> !p(s[k])
    ensures FindFirst(s, p) == None
  {
    if s == "" {
    } else {
      FindFirstNone(s[1..], p);
    }
  }

  lemma {:induction false} FindLastIs(s: string, p: char -> bool, i: nat)
    requires i < |s| && p(s[i]) && forall k :: i < k < |s| ==> !p(s[k])
    ensures FindLast(s, p) == Some(i)
  {
    if i >= |s| - 1 {
    } else {
      FindLastIs(s[..|s| - 1], p, i);
    }
  }

  lemma {:induction false} FindLastNone(s: string, p: char -> bool)
    requires forall k :: 0 <= k < |s| ==> !p(s[k])
    ensures FindLast(s, p) == None
  {
    if s == "" {
    } else {
      FindLastNone(s[..|s| - 1], p);
    }
  }

  // Trimming takes blanks off both ends and nothing else, whatever npos does.
  lemma TrimIs(before: string, s: string, after: string)
    requires AllBlank(before) && Bare(s) && AllBlank(after)
    ensures Trim(before + s + after) == s
  {
    var t := before + s + after;
    var p := c => !IsBlank(c);
    if s == "" {
      FindFirstNone(t, p);
    } else {
      FindFirstIs(t, p, |before|);
      assert TrimFront(t) == s + after;
      FindLastIs(s + after, p, |s| - 1);
    }
  }

  // Every string is blanks, a part without blanks at its ends, and blanks.
  lemma {:induction false} Split(s: string) returns (before: string, middle: string, after: string)
    ensures s == before + middle + after && AllBlank(before) && Bare(middle) && AllBlank(after)
  {
    if s == "" {
      before, middle, after := "", "", "";
    } else if IsBlank(s[0]) {
      before, middle, after := Split(s[1..]);
      before := [s[0]] + before;
    } else if IsBlank(s[|s| - 1]) {
      before, middle, after := Split(s[..|s| - 1]);
      after := after + [s[|s| - 1]];
    } else {
      before, middle, after := "", s, "";
    }
  }

  lemma TrimMeaning(s: string)
    ensures exists before, after :: s == before + Trim(s) + after && AllBlank(before) && AllBlank(after)
    ensures Bare(Trim(s))
  {
    var before, middle, after := Split(s);
    TrimIs(before, middle, after);
  }

  // ---------------------------------------------------------------- numbers

  predicate IsDigit(c: char) {
    '0' <= c <= '9'
  }

  // isspace in the C locale.
  predicate IsSpace(c: char) {
    c == ' ' || 9 <= c as int <= 13
  }

  function DigitValue(c: char): nat
    requires IsDigit(c)
  {
    c as int - '0' as int
  }

  // The number the leading digits spell, after a prefix worth acc.
  function Spelled(s: string, acc: nat): nat {
    if s == "" || !IsDigit(s[0]) then acc else Spelled(s[1..], acc * 10 + DigitValue(s[0]))
  }

  function AfterSpace(s: string): string {
    if s != "" && IsSpace(s[0]) then AfterSpace(s[1..]) else s
  }

  // std::stoi in base 10; None for either exception. What follows the digits is ignored.
  function Stoi(s: string): Option<int> {
    var t := AfterSpace(s);
    var signed := t != "" && (t[0] == '-' || t[0] == '+');
    var digits := if signed then t[1..] else t;
    if digits == "" || !IsDigit(digits[0]) then None
    else
      var size: int := Spelled(digits, 0);
      var v := if signed && t[0] == '-' then -size else size;
      if IsInt(v) then Some(v) else None
  }

  function DigitChar(d: nat): (c: char)
    requires d < 10
    ensures IsDigit(c) && DigitValue(c) == d
  {
    (d + '0' as int) as char
  }

  function Decimal(n: nat): (s: string)
    ensures s != "" && forall k :: 0 <= k < |s| ==> IsDigit(s[k])
  {
    if n < 10 then [DigitChar(n)] else Decimal(n / 10) + [DigitChar(n % 10)]
  }

  // operator<< for an int.
  function IntText(v: int): string {
    if v < 0 then "-" + Decimal(-v) else Decimal(v)
  }

  lemma {:induction false} SpelledSnoc(s: string, d: nat, acc: nat)
    requires d < 10 && forall k :: 0 <= k < |s| ==> IsDigit(s[k])
    ensures Spelled(s + [DigitChar(d)], acc) == Spelled(s, acc) * 10 + d
  {
    if s == "" {
      assert Spelled("", acc * 10 + d) == acc * 10 + d;
      assert (s + [DigitChar(d)])[1..] == "";
    } else {
      assert (s + [DigitChar(d)])[1..] == s[1..] + [DigitChar(d)];
      SpelledSnoc(s[1..], d, acc * 10 + DigitValue(s[0]));
    }
  }

  lemma {:induction false} DecimalSpells(n: nat)
    ensures Spelled(Decimal(n), 0) == n
  {
    if n < 10 {
      SpelledSnoc("", n, 0);
      assert "" + [DigitChar(n)] == Decimal(n);
    } else {
      DecimalSpells(n / 10);
      SpelledSnoc(Decimal(n / 10), n % 10, 0);
    }
  }

  // What << writes, stoi reads back; only a negative number has a sign.
  lemma StoiReadsBack(v: int)
    requires IsInt(v)
    ensures Stoi(IntText(v)) == Some(v) && (IntText(v)[0] == '-' <==> v < 0)
  {
    var n := if v < 0 then -v else v;
    DecimalSpells(n);
    var t := IntText(v);
    assert AfterSpace(t) == t;
    if v < 0 { assert t[1..] == Decimal(n); }
  }

  // Any number of white space, a sign or none, leading zeros and whatever follows the digits.
  lemma StoiReads(space: string, sign: string, zeros: string, n: int, rest: string)
    requires AllSpace(space) && (sign == "" || sign == "+" || sign == "-")
    requires n >= 0 && forall k :: 0 <= k < |zeros| ==> zeros[k] == '0'
    requires rest != "" ==> !IsDigit(rest[0])
    ensures var v := if sign == "-" then -n else n;
            Stoi(space + (sign + (zeros + (Decimal(n) + rest)))) ==
            if -2147483648 <= v <= 2147483647 then Some(v) else None
  {
    var digits := zeros + (Decimal(n) + rest);
    SpelledZeros(zeros, Decimal(n) + rest);
    SpelledStops(Decimal(n), rest, 0);
    DecimalSpells(n);
    FirstDigit(zeros, Decimal(n), rest);
    SpaceSkipped(space, sign + digits);
    assert sign + digits == if sign == "" then digits else [sign[0]] + digits;
    if sign != "" { assert (sign + digits)[1..] == digits; }
  }

  // No number: after the white space and a sign or none there is no digit.
  lemma StoiFails(space: string, sign: string, rest: string)
    requires AllSpace(space) && (sign == "" || sign == "+" || sign == "-")
    requires rest == "" || !IsDigit(rest[0])
    requires sign == "" && rest != "" ==> !Space(rest[0]) && rest[0] != '+' && rest[0] != '-'
    ensures Stoi(space + (sign + rest)) == None
  {
    SpaceSkipped(space, sign + rest);
    if sign != "" { assert (sign + rest)[1..] == rest; }
  }

  predicate AllSpace(s: string) {
    forall k :: 0 <= k < |s| ==> Space(s[k])
  }

  // A blank, a tab or one of the four characters that end a line or a page.
  predicate Space(c: char) {
    c == ' ' || c == '\t' || c == '\n' || c == '\r' || c as int == 11 || c as int == 12
  }

  lemma {:induction false} SpaceSkipped(space: string, t: string)
    requires AllSpace(space) && (t != "" ==> !Space(t[0]))
    ensures AfterSpace(space + t) == t
  {
    if space == "" {
      assert space + t == t;
    } else {
      assert (space + t)[1..] == space[1..] + t;
      SpaceSkipped(space[1..], t);
    }
  }

  lemma FirstDigit(zeros: string, digits: string, rest: string)
    requires digits != "" && IsDigit(digits[0]) && forall k :: 0 <= k < |zeros| ==> zeros[k] == '0'
    ensures var t := zeros + (digits + rest); t != "" && IsDigit(t[0]) && !Space(t[0]) && t[0] != '+' && t[0] != '-'
  {
  }

  lemma {:induction false} SpelledZeros(zeros: string, t: string)
    requires forall k :: 0 <= k < |zeros| ==> zeros[k] == '0'
    ensures Spelled(zeros + t, 0) == Spelled(t, 0)
  {
    if zeros == "" {
      assert zeros + t == t;
    } else {
      assert (zeros + t)[1..] == zeros[1..] + t;
      SpelledZeros(zeros[1..], t);
    }
  }

  lemma {:induction false} SpelledStops(digits: string, rest: string, acc: nat)
    requires (forall k :: 0 <= k < |digits| ==> IsDigit(digits[k])) && (rest != "" ==> !IsDigit(rest[0]))
    ensures Spelled(digits + rest, acc) == Spelled(digits, acc)
  {
    if digits == "" {
      assert digits + rest == rest;
    } else {
      assert (digits + rest)[1..] == digits[1..] + rest;
      SpelledStops(digits[1..], rest, acc * 10 + DigitValue(digits[0]));
    }
  }

  lemma IntTextPlain(v: int)
    ensures var t := IntText(v); Bare(t) && '\n' !in t && t != ""
  {
  }

  // ---------------------------------------------------------------- reading

  datatype Reading = Reading(conf: Conf, error: bool)

  // The new value of an integer setting, and whether the text was good.
  function IntSetting(f: Field, value: string): (int, bool) {
    var parsed := Stoi(value);
    var v := if parsed.Some? then parsed.value else Default(f);
    if Allowed(f, v) then (v, parsed.Some?) else (Default(f), false)
  }

  predicate SkipLine(line: string) {
    line == "" || line[0] == '#'
  }

  // Without an equals sign the key and the value are both the whole line.
  function KeyOf(line: string): string {
    match FindFirst(line, c => c == '=')
    case None => Trim(line)
    case Some(i) => Trim(line[..i])
  }

  function ValueOf(line: string): string {
    match FindFirst(line, c => c == '=')
    case None => Trim(line)
    case Some(i) => Trim(line[i + 1..])
  }

  function SetKey(env: Env, r: Reading, key: Key, value: string): Reading {
    match key
    case IntKey(f) =>
      var (v, good) := IntSetting(f, value);
      Reading(With(r.conf, f, v), r.error || !good)
    case RateKey =>
      var parsed := env.parseRate(value);
      if parsed.Some? && parsed.value > 0.0 then r.(conf := r.conf.(rate := parsed.value))
      else Reading(r.conf.(rate := 100.0), true)
    case FolderKey =>
      if value != "" && env.dirExists(value) then r.(conf := r.conf.(folder := value))
      else Reading(r.conf.(folder := env.documents), true)
    case UnknownKey => r.(error := true)
  }

  // A line as loadConf understands it.
  datatype Entry = Comment | Setting(key: Key, value: string, hasEquals: bool)

  function EntryOf(raw: string): Entry {
    var line := Trim(raw);
    if SkipLine(line) then Comment else Setting(KeyNamed(KeyOf(line)), ValueOf(line), '=' in line)
  }

  function Entries(lines: seq<string>): (es: seq<Entry>)
    ensures |es| == |lines|
  {
    if lines == [] then [] else [EntryOf(lines[0])] + Entries(lines[1..])
  }

  function Take(env: Env, r: Reading, e: Entry): Reading {
    match e
    case Comment => r
    case Setting(key, value, hasEquals) => SetKey(env, r.(error := r.error || !hasEquals), key, value)
  }

  function Loaded(env: Env, r: Reading, es: seq<Entry>): Reading
    decreases |es|
  {
    if es == [] then r else Loaded(env, Take(env, r, es[0]), es[1..])
  }

  // The lines getline delivers.
  function Lines(text: string): seq<string>
    decreases |text|
  {
    if text == "" then []
    else
      match FindFirst(text, c => c == '\n')
      case None => [text]
      case Some(i) => [text[..i]] + Lines(text[i + 1..])
  }

  function Joined(lines: seq<string>): string {
    if lines == [] then "" else lines[0] + "\n" + Joined(lines[1..])
  }

  function Assignment(name: string, value: string): string {
    name + " = " + value
  }

  // What saveConf writes, line by line.
  datatype Item = Header | IntItem(f: Field, v: int) | RateItem(text: string) | FolderItem(text: string) | Footer

  function ItemText(item: Item): string {
    match item
    case Header => "# Configuration File"
    case IntItem(f, v) => Assignment(Name(f), IntText(v))
    case RateItem(text) => Assignment("DefaultRate", text)
    case FolderItem(text) => Assignment("SavedFolderPath", text)
    case Footer => "# End of Configuration File"
  }

  function Saved(env: Env, c: Conf): seq<Item> {
    [Header, IntItem(GidIndex, c.gidIndex), IntItem(Port, c.port), IntItem(Threads, c.threads),
     RateItem(env.rateText(c.rate)), IntItem(BlockSize, c.blockSize), IntItem(BlockNum, c.blockNum),
     FolderItem(c.folder), Footer]
  }

  function Map<A, B>(f: A -> B, xs: seq<A>): (ys: seq<B>)
    ensures |ys| == |xs|
  {
    if xs == [] then [] else [f(xs[0])] + Map(f, xs[1..])
  }

  lemma ConcatTail<T>(a: seq<T>, b: seq<T>)
    requires a != []
    ensures (a + b)[0] == a[0] && (a + b)[1..] == a[1..] + b
  {
  }

  lemma {:induction false} MapConcat<A, B>(f: A -> B, a: seq<A>, b: seq<A>)
    ensures Map(f, a + b) == Map(f, a) + Map(f, b)
  {
    if a == [] {
      assert a + b == b;
    } else {
      ConcatTail(a, b);
      MapConcat(f, a[1..], b);
    }
  }

  function ItemTexts(items: seq<Item>): seq<string> {
    Map(ItemText, items)
  }

  function SavedText(env: Env, c: Conf): string {
    Joined(ItemTexts(Saved(env, c)))
  }

  // std::getline.
  function GetLine(text: string): (r: (string, string))
    requires text != ""
    ensures |r.1| < |text| && Lines(text) == [r.0] + Lines(r.1)
  {
    match FindFirst(text, c => c == '\n')
    case None => (text, "")
    case Some(i) => (text[..i], text[i + 1..])
  }

  lemma ErrorStays(env: Env, c: Conf, error: bool, e: Entry)
    ensures var r := Take(env, Reading(c, false), e);
            Take(env, Reading(c, error), e) == Reading(r.conf, error || r.error)
  {
  }

  // ---------------------------------------------------------------- LocalConf

  class LocalConf {
    var rdmaGidIndex: int
    var localPort: int
    var maxThreadNum: int
    var defaultRate: real
    var blockSize: int
    var blockNum: int
    var savedFolderPath: string

    ghost function View(): Conf
      reads this
    {
      Conf(rdmaGidIndex, localPort, maxThreadNum, defaultRate, blockSize, blockNum, savedFolderPath)
    }

    constructor (env: Env)
      ensures View() == Conf(3, 52025, 16, 100.0, 1024, 256, env.documents)
    {
      rdmaGidIndex, localPort, maxThreadNum, defaultRate := 3, 52025, 16, 100.0;
      blockSize, blockNum, savedFolderPath := 1024, 256, env.documents;
    }

    // The parse, the default on an exception, then the range check.
    method ReadInt(f: Field, value: string) returns (v: int, good: bool)
      ensures (v, good) == IntSetting(f, value)
    {
      v, good := Default(f), false;
      var parsed := Stoi(value);
      if parsed.Some? {
        v, good := parsed.value, true;
      }
      if !Allowed(f, v) {
        v, good := Default(f), false;
      }
    }

    method Set(env: Env, key: string, value: string) returns (good: bool)
      modifies this
      ensures SetKey(env, Reading(old(View()), false), KeyNamed(key), value) == Reading(View(), !good)
    {
      if key == "RdmaGidIndex" {
        rdmaGidIndex, good := ReadInt(GidIndex, value);
      } else if key == "ListenPort" {
        localPort, good := ReadInt(Port, value);
      } else if key == "MaxThreadNum" {
        maxThreadNum, good := ReadInt(Threads, value);
      } else if key == "DefaultRate" {
        var parsed := env.parseRate(value);
        good := parsed.Some? && parsed.value > 0.0;
        defaultRate := if good then parsed.value else 100.0;
      } else if key == "BlockSize" {
        blockSize, good := ReadInt(BlockSize, value);
      } else if key == "BlockNum" {
        blockNum, good := ReadInt(BlockNum, value);
      } else if key == "SavedFolderPath" {
        savedFolderPath := value;
        good := value != "" && env.dirExists(value);
        if !good { savedFolderPath := env.documents; }
      } else {
        good := false;
      }
    }

    // One line, as getline delivers it.
    method ReadLine(env: Env, raw: string) returns (good: bool)
      modifies this
      ensures Take(env, Reading(old(View()), false), EntryOf(raw)) == Reading(View(), !good)
    {
      good := true;
      var line := Trim(raw);
      if !SkipLine(line) {
        good := Set(env, KeyOf(line), ValueOf(line));
        good := good && '=' in line;
      }
    }

    // file is what the configuration path holds, if it can be opened.
    method LoadConf(env: Env, file: Option<string>, canCreate: bool) returns (ret: int)
      modifies this
      ensures file.None? && !canCreate ==> ret == -1 && View() == old(View())
      ensures file.Some? || canCreate ==>
                var text := if file.Some? then file.value else SavedText(env, old(View()));
                && Loaded(env, Reading(old(View()), false), Entries(Lines(text))) == Reading(View(), ret == -1)
                && (ret == -1 || ret == 0)
    {
      if file.None? && !canCreate {
        return -1;
      }
      var text := SaveConf(env);
      if file.Some? { text := file.value; }
      var error, rest := false, text;
      while rest != ""
        invariant Loaded(env, Reading(View(), error), Entries(Lines(rest))) ==
                  Loaded(env, Reading(old(View()), false), Entries(Lines(text)))
        decreases |rest|
      {
        var (raw, more) := GetLine(rest);
        ErrorStays(env, View(), error, EntryOf(raw));
        var good := ReadLine(env, raw);
        error := error || !good;
        rest := more;
      }
      ret := if error then -1 else 0;
    }

    method SaveConf(env: Env) returns (text: string)
      ensures text == SavedText(env, View())
    {
      text := SavedText(env, Conf(rdmaGidIndex, localPort, maxThreadNum, defaultRate, blockSize, blockNum,
                                 savedFolderPath));
    }
  }
}
