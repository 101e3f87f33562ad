// The configuration file as saveConf writes it: what loadConf reads back.
module ConfigSaved {
  import opened Wrappers
  import opened ConfigFile
  import opened ConfigLines

  // A word that can name a setting.
  predicate IsName(name: string) {
    && Bare(name) && name != "" && 'A' <= name[0] <= 'Z'
    && forall k :: 0 <= k < |name| ==> name[k] != '=' && name[k] != '\n'
  }

  // A line saveConf writes for a setting: the key is the name and the value is the text, trimmed.
  lemma AssignmentEntry(name: string, value: string)
    requires IsName(name) && name[0] != '#'
    ensures EntryOf(Assignment(name, value)) == Setting(KeyNamed(name), Trim(value), true)
  {
    var before, middle, after := Split(value);
    TrimIs(before, middle, after);
    AssignsSpelled("", name, " ", " " + before, middle, after);
    Spaced(name, before, middle, after);
    AssignsEntry(Assignment(name, value), name, middle);
  }

  lemma Spaced(name: string, before: string, middle: string, after: string)
    ensures Assignment(name, before + middle + after) ==
            ("" + name + " ") + "=" + ((" " + before) + middle + after)
  {
  }

  predicate OneLine(s: string) {
    forall k :: 0 <= k < |s| ==> s[k] != '\n'
  }

  lemma LineOfJoined(line: string, rest: string)
    requires OneLine(line)
    ensures Lines(line + "\n" + rest) == [line] + Lines(rest)
  {
    var text := line + "\n" + rest;
    assert text[|line|] == '\n';
    FindFirstIs(text, c => c == '\n', |line|);
    assert text[..|line|] == line && text[|line| + 1..] == rest;
  }

  lemma CommentEntry(line: string)
    requires line != "" && line[0] == '#'
    ensures EntryOf(line) == Comment
  {
    assert line[..0] == "";
    IgnoredExactly(line);
  }

  lemma IntEntry(f: Field, v: int)
    ensures EntryOf(Assignment(Name(f), IntText(v))) == Setting(IntKey(f), IntText(v), true)
  {
    NamesAreKeys(f);
    AssignmentEntry(Name(f), IntText(v));
    IntTextTrimmed(v);
  }

  lemma IntTextTrimmed(v: int)
    ensures Trim(IntText(v)) == IntText(v)
  {
    IntTextPlain(v);
    assert "" + IntText(v) + "" == IntText(v);
    TrimIs("", IntText(v), "");
  }

  lemma RateAndFolderAreKeys()
    ensures IsName("DefaultRate") && KeyNamed("DefaultRate") == RateKey
    ensures IsName("SavedFolderPath") && KeyNamed("SavedFolderPath") == FolderKey
  {
  }

  function ItemEntry(item: Item): Entry {
    match item
    case Header => Comment
    case IntItem(f, v) => Setting(IntKey(f), IntText(v), true)
    case RateItem(text) => Setting(RateKey, Trim(text), true)
    case FolderItem(text) => Setting(FolderKey, Trim(text), true)
    case Footer => Comment
  }

  function ItemEntries(items: seq<Item>): (es: seq<Entry>)
    ensures |es| == |items| && forall k :: 0 <= k < |es| ==> es[k] == ItemEntry(items[k])
  {
    if items == [] then [] else [ItemEntry(items[0])] + ItemEntries(items[1..])
  }

  // What loadConf makes of each line of a saved text.
  lemma ItemReadsBack(item: Item)
    ensures EntryOf(ItemText(item)) == ItemEntry(item)
  {
    match item {
      case Header => CommentEntry(ItemText(item));
      case IntItem(f, v) => IntEntry(f, v);
      case RateItem(text) => TextEntry("DefaultRate", RateKey, text);
      case FolderItem(text) => TextEntry("SavedFolderPath", FolderKey, text);
      case Footer => CommentEntry(ItemText(item));
    }
  }

  lemma TextEntry(name: string, key: Key, text: string)
    requires (name == "DefaultRate" && key == RateKey) || (name == "SavedFolderPath" && key == FolderKey)
    ensures EntryOf(Assignment(name, text)) == Setting(key, Trim(text), true)
  {
    RateAndFolderAreKeys();
    AssignmentEntry(name, text);
  }

  lemma {:induction false} ItemsReadBack(items: seq<Item>)
    ensures Entries(ItemTexts(items)) == ItemEntries(items)
  {
    if items == [] {
    } else {
      ItemReadsBack(items[0]);
      ItemsReadBack(items[1..]);
      assert ItemTexts(items)[1..] == ItemTexts(items[1..]);
    }
  }

  predicate OneLineItem(item: Item) {
    match item
    case RateItem(text) => OneLine(text)
    case FolderItem(text) => OneLine(text)
    case _ => true
  }

  lemma ItemIsOneLine(item: Item)
    requires OneLineItem(item)
    ensures OneLine(ItemText(item))
  {
    match item {
      case IntItem(f, v) =>
        NamesAreKeys(f);
        IntTextPlain(v);
        PairIsOneLine(Name(f), IntText(v));
      case RateItem(text) => PairIsOneLine("DefaultRate", text);
      case FolderItem(text) => PairIsOneLine("SavedFolderPath", text);
      case _ =>
    }
  }

  lemma PairIsOneLine(name: string, text: string)
    requires OneLine(name) && OneLine(text)
    ensures OneLine(Assignment(name, text))
  {
  }

  lemma {:induction false} ItemsAreLines(items: seq<Item>)
    requires forall k :: 0 <= k < |items| ==> OneLineItem(items[k])
    ensures Lines(Joined(ItemTexts(items))) == ItemTexts(items)
  {
    if items == [] {
    } else {
      ItemIsOneLine(items[0]);
      ItemsAreLines(items[1..]);
      LineOfJoined(ItemText(items[0]), Joined(ItemTexts(items[1..])));
      assert ItemTexts(items)[1..] == ItemTexts(items[1..]);
    }
  }

  predicate Whole(c: Conf) {
    && Allowed(GidIndex, c.gidIndex) && Allowed(Port, c.port) && Allowed(Threads, c.threads)
    && Allowed(BlockSize, c.blockSize) && Allowed(BlockNum, c.blockNum)
  }

  predicate RateReadsBack(env: Env, c: Conf) {
    var parsed := env.parseRate(Trim(env.rateText(c.rate)));
    parsed.Some? && parsed.value > 0.0
  }

  predicate FolderReadsBack(env: Env, c: Conf) {
    Trim(c.folder) != "" && env.dirExists(Trim(c.folder))
  }

  ghost predicate Ints(c: Conf) {
    forall f: Field :: IsInt(Value(c, f))
  }

  function SavedEntries(env: Env, c: Conf): seq<Entry> {
    ItemEntries(Saved(env, c))
  }

  lemma SavedTextEntries(env: Env, c: Conf)
    requires OneLine(env.rateText(c.rate)) && OneLine(c.folder)
    ensures Entries(Lines(SavedText(env, c))) == SavedEntries(env, c)
  {
    var items := Saved(env, c);
    SavedAreOneLine(env, c);
    ItemsAreLines(items);
    ItemsReadBack(items);
  }

  lemma SavedAreOneLine(env: Env, c: Conf)
    requires OneLine(env.rateText(c.rate)) && OneLine(c.folder)
    ensures forall k :: 0 <= k < |Saved(env, c)| ==> OneLineItem(Saved(env, c)[k])
  {
  }

  // Any configuration whose text fields hold no newline, saved and loaded into any other: each
  // integer comes back as it was, or as its default when it was out of range; the rate and the folder
  // as their texts read back, or as the defaults; and loading fails exactly when one of the five was
  // out of range or the rate or the folder does not read back.
  lemma {:induction false} LoadsWhatWasSaved(env: Env, c: Conf, d: Conf)
    requires Ints(c) && OneLine(env.rateText(c.rate)) && OneLine(c.folder)
    ensures var r := LoadedText(env, d, SavedText(env, c));
            && (forall f: Field :: Value(r.conf, f) == if Allowed(f, Value(c, f)) then Value(c, f) else Default(f))
            && r.conf.rate == TextRate(env, Trim(env.rateText(c.rate)))
            && r.conf.folder == TextFolder(env, Trim(c.folder))
            && (r.error <==> !(Whole(c) && RateReadsBack(env, c) && FolderReadsBack(env, c)))
  {
    SavedTextEntries(env, c);
    forall f: Field
      ensures Value(Loaded(env, Reading(d, false), SavedEntries(env, c)).conf, f) ==
              if Allowed(f, Value(c, f)) then Value(c, f) else Default(f)
    {
      SavedValue(env, c, d, f);
    }
    SavedRate(env, c, d);
    SavedFolder(env, c, d);
    FailsOnBadEntry(env, Reading(d, false), SavedEntries(env, c));
    SavedBad(env, c);
  }

  lemma SavedRate(env: Env, c: Conf, d: Conf)
    ensures Has(env, Loaded(env, Reading(d, false), SavedEntries(env, c)).conf, RateKey, Trim(env.rateText(c.rate)))
  {
    var es := SavedEntries(env, c);
    assert es[4] == ItemEntry(Saved(env, c)[4]);
    LastTextAt(RateKey, es, 4);
    LastEntryWins(env, Reading(d, false), es, RateKey);
  }

  lemma SavedFolder(env: Env, c: Conf, d: Conf)
    ensures Has(env, Loaded(env, Reading(d, false), SavedEntries(env, c)).conf, FolderKey, Trim(c.folder))
  {
    var es := SavedEntries(env, c);
    assert es[7] == ItemEntry(Saved(env, c)[7]);
    LastTextAt(FolderKey, es, 7);
    LastEntryWins(env, Reading(d, false), es, FolderKey);
  }

  lemma SavedValue(env: Env, c: Conf, d: Conf, f: Field)
    requires IsInt(Value(c, f))
    ensures Value(Loaded(env, Reading(d, false), SavedEntries(env, c)).conf, f) ==
            if Allowed(f, Value(c, f)) then Value(c, f) else Default(f)
  {
    var at := match f case GidIndex => 1 case Port => 2 case Threads => 3 case BlockSize => 5 case BlockNum => 6;
    assert Saved(env, c)[at] == IntItem(f, Value(c, f));
    LastItemWins(env, Reading(d, false), Saved(env, c), f, Value(c, f), at);
  }

  predicate BadItem(env: Env, item: Item) {
    match item
    case IntItem(f, v) => !Allowed(f, v)
    case RateItem(text) => !(env.parseRate(Trim(text)).Some? && env.parseRate(Trim(text)).value > 0.0)
    case FolderItem(text) => Trim(text) == "" || !env.dirExists(Trim(text))
    case _ => false
  }

  lemma BadItemIs(env: Env, item: Item)
    requires item.IntItem? ==> IsInt(item.v)
    ensures Bad(env, ItemEntry(item)) <==> BadItem(env, item)
  {
    if item.IntItem? { StoiReadsBack(item.v); }
  }

  lemma SavedBad(env: Env, c: Conf)
    requires Ints(c)
    ensures (exists k :: 0 <= k < |SavedEntries(env, c)| && Bad(env, SavedEntries(env, c)[k])) <==>
            !(Whole(c) && RateReadsBack(env, c) && FolderReadsBack(env, c))
  {
    var items, es := Saved(env, c), SavedEntries(env, c);
    SavedInts(env, c);
    forall k | 0 <= k < |es| ensures Bad(env, es[k]) <==> BadItem(env, items[k]) {
      BadItemIs(env, items[k]);
    }
    SavedBadItem(env, c);
  }

  lemma SavedInts(env: Env, c: Conf)
    requires Ints(c)
    ensures forall k :: 0 <= k < |Saved(env, c)| && Saved(env, c)[k].IntItem? ==> IsInt(Saved(env, c)[k].v)
  {
    assert forall f: Field :: IsInt(Value(c, f));
    assert IsInt(Value(c, GidIndex)) && IsInt(Value(c, Port)) && IsInt(Value(c, Threads));
    assert IsInt(Value(c, BlockSize)) && IsInt(Value(c, BlockNum));
  }

  // What is bad about line k of the saved text, if it is.
  predicate BadAt(env: Env, c: Conf, k: nat) {
    match k
    case 1 => !Allowed(GidIndex, c.gidIndex)
    case 2 => !Allowed(Port, c.port)
    case 3 => !Allowed(Threads, c.threads)
    case 4 => !RateReadsBack(env, c)
    case 5 => !Allowed(BlockSize, c.blockSize)
    case 6 => !Allowed(BlockNum, c.blockNum)
    case 7 => !FolderReadsBack(env, c)
    case _ => false
  }

  lemma BadItemAt(env: Env, c: Conf, k: nat)
    requires k < |Saved(env, c)|
    ensures BadItem(env, Saved(env, c)[k]) <==> BadAt(env, c, k)
  {
  }

  lemma SavedBadItem(env: Env, c: Conf)
    ensures (exists k :: 0 <= k < |Saved(env, c)| && BadItem(env, Saved(env, c)[k])) <==>
            !(Whole(c) && RateReadsBack(env, c) && FolderReadsBack(env, c))
  {
    var items := Saved(env, c);
    if k :| 0 <= k < |items| && BadItem(env, items[k]) {
      BadItemAt(env, c, k);
    }
    if k :| 0 <= k < 8 && BadAt(env, c, k) {
      BadItemAt(env, c, k);
    } else {
      assert forall k :: 1 <= k < 8 ==> !BadAt(env, c, k);
      assert !BadAt(env, c, 1) && !BadAt(env, c, 2) && !BadAt(env, c, 3) && !BadAt(env, c, 4);
      assert !BadAt(env, c, 5) && !BadAt(env, c, 6) && !BadAt(env, c, 7);
    }
  }

  lemma {:induction false} LinesConcat(a: seq<string>, b: seq<string>)
    ensures Joined(a + b) == Joined(a) + Joined(b)
  {
    if a == [] {
      assert a + b == b;
    } else {
      LinesConcat(a[1..], b);
      assert (a + b)[1..] == a[1..] + b;
      Associate(a[0] + "\n", Joined(a[1..]), Joined(b));
    }
  }

  lemma JoinedConcat(a: seq<Item>, b: seq<Item>)
    ensures Joined(ItemTexts(a + b)) == Joined(ItemTexts(a)) + Joined(ItemTexts(b))
  {
    MapConcat(ItemText, a, b);
    LinesConcat(ItemTexts(a), ItemTexts(b));
  }

  lemma Associate(a: string, b: string, c: string)
    ensures a + (b + c) == (a + b) + c
  {
  }

  lemma JoinedItem(item: Item)
    ensures Joined(ItemTexts([item])) == ItemText(item) + "\n"
  {
    assert ItemTexts([item]) == [ItemText(item)];
    assert Joined([ItemText(item)][1..]) == "";
  }

  // A newline in the folder is not kept: what follows it is read as a line of its own, so a folder
  // can set any of the five.
  lemma {:induction false} NewlineInFolderOverrides(env: Env, c: Conf, d: Conf, base: string, f: Field, v: int)
    requires OneLine(env.rateText(c.rate)) && OneLine(base) && IsInt(v) && Allowed(f, v)
    requires c.folder == base + "\n" + Assignment(Name(f), IntText(v))
    ensures Value(LoadedText(env, d, SavedText(env, c)).conf, f) == v
  {
    var front := Saved(env, c)[..7];
    var items := front + [FolderItem(base), IntItem(f, v)] + [Footer];
    SameText(env, c, front, base, f, v);
    OverridingItems(env, c, base, f, v, items);
    ItemsAreLines(items);
    ItemsReadBack(items);
    LastItemWins(env, Reading(d, false), items, f, v, 8);
  }

  lemma OverridingItems(env: Env, c: Conf, base: string, f: Field, v: int, items: seq<Item>)
    requires OneLine(env.rateText(c.rate)) && OneLine(base)
    requires items == Saved(env, c)[..7] + [FolderItem(base), IntItem(f, v)] + [Footer]
    ensures |items| == 10 && items[8] == IntItem(f, v) && items[9] == Footer
    ensures forall k :: 0 <= k < |items| ==> OneLineItem(items[k])
  {
    assert items[..7] == Saved(env, c)[..7];
  }

  lemma LastItemWins(env: Env, r: Reading, items: seq<Item>, f: Field, v: int, k: nat)
    requires k < |items| && items[k] == IntItem(f, v) && IsInt(v)
    requires forall j :: k < j < |items| ==> !(items[j].IntItem? && items[j].f == f)
    ensures Value(Loaded(env, r, ItemEntries(items)).conf, f) == if Allowed(f, v) then v else Default(f)
  {
    LastItemText(items, f, v, k);
    LastEntryWins(env, r, ItemEntries(items), IntKey(f));
    StoiReadsBack(v);
  }

  lemma LastItemText(items: seq<Item>, f: Field, v: int, k: nat)
    requires k < |items| && items[k] == IntItem(f, v)
    requires forall j :: k < j < |items| ==> !(items[j].IntItem? && items[j].f == f)
    ensures LastText(IntKey(f), ItemEntries(items)) == Some(IntText(v))
  {
    LastTextAt(IntKey(f), ItemEntries(items), k);
  }

  lemma SameText(env: Env, c: Conf, front: seq<Item>, base: string, f: Field, v: int)
    requires c.folder == base + "\n" + Assignment(Name(f), IntText(v)) && front == Saved(env, c)[..7]
    ensures SavedText(env, c) == Joined(ItemTexts(front + [FolderItem(base), IntItem(f, v)] + [Footer]))
  {
    var whole, one, two := FolderItem(c.folder), FolderItem(base), IntItem(f, v);
    assert Saved(env, c) == front + [whole] + [Footer];
    JoinedConcat(front + [whole], [Footer]);
    JoinedConcat(front, [whole]);
    JoinedConcat(front + [one, two], [Footer]);
    JoinedConcat(front, [one, two]);
    assert [one, two] == [one] + [two];
    JoinedConcat([one], [two]);
    JoinedItem(whole);
    JoinedItem(one);
    JoinedItem(two);
    SplitFolder(base, Assignment(Name(f), IntText(v)));
  }

  lemma SplitFolder(base: string, line: string)
    ensures ItemText(FolderItem(base + "\n" + line)) + "\n" == (ItemText(FolderItem(base)) + "\n") + (line + "\n")
  {
  }
}