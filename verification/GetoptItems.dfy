/** Arguments as a user means them, written out as a command line: reading the line back gives what
    was meant. */
module GetoptItems {
  import opened Wrappers
  import opened Getopt

  // ---------------------------------------------------------------- the option string

  /** One entry of the option string. */
  datatype Entry = Entry(letter: char, need: Requirement)

  /** `quiet` is the leading colon that asks for a different error value. */
  datatype Options = Options(quiet: bool, entries: seq<Entry>, longs: Option<seq<LongOption>>)

  // A stray colon, which is no letter, stands only where no reading of the colons before takes it.
  predicate Fine(o: Options) {
    Entered(o.entries) && (o.entries != [] && !o.quiet ==> o.entries[0].letter != ':')
  }

  predicate Entered(entries: seq<Entry>) {
    && (forall i :: 0 <= i < |entries| ==> entries[i].need != Unknown)
    && forall i :: 0 < i < |entries| && entries[i].letter == ':' ==> entries[i - 1].need == Optional
  }

  function Colons(need: Requirement): string {
    match need
    case Required => ":"
    case Optional => "::"
    case _ => ""
  }

  function Written(entries: seq<Entry>): string {
    if entries == [] then "" else [entries[0].letter] + Colons(entries[0].need) + Written(entries[1..])
  }

  function Syntax(o: Options): Grammar { Grammar((if o.quiet then ":" else "") + Written(o.entries), o.longs) }

  // What the first entry with the letter asks for.
  function NeedOf(entries: seq<Entry>, c: char): Requirement {
    if entries == [] then Unknown else if entries[0].letter == c then entries[0].need else NeedOf(entries[1..], c)
  }

  // The requirement the parser reads off the option string is the one that was written there.
  lemma NeedRead(o: Options, c: char)
    requires Fine(o)
    ensures ShortRequirement(Syntax(o).shorts, c) == if c == ':' then Unknown else NeedOf(o.entries, c)
  {
    if c != ':' { NeedAfter(if o.quiet then ":" else "", o.entries, c); }
  }

  lemma {:induction false} NeedAfter(prefix: string, entries: seq<Entry>, c: char)
    requires Entered(entries) && c != ':' && c !in prefix
    ensures ShortRequirement(prefix + Written(entries), c) == NeedOf(entries, c)
    decreases |entries|
  {
    var shorts := prefix + Written(entries);
    if entries == [] {
      assert shorts == prefix;
    } else {
      var e, rest := entries[0], Written(entries[1..]);
      assert |entries| > 1 && entries[1].letter == ':' ==> e.need == Optional;
      if e.letter == c {
        assert shorts == prefix + [c] + (Colons(e.need) + rest);
        NeedHere(prefix, Colons(e.need) + rest, c);
        ColonsSay(e.need, rest);
      } else {
        var more := prefix + [e.letter] + Colons(e.need);
        assert shorts == more + rest;
        NeedAfter(more, entries[1..], c);
      }
    }
  }

  // What the text after a letter says.
  function Said(after: string): Requirement {
    if |after| == 0 || after[0] != ':' then NoArgument else if |after| > 1 && after[1] == ':' then Optional else Required
  }

  lemma ColonsSay(need: Requirement, rest: string)
    requires need != Unknown && (rest != "" && rest[0] == ':' ==> need == Optional)
    ensures need == Said(Colons(need) + rest)
  {}

  lemma FirstAt(prefix: string, c: char, after: string)
    requires c !in prefix
    ensures Position(prefix + [c] + after, c) == Some(|prefix|)
  {
    var s := prefix + [c] + after;
    assert s[|prefix|] == c;
    forall k | 0 <= k < |prefix| ensures s[k] != c { assert s[k] == prefix[k] && prefix[k] in prefix; }
  }

  // The colons right after the letter's first occurrence decide.
  lemma NeedHere(prefix: string, after: string, c: char)
    requires c != ':' && c !in prefix
    ensures ShortRequirement(prefix + [c] + after, c) == Said(after)
  {
    var shorts := prefix + [c] + after;
    assert shorts[|prefix|] == c;
    FirstAt(prefix, c, after);
    var i := |prefix|;
    assert |after| > 0 ==> shorts[i + 1] == after[0];
    assert |after| > 1 ==> shorts[i + 2] == after[1];
  }

  // ---------------------------------------------------------------- every option string has entries

  function EntriesOf(text: string): seq<Entry> {
    if text == "" then []
    else
      var need := Said(text[1..]);
      [Entry(text[0], need)] + EntriesOf(text[1 + |Colons(need)|..])
  }

  lemma {:induction false} EntriesWritten(text: string)
    ensures Entered(EntriesOf(text)) && Written(EntriesOf(text)) == text
    ensures text != "" ==> EntriesOf(text) != [] && EntriesOf(text)[0].letter == text[0]
    decreases |text|
  {
    if text != "" {
      var need := Said(text[1..]);
      var rest := text[1 + |Colons(need)|..];
      EntriesWritten(rest);
      assert text == [text[0]] + Colons(need) + rest;
      EntersOne(Entry(text[0], need), EntriesOf(rest));
    }
  }

  lemma EntersOne(e: Entry, entries: seq<Entry>)
    requires Entered(entries) && e.need != Unknown && (entries != [] && entries[0].letter == ':' ==> e.need == Optional)
    ensures Entered([e] + entries) && Written([e] + entries) == [e.letter] + Colons(e.need) + Written(entries)
  {
    assert ([e] + entries)[1..] == entries;
  }

  lemma EverySyntax(g: Grammar) returns (o: Options)
    ensures Fine(o) && Syntax(o) == g
  {
    var quiet := g.shorts != "" && g.shorts[0] == ':';
    var text := if quiet then g.shorts[1..] else g.shorts;
    o := Options(quiet, EntriesOf(text), g.longs);
    EntriesWritten(text);
    assert g.shorts == (if quiet then ":" else "") + text;
  }

  // A missing argument is reported as ':' exactly when the option string starts with a colon.
  lemma MissingRead(o: Options)
    requires Fine(o)
    ensures MissingArgument(Syntax(o)) == if o.quiet then ':' as int else '?' as int
  {}

  // ---------------------------------------------------------------- what the user means

  /** `flags` are the letters without argument, known or unknown, that share the element with what
      follows them, and `given` is a long option's name as the user writes it. */
  datatype Item =
    | Operand(text: string)
    | Flags(flags: string)
    | Attached(flags: string, letter: char, text: string)
    | Separate(flags: string, letter: char, text: string)
    | Bare(flags: string, letter: char)
    | LongPlain(index: nat, given: string)
    | LongAttached(index: nat, given: string, text: string)
    | LongSeparate(index: nat, given: string, text: string)
    | LongRefused(index: nat, given: string, text: string)
    | LongUnknown(given: string, argument: Option<string>)
    | LongAmbiguous(given: string, argument: Option<string>)

  /** How the line ends: with the last item, at `--`, or with an option that lacks its argument. */
  datatype Ending = Finish | Separated(others: seq<string>) | ShortLacks(flags: string, letter: char) | LongLacks(index: nat, given: string)

  predicate TakesArgument(o: Options, c: char) {
    c != ':' && (NeedOf(o.entries, c) == Required || NeedOf(o.entries, c) == Optional)
  }

  predicate AreFlags(o: Options, flags: string) { forall i :: 0 <= i < |flags| ==> !TakesArgument(o, flags[i]) }

  // What can follow the dash of a cluster.
  predicate Heads(o: Options, cluster: string) { cluster != "" && (cluster[0] == '-' ==> o.longs.None? && cluster != "-") }

  // A name that can be written after two dashes.
  predicate IsGiven(o: Options, given: string) { o.longs.Some? && '=' !in given }

  // The name means the long option at `index`: it is that option's whole name, and no earlier one
  // has it; or nobody's whole name, but the beginning of that one's, of none before it, and of no
  // other that would act differently.
  predicate Names(o: Options, index: nat, given: string) {
    && IsGiven(o, given) && index < |o.longs.value|
    && var longs := o.longs.value;
       if longs[index].name == given then forall j :: 0 <= j < index ==> longs[j].name != given
       else
         && given <= longs[index].name && (forall j :: 0 <= j < |longs| ==> longs[j].name != given)
         && (forall j :: 0 <= j < index ==> !(given <= longs[j].name))
         && forall j :: 0 <= j < |longs| && given <= longs[j].name ==>
              longs[j].hasArg == longs[index].hasArg && longs[j].flag == longs[index].flag && longs[j].value == longs[index].value
  }

  predicate NamesNone(o: Options, given: string) {
    IsGiven(o, given) && forall j :: 0 <= j < |o.longs.value| ==> !(given <= o.longs.value[j].name)
  }

  // Nobody's whole name, and the beginning of two that act differently.
  predicate NamesSeveral(o: Options, given: string) {
    && IsGiven(o, given) && (forall j :: 0 <= j < |o.longs.value| ==> o.longs.value[j].name != given)
    && exists i, j :: 0 <= i < |o.longs.value| && 0 <= j < |o.longs.value| && Differ(o.longs.value[i], o.longs.value[j], given)
  }

  predicate Differ(a: LongOption, b: LongOption, given: string) {
    given <= a.name && given <= b.name && !(a.hasArg == b.hasArg && a.flag == b.flag && a.value == b.value)
  }

  function HasArg(o: Options, index: nat): int
    requires o.longs.Some? && index < |o.longs.value|
  {
    o.longs.value[index].hasArg
  }

  predicate Meant(o: Options, item: Item) {
    match item
    case Operand(text) => text == "" || text == "-" || text[0] != '-'
    case Flags(flags) => Heads(o, flags) && AreFlags(o, flags)
    case Attached(flags, c, text) => Heads(o, flags + [c] + text) && AreFlags(o, flags) && TakesArgument(o, c) && text != ""
    case Separate(flags, c, _) => Heads(o, flags + [c]) && AreFlags(o, flags) && TakesArgument(o, c) && NeedOf(o.entries, c) == Required
    case Bare(flags, c) => Heads(o, flags + [c]) && AreFlags(o, flags) && TakesArgument(o, c) && NeedOf(o.entries, c) == Optional
    case LongPlain(i, given) => given != "" && Names(o, i, given) && HasArg(o, i) != 1
    case LongAttached(i, given, _) => Names(o, i, given) && HasArg(o, i) != 0
    case LongSeparate(i, given, _) => given != "" && Names(o, i, given) && HasArg(o, i) == 1
    case LongRefused(i, given, _) => Names(o, i, given) && HasArg(o, i) == 0
    case LongUnknown(given, argument) => given + Assigned(argument) != "" && NamesNone(o, given)
    case LongAmbiguous(given, argument) => given + Assigned(argument) != "" && NamesSeveral(o, given)
  }

  predicate Ends(o: Options, end: Ending) {
    match end
    case ShortLacks(flags, c) => Heads(o, flags + [c]) && AreFlags(o, flags) && TakesArgument(o, c) && NeedOf(o.entries, c) == Required
    case LongLacks(i, given) => given != "" && Names(o, i, given) && HasArg(o, i) == 1
    case _ => true
  }

  // ---------------------------------------------------------------- how it is written

  function Assigned(argument: Option<string>): string { if argument.Some? then "=" + argument.value else "" }

  function Line(o: Options, item: Item): seq<string>
    requires Meant(o, item)
  {
    match item
    case Operand(text) => [text]
    case Flags(flags) => ["-" + flags]
    case Attached(flags, c, text) => ["-" + flags + [c] + text]
    case Separate(flags, c, text) => ["-" + flags + [c], text]
    case Bare(flags, c) => ["-" + flags + [c]]
    case LongPlain(_, given) => ["--" + given]
    case LongAttached(_, given, text) => ["--" + given + "=" + text]
    case LongSeparate(_, given, text) => ["--" + given, text]
    case LongRefused(_, given, text) => ["--" + given + "=" + text]
    case LongUnknown(given, argument) => ["--" + (given + Assigned(argument))]
    case LongAmbiguous(given, argument) => ["--" + (given + Assigned(argument))]
  }

  function LastLine(o: Options, end: Ending): seq<string>
    requires Ends(o, end)
  {
    match end
    case Finish => []
    case Separated(others) => ["--"] + others
    case ShortLacks(flags, c) => ["-" + flags + [c]]
    case LongLacks(_, given) => ["--" + given]
  }

  // ---------------------------------------------------------------- what is to be reported

  // A letter the option string lacks is reported as an error.
  function FlagEvent(o: Options, c: char): Event {
    if c == ':' || NeedOf(o.entries, c) == Unknown then Event('?' as int, None, Some(c as int), None, None)
    else Event(c as int, None, None, None, None)
  }

  function FlagEvents(o: Options, flags: string): seq<Event> {
    if flags == "" then [] else [FlagEvent(o, flags[0])] + FlagEvents(o, flags[1..])
  }

  // A long option reports its value, or zero after storing it where its entry says.
  function LongEvent(o: Options, index: nat, argument: Option<string>): Event
    requires o.longs.Some? && index < |o.longs.value|
  {
    var option := o.longs.value[index];
    Event(if option.flag.Some? then 0 else option.value, argument, None, Some(index),
          if option.flag.Some? then Some((option.flag.value, option.value)) else None)
  }

  function Reported(o: Options, item: Item): seq<Event>
    requires Meant(o, item)
  {
    match item
    case Operand(_) => []
    case Flags(flags) => FlagEvents(o, flags)
    case Attached(flags, c, text) => FlagEvents(o, flags) + [Event(c as int, Some(text), None, None, None)]
    case Separate(flags, c, text) => FlagEvents(o, flags) + [Event(c as int, Some(text), None, None, None)]
    case Bare(flags, c) => FlagEvents(o, flags) + [Event(c as int, None, None, None, None)]
    case LongPlain(i, _) => [LongEvent(o, i, None)]
    case LongAttached(i, _, text) => [LongEvent(o, i, Some(text))]
    case LongSeparate(i, _, text) => [LongEvent(o, i, Some(text))]
    case LongUnknown(_, _) => [Event('?' as int, None, Some(0), None, None)]
    case LongAmbiguous(_, _) => [Event('?' as int, None, Some(0), None, None)]
    case LongRefused(i, _, _) => [Event('?' as int, None, Some(o.longs.value[i].value), None, None)]
  }

  function LastReported(o: Options, end: Ending): seq<Event>
    requires Ends(o, end)
  {
    var lacks := if o.quiet then ':' as int else '?' as int;
    match end
    case Finish => []
    case Separated(_) => []
    case ShortLacks(flags, c) => FlagEvents(o, flags) + [Event(lacks, None, Some(c as int), None, None)]
    case LongLacks(i, _) => [Event(lacks, None, Some(o.longs.value[i].value), None, None)]
  }

  function WithItem(o: Options, item: Item, rest: Parsed): Parsed
    requires Meant(o, item)
  {
    if item.Operand? then Before([], [], [item.text], rest)
    else Before(Reported(o, item), Line(o, item), [], rest)
  }

  // ---------------------------------------------------------------- reading it back

  // The flags of a cluster are reported one by one, and then comes what follows them.
  lemma {:induction false} FlagsRead(o: Options, flags: string, tail: string, next: Option<string>)
    requires Fine(o) && AreFlags(o, flags)
    ensures Cluster(Syntax(o), flags + tail, next)
         == (FlagEvents(o, flags) + Cluster(Syntax(o), tail, next).0, Cluster(Syntax(o), tail, next).1)
    decreases |flags|
  {
    if flags == "" {
      assert flags + tail == tail && [] + Cluster(Syntax(o), tail, next).0 == Cluster(Syntax(o), tail, next).0;
    } else {
      FlagsRead(o, flags[1..], tail, next);
      FlagRead(o, flags[0], flags[1..] + tail, next);
      FirstApart(flags, tail);
      EventsJoin(o, flags, Cluster(Syntax(o), tail, next).0);
    }
  }

  lemma FirstApart(flags: string, tail: string)
    requires flags != ""
    ensures flags + tail == [flags[0]] + (flags[1..] + tail)
  {}

  lemma EventsJoin(o: Options, flags: string, rest: seq<Event>)
    requires flags != ""
    ensures [FlagEvent(o, flags[0])] + (FlagEvents(o, flags[1..]) + rest) == FlagEvents(o, flags) + rest
  {}

  // One letter without argument, with more to come.
  lemma FlagRead(o: Options, c: char, more: string, next: Option<string>)
    requires Fine(o) && !TakesArgument(o, c)
    ensures Cluster(Syntax(o), [c] + more, next)
         == ([FlagEvent(o, c)] + Cluster(Syntax(o), more, next).0, Cluster(Syntax(o), more, next).1)
  {
    NeedRead(o, c);
    assert ([c] + more)[1..] == more;
    assert Short(Syntax(o), [c] + more, next) == ShortResult(FlagEvent(o, c), more, false);
  }

  // An element that is a cluster is read as one.
  lemma ClusterRead(o: Options, cluster: string, rest: seq<string>)
    requires Heads(o, cluster)
    ensures Parse(Syntax(o), ["-" + cluster] + rest) == Clustered(Syntax(o), cluster, ["-" + cluster] + rest)
  {
    var args := ["-" + cluster] + rest;
    assert args[0] == "-" + cluster && args[0][1..] == cluster && args[0][1] == cluster[0];
  }

  // The letter with the argument, at the end of its cluster.
  lemma LastRead(o: Options, c: char, text: string, next: Option<string>)
    requires Fine(o) && TakesArgument(o, c)
    ensures var r := Cluster(Syntax(o), [c] + text, next);
            if text != "" then r == ([Event(c as int, Some(text), None, None, None)], false)
            else if NeedOf(o.entries, c) == Optional then r == ([Event(c as int, None, None, None, None)], false)
            else if next.Some? then r == ([Event(c as int, Some(next.value), None, None, None)], true)
            else r == ([Event(if o.quiet then ':' as int else '?' as int, None, Some(c as int), None, None)], false)
  {
    NeedRead(o, c);
    MissingRead(o);
    assert ([c] + text)[1..] == text;
    var r := Short(Syntax(o), [c] + text, next);
    if !r.usesNext && r.rest == "" {
      assert Cluster(Syntax(o), r.rest, next) == ([], false);
      assert [r.event] + [] == [r.event];
    }
  }

  // An element made of flags and what follows them, alone or with the argument after it.
  lemma ShortElement(o: Options, flags: string, tail: string, rest: seq<string>)
    requires Fine(o) && AreFlags(o, flags) && Heads(o, flags + tail)
    ensures var r := Cluster(Syntax(o), tail, First(rest));
            var args := ["-" + (flags + tail)] + rest;
            var k := if r.1 then 2 else 1;
            k <= |args| && Parse(Syntax(o), args) == Before(FlagEvents(o, flags) + r.0, args[..k], [], Parse(Syntax(o), args[k..]))
  {
    FlagsRead(o, flags, tail, First(rest));
    ClusterRead(o, flags + tail, rest);
    var args := ["-" + (flags + tail)] + rest;
    assert args[1..] == rest;
  }

  lemma FlagsItem(o: Options, item: Item, rest: seq<string>)
    requires Fine(o) && Meant(o, item) && item.Flags?
    ensures Parse(Syntax(o), Line(o, item) + rest) == WithItem(o, item, Parse(Syntax(o), rest))
  {
    var args := Line(o, item) + rest;
    ShortElement(o, item.flags, "", rest);
    assert item.flags + "" == item.flags && FlagEvents(o, item.flags) + [] == FlagEvents(o, item.flags);
    assert args[1..] == rest && args[..1] == Line(o, item);
  }

  lemma Glued(flags: string, c: char, text: string)
    ensures flags + [c] + text == flags + ([c] + text) && "-" + flags + [c] + text == "-" + (flags + ([c] + text))
  {}

  lemma AttachedItem(o: Options, item: Item, rest: seq<string>)
    requires Fine(o) && Meant(o, item) && item.Attached?
    ensures Parse(Syntax(o), Line(o, item) + rest) == WithItem(o, item, Parse(Syntax(o), rest))
  {
    var tail := [item.letter] + item.text;
    Glued(item.flags, item.letter, item.text);
    LastRead(o, item.letter, item.text, First(rest));
    ShortElement(o, item.flags, tail, rest);
    OneAhead("-" + (item.flags + tail), rest);
  }

  lemma OneAhead(element: string, rest: seq<string>)
    ensures var args := [element] + rest; args[1..] == rest && args[..1] == [element]
  {}

  lemma BareItem(o: Options, item: Item, rest: seq<string>)
    requires Fine(o) && Meant(o, item) && item.Bare?
    ensures Parse(Syntax(o), Line(o, item) + rest) == WithItem(o, item, Parse(Syntax(o), rest))
  {
    var args, tail := Line(o, item) + rest, [item.letter] + "";
    LastRead(o, item.letter, "", First(rest));
    assert item.flags + [item.letter] == item.flags + tail;
    ShortElement(o, item.flags, tail, rest);
    assert "-" + item.flags + [item.letter] == "-" + (item.flags + tail);
    assert args[1..] == rest && args[..1] == Line(o, item);
  }

  lemma SeparateItem(o: Options, item: Item, rest: seq<string>)
    requires Fine(o) && Meant(o, item) && item.Separate?
    ensures Parse(Syntax(o), Line(o, item) + rest) == WithItem(o, item, Parse(Syntax(o), rest))
  {
    var args, tail := Line(o, item) + rest, [item.letter] + "";
    LastRead(o, item.letter, "", Some(item.text));
    assert item.flags + [item.letter] == item.flags + tail;
    ShortElement(o, item.flags, tail, [item.text] + rest);
    assert "-" + item.flags + [item.letter] == "-" + (item.flags + tail);
    assert args == ["-" + (item.flags + tail)] + ([item.text] + rest);
    assert args[2..] == rest && args[..2] == Line(o, item);
  }

  lemma ExactIsName(longs: seq<LongOption>, given: string)
    ensures var r := FirstFrom(longs, given, true, 0); r.Some? ==> longs[r.value].name == given
  {}

  // A name finds the option it means.
  lemma NameFound(o: Options, index: nat, given: string)
    requires Names(o, index, given)
    ensures FindLong(Longs(Syntax(o)), given) == Found(index)
  {
    var longs := o.longs.value;
    var exact, first := FirstFrom(longs, given, true, 0), FirstFrom(longs, given, false, 0);
    ExactIsName(longs, given);
    if longs[index].name == given {
      assert Abbreviates(longs[index], given, true);
      assert exact.Some? && exact.value <= index;
    } else {
      assert Abbreviates(longs[index], given, false);
      assert first.Some? && first.value <= index;
      assert Abbreviates(longs[first.value], given, false);
    }
  }

  lemma NoneFound(o: Options, given: string)
    requires NamesNone(o, given)
    ensures FindLong(Longs(Syntax(o)), given) == NoMatch
  {}

  lemma SeveralFound(o: Options, given: string)
    requires NamesSeveral(o, given)
    ensures FindLong(Longs(Syntax(o)), given) == Ambiguous
  {
    var longs := o.longs.value;
    var first := FirstFrom(longs, given, false, 0);
    ExactIsName(longs, given);
    var i, j :| 0 <= i < |longs| && 0 <= j < |longs| && Differ(longs[i], longs[j], given);
    assert Abbreviates(longs[i], given, false) && Abbreviates(longs[j], given, false);
    assert first.Some?;
  }

  lemma NobodyRead(o: Options, given: string, argument: Option<string>, next: Option<string>)
    requires NamesNone(o, given) || NamesSeveral(o, given)
    ensures Long(Syntax(o), given + Assigned(argument), next) == LongResult(Event('?' as int, None, Some(0), None, None), false)
  {
    LongParts(Syntax(o), given, argument, next);
    if NamesNone(o, given) { NoneFound(o, given); } else { SeveralFound(o, given); }
  }

  lemma LongRead(o: Options, index: nat, given: string, argument: Option<string>, next: Option<string>)
    requires Names(o, index, given)
    ensures LongMeans(o, index, argument, next, Long(Syntax(o), given + Assigned(argument), next))
  {
    NameFound(o, index, given);
    LongParts(Syntax(o), given, argument, next);
    ArgumentRead(o, index, argument, next);
  }

  // Zero refuses an argument, one requires it, from the next element if need be, and any other
  // value takes only an attached one.
  predicate LongMeans(o: Options, index: nat, argument: Option<string>, next: Option<string>, r: LongResult)
    requires o.longs.Some? && index < |o.longs.value|
  {
    match HasArg(o, index)
    case 0 => r == LongResult(if argument.Some? then Event('?' as int, None, Some(o.longs.value[index].value), None, None)
                              else LongEvent(o, index, None), false)
    case 1 =>
      (if argument.Some? then r == LongResult(LongEvent(o, index, argument), false)
       else if next.Some? then r == LongResult(LongEvent(o, index, next), true)
       else r == LongResult(Event(MissingArgument(Syntax(o)), None, Some(o.longs.value[index].value), None, None), false))
    case _ => r == LongResult(LongEvent(o, index, argument), false)
  }

  lemma ArgumentRead(o: Options, index: nat, argument: Option<string>, next: Option<string>)
    requires o.longs.Some? && index < |o.longs.value|
    ensures LongMeans(o, index, argument, next, LongFound(Syntax(o), index, o.longs.value[index], argument, next))
  {}

  // The element splits at the first '=', into the name and its argument.
  lemma LongParts(g: Grammar, given: string, argument: Option<string>, next: Option<string>)
    requires '=' !in given
    ensures Long(g, given + Assigned(argument), next) == match FindLong(Longs(g), given)
              case NoMatch => LongResult(Event('?' as int, None, Some(0), None, None), false)
              case Ambiguous => LongResult(Event('?' as int, None, Some(0), None, None), false)
              case Found(i) => LongFound(g, i, Longs(g)[i], argument, next)
  {
    if argument.Some? {
      var body := given + ("=" + argument.value);
      EqualsAt(given, argument.value);
      assert body[..|given|] == given && body[|given| + 1..] == argument.value;
    } else {
      assert given + "" == given;
      NoEquals(given);
    }
  }

  lemma NoEquals(name: string)
    requires '=' !in name
    ensures Position(name, '=') == None
  {}

  lemma EqualsAt(name: string, text: string)
    requires '=' !in name
    ensures Position(name + ("=" + text), '=') == Some(|name|)
  {
    FirstAt(name, '=', text);
    assert name + ("=" + text) == name + ['='] + text;
  }

  // An element that starts with two dashes is read as a long option.
  lemma LongElement(o: Options, body: string, rest: seq<string>)
    requires o.longs.Some? && body != ""
    ensures var r := Long(Syntax(o), body, First(rest));
            var args := ["--" + body] + rest;
            var k := if r.usesNext && |args| > 1 then 2 else 1;
            Parse(Syntax(o), args) == Before([r.event], args[..k], [], Parse(Syntax(o), args[k..]))
  {
    var args := ["--" + body] + rest;
    assert args[0] == "--" + body && args[0][2..] == body && args[1..] == rest;
  }

  lemma LongAlone(o: Options, item: Item, rest: seq<string>)
    requires Fine(o) && Meant(o, item) && item.LongPlain?
    ensures Parse(Syntax(o), Line(o, item) + rest) == WithItem(o, item, Parse(Syntax(o), rest))
  {
    var name, args := item.given, Line(o, item) + rest;
    LongRead(o, item.index, name, None, First(rest));
    assert name + "" == name;
    LongElement(o, name, rest);
    assert args[..1] == Line(o, item) && args[1..] == rest;
  }

  lemma LongNobody(o: Options, item: Item, rest: seq<string>)
    requires Fine(o) && Meant(o, item) && (item.LongUnknown? || item.LongAmbiguous?)
    ensures Parse(Syntax(o), Line(o, item) + rest) == WithItem(o, item, Parse(Syntax(o), rest))
  {
    var args := Line(o, item) + rest;
    NobodyRead(o, item.given, item.argument, First(rest));
    LongElement(o, item.given + Assigned(item.argument), rest);
    assert args[..1] == Line(o, item) && args[1..] == rest;
  }

  lemma Equated(given: string, text: string)
    ensures "--" + given + "=" + text == "--" + (given + Assigned(Some(text)))
  {}

  lemma LongEquals(o: Options, item: Item, rest: seq<string>)
    requires Fine(o) && Meant(o, item) && item.LongAttached?
    ensures Parse(Syntax(o), Line(o, item) + rest) == WithItem(o, item, Parse(Syntax(o), rest))
  {
    LongRead(o, item.index, item.given, Some(item.text), First(rest));
    Equated(item.given, item.text);
    LongElement(o, item.given + Assigned(Some(item.text)), rest);
    OneAhead("--" + item.given + "=" + item.text, rest);
  }

  lemma LongTooMuch(o: Options, item: Item, rest: seq<string>)
    requires Fine(o) && Meant(o, item) && item.LongRefused?
    ensures Parse(Syntax(o), Line(o, item) + rest) == WithItem(o, item, Parse(Syntax(o), rest))
  {
    LongRead(o, item.index, item.given, Some(item.text), First(rest));
    Equated(item.given, item.text);
    LongElement(o, item.given + Assigned(Some(item.text)), rest);
    OneAhead("--" + item.given + "=" + item.text, rest);
  }

  lemma LongThenText(o: Options, item: Item, rest: seq<string>)
    requires Fine(o) && Meant(o, item) && item.LongSeparate?
    ensures Parse(Syntax(o), Line(o, item) + rest) == WithItem(o, item, Parse(Syntax(o), rest))
  {
    var name, args := item.given, Line(o, item) + rest;
    LongRead(o, item.index, name, None, Some(item.text));
    assert name + "" == name && First([item.text] + rest) == Some(item.text);
    LongElement(o, name, [item.text] + rest);
    assert args == ["--" + name] + ([item.text] + rest);
    assert args[..2] == Line(o, item) && args[2..] == rest;
  }

  lemma ItemRead(o: Options, item: Item, rest: seq<string>)
    requires Fine(o) && Meant(o, item)
    ensures Parse(Syntax(o), Line(o, item) + rest) == WithItem(o, item, Parse(Syntax(o), rest))
  {
    if item.Operand? {
      var args := Line(o, item) + rest;
      assert args[0] == item.text && args[1..] == rest;
    } else if item.LongPlain? {
      LongAlone(o, item, rest);
    } else if item.LongUnknown? || item.LongAmbiguous? {
      LongNobody(o, item, rest);
    } else if item.LongSeparate? {
      LongThenText(o, item, rest);
    } else if item.LongAttached? {
      LongEquals(o, item, rest);
    } else if item.LongRefused? {
      LongTooMuch(o, item, rest);
    } else if item.Flags? {
      FlagsItem(o, item, rest);
    } else if item.Separate? {
      SeparateItem(o, item, rest);
    } else if item.Attached? {
      AttachedItem(o, item, rest);
    } else {
      BareItem(o, item, rest);
    }
  }

  function EndParsed(o: Options, end: Ending): Parsed
    requires Ends(o, end)
  {
    match end
    case Finish => Parsed([], [], [])
    case Separated(others) => Parsed([], ["--"], others)
    case _ => Parsed(LastReported(o, end), LastLine(o, end), [])
  }

  lemma EndRead(o: Options, end: Ending)
    requires Fine(o) && Ends(o, end)
    ensures Parse(Syntax(o), LastLine(o, end)) == EndParsed(o, end)
  {
    var args := LastLine(o, end);
    match end
    case Finish =>
    case Separated(others) => assert args[0] == "--" && args[1..] == others;
    case ShortLacks(flags, c) =>
      FlagsRead(o, flags, [c] + "", None);
      LastRead(o, c, "", None);
      assert "-" + flags + [c] == "-" + (flags + ([c] + ""));
      assert flags + [c] == flags + ([c] + "");
      ClusterRead(o, flags + ([c] + ""), []);
      assert args == ["-" + (flags + ([c] + ""))] + [] && args[1..] == [] && args[..1] == args;
      NothingAfter(LastReported(o, end), args);
    case LongLacks(i, name) =>
      LongRead(o, i, name, None, None);
      MissingRead(o);
      assert name + "" == name;
      LongElement(o, name, []);
      assert args == ["--" + name] + [] && args[1..] == [] && args[..1] == args;
      NothingAfter(LastReported(o, end), args);
  }

  lemma NothingAfter(events: seq<Event>, args: seq<string>)
    ensures Before(events, args, [], Parsed([], [], [])) == Parsed(events, args, [])
  {
    assert events + [] == events && args + [] == args;
  }

  // ---------------------------------------------------------------- whole command lines

  function Lines(o: Options, items: seq<Item>, end: Ending): seq<string>
    requires Ends(o, end) && forall i :: 0 <= i < |items| ==> Meant(o, items[i])
  {
    if items == [] then LastLine(o, end) else Line(o, items[0]) + Lines(o, items[1..], end)
  }

  // All events in order, all option elements in order, all operands in order.
  function Meaning(o: Options, items: seq<Item>, end: Ending): Parsed
    requires Ends(o, end) && forall i :: 0 <= i < |items| ==> Meant(o, items[i])
  {
    if items == [] then EndParsed(o, end)
    else
      var rest := Meaning(o, items[1..], end);
      if items[0].Operand? then Parsed(rest.events, rest.options, [items[0].text] + rest.others)
      else Parsed(Reported(o, items[0]) + rest.events, Line(o, items[0]) + rest.options, rest.others)
  }

  // Whatever the user means, written out and read back, is what was meant.
  lemma {:induction false} LineRead(o: Options, items: seq<Item>, end: Ending)
    requires Fine(o) && Ends(o, end) && forall i :: 0 <= i < |items| ==> Meant(o, items[i])
    ensures Parse(Syntax(o), Lines(o, items, end)) == Meaning(o, items, end)
    decreases |items|
  {
    if items == [] {
      EndRead(o, end);
    } else {
      LineRead(o, items[1..], end);
      ItemRead(o, items[0], Lines(o, items[1..], end));
      var rest := Meaning(o, items[1..], end);
      assert [] + rest.events == rest.events && [] + rest.options == rest.options && [] + rest.others == rest.others;
    }
  }

  // ---------------------------------------------------------------- every line has a meaning

  // Up to the first letter that takes an argument.
  function FlagCount(o: Options, cluster: string): (n: nat)
    ensures n <= |cluster| && AreFlags(o, cluster[..n]) && (n < |cluster| ==> TakesArgument(o, cluster[n]))
  {
    if cluster == "" || TakesArgument(o, cluster[0]) then 0 else 1 + FlagCount(o, cluster[1..])
  }

  // The first of the arguments begins an item, or the end.
  predicate Begins(o: Options, item: Option<Item>, end: Ending, args: seq<string>) {
    match item
    case Some(i) => Meant(o, i) && Line(o, i) <= args && Line(o, i) != []
    case None => Ends(o, end) && LastLine(o, end) == args
  }

  lemma Front(args: seq<string>)
    requires args != []
    ensures [args[0]] <= args && (|args| > 1 ==> [args[0], args[1]] <= args) && (|args| == 1 ==> args == [args[0]])
  {}

  lemma ClusterBegins(o: Options, args: seq<string>) returns (item: Option<Item>, end: Ending)
    requires Fine(o) && args != [] && args[0] != "" && args[0][0] == '-' && Heads(o, args[0][1..])
    ensures Begins(o, item, end, args)
  {
    var cluster := args[0][1..];
    var n := FlagCount(o, cluster);
    assert args[0] == "-" + cluster;
    Front(args);
    if n == |cluster| {
      assert cluster[..n] == cluster;
      item, end := Some(Flags(cluster)), Finish;
    } else {
      assert cluster == cluster[..n] + [cluster[n]] + cluster[n + 1..];
      item, end := LetterBegins(o, cluster[..n], cluster[n], cluster[n + 1..], args);
    }
  }

  lemma LetterBegins(o: Options, flags: string, c: char, text: string, args: seq<string>) returns (item: Option<Item>, end: Ending)
    requires Fine(o) && AreFlags(o, flags) && TakesArgument(o, c) && Heads(o, flags + [c] + text)
    requires args != [] && args[0] == "-" + (flags + [c] + text)
    ensures Begins(o, item, end, args)
  {
    Front(args);
    item, end := None, Finish;
    if text != "" {
      assert "-" + flags + [c] + text == args[0];
      item := Some(Attached(flags, c, text));
    } else {
      assert flags + [c] + text == flags + [c] && "-" + flags + [c] == args[0];
      if NeedOf(o.entries, c) == Optional {
        item := Some(Bare(flags, c));
      } else if |args| > 1 {
        item := Some(Separate(flags, c, args[1]));
      } else {
        end := ShortLacks(flags, c);
      }
    }
  }

  // A name that can be given means one option, none or several.
  lemma NameMeans(o: Options, given: string)
    requires IsGiven(o, given)
    ensures match FindLong(Longs(Syntax(o)), given)
            case NoMatch => NamesNone(o, given)
            case Ambiguous => NamesSeveral(o, given)
            case Found(i) => Names(o, i, given)
  {
    var longs := o.longs.value;
    var exact, first := FirstFrom(longs, given, true, 0), FirstFrom(longs, given, false, 0);
    ExactIsName(longs, given);
    if exact.None? {
      forall j | 0 <= j < |longs| ensures longs[j].name != given {
        assert !Abbreviates(longs[j], given, true);
      }
      forall j | 0 <= j < |longs| && given <= longs[j].name ensures Abbreviates(longs[j], given, false) {}
      if first.Some? && FindLong(longs, given) == Ambiguous {
        var j :| 0 <= j < |longs| && Abbreviates(longs[j], given, false) && !SameOption(longs[first.value], longs[j]);
        assert Differ(longs[first.value], longs[j], given);
      }
    } else {
      forall j | 0 <= j < exact.value ensures longs[j].name != given {
        assert !Abbreviates(longs[j], given, true);
      }
    }
  }

  // The name and the argument of a long element.
  function Given(body: string): string {
    match Position(body, '=')
    case None => body
    case Some(i) => body[..i]
  }

  function Argument(body: string): Option<string> {
    match Position(body, '=')
    case None => None
    case Some(i) => Some(body[i + 1..])
  }

  lemma BodySplits(body: string)
    ensures '=' !in Given(body) && body == Given(body) + Assigned(Argument(body))
  {
    match Position(body, '=')
    case None =>
    case Some(i) => assert body == body[..i] + ("=" + body[i + 1..]);
  }

  lemma LongBegins(o: Options, args: seq<string>) returns (item: Option<Item>, end: Ending)
    requires Fine(o) && args != [] && |args[0]| > 2 && args[0][..2] == "--" && o.longs.Some?
    ensures Begins(o, item, end, args)
  {
    var body := args[0][2..];
    BodySplits(body);
    NameMeans(o, Given(body));
    assert args[0] == "--" + body;
    item, end := NameBegins(o, Given(body), Argument(body), args);
  }

  lemma NameBegins(o: Options, given: string, argument: Option<string>, args: seq<string>) returns (item: Option<Item>, end: Ending)
    requires Fine(o) && IsGiven(o, given) && given + Assigned(argument) != ""
    requires args != [] && args[0] == "--" + (given + Assigned(argument))
    ensures Begins(o, item, end, args)
  {
    Front(args);
    NameMeans(o, given);
    match FindLong(Longs(Syntax(o)), given)
    case NoMatch => item, end := Some(LongUnknown(given, argument)), Finish;
    case Ambiguous => item, end := Some(LongAmbiguous(given, argument)), Finish;
    case Found(i) =>
      if argument.Some? {
        var written := AssignedBegins(o, i, given, argument.value, args);
        item, end := Some(written), Finish;
      } else {
        assert given + Assigned(argument) == given;
        item, end := PlainBegins(o, i, given, args);
      }
  }

  lemma AssignedBegins(o: Options, i: nat, given: string, text: string, args: seq<string>) returns (item: Item)
    requires Fine(o) && Names(o, i, given) && args != [] && args[0] == "--" + (given + Assigned(Some(text)))
    ensures Begins(o, Some(item), Finish, args)
  {
    Front(args);
    Equated(given, text);
    item := if HasArg(o, i) == 0 then LongRefused(i, given, text) else LongAttached(i, given, text);
  }

  lemma PlainBegins(o: Options, i: nat, given: string, args: seq<string>) returns (item: Option<Item>, end: Ending)
    requires Fine(o) && Names(o, i, given) && given != "" && args != [] && args[0] == "--" + given
    ensures Begins(o, item, end, args)
  {
    Front(args);
    item, end := None, Finish;
    if HasArg(o, i) != 1 {
      item := Some(LongPlain(i, given));
    } else if |args| > 1 {
      item := Some(LongSeparate(i, given, args[1]));
    } else {
      end := LongLacks(i, given);
    }
  }

  // For every option string and option table, every list of arguments is the written form of
  // something, so that reading back what was meant says of each how it is read.
  lemma EveryLine(g: Grammar, args: seq<string>) returns (o: Options, items: seq<Item>, end: Ending)
    ensures Fine(o) && Ends(o, end) && forall i :: 0 <= i < |items| ==> Meant(o, items[i])
    ensures Syntax(o) == g && Lines(o, items, end) == args && Parse(g, args) == Meaning(o, items, end)
  {
    o := EverySyntax(g);
    items, end := WrittenAs(o, args);
    LineRead(o, items, end);
  }

  lemma {:induction false} WrittenAs(o: Options, args: seq<string>) returns (items: seq<Item>, end: Ending)
    requires Fine(o)
    ensures Ends(o, end) && forall i :: 0 <= i < |items| ==> Meant(o, items[i])
    ensures Lines(o, items, end) == args
    decreases |args|
  {
    items, end := [], Finish;
    if args != [] {
      var item: Option<Item>;
      item, end := Beginning(o, args);
      if item.Some? {
        items, end := WrittenAs(o, args[|Line(o, item.value)|..]);
        Longer(o, item.value, items, end);
        items := [item.value] + items;
      }
    }
  }

  lemma Longer(o: Options, item: Item, items: seq<Item>, end: Ending)
    requires Ends(o, end) && Meant(o, item) && forall i :: 0 <= i < |items| ==> Meant(o, items[i])
    ensures forall i :: 0 <= i < |[item] + items| ==> Meant(o, ([item] + items)[i])
    ensures Lines(o, [item] + items, end) == Line(o, item) + Lines(o, items, end)
  {
    assert ([item] + items)[1..] == items;
  }

  lemma Beginning(o: Options, args: seq<string>) returns (item: Option<Item>, end: Ending)
    requires Fine(o) && args != []
    ensures Begins(o, item, end, args)
  {
    var a := args[0];
    item, end := None, Finish;
    if !IsOption(a) {
      item := Some(Operand(a));
      assert args[..1] == [a];
    } else if IsSeparator(a) {
      end := Separated(args[1..]);
      assert args == ["--"] + args[1..];
    } else if IsLong(Syntax(o), a) {
      assert |a| > 2 by { assert |a| == 2 ==> a == "--"; }
      item, end := LongBegins(o, args);
    } else {
      assert a[1..] == "-" ==> a == "--";
      item, end := ClusterBegins(o, args);
    }
  }

  // ---------------------------------------------------------------- a whole scan

  // Whatever is meant, a scan by the parser returns its values and leaves the arguments in order.
  method Scan(argv: array<string>, o: Options, ghost items: seq<Item>, ghost end: Ending) returns (values: seq<int>, optind: int)
    requires Fine(o) && Ends(o, end) && forall i :: 0 <= i < |items| ==> Meant(o, items[i])
    requires argv.Length > 0 && argv[1..] == Lines(o, items, end)
    modifies argv
    ensures var p := Meaning(o, items, end);
            argv[..] == [old(argv[0])] + p.options + p.others && optind == 1 + |p.options| && values == Values(p.events)
  {
    LineRead(o, items, end);
    assert argv[..][1..] == argv[1..];
    var parser := new Parser(argv, Syntax(o));
    var panicked;
    panicked, values := parser.ScanAll();
    optind := parser.optind;
  }
}
