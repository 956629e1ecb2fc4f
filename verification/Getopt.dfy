/** GNU argument parsing with permutation. `Parse` is the reference: it reads the original
    arguments once from left to right. The parser works call by call and rotates argv in place. */
module Getopt {
  import opened Wrappers

  /** A long option; `flag` names the variable to store `value` in, if any. */
  datatype LongOption = LongOption(name: string, hasArg: int, flag: Option<nat>, value: int)

  datatype Grammar = Grammar(shorts: string, longs: Option<seq<LongOption>>)

  /** What one call reports: its value, `optarg`, a new `optopt`, the long index, a flag store. */
  datatype Event = Event(value: int, argument: Option<string>, optopt: Option<int>, index: Option<nat>, stored: Option<(nat, int)>)

  function Plain(value: int): Event { Event(value, None, None, None, None) }
  function Error(value: int, optopt: int): Event { Event(value, None, Some(optopt), None, None) }

  predicate IsOption(a: string) { |a| > 1 && a[0] == '-' }
  predicate IsSeparator(a: string) { a == "--" }
  predicate IsLong(g: Grammar, a: string) requires IsOption(a) { g.longs.Some? && a[1] == '-' }

  // ---------------------------------------------------------------- one option

  datatype Requirement = Unknown | NoArgument | Required | Optional

  function Position(s: string, c: char): (r: Option<nat>)
    ensures r.Some? ==> r.value < |s| && s[r.value] == c && forall i :: 0 <= i < r.value ==> s[i] != c
    ensures r.None? ==> c !in s
  {
    if s == "" then None
    else if s[0] == c then Some(0)
    else match Position(s[1..], c)
      case None => None
      case Some(i) => Some(i + 1)
  }

  // A letter's entry in the option string: the letter, followed by one colon or two.
  function ShortRequirement(shorts: string, c: char): Requirement {
    match Position(shorts, c)
    case None => Unknown
    case Some(i) =>
      if c == ':' then Unknown
      else if i + 1 >= |shorts| || shorts[i + 1] != ':' then NoArgument
      else if i + 2 < |shorts| && shorts[i + 2] == ':' then Optional
      else Required
  }

  function MissingArgument(g: Grammar): int { if g.shorts != "" && g.shorts[0] == ':' then ':' as int else '?' as int }

  datatype ShortResult = ShortResult(event: Event, rest: string, usesNext: bool)

  // How many elements the letter finishes.
  function Passed(r: ShortResult): nat { if r.usesNext then 2 else if r.rest == "" then 1 else 0 }

  // The first letter of a cluster, with the argument after the cluster at hand.
  function Short(g: Grammar, cluster: string, next: Option<string>): ShortResult
    requires cluster != ""
  {
    var c, rest := cluster[0], cluster[1..];
    match ShortRequirement(g.shorts, c)
    case Unknown => ShortResult(Error('?' as int, c as int), rest, false)
    case NoArgument => ShortResult(Plain(c as int), rest, false)
    case _ =>
      if rest != "" then ShortResult(Plain(c as int).(argument := Some(rest)), "", false)
      else if ShortRequirement(g.shorts, c) == Optional then ShortResult(Plain(c as int), "", false)
      else match next
        case None => ShortResult(Error(MissingArgument(g), c as int), "", false)
        case Some(a) => ShortResult(Plain(c as int).(argument := Some(a)), "", true)
  }

  datatype Match = NoMatch | Ambiguous | Found(index: nat)

  function Longs(g: Grammar): seq<LongOption> { if g.longs.Some? then g.longs.value else [] }

  predicate Abbreviates(o: LongOption, prefix: string, exact: bool) {
    prefix <= o.name && (exact ==> |o.name| == |prefix|)
  }

  predicate SameOption(a: LongOption, b: LongOption) { a.hasArg == b.hasArg && a.flag == b.flag && a.value == b.value }

  function FirstFrom(longs: seq<LongOption>, prefix: string, exact: bool, i: nat): (r: Option<nat>)
    requires i <= |longs|
    ensures r.Some? ==> i <= r.value < |longs| && Abbreviates(longs[r.value], prefix, exact)
                        && forall j :: i <= j < r.value ==> !Abbreviates(longs[j], prefix, exact)
    ensures r.None? ==> forall j :: i <= j < |longs| ==> !Abbreviates(longs[j], prefix, exact)
    decreases |longs| - i
  {
    if i == |longs| then None
    else if Abbreviates(longs[i], prefix, exact) then Some(i)
    else FirstFrom(longs, prefix, exact, i + 1)
  }

  // An exact name wins; otherwise the first abbreviated name does, unless another abbreviated
  // name means something else.
  function FindLong(longs: seq<LongOption>, prefix: string): (m: Match)
    ensures m.Found? ==> m.index < |longs|
  {
    match FirstFrom(longs, prefix, true, 0)
    case Some(i) => Found(i)
    case None =>
      match FirstFrom(longs, prefix, false, 0)
      case None => NoMatch
      case Some(i) =>
        if forall j :: 0 <= j < |longs| && Abbreviates(longs[j], prefix, false) ==> SameOption(longs[i], longs[j]) then Found(i)
        else Ambiguous
  }

  function LongRequirement(hasArg: int): Requirement { if hasArg == 0 then NoArgument else if hasArg == 1 then Required else Optional }

  datatype LongResult = LongResult(event: Event, usesNext: bool)

  // A whole `--name` or `--name=argument` element, given without its dashes.
  function Long(g: Grammar, body: string, next: Option<string>): LongResult {
    var (prefix, argument) := match Position(body, '=')
      case None => (body, None)
      case Some(i) => (body[..i], Some(body[i + 1..]));
    match FindLong(Longs(g), prefix)
    case NoMatch => LongResult(Error('?' as int, 0), false)
    case Ambiguous => LongResult(Error('?' as int, 0), false)
    case Found(i) => LongFound(g, i, Longs(g)[i], argument, next)
  }

  function Accept(i: nat, o: LongOption, argument: Option<string>): Event {
    match o.flag
    case None => Event(o.value, argument, None, Some(i), None)
    case Some(f) => Event(0, argument, None, Some(i), Some((f, o.value)))
  }

  function LongFound(g: Grammar, i: nat, o: LongOption, argument: Option<string>, next: Option<string>): LongResult {
    match (argument, LongRequirement(o.hasArg))
    case (Some(_), NoArgument) => LongResult(Error('?' as int, o.value), false)
    case (Some(a), _) => LongResult(Accept(i, o, Some(a)), false)
    case (None, Required) =>
      (match next
       case Some(a) => LongResult(Accept(i, o, Some(a)), true)
       case None => LongResult(Error(MissingArgument(g), o.value), false))
    case (None, _) => LongResult(Accept(i, o, None), false)
  }

  // ---------------------------------------------------------------- the reference

  /** What the calls report, the option elements with their arguments, and the other elements. */
  datatype Parsed = Parsed(events: seq<Event>, options: seq<string>, others: seq<string>)

  function First(args: seq<string>): Option<string> { if args == [] then None else Some(args[0]) }

  // All letters of a cluster, and whether the last of them uses the argument after it.
  function Cluster(g: Grammar, cluster: string, next: Option<string>): (r: (seq<Event>, bool))
    ensures r.1 ==> next.Some?
    decreases |cluster|
  {
    if cluster == "" then ([], false)
    else
      var r := Short(g, cluster, next);
      if r.usesNext then ([r.event], true)
      else
        var more := Cluster(g, r.rest, next);
        ([r.event] + more.0, more.1)
  }

  function Before(events: seq<Event>, options: seq<string>, others: seq<string>, rest: Parsed): Parsed {
    Parsed(events + rest.events, options + rest.options, others + rest.others)
  }

  function Parse(g: Grammar, args: seq<string>): Parsed
    decreases |args|
  {
    if args == [] then Parsed([], [], [])
    else if !IsOption(args[0]) then Before([], [], [args[0]], Parse(g, args[1..]))
    else if IsSeparator(args[0]) then Parsed([], [args[0]], args[1..])
    else if IsLong(g, args[0]) then
      var r := Long(g, args[0][2..], First(args[1..]));
      var k := if r.usesNext && |args| > 1 then 2 else 1;
      Before([r.event], args[..k], [], Parse(g, args[k..]))
    else
      Clustered(g, args[0][1..], args)
  }

  // The rest of a cluster, the first element of `args`, and everything after it.
  function Clustered(g: Grammar, cluster: string, args: seq<string>): Parsed
    requires args != []
    decreases |args|, 0
  {
    var r := Cluster(g, cluster, First(args[1..]));
    var k := if r.1 then 2 else 1;
    Before(r.0, args[..k], [], Parse(g, args[k..]))
  }

  // What is left to parse when `cluster` is what remains of the first of `args`.
  function Remaining(g: Grammar, cluster: string, args: seq<string>): Parsed {
    if cluster == "" || args == [] then Parse(g, args) else Clustered(g, cluster, args)
  }

  // The elements that are marked (or those that are not), in order.
  function Select(args: seq<string>, marks: seq<bool>, which: bool): seq<string>
    requires |args| == |marks|
  {
    if args == [] then []
    else if marks[0] == which then [args[0]] + Select(args[1..], marks[1..], which)
    else Select(args[1..], marks[1..], which)
  }

  function Marks(n: nat, which: bool): (m: seq<bool>)
    ensures |m| == n && forall i :: 0 <= i < n ==> m[i] == which
  {
    seq(n, _ => which)
  }

  lemma {:induction false} SelectAll(args: seq<string>, which: bool)
    ensures Select(args, Marks(|args|, which), which) == args && Select(args, Marks(|args|, which), !which) == []
  {
    if args != [] {
      SelectAll(args[1..], which);
      assert Marks(|args|, which)[1..] == Marks(|args| - 1, which);
    }
  }

  lemma {:induction false} SelectFrom(a: seq<string>, b: seq<string>, ma: seq<bool>, mb: seq<bool>, which: bool)
    requires |a| == |ma| && |b| == |mb|
    ensures Select(a + b, ma + mb, which) == Select(a, ma, which) + Select(b, mb, which)
  {
    if a == [] {
      assert a + b == b && ma + mb == mb;
    } else {
      assert (a + b)[1..] == a[1..] + b && (ma + mb)[1..] == ma[1..] + mb;
      SelectFrom(a[1..], b, ma[1..], mb, which);
    }
  }

  // Each argument goes either to the options or to the others, and both keep its order: the
  // final arrangement is a permutation that never swaps two of a kind.
  lemma {:induction false} ParsePartitions(g: Grammar, args: seq<string>) returns (marks: seq<bool>)
    ensures |marks| == |args|
    ensures Select(args, marks, true) == Parse(g, args).options && Select(args, marks, false) == Parse(g, args).others
    decreases |args|
  {
    var p := Parse(g, args);
    if args == [] {
      marks := [];
    } else if IsOption(args[0]) && IsSeparator(args[0]) {
      marks := [true] + Marks(|args| - 1, false);
      SelectAll(args[1..], false);
    } else {
      var k, which := 1, IsOption(args[0]);
      if which && IsLong(g, args[0]) {
        k := if Long(g, args[0][2..], First(args[1..])).usesNext then 2 else 1;
      } else if which {
        k := if Cluster(g, args[0][1..], First(args[1..])).1 then 2 else 1;
      }
      var rest := ParsePartitions(g, args[k..]);
      marks := Marks(k, which) + rest;
      SelectAll(args[..k], which);
      assert args == args[..k] + args[k..];
      SelectFrom(args[..k], args[k..], Marks(k, which), rest, true);
      SelectFrom(args[..k], args[k..], Marks(k, which), rest, false);
      assert args[..1] == [args[0]];
    }
  }

  // ---------------------------------------------------------------- where elements stand

  // The permutation state over the current arguments `s`: options up to `first`, then the
  // non-options met so far, then options met since the last exchange, then what is unread.
  ghost predicate Placed(g: Grammar, orig: seq<string>, s: seq<string>, first: int, last: int, optind: int,
                         events: seq<Event>, rest: Parsed)
  {
    && 1 <= first <= last <= optind <= |s| && |s| == |orig| && s[0] == orig[0] && s[optind..] == orig[optind..]
    && Parse(g, orig[1..]) == Before(events, s[1..first] + s[last..optind], s[first..last], rest)
  }

  function Rotated(s: seq<string>, first: nat, last: nat, end: nat): seq<string>
    requires first <= last <= end <= |s|
  {
    s[..first] + s[last..end] + s[first..last] + s[end..]
  }

  lemma StartPlaced(g: Grammar, s: seq<string>)
    requires s != []
    ensures Placed(g, s, s, 1, 1, 1, [], Parse(g, s[1..]))
  {
    var p := Parse(g, s[1..]);
    assert s[1..1] == [] && [] + p.events == p.events && ([] + []) + p.options == p.options && [] + p.others == p.others;
  }

  // The exchange moves the options after the non-options in front of them, in order.
  lemma Exchanged(g: Grammar, orig: seq<string>, s: seq<string>, first: nat, last: nat, optind: nat, events: seq<Event>, rest: Parsed)
    requires Placed(g, orig, s, first, last, optind, events, rest)
    ensures Placed(g, orig, Rotated(s, first, last, optind), first + optind - last, optind, optind, events, rest)
  {
    var t, mid := Rotated(s, first, last, optind), first + optind - last;
    assert t[1..mid] == s[1..first] + s[last..optind];
    assert t[1..mid] + t[optind..optind] == t[1..mid];
    assert t[mid..optind] == s[first..last];
    assert t[optind..] == s[optind..];
  }

  // With no non-option accumulated, everything read so far is options.
  lemma Caught(g: Grammar, orig: seq<string>, s: seq<string>, first: nat, optind: nat, events: seq<Event>, rest: Parsed)
    requires Placed(g, orig, s, first, first, optind, events, rest)
    ensures Placed(g, orig, s, optind, optind, optind, events, rest)
  {
    assert s[1..optind] == s[1..first] + s[first..optind] && s[optind..optind] == [] && s[first..first] == [];
    assert s[1..optind] + [] == s[1..optind];
  }

  // The arguments and the start of the non-option block once options met are in front of it.
  function FrontLoaded(s: seq<string>, first: int, last: int, optind: int): (r: (seq<string>, int))
    requires 0 <= first <= last <= optind <= |s|
  {
    if last == optind then (s, first)
    else if first == last then (s, optind)
    else (Rotated(s, first, last, optind), first + optind - last)
  }

  lemma FrontLoadedPlaced(g: Grammar, orig: seq<string>, s: seq<string>, first: nat, last: nat, optind: nat, events: seq<Event>, rest: Parsed)
    requires Placed(g, orig, s, first, last, optind, events, rest)
    ensures var (t, block) := FrontLoaded(s, first, last, optind); Placed(g, orig, t, block, optind, optind, events, rest)
  {
    if first == last < optind {
      Caught(g, orig, s, first, optind, events, rest);
    } else if last < optind {
      Exchanged(g, orig, s, first, last, optind, events, rest);
    }
  }

  lemma PassNonOption(g: Grammar, orig: seq<string>, s: seq<string>, first: nat, scan: nat, events: seq<Event>)
    requires scan < |orig| && Placed(g, orig, s, first, scan, scan, events, Parse(g, orig[scan..])) && !IsOption(s[scan])
    ensures Placed(g, orig, s, first, scan + 1, scan + 1, events, Parse(g, orig[scan + 1..]))
  {
    assert orig[scan..][0] == s[scan] == s[scan..][0];
    assert orig[scan..][1..] == orig[scan + 1..];
    PassOther(g, orig, s, first, scan, events, Parse(g, orig[scan + 1..]));
  }

  lemma PassOther(g: Grammar, orig: seq<string>, s: seq<string>, first: nat, scan: nat, events: seq<Event>, rest: Parsed)
    requires scan < |orig| && Placed(g, orig, s, first, scan, scan, events, Before([], [], [orig[scan]], rest))
    ensures Placed(g, orig, s, first, scan + 1, scan + 1, events, rest)
  {
    assert orig[scan] == orig[scan..][0] == s[scan..][0];
    assert s[scan + 1..] == s[scan..][1..] && orig[scan + 1..] == orig[scan..][1..];
    assert s[first..scan + 1] == s[first..scan] + [s[scan]];
    assert s[first..scan] + ([s[scan]] + rest.others) == s[first..scan + 1] + rest.others;
    assert s[scan..scan] == s[scan + 1..scan + 1] == [];
    assert [] + rest.options == rest.options && [] + rest.events == rest.events;
  }

  // An option element, or an element and the argument it uses, has been read.
  lemma PassOption(g: Grammar, orig: seq<string>, s: seq<string>, first: nat, last: nat, optind: nat, k: nat,
                   events: seq<Event>, more: seq<Event>, rest: Parsed)
    requires optind + k <= |orig|
    requires Placed(g, orig, s, first, last, optind, events, Before(more, orig[optind..][..k], [], rest))
    ensures Placed(g, orig, s, first, last, optind + k, events + more, rest)
  {
    assert s[optind..optind + k] == s[optind..][..k];
    assert s[last..optind + k] == s[last..optind] + s[optind..optind + k];
    assert s[1..first] + s[last..optind] + (s[optind..optind + k] + rest.options)
        == s[1..first] + s[last..optind + k] + rest.options;
    assert events + (more + rest.events) == (events + more) + rest.events;
    assert s[optind + k..] == s[optind..][k..] && orig[optind + k..] == orig[optind..][k..];
    assert [] + rest.others == rest.others;
  }

  // Part of a cluster has been reported; the element is not finished.
  lemma PassLetter(g: Grammar, orig: seq<string>, s: seq<string>, first: nat, last: nat, optind: nat,
                   events: seq<Event>, cluster: string)
    requires cluster != "" && optind < |orig|
    requires var r := Short(g, cluster, First(orig[optind..][1..]));
             !r.usesNext && r.rest != "" && Placed(g, orig, s, first, last, optind, events, Clustered(g, cluster, orig[optind..]))
    ensures var r := Short(g, cluster, First(orig[optind..][1..]));
            Placed(g, orig, s, first, last, optind, events + [r.event], Clustered(g, r.rest, orig[optind..]))
  {
    var r, rest := Short(g, cluster, First(orig[optind..][1..])), Clustered(g, Short(g, cluster, First(orig[optind..][1..])).rest, orig[optind..]);
    OneLetter(g, cluster, orig[optind..]);
    assert events + ([r.event] + rest.events) == (events + [r.event]) + rest.events;
  }

  // The letter's event comes first; the rest of the cluster is read as before.
  lemma OneLetter(g: Grammar, cluster: string, args: seq<string>)
    requires cluster != "" && args != [] && var r := Short(g, cluster, First(args[1..])); !r.usesNext && r.rest != ""
    ensures var r := Short(g, cluster, First(args[1..]));
            var rest := Clustered(g, r.rest, args);
            Clustered(g, cluster, args) == Parsed([r.event] + rest.events, rest.options, rest.others)
  {
    var r := Short(g, cluster, First(args[1..]));
    var more := Cluster(g, r.rest, First(args[1..]));
    assert Cluster(g, cluster, First(args[1..])) == ([r.event] + more.0, more.1);
    var after := Parse(g, args[if more.1 then 2 else 1..]);
    assert ([r.event] + more.0) + after.events == [r.event] + (more.0 + after.events);
  }

  // The cluster ends with this letter.
  lemma LastLetter(g: Grammar, cluster: string, args: seq<string>)
    requires cluster != "" && args != [] && var r := Short(g, cluster, First(args[1..])); r.usesNext || r.rest == ""
    ensures var r := Short(g, cluster, First(args[1..]));
            var k := if r.usesNext then 2 else 1;
            k <= |args| && Clustered(g, cluster, args) == Before([r.event], args[..k], [], Parse(g, args[k..]))
  {
    var r := Short(g, cluster, First(args[1..]));
    assert Cluster(g, cluster, First(args[1..])) == ([r.event], r.usesNext) by {
      if !r.usesNext { assert Cluster(g, "", First(args[1..])) == ([], false) && [r.event] + [] == [r.event]; }
    }
  }

  // What follows once the cluster's last letter has been dealt with.
  lemma PassCluster(g: Grammar, orig: seq<string>, s: seq<string>, first: nat, last: nat, optind: nat,
                    events: seq<Event>, cluster: string)
    requires optind < |orig| && cluster != ""
    requires Placed(g, orig, s, first, last, optind, events, Clustered(g, cluster, orig[optind..]))
    requires var r := Short(g, cluster, First(orig[optind..][1..])); r.usesNext || r.rest == ""
    ensures var r := Short(g, cluster, First(orig[optind..][1..]));
            var k := if r.usesNext then 2 else 1;
            optind + k <= |orig|
            && Placed(g, orig, s, first, last, optind + k, events + [r.event], Parse(g, orig[optind + k..]))
  {
    var r := Short(g, cluster, First(orig[optind..][1..]));
    var k := if r.usesNext then 2 else 1;
    LastLetterAt(g, orig, optind, cluster);
    PassOption(g, orig, s, first, last, optind, k, events, [r.event], Parse(g, orig[optind + k..]));
  }

  // Where things stand after a letter, whether or not it ends its cluster.
  lemma AfterLetter(g: Grammar, orig: seq<string>, s: seq<string>, first: nat, last: nat, optind: nat,
                    events: seq<Event>, cluster: string)
    requires optind < |orig| && cluster != ""
    requires Placed(g, orig, s, first, last, optind, events, Clustered(g, cluster, orig[optind..]))
    ensures var r := Short(g, cluster, First(orig[optind..][1..]));
            var at := optind + Passed(r);
            at <= |orig| && Placed(g, orig, s, first, last, at, events + [r.event], Remaining(g, r.rest, orig[at..]))
    ensures |Short(g, cluster, First(orig[optind..][1..])).rest| < |cluster|
  {
    var r := Short(g, cluster, First(orig[optind..][1..]));
    if r.rest != "" && !r.usesNext {
      PassLetter(g, orig, s, first, last, optind, events, cluster);
    } else {
      PassCluster(g, orig, s, first, last, optind, events, cluster);
    }
  }

  lemma LastLetterAt(g: Grammar, orig: seq<string>, optind: nat, cluster: string)
    requires optind < |orig| && cluster != "" && var r := Short(g, cluster, First(orig[optind..][1..])); r.usesNext || r.rest == ""
    ensures var r := Short(g, cluster, First(orig[optind..][1..]));
            var k := if r.usesNext then 2 else 1;
            optind + k <= |orig|
            && Clustered(g, cluster, orig[optind..]) == Before([r.event], orig[optind..][..k], [], Parse(g, orig[optind + k..]))
  {
    var r := Short(g, cluster, First(orig[optind..][1..]));
    var k := if r.usesNext then 2 else 1;
    LastLetter(g, cluster, orig[optind..]);
    assert orig[optind..][k..] == orig[optind + k..];
  }

  // The element after the one at `i`.
  function After(s: seq<string>, i: nat): Option<string> {
    if i + 1 < |s| then Some(s[i + 1]) else None
  }

  // The element at hand and the one after it are the same in both.
  lemma SameNext(orig: seq<string>, s: seq<string>, optind: nat)
    requires optind < |orig| == |s| && s[optind..] == orig[optind..]
    ensures s[optind] == orig[optind..][0] && First(orig[optind..][1..]) == After(s, optind)
  {
    assert orig[optind..] == s[optind..];
    assert s[optind..][0] == s[optind];
  }

  lemma PassLong(g: Grammar, orig: seq<string>, s: seq<string>, first: nat, last: nat, optind: nat, events: seq<Event>)
    requires optind < |orig| && Placed(g, orig, s, first, last, optind, events, Parse(g, orig[optind..]))
    requires IsOption(s[optind]) && !IsSeparator(s[optind]) && IsLong(g, s[optind])
    ensures var r := Long(g, s[optind][2..], After(s, optind));
            var k := if r.usesNext then 2 else 1;
            optind + k <= |orig|
            && Placed(g, orig, s, first, last, optind + k, events + [r.event], Parse(g, orig[optind + k..]))
  {
    SameNext(orig, s, optind);
    var args := orig[optind..];
    var r := Long(g, s[optind][2..], After(s, optind));
    var k := if r.usesNext then 2 else 1;
    assert r.usesNext ==> |args| > 1;
    assert args[k..] == orig[optind + k..];
    PassOption(g, orig, s, first, last, optind, k, events, [r.event], Parse(g, orig[optind + k..]));
  }

  // Between calls of a scan: how the arguments stand, and the letters left of a cluster begun.
  ghost predicate Stands(g: Grammar, orig: seq<string>, s: seq<string>, first: int, last: int, optind: int,
                         letters: string, events: seq<Event>)
  {
    && orig != [] && 1 <= optind <= |orig|
    && Placed(g, orig, s, first, last, optind, events, Remaining(g, letters, orig[optind..]))
    && (letters != "" ==> optind < |orig| && IsOption(s[optind]) && !IsLong(g, s[optind]) && |letters| < |s[optind]| - 1)
  }

  // What a long option leads to.
  lemma LongAhead(g: Grammar, orig: seq<string>, s: seq<string>, first: nat, last: nat, optind: nat, events: seq<Event>)
    requires 1 <= optind < |orig| && Placed(g, orig, s, first, last, optind, events, Parse(g, orig[optind..]))
    requires IsOption(s[optind]) && !IsSeparator(s[optind]) && IsLong(g, s[optind])
    ensures var r := Long(g, s[optind][2..], After(s, optind));
            Stands(g, orig, s, first, last, optind + (if r.usesNext then 2 else 1), "", events + [r.event])
  {
    PassLong(g, orig, s, first, last, optind, events);
  }

  // What a letter of a cluster leads to.
  lemma LetterAhead(g: Grammar, orig: seq<string>, s: seq<string>, first: nat, last: nat, optind: nat, letters: string,
                    events: seq<Event>)
    requires 1 <= optind < |orig| && letters != ""
    requires Placed(g, orig, s, first, last, optind, events, Clustered(g, letters, orig[optind..]))
    requires IsOption(s[optind]) && !IsLong(g, s[optind]) && |letters| < |s[optind]|
    ensures var r := Short(g, letters, After(s, optind));
            Stands(g, orig, s, first, last, optind + Passed(r), r.rest, events + [r.event]) && |r.rest| < |letters|
  {
    SameNext(orig, s, optind);
    AfterLetter(g, orig, s, first, last, optind, events, letters);
  }

  // The whole scan is over: options in order, then the others in order.
  ghost predicate Finished(g: Grammar, orig: seq<string>, s: seq<string>, optind: int, events: seq<Event>)
    requires orig != []
  {
    var p := Parse(g, orig[1..]);
    s == [orig[0]] + p.options + p.others && optind == 1 + |p.options| && events == p.events
  }

  lemma FinishedAtEnd(g: Grammar, orig: seq<string>, s: seq<string>, first: nat, events: seq<Event>)
    requires orig != [] && Placed(g, orig, s, first, |s|, |s|, events, Parse(g, []))
    ensures Finished(g, orig, s, first, events)
  {
    var p := Parse(g, orig[1..]);
    assert p.options == s[1..first] && p.others == s[first..] && p.events == events by {
      assert s[|s|..|s|] == [] && s[1..first] + [] == s[1..first] && s[1..first] + [] + [] == s[1..first];
      assert s[first..|s|] + [] == s[first..] && events + [] == events;
    }
    assert s == [s[0]] + s[1..first] + s[first..];
  }

  lemma FinishedAtSeparator(g: Grammar, orig: seq<string>, s: seq<string>, first: nat, scan: nat, events: seq<Event>)
    requires orig != [] && scan < |orig| && Placed(g, orig, s, first, scan, scan, events, Parse(g, orig[scan..]))
    requires IsSeparator(s[scan])
    ensures Finished(g, orig, Rotated(s, first, scan, scan + 1), first + 1, events)
  {
    var p, t := Parse(g, orig[1..]), Rotated(s, first, scan, scan + 1);
    assert orig[scan..][0] == s[scan] == s[scan..][0];
    assert orig[scan..][1..] == s[scan..][1..] == s[scan + 1..];
    assert s[scan..scan] == [] && s[1..first] + [] == s[1..first] && events + [] == events;
    assert p.options == s[1..first] + [s[scan]] && p.others == s[first..scan] + s[scan + 1..] && p.events == events;
    assert s[scan..scan + 1] == [s[scan]] && s[..first] == [s[0]] + s[1..first];
    assert t == [s[0]] + (s[1..first] + [s[scan]]) + (s[first..scan] + s[scan + 1..]);
  }

  // ---------------------------------------------------------------- the parser

  datatype Outcome = Exhausted | Returned(value: int) | Panicked

  class Parser {
    const argv: array<string>
    const g: Grammar
    // The program-visible globals.
    var optind: int
    var optarg: Option<string>
    var optopt: int
    var longIndex: Option<nat>
    var flags: map<nat, int>
    // The permutation state. `nextChar` is the rest of the element being read.
    var nextChar: Option<string>
    var firstNonopt: int
    var lastNonopt: int
    var initialized: bool

    constructor (argv: array<string>, g: Grammar)
      ensures this.argv == argv && this.g == g && optind == 1 && !initialized && nextChar == None
    {
      this.argv, this.g := argv, g;
      optind, optarg, optopt, longIndex, flags := 1, None, '?' as int, None, map[];
      nextChar, firstNonopt, lastNonopt, initialized := None, 0, 0, false;
    }

    function Letters(): string
      reads this
    {
      if nextChar.Some? then nextChar.value else ""
    }

    // Between calls of a scan that started on `orig` and has reported `events` so far.
    ghost predicate Scanning(orig: seq<string>, events: seq<Event>)
      reads this, argv
    {
      initialized && Stands(g, orig, argv[..], firstNonopt, lastNonopt, optind, Letters(), events)
    }

    // An option element has been found and none of it reported.
    ghost predicate AtElement(orig: seq<string>, events: seq<Event>)
      reads this, argv
    {
      && orig != [] && initialized && 1 <= optind < |orig|
      && Placed(g, orig, argv[..], firstNonopt, lastNonopt, optind, events, Parse(g, orig[optind..]))
      && IsOption(argv[optind]) && !IsSeparator(argv[optind])
      && nextChar == Some(argv[optind][if IsLong(g, argv[optind]) then 2 else 1..])
    }

    // Letters left of the element being read, or all of an element not begun.
    ghost function LettersLeft(orig: seq<string>): nat
      requires 0 <= optind <= |orig|
      reads this
    {
      if Letters() != "" then |Letters()| else if optind < |orig| then |orig[optind]| else 0
    }

    method Initialize()
      modifies this`optind, this`nextChar, this`firstNonopt, this`lastNonopt, this`initialized
      ensures initialized
      ensures if old(optind) == 0 || !old(initialized) then
                nextChar == None && firstNonopt == lastNonopt == optind == if old(optind) == 0 then 1 else old(optind)
              else nextChar == old(nextChar) && firstNonopt == old(firstNonopt) && lastNonopt == old(lastNonopt) && optind == old(optind)
    {
      var optionIndex := optind;
      if optionIndex == 0 {
        optind := 1;
      }
      if optionIndex == 0 || !initialized {
        nextChar, firstNonopt, lastNonopt, initialized := None, optind, optind, true;
      }
    }

    // Rotates the non-option block past the option block after it.
    method Exchange(end: int)
      requires 0 <= firstNonopt <= lastNonopt <= end <= argv.Length
      modifies this`firstNonopt, this`lastNonopt, argv
      ensures argv[..] == Rotated(old(argv[..]), old(firstNonopt), old(lastNonopt), end)
      ensures firstNonopt == old(firstNonopt) + end - old(lastNonopt) && lastNonopt == end
    {
      var first, last := firstNonopt, lastNonopt;
      var block := argv[last..end] + argv[first..last];
      forall i | first <= i < end { argv[i] := block[i - first]; }
      firstNonopt, lastNonopt := first + end - last, end;
      assert argv[..] == old(argv[..])[..first] + block + old(argv[..])[end..];
      assert old(argv[..])[..first] + block == old(argv[..])[..first] + old(argv[..])[last..end] + old(argv[..])[first..last];
    }

    // The globals after a call say what the event says.
    twostate predicate Reports(e: Event, value: int)
      reads this
    {
      && value == e.value && optarg == e.argument
      && optopt == (if e.optopt.Some? then e.optopt.value else old(optopt))
      && longIndex == (if e.index.Some? then e.index else old(longIndex))
      && flags == (if e.stored.Some? then old(flags)[e.stored.value.0 := e.stored.value.1] else old(flags))
    }

    // What has been read, up to `scan`, is in order: options first, then non-options.
    ghost predicate InOrder(orig: seq<string>, events: seq<Event>, scan: int)
      reads this, argv
    {
      if argv.Length == 0 then scan == firstNonopt == 1
      else 1 <= scan <= |orig| && Placed(g, orig, argv[..], firstNonopt, scan, scan, events, Parse(g, orig[scan..]))
    }

    // Finds the next option element, rotating the accumulated non-options past the options.
    method Advance(ghost orig: seq<string>, ghost events: seq<Event>) returns (outcome: Outcome)
      requires (Scanning(orig, events) && Letters() == "" && argv.Length == |orig|)
               || (argv.Length == 0 && optind == firstNonopt == lastNonopt == 1)
      modifies this`optind, this`nextChar, this`firstNonopt, this`lastNonopt, argv
      ensures outcome.Panicked? <==> argv.Length == 0
      ensures outcome.Exhausted? ==> orig != [] && Finished(g, orig, argv[..], optind, events)
      ensures outcome.Returned? ==> AtElement(orig, events) && optind >= old(optind)
    {
      CatchUp(orig, events);
      var scan := SkipNonOptions(orig, events);
      optind, lastNonopt := scan, scan;
      if scan != argv.Length {
        if scan > argv.Length { return Panicked; }
        if IsSeparator(argv[scan]) {
          Separator(orig, events);
          return Exhausted;
        }
      }
      if optind == argv.Length {
        assert orig[scan..] == [];
        FinishedAtEnd(g, orig, argv[..], firstNonopt, events);
        if firstNonopt != lastNonopt {
          optind := firstNonopt;
        }
        return Exhausted;
      }
      var element := argv[optind];
      nextChar := Some(element[if IsLong(g, element) then 2 else 1..]);
      return Returned(0);
    }

    // Everything read so far is put in order: options first, then the non-options.
    method CatchUp(ghost orig: seq<string>, ghost events: seq<Event>)
      requires (Scanning(orig, events) && Letters() == "" && argv.Length == |orig|)
               || (argv.Length == 0 && optind == firstNonopt == lastNonopt == 1)
      modifies this`firstNonopt, this`lastNonopt, argv
      ensures InOrder(orig, events, optind)
    {
      if argv.Length > 0 {
        FrontLoadedPlaced(g, orig, argv[..], firstNonopt, lastNonopt, optind, events, Parse(g, orig[optind..]));
      }
      LoadFront();
    }

    method LoadFront()
      requires 0 <= firstNonopt <= lastNonopt <= optind
      requires optind <= argv.Length || firstNonopt == lastNonopt == optind
      modifies this`firstNonopt, this`lastNonopt, argv
      ensures if optind > argv.Length then argv[..] == old(argv[..]) && firstNonopt == old(firstNonopt)
              else (argv[..], firstNonopt) == FrontLoaded(old(argv[..]), old(firstNonopt), old(lastNonopt), optind)
    {
      lastNonopt := if lastNonopt < optind then lastNonopt else optind;
      firstNonopt := if firstNonopt < optind then firstNonopt else optind;
      if firstNonopt != lastNonopt && lastNonopt != optind {
        Exchange(optind);
      } else if lastNonopt != optind {
        firstNonopt := optind;
      }
    }

    method SkipNonOptions(ghost orig: seq<string>, ghost events: seq<Event>) returns (scan: int)
      requires InOrder(orig, events, optind)
      ensures optind <= scan && InOrder(orig, events, scan)
      ensures 0 <= scan < argv.Length ==> IsOption(argv[scan])
    {
      scan := optind;
      while scan < argv.Length && !IsOption(argv[scan])
        invariant optind <= scan && InOrder(orig, events, scan)
      {
        PassNonOption(g, orig, argv[..], firstNonopt, scan, events);
        scan := scan + 1;
      }
    }

    // At `--`: it joins the options, and all that follows joins the non-options.
    method Separator(ghost orig: seq<string>, ghost events: seq<Event>)
      requires InOrder(orig, events, optind) && 1 <= optind == lastNonopt < argv.Length && IsSeparator(argv[optind])
      modifies this`optind, this`firstNonopt, this`lastNonopt, argv
      ensures Finished(g, orig, argv[..], optind, events)
    {
      FinishedAtSeparator(g, orig, argv[..], firstNonopt, optind, events);
      PassSeparator();
    }

    method PassSeparator()
      requires 0 <= firstNonopt <= optind == lastNonopt < argv.Length
      modifies this`optind, this`firstNonopt, this`lastNonopt, argv
      ensures argv[..] == Rotated(old(argv[..]), old(firstNonopt), old(optind), old(optind) + 1)
      ensures optind == old(firstNonopt) + 1
    {
      var after := optind + 1;
      optind := after;
      if firstNonopt != lastNonopt && lastNonopt != after {
        Exchange(after);
      } else if firstNonopt == lastNonopt {
        assert Rotated(argv[..], firstNonopt, firstNonopt, after) == argv[..];
        firstNonopt := after;
      }
      lastNonopt, optind := argv.Length, argv.Length;
      if firstNonopt != lastNonopt {
        optind := firstNonopt;
      }
    }

    // A cluster of short options is being read, with letters to go.
    ghost predicate InCluster(orig: seq<string>, events: seq<Event>)
      reads this, argv
    {
      && orig != [] && argv.Length == |orig| && initialized && 1 <= optind < |orig|
      && Letters() != "" && IsOption(argv[optind]) && !IsLong(g, argv[optind]) && |Letters()| < |argv[optind]|
      && Placed(g, orig, argv[..], firstNonopt, lastNonopt, optind, events, Clustered(g, Letters(), orig[optind..]))
    }

    // The parser's variables stand where they were foreseen to.
    lemma Resume(orig: seq<string>, events: seq<Event>, s: seq<string>, at: int, letters: string)
      requires initialized && s == argv[..] && optind == at && Letters() == letters
      requires Stands(g, orig, s, firstNonopt, lastNonopt, at, letters, events)
      ensures Scanning(orig, events)
    {}

    method ShortOption(ghost orig: seq<string>, ghost events: seq<Event>, ghost s: seq<string>, ghost r: ShortResult,
                       ghost at: int)
      returns (value: int)
      requires Letters() != "" && 0 <= optind < argv.Length && optarg == None && initialized && s == argv[..]
      requires r == Short(g, Letters(), After(s, optind)) && at == optind + Passed(r)
      requires Stands(g, orig, s, firstNonopt, lastNonopt, at, r.rest, events)
      modifies this`optind, this`optarg, this`optopt, this`nextChar
      ensures Reports(r.event, value) && Scanning(orig, events)
      ensures optind == at && Letters() == r.rest
    {
      value := TakeLetter(r);
      assert argv[..] == s;
      Resume(orig, events, s, at, r.rest);
    }

    // One letter of the cluster and its argument, on the parser's variables alone.
    method TakeLetter(ghost r: ShortResult) returns (value: int)
      requires Letters() != "" && 0 <= optind < argv.Length && optarg == None
      requires r == Short(g, Letters(), After(argv[..], optind))
      modifies this`optind, this`optarg, this`optopt, this`nextChar
      ensures Reports(r.event, value) && Letters() == r.rest && optind == old(optind) + Passed(r)
    {
      var c := nextChar.value[0];
      nextChar := Some(nextChar.value[1..]);
      if nextChar.value == "" { optind := optind + 1; }
      var requirement := ShortRequirement(g.shorts, c);
      if requirement == Unknown {
        optopt := c as int;
        return '?' as int;
      }
      if requirement != NoArgument {
        if nextChar.value != "" {
          optarg := nextChar;
          optind := optind + 1;
        } else if requirement == Required {
          if optind == argv.Length {
            optopt := c as int;
            return MissingArgument(g);
          }
          optarg := Some(argv[optind]);
          optind := optind + 1;
        }
        nextChar := None;
      }
      return c as int;
    }

    method LongOption(ghost orig: seq<string>, ghost events: seq<Event>, ghost s: seq<string>, ghost body: string,
                      ghost r: LongResult, ghost at: int)
      returns (value: int)
      requires nextChar == Some(body) && 0 <= optind < argv.Length && optarg == None && initialized && s == argv[..]
      requires r == Long(g, body, After(s, optind)) && at == optind + (if r.usesNext then 2 else 1)
      requires Stands(g, orig, s, firstNonopt, lastNonopt, at, "", events)
      modifies this`optind, this`optarg, this`optopt, this`longIndex, this`flags, this`nextChar
      ensures Reports(r.event, value) && Scanning(orig, events)
      ensures optind == at
    {
      value := TakeLong(body, r);
      assert argv[..] == s;
      Resume(orig, events, s, at, "");
    }

    // The whole element and its argument, on the parser's variables alone.
    method TakeLong(ghost body: string, ghost r: LongResult) returns (value: int)
      requires nextChar == Some(body) && 0 <= optind < argv.Length && optarg == None
      requires r == Long(g, body, After(argv[..], optind))
      modifies this`optind, this`optarg, this`optopt, this`longIndex, this`flags, this`nextChar
      ensures Reports(r.event, value) && Letters() == "" && optind == old(optind) + (if r.usesNext then 2 else 1)
    {
      var remainder := nextChar.value;
      var prefix, argument := remainder, None;
      var equals := Position(remainder, '=');
      if equals.Some? {
        prefix, argument := remainder[..equals.value], Some(remainder[equals.value + 1..]);
      }
      var found := Match(prefix);
      nextChar := Some("");
      optind := optind + 1;
      if found == Ambiguous || found == NoMatch {
        if found == NoMatch { nextChar := None; }
        optopt := 0;
        return '?' as int;
      }
      var option := Longs(g)[found.index];
      var requirement := LongRequirement(option.hasArg);
      if argument.Some? && requirement == NoArgument {
        optopt := option.value;
        return '?' as int;
      } else if argument.Some? {
        optarg := argument;
      } else if requirement == Required && optind < argv.Length {
        optarg := Some(argv[optind]);
        optind := optind + 1;
      } else if requirement == Required {
        optopt := option.value;
        return MissingArgument(g);
      }
      longIndex := Some(found.index);
      if option.flag.Some? {
        flags := flags[option.flag.value := option.value];
        return 0;
      }
      return option.value;
    }

    // The scan over the table with its `found`, `exact` and `ambiguous` marks.
    method Match(prefix: string) returns (m: Match)
      ensures m == FindLong(Longs(g), prefix)
    {
      var longs := Longs(g);
      var found: Option<nat>, exact, ambiguous := None, false, false;
      var i := 0;
      while i < |longs| && !exact
        invariant i <= |longs|
        invariant exact ==> 0 < i && found == Some(i - 1) && Abbreviates(longs[i - 1], prefix, true)
        invariant forall j :: 0 <= j < i && (exact ==> j < i - 1) ==> !Abbreviates(longs[j], prefix, true)
        invariant found.Some? ==> found.value < i && Abbreviates(longs[found.value], prefix, false)
        invariant !exact ==> forall j :: 0 <= j < (if found.Some? then found.value else i) ==> !Abbreviates(longs[j], prefix, false)
        invariant !exact ==> (ambiguous <==> found.Some? && exists j :: 0 <= j < i && Abbreviates(longs[j], prefix, false) && !SameOption(longs[found.value], longs[j]))
      {
        if Abbreviates(longs[i], prefix, false) {
          if |longs[i].name| == |prefix| {
            found, exact := Some(i), true;
          } else if found.None? {
            found := Some(i);
          } else if !SameOption(longs[found.value], longs[i]) {
            ambiguous := true;
          }
        }
        i := i + 1;
      }
      var first := FirstFrom(longs, prefix, true, 0);
      if ambiguous && !exact { return Ambiguous; }
      return if found.Some? then Found(found.value) else NoMatch;
    }

    // A scan may begin: before the first call, or after the program set optind to zero.
    predicate AtStart()
      reads this
    {
      optind == 0 || (optind == 1 && !initialized)
    }

    // One call. It reports the next event of the reference, or that there is none, and then the
    // arguments stand in their final order. It panics exactly when there is no argument at all.
    method Next(ghost orig: seq<string>, ghost events: seq<Event>) returns (outcome: Outcome, ghost event: Event)
      requires (AtStart() && orig == argv[..] && events == []) || (Scanning(orig, events) && argv.Length == |orig|)
      modifies this, argv
      ensures outcome.Panicked? <==> argv.Length == 0
      ensures outcome.Exhausted? ==> orig != [] && Finished(g, orig, argv[..], optind, events)
      ensures outcome.Returned? ==> Scanning(orig, events + [event]) && Reports(event, outcome.value)
      ensures outcome.Returned? && !old(AtStart()) ==>
                optind > old(optind) || (optind == old(optind) && LettersLeft(orig) < old(LettersLeft(orig)))
    {
      event := Plain(0);
      outcome := Prepare(orig, events);
      if !outcome.Returned? { return; }
      var value;
      value, event := ReadOption(orig, events);
      outcome := Returned(value);
    }

    // Everything a call does before it reads an option: start or resume, and find an element.
    method Prepare(ghost orig: seq<string>, ghost events: seq<Event>) returns (outcome: Outcome)
      requires (AtStart() && orig == argv[..] && events == []) || (Scanning(orig, events) && argv.Length == |orig|)
      modifies this`optarg, this`optind, this`nextChar, this`firstNonopt, this`lastNonopt, this`initialized, argv
      ensures outcome.Panicked? <==> argv.Length == 0
      ensures outcome.Exhausted? ==> orig != [] && Finished(g, orig, argv[..], optind, events)
      ensures outcome.Returned? ==> optarg == None && optind >= old(optind) && InElement(orig, events)
      ensures outcome.Returned? && !old(AtStart()) && optind == old(optind) ==>
                Letters() == old(Letters()) || (old(Letters()) == "" && |Letters()| < |orig[optind]|)
    {
      optarg := None;
      if AtStart() {
        if orig != [] { StartPlaced(g, orig); }
        Initialize();
      } else {
        Initialize();
      }
      if Letters() != "" { return Returned(0); }
      outcome := Advance(orig, events);
      if outcome.Returned? { Entered(orig, events); }
    }

    ghost predicate InElement(orig: seq<string>, events: seq<Event>)
      reads this, argv
    {
      argv.Length == |orig| && (InCluster(orig, events) || (AtElement(orig, events) && IsLong(g, argv[optind])))
    }

    method ReadOption(ghost orig: seq<string>, ghost events: seq<Event>) returns (value: int, ghost event: Event)
      requires InElement(orig, events) && optarg == None
      modifies this`optind, this`optarg, this`optopt, this`longIndex, this`flags, this`nextChar
      ensures Scanning(orig, events + [event]) && Reports(event, value)
      ensures optind > old(optind) || (optind == old(optind) && Letters() != "" && |Letters()| < |old(Letters())|)
    {
      if IsLong(g, argv[optind]) {
        value, event := ReadLong(orig, events);
      } else {
        value, event := ReadShort(orig, events);
      }
    }

    method ReadLong(ghost orig: seq<string>, ghost events: seq<Event>) returns (value: int, ghost event: Event)
      requires AtElement(orig, events) && argv.Length == |orig| && IsLong(g, argv[optind]) && optarg == None
      modifies this`optind, this`optarg, this`optopt, this`longIndex, this`flags, this`nextChar
      ensures Reports(event, value) && Scanning(orig, events + [event]) && optind > old(optind)
    {
      ghost var s, body := argv[..], Letters();
      ghost var r := Long(g, body, After(s, optind));
      LongAhead(g, orig, s, firstNonopt, lastNonopt, optind, events);
      event := r.event;
      value := LongOption(orig, events + [event], s, body, r, optind + (if r.usesNext then 2 else 1));
    }

    method ReadShort(ghost orig: seq<string>, ghost events: seq<Event>) returns (value: int, ghost event: Event)
      requires InCluster(orig, events) && optarg == None
      modifies this`optind, this`optarg, this`optopt, this`nextChar
      ensures Reports(event, value) && Scanning(orig, events + [event])
      ensures optind > old(optind) || (optind == old(optind) && Letters() != "" && |Letters()| < |old(Letters())|)
    {
      ghost var s, letters := argv[..], Letters();
      ghost var r := Short(g, letters, After(s, optind));
      LetterAhead(g, orig, s, firstNonopt, lastNonopt, optind, letters, events);
      event := r.event;
      value := ShortOption(orig, events + [event], s, r, optind + Passed(r));
    }

    // An element just found is a cluster with all its letters to go, unless it is a long option.
    lemma Entered(orig: seq<string>, events: seq<Event>)
      requires AtElement(orig, events) && argv.Length == |orig|
      ensures InCluster(orig, events) || IsLong(g, argv[optind])
      ensures |Letters()| < |orig[optind]|
    {
      assert orig[optind..][0] == argv[..][optind..][0];
    }

    // The caller's loop: calls until there are no more options. The calls report what the
    // reference reports, and the arguments end up as its options followed by its other elements.
    method ScanAll() returns (panicked: bool, values: seq<int>)
      requires AtStart()
      modifies this, argv
      ensures panicked <==> argv.Length == 0
      ensures !panicked ==>
        var p := Parse(g, old(argv[..])[1..]);
        && argv[..] == [old(argv[..])[0]] + p.options + p.others
        && optind == 1 + |p.options|
        && values == Values(p.events)
    {
      ghost var orig, events := argv[..], [];
      values := [];
      var outcome;
      ghost var event;
      outcome, event := Next(orig, events);
      while outcome.Returned?
        invariant Underway(orig, events, outcome, event) && values == Values(events)
        decreases outcome.Returned?, ElementsLeft(orig), if 0 <= optind <= |orig| then LettersLeft(orig) else 0
      {
        ValuesGrow(events, event);
        values := values + [outcome.value];
        events := events + [event];
        outcome, event := Next(orig, events);
      }
      panicked := outcome.Panicked?;
    }

    // After a call of a scan on `orig` that had reported `events` before it.
    ghost predicate Underway(orig: seq<string>, events: seq<Event>, outcome: Outcome, event: Event)
      reads this, argv
    {
      match outcome
      case Panicked => argv.Length == 0
      case Exhausted => argv.Length > 0 && orig != [] && Finished(g, orig, argv[..], optind, events)
      case Returned(value) => argv.Length > 0 && Scanning(orig, events + [event]) && event.value == value && !AtStart()
    }

    ghost function ElementsLeft(orig: seq<string>): nat
      reads this
    {
      if 0 <= optind <= |orig| then |orig| - optind else 0
    }
  }

  function Values(events: seq<Event>): seq<int> {
    if events == [] then [] else Values(events[..|events| - 1]) + [events[|events| - 1].value]
  }

  lemma ValuesGrow(events: seq<Event>, event: Event)
    ensures Values(events + [event]) == Values(events) + [event.value]
  {
    assert (events + [event])[..|events|] == events;
  }
}
