/** The argument scanner that stands in for `getopt_long`: it moves positional arguments to the
    end of argv as it meets them. */
module CommandLine {

  datatype LongOption = LongOption(name: string, requiresArgument: bool, val: int)

  datatype Syntax = Syntax(shortopts: string, longopts: seq<LongOption>)

  /** What one call reports: the end, a complaint, or an option with its argument if it has one. */
  datatype Report = End | Complaint | Found(val: int, argument: Argument)

  datatype Argument = NoArgument | Argument(text: string)

  // ---- Reading one argument ----

  predicate IsPositional(a: string) {
    a == "" || a[0] != '-' || |a| == 1
  }

  /** The first occurrence of c in s, or |s|. */
  function IndexOf(s: string, c: char): (i: nat)
    ensures i <= |s| && (i < |s| ==> s[i] == c) && c !in s[..i]
  {
    if s == "" || s[0] == c then 0
    else
      var j := IndexOf(s[1..], c);
      assert s[..1 + j] == [s[0]] + s[1..][..j];
      1 + j
  }

  predicate KnownShort(y: Syntax, c: char) {
    IndexOf(y.shortopts, c) < |y.shortopts|
  }

  predicate ShortRequires(y: Syntax, c: char) {
    var i := IndexOf(y.shortopts, c);
    i + 1 < |y.shortopts| && y.shortopts[i + 1] == ':'
  }

  /** The position of the long option with this name, or the number of options. */
  function FindLong(longopts: seq<LongOption>, name: string): (i: nat)
    ensures i <= |longopts| && (i < |longopts| ==> longopts[i].name == name)
    ensures forall j | 0 <= j < i :: longopts[j].name != name
  {
    if longopts == [] || longopts[0].name == name then 0 else 1 + FindLong(longopts[1..], name)
  }

  /** The name part of `--name=value`, without the dashes. */
  function LongName(a: string): string
    requires |a| >= 2
  {
    a[2..][..IndexOf(a[2..], '=')]
  }

  predicate HasValue(a: string)
    requires |a| >= 2
  {
    '=' in a[2..]
  }

  function ValueOf(a: string): string
    requires |a| >= 2 && HasValue(a)
  {
    a[2 + IndexOf(a[2..], '=') + 1..]
  }

  // ---- The scanner on lists ----

  /** argv as three lists: what is behind optind, what is still to be read, and the positional
      arguments moved to the end. `cluster` is the unread part of a group of short options,
      which starts `rest`. */
  datatype Scan = Scan(done: seq<string>, rest: seq<string>, moved: seq<string>, cluster: string)

  function Words(s: Scan): seq<string> {
    s.done + s.rest + s.moved
  }

  function Advance(s: Scan, n: nat): Scan
    requires n <= |s.rest|
  {
    Scan(s.done + s.rest[..n], s.rest[n..], s.moved, "")
  }

  /** An option whose argument is the word after it. At the end of `rest` that word is the first
      of the moved ones. */
  function TakeNext(s: Scan, val: int): (Scan, Report)
    requires s.rest != []
  {
    if |s.rest| > 1 then
      (Advance(s, 2), Found(val, Argument(s.rest[1])))
    else if s.moved != [] then
      (Scan(s.done + s.rest + [s.moved[0]], [], s.moved[1..], ""), Found(val, Argument(s.moved[0])))
    else
      (Advance(s, 1), Complaint)
  }

  function ReadLong(y: Syntax, s: Scan): (Scan, Report)
    requires s.rest != [] && |s.rest[0]| >= 2
  {
    var a := s.rest[0];
    var i := FindLong(y.longopts, LongName(a));
    if i == |y.longopts| then (Advance(s, 1), Complaint)
    else if y.longopts[i].requiresArgument then
      if HasValue(a) then (Advance(s, 1), Found(y.longopts[i].val, Argument(ValueOf(a))))
      else TakeNext(s, y.longopts[i].val)
    else if HasValue(a) then (Advance(s, 1), Complaint)
    else (Advance(s, 1), Found(y.longopts[i].val, NoArgument))
  }

  /** The next option of a cluster that starts with c and goes on with `more`. */
  function ReadShort(y: Syntax, s: Scan, c: char, more: string): (Scan, Report)
    requires s.rest != []
  {
    var after := if more == "" then Advance(s, 1) else s.(cluster := more);
    if !KnownShort(y, c) then (after, Complaint)
    else if ShortRequires(y, c) then
      if more != "" then (Advance(s, 1), Found(c as int, Argument(more))) else TakeNext(s, c as int)
    else (after, Found(c as int, NoArgument))
  }

  /** Positional arguments at the front go to the end, in order. */
  function SkipPositionals(s: Scan): (r: Scan)
    ensures r.done == s.done && r.cluster == s.cluster
    ensures r.rest == [] || !IsPositional(r.rest[0])
    decreases |s.rest|
  {
    if s.rest == [] || !IsPositional(s.rest[0]) then s
    else SkipPositionals(s.(rest := s.rest[1..], moved := s.moved + [s.rest[0]]))
  }

  /** One call. The count of moved words restarts while optind is still at its first value. */
  function Next(y: Syntax, s: Scan): (Scan, Report)
    requires s.cluster != "" ==> s.rest != []
  {
    if s.cluster != "" then ReadShort(y, s, s.cluster[0], s.cluster[1..])
    else
      var start := if |s.done| <= 1 then s.(rest := s.rest + s.moved, moved := []) else s;
      var front := SkipPositionals(start);
      if front.rest == [] then (front, End)
      else
        var a := front.rest[0];
        if a == "--" then (Advance(front, 1), End)
        else if a[1] == '-' then ReadLong(y, front)
        else ReadShort(y, front, a[1], a[2..])
  }

  // ---- What a call keeps ----

  /** t has the words of s, in some order, with what was done still in front. */
  predicate Permutes(s: Scan, t: Scan) {
    multiset(Words(s)) == multiset(Words(t)) && s.done <= t.done
  }

  /** t reads on in the same words. */
  predicate Continues(s: Scan, t: Scan) {
    Words(s) == Words(t) && s.done <= t.done
  }

  lemma AdvanceContinues(s: Scan, n: nat)
    requires n <= |s.rest|
    ensures Continues(s, Advance(s, n))
  {
    assert s.rest == s.rest[..n] + s.rest[n..];
  }

  lemma TakeNextContinues(s: Scan, val: int)
    requires s.rest != []
    ensures Continues(s, TakeNext(s, val).0)
  {
    if |s.rest| > 1 {
      AdvanceContinues(s, 2);
    } else if s.moved != [] {
      assert s.moved == [s.moved[0]] + s.moved[1..];
      assert Words(TakeNext(s, val).0) == Words(s);
    } else {
      AdvanceContinues(s, 1);
    }
  }

  lemma {:induction false} SkipPermutes(s: Scan)
    ensures multiset(Words(SkipPositionals(s))) == multiset(Words(s))
    decreases |s.rest|
  {
    if s.rest == [] || !IsPositional(s.rest[0]) {
    } else {
      var t := s.(rest := s.rest[1..], moved := s.moved + [s.rest[0]]);
      assert Words(s) == s.done + ([s.rest[0]] + (s.rest[1..] + s.moved));
      assert Words(t) == s.done + ((s.rest[1..] + s.moved) + [s.rest[0]]);
      SkipPermutes(t);
    }
  }

  lemma ReadLongContinues(y: Syntax, s: Scan)
    requires s.rest != [] && |s.rest[0]| >= 2
    ensures Continues(s, ReadLong(y, s).0)
  {
    AdvanceContinues(s, 1);
    var i := FindLong(y.longopts, LongName(s.rest[0]));
    if i < |y.longopts| {
      TakeNextContinues(s, y.longopts[i].val);
    }
  }

  lemma ReadShortContinues(y: Syntax, s: Scan, c: char, more: string)
    requires s.rest != []
    ensures Continues(s, ReadShort(y, s, c, more).0)
  {
    AdvanceContinues(s, 1);
    TakeNextContinues(s, c as int);
  }

  /** Every call permutes argv and leaves the words before optind alone. */
  lemma NextPermutes(y: Syntax, s: Scan)
    requires s.cluster != "" ==> s.rest != []
    ensures Permutes(s, Next(y, s).0)
  {
    if s.cluster != "" {
      ReadShortContinues(y, s, s.cluster[0], s.cluster[1..]);
    } else {
      var start := if |s.done| <= 1 then s.(rest := s.rest + s.moved, moved := []) else s;
      assert Words(start) == Words(s);
      var front := SkipPositionals(start);
      SkipPermutes(start);
      if front.rest != [] {
        var a := front.rest[0];
        if a == "--" {
          AdvanceContinues(front, 1);
        } else if a[1] == '-' {
          ReadLongContinues(y, front);
        } else {
          ReadShortContinues(y, front, a[1], a[2..]);
        }
      }
    }
  }

  // ---- A whole run of calls ----

  /** No call so far, or the scan has left the first word. */
  predicate Settled(s: Scan) {
    && (s.cluster != "" ==> s.rest != [])
    && (s.moved == [] || |s.done| >= 2 || s.cluster != "")
    && s.done != []
  }

  function Flag(b: bool): nat {
    if b then 1 else 0
  }

  lemma {:induction false} SkipShortens(s: Scan)
    ensures |SkipPositionals(s).rest| <= |s.rest|
    decreases |s.rest|
  {
    if s.rest == [] || !IsPositional(s.rest[0]) {
    } else {
      SkipShortens(s.(rest := s.rest[1..], moved := s.moved + [s.rest[0]]));
    }
  }

  /** Fewer words to read, or as many and less of a cluster. */
  predicate Shorter(t: Scan, s: Scan) {
    |t.rest| < |s.rest| ||
    (|t.rest| == |s.rest| && t.cluster != "" && (s.cluster == "" || |t.cluster| < |s.cluster|))
  }

  lemma ReadShortProgresses(y: Syntax, s: Scan, c: char, more: string)
    requires s.rest != [] && s.done != []
    requires s.cluster == "" || |more| < |s.cluster|
    ensures var t := ReadShort(y, s, c, more).0; Settled(t) && Shorter(t, s)
  {
  }

  lemma ReadLongProgresses(y: Syntax, s: Scan)
    requires s.rest != [] && |s.rest[0]| >= 2 && s.done != []
    ensures var t := ReadLong(y, s).0; Settled(t) && Shorter(t, s)
  {
  }

  /** A call that reports anything but the end makes progress. */
  lemma NextProgresses(y: Syntax, s: Scan)
    requires Settled(s) && Next(y, s).1 != End
    ensures Settled(Next(y, s).0) && Shorter(Next(y, s).0, s)
  {
    if s.cluster != "" {
      ReadShortProgresses(y, s, s.cluster[0], s.cluster[1..]);
    } else {
      var start := if |s.done| <= 1 then s.(rest := s.rest + s.moved, moved := []) else s;
      assert start.rest == s.rest;
      SkipShortens(start);
      var front := SkipPositionals(start);
      var a := front.rest[0];
      if a[1] == '-' {
        ReadLongProgresses(y, front);
      } else {
        ReadShortProgresses(y, front, a[1], a[2..]);
      }
    }
  }

  /** Calls until one reports the end: the final scan and everything reported before. */
  function Run(y: Syntax, s: Scan): (Scan, seq<Report>)
    requires Settled(s)
    decreases |s.rest|, Flag(s.cluster == ""), |s.cluster|
  {
    var (t, report) := Next(y, s);
    if report == End then (t, [])
    else
      NextProgresses(y, s);
      var (u, reports) := Run(y, t);
      (u, [report] + reports)
  }

  lemma {:induction false} RunPermutes(y: Syntax, s: Scan)
    requires Settled(s)
    ensures Permutes(s, Run(y, s).0)
    decreases |s.rest|, Flag(s.cluster == ""), |s.cluster|
  {
    NextPermutes(y, s);
    if Next(y, s).1 == End {
    } else {
      NextProgresses(y, s);
      RunPermutes(y, Next(y, s).0);
    }
  }

  // ---- What is left when the run ends ----

  /** Whether a cluster ends in an option that wants the next word. */
  predicate WantsNext(y: Syntax, cluster: string) {
    cluster != "" &&
    (if KnownShort(y, cluster[0]) && ShortRequires(y, cluster[0]) then |cluster| == 1 else WantsNext(y, cluster[1..]))
  }

  predicate OptionWantsNext(y: Syntax, a: string)
    requires !IsPositional(a)
  {
    if a[1] == '-' then
      var i := FindLong(y.longopts, LongName(a));
      i < |y.longopts| && y.longopts[i].requiresArgument && !HasValue(a)
    else WantsNext(y, a[1..])
  }

  /** How the words after argv[0] end: all are read, or the rest follows a `--`, or the last one
      is an option that lacks its argument. */
  datatype Ending = Complete | Dashes(tail: seq<string>) | Lacking

  /** The positional words before the ending, in order, and the ending. */
  function Split(y: Syntax, words: seq<string>): (seq<string>, Ending)
    decreases |words|
  {
    if words == [] then ([], Complete)
    else if IsPositional(words[0]) then
      var (p, e) := Split(y, words[1..]);
      ([words[0]] + p, e)
    else if words[0] == "--" then ([], Dashes(words[1..]))
    else AfterOption(y, OptionWantsNext(y, words[0]), words)
  }

  function AfterOption(y: Syntax, wants: bool, words: seq<string>): (seq<string>, Ending)
    requires words != []
    decreases |words|, 0
  {
    if !wants then Split(y, words[1..]) else if |words| == 1 then ([], Lacking) else Split(y, words[2..])
  }

  /** What stays after optind, given the positional words in order. */
  function Left(positionals: seq<string>, ending: Ending): seq<string> {
    match ending
    case Complete => positionals
    case Dashes(tail) => tail + positionals
    case Lacking => if positionals == [] then [] else positionals[1..]
  }

  /** Left over after the words still to be read, with `moved` in front of their positionals. */
  function Outcome(moved: seq<string>, split: (seq<string>, Ending)): seq<string> {
    Left(moved + split.0, split.1)
  }

  function Expected(y: Syntax, s: Scan): seq<string>
    requires s.cluster != "" ==> s.rest != []
  {
    if s.cluster == "" then Outcome(s.moved, Split(y, s.rest))
    else Outcome(s.moved, AfterOption(y, WantsNext(y, s.cluster), s.rest))
  }

  lemma {:induction false} SkipExpected(y: Syntax, s: Scan)
    requires s.cluster == ""
    ensures Expected(y, SkipPositionals(s)) == Expected(y, s)
    decreases |s.rest|
  {
    if s.rest == [] || !IsPositional(s.rest[0]) {
    } else {
      var t := s.(rest := s.rest[1..], moved := s.moved + [s.rest[0]]);
      SkipExpected(y, t);
      assert s.moved + ([s.rest[0]] + Split(y, s.rest[1..]).0) == t.moved + Split(y, t.rest).0;
    }
  }

  lemma TakeNextExpected(y: Syntax, s: Scan, val: int)
    requires s.rest != []
    ensures Expected(y, TakeNext(s, val).0) == Outcome(s.moved, AfterOption(y, true, s.rest))
  {
    assert s.moved + [] == s.moved;
  }

  lemma ReadShortExpected(y: Syntax, s: Scan, c: char, more: string)
    requires s.rest != []
    ensures Expected(y, ReadShort(y, s, c, more).0) ==
            Outcome(s.moved, AfterOption(y, WantsNext(y, [c] + more), s.rest))
  {
    var cs := [c] + more;
    assert cs[0] == c && cs[1..] == more;
    TakeNextExpected(y, s, c as int);
  }

  lemma ReadLongExpected(y: Syntax, s: Scan)
    requires s.rest != [] && !IsPositional(s.rest[0]) && s.rest[0][1] == '-'
    ensures Expected(y, ReadLong(y, s).0) == Outcome(s.moved, AfterOption(y, OptionWantsNext(y, s.rest[0]), s.rest))
  {
    var i := FindLong(y.longopts, LongName(s.rest[0]));
    if i < |y.longopts| {
      TakeNextExpected(y, s, y.longopts[i].val);
    }
  }

  /** A call does not change what will be left in the end. */
  lemma NextExpected(y: Syntax, s: Scan)
    requires Settled(s)
    ensures var (t, report) := Next(y, s);
            if report == End then t.rest + t.moved == Expected(y, s)
            else (t.cluster != "" ==> t.rest != []) && Expected(y, t) == Expected(y, s)
  {
    if s.cluster != "" {
      assert s.cluster == [s.cluster[0]] + s.cluster[1..];
      ReadShortExpected(y, s, s.cluster[0], s.cluster[1..]);
    } else {
      var start := if |s.done| <= 1 then s.(rest := s.rest + s.moved, moved := []) else s;
      assert start == s by { assert s.moved == [] ==> s.rest + s.moved == s.rest; }
      var front := SkipPositionals(s);
      SkipExpected(y, s);
      if front.rest == [] {
        assert front.moved + [] == front.moved && [] + front.moved == front.moved;
      } else {
        var a := front.rest[0];
        if a == "--" {
          assert front.moved + [] == front.moved;
        } else if a[1] == '-' {
          ReadLongExpected(y, front);
        } else {
          assert a[1..] == [a[1]] + a[2..];
          ReadShortExpected(y, front, a[1], a[2..]);
        }
      }
    }
  }

  lemma {:induction false} RunLeaves(y: Syntax, s: Scan)
    requires Settled(s)
    ensures Run(y, s).0.rest + Run(y, s).0.moved == Expected(y, s)
    decreases |s.rest|, Flag(s.cluster == ""), |s.cluster|
  {
    NextExpected(y, s);
    if Next(y, s).1 == End {
    } else {
      NextProgresses(y, s);
      RunLeaves(y, Next(y, s).0);
    }
  }

  /** A whole run over argv = [program] + words: it permutes argv, keeps argv[0], and leaves
      after optind the positional words in their order, except that the words after a `--` come
      before them and that a last option without its argument takes the first of them. */
  lemma RunSorts(y: Syntax, program: string, words: seq<string>)
    ensures var s := Scan([program], words, [], "");
            var t := Run(y, s).0;
            var (positionals, ending) := Split(y, words);
            && multiset(Words(t)) == multiset([program] + words)
            && t.done != [] && t.done[0] == program
            && t.rest + t.moved == Left(positionals, ending)
  {
    var s := Scan([program], words, [], "");
    assert Words(s) == [program] + words;
    RunPermutes(y, s);
    RunLeaves(y, s);
    assert [] + Split(y, words).0 == Split(y, words).0;
  }

  // ---- When the words left are in the original order ----

  function Repeat(w: seq<string>, n: nat): seq<string> {
    if n == 0 then [] else w + Repeat(w, n - 1)
  }

  ghost predicate Repeats(a: seq<string>, w: seq<string>, n: nat) {
    a == Repeat(w, n)
  }

  /** Both lists repeat one list of words; either may be empty. */
  ghost predicate CommonRepeats(a: seq<string>, b: seq<string>) {
    exists w, m: nat, n: nat :: Repeats(a, w, m) && Repeats(b, w, n)
  }

  lemma {:induction false} RepeatAdd(w: seq<string>, m: nat, n: nat)
    ensures Repeat(w, m) + Repeat(w, n) == Repeat(w, m + n)
  {
    if m == 0 {
      assert [] + Repeat(w, n) == Repeat(w, n);
    } else {
      RepeatAdd(w, m - 1, n);
      assert w + Repeat(w, m - 1) + Repeat(w, n) == w + (Repeat(w, m - 1) + Repeat(w, n));
    }
  }

  lemma {:induction false} CommutingRepeat(a: seq<string>, b: seq<string>)
    requires a + b == b + a
    ensures CommonRepeats(a, b)
    decreases |a| + |b|
  {
    if a == [] {
      assert Repeat(b, 1) == b + Repeat(b, 0) == b;
      assert Repeats(a, b, 0) && Repeats(b, b, 1);
    } else if b == [] {
      assert Repeat(a, 1) == a + Repeat(a, 0) == a;
      assert Repeats(a, a, 1) && Repeats(b, a, 0);
    } else if |a| <= |b| {
      ShorterRepeats(a, b);
    } else {
      ShorterRepeats(b, a);
      var w, n: nat, m: nat :| Repeats(b, w, n) && Repeats(a, w, m);
    }
  }

  lemma {:induction false} ShorterRepeats(a: seq<string>, b: seq<string>)
    requires a + b == b + a && 0 < |a| <= |b|
    ensures CommonRepeats(a, b)
    decreases |a| + |b|, 0
  {
    var rest := b[|a|..];
    assert b == a + rest by {
      assert (a + b)[..|a|] == a && (b + a)[..|a|] == b[..|a|];
      assert b == b[..|a|] + rest;
    }
    assert a + rest == rest + a by {
      assert (a + b)[|a|..] == b && (b + a)[|a|..] == rest + a;
    }
    CommutingRepeat(a, rest);
    var w, m: nat, n: nat :| Repeats(a, w, m) && Repeats(rest, w, n);
    RepeatAdd(w, m, n);
    assert Repeats(b, w, m + n);
  }

  lemma CommuteIff(a: seq<string>, b: seq<string>)
    ensures a + b == b + a <==> CommonRepeats(a, b)
  {
    if a + b == b + a {
      CommutingRepeat(a, b);
    }
    if CommonRepeats(a, b) {
      var w, m: nat, n: nat :| Repeats(a, w, m) && Repeats(b, w, n);
      RepeatAdd(w, m, n);
      RepeatAdd(w, n, m);
    }
  }

  /** A whole run leaves the positional words in their original order, those after a `--` last, if
      and only if the words after the `--` and the positional ones before it repeat one list of
      words, and no option that lacks its argument finds a positional word to take. */
  lemma InOrderIff(y: Syntax, program: string, words: seq<string>)
    ensures var t := Run(y, Scan([program], words, [], "")).0;
            var (positionals, ending) := Split(y, words);
            t.rest + t.moved == positionals + (if ending.Dashes? then ending.tail else []) <==>
            match ending
            case Complete => true
            case Dashes(tail) => CommonRepeats(tail, positionals)
            case Lacking => positionals == []
  {
    RunSorts(y, program, words);
    var (positionals, ending) := Split(y, words);
    assert positionals + [] == positionals;
    match ending
    case Complete =>
    case Dashes(tail) => CommuteIff(tail, positionals);
    case Lacking => assert positionals != [] ==> |positionals[1..]| != |positionals|;
  }

  // ---- The scanner on argv itself ----

  lemma Rotated(s: Scan)
    requires s.rest != []
    ensures var w, i := Words(s), |s.done|;
            Words(s.(rest := s.rest[1..], moved := s.moved + [s.rest[0]])) == w[..i] + w[i + 1..] + [w[i]]
  {
    var w, i := Words(s), |s.done|;
    assert w[..i] == s.done && w[i] == s.rest[0];
    assert w[i + 1..] == s.rest[1..] + s.moved;
  }

  /** The words of `before` from `from` to i moved one place to the front. */
  ghost predicate Shifted(before: seq<string>, now: seq<string>, from: nat, i: nat) {
    && from <= i < |before| == |now|
    && (forall j | from <= j < i :: now[j] == before[j + 1])
    && (forall j | 0 <= j < from || i <= j < |now| :: now[j] == before[j])
  }

  lemma ShiftedAll(before: seq<string>, now: seq<string>, from: nat)
    requires before != [] && Shifted(before, now, from, |before| - 1)
    ensures now[|before| - 1 := before[from]] == before[..from] + before[from + 1..] + [before[from]]
  {
    var s, t := now[|before| - 1 := before[from]], before[..from] + before[from + 1..] + [before[from]];
    forall j | 0 <= j < |s| ensures s[j] == t[j] {
      if j < from {
        assert s[j] == now[j] == before[j] == t[j];
      } else if j < |before| - 1 {
        assert s[j] == now[j] == before[j + 1];
        assert t[j] == (before[from + 1..] + [before[from]])[j - from] == before[from + 1..][j - from];
      }
    }
  }

  class OptionScanner {
    const argv: array<string>
    const syntax: Syntax
    var optind: nat
    var cursor: string
    var nonOptions: nat
    ghost var scan: Scan

    ghost predicate Valid()
      reads this, argv
    {
      && argv[..] == Words(scan)
      && optind == |scan.done| && cursor == scan.cluster
      && nonOptions >= |scan.moved| && (scan.rest != [] ==> nonOptions == |scan.moved|)
      && (cursor != "" ==> scan.rest != [])
    }

    constructor (argv: array<string>, syntax: Syntax)
      requires argv.Length >= 1
      ensures Valid() && this.argv == argv && this.syntax == syntax
      ensures scan == Scan([argv[0]], argv[1..], [], "")
    {
      this.argv, this.syntax := argv, syntax;
      optind, cursor, nonOptions := 1, "", 0;
      scan := Scan([argv[0]], argv[1..], [], "");
    }

    /** Move the word at optind to the end. */
    method RotateToEnd()
      requires optind < argv.Length
      modifies argv
      ensures argv[..] == old(argv[..optind]) + old(argv[optind + 1..]) + [old(argv[optind])]
    {
      ghost var before := argv[..];
      var positional := argv[optind];
      for i := optind to argv.Length - 1
        invariant Shifted(before, argv[..], optind, i)
      {
        ghost var now := argv[..];
        assert now[i + 1] == before[i + 1];
        argv[i] := argv[i + 1];
        assert argv[..] == now[i := before[i + 1]];
      }
      ghost var now := argv[..];
      argv[argv.Length - 1] := positional;
      assert argv[..] == now[argv.Length - 1 := positional];
      ShiftedAll(before, now, optind);
    }

    /** Move a positional word out of the way. */
    method MovePositional()
      requires Valid() && cursor == "" && scan.rest != []
      modifies this, argv
      ensures Valid()
      ensures scan == old(scan).(rest := old(scan).rest[1..], moved := old(scan).moved + [old(scan).rest[0]])
    {
      Rotated(scan);
      RotateToEnd();
      scan := scan.(rest := scan.rest[1..], moved := scan.moved + [scan.rest[0]]);
      nonOptions := nonOptions + 1;
    }

    method SkipToOption()
      requires Valid() && cursor == ""
      modifies this, argv
      ensures Valid() && scan == SkipPositionals(old(scan))
    {
      while optind < argv.Length - nonOptions && IsPositional(argv[optind])
        invariant Valid() && cursor == ""
        invariant SkipPositionals(scan) == SkipPositionals(old(scan))
        decreases |scan.rest|
      {
        assert argv[..][optind] == scan.rest[0];
        MovePositional();
      }
      assert scan.rest != [] ==> argv[..][optind] == scan.rest[0];
    }

    /** Pass n words. */
    method Pass(n: nat)
      requires Valid() && n <= |scan.rest|
      modifies this
      ensures Valid() && scan == Advance(old(scan), n)
    {
      AdvanceContinues(scan, n);
      scan := Advance(scan, n);
      optind := optind + n;
      cursor := "";
    }

    method TakeArgument(val: int) returns (report: Report)
      requires Valid() && scan.rest != []
      modifies this
      ensures Valid() && (scan, report) == TakeNext(old(scan), val)
    {
      TakeNextContinues(scan, val);
      if optind + 1 < argv.Length {
        report := Found(val, Argument(argv[optind + 1]));
        scan := TakeNext(scan, val).0;
        optind := optind + 2;
      } else {
        report := Complaint;
        scan := Advance(scan, 1);
        optind := optind + 1;
      }
      cursor := "";
    }

    /** One call. */
    method NextOption() returns (report: Report)
      requires Valid()
      modifies this, argv
      ensures Valid() && (scan, report) == Next(syntax, old(scan))
    {
      if optind <= 1 && cursor == "" {
        nonOptions := 0;
        scan := scan.(rest := scan.rest + scan.moved, moved := []);
      }
      if cursor == "" {
        SkipToOption();
        if optind >= argv.Length - nonOptions { return End; }
        var current := argv[optind];
        if current == "--" {
          Pass(1);
          return End;
        }
        if current[1] == '-' {
          report := LongOptionAt(current);
          return;
        }
        report := ShortOptionAt(current[1], current[2..]);
      } else {
        report := ShortOptionAt(cursor[0], cursor[1..]);
      }
    }

    method LongOptionAt(current: string) returns (report: Report)
      requires Valid() && scan.rest != [] && current == scan.rest[0] && |current| >= 2
      modifies this
      ensures Valid() && (scan, report) == ReadLong(syntax, old(scan))
    {
      var i := FindLong(syntax.longopts, LongName(current));
      if i == |syntax.longopts| {
        Pass(1);
        report := Complaint;
      } else if syntax.longopts[i].requiresArgument {
        if HasValue(current) {
          Pass(1);
          report := Found(syntax.longopts[i].val, Argument(ValueOf(current)));
        } else {
          report := TakeArgument(syntax.longopts[i].val);
        }
      } else {
        Pass(1);
        report := if HasValue(current) then Complaint else Found(syntax.longopts[i].val, NoArgument);
      }
    }

    method ShortOptionAt(c: char, more: string) returns (report: Report)
      requires Valid() && scan.rest != []
      modifies this
      ensures Valid() && (scan, report) == ReadShort(syntax, old(scan), c, more)
    {
      if KnownShort(syntax, c) && ShortRequires(syntax, c) {
        if more != "" {
          Pass(1);
          report := Found(c as int, Argument(more));
        } else {
          report := TakeArgument(c as int);
        }
      } else {
        if more == "" {
          Pass(1);
        } else {
          cursor := more;
          scan := scan.(cluster := more);
        }
        report := if KnownShort(syntax, c) then Found(c as int, NoArgument) else Complaint;
      }
    }

    /** Calls until one reports the end. */
    method ScanToEnd() returns (reports: seq<Report>)
      requires Valid() && Settled(scan)
      modifies this, argv
      ensures Valid() && (scan, reports) == Run(syntax, old(scan))
    {
      reports := [];
      assert reports + Run(syntax, scan).1 == Run(syntax, scan).1;
      var report := NextOption();
      ghost var before := old(scan);
      while report != End
        invariant Valid() && Settled(before) && (scan, report) == Next(syntax, before)
        invariant Run(syntax, old(scan)) == (Run(syntax, before).0, reports + Run(syntax, before).1)
        decreases |before.rest|, Flag(before.cluster == ""), |before.cluster|
      {
        NextProgresses(syntax, before);
        ghost var tail := Run(syntax, scan).1;
        assert reports + ([report] + tail) == (reports + [report]) + tail;
        reports := reports + [report];
        before := scan;
        report := NextOption();
      }
      assert reports + [] == reports;
    }
  }

  lemma WordsSplit(t: Scan)
    requires t.done != []
    ensures Words(t)[0] == t.done[0] && Words(t)[|t.done|..] == t.rest + t.moved
  {
  }

  /** Scan the whole of argv. */
  method ScanAll(argv: array<string>, syntax: Syntax) returns (optind: nat, reports: seq<Report>)
    requires argv.Length >= 1
    modifies argv
    ensures optind <= argv.Length && argv[0] == old(argv[0])
    ensures multiset(argv[..]) == multiset(old(argv[..]))
    ensures var (positionals, ending) := Split(syntax, old(argv[1..])); argv[optind..] == Left(positionals, ending)
    ensures reports == Run(syntax, Scan([old(argv[0])], old(argv[1..]), [], "")).1
  {
    RunSorts(syntax, argv[0], argv[1..]);
    assert argv[..] == [argv[0]] + argv[1..];
    var scanner := new OptionScanner(argv, syntax);
    reports := scanner.ScanToEnd();
    optind := scanner.optind;
    ghost var words := argv[..];
    WordsSplit(scanner.scan);
    assert argv[0] == words[0] && argv[optind..] == words[optind..];
  }
}
