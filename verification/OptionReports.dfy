/** What the option scanner reports, against a grammar of command lines: every argv is the text of a
    list of items, and the reports are what those items say, in their order. */
module OptionReports {
  import opened CommandLine

  /** A positional word, or an option as it may be written. `index` is a position in the list of long
      options, `letters` are short options that take no argument. */
  datatype Item =
    | Positional(word: string)
    | LongAlone(index: nat)
    | LongJoined(index: nat, value: string)
    | LongSeparate(index: nat, value: string)
    | LongSurplus(index: nat, value: string)
    | LongUnknown(text: string)
    | Letters(letters: string)
    | LettersJoined(letters: string, last: char, value: string)
    | LettersSeparate(letters: string, last: char, value: string)

  /** What follows the items: nothing, a `--` with whatever is behind it, or an option whose argument
      is missing. */
  datatype Finish =
    | Nothing
    | AfterDashes(tail: seq<string>)
    | LackingLong(index: nat)
    | LackingShort(letters: string, last: char)

  // ---- Well-formed items ----

  ghost predicate TakesAt(y: Syntax, c: char, a: string, b: string) {
    y.shortopts == a + [c] + ":" + b && c !in a
  }

  /** The first c among the short options has a colon behind it. */
  ghost predicate Takes(y: Syntax, c: char) {
    exists a, b :: TakesAt(y, c, a, b)
  }

  ghost predicate AllFlags(y: Syntax, letters: string) {
    forall c | c in letters :: !Takes(y, c)
  }

  /** The long option at `index` is the first of its name. */
  predicate Names(y: Syntax, index: nat, requiresArgument: bool) {
    && index < |y.longopts| && '=' !in y.longopts[index].name
    && y.longopts[index].requiresArgument == requiresArgument
    && forall j | 0 <= j < index :: y.longopts[j].name != y.longopts[index].name
  }

  /** The text is the name, or the name with an equals sign and more. */
  predicate Opens(name: string, text: string) {
    '=' !in name && (name == text || name + "=" <= text)
  }

  ghost predicate NamesNone(y: Syntax, text: string) {
    forall j | 0 <= j < |y.longopts| :: !Opens(y.longopts[j].name, text)
  }

  ghost predicate ItemOk(y: Syntax, item: Item) {
    match item
    case Positional(word) => word == "" || word == "-" || word[0] != '-'
    case LongAlone(index) => Names(y, index, false) && y.longopts[index].name != ""
    case LongJoined(index, _) => Names(y, index, true)
    case LongSeparate(index, _) => Names(y, index, true) && y.longopts[index].name != ""
    case LongSurplus(index, _) => Names(y, index, false)
    case LongUnknown(text) => text != "" && NamesNone(y, text)
    case Letters(letters) => letters != "" && letters[0] != '-' && AllFlags(y, letters)
    case LettersJoined(letters, last, value) =>
      AllFlags(y, letters) && Takes(y, last) && value != "" && (letters + [last])[0] != '-'
    case LettersSeparate(letters, last, _) => AllFlags(y, letters) && Takes(y, last) && (letters + [last])[0] != '-'
  }

  ghost predicate FinishOk(y: Syntax, finish: Finish) {
    match finish
    case Nothing => true
    case AfterDashes(_) => true
    case LackingLong(index) => Names(y, index, true) && y.longopts[index].name != ""
    case LackingShort(letters, last) => AllFlags(y, letters) && Takes(y, last) && (letters + [last])[0] != '-'
  }

  ghost predicate AllOk(y: Syntax, items: seq<Item>) {
    forall item | item in items :: ItemOk(y, item)
  }

  // ---- Their text ----

  function NameAt(y: Syntax, index: nat): string {
    if index < |y.longopts| then y.longopts[index].name else ""
  }

  function Text(y: Syntax, item: Item): (r: seq<string>)
    ensures r != []
  {
    match item
    case Positional(word) => [word]
    case LongAlone(index) => ["--" + NameAt(y, index)]
    case LongJoined(index, value) => ["--" + (NameAt(y, index) + "=" + value)]
    case LongSeparate(index, value) => ["--" + NameAt(y, index), value]
    case LongSurplus(index, value) => ["--" + (NameAt(y, index) + "=" + value)]
    case LongUnknown(text) => ["--" + text]
    case Letters(letters) => ["-" + letters]
    case LettersJoined(letters, last, value) => ["-" + (letters + ([last] + value))]
    case LettersSeparate(letters, last, value) => ["-" + (letters + [last]), value]
  }

  function TextAll(y: Syntax, items: seq<Item>): seq<string> {
    if items == [] then [] else Text(y, items[0]) + TextAll(y, items[1..])
  }

  function FinishText(y: Syntax, finish: Finish): seq<string> {
    match finish
    case Nothing => []
    case AfterDashes(tail) => ["--"] + tail
    case LackingLong(index) => ["--" + NameAt(y, index)]
    case LackingShort(letters, last) => ["-" + (letters + [last])]
  }

  // ---- What they say ----

  function ValAt(y: Syntax, index: nat): int {
    if index < |y.longopts| then y.longopts[index].val else 0
  }

  function LetterReport(y: Syntax, c: char): Report {
    if c in y.shortopts then Found(c as int, NoArgument) else Complaint
  }

  function LetterReports(y: Syntax, letters: string): seq<Report> {
    if letters == "" then [] else [LetterReport(y, letters[0])] + LetterReports(y, letters[1..])
  }

  function Reports(y: Syntax, item: Item): seq<Report> {
    match item
    case Positional(_) => []
    case LongAlone(index) => [Found(ValAt(y, index), NoArgument)]
    case LongJoined(index, value) => [Found(ValAt(y, index), Argument(value))]
    case LongSeparate(index, value) => [Found(ValAt(y, index), Argument(value))]
    case LongSurplus(_, _) => [Complaint]
    case LongUnknown(_) => [Complaint]
    case Letters(letters) => LetterReports(y, letters)
    case LettersJoined(letters, last, value) => LetterReports(y, letters) + [Found(last as int, Argument(value))]
    case LettersSeparate(letters, last, value) => LetterReports(y, letters) + [Found(last as int, Argument(value))]
  }

  function ReportsAll(y: Syntax, items: seq<Item>): seq<Report> {
    if items == [] then [] else Reports(y, items[0]) + ReportsAll(y, items[1..])
  }

  /** An option that lacks its argument takes the first positional word, if there is one. */
  function LackingReport(val: int, positionals: seq<string>): Report {
    if positionals == [] then Complaint else Found(val, Argument(positionals[0]))
  }

  function FinishReports(y: Syntax, finish: Finish, positionals: seq<string>): seq<Report> {
    match finish
    case Nothing => []
    case AfterDashes(_) => []
    case LackingLong(index) => [LackingReport(ValAt(y, index), positionals)]
    case LackingShort(letters, last) => LetterReports(y, letters) + [LackingReport(last as int, positionals)]
  }

  function OwnWord(item: Item): seq<string> {
    if item.Positional? then [item.word] else []
  }

  function PositionalsOf(items: seq<Item>): seq<string> {
    if items == [] then [] else OwnWord(items[0]) + PositionalsOf(items[1..])
  }

  function LeftBy(finish: Finish, positionals: seq<string>): seq<string> {
    match finish
    case Nothing => positionals
    case AfterDashes(tail) => tail + positionals
    case LackingLong(_) => if positionals == [] then [] else positionals[1..]
    case LackingShort(_, _) => if positionals == [] then [] else positionals[1..]
  }

  // ---- Reading one word ----

  lemma IndexOfFirst(a: string, c: char, b: string)
    requires c !in a
    ensures IndexOf(a + [c] + b, c) == |a|
  {
    var s, i := a + [c] + b, IndexOf(a + [c] + b, c);
    assert s[|a|] == c;
    assert forall j | 0 <= j < |a| :: s[j] == a[j] && a[j] in a;
    assert forall j | 0 <= j < i :: s[j] in s[..i];
  }

  lemma IndexOfNone(s: string, c: char)
    requires c !in s
    ensures IndexOf(s, c) == |s|
  {
    assert forall j | 0 <= j < |s| :: s[j] in s;
  }

  lemma TakesIff(y: Syntax, c: char)
    ensures KnownShort(y, c) && ShortRequires(y, c) <==> Takes(y, c)
    ensures KnownShort(y, c) <==> c in y.shortopts
  {
    if c !in y.shortopts {
      IndexOfNone(y.shortopts, c);
    }
    if KnownShort(y, c) && ShortRequires(y, c) {
      var i := IndexOf(y.shortopts, c);
      SplitAtColon(y.shortopts, i);
      assert TakesAt(y, c, y.shortopts[..i], y.shortopts[i + 2..]);
    }
    if Takes(y, c) {
      var a, b :| TakesAt(y, c, a, b);
      ColonBehind(a, c, b);
    }
  }

  lemma SplitAtColon(s: string, i: nat)
    requires i + 1 < |s| && s[i + 1] == ':'
    ensures s == s[..i] + [s[i]] + ":" + s[i + 2..]
  {
  }

  lemma ColonBehind(a: string, c: char, b: string)
    requires c !in a
    ensures var s := a + [c] + ":" + b; IndexOf(s, c) == |a| && s[|a|] == c && s[|a| + 1] == ':'
  {
    IndexOfFirst(a, c, ":" + b);
    assert a + [c] + ":" + b == a + [c] + (":" + b);
  }

  lemma LongPlain(name: string)
    requires '=' !in name
    ensures LongName("--" + name) == name && !HasValue("--" + name)
  {
    assert ("--" + name)[2..] == name;
    IndexOfNone(name, '=');
  }

  lemma LongValue(name: string, value: string)
    requires '=' !in name
    ensures var a := "--" + (name + "=" + value);
            |a| >= 2 && LongName(a) == name && HasValue(a) && ValueOf(a) == value
  {
    var a, text := "--" + (name + "=" + value), name + "=" + value;
    assert a[2..] == text && text == name + ['='] + value;
    IndexOfFirst(name, '=', value);
    assert text[|name|] == '=';
    assert a[2 + |name| + 1..] == value;
  }

  lemma FindsNamed(y: Syntax, index: nat, requiresArgument: bool)
    requires Names(y, index, requiresArgument)
    ensures FindLong(y.longopts, y.longopts[index].name) == index
  {
  }

  lemma FindsNone(y: Syntax, text: string)
    requires NamesNone(y, text)
    ensures FindLong(y.longopts, LongName("--" + text)) == |y.longopts|
  {
    assert ("--" + text)[2..] == text;
    OpensItsName(text);
  }

  lemma OpensItsName(text: string)
    ensures Opens(text[..IndexOf(text, '=')], text)
  {
    var i := IndexOf(text, '=');
    if i < |text| {
      assert text[..i] + "=" == text[..i + 1];
    } else {
      assert text[..i] == text;
    }
  }

  /** After the words of one option. */
  function Passed(s: Scan, words: seq<string>, more: seq<string>): Scan {
    Scan(s.done + words, more, s.moved, "")
  }

  predicate IsLong(item: Item) {
    item.LongAlone? || item.LongJoined? || item.LongSeparate? || item.LongSurplus? || item.LongUnknown?
  }

  lemma AdvanceOne(s: Scan, w: string, more: seq<string>)
    requires s.rest == [w] + more
    ensures Advance(s, 1) == Passed(s, [w], more)
  {
  }

  lemma AdvanceTwo(s: Scan, w: string, v: string, more: seq<string>)
    requires s.rest == [w, v] + more
    ensures Advance(s, 2) == Passed(s, [w, v], more)
  {
  }

  /** A long option is read as what it says. */
  lemma ReadsLong(y: Syntax, s: Scan, item: Item, more: seq<string>)
    requires IsLong(item) && ItemOk(y, item) && s.rest == Text(y, item) + more
    ensures var a := s.rest[0];
            && |a| >= 2 && a != "--" && a[0] == '-' && a[1] == '-'
            && Reports(y, item) == [ReadLong(y, s).1] && ReadLong(y, s).0 == Passed(s, Text(y, item), more)
  {
    var a := s.rest[0];
    assert a == Text(y, item)[0];
    match item
    case LongAlone(index) =>
      LongPlain(NameAt(y, index));
      FindsNamed(y, index, false);
      AdvanceOne(s, a, more);
    case LongJoined(index, value) =>
      LongValue(NameAt(y, index), value);
      FindsNamed(y, index, true);
      AdvanceOne(s, a, more);
    case LongSeparate(index, value) =>
      LongPlain(NameAt(y, index));
      FindsNamed(y, index, true);
      AdvanceTwo(s, a, value, more);
    case LongSurplus(index, value) =>
      LongValue(NameAt(y, index), value);
      FindsNamed(y, index, false);
      AdvanceOne(s, a, more);
    case LongUnknown(text) =>
      FindsNone(y, text);
      AdvanceOne(s, a, more);
  }

  // ---- Runs ----

  /** The reports of one call, then those of the rest. */
  lemma RunNext(y: Syntax, s: Scan)
    requires Settled(s) && Next(y, s).1 != End
    ensures Settled(Next(y, s).0)
    ensures Run(y, s).1 == [Next(y, s).1] + Run(y, Next(y, s).0).1
  {
    NextProgresses(y, s);
  }

  lemma Regroup<T>(a: seq<T>, b: seq<T>, c: seq<T>)
    ensures a + b + c == a + (b + c)
  {
  }

  /** Past a letter with `more` behind it. */
  function PastLetter(s: Scan, more: string): Scan
    requires s.rest != []
  {
    if more == "" then Advance(s, 1) else s.(cluster := more)
  }

  /** A group of letters, read one call at a time, up to what is behind those that take no argument. */
  lemma {:induction false} RunLetters(y: Syntax, s: Scan, letters: string, more: string)
    requires Settled(s) && AllFlags(y, letters) && s.cluster == letters + more && s.cluster != ""
    ensures Settled(PastLetter(s, more)) && Run(y, s).1 == LetterReports(y, letters) + Run(y, PastLetter(s, more)).1
    decreases |letters|
  {
    if letters == "" {
      assert s.cluster == more;
    } else {
      FlagsRest(y, letters);
      var rest := letters[1..];
      assert letters + more == [letters[0]] + (rest + more);
      RunLetter(y, s, letters[0], rest + more);
      if rest + more != "" {
        RunLetters(y, s.(cluster := rest + more), rest, more);
        Regroup([LetterReport(y, letters[0])], LetterReports(y, rest), Run(y, PastLetter(s, more)).1);
      }
    }
  }

  lemma FlagsRest(y: Syntax, letters: string)
    requires AllFlags(y, letters) && letters != ""
    ensures !Takes(y, letters[0]) && AllFlags(y, letters[1..])
  {
    assert letters[0] in letters && forall c | c in letters[1..] :: c in letters;
  }

  lemma RunLetter(y: Syntax, s: Scan, c: char, more: string)
    requires Settled(s) && !Takes(y, c) && s.cluster == [c] + more
    ensures Settled(PastLetter(s, more)) && Run(y, s).1 == [LetterReport(y, c)] + Run(y, PastLetter(s, more)).1
  {
    assert s.cluster[0] == c && s.cluster[1..] == more;
    TakesIff(y, c);
    RunNext(y, s);
  }

  predicate AllPositional(words: seq<string>) {
    forall i | 0 <= i < |words| :: IsPositional(words[i])
  }

  /** A call from s that has moved `skipped` to the end. */
  function Front(s: Scan, skipped: seq<string>, rest: seq<string>): Scan {
    Scan(s.done, rest, s.moved + skipped, "")
  }

  lemma {:induction false} SkipsAll(s: Scan, skipped: seq<string>, rest: seq<string>)
    requires s.cluster == "" && s.rest == skipped + rest && AllPositional(skipped)
    ensures SkipPositionals(s) == SkipPositionals(Front(s, skipped, rest))
    decreases |skipped|
  {
    if skipped == [] {
      assert s == Front(s, [], rest);
    } else {
      var t := s.(rest := s.rest[1..], moved := s.moved + [s.rest[0]]);
      assert s.rest[0] == skipped[0] && t.rest == skipped[1..] + rest;
      SkipsAll(t, skipped[1..], rest);
      assert Front(t, skipped[1..], rest) == Front(s, skipped, rest);
    }
  }

  /** front is how a call from s sees the words once it has moved some positional ones. */
  ghost predicate Facing(s: Scan, front: Scan) {
    && Settled(s) && s.cluster == "" && |s.moved| <= |front.moved|
    && var skipped := front.moved[|s.moved|..];
       AllPositional(skipped) && s.rest == skipped + front.rest && front == Front(s, skipped, front.rest)
  }

  lemma FacesOption(y: Syntax, s: Scan, front: Scan)
    requires Facing(s, front) && front.rest != [] && !IsPositional(front.rest[0]) && front.rest[0] != "--"
    ensures var a := front.rest[0];
            Next(y, s) == if a[1] == '-' then ReadLong(y, front) else ReadShort(y, front, a[1], a[2..])
  {
    Unmoved(s);
    SkipsAll(s, front.moved[|s.moved|..], front.rest);
  }

  lemma Unmoved(s: Scan)
    ensures s.moved == [] ==> s.(rest := s.rest + s.moved, moved := []) == s
  {
    assert s.moved == [] ==> s.rest + s.moved == s.rest;
  }

  lemma FacesLetters(y: Syntax, s: Scan, front: Scan, letters: string)
    requires Facing(s, front) && front.rest != [] && front.rest[0] == "-" + letters
    requires letters != "" && letters[0] != '-'
    ensures Settled(front.(cluster := letters)) && Run(y, s).1 == Run(y, front.(cluster := letters)).1
  {
    var a, t := front.rest[0], front.(cluster := letters);
    assert a[1] == letters[0] && a[2..] == letters[1..];
    FacesOption(y, s, front);
    assert Next(y, t) == Next(y, s);
    RunNext(y, s);
    RunNext(y, t);
  }

  /** An option of whatever form, read by one or more calls. */
  lemma RunOption(y: Syntax, s: Scan, front: Scan, item: Item, more: seq<string>)
    requires Facing(s, front) && !item.Positional? && ItemOk(y, item) && front.rest == Text(y, item) + more
    ensures var t := Passed(front, Text(y, item), more);
            Settled(t) && Run(y, s).1 == Reports(y, item) + Run(y, t).1
  {
    if IsLong(item) {
      ReadsLong(y, front, item, more);
      FacesOption(y, s, front);
      RunNext(y, s);
    } else {
      RunShort(y, s, front, item, more);
    }
  }

  lemma RunShort(y: Syntax, s: Scan, front: Scan, item: Item, more: seq<string>)
    requires item.Letters? || item.LettersJoined? || item.LettersSeparate?
    requires Facing(s, front) && ItemOk(y, item) && front.rest == Text(y, item) + more
    ensures var t := Passed(front, Text(y, item), more);
            Settled(t) && Run(y, s).1 == Reports(y, item) + Run(y, t).1
  {
    assert front.rest[0] == Text(y, item)[0];
    match item
    case Letters(letters) =>
      FacesLetters(y, s, front, letters);
      AdvanceOne(front, front.rest[0], more);
      assert letters + "" == letters;
      RunLetters(y, front.(cluster := letters), letters, "");
    case LettersJoined(letters, last, value) =>
      FirstLetter(letters, last, value);
      FacesLetters(y, s, front, letters + ([last] + value));
      RunLetters(y, front.(cluster := letters + ([last] + value)), letters, [last] + value);
      AdvanceOne(front, front.rest[0], more);
      RunArgument(y, front.(cluster := [last] + value), last, value);
      Regroup(LetterReports(y, letters), [Found(last as int, Argument(value))], Run(y, Advance(front, 1)).1);
    case LettersSeparate(letters, last, value) =>
      FirstLetter(letters, last, "");
      FacesLetters(y, s, front, letters + [last]);
      RunLetters(y, front.(cluster := letters + [last]), letters, [last]);
      AdvanceTwo(front, front.rest[0], value, more);
      RunSeparate(y, front.(cluster := [last]), last, value);
      Regroup(LetterReports(y, letters), [Found(last as int, Argument(value))], Run(y, Advance(front, 2)).1);
  }

  lemma FirstLetter(letters: string, last: char, value: string)
    ensures (letters + ([last] + value))[0] == (letters + [last])[0]
  {
  }

  /** The last letter of a group, with its argument joined. */
  lemma RunArgument(y: Syntax, s: Scan, c: char, value: string)
    requires Settled(s) && s.cluster == [c] + value && Takes(y, c) && value != ""
    ensures Settled(Advance(s, 1)) && Run(y, s).1 == [Found(c as int, Argument(value))] + Run(y, Advance(s, 1)).1
  {
    TakesIff(y, c);
    assert s.cluster[0] == c && s.cluster[1..] == value;
    RunNext(y, s);
  }

  lemma RunSeparate(y: Syntax, s: Scan, c: char, value: string)
    requires Settled(s) && s.cluster == [c] && Takes(y, c) && |s.rest| > 1 && s.rest[1] == value
    ensures Settled(Advance(s, 2)) && Run(y, s).1 == [Found(c as int, Argument(value))] + Run(y, Advance(s, 2)).1
  {
    TakesIff(y, c);
    assert s.cluster[0] == c && s.cluster[1..] == "";
    RunNext(y, s);
  }

  /** Nothing is left to read: one more call, which reports the end. */
  lemma RunEnds(y: Syntax, s: Scan)
    requires Settled(s) && s.cluster == "" && s.rest == []
    ensures Run(y, s).1 == []
  {
    Unmoved(s);
  }

  lemma RunLacking(y: Syntax, s: Scan, t: Scan, val: int)
    requires Settled(s) && t.done != [] && |t.rest| == 1 && Next(y, s) == TakeNext(t, val)
    ensures Run(y, s).1 == [LackingReport(val, t.moved)]
  {
    RunNext(y, s);
    RunEnds(y, Next(y, s).0);
  }

  lemma RunFinish(y: Syntax, s: Scan, front: Scan, finish: Finish)
    requires Facing(s, front) && FinishOk(y, finish) && front.rest == FinishText(y, finish)
    ensures Run(y, s).1 == FinishReports(y, finish, front.moved)
  {
    Unmoved(s);
    SkipsAll(s, front.moved[|s.moved|..], front.rest);
    match finish
    case Nothing =>
    case AfterDashes(_) =>
    case LackingLong(index) =>
      LongPlain(NameAt(y, index));
      FindsNamed(y, index, true);
      FacesOption(y, s, front);
      RunLacking(y, s, front, ValAt(y, index));
    case LackingShort(letters, last) =>
      FacesLetters(y, s, front, letters + [last]);
      RunLetters(y, front.(cluster := letters + [last]), letters, [last]);
      var t := front.(cluster := [last]);
      TakesIff(y, last);
      assert t.cluster[0] == last && t.cluster[1..] == "";
      RunLacking(y, t, t, last as int);
  }

  lemma SkipsWord(s: Scan, front: Scan, word: string, more: seq<string>)
    requires Facing(s, front) && front.rest == [word] + more && IsPositional(word)
    ensures Facing(s, front.(rest := more, moved := front.moved + [word]))
  {
    var skipped, next := front.moved[|s.moved|..], front.moved + [word];
    assert next[|s.moved|..] == skipped + [word];
    assert s.rest == skipped + [word] + more;
    assert s.moved + (skipped + [word]) == next;
  }

  lemma FacesItself(s: Scan)
    requires Settled(s) && s.cluster == ""
    ensures Facing(s, s)
  {
    assert s.moved[|s.moved|..] == [] && s.moved + [] == s.moved && [] + s.rest == s.rest;
  }

  /** Where the scanner is after some items, and what it reported on the way. */
  lemma {:induction false} RunItems(y: Syntax, s: Scan, front: Scan, items: seq<Item>, more: seq<string>)
    returns (t: Scan, next: Scan)
    requires Facing(s, front) && AllOk(y, items) && front.rest == TextAll(y, items) + more
    ensures Facing(t, next) && next.rest == more && next.moved == front.moved + PositionalsOf(items)
    ensures Run(y, s).1 == ReportsAll(y, items) + Run(y, t).1
    decreases |items|
  {
    if items == [] {
      t, next := s, front;
    } else {
      Regroup(Text(y, items[0]), TextAll(y, items[1..]), more);
      Regroup(front.moved, OwnWord(items[0]), PositionalsOf(items[1..]));
      RestOk(y, items);
      var u, following := RunFirst(y, s, front, items[0], TextAll(y, items[1..]) + more);
      t, next := RunItems(y, u, following, items[1..], more);
      Regroup(Reports(y, items[0]), ReportsAll(y, items[1..]), Run(y, t).1);
    }
  }

  lemma RestOk(y: Syntax, items: seq<Item>)
    requires AllOk(y, items) && items != []
    ensures ItemOk(y, items[0]) && AllOk(y, items[1..])
  {
    assert items[0] in items && forall x | x in items[1..] :: x in items;
  }

  /** Where the scanner is after the first item. */
  lemma RunFirst(y: Syntax, s: Scan, front: Scan, item: Item, more: seq<string>) returns (t: Scan, next: Scan)
    requires Facing(s, front) && ItemOk(y, item) && front.rest == Text(y, item) + more
    ensures Facing(t, next) && next.rest == more
    ensures next.moved == front.moved + OwnWord(item)
    ensures Run(y, s).1 == Reports(y, item) + Run(y, t).1
  {
    if item.Positional? {
      SkipsWord(s, front, item.word, more);
      t, next := s, front.(rest := more, moved := front.moved + [item.word]);
    } else {
      RunOption(y, s, front, item, more);
      t := Passed(front, Text(y, item), more);
      next := t;
      FacesItself(t);
    }
  }

  // ---- What is left ----

  lemma {:induction false} WantsLast(y: Syntax, letters: string, more: string)
    requires AllFlags(y, letters)
    ensures WantsNext(y, letters + more) <==> WantsNext(y, more)
  {
    if letters == "" {
      assert letters + more == more;
    } else {
      assert letters[0] in letters && (letters + more)[0] == letters[0] && (letters + more)[1..] == letters[1..] + more;
      TakesIff(y, letters[0]);
      WantsLast(y, letters[1..], more);
    }
  }

  /** Whether an option is one that takes the word behind it. */
  lemma OptionWants(y: Syntax, item: Item)
    requires !item.Positional? && ItemOk(y, item)
    ensures var a := Text(y, item)[0];
            && !IsPositional(a) && a != "--"
            && (OptionWantsNext(y, a) <==> item.LongSeparate? || item.LettersSeparate?)
  {
    match item
    case LongAlone(index) =>
      LongPlain(NameAt(y, index));
      FindsNamed(y, index, false);
    case LongJoined(index, value) => LongValue(NameAt(y, index), value);
    case LongSeparate(index, _) =>
      LongPlain(NameAt(y, index));
      FindsNamed(y, index, true);
    case LongSurplus(index, value) => LongValue(NameAt(y, index), value);
    case LongUnknown(text) => FindsNone(y, text);
    case Letters(letters) =>
      assert ("-" + letters)[1..] == letters + "";
      WantsLast(y, letters, "");
    case LettersJoined(letters, last, value) =>
      FirstLetter(letters, last, value);
      assert ("-" + (letters + ([last] + value)))[1..] == letters + ([last] + value);
      WantsLast(y, letters, [last] + value);
      TakesIff(y, last);
    case LettersSeparate(letters, last, _) =>
      assert ("-" + (letters + [last]))[1..] == letters + [last];
      WantsLast(y, letters, [last]);
      TakesIff(y, last);
  }

  function EndingOf(finish: Finish): Ending {
    match finish
    case Nothing => Complete
    case AfterDashes(tail) => Dashes(tail)
    case LackingLong(_) => Lacking
    case LackingShort(_, _) => Lacking
  }

  lemma SplitFinish(y: Syntax, finish: Finish)
    requires FinishOk(y, finish)
    ensures Split(y, FinishText(y, finish)) == ([], EndingOf(finish))
  {
    match finish
    case Nothing =>
    case AfterDashes(tail) => assert (["--"] + tail)[1..] == tail;
    case LackingLong(index) =>
      LongPlain(NameAt(y, index));
      FindsNamed(y, index, true);
    case LackingShort(letters, last) =>
      assert ("-" + (letters + [last]))[1..] == letters + [last];
      WantsLast(y, letters, [last]);
      TakesIff(y, last);
  }

  lemma {:induction false} SplitItems(y: Syntax, items: seq<Item>, finish: Finish)
    requires AllOk(y, items) && FinishOk(y, finish)
    ensures Split(y, TextAll(y, items) + FinishText(y, finish)) == (PositionalsOf(items), EndingOf(finish))
    decreases |items|
  {
    if items == [] {
      assert [] + FinishText(y, finish) == FinishText(y, finish);
      SplitFinish(y, finish);
    } else {
      RestOk(y, items);
      Regroup(Text(y, items[0]), TextAll(y, items[1..]), FinishText(y, finish));
      SplitItems(y, items[1..], finish);
      SplitFirst(y, items[0], TextAll(y, items[1..]) + FinishText(y, finish));
    }
  }

  lemma SplitFirst(y: Syntax, item: Item, more: seq<string>)
    requires ItemOk(y, item)
    ensures Split(y, Text(y, item) + more) == (OwnWord(item) + Split(y, more).0, Split(y, more).1)
  {
    var words := Text(y, item) + more;
    assert words[0] == Text(y, item)[0] && [] + Split(y, more).0 == Split(y, more).0;
    if item.Positional? {
      assert words[1..] == more;
    } else {
      OptionWants(y, item);
      if item.LongSeparate? || item.LettersSeparate? {
        assert words[2..] == more;
      } else {
        assert words[1..] == more;
      }
    }
  }

  // ---- Every argv ----

  ghost predicate Spells(y: Syntax, items: seq<Item>, finish: Finish, words: seq<string>) {
    AllOk(y, items) && FinishOk(y, finish) && words == TextAll(y, items) + FinishText(y, finish)
  }

  /** Whichever way a list of words is read as items, a run reports what the items say, in order, and
      leaves their positional words. */
  lemma RunReports(y: Syntax, program: string, words: seq<string>, items: seq<Item>, finish: Finish)
    requires Spells(y, items, finish, words)
    ensures var (t, reports) := Run(y, Scan([program], words, [], ""));
            var positionals := PositionalsOf(items);
            && reports == ReportsAll(y, items) + FinishReports(y, finish, positionals)
            && t.rest + t.moved == LeftBy(finish, positionals)
  {
    ReportsOf(y, Scan([program], words, [], ""), items, finish);
    SplitItems(y, items, finish);
    RunSorts(y, program, words);
  }

  lemma ReportsOf(y: Syntax, s: Scan, items: seq<Item>, finish: Finish)
    requires Settled(s) && s.cluster == "" && s.moved == [] && Spells(y, items, finish, s.rest)
    ensures Run(y, s).1 == ReportsAll(y, items) + FinishReports(y, finish, PositionalsOf(items))
  {
    FacesItself(s);
    var t, next := RunItems(y, s, s, items, FinishText(y, finish));
    assert [] + PositionalsOf(items) == PositionalsOf(items);
    RunFinish(y, t, next, finish);
  }

  lemma Prepended(y: Syntax, item: Item, items: seq<Item>, finish: Finish, more: seq<string>)
    requires ItemOk(y, item) && Spells(y, items, finish, more)
    ensures Spells(y, [item] + items, finish, Text(y, item) + more)
  {
    assert ([item] + items)[1..] == items;
  }

  lemma OpensOnce(name: string, text: string)
    requires Opens(name, text)
    ensures name == text[..IndexOf(text, '=')]
  {
    if name == text {
      IndexOfNone(name, '=');
    } else {
      var rest := text[|name| + 1..];
      assert text == (name + "=") + rest == name + ['='] + rest;
      IndexOfFirst(name, '=', rest);
    }
  }

  /** How a word that starts with two dashes is read. */
  lemma ParseLong(y: Syntax, words: seq<string>) returns (item: Item, finish: Finish)
    requires words != [] && |words[0]| > 2 && words[0][..2] == "--"
    ensures FinishOk(y, finish) && (finish != Nothing ==> words == FinishText(y, finish))
    ensures finish == Nothing ==> !item.Positional? && ItemOk(y, item) && Text(y, item) <= words
  {
    var text := words[0][2..];
    var k := IndexOf(text, '=');
    var name := text[..k];
    var i := FindLong(y.longopts, name);
    assert words[0] == "--" + text;
    finish := Nothing;
    if i == |y.longopts| {
      item := LongUnknown(text);
      forall j | 0 <= j < |y.longopts| ensures !Opens(y.longopts[j].name, text) {
        if Opens(y.longopts[j].name, text) {
          OpensOnce(y.longopts[j].name, text);
        }
      }
    } else if k < |text| {
      assert text == name + "=" + text[k + 1..];
      item := if y.longopts[i].requiresArgument then LongJoined(i, text[k + 1..]) else LongSurplus(i, text[k + 1..]);
    } else {
      assert text == name;
      if !y.longopts[i].requiresArgument {
        item := LongAlone(i);
      } else if |words| > 1 {
        item := LongSeparate(i, words[1]);
      } else {
        item := LongAlone(i);
        finish := LackingLong(i);
      }
    }
  }

  /** The letters up to the first that takes an argument. */
  lemma {:induction false} SplitLetters(y: Syntax, cluster: string) returns (letters: string, more: string)
    ensures cluster == letters + more && AllFlags(y, letters) && (more != "" ==> Takes(y, more[0]))
  {
    if cluster == "" {
      letters, more := "", "";
    } else if Takes(y, cluster[0]) {
      letters, more := "", cluster;
    } else {
      letters, more := SplitLetters(y, cluster[1..]);
      letters := [cluster[0]] + letters;
    }
  }

  lemma ParseLetters(y: Syntax, words: seq<string>) returns (item: Item, finish: Finish)
    requires words != [] && |words[0]| > 1 && words[0][0] == '-' && words[0][1] != '-'
    ensures FinishOk(y, finish) && (finish != Nothing ==> words == FinishText(y, finish))
    ensures finish == Nothing ==> !item.Positional? && ItemOk(y, item) && Text(y, item) <= words
  {
    var cluster := words[0][1..];
    var letters, more := SplitLetters(y, cluster);
    assert words[0] == "-" + cluster && cluster[0] == words[0][1];
    finish := Nothing;
    if more == "" {
      assert letters == cluster;
      item := Letters(letters);
    } else {
      assert more == [more[0]] + more[1..];
      FirstLetter(letters, more[0], more[1..]);
      if |more| > 1 {
        item := LettersJoined(letters, more[0], more[1..]);
      } else {
        assert more == [more[0]];
        item := LettersSeparate(letters, more[0], if |words| > 1 then words[1] else "");
        finish := if |words| > 1 then Nothing else LackingShort(letters, more[0]);
      }
    }
  }

  /** Every list of words can be read as items. */
  lemma {:induction false} Parse(y: Syntax, words: seq<string>) returns (items: seq<Item>, finish: Finish)
    ensures Spells(y, items, finish, words)
    decreases |words|
  {
    if words == [] {
      items, finish := [], Nothing;
    } else {
      var item := Positional(words[0]);
      finish := Nothing;
      if words[0] == "--" {
        finish := AfterDashes(words[1..]);
        assert words == ["--"] + words[1..];
      } else if !IsPositional(words[0]) {
        if words[0][1] == '-' {
          item, finish := ParseLong(y, words);
        } else {
          item, finish := ParseLetters(y, words);
        }
      }
      items := [];
      if finish == Nothing {
        var text := Text(y, item);
        assert words == text + words[|text|..];
        items, finish := Parse(y, words[|text|..]);
        Prepended(y, item, items, finish, words[|text|..]);
        items := [item] + items;
      }
    }
  }
}
