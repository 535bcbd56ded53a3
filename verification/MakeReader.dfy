/** The prerequisites of a depfile as Make reads them, and the paths it recovers. */
module MakeReader {
  import opened Depfile

  function Slashes(n: nat): (r: string)
    ensures |r| == n && forall i | 0 <= i < n :: r[i] == '\\'
  {
    seq(n, i => '\\')
  }

  function Prepend(text: string, r: (string, string)): (string, string) {
    (text + r.0, r.1)
  }

  /** What backslashes can protect. */
  predicate Special(c: char) {
    c == ' ' || c == '\t' || c == '#'
  }

  /** The word at the start of s, behind n backslashes, and the text behind it. An odd number of
      backslashes protects a blank or a hash, every second one of them is dropped before a blank, a hash or the
      end of the line, and others stand for themselves. */
  function ReadWord(s: string, n: nat): (r: (string, string))
    ensures |r.1| <= |s|
    ensures s != "" && !Special(s[0]) && s[0] != '\n' ==> |r.1| < |s|
  {
    if s == "" then (Slashes(n), "")
    else if s[0] == '\\' then ReadWord(s[1..], n + 1)
    else if s[0] == '\n' then (Slashes(n / 2), s)
    else if Special(s[0]) then
      if n % 2 == 0 then (Slashes(n / 2), s) else Prepend(Slashes(n / 2) + [s[0]], ReadWord(s[1..], 0))
    else if s[0] == '$' && |s| >= 2 && s[1] == '$' then Prepend(Slashes(n) + ['$'], ReadWord(s[2..], 0))
    else Prepend(Slashes(n) + [s[0]], ReadWord(s[1..], 0))
  }

  /** Blanks, and line breaks behind a backslash. */
  function SkipBlanks(s: string): (r: string)
    ensures |r| <= |s| && (r != "" ==> r[0] != ' ' && r[0] != '\t')
  {
    if s != "" && (s[0] == ' ' || s[0] == '\t') then SkipBlanks(s[1..])
    else if |s| >= 2 && s[0] == '\\' && s[1] == '\n' then SkipBlanks(s[2..])
    else s
  }

  /** The words up to the end of the line or a comment. */
  function ReadWords(s: string): seq<string>
    decreases |s|
  {
    var t := SkipBlanks(s);
    if t == "" || t[0] == '\n' || t[0] == '#' then []
    else
      var (word, rest) := ReadWord(t, 0);
      [word] + ReadWords(rest)
  }

  /** The character is no tab or newline, and no backslash in front of a space, a hash or the end. */
  predicate SafeAt(path: string, i: nat)
    requires i < |path|
  {
    && path[i] != '\t' && path[i] != '\n'
    && (path[i] == '\\' ==> i + 1 < |path| && path[i + 1] != ' ' && path[i + 1] != '#')
  }

  predicate MakeSafe(path: string) {
    forall i | 0 <= i < |path| :: SafeAt(path, i)
  }

  /** The path may stand behind n backslashes. */
  predicate MayFollow(n: nat, path: string) {
    n == 0 || (path != "" && path[0] != ' ' && path[0] != '#')
  }

  lemma SafeStep(path: string)
    requires path != ""
    ensures MakeSafe(path) <==> SafeAt(path, 0) && MakeSafe(path[1..])
  {
    assert forall i | 0 <= i < |path[1..]| :: SafeAt(path[1..], i) <==> SafeAt(path, i + 1);
    assert forall i | 1 <= i < |path| :: SafeAt(path, i) <==> SafeAt(path[1..], i - 1);
  }

  lemma ReadSlash(s: string, n: nat)
    ensures ReadWord(['\\'] + s, n) == ReadWord(s, n + 1)
  {
    assert (['\\'] + s)[1..] == s;
  }

  lemma ReadSpecial(c: char, s: string, n: nat)
    requires Special(c)
    ensures ReadWord([c] + s, n) ==
            if n % 2 == 0 then (Slashes(n / 2), [c] + s) else Prepend(Slashes(n / 2) + [c], ReadWord(s, 0))
  {
    assert ([c] + s)[1..] == s;
  }

  lemma ReadOther(c: char, s: string, n: nat)
    requires !Special(c) && c != '\\' && c != '\n' && c != '$'
    ensures ReadWord([c] + s, n) == Prepend(Slashes(n) + [c], ReadWord(s, 0))
  {
    assert ([c] + s)[1..] == s;
  }

  lemma ReadDollar(s: string, n: nat)
    ensures ReadWord("$$" + s, n) == Prepend(Slashes(n) + ['$'], ReadWord(s, 0))
  {
    assert ("$$" + s)[2..] == s;
  }

  /** A word with a character other than a backslash among its first n is not one behind n. */
  lemma TooFewSlashes(k: nat, c: char, w: string, n: nat, path: string)
    requires k < n && c != '\\'
    ensures Slashes(k) + [c] + w != Slashes(n) + path
  {
    assert (Slashes(k) + [c] + w)[k] == c;
    assert (Slashes(n) + path)[k] == '\\';
  }

  lemma SameTail(a: string, x: string, y: string)
    ensures a + x == a + y <==> x == y
  {
    assert (a + x)[|a|..] == x && (a + y)[|a|..] == y;
  }

  predicate EndsWord(tail: string) {
    tail != "" && (tail[0] == ' ' || tail[0] == '\n')
  }

  /** What the reader makes of a printed path behind n backslashes: it is recovered if and only if
      it is safe and may follow them, and then the reader stops behind it. */
  ghost predicate Recovered(path: string, tail: string, n: nat) {
    var (word, rest) := ReadWord(Escape(path) + tail, n);
    && (word == Slashes(n) + path <==> MakeSafe(path) && MayFollow(n, path))
    && (word == Slashes(n) + path ==> rest == tail)
  }

  lemma AtEnd(tail: string, n: nat)
    requires EndsWord(tail)
    ensures Recovered("", tail, n)
  {
    assert "" + tail == tail && Slashes(n) + "" == Slashes(n);
    if tail[0] == ' ' {
      assert tail == [' '] + tail[1..];
      ReadSpecial(' ', tail[1..], n);
      if n % 2 == 1 {
        TooFewSlashes(n / 2, ' ', ReadWord(tail[1..], 0).0, n, "");
      }
    }
  }

  lemma EscapeFirst(path: string, tail: string)
    requires path != ""
    ensures Escape(path) + tail == EscapeChar(path[0]) + (Escape(path[1..]) + tail)
  {
  }

  lemma AtSlash(path: string, tail: string, n: nat)
    requires path != "" && path[0] == '\\' && Recovered(path[1..], tail, n + 1)
    ensures Recovered(path, tail, n)
  {
    EscapeFirst(path, tail);
    ReadSlash(Escape(path[1..]) + tail, n);
    assert ReadWord(Escape(path) + tail, n) == ReadWord(Escape(path[1..]) + tail, n + 1);
    SafeSlash(path, n);
    OneMoreSlash(path, n);
  }

  lemma SafeSlash(path: string, n: nat)
    requires path != "" && path[0] == '\\'
    ensures MakeSafe(path) && MayFollow(n, path) <==> MakeSafe(path[1..]) && MayFollow(n + 1, path[1..])
  {
    SafeStep(path);
  }

  lemma OneMoreSlash(path: string, n: nat)
    requires path != "" && path[0] == '\\'
    ensures Slashes(n) + path == Slashes(n + 1) + path[1..]
  {
    assert path == ['\\'] + path[1..] && Slashes(n + 1) == Slashes(n) + ['\\'];
  }

  lemma AtEscaped(path: string, tail: string, n: nat)
    requires path != "" && (path[0] == ' ' || path[0] == '#') && Recovered(path[1..], tail, 0)
    ensures Recovered(path, tail, n)
  {
    var c, rest := path[0], Escape(path[1..]) + tail;
    assert Escape(path) + tail == ['\\'] + ([c] + rest);
    ReadSlash([c] + rest, n);
    ReadSpecial(c, rest, n + 1);
    SafeStep(path);
    if n == 0 {
      assert path == [c] + path[1..];
      assert Slashes(0) + [c] == [c] && Slashes(0) + path == path && Slashes(0) + path[1..] == path[1..];
      SameTail([c], ReadWord(rest, 0).0, path[1..]);
    } else if n % 2 == 0 {
      TooFewSlashes((n + 1) / 2, c, ReadWord(rest, 0).0, n, path);
    } else {
      assert |Slashes((n + 1) / 2)| < |Slashes(n) + path|;
    }
  }

  lemma AtBlank(path: string, tail: string, n: nat)
    requires path != "" && (path[0] == '\t' || path[0] == '\n')
    ensures Recovered(path, tail, n)
  {
    var c, rest := path[0], Escape(path[1..]) + tail;
    assert Escape(path) + tail == [c] + rest;
    SafeStep(path);
    if c == '\t' {
      ReadSpecial(c, rest, n);
      if n % 2 == 1 {
        TooFewSlashes(n / 2, c, ReadWord(rest, 0).0, n, path);
      }
    }
    assert |Slashes(n / 2)| < |Slashes(n) + path|;
  }

  lemma AtOther(path: string, tail: string, n: nat)
    requires path != "" && path[0] !in "\\ #\t\n" && Recovered(path[1..], tail, 0)
    ensures Recovered(path, tail, n)
  {
    var c, rest := path[0], Escape(path[1..]) + tail;
    EscapeFirst(path, tail);
    if c == '$' {
      ReadDollar(rest, n);
    } else {
      ReadOther(c, rest, n);
    }
    SafeStep(path);
    OtherFirst(path, n);
    SameTail(Slashes(n) + [c], ReadWord(rest, 0).0, path[1..]);
  }

  lemma OtherFirst(path: string, n: nat)
    requires path != ""
    ensures Slashes(n) + path == Slashes(n) + [path[0]] + path[1..] && Slashes(0) + path[1..] == path[1..]
  {
    assert path == [path[0]] + path[1..];
  }

  lemma {:induction false} RecoveredIff(path: string, tail: string, n: nat)
    requires EndsWord(tail)
    ensures Recovered(path, tail, n)
    decreases |path|
  {
    if path == "" {
      AtEnd(tail, n);
    } else if path[0] == '\\' {
      RecoveredIff(path[1..], tail, n + 1);
      AtSlash(path, tail, n);
    } else if path[0] == ' ' || path[0] == '#' {
      RecoveredIff(path[1..], tail, 0);
      AtEscaped(path, tail, n);
    } else if path[0] == '\t' || path[0] == '\n' {
      AtBlank(path, tail, n);
    } else {
      RecoveredIff(path[1..], tail, 0);
      AtOther(path, tail, n);
    }
  }

  lemma SkipSeparator(s: string)
    ensures SkipBlanks(SEPARATOR + s) == SkipBlanks(s)
  {
    var a, b, c := "\\\n  " + s, "  " + s, " " + s;
    assert (SEPARATOR + s)[1..] == a && a[2..] == b && b[1..] == c && c[1..] == s;
    assert SkipBlanks(SEPARATOR + s) == SkipBlanks(a);
    assert a[0] == '\\' && a[1] == '\n' && SkipBlanks(a) == SkipBlanks(b);
    assert SkipBlanks(b) == SkipBlanks(c) == SkipBlanks(s);
  }

  /** The printed prerequisites are canonical paths. */
  predicate Absolute(deps: seq<string>) {
    forall d | d in deps :: d != "" && d[0] == '/'
  }

  lemma ReadFirst(d: string, tail: string)
    requires d != "" && d[0] == '/' && EndsWord(tail)
    ensures var (word, rest) := ReadWord(Escape(d) + tail, 0);
            && ReadWords(SEPARATOR + Escape(d) + tail) == [word] + ReadWords(rest)
            && (word == d <==> MakeSafe(d)) && (word == d ==> rest == tail)
  {
    var s := Escape(d) + tail;
    assert SEPARATOR + Escape(d) + tail == SEPARATOR + s;
    SkipSeparator(s);
    assert s[0] == '/';
    RecoveredIff(d, tail, 0);
    assert Slashes(0) + d == d;
  }

  /** Make reads the prerequisites it was written, in order, if and only if none of them has a tab,
      a newline, or a backslash in front of a space, a hash or its end. */
  lemma {:induction false} MakeReadsIff(deps: seq<string>)
    requires Absolute(deps)
    ensures ReadWords(Prerequisites(deps) + "\n") == deps <==> forall d | d in deps :: MakeSafe(d)
  {
    if deps == [] {
      assert "" + "\n" == "\n";
    } else {
      var d, tail := deps[0], Prerequisites(deps[1..]) + "\n";
      assert Prerequisites(deps) + "\n" == SEPARATOR + Escape(d) + tail;
      assert EndsWord(tail) by {
        assert deps[1..] != [] ==> tail[0] == SEPARATOR[0];
      }
      ReadFirst(d, tail);
      MakeReadsIff(deps[1..]);
      FirstAndRest(deps, ReadWord(Escape(d) + tail, 0).0, ReadWords(ReadWord(Escape(d) + tail, 0).1));
      assert forall x | x in deps :: x == d || x in deps[1..];
      assert forall x | x in deps[1..] :: x in deps;
    }
  }

  lemma FirstAndRest(deps: seq<string>, word: string, words: seq<string>)
    requires deps != []
    ensures [word] + words == deps <==> word == deps[0] && words == deps[1..]
  {
    assert ([word] + words)[0] == word && ([word] + words)[1..] == words;
    assert deps == [deps[0]] + deps[1..];
  }
}
