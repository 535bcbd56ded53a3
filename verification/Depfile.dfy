/** The Makefile-format dependency file. */
module Depfile {

  function EscapeChar(c: char): string {
    if c == ' ' || c == '#' then ['\\', c] else if c == '$' then "$$" else [c]
  }

  function Escape(path: string): string {
    if path == "" then "" else EscapeChar(path[0]) + Escape(path[1..])
  }

  /** Reads an escaped path back. */
  function Unescape(text: string): string {
    if text == "" then ""
    else if |text| >= 2 && text[0] == '\\' && (text[1] == ' ' || text[1] == '#') then [text[1]] + Unescape(text[2..])
    else if |text| >= 2 && text[0] == '$' && text[1] == '$' then ['$'] + Unescape(text[2..])
    else [text[0]] + Unescape(text[1..])
  }

  /** A backslash of the path itself is never followed by a bare space or hash, so the escape can
      be undone although backslashes are not escaped. */
  lemma {:induction false} EscapeRoundTrip(path: string)
    ensures Unescape(Escape(path)) == path
    ensures path == "" <==> Escape(path) == ""
    ensures path != "" ==> Escape(path)[0] != ' ' && Escape(path)[0] != '#'
  {
    if path == "" {
    } else {
      EscapeRoundTrip(path[1..]);
      var c, rest := path[0], Escape(path[1..]);
      var text := EscapeChar(c) + rest;
      if c == ' ' || c == '#' || c == '$' {
        assert text[2..] == rest;
      } else {
        assert text[1..] == rest;
      }
    }
  }

  lemma EscapeInjective(p: string, q: string)
    requires Escape(p) == Escape(q)
    ensures p == q
  {
    EscapeRoundTrip(p);
    EscapeRoundTrip(q);
  }

  const SEPARATOR := " \\\n  "

  function Prerequisites(deps: seq<string>): string {
    if deps == [] then "" else SEPARATOR + Escape(deps[0]) + Prerequisites(deps[1..])
  }

  function Text(target: string, deps: seq<string>): string {
    Escape(target) + ":" + Prerequisites(deps) + "\n"
  }

  // ---- Reading the file back ----

  /** The text up to the first newline, and what follows it. */
  function FirstLine(text: string): (r: (string, string))
    ensures |r.1| < |text| || r.1 == ""
  {
    if text == "" then ("", "")
    else if text[0] == '\n' then ("", text[1..])
    else var (line, rest) := FirstLine(text[1..]); ([text[0]] + line, rest)
  }

  function Chop(line: string, n: nat): string {
    if n <= |line| then line[..|line| - n] else ""
  }

  /** The paths on continuation lines: two blanks in front, and a blank and a backslash behind all
      but the last. */
  function ParseDeps(text: string): seq<string>
    decreases |text|
  {
    if text == "" then []
    else
      var (line, rest) := FirstLine(text);
      var body := if |line| >= 2 then line[2..] else "";
      [Unescape(if rest == "" then body else Chop(body, 2))] + ParseDeps(rest)
  }

  function Parse(text: string): (string, seq<string>) {
    var (line, rest) := FirstLine(text);
    (Unescape(if rest == "" then Chop(line, 1) else Chop(line, 3)), ParseDeps(rest))
  }

  predicate OneLine(s: string) {
    '\n' !in s
  }

  lemma {:induction false} EscapeOneLine(path: string)
    requires OneLine(path)
    ensures OneLine(Escape(path))
  {
    if path == "" {
    } else {
      EscapeOneLine(path[1..]);
    }
  }

  lemma {:induction false} FirstLineSplits(line: string, rest: string)
    requires OneLine(line)
    ensures FirstLine(line + "\n" + rest) == (line, rest)
  {
    var text := line + "\n" + rest;
    if line == "" {
      assert text[1..] == rest;
    } else {
      assert text[1..] == line[1..] + "\n" + rest;
      assert text[0] == line[0] && line[0] in line;
      FirstLineSplits(line[1..], rest);
      assert [line[0]] + line[1..] == line;
    }
  }

  /** The rest of a file from a prerequisite line on. */
  function DepLines(d: string, deps: seq<string>): string {
    "  " + Escape(d) + Prerequisites(deps) + "\n"
  }

  lemma Regroup(head: string, blank: string, newline: string, indent: string, e: string, p: string)
    ensures head + (blank + newline + indent + e + p) + newline == (head + blank) + newline + (indent + e + p + newline)
  {
  }

  lemma LineBreak(head: string, deps: seq<string>)
    requires deps != []
    ensures head + Prerequisites(deps) + "\n" == (head + " \\") + "\n" + DepLines(deps[0], deps[1..])
  {
    assert SEPARATOR == " \\" + "\n" + "  ";
    Regroup(head, " \\", "\n", "  ", Escape(deps[0]), Prerequisites(deps[1..]));
  }

  lemma ChopTail(s: string, tail: string)
    ensures Chop(s + tail, |tail|) == s
  {
  }

  lemma {:induction false} ParseDepsPrinted(d: string, deps: seq<string>)
    requires OneLine(d) && forall x | x in deps :: OneLine(x)
    ensures ParseDeps(DepLines(d, deps)) == [d] + deps
    decreases |deps|
  {
    EscapeOneLine(d);
    EscapeRoundTrip(d);
    var line := "  " + Escape(d);
    assert line[2..] == Escape(d);
    if deps == [] {
      assert DepLines(d, deps) == line + "\n" + "";
      FirstLineSplits(line, "");
    } else {
      LineBreak(line, deps);
      FirstLineSplits(line + " \\", DepLines(deps[0], deps[1..]));
      assert (line + " \\")[2..] == Escape(d) + " \\";
      ChopTail(Escape(d), " \\");
      ParseDepsPrinted(deps[0], deps[1..]);
      assert deps == [deps[0]] + deps[1..];
    }
  }

  /** A written depfile reads back as its target and its prerequisites in order. */
  lemma TextRoundTrip(target: string, deps: seq<string>)
    requires OneLine(target) && forall d | d in deps :: OneLine(d)
    ensures Parse(Text(target, deps)) == (target, deps)
  {
    EscapeOneLine(target);
    EscapeRoundTrip(target);
    var line := Escape(target) + ":";
    if deps == [] {
      assert Text(target, deps) == line + "\n" + "";
      FirstLineSplits(line, "");
      ChopTail(Escape(target), ":");
    } else {
      LineBreak(line, deps);
      FirstLineSplits(line + " \\", DepLines(deps[0], deps[1..]));
      assert line + " \\" == Escape(target) + ": \\";
      ChopTail(Escape(target), ": \\");
      ParseDepsPrinted(deps[0], deps[1..]);
      assert deps == [deps[0]] + deps[1..];
    }
  }

  // ---- Writing ----

  method EscapeDepfilePath(path: string) returns (out: string)
    ensures out == Escape(path)
  {
    out := "";
    for i := 0 to |path|
      invariant out + Escape(path[i..]) == Escape(path)
    {
      EscapeNext(out, path, i);
      out := AppendEscaped(out, path[i]);
    }
  }

  method AppendEscaped(before: string, c: char) returns (out: string)
    ensures out == before + EscapeChar(c)
  {
    out := before;
    if c == ' ' || c == '#' {
      out := out + ['\\'] + [c];
    } else if c == '$' {
      out := out + ['$'] + ['$'];
    } else {
      out := out + [c];
    }
  }

  lemma EscapeNext(out: string, path: string, i: nat)
    requires i < |path|
    ensures out + Escape(path[i..]) == out + EscapeChar(path[i]) + Escape(path[i + 1..])
  {
    assert path[i..][1..] == path[i + 1..];
    assert Escape(path[i..]) == EscapeChar(path[i]) + Escape(path[i + 1..]);
  }

  lemma Append(out: string, separator: string, dep: string, rest: string)
    ensures out + separator + dep + rest == out + (separator + dep + rest)
  {
  }

  method WriteDepfile(target: string, order: seq<string>) returns (out: string)
    ensures out == Text(target, order)
  {
    out := EscapeDepfilePath(target);
    out := out + ":";
    ghost var head := out;
    for i := 0 to |order|
      invariant out + Prerequisites(order[i..]) == head + Prerequisites(order)
    {
      var dep := EscapeDepfilePath(order[i]);
      assert order[i..][1..] == order[i + 1..];
      Append(out, SEPARATOR, dep, Prerequisites(order[i + 1..]));
      out := out + " \\\n  " + dep;
    }
    out := out + "\n";
  }
}
