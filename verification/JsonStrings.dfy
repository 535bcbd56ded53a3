/** The server's JSON strings: how it writes them and how it reads them back. */
module JsonStrings {

  function HexDigit(n: nat): char
    requires n < 16
  {
    "0123456789abcdef"[n]
  }

  function EscapeChar(c: char): (r: string)
    ensures r != ""
  {
    if c == '"' then "\\\""
    else if c == '\\' then "\\\\"
    else if c == '\n' then "\\n"
    else if c == '\r' then "\\r"
    else if c == '\t' then "\\t"
    else if c < ' ' then "\\u00" + [HexDigit(c as nat / 16), HexDigit(c as nat % 16)]
    else [c]
  }

  function JsonEscape(s: string): string {
    if s == "" then "" else EscapeChar(s[0]) + JsonEscape(s[1..])
  }

  // ---- Reading by the standard ----

  datatype Option<T> = None | Some(value: T)

  predicate IsHex(c: char) {
    '0' <= c <= '9' || 'a' <= c <= 'f' || 'A' <= c <= 'F'
  }

  function HexValue(c: char): (n: nat)
    requires IsHex(c)
    ensures n < 16
  {
    if '0' <= c <= '9' then (c - '0') as nat
    else if 'a' <= c <= 'f' then 10 + (c - 'a') as nat
    else 10 + (c - 'A') as nat
  }

  /** The character a backslash and c stand for in section 7 of RFC 8259. */
  function ShortEscape(c: char): Option<char> {
    if c == '"' || c == '\\' || c == '/' then Some(c)
    else if c == 'b' then Some(8 as char)
    else if c == 'f' then Some(12 as char)
    else if c == 'n' then Some(10 as char)
    else if c == 'r' then Some(13 as char)
    else if c == 't' then Some(9 as char)
    else None
  }

  /** The character that four hexadecimal digits stand for, surrogates apart. */
  function HexEscape(digits: string): Option<char> {
    if |digits| != 4 || !IsHex(digits[0]) || !IsHex(digits[1]) || !IsHex(digits[2]) || !IsHex(digits[3]) then None
    else
      var high, low := HexValue(digits[0]) * 16 + HexValue(digits[1]), HexValue(digits[2]) * 16 + HexValue(digits[3]);
      var n := high * 256 + low;
      if 0xD800 <= n < 0xE000 then None else Some(n as char)
  }

  function Prepend(c: Option<char>, s: Option<string>): Option<string> {
    if c.None? || s.None? then None else Some([c.value] + s.value)
  }

  /** What a reader of section 7 of RFC 8259 makes of the text between two quotes. */
  function JsonDecode(text: string): Option<string> {
    if text == "" then Some("")
    else if text[0] == '"' || text[0] < ' ' then None
    else if text[0] != '\\' then Prepend(Some(text[0]), JsonDecode(text[1..]))
    else if |text| >= 6 && text[1] == 'u' then Prepend(HexEscape(text[2..6]), JsonDecode(text[6..]))
    else if |text| >= 2 then Prepend(ShortEscape(text[1]), JsonDecode(text[2..]))
    else None
  }

  lemma HexDigitValue(n: nat)
    requires n < 16
    ensures IsHex(HexDigit(n)) && HexValue(HexDigit(n)) == n
  {
    var digits := "0123456789abcdef";
    assert n < 10 ==> digits[n] == '0' + n as char;
    assert n >= 10 ==> digits[n] == 'a' + (n - 10) as char;
  }

  lemma DecodeControl(c: char, text: string)
    requires c < ' '
    ensures var e := "\\u00" + [HexDigit(c as nat / 16), HexDigit(c as nat % 16)];
            JsonDecode(e + text) == Prepend(Some(c), JsonDecode(text))
  {
    var e := "\\u00" + [HexDigit(c as nat / 16), HexDigit(c as nat % 16)];
    HexDigitValue(c as nat / 16);
    HexDigitValue(c as nat % 16);
    assert (e + text)[2..6] == ['0', '0', HexDigit(c as nat / 16), HexDigit(c as nat % 16)];
    assert (e + text)[6..] == text;
  }

  lemma DecodeChar(c: char, text: string)
    ensures JsonDecode(EscapeChar(c) + text) == Prepend(Some(c), JsonDecode(text))
  {
    var e := EscapeChar(c);
    if |e| == 1 {
      assert (e + text)[1..] == text;
    } else if |e| == 2 {
      assert (e + text)[2..] == text;
    } else {
      DecodeControl(c, text);
    }
  }

  /** Every string is written so that a reader by the standard gets it back. */
  lemma {:induction false} StandardReadsBack(s: string)
    ensures JsonDecode(JsonEscape(s)) == Some(s)
  {
    if s == "" {
    } else {
      DecodeChar(s[0], JsonEscape(s[1..]));
      StandardReadsBack(s[1..]);
      assert s == [s[0]] + s[1..];
    }
  }

  // ---- Reading as the server does ----

  function Unescaped(c: char): char {
    if c == 'n' then '\n' else if c == 'r' then '\r' else if c == 't' then '\t' else c
  }

  /** The reader drops a backslash and keeps the next character; a backslash at the end stays. */
  function Unescape(s: string): string {
    if s == "" then ""
    else if s[0] == '\\' && |s| > 1 then [Unescaped(s[1])] + Unescape(s[2..])
    else [s[0]] + Unescape(s[1..])
  }

  /** The part before the first double quote. */
  function UpToQuote(s: string): (r: string)
    ensures |r| <= |s| && r == s[..|r|] && '"' !in r
    ensures |r| < |s| ==> s[|r|] == '"'
  {
    if s == "" || s[0] == '"' then "" else [s[0]] + UpToQuote(s[1..])
  }

  /** The characters the reader gets back. */
  predicate Plain(c: char) {
    c != '"' && (c >= ' ' || c == '\n' || c == '\r' || c == '\t')
  }

  predicate AllPlain(s: string) {
    forall i | 0 <= i < |s| :: Plain(s[i])
  }

  /** What the reader makes of a written string with a quote behind it. */
  function ReadBack(s: string, rest: string): string {
    Unescape(UpToQuote(JsonEscape(s) + "\"" + rest))
  }

  lemma {:induction false} UpToQuoteSplits(a: string, b: string)
    requires '"' !in a
    ensures UpToQuote(a + b) == a + UpToQuote(b)
  {
    if a == "" {
      assert a + b == b;
    } else {
      assert (a + b)[1..] == a[1..] + b && a[0] in a;
      UpToQuoteSplits(a[1..], b);
    }
  }

  /** What one character is written as: itself, a backslash and a letter, or six characters. */
  lemma EscapeShape(c: char)
    ensures var e := EscapeChar(c);
            && (Plain(c) && c != '\\' && c >= ' ' ==> e == [c])
            && (Plain(c) && (c == '\\' || c < ' ') ==> |e| == 2 && e[0] == '\\' && e[1] != '"' && Unescaped(e[1]) == c)
            && (!Plain(c) && c != '"' ==> |e| == 6 && e[0] == '\\' && e[1] == 'u' && '"' !in e)
  {
    if !Plain(c) && c != '"' {
      HexPlain(c as nat / 16);
      HexPlain(c as nat % 16);
    }
  }

  lemma HexPlain(n: nat)
    requires n < 16
    ensures HexDigit(n) != '"'
  {
  }

  lemma UnescapeOne(c: char, text: string)
    requires c != '\\'
    ensures Unescape([c] + text) == [c] + Unescape(text)
  {
    assert ([c] + text)[1..] == text;
  }

  lemma UnescapePair(e: string, text: string)
    requires |e| >= 2 && e[0] == '\\'
    ensures |Unescape(e + text)| > 0 && Unescape(e + text)[0] == Unescaped(e[1])
    ensures |e| == 2 ==> Unescape(e + text) == [Unescaped(e[1])] + Unescape(text)
  {
    assert |e| == 2 ==> (e + text)[2..] == text;
  }

  lemma ReadBackFirst(c: char, s: string, rest: string)
    requires c != '"'
    ensures ReadBack([c] + s, rest) == Unescape(EscapeChar(c) + UpToQuote(JsonEscape(s) + "\"" + rest))
  {
    var tail := JsonEscape(s) + "\"" + rest;
    assert ([c] + s)[1..] == s;
    assert JsonEscape([c] + s) + "\"" + rest == EscapeChar(c) + tail;
    EscapeShape(c);
    UpToQuoteSplits(EscapeChar(c), tail);
  }

  lemma ReadBackQuote(s: string, rest: string)
    ensures ReadBack(['"'] + s, rest) == "\\"
  {
    var tail := JsonEscape(s) + "\"" + rest;
    assert (['"'] + s)[1..] == s;
    assert JsonEscape(['"'] + s) + "\"" + rest == ['\\'] + (['"'] + tail);
    UpToQuoteSplits(['\\'], ['"'] + tail);
    assert UpToQuote(['"'] + tail) == "";
    assert ['\\'] + "" == "\\";
    assert Unescape("\\") == "\\" + Unescape("");
  }

  /** One character in front: read back if it is plain, and otherwise the result starts with
      something else. */
  lemma ReadBackStep(c: char, s: string, rest: string)
    ensures Plain(c) ==> ReadBack([c] + s, rest) == [c] + ReadBack(s, rest)
    ensures !Plain(c) ==> ReadBack([c] + s, rest) != "" && ReadBack([c] + s, rest)[0] != c
  {
    if c == '"' {
      ReadBackQuote(s, rest);
    } else {
      ReadBackFirst(c, s, rest);
      EscapeShape(c);
      var text := UpToQuote(JsonEscape(s) + "\"" + rest);
      if |EscapeChar(c)| == 1 {
        UnescapeOne(c, text);
      } else {
        UnescapePair(EscapeChar(c), text);
      }
    }
  }

  /** The reader recovers a written string if and only if it holds no double quote and no control
      character other than newline, carriage return and tab. */
  lemma {:induction false} ReadBackIff(s: string, rest: string)
    ensures ReadBack(s, rest) == s <==> AllPlain(s)
  {
    if s == "" {
      assert JsonEscape(s) + "\"" + rest == "\"" + rest;
    } else {
      assert s == [s[0]] + s[1..];
      ReadBackStep(s[0], s[1..], rest);
      ReadBackIff(s[1..], rest);
      if Plain(s[0]) {
        assert ReadBack(s, rest)[1..] == ReadBack(s[1..], rest);
        assert AllPlain(s) <==> AllPlain(s[1..]) by {
          assert AllPlain(s) ==> forall i | 0 <= i < |s[1..]| :: s[1..][i] == s[i + 1];
          if AllPlain(s[1..]) {
            forall i | 0 <= i < |s| ensures Plain(s[i]) {
              if i > 0 { assert s[i] == s[1..][i - 1]; }
            }
          }
        }
      }
    }
  }

  // ---- The reader and the writer as loops ----

  method WriteJsonString(s: string) returns (result: string)
    ensures result == JsonEscape(s)
  {
    result := "";
    for i := 0 to |s|
      invariant result + JsonEscape(s[i..]) == JsonEscape(s)
    {
      assert s[i..][1..] == s[i + 1..];
      ghost var before := result;
      result := result + EscapeChar(s[i]);
      assert result + JsonEscape(s[i + 1..]) == before + JsonEscape(s[i..]);
    }
  }

  predicate Occurs(text: string, pattern: string, k: int) {
    0 <= k <= |text| - |pattern| && text[k..k + |pattern|] == pattern
  }

  /** The first position of the pattern at or after `from`, or -1. */
  method Find(text: string, pattern: string, from: nat) returns (pos: int)
    requires from <= |text|
    ensures pos == -1 || (from <= pos && Occurs(text, pattern, pos))
    ensures forall k | from <= k && (pos == -1 || k < pos) :: !Occurs(text, pattern, k)
  {
    pos := from;
    while pos <= |text| - |pattern|
      invariant from <= pos
      invariant forall k | from <= k < pos :: !Occurs(text, pattern, k)
    {
      if text[pos..pos + |pattern|] == pattern { return; }
      pos := pos + 1;
    }
    pos := -1;
  }

  method UnescapeRange(json: string, start: nat, end: nat) returns (value: string)
    requires start <= end <= |json|
    ensures value == Unescape(json[start..end])
  {
    value := "";
    var i := start;
    while i < end
      invariant start <= i <= end
      invariant value + Unescape(json[i..end]) == Unescape(json[start..end])
    {
      ghost var before := value;
      UnescapeStep(json, i, end);
      if json[i] == '\\' && i + 1 < end {
        i := i + 1;
        value := value + [Unescaped(json[i])];
        Regroup(before, [Unescaped(json[i])], Unescape(json[i + 1..end]));
      } else {
        value := value + [json[i]];
        Regroup(before, [json[i]], Unescape(json[i + 1..end]));
      }
      i := i + 1;
    }
  }

  lemma Regroup(a: string, b: string, c: string)
    ensures a + b + c == a + (b + c)
  {
  }

  lemma UnescapeStep(json: string, i: nat, end: nat)
    requires i < end <= |json|
    ensures Unescape(json[i..end]) ==
            if json[i] == '\\' && i + 1 < end then [Unescaped(json[i + 1])] + Unescape(json[i + 2..end])
            else [json[i]] + Unescape(json[i + 1..end])
  {
    assert json[i..end][1..] == json[i + 1..end];
    if i + 1 < end {
      assert json[i..end][2..] == json[i + 2..end];
    }
  }

  /** What the reader looks for. */
  function Search(key: string): string {
    "\"" + key + "\":\""
  }

  ghost predicate NoneBefore(text: string, pattern: string, n: nat) {
    forall k | 0 <= k < n :: !Occurs(text, pattern, k)
  }

  ghost predicate First(text: string, pattern: string, pos: int) {
    && (pos == -1 || (0 <= pos && Occurs(text, pattern, pos)))
    && (forall k | 0 <= k && (pos == -1 || k < pos) :: !Occurs(text, pattern, k))
  }

  /** What is read from the text behind the opening quote. */
  function ValueIn(text: string): string {
    if '"' in text then Unescape(UpToQuote(text)) else ""
  }

  ghost predicate ReadAt(json: string, search: string, value: string, pos: int) {
    && First(json, search, pos)
    && value == if pos == -1 then "" else ValueIn(json[pos + |search|..])
  }

  /** The value of the first `"key":"..."` of a document, empty if there is none. */
  method GetJsonString(json: string, key: string) returns (value: string)
    ensures exists pos :: ReadAt(json, Search(key), value, pos)
  {
    var search := Search(key);
    var pos;
    value, pos := ReadMember(json, search);
    assert ReadAt(json, search, value, pos);
  }

  method ReadMember(json: string, search: string) returns (value: string, pos: int)
    ensures ReadAt(json, search, value, pos)
  {
    pos := Find(json, search, 0);
    if pos == -1 {
      value := "";
    } else {
      value := ReadValue(json, pos + |search|);
    }
  }

  method ReadValue(json: string, start: nat) returns (value: string)
    requires start <= |json|
    ensures value == ValueIn(json[start..])
  {
    var end := Find(json, "\"", start);
    QuotePosition(json, start, end);
    if end == -1 { return ""; }
    value := UnescapeRange(json, start, end);
  }

  lemma QuotePosition(json: string, start: nat, end: int)
    requires start <= |json|
    requires end == -1 || (start <= end && Occurs(json, "\"", end))
    requires forall k | start <= k && (end == -1 || k < end) :: !Occurs(json, "\"", k)
    ensures end == -1 <==> '"' !in json[start..]
    ensures end >= 0 ==> UpToQuote(json[start..]) == json[start..end]
  {
    var s := json[start..];
    forall k | start <= k < |json| && (end == -1 || k < end) ensures json[k] != '"' {
      assert json[k..k + 1] == [json[k]];
      assert !Occurs(json, "\"", k);
    }
    if end >= 0 {
      assert json[end..end + 1][0] == '"';
      assert s == json[start..end] + json[end..];
      UpToQuoteSplits(json[start..end], json[end..]);
    }
  }

  /** A document with a written string as a member. */
  function Document(before: string, key: string, s: string, rest: string): string {
    before + Search(key) + JsonEscape(s) + "\"" + rest
  }

  /** The member of a document is read back if and only if all its characters are plain; before it
      the document may hold anything but another occurrence of the key. */
  method ReadWritten(before: string, key: string, s: string, rest: string) returns (value: string)
    requires NoneBefore(Document(before, key, s, rest), Search(key), |before|)
    ensures value == s <==> AllPlain(s)
  {
    var written := WriteJsonString(s);
    var json := before + Search(key) + written + "\"" + rest;
    value := GetJsonString(json, key);
    MemberRead(before, Search(key), s, rest, value);
  }

  lemma MemberRead(before: string, search: string, s: string, rest: string, value: string)
    requires NoneBefore(before + search + JsonEscape(s) + "\"" + rest, search, |before|)
    requires exists pos :: ReadAt(before + search + JsonEscape(s) + "\"" + rest, search, value, pos)
    ensures value == s <==> AllPlain(s)
  {
    var pos :| ReadAt(before + search + JsonEscape(s) + "\"" + rest, search, value, pos);
    MemberValue(before, search, s, rest, value, pos);
    ReadBackIff(s, rest);
  }

  lemma MemberValue(before: string, search: string, s: string, rest: string, value: string, pos: int)
    requires var json := before + search + JsonEscape(s) + "\"" + rest;
             ReadAt(json, search, value, pos) && NoneBefore(json, search, |before|)
    ensures value == ReadBack(s, rest)
  {
    MemberAt(before, search, JsonEscape(s), rest, pos);
  }

  lemma MemberAt(before: string, search: string, text: string, rest: string, pos: int)
    requires var json := before + search + text + "\"" + rest;
             First(json, search, pos) && NoneBefore(json, search, |before|)
    ensures pos == |before|
    ensures var behind := (before + search + text + "\"" + rest)[pos + |search|..];
            behind == text + "\"" + rest && '"' in behind
  {
    var json, behind := before + search + text + "\"" + rest, text + "\"" + rest;
    assert json[|before|..|before| + |search|] == search;
    assert Occurs(json, search, |before|);
    assert json[|before| + |search|..] == behind;
    assert behind[|text|] == '"';
  }

  /** A document that starts with the member has no earlier occurrence. */
  lemma FirstMember(key: string, s: string, rest: string)
    ensures NoneBefore(Document("{", key, s, rest), Search(key), |"{"|)
  {
    var json, search := Document("{", key, s, rest), Search(key);
    assert |json| >= |search| ==> json[0..|search|][0] == '{' && search[0] == '"';
  }
}
