/** The server's base64 coding of the modules it returns. */
module Base64 {

  type Byte = b: nat | b < 256

  datatype Option<T> = None | Some(value: T)

  /** The alphabet: A to Z, a to z, 0 to 9, + and /. */
  function Digit(n: nat): char
    requires n < 64
  {
    if n < 26 then 'A' + n as char
    else if n < 52 then 'a' + (n - 26) as char
    else if n < 62 then '0' + (n - 52) as char
    else if n == 62 then '+' else '/'
  }

  /** A byte of a group; bytes past the end count as zero. */
  function At(bytes: seq<Byte>, i: nat): (b: nat)
    ensures b < 256
  {
    if i < |bytes| then bytes[i] else 0
  }

  function Word(bytes: seq<Byte>): (n: nat)
    ensures n < 0x100_0000
  {
    At(bytes, 0) * 0x1_0000 + At(bytes, 1) * 0x100 + At(bytes, 2)
  }

  /** The four digits of a 24-bit word. */
  function D0(n: nat): (d: nat)
    requires n < 0x100_0000
    ensures d < 64
  {
    n / 0x4_0000
  }

  function D1(n: nat): (d: nat)
    ensures d < 64
  {
    n / 0x1000 % 64
  }

  function D2(n: nat): (d: nat)
    ensures d < 64
  {
    n / 64 % 64
  }

  function D3(n: nat): (d: nat)
    ensures d < 64
  {
    n % 64
  }

  function EncodeGroup(bytes: seq<Byte>): (r: string)
    ensures |r| == 4
  {
    var n := Word(bytes);
    [Digit(D0(n)), Digit(D1(n)),
     if |bytes| > 1 then Digit(D2(n)) else '=',
     if |bytes| > 2 then Digit(D3(n)) else '=']
  }

  function Encode64(bytes: seq<Byte>): string {
    if bytes == [] then ""
    else if |bytes| <= 3 then EncodeGroup(bytes)
    else EncodeGroup(bytes[..3]) + Encode64(bytes[3..])
  }

  /** The digits of section 4 of RFC 4648. */
  predicate IsDigit(c: char) {
    'A' <= c <= 'Z' || 'a' <= c <= 'z' || '0' <= c <= '9' || c == '+' || c == '/'
  }

  function ValueOf(c: char): (v: nat)
    requires IsDigit(c)
    ensures v < 64
  {
    if 'A' <= c <= 'Z' then (c - 'A') as nat
    else if 'a' <= c <= 'z' then 26 + (c - 'a') as nat
    else if '0' <= c <= '9' then 52 + (c - '0') as nat
    else if c == '+' then 62
    else 63
  }

  function PaddedValue(c: char): (v: nat)
    requires c == '=' || IsDigit(c)
    ensures v < 64
  {
    if c == '=' then 0 else ValueOf(c)
  }

  function B0(n: nat): (b: nat)
    requires n < 0x100_0000
    ensures b < 256
  {
    n / 0x1_0000
  }

  function B1(n: nat): (b: nat)
    ensures b < 256
  {
    n / 0x100 % 256
  }

  function B2(n: nat): (b: nat)
    ensures b < 256
  {
    n % 256
  }

  function Joined(a: nat, b: nat, c: nat, d: nat): (n: nat)
    requires a < 64 && b < 64 && c < 64 && d < 64
    ensures n < 0x100_0000
  {
    a * 0x4_0000 + b * 0x1000 + c * 64 + d
  }

  /** Four digits, the last one or two of which may be pads. */
  predicate IsQuad(q: string) {
    |q| == 4 && IsDigit(q[0]) && IsDigit(q[1]) &&
    (if q[2] == '=' then q[3] == '=' else IsDigit(q[2]) && (q[3] == '=' || IsDigit(q[3])))
  }

  /** Four characters to three bytes, or fewer with padding. */
  function DecodeGroup(q: string): seq<Byte>
    requires IsQuad(q)
  {
    var n := Joined(ValueOf(q[0]), ValueOf(q[1]), PaddedValue(q[2]), PaddedValue(q[3]));
    if q[2] == '=' then [B0(n)] else if q[3] == '=' then [B0(n), B1(n)] else [B0(n), B1(n), B2(n)]
  }

  /** A strict decoder: nothing but digits, and pads at the end only. */
  function Decode64(text: string): Option<seq<Byte>> {
    if text == "" then Some([])
    else if |text| < 4 || !IsQuad(text[..4]) || (text[3] == '=' && |text| > 4) then None
    else
      var rest := Decode64(text[4..]);
      if rest.None? then None else Some(DecodeGroup(text[..4]) + rest.value)
  }

  lemma DigitValue(n: nat)
    requires n < 64
    ensures IsDigit(Digit(n)) && ValueOf(Digit(n)) == n && Digit(n) != '='
  {
  }

  lemma JoinDigits(n: nat)
    requires n < 0x100_0000
    ensures Joined(D0(n), D1(n), D2(n), D3(n)) == n
  {
    ShiftTwice(n);
    ShiftTwice(n / 64);
    ShiftThrice(n);
    var m, p := n / 64, n / 64 / 64;
    assert n == 64 * m + D3(n) && m == 64 * p + D2(n);
    assert p == 64 * D0(n) + D1(n);
  }

  lemma ShiftTwice(n: nat)
    ensures n / 0x1000 == n / 64 / 64
  {
  }

  lemma ShiftThrice(n: nat)
    ensures n / 0x4_0000 == n / 64 / 64 / 64
  {
    ShiftTwice(n);
    var p := n / 0x1000;
    assert n / 0x4_0000 == p / 64;
  }

  lemma WordBytes(a: Byte, b: Byte, c: Byte)
    ensures var n := a * 0x1_0000 + b * 0x100 + c;
            n < 0x100_0000 && B0(n) == a && B1(n) == b && B2(n) == c
  {
  }

  lemma PaddingDigits(a: Byte, b: Byte)
    ensures D2(a * 0x1_0000) == 0 && D3(a * 0x1_0000) == 0 && D3(a * 0x1_0000 + b * 0x100) == 0
  {
  }

  lemma GroupRoundTrip(bytes: seq<Byte>)
    requires 1 <= |bytes| <= 3
    ensures IsQuad(EncodeGroup(bytes)) && DecodeGroup(EncodeGroup(bytes)) == bytes
  {
    var n, q := Word(bytes), EncodeGroup(bytes);
    GroupWord(bytes);
    DecodeWord(q, n);
    GroupBytes(bytes);
    FirstBytes(bytes, B0(n), B1(n), B2(n));
  }

  lemma DecodeWord(q: string, n: nat)
    requires IsQuad(q) && Joined(ValueOf(q[0]), ValueOf(q[1]), PaddedValue(q[2]), PaddedValue(q[3])) == n
    ensures DecodeGroup(q) ==
            if q[2] == '=' then [B0(n)] else if q[3] == '=' then [B0(n), B1(n)] else [B0(n), B1(n), B2(n)]
  {
  }

  lemma GroupBytes(bytes: seq<Byte>)
    ensures var n := Word(bytes); B0(n) == At(bytes, 0) && B1(n) == At(bytes, 1) && B2(n) == At(bytes, 2)
  {
    WordBytes(At(bytes, 0), At(bytes, 1), At(bytes, 2));
  }

  lemma FirstBytes(bytes: seq<Byte>, a: Byte, b: Byte, c: Byte)
    requires 1 <= |bytes| <= 3 && a == At(bytes, 0) && b == At(bytes, 1) && c == At(bytes, 2)
    ensures bytes == if |bytes| < 2 then [a] else if |bytes| < 3 then [a, b] else [a, b, c]
  {
  }

  /** The digits of a group, with a zero for each pad, make its word again. */
  lemma GroupWord(bytes: seq<Byte>)
    requires 1 <= |bytes| <= 3
    ensures var q := EncodeGroup(bytes);
            && IsQuad(q)
            && Joined(ValueOf(q[0]), ValueOf(q[1]), PaddedValue(q[2]), PaddedValue(q[3])) == Word(bytes)
            && (q[2] == '=' <==> |bytes| < 2) && (q[3] == '=' <==> |bytes| < 3)
  {
    var n := Word(bytes);
    JoinDigits(n);
    PaddingDigits(At(bytes, 0), At(bytes, 1));
    assert |bytes| < 2 ==> D2(n) == 0;
    assert |bytes| < 3 ==> D3(n) == 0;
    QuadValues(n, |bytes|, EncodeGroup(bytes));
  }

  lemma QuadValues(n: nat, count: nat, q: string)
    requires n < 0x100_0000 && |q| == 4 && q[0] == Digit(D0(n)) && q[1] == Digit(D1(n))
    requires q[2] == (if count > 1 then Digit(D2(n)) else '=') && (count < 2 ==> D2(n) == 0)
    requires q[3] == (if count > 2 then Digit(D3(n)) else '=') && (count < 3 ==> D3(n) == 0)
    ensures IsQuad(q)
    ensures ValueOf(q[0]) == D0(n) && ValueOf(q[1]) == D1(n)
    ensures PaddedValue(q[2]) == D2(n) && (q[2] == '=' <==> count < 2)
    ensures PaddedValue(q[3]) == D3(n) && (q[3] == '=' <==> count < 3)
  {
    DigitValue(D0(n));
    DigitValue(D1(n));
    DigitValue(D2(n));
    DigitValue(D3(n));
  }

  /** A strict decoder gives the bytes back. */
  lemma {:induction false} Base64RoundTrip(bytes: seq<Byte>)
    ensures Decode64(Encode64(bytes)) == Some(bytes)
    decreases |bytes|
  {
    if bytes == [] {
    } else if |bytes| <= 3 {
      LastGroupRoundTrip(bytes);
    } else {
      var head, tail := bytes[..3], bytes[3..];
      assert bytes == head + tail;
      Base64RoundTrip(tail);
      GroupsRoundTrip(head, tail);
    }
  }

  /** Every started group of three bytes takes four characters. */
  lemma {:induction false} Base64Length(bytes: seq<Byte>)
    ensures |Encode64(bytes)| == (|bytes| + 2) / 3 * 4
    decreases |bytes|
  {
    if |bytes| <= 3 {
    } else {
      Base64Length(bytes[3..]);
      assert (|bytes| + 2) / 3 == (|bytes[3..]| + 2) / 3 + 1;
    }
  }

  lemma LastGroupRoundTrip(bytes: seq<Byte>)
    requires 1 <= |bytes| <= 3
    ensures Decode64(EncodeGroup(bytes)) == Some(bytes)
  {
    GroupRoundTrip(bytes);
    DecodeAppend(EncodeGroup(bytes), "", []);
    assert EncodeGroup(bytes) + "" == EncodeGroup(bytes) && bytes + [] == bytes;
  }

  lemma GroupsRoundTrip(head: seq<Byte>, tail: seq<Byte>)
    requires |head| == 3 && tail != [] && Decode64(Encode64(tail)) == Some(tail)
    ensures Decode64(Encode64(head + tail)) == Some(head + tail)
  {
    assert (head + tail)[..3] == head && (head + tail)[3..] == tail;
    GroupRoundTrip(head);
    GroupWord(head);
    DecodeAppend(EncodeGroup(head), Encode64(tail), tail);
  }

  lemma DecodeAppend(head: string, tail: string, rest: seq<Byte>)
    requires IsQuad(head) && (tail == "" || head[3] != '=') && Decode64(tail) == Some(rest)
    ensures Decode64(head + tail) == Some(DecodeGroup(head) + rest)
  {
    assert (head + tail)[..4] == head && (head + tail)[4..] == tail;
  }

  /** The bytes of the group at i. */
  function Group(bytes: seq<Byte>, i: nat): seq<Byte>
    requires i < |bytes|
  {
    if i + 3 <= |bytes| then bytes[i..i + 3] else bytes[i..]
  }

  /** What is still to be encoded from i on. */
  function From(bytes: seq<Byte>, i: nat): seq<Byte> {
    if i < |bytes| then bytes[i..] else []
  }

  lemma EncodeNext(out: string, bytes: seq<Byte>, i: nat)
    requires i < |bytes|
    ensures out + Encode64(From(bytes, i)) == out + EncodeGroup(Group(bytes, i)) + Encode64(From(bytes, i + 3))
  {
    var s := bytes[i..];
    if |s| > 3 {
      assert s[..3] == Group(bytes, i) && s[3..] == From(bytes, i + 3);
    } else {
      assert s == Group(bytes, i);
      assert EncodeGroup(s) + "" == EncodeGroup(s);
    }
  }

  method EncodeBase64(wasm: seq<Byte>) returns (encoded: string)
    ensures encoded == Encode64(wasm)
  {
    encoded := "";
    var i := 0;
    assert From(wasm, 0) == wasm;
    while i < |wasm|
      invariant 0 <= i
      invariant encoded + Encode64(From(wasm, i)) == Encode64(wasm)
      decreases |wasm| - i
    {
      EncodeNext(encoded, wasm, i);
      var group := EncodeOne(wasm, i);
      encoded := encoded + group;
      i := i + 3;
    }
    assert encoded + "" == encoded;
  }

  /** One turn of the loop. */
  method EncodeOne(wasm: seq<Byte>, i: nat) returns (encoded: string)
    requires i < |wasm|
    ensures encoded == EncodeGroup(Group(wasm, i))
  {
    var n: nat := wasm[i] as int * 0x1_0000;
    if i + 1 < |wasm| { n := n + wasm[i + 1] as int * 0x100; }
    if i + 2 < |wasm| { n := n + wasm[i + 2] as int; }
    assert n == Word(Group(wasm, i));
    encoded := [Digit(D0(n))];
    encoded := encoded + [Digit(D1(n))];
    encoded := encoded + [if i + 1 < |wasm| then Digit(D2(n)) else '='];
    encoded := encoded + [if i + 2 < |wasm| then Digit(D3(n)) else '='];
  }
}
