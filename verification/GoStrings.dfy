/** The few Go library functions on strings and numbers that the codecs use. A string is the sequence
    of its Unicode characters. */
module GoStrings {
  import opened Wrappers

  // ---- strconv ----

  function DigitOf(c: char): Option<nat> {
    if '0' <= c <= '9' then Some(c as int - '0' as int)
    else if 'a' <= c <= 'z' then Some(c as int - 'a' as int + 10)
    else if 'A' <= c <= 'Z' then Some(c as int - 'A' as int + 10)
    else None
  }

  function DigitChar(d: nat): char
    requires d < 10
  {
    ('0' as int + d) as char
  }

  function FormatUint(n: nat): string {
    if n < 10 then [DigitChar(n)] else FormatUint(n / 10) + [DigitChar(n % 10)]
  }

  /** The number that a string of digits of the base denotes. */
  function Digits(s: string, base: nat): Option<nat> {
    if s == "" then Some(0)
    else
      match (Digits(s[..|s| - 1], base), DigitOf(s[|s| - 1]))
      case (Some(n), Some(d)) => if d < base then Some(n * base + d) else None
      case _ => None
  }

  /** Fails on the empty string, on any other character, and on values that do not stay below the limit. */
  function ParseUint(s: string, base: nat, limit: nat): Option<nat> {
    if s == "" then None
    else
      match Digits(s, base)
      case Some(n) => if n < limit then Some(n) else None
      case None => None
  }

  predicate IsDecimal(s: string) {
    forall c :: c in s ==> '0' <= c <= '9'
  }

  lemma {:induction false} FormatDigits(n: nat)
    ensures FormatUint(n) != "" && IsDecimal(FormatUint(n)) && Digits(FormatUint(n), 10) == Some(n)
  {
    if n >= 10 {
      FormatDigits(n / 10);
      var init := FormatUint(n / 10);
      assert FormatUint(n)[..|FormatUint(n)| - 1] == init;
    } else {
      assert FormatUint(n)[..0] == "";
      assert Digits("", 10) == Some(0);
    }
  }

  /** Printing and parsing again gives the number back exactly when it is within the limit. */
  lemma FormatParse(n: nat, limit: nat)
    ensures ParseUint(FormatUint(n), 10, limit) == if n < limit then Some(n) else None
    ensures FormatUint(n) != "" && IsDecimal(FormatUint(n))
  {
    FormatDigits(n);
  }

  // ---- strings ----

  /** The position of the first occurrence, or the length of the string. */
  function Index(s: string, c: char): (i: nat)
    ensures i <= |s| && c !in s[..i] && (i < |s| ==> s[i] == c)
  {
    if s == "" || s[0] == c then 0 else 1 + Index(s[1..], c)
  }

  lemma IndexUnique(s: string, c: char, i: nat)
    requires i < |s| && s[i] == c && c !in s[..i]
    ensures Index(s, c) == i
  {
  }

  lemma IndexAbsent(s: string, c: char)
    requires c !in s
    ensures Index(s, c) == |s|
  {
  }

  /** The pieces between the separators; always at least one. */
  function Split(s: string, sep: char): (parts: seq<string>)
    ensures parts != [] && forall p :: p in parts ==> sep !in p
    decreases |s|
  {
    var i := Index(s, sep);
    if i == |s| then
      assert sep !in s by {
        assert s[..i] == s;
      }
      [s]
    else [s[..i]] + Split(s[i + 1..], sep)
  }

  function Join(parts: seq<string>, sep: char): string {
    if parts == [] then "" else if |parts| == 1 then parts[0]
    else parts[0] + [sep] + Join(parts[1..], sep)
  }

  lemma JoinOne(part: string, sep: char)
    ensures Join([part], sep) == part
  {
  }

  lemma {:induction false} JoinSnoc(parts: seq<string>, last: string, sep: char)
    requires parts != []
    ensures Join(parts + [last], sep) == Join(parts, sep) + [sep] + last
  {
    if |parts| > 1 {
      JoinSnoc(parts[1..], last, sep);
      assert (parts + [last])[1..] == parts[1..] + [last];
    }
  }

  lemma SplitNothing(s: string, sep: char)
    requires sep !in s
    ensures Split(s, sep) == [s]
  {
    IndexAbsent(s, sep);
  }

  lemma SplitFirst(first: string, rest: string, sep: char)
    requires sep !in first
    ensures Split(first + [sep] + rest, sep) == [first] + Split(rest, sep)
  {
    hide Index;
    var s := first + [sep] + rest;
    assert s[..|first|] == first && s[|first|] == sep && s[|first| + 1..] == rest;
    IndexUnique(s, sep, |first|);
  }

  lemma {:induction false} SplitJoin(parts: seq<string>, sep: char)
    requires parts != [] && forall p :: p in parts ==> sep !in p
    ensures Split(Join(parts, sep), sep) == parts
    decreases |parts|
  {
    hide Split;
    assert parts[0] in parts;
    if |parts| == 1 {
      SplitNothing(parts[0], sep);
      assert parts == [parts[0]];
    } else {
      SplitFirst(parts[0], Join(parts[1..], sep), sep);
      SplitJoin(parts[1..], sep);
      assert parts == [parts[0]] + parts[1..];
    }
  }

  /** Unicode white space. */
  predicate IsSpace(c: char) {
    || '\t' <= c <= '\r' || c == ' ' || c == '\U{85}' || c == '\U{A0}' || c == '\U{1680}'
    || '\U{2000}' <= c <= '\U{200A}' || c == '\U{2028}' || c == '\U{2029}' || c == '\U{202F}'
    || c == '\U{205F}' || c == '\U{3000}'
  }

  function TrimLeft(s: string): string {
    if s != "" && IsSpace(s[0]) then TrimLeft(s[1..]) else s
  }

  function TrimRight(s: string): string {
    if s != "" && IsSpace(s[|s| - 1]) then TrimRight(s[..|s| - 1]) else s
  }

  function TrimSpace(s: string): string {
    TrimRight(TrimLeft(s))
  }

  /** No white space at either end. */
  predicate Trimmed(s: string) {
    s == "" || (!IsSpace(s[0]) && !IsSpace(s[|s| - 1]))
  }

  lemma TrimsNothing(s: string)
    requires Trimmed(s)
    ensures TrimSpace(s) == s
  {
  }

  lemma {:induction false} TrimLeftStarts(s: string)
    ensures TrimLeft(s) == "" || !IsSpace(TrimLeft(s)[0])
  {
    if s != "" && IsSpace(s[0]) {
      TrimLeftStarts(s[1..]);
    }
  }

  lemma {:induction false} TrimRightEnds(s: string)
    requires s == "" || !IsSpace(s[0])
    ensures Trimmed(TrimRight(s))
  {
    if s != "" && IsSpace(s[|s| - 1]) {
      TrimRightEnds(s[..|s| - 1]);
    }
  }

  lemma TrimSpaceTrims(s: string)
    ensures Trimmed(TrimSpace(s))
  {
    TrimLeftStarts(s);
    TrimRightEnds(TrimLeft(s));
  }

  predicate Blank(s: string) {
    forall c :: c in s ==> IsSpace(c)
  }

  lemma {:induction false} TrimLeftPads(a: string, s: string)
    requires Blank(a) && (s == "" || !IsSpace(s[0]))
    ensures TrimLeft(a + s) == s
  {
    hide IsSpace;
    if a != "" {
      assert a[0] in a && (a + s)[1..] == a[1..] + s;
      TrimLeftPads(a[1..], s);
    } else {
      assert a + s == s;
    }
  }

  lemma {:induction false} TrimRightPads(s: string, b: string)
    requires Blank(b) && (s == "" || !IsSpace(s[|s| - 1]))
    ensures TrimRight(s + b) == s
  {
    hide IsSpace;
    if b != "" {
      assert b[|b| - 1] in b && (s + b)[..|s + b| - 1] == s + b[..|b| - 1];
      TrimRightPads(s, b[..|b| - 1]);
    } else {
      assert s + b == s;
    }
  }

  /** Trimming removes exactly the white space around a text. */
  lemma TrimPads(a: string, s: string, b: string)
    requires Blank(a) && Blank(b) && Trimmed(s) && s != ""
    ensures TrimSpace(a + s + b) == s
  {
    assert a + s + b == a + (s + b);
    TrimLeftPads(a, s + b);
    TrimRightPads(s, b);
  }

  lemma TrimBlank(a: string)
    requires Blank(a)
    ensures TrimSpace(a) == ""
  {
    TrimLeftPads(a, "");
    assert a + "" == a;
  }

  /** The white space of the ASCII range: tab, line feed, vertical tab, form feed, carriage return, space. */
  lemma AsciiSpace(c: char)
    requires c < '\U{80}'
    ensures IsSpace(c) <==> c == '\t' || c == '\n' || c == '\U{0B}' || c == '\U{0C}' || c == '\r' || c == ' '
  {
  }

  // ---- Hexadecimal ----

  function HexChar(d: nat): char
    requires d < 16
  {
    "0123456789abcdef"[d]
  }

  function FormatHex(n: nat): string {
    if n < 16 then [HexChar(n)] else FormatHex(n / 16) + [HexChar(n % 16)]
  }

  lemma HexCharReads(d: nat)
    requires d < 16
    ensures DigitOf(HexChar(d)) == Some(d)
  {
  }

  /** Hexadecimal digits denote the number they were made from. */
  lemma {:induction false} FormatHexDigits(n: nat)
    ensures FormatHex(n) != "" && Digits(FormatHex(n), 16) == Some(n)
    ensures forall c :: c in FormatHex(n) ==> '0' <= c <= '9' || 'a' <= c <= 'f'
  {
    hide HexChar, DigitOf;
    if n >= 16 {
      FormatHexDigits(n / 16);
      HexCharReads(n % 16);
      var init := FormatHex(n / 16);
      assert FormatHex(n)[..|FormatHex(n)| - 1] == init;
      HexCharRange(n % 16);
    } else {
      assert FormatHex(n)[..0] == "";
      assert Digits("", 16) == Some(0);
      HexCharReads(n);
      HexCharRange(n);
    }
  }

  lemma HexCharRange(d: nat)
    requires d < 16
    ensures '0' <= HexChar(d) <= '9' || 'a' <= HexChar(d) <= 'f'
  {
  }

  /** A text that does not start with a decimal digit is no decimal number. */
  lemma {:induction false} NoDigits(s: string)
    requires s != "" && !('0' <= s[0] <= '9')
    ensures Digits(s, 10) == None
  {
    if |s| > 1 {
      NoDigits(s[..|s| - 1]);
    }
  }
}
