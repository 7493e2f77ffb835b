/**
 * The fragment of Go's JSON encoding that a container's config hash is taken of, and the
 * fact that makes the hash meaningful: every piece of it is a prefix code, so the text can
 * be read back in one way only.
 */
module Json {
  import opened Text

  // What follows an encoded value never changes how the value reads.
  ghost predicate PrefixCode<T(!new)>(f: T -> string) {
    forall x, y, r, s :: f(x) + r == f(y) + s ==> x == y && r == s
  }

  function Hex(n: nat): char
    requires n < 16
  {
    "0123456789abcdef"[n]
  }

  function HexValue(c: char): int {
    if '0' <= c <= '9' then c as int - '0' as int else c as int - 'a' as int + 10
  }

  // The escapes of encoding/json with HTML escaping on.
  function EscapeChar(c: char): string {
    var n := c as int;
    if c == '"' || c == '\\' then ['\\', c]
    else if n == 8 then "\\b"
    else if n == 12 then "\\f"
    else if c == '\n' then "\\n"
    else if c == '\r' then "\\r"
    else if c == '\t' then "\\t"
    else if n < 0x20 || c == '<' || c == '>' || c == '&' then ['\\', 'u', '0', '0', Hex(n / 16), Hex(n % 16)]
    else if n == 0x2028 then "\\u2028"
    else if n == 0x2029 then "\\u2029"
    else [c]
  }

  // The escapes in full: quote and backslash behind a backslash, the usual letters, and the
  // characters HTML minds, which are given as numbers; everything printable stays otherwise.
  lemma EscapedInFull(c: char)
    ensures c in {'"', '\\'} ==> EscapeChar(c) == ['\\', c]
    ensures EscapeChar('\n') == "\\n" && EscapeChar('\r') == "\\r" && EscapeChar('\t') == "\\t"
    ensures EscapeChar('<') == "\\u003c" && EscapeChar('>') == "\\u003e" && EscapeChar('&') == "\\u0026"
    ensures ' ' <= c && c !in {'"', '\\', '<', '>', '&', '\U{002028}', '\U{002029}'} ==> EscapeChar(c) == [c]
  {
  }

  // Reads one character off an escaped text: the character's number and its width.
  function ReadChar(t: string): (int, nat)
    requires t != ""
  {
    if t[0] != '\\' || |t| < 2 then (t[0] as int, 1)
    else
      match t[1]
      case 'b' => (8, 2)
      case 'f' => (12, 2)
      case 'n' => (10, 2)
      case 'r' => (13, 2)
      case 't' => (9, 2)
      case 'u' =>
        if |t| < 6 then (0, 6)
        else (((HexValue(t[2]) * 16 + HexValue(t[3])) * 16 + HexValue(t[4])) * 16 + HexValue(t[5]), 6)
      case _ => (t[1] as int, 2)
  }

  lemma HexRoundTrip(n: nat)
    requires n < 16
    ensures HexValue(Hex(n)) == n
  {
  }

  lemma ReadEscaped(c: char, r: string)
    ensures ReadChar(EscapeChar(c) + r) == (c as int, |EscapeChar(c)|)
  {
    var n := c as int;
    if n < 256 {
      HexRoundTrip(n / 16);
      HexRoundTrip(n % 16);
    }
    hide HexValue;
    HexDigits028();
  }

  lemma HexDigits028()
    ensures HexValue('0') == 0 && HexValue('2') == 2 && HexValue('8') == 8 && HexValue('9') == 9
  {
  }

  lemma EscapeCharPrefixCode(a: char, b: char, r: string, s: string)
    requires EscapeChar(a) + r == EscapeChar(b) + s
    ensures a == b && r == s
  {
    ReadEscaped(a, r);
    ReadEscaped(b, s);
    hide EscapeChar, ReadChar;
    assert a as int == b as int;
    DropHead(EscapeChar(a), r, s);
  }

  function Escape(s: string): string {
    if s == "" then "" else EscapeChar(s[0]) + Escape(s[1..])
  }

  function Str(s: string): string {
    "\"" + Escape(s) + "\""
  }

  lemma NeverQuote(c: char)
    ensures EscapeChar(c) != "" && EscapeChar(c)[0] != '"'
  {
  }

  lemma {:induction false} StrUnique(a: string, b: string, r: string, s: string)
    requires Escape(a) + "\"" + r == Escape(b) + "\"" + s
    ensures a == b && r == s
    decreases |a|
  {
    hide EscapeChar;
    if a == "" || b == "" {
      StrEnds(a, b, r, s);
    } else {
      var ra, rb := Escape(a[1..]) + "\"" + r, Escape(b[1..]) + "\"" + s;
      assert EscapeChar(a[0]) + ra == Escape(a) + "\"" + r;
      assert EscapeChar(b[0]) + rb == Escape(b) + "\"" + s;
      EscapeCharPrefixCode(a[0], b[0], ra, rb);
      StrUnique(a[1..], b[1..], r, s);
      assert a == [a[0]] + a[1..] && b == [b[0]] + b[1..];
    }
  }

  lemma QuoteFirst(a: string, r: string)
    ensures (Escape(a) + "\"" + r)[0] == '"' <==> a == ""
  {
    if a != "" {
      NeverQuote(a[0]);
      assert (Escape(a) + "\"" + r)[0] == EscapeChar(a[0])[0];
    }
  }

  lemma StrEnds(a: string, b: string, r: string, s: string)
    requires Escape(a) + "\"" + r == Escape(b) + "\"" + s
    requires a == "" || b == ""
    ensures a == b && r == s
  {
    QuoteFirst(a, r);
    QuoteFirst(b, s);
    assert r == (Escape("") + "\"" + r)[1..] && s == (Escape("") + "\"" + s)[1..];
  }

  lemma StrStep(x: string, y: string, r: string, s: string)
    requires Str(x) + r == Str(y) + s
    ensures x == y && r == s
  {
    hide Escape;
    var a, b := Escape(x) + "\"" + r, Escape(y) + "\"" + s;
    assert Str(x) + r == "\"" + a && Str(y) + s == "\"" + b;
    DropHead("\"", a, b);
    StrUnique(x, y, r, s);
  }

  lemma StrPrefixCode()
    ensures PrefixCode(Str)
  {
    hide Str;
    forall x, y, r, s | Str(x) + r == Str(y) + s ensures x == y && r == s {
      StrStep(x, y, r, s);
    }
  }

  // The elements after the first, then the closing bracket.
  function More<T>(f: T -> string, close: char, xs: seq<T>): string {
    if xs == [] then [close] else "," + (f(xs[0]) + More(f, close, xs[1..]))
  }

  // A list in brackets, separated by commas.
  function List<T>(f: T -> string, open: char, close: char, xs: seq<T>): string {
    [open] + (if xs == [] then [close] else f(xs[0]) + More(f, close, xs[1..]))
  }

  lemma {:induction false} MoreUnique<T(!new)>(f: T -> string, close: char, xs: seq<T>, ys: seq<T>, r: string,
      s: string)
    requires PrefixCode(f) && close != ','
    requires More(f, close, xs) + r == More(f, close, ys) + s
    ensures xs == ys && r == s
    decreases |xs|
  {
    var left, right := More(f, close, xs) + r, More(f, close, ys) + s;
    assert left[0] == (if xs == [] then close else ',') && right[0] == (if ys == [] then close else ',');
    if xs == [] {
      assert r == left[1..] && s == right[1..];
    } else {
      var mx, my := More(f, close, xs[1..]) + r, More(f, close, ys[1..]) + s;
      assert left[1..] == f(xs[0]) + mx && right[1..] == f(ys[0]) + my;
      MoreUnique(f, close, xs[1..], ys[1..], r, s);
      assert xs == [xs[0]] + xs[1..] && ys == [ys[0]] + ys[1..];
    }
  }

  // No encoded element is empty or starts with the closing bracket.
  ghost predicate Opens<T(!new)>(f: T -> string, close: char) {
    forall x :: f(x) != "" && f(x)[0] != close
  }

  lemma ListUnique<T(!new)>(f: T -> string, open: char, close: char, xs: seq<T>, ys: seq<T>, r: string, s: string)
    requires PrefixCode(f) && Opens(f, close) && close != ','
    requires List(f, open, close, xs) + r == List(f, open, close, ys) + s
    ensures xs == ys && r == s
  {
    var left, right := List(f, open, close, xs) + r, List(f, open, close, ys) + s;
    assert xs != [] ==> left[1] == f(xs[0])[0];
    assert ys != [] ==> right[1] == f(ys[0])[0];
    assert xs == [] <==> ys == [];
    if xs == [] {
      assert r == left[2..] && s == right[2..];
    } else {
      var mx, my := More(f, close, xs[1..]) + r, More(f, close, ys[1..]) + s;
      assert left[1..] == f(xs[0]) + mx && right[1..] == f(ys[0]) + my;
      MoreUnique(f, close, xs[1..], ys[1..], r, s);
      assert xs == [xs[0]] + xs[1..] && ys == [ys[0]] + ys[1..];
    }
  }

  // A Go slice or map: nil encodes differently from empty.
  datatype Slice<+T> = Nil | Items(items: seq<T>)

  function SliceText<T>(f: T -> string, open: char, close: char, v: Slice<T>): string {
    match v
    case Nil => "null"
    case Items(xs) => List(f, open, close, xs)
  }

  lemma SliceUnique<T(!new)>(f: T -> string, open: char, close: char, v: Slice<T>, w: Slice<T>, r: string, s: string)
    requires PrefixCode(f) && Opens(f, close) && close != ',' && open != 'n'
    requires SliceText(f, open, close, v) + r == SliceText(f, open, close, w) + s
    ensures v == w && r == s
  {
    var left, right := SliceText(f, open, close, v) + r, SliceText(f, open, close, w) + s;
    assert left[0] == (if v.Nil? then 'n' else open) && right[0] == (if w.Nil? then 'n' else open);
    if v.Nil? {
      DropHead("null", r, s);
    } else {
      ListUnique(f, open, close, v.items, w.items, r, s);
    }
  }

  function Digits(n: nat): (d: string)
    ensures d != "" && forall c :: c in d ==> '0' <= c <= '9'
  {
    if n < 10 then [(n + '0' as int) as char] else Digits(n / 10) + [(n % 10 + '0' as int) as char]
  }

  function Number(n: int): (d: string)
    ensures ',' !in d
  {
    if n < 0 then "-" + Digits(-n) else Digits(n)
  }

  lemma {:induction false} DigitsInjective(m: nat, n: nat)
    requires Digits(m) == Digits(n)
    ensures m == n
  {
    var d, e := Digits(m), Digits(n);
    assert d[|d| - 1] == (m % 10 + '0' as int) as char && e[|e| - 1] == (n % 10 + '0' as int) as char;
    assert d[..|d| - 1] == (if m < 10 then "" else Digits(m / 10));
    assert e[..|e| - 1] == (if n < 10 then "" else Digits(n / 10));
    if m >= 10 && n >= 10 {
      DigitsInjective(m / 10, n / 10);
    }
  }

  // A number is read up to the comma that follows it.
  lemma NumberUnique(m: int, n: int, r: string, s: string)
    requires Number(m) + "," + r == Number(n) + "," + s
    ensures m == n && r == s
  {
    SplitAtSeparator(Number(m), Number(n), r, s, ',');
    var d, e := Number(m), Number(n);
    assert m < 0 ==> d[0] == '-' && d[1..] == Digits(-m);
    assert n < 0 ==> e[0] == '-' && e[1..] == Digits(-n);
    assert m >= 0 ==> d[0] in d && d[0] != '-';
    assert n >= 0 ==> e[0] in e && e[0] != '-';
    if m < 0 {
      DigitsInjective(-m, -n);
    } else {
      DigitsInjective(m, n);
    }
  }
}
