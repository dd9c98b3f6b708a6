/** The query-string encoding the client applies to request parameters before
    they become part of a cache key: `urllib.parse.urlencode` with its default
    `quote_plus`, on string keys and values. Each character is kept when it is
    always safe, a space becomes '+', and anything else becomes the '%XX'
    escapes of its UTF-8 bytes. The point of this module is that the encoding
    loses nothing: different parameter lists give different query strings. */
module UrlEncoding {

  type Byte = b: int | 0 <= b < 256

  /** The characters `quote` never escapes. */
  predicate AlwaysSafe(c: char)
  {
    ('A' <= c <= 'Z') || ('a' <= c <= 'z') || ('0' <= c <= '9') || c == '_' || c == '.' || c == '-' || c == '~'
  }

  /** The number of bytes of a UTF-8 sequence, read from its leading byte. */
  function SequenceLength(lead: Byte): nat
  {
    if lead < 0x80 then 1 else if lead < 0xE0 then 2 else if lead < 0xF0 then 3 else 4
  }

  /** The code point a well-formed UTF-8 sequence of 1 to 4 bytes stands for. */
  function CodePoint(bs: seq<Byte>): int
    requires 1 <= |bs| <= 4
  {
    var b := seq(|bs|, i requires 0 <= i < |bs| => bs[i] as int);
    match |bs|
    case 1 => b[0]
    case 2 => (b[0] - 0xC0) * 64 + (b[1] - 0x80)
    case 3 => (b[0] - 0xE0) * 4096 + (b[1] - 0x80) * 64 + (b[2] - 0x80)
    case 4 => (b[0] - 0xF0) * 262144 + (b[1] - 0x80) * 4096 + (b[2] - 0x80) * 64 + (b[3] - 0x80)
  }

  /** The UTF-8 encoding of one character (`c.encode("utf-8")`): the code
      point's bits, six at a time from the lowest, go into continuation bytes,
      and what is left goes into the leading byte. */
  function Utf8(c: char): (bs: seq<Byte>)
    ensures 1 <= |bs| <= 4
    ensures |bs| == SequenceLength(bs[0])
    ensures CodePoint(bs) == c as int
    ensures forall k :: 1 <= k < |bs| ==> 0x80 <= bs[k] < 0xC0
    ensures c as int < 0x80 ==> |bs| == 1
    ensures 0x80 <= c as int < 0x800 ==> |bs| == 2
    ensures 0x800 <= c as int < 0x10000 ==> |bs| == 3
    ensures 0x10000 <= c as int ==> |bs| == 4
  {
    var n := c as int;
    var low, n1 := n % 64, n / 64;
    var mid, n2 := n1 % 64, n1 / 64;
    var high, n3 := n2 % 64, n2 / 64;
    if n < 0x80 then [n]
    else if n < 0x800 then [0xC0 + n1, 0x80 + low]
    else if n < 0x10000 then [0xE0 + n2, 0x80 + mid, 0x80 + low]
    else [0xF0 + n3, 0x80 + high, 0x80 + mid, 0x80 + low]
  }

  const HexDigits: string := "0123456789ABCDEF"

  /** '%' and two upper-case hexadecimal digits, as `quote` writes a byte. */
  function Escape(b: Byte): (s: string)
    ensures |s| == 3 && s[0] == '%' && AlwaysSafe(s[1]) && AlwaysSafe(s[2])
  {
    ['%', HexDigits[b / 16], HexDigits[b % 16]]
  }

  /** The digit value of an upper-case hexadecimal digit. */
  function HexValue(c: char): int
  {
    if c <= '9' then c as int - '0' as int else c as int - 'A' as int + 10
  }

  lemma EscapeInjective(a: Byte, b: Byte)
    requires Escape(a) == Escape(b)
    ensures a == b
  {
    assert forall i :: 0 <= i < 16 ==> HexValue(HexDigits[i]) == i;
    assert Escape(a)[1] == Escape(b)[1] && Escape(a)[2] == Escape(b)[2];
  }

  /** The escapes of a byte sequence, one after the other. */
  function EscapeAll(bs: seq<Byte>): (s: string)
    ensures |s| == 3 * |bs|
    ensures forall i :: 0 <= i < |bs| ==> s[3 * i..3 * i + 3] == Escape(bs[i])
  {
    if bs == [] then []
    else
      var rest := EscapeAll(bs[1..]);
      var s := Escape(bs[0]) + rest;
      assert forall i :: 1 <= i < |bs| ==> s[3 * i..3 * i + 3] == rest[3 * (i - 1)..3 * (i - 1) + 3];
      s
  }

  lemma EscapeAllInjective(bs: seq<Byte>, cs: seq<Byte>)
    requires |bs| == |cs| && EscapeAll(bs) == EscapeAll(cs)
    ensures bs == cs
  {
    forall i | 0 <= i < |bs| ensures bs[i] == cs[i] {
      assert EscapeAll(bs)[3 * i..3 * i + 3] == EscapeAll(cs)[3 * i..3 * i + 3];
      EscapeInjective(bs[i], cs[i]);
    }
  }

  /** Characters that can occur in the output of `QuoteChar`. */
  predicate QuotedChar(c: char)
  {
    AlwaysSafe(c) || c == '+' || c == '%'
  }

  lemma {:induction false} EscapeAllExcludes(bs: seq<Byte>, ch: char)
    requires !QuotedChar(ch)
    ensures ch !in EscapeAll(bs)
  {
    if bs != [] {
      EscapeAllExcludes(bs[1..], ch);
    }
  }

  /** `quote_plus` applied to one character. */
  function QuoteChar(c: char): (s: string)
    ensures |s| >= 1
  {
    if AlwaysSafe(c) then [c]
    else if c == ' ' then "+"
    else
      EscapeAll(Utf8(c))
  }

  /** No quoted character is a prefix of the quoting of another one, so a
      quoted string can be cut back into its characters in one way only. */
  lemma {:induction false} QuoteCharPrefixFree(c: char, d: char, x: string, y: string)
    requires QuoteChar(c) + x == QuoteChar(d) + y
    ensures c == d && x == y
  {
    var s, t := QuoteChar(c), QuoteChar(d);
    assert (s + x)[0] == s[0] && (t + y)[0] == t[0];
    if !AlwaysSafe(c) && c != ' ' {
      assert !AlwaysSafe(d) && d != ' ';
      var u, v := Utf8(c), Utf8(d);
      assert s[..3] == Escape(u[0]) && t[..3] == Escape(v[0]);
      assert (s + x)[..3] == s[..3] && (t + y)[..3] == t[..3];
      EscapeInjective(u[0], v[0]);
      assert |s| == |t|;
      assert s == (s + x)[..|s|] && t == (t + y)[..|t|];
      EscapeAllInjective(u, v);
    }
    assert |s| == |t|;
    assert s == (s + x)[..|s|] && t == (t + y)[..|t|];
    assert x == (s + x)[|s|..] && y == (t + y)[|t|..];
  }

  /** `quote_plus(s)`. */
  function Quote(s: string): (q: string)
    ensures |q| >= |s|
    ensures q == [] <==> s == []
  {
    if s == [] then [] else QuoteChar(s[0]) + Quote(s[1..])
  }

  /** A string of always-safe characters is left as it is. */
  lemma {:induction false} QuoteKeepsSafe(s: string)
    requires forall i :: 0 <= i < |s| ==> AlwaysSafe(s[i])
    ensures Quote(s) == s
  {
    if s != [] {
      QuoteKeepsSafe(s[1..]);
      assert s == [s[0]] + s[1..];
    }
  }

  lemma {:induction false} QuoteInjective(s: string, t: string)
    requires Quote(s) == Quote(t)
    ensures s == t
  {
    if s != [] && t != [] {
      QuoteCharPrefixFree(s[0], t[0], Quote(s[1..]), Quote(t[1..]));
      QuoteInjective(s[1..], t[1..]);
    }
  }

  /** One `key=value` field of a query string. */
  function Field(item: (string, string)): string
  {
    Quote(item.0) + "=" + Quote(item.1)
  }

  /** `urlencode(items)`: the fields joined by '&'. */
  function UrlEncode(items: seq<(string, string)>): (r: string)
    ensures r == "" <==> items == []
  {
    if items == [] then "" else Field(items[0]) + AmpersandFields(items[1..])
  }

  /** Each field preceded by '&': what follows the first field in `urlencode`. */
  function AmpersandFields(items: seq<(string, string)>): (s: string)
    ensures s == [] || s[0] == '&'
  {
    if items == [] then "" else "&" + (Field(items[0]) + AmpersandFields(items[1..]))
  }

  /** Splitting at the first separator: when neither prefix contains `sep`
      and both remainders are empty or start with `sep`, the prefixes agree. */
  lemma SplitAtSeparator(a: string, x: string, b: string, y: string, sep: char)
    requires a + x == b + y
    requires sep !in a && sep !in b
    requires x == [] || x[0] == sep
    requires y == [] || y[0] == sep
    ensures a == b && x == y
  {
    assert a == (a + x)[..|a|] && b == (b + y)[..|b|];
    assert x == (a + x)[|a|..] && y == (b + y)[|b|..];
  }

  /** `quote_plus` writes only safe characters, '+' and '%'. */
  lemma {:induction false} QuoteExcludes(s: string, ch: char)
    requires !QuotedChar(ch)
    ensures ch !in Quote(s)
  {
    if s != [] {
      if !AlwaysSafe(s[0]) && s[0] != ' ' {
        EscapeAllExcludes(Utf8(s[0]), ch);
      }
      QuoteExcludes(s[1..], ch);
    }
  }

  /** Cutting `key=value` followed by '&' or nothing back into its parts. */
  lemma SplitField(a: string, b: string, c: string, d: string, x: string, y: string)
    requires a + "=" + b + x == c + "=" + d + y
    requires '&' !in a && '=' !in a && '&' !in b
    requires '&' !in c && '=' !in c && '&' !in d
    requires x == [] || x[0] == '&'
    requires y == [] || y[0] == '&'
    ensures a == c && b == d && x == y
  {
    var f, g := a + "=" + b, c + "=" + d;
    assert '&' !in f && '&' !in g;
    assert f + x == g + y;
    SplitAtSeparator(f, x, g, y, '&');
    assert f == a + ("=" + b) && g == c + ("=" + d);
    SplitAtSeparator(a, "=" + b, c, "=" + d, '=');
    assert b == ("=" + b)[1..] && d == ("=" + d)[1..];
  }

  lemma FieldInjective(p: (string, string), q: (string, string), x: string, y: string)
    requires Field(p) + x == Field(q) + y
    requires x == [] || x[0] == '&'
    requires y == [] || y[0] == '&'
    ensures p == q && x == y
  {
    QuoteExcludes(p.0, '&'); QuoteExcludes(p.1, '&');
    QuoteExcludes(q.0, '&'); QuoteExcludes(q.1, '&');
    QuoteExcludes(p.0, '='); QuoteExcludes(q.0, '=');
    SplitField(Quote(p.0), Quote(p.1), Quote(q.0), Quote(q.1), x, y);
    QuoteInjective(p.0, q.0);
    QuoteInjective(p.1, q.1);
  }

  lemma {:induction false} AmpersandFieldsInjective(ps: seq<(string, string)>, qs: seq<(string, string)>)
    requires AmpersandFields(ps) == AmpersandFields(qs)
    ensures ps == qs
  {
    if ps != [] && qs != [] {
      var x, y := AmpersandFields(ps[1..]), AmpersandFields(qs[1..]);
      var f, g := Field(ps[0]) + x, Field(qs[0]) + y;
      assert f == ("&" + f)[1..] && g == ("&" + g)[1..];
      FieldInjective(ps[0], qs[0], x, y);
      AmpersandFieldsInjective(ps[1..], qs[1..]);
      assert ps == [ps[0]] + ps[1..] && qs == [qs[0]] + qs[1..];
    }
  }

  /** The query string determines the parameter list it was made from. */
  lemma {:induction false} UrlEncodeInjective(ps: seq<(string, string)>, qs: seq<(string, string)>)
    requires UrlEncode(ps) == UrlEncode(qs)
    ensures ps == qs
  {
    if ps != [] && qs != [] {
      FieldInjective(ps[0], qs[0], AmpersandFields(ps[1..]), AmpersandFields(qs[1..]));
      AmpersandFieldsInjective(ps[1..], qs[1..]);
      assert ps == [ps[0]] + ps[1..] && qs == [qs[0]] + qs[1..];
    }
  }
}
