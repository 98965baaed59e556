/**
 * The pieces of Rust's standard library string behaviour that the analyzer
 * relies on: `str::len` (a UTF-8 byte count), `char::is_whitespace`,
 * `str::trim`, `str::split_whitespace`, the `Display` rendering of an
 * unsigned integer and the truncating `as u32` cast.
 */
module RustStr {

  /** Number of bytes the UTF-8 encoding of one Unicode scalar value takes. */
  function Utf8Width(c: char): (w: nat)
    ensures 1 <= w <= 4
    ensures w == 1 <==> c as int < 0x80
  {
    if c as int < 0x80 then 1
    else if c as int < 0x800 then 2
    else if c as int < 0x1_0000 then 3
    else 4
  }

  /** `str::len`: the length of a string in UTF-8 bytes, not in characters. */
  function ByteLen(s: string): (n: nat)
    ensures |s| <= n <= 4 * |s|
    decreases |s|
  {
    if s == [] then 0 else Utf8Width(s[0]) + ByteLen(s[1..])
  }

  predicate IsAscii(s: string) {
    forall i :: 0 <= i < |s| ==> s[i] as int < 0x80
  }

  /** On ASCII text the byte length and the character count agree. */
  lemma {:induction false} AsciiByteLen(s: string)
    requires IsAscii(s)
    ensures ByteLen(s) == |s|
    decreases |s|
  {
    if s != [] {
      assert IsAscii(s[1..]) by {
        forall i | 0 <= i < |s[1..]| ensures s[1..][i] as int < 0x80 {
          assert s[1..][i] == s[i + 1];
        }
      }
      AsciiByteLen(s[1..]);
    }
  }

  /** Any character outside ASCII makes the byte length exceed the character count. */
  lemma {:induction false} NonAsciiByteLen(s: string, k: nat)
    requires k < |s| && s[k] as int >= 0x80
    ensures ByteLen(s) > |s|
    decreases |s|
  {
    if k > 0 {
      NonAsciiByteLen(s[1..], k - 1);
    }
  }

  /** `char::is_whitespace`: the Unicode White_Space property, all 25 code points. */
  predicate IsWhitespace(c: char) {
    var n := c as int;
    (0x09 <= n <= 0x0D) || n == 0x20 || n == 0x85 || n == 0xA0 || n == 0x1680
    || (0x2000 <= n <= 0x200A) || n == 0x2028 || n == 0x2029 || n == 0x202F
    || n == 0x205F || n == 0x3000
  }

  predicate NoWhitespace(s: string) {
    forall i :: 0 <= i < |s| ==> !IsWhitespace(s[i])
  }

  /** Index of the first non-whitespace character (|s| when there is none). */
  function TrimStartIndex(s: string): (i: nat)
    ensures i <= |s|
    ensures forall k :: 0 <= k < i ==> IsWhitespace(s[k])
    ensures i < |s| ==> !IsWhitespace(s[i])
    decreases |s|
  {
    if s == [] || !IsWhitespace(s[0]) then 0 else 1 + TrimStartIndex(s[1..])
  }

  /** One past the last non-whitespace character (0 when there is none). */
  function TrimEndIndex(s: string): (j: nat)
    ensures j <= |s|
    ensures forall k :: j <= k < |s| ==> IsWhitespace(s[k])
    ensures 0 < j ==> !IsWhitespace(s[j - 1])
    decreases |s|
  {
    if s == [] || !IsWhitespace(s[|s| - 1]) then |s| else TrimEndIndex(s[..|s| - 1])
  }

  /**
   * `str::trim`: the longest infix of `s` that neither begins nor ends with
   * whitespace, everything cut away on either side being whitespace.
   */
  function Trim(s: string): (r: string)
    ensures var i := TrimStartIndex(s);
      i + |r| <= |s| && r == s[i..i + |r|]
      && forall k :: i + |r| <= k < |s| ==> IsWhitespace(s[k])
    ensures r != [] ==> !IsWhitespace(r[0]) && !IsWhitespace(r[|r| - 1])
  {
    var t := s[TrimStartIndex(s)..];
    t[..TrimEndIndex(t)]
  }

  /** Concatenation of a sequence of strings. */
  function Concat(ss: seq<string>): (r: string)
    decreases |ss|
  {
    if ss == [] then [] else Concat(ss[..|ss| - 1]) + ss[|ss| - 1]
  }

  lemma {:induction false} ConcatAppend(a: seq<string>, b: seq<string>)
    ensures Concat(a + b) == Concat(a) + Concat(b)
    decreases |b|
  {
    if b == [] {
      assert a + b == a;
    } else {
      assert (a + b)[..|a + b| - 1] == a + b[..|b| - 1];
      ConcatAppend(a, b[..|b| - 1]);
    }
  }

  /** The characters of `s` that are not whitespace, in order. */
  function DropWhitespace(s: string): (r: string)
    ensures NoWhitespace(r)
    ensures |r| <= |s|
    decreases |s|
  {
    if s == [] then []
    else if IsWhitespace(s[0]) then DropWhitespace(s[1..])
    else [s[0]] + DropWhitespace(s[1..])
  }

  /** A token of `split_whitespace`: non-empty and free of whitespace. */
  predicate IsWord(w: string) {
    w != [] && NoWhitespace(w)
  }

  /** The scanner behind `SplitWhitespace`; `cur` is the token being built. */
  function SplitFrom(s: string, cur: string): (ws: seq<string>)
    requires NoWhitespace(cur)
    ensures forall i :: 0 <= i < |ws| ==> IsWord(ws[i])
    ensures Concat(ws) == cur + DropWhitespace(s)
    decreases |s|
  {
    if s == [] then
      (if cur == [] then [] else [cur])
    else if IsWhitespace(s[0]) then
      var rest := SplitFrom(s[1..], []);
      ConcatAppend(if cur == [] then [] else [cur], rest);
      assert Concat([cur]) == cur by { assert [cur][..0] == []; }
      (if cur == [] then [] else [cur]) + rest
    else
      NoWhitespacePush(cur, s[0]);
      SplitFrom(s[1..], cur + [s[0]])
  }

  /**
   * `str::split_whitespace`: the maximal runs of non-whitespace characters.
   * Every token is a word, and the tokens together hold exactly the
   * non-whitespace characters of `s`, in order.
   */
  function SplitWhitespace(s: string): (ws: seq<string>)
    ensures forall i :: 0 <= i < |ws| ==> IsWord(ws[i])
    ensures Concat(ws) == DropWhitespace(s)
  {
    SplitFrom(s, [])
  }

  lemma NoWhitespacePush(cur: string, c: char)
    requires NoWhitespace(cur) && !IsWhitespace(c)
    ensures NoWhitespace(cur + [c])
  {
    forall i | 0 <= i < |cur + [c]| ensures !IsWhitespace((cur + [c])[i]) {
      if i < |cur| { assert (cur + [c])[i] == cur[i]; }
    }
  }

  lemma {:induction false} SplitFromAtWhitespace(a: string, c: char, b: string, cur: string)
    requires NoWhitespace(cur) && IsWhitespace(c)
    ensures SplitFrom(a + [c] + b, cur) == SplitFrom(a, cur) + SplitFrom(b, [])
    decreases |a|
  {
    var s := a + [c] + b;
    if a == [] {
      assert s[1..] == b;
    } else {
      assert s[0] == a[0];
      assert s[1..] == a[1..] + [c] + b;
      if IsWhitespace(a[0]) {
        SplitFromAtWhitespace(a[1..], c, b, []);
      } else {
        NoWhitespacePush(cur, a[0]);
        SplitFromAtWhitespace(a[1..], c, b, cur + [a[0]]);
      }
    }
  }

  lemma {:induction false} SplitFromWord(w: string, cur: string)
    requires NoWhitespace(cur) && NoWhitespace(w) && (w != [] || cur != [])
    ensures SplitFrom(w, cur) == [cur + w]
    decreases |w|
  {
    if w == [] {
      assert cur + w == cur;
    } else {
      NoWhitespacePush(cur, w[0]);
      assert (cur + [w[0]]) + w[1..] == cur + w;
      SplitFromWord(w[1..], cur + [w[0]]);
    }
  }

  /**
   * A whitespace character separates: the words around it are the words of
   * the text before it followed by the words of the text after it.
   */
  lemma SplitAtWhitespace(a: string, c: char, b: string)
    requires IsWhitespace(c)
    ensures SplitWhitespace(a + [c] + b) == SplitWhitespace(a) + SplitWhitespace(b)
  {
    SplitFromAtWhitespace(a, c, b, []);
  }

  /** A run without whitespace is one word; the empty text has none. */
  lemma SplitWord(w: string)
    requires NoWhitespace(w)
    ensures SplitWhitespace(w) == if w == [] then [] else [w]
  {
    if w != [] {
      SplitFromWord(w, []);
      assert [] + w == w;
    }
  }

  predicate IsDigit(c: char) {
    '0' <= c <= '9'
  }

  function DigitChar(d: nat): (c: char)
    requires d < 10
    ensures IsDigit(c)
  {
    ('0' as int + d) as char
  }

  function DigitValue(c: char): (d: nat)
    requires IsDigit(c)
    ensures d < 10 && DigitChar(d) == c
  {
    c as int - '0' as int
  }

  /**
   * `Display` for an unsigned integer: its decimal digits, most significant
   * first, with no leading zero.
   */
  function Decimal(n: nat): (s: string)
    ensures s != []
    ensures forall i :: 0 <= i < |s| ==> IsDigit(s[i])
    ensures s[0] == '0' ==> n == 0 && s == "0"
    decreases n
  {
    if n < 10 then [DigitChar(n)] else Decimal(n / 10) + [DigitChar(n % 10)]
  }

  /** The number a string of decimal digits denotes. */
  function DecimalValue(s: string): nat
    requires forall i :: 0 <= i < |s| ==> IsDigit(s[i])
    decreases |s|
  {
    if s == [] then 0 else 10 * DecimalValue(s[..|s| - 1]) + DigitValue(s[|s| - 1])
  }

  /** Reading back the rendered digits gives the number. */
  lemma {:induction false} DecimalRoundTrip(n: nat)
    ensures DecimalValue(Decimal(n)) == n
    decreases n
  {
    var s := Decimal(n);
    if n >= 10 {
      assert s[..|s| - 1] == Decimal(n / 10);
      DecimalRoundTrip(n / 10);
    }
  }

  /** Distinct numbers render differently. */
  lemma DecimalInjective(m: nat, n: nat)
    ensures Decimal(m) == Decimal(n) ==> m == n
  {
    DecimalRoundTrip(m);
    DecimalRoundTrip(n);
  }

  const U32_MODULUS: nat := 0x1_0000_0000

  /** `as u32` applied to a count: truncation to the low 32 bits. */
  function AsU32(n: nat): (r: nat)
    ensures r < U32_MODULUS
    ensures n < U32_MODULUS ==> r == n
  {
    n % U32_MODULUS
  }
}
