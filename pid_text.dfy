/** The two text conversions the lock file goes through: a PID is written with
    Python's str() on an int and read back with Python's int() on the file's text.
    Only decimal text is involved (base 10). */
module PidText {

  datatype Option<T> = None | Some(value: T)

  predicate IsDigit(c: char) { '0' <= c <= '9' }

  /** The characters int() strips from both ends of its argument: the ASCII
      spaces tab, line feed, vertical tab, form feed, carriage return and
      space, and the non-ASCII characters str.isspace() accepts (int() turns
      these into spaces first). The ASCII separators U+001C to U+001F, which
      str.isspace() also accepts, are not stripped: int() rejects them. */
  predicate IsSpace(c: char)
  {
    var n := c as int;
    (9 <= n <= 13) || n == 32 || n == 0x85 || n == 0xA0 || n == 0x1680
    || (0x2000 <= n <= 0x200A) || n == 0x2028 || n == 0x2029 || n == 0x202F
    || n == 0x205F || n == 0x3000
  }

  predicate AllSpace(s: string) { forall k :: 0 <= k < |s| ==> IsSpace(s[k]) }

  function DigitChar(d: nat): (c: char)
    requires d < 10
    ensures IsDigit(c)
  {
    ('0' as int + d) as char
  }

  function DigitValue(c: char): nat
    requires IsDigit(c)
  {
    c as int - '0' as int
  }

  // ---------------------------------------------------------------------------
  // str(n): decimal text of an integer

  /** str(n) for n >= 0: decimal digits, most significant first, with no
      leading zero except in "0" itself. */
  function NatToText(n: nat): (r: string)
    ensures |r| > 0
    ensures forall k :: 0 <= k < |r| ==> IsDigit(r[k])
    ensures (r[0] == '0') == (n == 0)
    ensures n < 10 <==> |r| == 1
  {
    if n < 10 then [DigitChar(n)] else NatToText(n / 10) + [DigitChar(n % 10)]
  }

  /** str(i) for any int: a minus sign exactly when i is negative, then the
      decimal digits of its magnitude. */
  function IntToText(i: int): (r: string)
    ensures |r| > 0
    ensures (r[0] == '-') == (i < 0)
    ensures forall k :: (if i < 0 then 1 else 0) <= k < |r| ==> IsDigit(r[k])
  {
    if i < 0 then "-" + NatToText(-i) else NatToText(i)
  }

  // ---------------------------------------------------------------------------
  // int(s): parsing decimal text

  /** s with its leading whitespace removed. */
  function TrimLeft(s: string): (r: string)
    ensures |r| <= |s| && r == s[|s| - |r|..]
    ensures r == [] || !IsSpace(r[0])
  {
    if |s| > 0 && IsSpace(s[0]) then TrimLeft(s[1..]) else s
  }

  /** s with its trailing whitespace removed. */
  function TrimRight(s: string): (r: string)
    ensures |r| <= |s| && r == s[..|r|]
    ensures r == [] || !IsSpace(r[|r| - 1])
  {
    if |s| > 0 && IsSpace(s[|s| - 1]) then TrimRight(s[..|s| - 1]) else s
  }

  function Strip(s: string): string { TrimRight(TrimLeft(s)) }

  /** The body of a decimal integer literal as int() accepts it: ASCII digits,
      where a single underscore may separate two digits. */
  predicate IsDigitGroups(s: string)
  {
    DigitsOrUnderscores(s) && |s| > 0 && IsDigit(s[0]) && IsDigit(s[|s| - 1]) &&
    forall k :: 0 < k < |s| && s[k] == '_' ==> s[k - 1] != '_'
  }

  predicate DigitsOrUnderscores(s: string)
  {
    forall k :: 0 <= k < |s| ==> IsDigit(s[k]) || s[k] == '_'
  }

  /** The number the digits of s spell, underscores skipped. */
  function DigitsValue(s: string): nat
    requires DigitsOrUnderscores(s)
  {
    if s == [] then 0
    else if s[|s| - 1] == '_' then DigitsValue(s[..|s| - 1])
    else 10 * DigitsValue(s[..|s| - 1]) + DigitValue(s[|s| - 1])
  }

  function ParseUnsigned(s: string): (r: Option<nat>)
    ensures r.Some? ==> IsDigitGroups(s)
  {
    if IsDigitGroups(s) then Some(DigitsValue(s)) else None
  }

  /** int(s) in base 10: None stands for the ValueError int() raises. The text
      may be surrounded by whitespace. Accepted text, once stripped, starts
      with a sign or a digit and ends with a digit, and only a leading '-'
      gives a negative number; blank text is rejected. */
  function ParseInt(s: string): (r: Option<int>)
    ensures r.Some? ==> var t := Strip(s);
              |t| > 0 && (IsDigit(t[0]) || t[0] == '-' || t[0] == '+') && IsDigit(t[|t| - 1]) &&
              (r.value < 0 ==> t[0] == '-')
    ensures AllSpace(s) ==> r.None?
  {
    ParseStripped(Strip(s))
  }

  /** int() on text already stripped of whitespace: an optional sign, then
      the digits. */
  function ParseStripped(t: string): (r: Option<int>)
    ensures r.Some? ==>
              |t| > 0 && (IsDigit(t[0]) || t[0] == '-' || t[0] == '+') && IsDigit(t[|t| - 1]) &&
              (r.value < 0 ==> t[0] == '-')
  {
    if |t| > 0 && t[0] == '-' then
      match ParseUnsigned(t[1..])
      case Some(n) => Some(-(n as int))
      case None => None
    else if |t| > 0 && t[0] == '+' then
      match ParseUnsigned(t[1..])
      case Some(n) => Some(n as int)
      case None => None
    else
      ParseUnsigned(t)
  }

  // ---------------------------------------------------------------------------
  // Properties

  lemma {:induction false} DigitsValueOfNatText(n: nat)
    ensures DigitsValue(NatToText(n)) == n
  {
    var r := NatToText(n);
    if n >= 10 {
      DigitsValueOfNatText(n / 10);
      assert r[..|r| - 1] == NatToText(n / 10);
      assert DigitValue(r[|r| - 1]) == n % 10;
    } else {
      assert r[..0] == [];
    }
  }

  lemma StripUnpadded(t: string)
    requires |t| > 0 && !IsSpace(t[0]) && !IsSpace(t[|t| - 1])
    ensures Strip(t) == t
  {
  }

  /** What str() writes, int() reads back as the same integer. */
  lemma {:induction false} RoundTrip(i: int)
    ensures ParseInt(IntToText(i)) == Some(i)
  {
    var t := IntToText(i);
    StripUnpadded(t);
    var digits := NatToText(if i < 0 then -i else i);
    DigitsValueOfNatText(if i < 0 then -i else i);
    assert IsDigitGroups(digits);
    if i < 0 {
      assert t[1..] == digits;
    }
  }

  /** Distinct integers are written as distinct texts. */
  lemma TextInjective(i: int, j: int)
    requires IntToText(i) == IntToText(j)
    ensures i == j
  {
    RoundTrip(i);
    RoundTrip(j);
  }

  lemma {:induction false} TrimLeftPadded(pre: string, s: string)
    requires AllSpace(pre)
    ensures TrimLeft(pre + s) == TrimLeft(s)
  {
    if pre != [] {
      assert (pre + s)[0] == pre[0] && IsSpace(pre[0]);
      assert (pre + s)[1..] == pre[1..] + s;
      TrimLeftPadded(pre[1..], s);
    } else {
      assert pre + s == s;
    }
  }

  lemma {:induction false} TrimRightPadded(s: string, post: string)
    requires AllSpace(post)
    ensures TrimRight(s + post) == TrimRight(s)
  {
    if post != [] {
      var p := post[..|post| - 1];
      assert (s + post)[|s + post| - 1] == post[|post| - 1] && IsSpace(post[|post| - 1]);
      assert (s + post)[..|s + post| - 1] == s + p;
      TrimRightPadded(s, p);
    } else {
      assert s + post == s;
    }
  }

  /** A text that is all whitespace strips down to nothing. */
  lemma TrimLeftAllSpace(s: string)
    requires AllSpace(s)
    ensures TrimLeft(s) == []
  {
  }

  /** Stripping the left end does not touch a text's non-blank right end. */
  lemma {:induction false} TrimLeftAppend(s: string, post: string)
    requires !AllSpace(s)
    ensures TrimLeft(s + post) == TrimLeft(s) + post
  {
    assert s != [];
    if IsSpace(s[0]) {
      assert (s + post)[1..] == s[1..] + post;
      assert !AllSpace(s[1..]) by {
        var k :| 0 <= k < |s| && !IsSpace(s[k]);
        assert k > 0 && s[1..][k - 1] == s[k];
      }
      TrimLeftAppend(s[1..], post);
    }
  }

  /** Stripping a text padded with whitespace gives what stripping the text gives. */
  lemma StripPadded(pre: string, s: string, post: string)
    requires AllSpace(pre) && AllSpace(post)
    ensures Strip(pre + s + post) == Strip(s)
  {
    assert pre + s + post == pre + (s + post);
    TrimLeftPadded(pre, s + post);
    if AllSpace(s) {
      assert AllSpace(s + post) by {
        forall k | 0 <= k < |s + post| ensures IsSpace((s + post)[k]) {
          if k < |s| { assert (s + post)[k] == s[k]; } else { assert (s + post)[k] == post[k - |s|]; }
        }
      }
      TrimLeftAllSpace(s + post);
      TrimLeftAllSpace(s);
    } else {
      TrimLeftAppend(s, post);
      TrimRightPadded(TrimLeft(s), post);
    }
  }

  /** int() ignores whitespace around the number, so a PID written with a
      trailing newline (as `echo` does) reads back the same. */
  lemma PaddingIgnored(pre: string, s: string, post: string)
    requires AllSpace(pre) && AllSpace(post)
    ensures ParseInt(pre + s + post) == ParseInt(s)
  {
    StripPadded(pre, s, post);
  }
}
