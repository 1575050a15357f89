/** Values shared by the whole model: nullable references, results with an
    error side, and the bits of java.lang text handling the core relies on
    (Long.toString and String.join). */
module Common {

  /** A Java reference that may be null. */
  datatype Option<+T> = None | Some(value: T)

  /** The outcome of a call that either returns a value or throws. */
  datatype Result<+T, +E> = Success(value: T) | Failure(error: E)

  /** A JSON object whose values are kept opaque (Map<String, Object>). */
  type JsonObject = map<string, string>

  /** Java's long division, which truncates toward zero (Dafny's `/` is Euclidean). */
  function JavaDiv(a: int, b: int): (q: int)
    requires b > 0
    ensures a >= 0 ==> q == a / b
    ensures a < 0 ==> -q == (-a) / b
  {
    if a >= 0 then a / b else -((-a) / b)
  }

  function DigitChar(d: nat): (c: char)
    requires d < 10
    ensures '0' <= c <= '9'
  {
    ('0' as int + d) as char
  }

  /** The decimal digits of `n`, most significant first, without leading zeros. */
  function NatToString(n: nat): (s: string)
    ensures |s| >= 1
    ensures forall i :: 0 <= i < |s| ==> '0' <= s[i] <= '9'
    ensures n >= 10 <==> |s| >= 2
  {
    if n < 10 then [DigitChar(n)] else NatToString(n / 10) + [DigitChar(n % 10)]
  }

  /** Long.toString: a minus sign before the digits of a negative number. */
  function LongToString(i: int): (s: string)
    ensures |s| >= 1
    ensures s[0] == '-' <==> i < 0
    ensures s[0] != '-' ==> '0' <= s[0] <= '9'
  {
    if i < 0 then "-" + NatToString(-i) else NatToString(i)
  }

  /** How string concatenation renders a possibly-null Long. */
  function NullableLongToString(i: Option<int>): string {
    match i
    case None => "null"
    case Some(v) => LongToString(v)
  }

  lemma {:induction false} NatToStringInjective(a: nat, b: nat)
    requires NatToString(a) == NatToString(b)
    ensures a == b
  {
    var s := NatToString(a);
    if a >= 10 && b >= 10 {
      var k := |s| - 1;
      assert NatToString(a / 10) == s[..k] == NatToString(b / 10);
      NatToStringInjective(a / 10, b / 10);
      assert DigitChar(a % 10) == s[k] == DigitChar(b % 10);
    }
  }

  lemma LongToStringInjective(a: int, b: int)
    requires LongToString(a) == LongToString(b)
    ensures a == b
  {
    if a < 0 {
      assert NatToString(-a) == LongToString(a)[1..] == NatToString(-b);
      NatToStringInjective(-a, -b);
    } else {
      NatToStringInjective(a, b);
    }
  }

  /** Two distinct Long values (or null) never render to the same text. */
  lemma NullableLongToStringInjective(a: Option<int>, b: Option<int>)
    requires NullableLongToString(a) == NullableLongToString(b)
    ensures a == b
  {
    if a.Some? && b.Some? {
      LongToStringInjective(a.value, b.value);
    }
  }

  /** String.join(",", parts) for a non-empty list, and the empty string otherwise. */
  function Join(sep: char, parts: seq<string>): (s: string)
  {
    if |parts| == 0 then ""
    else if |parts| == 1 then parts[0]
    else parts[0] + [sep] + Join(sep, parts[1..])
  }

  /** Splits `s` at every occurrence of `sep`; the inverse of Join on separator-free parts. */
  function Split(sep: char, s: string): (parts: seq<string>)
    ensures |parts| >= 1
  {
    if |s| == 0 then [""]
    else
      var rest := Split(sep, s[1..]);
      if s[0] == sep then [""] + rest
      else [[s[0]] + rest[0]] + rest[1..]
  }

  lemma {:induction false} SplitWithoutSeparator(sep: char, p: string, s: string)
    requires forall i :: 0 <= i < |p| ==> p[i] != sep
    ensures Split(sep, p + [sep] + s) == [p] + Split(sep, s)
    ensures Split(sep, p) == [p]
  {
    if |p| == 0 {
      assert p + [sep] + s == [sep] + s;
      assert ([sep] + s)[1..] == s;
    } else {
      SplitWithoutSeparator(sep, p[1..], s);
      assert (p + [sep] + s)[1..] == p[1..] + [sep] + s;
      assert [p[0]] + p[1..] == p;
    }
  }

  /** Splitting a joined list gives the list back when no part contains the separator. */
  lemma {:induction false} SplitJoin(sep: char, parts: seq<string>)
    requires |parts| >= 1
    requires forall k, i :: 0 <= k < |parts| && 0 <= i < |parts[k]| ==> parts[k][i] != sep
    ensures Split(sep, Join(sep, parts)) == parts
  {
    if |parts| == 1 {
      SplitWithoutSeparator(sep, parts[0], "");
    } else {
      SplitJoin(sep, parts[1..]);
      SplitWithoutSeparator(sep, parts[0], Join(sep, parts[1..]));
      assert [parts[0]] + parts[1..] == parts;
    }
  }
}
