/**
 * The pieces of Python behaviour the request handlers of gw_clock_api.py rely on:
 * the decoded JSON body (`request.json`), comparison with `""`, `int(...)`,
 * and the text `str(e).replace("'", "")` that a KeyError turns into.
 */
module PyRuntime {
  import opened Wrappers

  /** A value of the decoded request body, limited to the two kinds the handlers tell apart. */
  datatype Json = Str(s: string) | Int(n: int)

  /** `request.json`: a JSON object; a key it lacks is a missing field. */
  type Body = map<string, Json>

  /** Python's `v == ""`: only the empty string compares equal; a number never does. */
  predicate IsEmptyString(v: Json)
    ensures IsEmptyString(v) <==> v.Str? && |v.s| == 0
  {
    v == Str("")
  }

  predicate IsDigit(c: char)
  {
    '0' <= c <= '9'
  }

  predicate AllDigits(s: string)
  {
    forall i :: 0 <= i < |s| ==> IsDigit(s[i])
  }

  /** The number written by a string of decimal digits, most significant first. */
  function DigitsValue(s: string): (n: nat)
    requires AllDigits(s)
  {
    if s == [] then 0
    else DigitsValue(s[..|s| - 1]) * 10 + (s[|s| - 1] as int - '0' as int)
  }

  /**
   * Python's `int(s)` on a string: an optional sign and at least one decimal digit.
   * Anything else makes `int` raise ValueError, written None here.
   */
  function ParseInt(s: string): (r: Option<int>)
    ensures r.Some? ==> s != ""
  {
    if |s| > 0 && (s[0] == '+' || s[0] == '-') then
      var digits := s[1..];
      if digits != [] && AllDigits(digits) then
        var magnitude: int := DigitsValue(digits);
        Some(if s[0] == '-' then -magnitude else magnitude)
      else None
    else if s != [] && AllDigits(s) then Some(DigitsValue(s))
    else None
  }

  /** Python's `int(v)` on a value of the body: a number is itself, a string is parsed. */
  function IntOf(v: Json): (r: Option<int>)
    // a number converts to itself, and `int("")` raises
    ensures v.Int? ==> r == Some(v.n)
    ensures IsEmptyString(v) ==> r.None?
  {
    match v
    case Int(n) => Some(n)
    case Str(s) => ParseInt(s)
  }

  /** The decimal text of a natural number, as a client writes a number inside a string. */
  function Digits(n: nat): (s: string)
  {
    var last := ['0' + (n % 10) as char];
    if n < 10 then last else Digits(n / 10) + last
  }

  /** The decimal text of an integer, with a leading '-' when it is negative. */
  function Decimal(n: int): string
  {
    if n < 0 then "-" + Digits(-n) else Digits(n)
  }

  lemma {:induction false} DigitsValueOfDigits(n: nat)
    ensures Digits(n) != [] && AllDigits(Digits(n))
    ensures DigitsValue(Digits(n)) == n
  {
    var last := ['0' + (n % 10) as char];
    if n >= 10 {
      DigitsValueOfDigits(n / 10);
      var s := Digits(n);
      assert s == Digits(n / 10) + last;
      assert s[..|s| - 1] == Digits(n / 10);
    }
  }

  /** `int` reads back every integer from its decimal text. */
  lemma ParseIntOfDecimal(n: int)
    ensures ParseInt(Decimal(n)) == Some(n)
  {
    if n < 0 {
      DigitsValueOfDigits(-n);
      assert Decimal(n)[1..] == Digits(-n);
    } else {
      DigitsValueOfDigits(n);
      assert IsDigit(Digits(n)[0]);
    }
  }

  /**
   * `str(e)` of `KeyError(arg)`: the repr of its argument. For an argument without
   * quotes or backslashes, which is every argument the handlers raise, that is the
   * argument between single quotes.
   */
  function KeyErrorText(arg: string): (t: string)
    ensures |t| == |arg| + 2
    ensures t[0] == '\'' && t[|t| - 1] == '\'' && t[1..|t| - 1] == arg
  {
    "'" + arg + "'"
  }

  /** `s.replace("'", "")`: every single quote deleted. */
  function RemoveQuotes(s: string): (r: string)
    ensures '\'' !in r
    ensures |r| <= |s|
  {
    if s == [] then []
    else if s[0] == '\'' then RemoveQuotes(s[1..])
    else [s[0]] + RemoveQuotes(s[1..])
  }

  lemma {:induction false} RemoveQuotesAppend(a: string, b: string)
    ensures RemoveQuotes(a + b) == RemoveQuotes(a) + RemoveQuotes(b)
  {
    if a != [] {
      assert (a + b)[1..] == a[1..] + b;
      RemoveQuotesAppend(a[1..], b);
    } else {
      assert a + b == b;
    }
  }

  lemma {:induction false} RemoveQuotesOfQuoteFree(s: string)
    requires '\'' !in s
    ensures RemoveQuotes(s) == s
  {
    if s != [] {
      assert s[0] in s;
      assert forall c :: c in s[1..] ==> c in s;
      RemoveQuotesOfQuoteFree(s[1..]);
    }
  }

  /** Deleting the quotes from `str(KeyError(arg))` gives back `arg`. */
  lemma UnquoteKeyError(arg: string)
    requires '\'' !in arg
    ensures RemoveQuotes(KeyErrorText(arg)) == arg
  {
    RemoveQuotesAppend("'" + arg, "'");
    RemoveQuotesAppend("'", arg);
    RemoveQuotesOfQuoteFree(arg);
  }
}
