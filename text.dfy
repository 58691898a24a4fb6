/** The optional value used for results that may be missing. */
module Options {
  datatype Option<+T> = None | Some(value: T)
}

/**
  The pieces of Python text handling the translation layer relies on:
  `str()` of an integer, the f-string `"{x}"` quoting and `sep.join(parts)`.
  Two readers, `Split` (Python's `s.split(sep)`) and `ParseDecimal`, are not
  used by the translation layer; they serve to state that the text written
  can be read back.
 */
module PyText {
  import opened Options

  predicate IsDigit(c: char) {
    '0' <= c <= '9'
  }

  function DigitChar(d: nat): (c: char)
    requires d < 10
    ensures IsDigit(c)
  {
    (d + 48) as char
  }

  function DigitValue(c: char): (d: nat)
    requires IsDigit(c)
    ensures d < 10 && DigitChar(d) == c
  {
    c as int - 48
  }

  /** The decimal digits of a natural number, most significant first, without leading zeros. */
  function Digits(n: nat): (s: string)
    ensures |s| > 0
    ensures forall i :: 0 <= i < |s| ==> IsDigit(s[i])
    ensures s[0] == '0' ==> n == 0
    decreases n
  {
    if n < 10 then [DigitChar(n)] else Digits(n / 10) + [DigitChar(n % 10)]
  }

  /** `str(n)` for a Python int: a minus sign for negative numbers, then the digits. */
  function Decimal(n: int): (s: string)
    ensures |s| > 0
    ensures forall i :: 0 <= i < |s| ==> IsDigit(s[i]) || s[i] == '-'
    ensures ',' !in s && '"' !in s
    ensures s[0] == '0' ==> s == "0"
    ensures n < 0 ==> |s| >= 2 && s[0] == '-' && s[1] != '0'
  {
    if n < 0 then "-" + Digits(-n) else Digits(n)
  }

  /** Reads a non-empty run of decimal digits; None for anything else. */
  function ParseDigits(s: string): Option<nat>
    decreases |s|
  {
    if |s| == 0 || !IsDigit(s[|s| - 1]) then None
    else if |s| == 1 then Some(DigitValue(s[0]))
    else match ParseDigits(s[..|s| - 1])
      case None => None
      case Some(m) => Some(10 * m + DigitValue(s[|s| - 1]))
  }

  /** Reads the form `Decimal` writes: an optional minus sign, then digits; None for anything else. */
  function ParseDecimal(s: string): Option<int> {
    if |s| > 0 && s[0] == '-' then
      match ParseDigits(s[1..])
      case None => None
      case Some(m) => Some(0 - m as int)
    else
      match ParseDigits(s)
      case None => None
      case Some(m) => Some(m)
  }

  lemma {:induction false} DigitsRoundTrip(n: nat)
    ensures ParseDigits(Digits(n)) == Some(n)
    decreases n
  {
    if n >= 10 {
      var s := Digits(n);
      assert s == Digits(n / 10) + [DigitChar(n % 10)];
      assert s[..|s| - 1] == Digits(n / 10);
      DigitsRoundTrip(n / 10);
    }
  }

  /** The decimal text of every integer reads back as that integer. */
  lemma DecimalRoundTrip(n: int)
    ensures ParseDecimal(Decimal(n)) == Some(n)
  {
    if n < 0 {
      var s := Decimal(n);
      assert s[1..] == Digits(-n);
      DigitsRoundTrip(-n);
    } else {
      DigitsRoundTrip(n);
      assert IsDigit(Digits(n)[0]);
    }
  }

  /**
    Concatenation regroups. Dafny knows this unaided; stated as a lemma so
    that a proof can name the one regrouping it needs and the solver does not
    search for it.
   */
  lemma Associative(a: string, b: string, c: string)
    ensures (a + b) + c == a + (b + c)
  {
  }

  /** The f-string `"{x}"`: the text between double quotes, with nothing escaped. */
  function Quoted(s: string): (r: string)
    ensures |r| == |s| + 2 && r[0] == '"' && r[|r| - 1] == '"'
    ensures r[1..|r| - 1] == s
  {
    "\"" + s + "\""
  }

  /** `sep.join(parts)`. */
  function Join(sep: string, parts: seq<string>): string {
    if |parts| == 0 then ""
    else if |parts| == 1 then parts[0]
    else parts[0] + sep + Join(sep, parts[1..])
  }

  /**
    `sep.join(parts)` of the empty list is the empty text; otherwise the text
    starts with the first part and ends with the last.
   */
  lemma {:induction false} JoinEnds(sep: string, parts: seq<string>)
    ensures |parts| == 0 ==> Join(sep, parts) == ""
    ensures |parts| > 0 ==> parts[0] <= Join(sep, parts)
    ensures |parts| > 0 ==> |parts[|parts| - 1]| <= |Join(sep, parts)|
    ensures |parts| > 0 ==> var r, last := Join(sep, parts), parts[|parts| - 1];
      r[|r| - |last|..] == last
    decreases |parts|
  {
    if |parts| > 1 {
      var rest := parts[1..];
      JoinEnds(sep, rest);
      var r, tail := Join(sep, parts), Join(sep, rest);
      assert r == parts[0] + sep + tail;
      assert rest[|rest| - 1] == parts[|parts| - 1];
      assert r[|r| - |tail|..] == tail;
    }
  }

  /** `s.split(sep)` for a one-character separator; like Python, the empty text gives one empty field. */
  function Split(s: string, sep: char): (fields: seq<string>)
    ensures |fields| >= 1
    decreases |s|
  {
    if |s| == 0 then [""]
    else
      var rest := Split(s[1..], sep);
      if s[0] == sep then [""] + rest
      else [[s[0]] + rest[0]] + rest[1..]
  }

  lemma {:induction false} SplitWithoutSeparator(a: string, sep: char)
    requires sep !in a
    ensures Split(a, sep) == [a]
    decreases |a|
  {
    if |a| > 0 {
      SplitWithoutSeparator(a[1..], sep);
      assert [a[0]] + a[1..] == a;
    }
  }

  lemma {:induction false} SplitAtSeparator(a: string, sep: char, b: string)
    requires sep !in a
    ensures Split(a + [sep] + b, sep) == [a] + Split(b, sep)
    decreases |a|
  {
    var s := a + [sep] + b;
    if |a| == 0 {
      assert s[1..] == b;
    } else {
      assert s[1..] == a[1..] + [sep] + b;
      SplitAtSeparator(a[1..], sep, b);
      assert [a[0]] + a[1..] == a;
    }
  }

  /** Splitting a join at its separator gives the parts back, when no part holds the separator. */
  lemma {:induction false} SplitJoin(parts: seq<string>, sep: char)
    requires |parts| > 0
    requires forall i :: 0 <= i < |parts| ==> sep !in parts[i]
    ensures Split(Join([sep], parts), sep) == parts
    decreases |parts|
  {
    if |parts| == 1 {
      SplitWithoutSeparator(parts[0], sep);
    } else {
      SplitJoin(parts[1..], sep);
      SplitAtSeparator(parts[0], sep, Join([sep], parts[1..]));
      assert [parts[0]] + parts[1..] == parts;
    }
  }

  /** Joining two non-empty lists of parts is joining each and putting the separator between. */
  lemma {:induction false} JoinAppend(sep: string, a: seq<string>, b: seq<string>)
    requires |a| > 0 && |b| > 0
    ensures Join(sep, a + b) == Join(sep, a) + sep + Join(sep, b)
    decreases |a|
  {
    if |a| == 1 {
      assert (a + b)[1..] == b;
    } else {
      assert (a + b)[1..] == a[1..] + b;
      JoinAppend(sep, a[1..], b);
    }
  }
}
