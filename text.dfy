/** The string formatting the package performs: `str(int)`, the `{:03d}` format,
    `' '.join(...)`, and the parsing that inverts each of them. */
module Text {

  function Digit(d: nat): (c: char)
    requires d < 10
    ensures '0' <= c <= '9'
  {
    (48 + d) as char
  }

  function DigitValue(c: char): nat
  {
    if '0' <= c <= '9' then c as int - 48 else 0
  }

  predicate IsDigits(s: string)
  {
    forall i :: 0 <= i < |s| ==> '0' <= s[i] <= '9'
  }

  /** `str(n)` for a non-negative integer: decimal digits, no leading zero. */
  function NatToString(n: nat): (s: string)
    ensures 1 <= |s| && IsDigits(s)
    ensures |s| > 1 ==> s[0] != '0'
    decreases n
  {
    if n < 10 then [Digit(n)] else NatToString(n / 10) + [Digit(n % 10)]
  }

  /** The number a string of decimal digits denotes (leading zeros allowed). */
  function DigitsValue(s: string): nat
  {
    if s == [] then 0 else DigitsValue(s[..|s| - 1]) * 10 + DigitValue(s[|s| - 1])
  }

  lemma {:induction false} NatToStringRoundTrip(n: nat)
    ensures DigitsValue(NatToString(n)) == n
    decreases n
  {
    if n >= 10 {
      var s := NatToString(n);
      var init := NatToString(n / 10);
      assert s == init + [Digit(n % 10)];
      assert s[..|s| - 1] == init;
      NatToStringRoundTrip(n / 10);
    }
  }

  /** `str(i)` for any integer. */
  function IntToString(i: int): string
  {
    if i < 0 then "-" + NatToString(-i) else NatToString(i)
  }

  /** `int(s)` on the strings `str` produces. */
  function ParseInt(s: string): int
  {
    if |s| > 0 && s[0] == '-' then var m: int := DigitsValue(s[1..]); -m else DigitsValue(s)
  }

  lemma IntToStringRoundTrip(i: int)
    ensures ParseInt(IntToString(i)) == i
  {
    if i < 0 {
      NatToStringRoundTrip(-i);
      assert ("-" + NatToString(-i))[1..] == NatToString(-i);
    } else {
      NatToStringRoundTrip(i);
    }
  }

  function Zeros(k: nat): (s: string)
    ensures |s| == k && forall i :: 0 <= i < k ==> s[i] == '0'
  {
    if k == 0 then "" else "0" + Zeros(k - 1)
  }

  lemma {:induction false} ZerosPrefix(k: nat, s: string)
    ensures DigitsValue(Zeros(k) + s) == DigitsValue(s)
    decreases |s|
  {
    if s == [] {
      assert Zeros(k) + s == Zeros(k);
      ZerosValue(k);
    } else {
      var t := Zeros(k) + s;
      assert t[..|t| - 1] == Zeros(k) + s[..|s| - 1];
      ZerosPrefix(k, s[..|s| - 1]);
    }
  }

  lemma {:induction false} ZerosValue(k: nat)
    ensures DigitsValue(Zeros(k)) == 0
  {
    if k > 0 {
      var z := Zeros(k);
      assert z[..k - 1] == Zeros(k - 1) by {
        assert z == "0" + Zeros(k - 1);
        if k > 1 {
          ZerosShift(k - 1);
        }
      }
      ZerosValue(k - 1);
    }
  }

  lemma ZerosShift(k: nat)
    ensures ("0" + Zeros(k))[..k] == Zeros(k)
  {
  }

  /** `f'{v:03d}'`: the decimal form of `v`, padded with zeros after the sign to a
      width of three characters. */
  function ZeroPad3(v: int): (s: string)
    ensures |s| >= 3
  {
    if v < 0 then
      var d := NatToString(-v);
      "-" + Zeros(if |d| < 2 then 2 - |d| else 0) + d
    else
      var d := NatToString(v);
      Zeros(if |d| < 3 then 3 - |d| else 0) + d
  }

  /** The zero-padded form of a non-negative number still denotes that number, and is
      exactly three characters long whenever the number has at most three digits. */
  lemma ZeroPad3Value(v: nat)
    ensures DigitsValue(ZeroPad3(v)) == v
    ensures v < 1000 ==> |ZeroPad3(v)| == 3
    ensures |NatToString(v)| >= 3 ==> ZeroPad3(v) == NatToString(v)
  {
    var d := NatToString(v);
    ZerosPrefix(if |d| < 3 then 3 - |d| else 0, d);
    NatToStringRoundTrip(v);
    if v < 1000 {
      NatToStringShort(v);
    }
  }

  lemma {:induction false} NatToStringShort(v: nat)
    requires v < 1000
    ensures |NatToString(v)| <= 3
  {
    if v >= 100 {
      assert v / 10 / 10 < 10;
      assert |NatToString(v / 10 / 10)| == 1;
      assert |NatToString(v / 10)| == 2;
    } else if v >= 10 {
      assert |NatToString(v / 10)| == 1;
    }
  }

  /** `sep.join(parts)` */
  function Join(parts: seq<string>, sep: string): string
  {
    if parts == [] then ""
    else if |parts| == 1 then parts[0]
    else parts[0] + sep + Join(parts[1..], sep)
  }

  lemma JoinCons(p: string, rest: seq<string>, sep: string)
    requires rest != []
    ensures Join([p] + rest, sep) == p + sep + Join(rest, sep)
  {
    assert ([p] + rest)[1..] == rest;
  }

  /** `s.split(' ')` */
  function Split(s: string): (r: seq<string>)
    ensures |r| >= 1
  {
    if s == [] then [""]
    else if s[0] == ' ' then [""] + Split(s[1..])
    else
      var rest := Split(s[1..]);
      [[s[0]] + rest[0]] + rest[1..]
  }

  lemma {:induction false} SplitWord(p: string, t: string)
    requires ' ' !in p
    ensures Split(p + [' '] + t) == [p] + Split(t)
    ensures Split(p) == [p]
  {
    if p != [] {
      assert (p + [' '] + t)[1..] == p[1..] + [' '] + t;
      assert (p + [' '] + t)[0] == p[0];
      SplitWord(p[1..], t);
      assert [p[0]] + p[1..] == p;
    }
  }

  /** Splitting a space-joined list of space-free words gives the words back. */
  lemma {:induction false} SplitJoin(parts: seq<string>)
    requires |parts| >= 1
    requires forall i :: 0 <= i < |parts| ==> ' ' !in parts[i]
    ensures Split(Join(parts, " ")) == parts
  {
    if |parts| == 1 {
      SplitWord(parts[0], "");
    } else {
      SplitJoin(parts[1..]);
      SplitWord(parts[0], Join(parts[1..], " "));
      assert Join(parts, " ") == parts[0] + [' '] + Join(parts[1..], " ");
      assert [parts[0]] + parts[1..] == parts;
    }
  }

  lemma IntToStringHasNoSpace(i: int)
    ensures ' ' !in IntToString(i)
  {
    var d := NatToString(if i < 0 then -i else i);
    assert forall k :: 0 <= k < |d| ==> d[k] != ' ';
  }
}
