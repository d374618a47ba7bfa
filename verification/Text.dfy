/** The text operations of the Go library that the program leans on. */
module Text {
  function Digit(n: nat): char
    requires n < 10
  {
    "0123456789"[n]
  }

  function Itoa(n: nat): string {
    if n < 10 then [Digit(n)] else Itoa(n / 10) + [Digit(n % 10)]
  }

  // ---- how numbers read ----

  predicate IsDigit(c: char) {
    '0' <= c <= '9'
  }

  predicate IsNumeral(s: string) {
    s != [] && forall i :: 0 <= i < |s| ==> IsDigit(s[i])
  }

  /** Digits without a zero in front that could be left out. */
  predicate IsPlain(s: string) {
    IsNumeral(s) && (s[0] == '0' ==> |s| == 1)
  }

  /** The number that digits read as. */
  function Reads(s: string): nat
    requires IsNumeral(s)
  {
    var d: nat := s[|s| - 1] as int - '0' as int;
    if |s| == 1 then d else 10 * Reads(s[..|s| - 1]) + d
  }

  lemma DigitReads(n: nat)
    requires n < 10
    ensures IsDigit(Digit(n)) && Digit(n) as int - '0' as int == n
  {
  }

  lemma {:induction false} ItoaReads(n: nat)
    ensures IsPlain(Itoa(n)) && Reads(Itoa(n)) == n && (Itoa(n)[0] == '0' <==> n == 0)
  {
    DigitReads(n % 10);
    if n >= 10 {
      ItoaReads(n / 10);
      assert Itoa(n)[..|Itoa(n)| - 1] == Itoa(n / 10);
    }
  }

  /** So `Itoa` writes the one plain numeral there is of a number. */
  lemma {:induction false} PlainIsItoa(s: string)
    requires IsPlain(s)
    ensures s == Itoa(Reads(s)) && (Reads(s) == 0 ==> s == "0")
  {
    var c := s[|s| - 1];
    var d: nat := c as int - '0' as int;
    DigitReads(d);
    if |s| > 1 {
      var front := s[..|s| - 1];
      PlainIsItoa(front);
      assert Reads(s) == 10 * Reads(front) + d && Reads(front) > 0;
      assert Reads(s) / 10 == Reads(front) && Reads(s) % 10 == d;
      assert s == front + [c];
    }
  }

  function Decimal(n: int): string {
    if n < 0 then "-" + Itoa(-n) else Itoa(n)
  }

  function Join(parts: seq<string>, sep: string): string {
    if parts == [] then ""
    else if |parts| == 1 then parts[0]
    else parts[0] + sep + Join(parts[1..], sep)
  }

  lemma Regroup3(a: string, b: string, c: string, d: string, e: string)
    ensures a + b + (c + d + e) == (a + b + c) + d + e
  {
  }

  /** Joining one part more puts a separator and the part at the end. */
  lemma {:induction false} JoinOneMore(parts: seq<string>, sep: string, part: string)
    ensures Join(parts + [part], sep) == if parts == [] then part else Join(parts, sep) + sep + part
  {
    if parts == [] {
      assert [] + [part] == [part];
    } else {
      var all := parts + [part];
      assert all[0] == parts[0] && all[1..] == parts[1..] + [part];
      JoinOneMore(parts[1..], sep, part);
      if |parts| > 1 {
        Regroup3(parts[0], sep, Join(parts[1..], sep), sep, part);
      }
    }
  }
}
