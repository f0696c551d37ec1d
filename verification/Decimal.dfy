/** Decimal numbers as the client prints them and strtoull reads them; upload file names. */
module Decimal {

  const U64_MAX: nat := 0xFFFF_FFFF_FFFF_FFFF

  predicate IsDigit(c: char) {
    '0' <= c <= '9'
  }

  function Digit(d: nat): (c: char)
    requires d < 10
    ensures IsDigit(c) && DigitValue(c) == d
  {
    ('0' as int + d) as char
  }

  function DigitValue(c: char): (d: nat)
    requires IsDigit(c)
    ensures d < 10
  {
    c as int - '0' as int
  }

  /** printf's %d of a natural number. */
  function Print(n: nat): (s: string)
    ensures |s| > 0 && forall i :: 0 <= i < |s| ==> IsDigit(s[i])
  {
    if n < 10 then [Digit(n)] else Print(n / 10) + [Digit(n % 10)]
  }

  /** The value of the digits at the front of `s`, continuing from `acc`, and what follows them. */
  function ScanDigits(s: string, acc: nat): (r: (nat, string))
    ensures |r.1| <= |s|
    decreases |s|
  {
    if s == "" || !IsDigit(s[0]) then (acc, s) else ScanDigits(s[1..], 10 * acc + DigitValue(s[0]))
  }

  /** Scanning a printed number gives it back, stopping at the first character that is no digit. */
  lemma {:induction false} ScanPrinted(n: nat, rest: string)
    ensures ScanDigits(Print(n) + rest, 0) == ScanDigits(rest, n)
    decreases n
  {
    if n < 10 {
      assert (Print(n) + rest)[1..] == rest;
    } else {
      var last := [Digit(n % 10)];
      ScanPrinted(n / 10, last + rest);
      assert Print(n) + rest == Print(n / 10) + (last + rest);
      assert (last + rest)[1..] == rest;
    }
  }

  lemma PrintedExamples()
    ensures Print(0) == "0" && Print(1024) == "1024" && UploadName("uploads", 907, "png") == "uploads/job_907.png"
  {
    assert Print(10) == "10" && Print(102) == "102";
    assert Print(90) == "90";
  }

  // ----- strtoull, base 10

  predicate IsSpace(c: char) {
    c == ' ' || '\t' as int <= c as int <= '\r' as int
  }

  function SkipSpace(s: string): string
    decreases |s|
  {
    if s != "" && IsSpace(s[0]) then SkipSpace(s[1..]) else s
  }

  datatype Number =
    | NoNumber                                   // nothing converted
    | OutOfRange                                 // ERANGE
    | Number(value: nat, tail: string)

  /** White space, an optional sign, digits. A minus sign negates modulo 2^64. */
  function Strtoull(s: string): (r: Number)
    ensures r.Number? ==> r.value <= U64_MAX
  {
    var t := SkipSpace(s);
    var negative := t != "" && t[0] == '-';
    var u := if t != "" && (t[0] == '-' || t[0] == '+') then t[1..] else t;
    if u == "" || !IsDigit(u[0]) then NoNumber
    else
      var (v, tail) := ScanDigits(u, 0);
      if v > U64_MAX then OutOfRange
      else Number(if negative && v > 0 then U64_MAX + 1 - v else v, tail)
  }

  lemma StrtoullPrinted(n: nat, rest: string)
    requires n <= U64_MAX && (rest == "" || !IsDigit(rest[0]))
    ensures Strtoull(Print(n) + rest) == Number(n, rest)
  {
    ScanPrinted(n, rest);
    var s := Print(n) + rest;
    assert s[0] == Print(n)[0];
    assert !IsSpace(s[0]);
  }

  lemma StrtoullHuge(n: nat, rest: string)
    requires n > U64_MAX && (rest == "" || !IsDigit(rest[0]))
    ensures Strtoull(Print(n) + rest) == OutOfRange
  {
    ScanPrinted(n, rest);
    var s := Print(n) + rest;
    assert s[0] == Print(n)[0];
    assert !IsSpace(s[0]);
  }

  // ----- Upload names

  /** <root>/uploads/job_<id>.<suffix> */
  function UploadName(uploads: string, id: nat, suffix: string): string {
    uploads + "/job_" + Print(id) + "." + suffix
  }

  /** Different ids or suffixes give different file names. */
  lemma UploadNamesDistinct(uploads: string, id: nat, suffix: string, id': nat, suffix': string)
    requires UploadName(uploads, id, suffix) == UploadName(uploads, id', suffix')
    ensures id == id' && suffix == suffix'
  {
    var front := uploads + "/job_";
    var a, b := Print(id) + ("." + suffix), Print(id') + ("." + suffix');
    assert UploadName(uploads, id, suffix) == front + a;
    assert UploadName(uploads, id', suffix') == front + b;
    assert a == (front + a)[|front|..] == (front + b)[|front|..] == b;
    ScanPrinted(id, "." + suffix);
    ScanPrinted(id', "." + suffix');
    assert suffix == ("." + suffix)[1..] && suffix' == ("." + suffix')[1..];
  }
}
