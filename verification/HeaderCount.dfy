/** What the attempt header of a message means: the count that each type of value stands for, and what copies carry. */
module HeaderCount {
  import opened Attempts
  import opened Options
  import Names

  /** A missing header counts as 0, a number of any of the three integer types as itself, and any other type as 0. */
  lemma CountReads(headers: map<string, Header>, n: Int64, m: Int32)
    ensures "x-faas-attempts" !in headers ==> FromHeaders(headers) == 0
    ensures FromHeaders(headers["x-faas-attempts" := OfInt(n)]) == n
    ensures FromHeaders(headers["x-faas-attempts" := OfInt64(n)]) == n
    ensures FromHeaders(headers["x-faas-attempts" := OfInt32(m)]) == m
    ensures FromHeaders(headers["x-faas-attempts" := Other]) == 0
  {
  }

  predicate Digits(d: string) { forall i :: 0 <= i < |d| ==> '0' <= d[i] <= '9' }

  /** The number that a string of digits stands for. */
  function Number(d: string): nat
    requires Digits(d)
  {
    if d == "" then 0 else Number(d[..|d| - 1]) * 10 + (d[|d| - 1] as int - '0' as int)
  }

  function Pow10(n: nat): (p: nat)
    ensures p >= 1
  {
    if n == 0 then 1 else 10 * Pow10(n - 1)
  }

  lemma {:induction false} NumberFront(d: string)
    requires d != "" && Digits(d)
    ensures Number(d) == (d[0] as int - '0' as int) * Pow10(|d| - 1) + Number(d[1..])
  {
    if |d| > 1 {
      var init := d[..|d| - 1];
      NumberFront(init);
      assert init[1..] == d[1..][..|d| - 2];
      Regroup(d[0] as int - '0' as int, Pow10(|d| - 2), Number(init[1..]), d[|d| - 1] as int - '0' as int);
    } else {
      assert d[..0] == "" && d[1..] == "";
    }
  }

  lemma Regroup(a: int, p: int, m: int, c: int)
    ensures (a * p + m) * 10 + c == a * (10 * p) + (m * 10 + c)
  {
  }

  lemma Carry(acc: int, p: int, c: int, m: int)
    ensures acc * (10 * p) + (c * p + m) == (acc * 10 + c) * p + m
  {
  }

  lemma AtLeast(v: nat, p: nat)
    requires p >= 1
    ensures v * p >= v
  {
  }

  /** Reading from the front gives the number, cut off at 2^64. */
  lemma {:induction false} ScanIsNumber(d: string, acc: nat)
    requires Digits(d) && acc < TWO64
    ensures ScanDigits(d, acc)
         == Some(if acc * Pow10(|d|) + Number(d) < TWO64 then acc * Pow10(|d|) + Number(d) else TWO64)
    decreases |d|
  {
    if d != "" {
      var v := acc * 10 + (d[0] as int - '0' as int);
      var p := Pow10(|d| - 1);
      NumberFront(d);
      Carry(acc, p, d[0] as int - '0' as int, Number(d[1..]));
      assert acc * Pow10(|d|) + Number(d) == v * p + Number(d[1..]);
      if v >= TWO64 {
        AtLeast(v, p);
      } else {
        ScanIsNumber(d[1..], v);
      }
    }
  }

  lemma {:induction false} DecimalIsNumber(n: nat)
    ensures Digits(Names.Decimal(n)) && Number(Names.Decimal(n)) == n
  {
    var d := Names.Decimal(n);
    if n >= 10 {
      DecimalIsNumber(n / 10);
      assert d[..|d| - 1] == Names.Decimal(n / 10);
    } else {
      assert d[..|d| - 1] == "";
    }
  }

  /** How strconv.Itoa writes a number. */
  function Written(n: int): string { if n < 0 then "-" + Names.Decimal(-n) else Names.Decimal(n) }

  /** A text that is the decimal form of a number counts as that number, or the nearest int when it is out of range. */
  lemma TextReads(headers: map<string, Header>, n: int)
    ensures FromHeaders(headers["x-faas-attempts" := OfText(Written(n))])
         == if n >= TWO63 then TWO63 - 1 else if n < -TWO63 then -TWO63 else n
  {
    AtoiReads(n);
    hide Atoi;
  }

  lemma DecimalScans(n: nat)
    ensures ScanDigits(Names.Decimal(n), 0) == Some(if n < TWO64 then n else TWO64)
    ensures '0' <= Names.Decimal(n)[0] <= '9'
  {
    DecimalIsNumber(n);
    ScanIsNumber(Names.Decimal(n), 0);
  }

  lemma AtoiReads(n: int)
    ensures Atoi(Written(n)) == if n >= TWO63 then TWO63 - 1 else if n < -TWO63 then -TWO63 else n
  {
    var size := if n < 0 then -n else n;
    var d := Names.Decimal(size);
    DecimalScans(size);
    hide ScanDigits, Names.Decimal;
    if n < 0 {
      assert ("-" + d)[0] == '-' && ("-" + d)[1..] == d;
    }
  }

  /** A text that is none counts as 0, as long as no number in front of it runs out of range. */
  lemma OtherTextReads(headers: map<string, Header>, text: string, k: nat)
    requires |text| <= 19 && k < |text| && !('0' <= text[k] <= '9') && (k > 0 || text[k] !in {'-', '+'})
    ensures FromHeaders(headers["x-faas-attempts" := OfText(text)]) == 0
    ensures FromHeaders(headers["x-faas-attempts" := OfText("")]) == 0
  {
    var signed := text[0] == '-' || text[0] == '+';
    var digits := if signed then text[1..] else text;
    var at := if signed then k - 1 else k;
    assert digits[at] == text[k];
    Pow10Of19(|digits|);
    ScanStops(digits, 0, at);
  }

  lemma {:induction false} Pow10Of19(n: nat)
    requires n <= 19
    ensures Pow10(n) <= TWO64
  {
    assert Pow10(4) == 10_000;
    assert Pow10(8) == 100_000_000;
    assert Pow10(12) == 1_000_000_000_000;
    assert Pow10(16) == 10_000_000_000_000_000;
    assert Pow10(19) == 10_000_000_000_000_000_000;
    Pow10Grows(n, 19);
  }

  lemma {:induction false} Pow10Grows(m: nat, n: nat)
    requires m <= n
    ensures Pow10(m) <= Pow10(n)
  {
    if m < n { Pow10Grows(m, n - 1); }
  }

  lemma Grows(a: nat, b: nat, p: nat)
    requires a <= b
    ensures a * p <= b * p
  {
  }

  lemma Associates(a: int, b: int, c: int)
    ensures a * (b * c) == a * b * c
  {
  }

  lemma NextFits(acc: nat, v: nat, p: nat)
    requires v <= acc * 10 + 9 && p >= 1 && (acc + 1) * (10 * p) <= TWO64
    ensures (v + 1) * p <= TWO64 && v < TWO64
  {
    Grows(v + 1, (acc + 1) * 10, p);
    Associates(acc + 1, 10, p);
    AtLeast(v + 1, p);
  }

  lemma {:induction false} ScanStops(d: string, acc: nat, k: nat)
    requires k < |d| && !('0' <= d[k] <= '9') && (acc + 1) * Pow10(|d|) <= TWO64
    ensures ScanDigits(d, acc) == None
    decreases |d|
  {
    if '0' <= d[0] <= '9' {
      var v := acc * 10 + (d[0] as int - '0' as int);
      var p := Pow10(|d| - 1);
      NextFits(acc, v, p);
      ScanStops(d[1..], v, k - 1);
    }
  }

  /** The headers of a copy: the reason when there is one, the count, and everything else as it was. */
  lemma PublishingKeeps(headers: map<string, Header>, attempts: int, reason: string)
    ensures var r := Publishing(headers, attempts, reason);
            && (forall k :: k !in {"x-faas-attempts", "x-faas-reason"} ==>
                  (k in r <==> k in headers) && (k in r ==> r[k] == headers[k]))
            && "x-faas-attempts" in r && r["x-faas-attempts"] == OfInt32(Wrap32(attempts))
            && (reason != "" ==> "x-faas-reason" in r && r["x-faas-reason"] == OfText(reason))
            && (reason == "" && "x-faas-reason" in headers ==>
                  "x-faas-reason" in r && r["x-faas-reason"] == headers["x-faas-reason"])
            && (reason == "" && "x-faas-reason" !in headers ==> "x-faas-reason" !in r)
  {
  }
}
