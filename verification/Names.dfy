/** The two dnsLabel sanitisers (mqsvc/config.go and gateway/scheduler/k8s_backend.go), and the keys and instance
    ids that are built from sanitised names. */
module Names {

  predicate IsAlnum(c: char) { 'a' <= c <= 'z' || '0' <= c <= '9' }
  predicate IsLabelChar(c: char) { IsAlnum(c) || c == '-' }

  /** strings.ToLower as far as labels see it: the Kelvin sign and the dotted capital I also become ASCII letters;
      every other non-ASCII letter becomes something that is no label character, so it may stand for itself. */
  function Lower(c: char): (l: char)
    ensures IsLabelChar(c) ==> l == c
  {
    if 'A' <= c <= 'Z' then (c as int + 32) as char
    else if c == '\U{212A}' then 'k'
    else if c == '\U{0130}' then 'i'
    else c
  }

  function LowerAll(s: string): string {
    seq(|s|, i requires 0 <= i < |s| => Lower(s[i]))
  }

  function TrimLeft(s: string): string {
    if s != "" && s[0] == '-' then TrimLeft(s[1..]) else s
  }

  function TrimRight(s: string): string {
    if s != "" && s[|s| - 1] == '-' then TrimRight(s[..|s| - 1]) else s
  }

  function Trim(s: string): string { TrimRight(TrimLeft(s)) }

  predicate LabelChars(s: string) { forall i :: 0 <= i < |s| ==> IsLabelChar(s[i]) }
  predicate DashInside(s: string) { s == "" || (s[0] != '-' && s[|s| - 1] != '-') }
  predicate NoDoubleDash(s: string) { forall i :: 0 <= i < |s| - 1 ==> !(s[i] == '-' && s[i + 1] == '-') }

  /** isDNSLabel. */
  predicate DnsLabel(s: string) {
    s != "" && |s| <= 63 && DashInside(s) && LabelChars(s)
  }

  /** A name without dashes is a label exactly if it has 1 to 63 small letters and digits; a dash may stand anywhere but
      at the ends. */
  lemma DnsLabelMeans(s: string)
    ensures (forall i :: 0 <= i < |s| ==> s[i] != '-') ==>
              (DnsLabel(s)
               <==> 1 <= |s| <= 63 && forall i :: 0 <= i < |s| ==> 'a' <= s[i] <= 'z' || '0' <= s[i] <= '9')
    ensures DnsLabel(s) ==> s[0] != '-' && s[|s| - 1] != '-'
    ensures |s| > 2 && s[0] != '-' && s[|s| - 1] != '-' && LabelChars(s) ==> (DnsLabel(s) <==> |s| <= 63)
  {
  }

  method IsDnsLabel(s: string) returns (ok: bool)
    ensures ok <==> DnsLabel(s)
  {
    if s == "" || |s| > 63 || s[0] == '-' || s[|s| - 1] == '-' {
      return false;
    }
    for i := 0 to |s|
      invariant LabelChars(s[..i])
    {
      if !IsLabelChar(s[i]) {
        return false;
      }
      assert s[..i + 1] == s[..i] + [s[i]];
    }
    assert s[..|s|] == s;
    ok := true;
  }

  /** What both Trim calls do: nothing is lost but dashes at the ends. */
  lemma {:induction false} TrimRightFacts(s: string)
    ensures |TrimRight(s)| <= |s| && TrimRight(s) == s[..|TrimRight(s)|]
    ensures TrimRight(s) != "" ==> TrimRight(s)[|TrimRight(s)| - 1] != '-'
    ensures s == "" || s[|s| - 1] != '-' ==> TrimRight(s) == s
    ensures s != "" && s[0] != '-' ==> TrimRight(s) != ""
  {
    if s != "" && s[|s| - 1] == '-' {
      TrimRightFacts(s[..|s| - 1]);
    }
  }

  lemma {:induction false} TrimLeftFacts(s: string)
    ensures |TrimLeft(s)| <= |s| && TrimLeft(s) == s[|s| - |TrimLeft(s)|..]
    ensures TrimLeft(s) != "" ==> TrimLeft(s)[0] != '-'
    ensures s == "" || s[0] != '-' ==> TrimLeft(s) == s
  {
    if s != "" && s[0] == '-' {
      TrimLeftFacts(s[1..]);
    }
  }

  lemma TrimFacts(s: string)
    requires LabelChars(s)
    ensures LabelChars(Trim(s)) && DashInside(Trim(s)) && |Trim(s)| <= |s|
    ensures NoDoubleDash(s) ==> NoDoubleDash(Trim(s))
    ensures DashInside(s) ==> Trim(s) == s
  {
    TrimLeftFacts(s);
    TrimRightFacts(TrimLeft(s));
  }

  /** Cutting and trimming on the right keeps a trimmed name trimmed. */
  lemma CutFacts(s: string, n: nat)
    requires LabelChars(s) && DashInside(s) && n <= |s|
    ensures LabelChars(TrimRight(s[..n])) && DashInside(TrimRight(s[..n])) && |TrimRight(s[..n])| <= n
    ensures NoDoubleDash(s) ==> NoDoubleDash(TrimRight(s[..n]))
    ensures n > 0 ==> TrimRight(s[..n]) != ""
  {
    TrimRightFacts(s[..n]);
  }

  // ----- dnsLabel of mqsvc -----

  /** What the loop has written after the lower-cased runes of `s`. */
  function Squeezed(s: string): string {
    if s == "" then ""
    else
      var b, r := Squeezed(s[..|s| - 1]), s[|s| - 1];
      if IsAlnum(r) || (r == '-' && b != "" && b[|b| - 1] != '-') then b + [r] else b
  }

  function MqLabel(s: string): string {
    var out := Trim(Squeezed(LowerAll(s)));
    if |out| > 63 then TrimRight(out[..63]) else out
  }

  /** The loop of dnsLabel, whose lastDash remembers whether the builder ends in a dash. */
  method MqDnsLabel(s: string) returns (out: string)
    ensures out == MqLabel(s)
  {
    var lower := LowerAll(s);
    var b, lastDash := "", false;
    for i := 0 to |lower|
      invariant b == Squeezed(lower[..i])
      invariant lastDash <==> b != "" && b[|b| - 1] == '-'
    {
      assert lower[..i + 1][..i] == lower[..i];
      var r := lower[i];
      if IsAlnum(r) {
        b := b + [r];
        lastDash := false;
        continue;
      }
      if r == '-' && |b| > 0 && !lastDash {
        b := b + ['-'];
        lastDash := true;
      }
    }
    assert lower[..|lower|] == lower;
    out := Trim(b);
    if |out| > 63 {
      out := TrimRight(out[..63]);
    }
  }

  /** The names that dnsLabel of mqsvc leaves alone. */
  predicate MqFixed(s: string) {
    |s| <= 63 && LabelChars(s) && DashInside(s) && NoDoubleDash(s)
  }

  lemma {:induction false} SqueezedFacts(s: string)
    ensures LabelChars(Squeezed(s)) && NoDoubleDash(Squeezed(s)) && (Squeezed(s) != "" ==> Squeezed(s)[0] != '-')
    ensures Letters(Squeezed(s)) == Letters(s)
  {
    if s != "" {
      var init, r := s[..|s| - 1], s[|s| - 1];
      SqueezedFacts(init);
      assert Letters(s) == Letters(init) + if IsAlnum(r) then [r] else "";
      var b := Squeezed(init);
      assert (b + [r])[..|b|] == b;
    }
  }

  lemma {:induction false} SqueezedNothing(s: string)
    requires LabelChars(s) && NoDoubleDash(s) && (s != "" ==> s[0] != '-')
    ensures Squeezed(s) == s
  {
    if s != "" {
      SqueezedNothing(s[..|s| - 1]);
      assert s == s[..|s| - 1] + [s[|s| - 1]];
    }
  }

  lemma LowerNothing(s: string)
    requires LabelChars(s)
    ensures LowerAll(s) == s
  {
  }

  /** The result is always a name that is left alone. */
  lemma MqLabelIsFixed(s: string)
    ensures MqFixed(MqLabel(s))
  {
    var b := Squeezed(LowerAll(s));
    SqueezedFacts(LowerAll(s));
    TrimFacts(b);
    if |Trim(b)| > 63 { CutFacts(Trim(b), 63); }
  }

  /** Exactly the names of MqFixed are fixed points. */
  lemma MqFixedPoints(s: string)
    ensures MqLabel(s) == s <==> MqFixed(s)
  {
    MqLabelIsFixed(s);
    if MqFixed(s) {
      LowerNothing(s);
      SqueezedNothing(s);
      TrimFacts(s);
    }
  }

  lemma MqIdempotent(s: string)
    ensures MqLabel(MqLabel(s)) == MqLabel(s)
  {
    MqLabelIsFixed(s);
    MqFixedPoints(MqLabel(s));
  }

  function Letters(s: string): string {
    if s == "" then "" else Letters(s[..|s| - 1]) + if IsAlnum(s[|s| - 1]) then [s[|s| - 1]] else ""
  }

  lemma {:induction false} LettersOfPrefix(s: string, n: nat)
    requires n <= |s|
    ensures Letters(s[..n]) <= Letters(s)
  {
    if n < |s| {
      LettersOfPrefix(s[..|s| - 1], n);
      assert s[..|s| - 1][..n] == s[..n];
    } else {
      assert s[..n] == s;
    }
  }

  lemma {:induction false} LettersTrimmed(s: string)
    ensures Letters(TrimRight(s)) == Letters(s)
  {
    if s != "" && s[|s| - 1] == '-' { LettersTrimmed(s[..|s| - 1]); }
  }

  /** dnsLabel keeps the letters and digits of the lower-cased name, in order, and drops some only by cutting at 63. */
  lemma MqKeepsLetters(s: string)
    ensures Letters(MqLabel(s)) <= Letters(LowerAll(s))
    ensures |Trim(Squeezed(LowerAll(s)))| <= 63 ==> Letters(MqLabel(s)) == Letters(LowerAll(s))
  {
    var b := Squeezed(LowerAll(s));
    SqueezedFacts(LowerAll(s));
    TrimLeftFacts(b);
    LettersTrimmed(b);
    if |Trim(b)| > 63 {
      LettersTrimmed(Trim(b)[..63]);
      LettersOfPrefix(Trim(b), 63);
    }
  }

  /** A character that a label cannot have is dropped, and of two dashes the second. */
  lemma {:induction false} SqueezedDrops(a: string, c: char, b: string)
    ensures !IsLabelChar(c) ==> Squeezed(a + [c] + b) == Squeezed(a + b)
    ensures c == '-' && a != "" && a[|a| - 1] == '-' ==> Squeezed(a + [c] + b) == Squeezed(a + b)
    decreases |b|
  {
    if b == "" {
      assert a + [c] + b == a + [c] && (a + [c])[..|a|] == a && a + b == a;
    } else {
      var x, y := a + [c] + b, a + b;
      assert x[..|x| - 1] == a + [c] + b[..|b| - 1] && y[..|y| - 1] == a + b[..|b| - 1];
      SqueezedDrops(a, c, b[..|b| - 1]);
    }
  }

  predicate AllDashes(s: string) { forall i :: 0 <= i < |s| ==> s[i] == '-' }

  lemma {:induction false} TrimRightDashes(s: string)
    ensures exists dashes :: AllDashes(dashes) && s == TrimRight(s) + dashes
  {
    if s != "" && s[|s| - 1] == '-' {
      TrimRightDashes(s[..|s| - 1]);
      var dashes :| AllDashes(dashes) && s[..|s| - 1] == TrimRight(s[..|s| - 1]) + dashes;
      assert AllDashes(dashes + "-") && s == TrimRight(s) + (dashes + "-");
    } else {
      assert AllDashes("") && s == TrimRight(s) + "";
    }
  }

  lemma {:induction false} TrimLeftDashes(s: string)
    ensures exists dashes :: AllDashes(dashes) && s == dashes + TrimLeft(s)
  {
    if s != "" && s[0] == '-' {
      TrimLeftDashes(s[1..]);
      var dashes :| AllDashes(dashes) && s[1..] == dashes + TrimLeft(s[1..]);
      assert AllDashes("-" + dashes) && s == ("-" + dashes) + TrimLeft(s);
    } else {
      assert AllDashes("") && s == "" + TrimLeft(s);
    }
  }

  /** Trimming takes dashes from both ends, and leaves none there. */
  lemma TrimMeans(s: string)
    ensures exists left, right :: AllDashes(left) && AllDashes(right) && s == left + Trim(s) + right
    ensures DashInside(Trim(s))
  {
    TrimLeftDashes(s);
    TrimRightDashes(TrimLeft(s));
    TrimRightFacts(TrimLeft(s));
    TrimLeftFacts(s);
    hide TrimLeft, TrimRight;
    var left :| AllDashes(left) && s == left + TrimLeft(s);
    var right :| AllDashes(right) && TrimLeft(s) == Trim(s) + right;
    assert s == left + Trim(s) + right;
  }

  /** A name that is too long is cut after 63 characters, and dashes at the cut are taken off. */
  lemma MqCut(s: string)
    ensures var whole := Trim(Squeezed(LowerAll(s)));
            if |whole| <= 63 then MqLabel(s) == whole
            else exists dashes :: AllDashes(dashes) && whole[..63] == MqLabel(s) + dashes
  {
    TrimRightDashes(if |Trim(Squeezed(LowerAll(s)))| > 63 then Trim(Squeezed(LowerAll(s)))[..63] else "");
  }

  /** Capital letters become small ones, the two other letters that do become ASCII, and everything else stays. */
  lemma LowerMeans(c: char)
    ensures 'A' <= c <= 'Z' ==> Lower(c) as int - 'a' as int == c as int - 'A' as int
    ensures !('A' <= c <= 'Z') && c != '\U{212A}' && c != '\U{0130}' ==> Lower(c) == c
    ensures Lower('\U{212A}') == 'k' && Lower('\U{0130}') == 'i'
  {
  }

  // ----- dnsLabel of the gateway -----

  /** Each run of characters that a label cannot have becomes one dash. */
  function Dashed(s: string): string {
    if s == "" then ""
    else
      var b, c := Dashed(s[..|s| - 1]), s[|s| - 1];
      if IsLabelChar(c) then b + [c]
      else if |s| > 1 && !IsLabelChar(s[|s| - 2]) then b
      else b + "-"
  }

  function GatewayLabel(s: string): string {
    var out := Trim(Dashed(LowerAll(s)));
    if out == "" then "fn" else if |out| > 40 then Trim(out[..40]) else out
  }

  /** The names that dnsLabel of the gateway leaves alone: the function names and trigger ids it accepts. */
  predicate GatewayFixed(s: string) {
    s != "" && |s| <= 40 && LabelChars(s) && DashInside(s)
  }

  lemma {:induction false} DashedFacts(s: string)
    ensures LabelChars(Dashed(s))
    ensures LabelChars(s) ==> Dashed(s) == s
  {
    if s != "" {
      DashedFacts(s[..|s| - 1]);
      assert s == s[..|s| - 1] + [s[|s| - 1]];
    }
  }

  lemma GatewayLabelIsFixed(s: string)
    ensures GatewayFixed(GatewayLabel(s))
  {
    var b := Dashed(LowerAll(s));
    DashedFacts(LowerAll(s));
    TrimFacts(b);
    if |Trim(b)| > 40 {
      CutFacts(Trim(b), 40);
      TrimLeftFacts(Trim(b)[..40]);
    }
  }

  lemma GatewayFixedPoints(s: string)
    ensures GatewayLabel(s) == s <==> GatewayFixed(s)
  {
    GatewayLabelIsFixed(s);
    if GatewayFixed(s) {
      LowerNothing(s);
      DashedFacts(s);
      TrimFacts(s);
    }
  }

  lemma GatewayIdempotent(s: string)
    ensures GatewayLabel(GatewayLabel(s)) == GatewayLabel(s)
  {
    GatewayLabelIsFixed(s);
    GatewayFixedPoints(GatewayLabel(s));
  }

  predicate NoLabelChars(s: string) { forall i :: 0 <= i < |s| ==> !IsLabelChar(s[i]) }

  /** Each run of characters that a label cannot have becomes one dash; what stands before and after it stays apart. */
  lemma {:induction false} DashedRun(a: string, junk: string, b: string)
    requires junk != "" && NoLabelChars(junk)
    requires (a == "" || IsLabelChar(a[|a| - 1])) && (b == "" || IsLabelChar(b[0]))
    ensures Dashed(a + junk + b) == Dashed(a) + "-" + Dashed(b)
    decreases |b|, |junk|
  {
    var s := a + junk + b;
    var init := s[..|s| - 1];
    if b != "" {
      assert init == a + junk + b[..|b| - 1];
      DashedRun(a, junk, b[..|b| - 1]);
      assert s[|s| - 1] == b[|b| - 1];
      assert |b| > 1 ==> s[|s| - 2] == b[|b| - 2];
    } else {
      assert s == a + junk && init == a + junk[..|junk| - 1];
      if |junk| > 1 {
        DashedRun(a, junk[..|junk| - 1], "");
        assert init == a + junk[..|junk| - 1] + "";
        assert s[|s| - 2] == junk[|junk| - 2];
      } else {
        assert init == a;
      }
    }
  }

  /** An empty result becomes "fn"; one that is too long is cut after 40 characters, and dashes at the cut are taken
      off. */
  lemma GatewayCut(s: string)
    ensures var whole := Trim(Dashed(LowerAll(s)));
            && (whole == "" ==> GatewayLabel(s) == "fn")
            && (0 < |whole| <= 40 ==> GatewayLabel(s) == whole)
            && (|whole| > 40 ==> exists dashes :: AllDashes(dashes) && whole[..40] == GatewayLabel(s) + dashes)
  {
    var b := Dashed(LowerAll(s));
    DashedFacts(LowerAll(s));
    TrimFacts(b);
    if |Trim(b)| > 40 {
      TrimLeftFacts(Trim(b)[..40]);
      TrimRightDashes(Trim(b)[..40]);
    }
  }

  /** Every function name that the gateway accepts satisfies isDNSLabel of mqsvc. */
  lemma AcceptedNamesAreLabels(name: string)
    requires name == GatewayLabel(name)
    ensures DnsLabel(name)
  {
    GatewayFixedPoints(name);
  }

  /** A trigger id that the gateway accepts is accepted by mqsvc's configuration exactly if it has no double dash. */
  lemma AcceptedIdsMayDiffer(id: string)
    requires id == GatewayLabel(id)
    ensures id == MqLabel(id) <==> NoDoubleDash(id)
  {
    GatewayFixedPoints(id);
    MqFixedPoints(id);
  }

  // ----- keys and ids -----

  /** A separator that the last part does not contain can be found again. */
  lemma SplitsOnce(a: string, x: string, b: string, y: string, sep: char)
    requires sep !in x && sep !in y && a + [sep] + x == b + [sep] + y
    ensures a == b && x == y
  {
    var s := a + [sep] + x;
    assert s[|a|] == sep && s[|b|] == sep;
    forall k | |a| < k < |s| ensures s[k] != sep {
      assert s[k] == x[k - |a| - 1];
    }
    forall k | |b| < k < |s| ensures s[k] != sep {
      assert s[k] == y[k - |b| - 1];
    }
    assert s[..|a|] == a && s[..|a|] == b;
    assert s[|a| + 1..] == x && s[|a| + 1..] == y;
  }

  function TriggerKey(mqId: string, func: string, id: string): string {
    mqId + ":" + func + ":" + id
  }

  /** triggerKey is injective where function and id are fixed points of either sanitiser, whatever the mq_ids. */
  lemma TriggerKeyIsInjective(m: string, f: string, i: string, m': string, f': string, i': string)
    requires LabelChars(f) && LabelChars(i) && LabelChars(f') && LabelChars(i')
    requires TriggerKey(m, f, i) == TriggerKey(m', f', i')
    ensures m == m' && f == f' && i == i'
  {
    SplitsOnce(m + ":" + f, i, m' + ":" + f', i', ':');
    SplitsOnce(m, f, m', f', ':');
  }

  function Decimal(n: nat): (d: string)
    ensures d != ""
  {
    (if n < 10 then "" else Decimal(n / 10)) + [('0' as int + n % 10) as char]
  }

  lemma {:induction false} DecimalHasNoDash(n: nat)
    ensures '-' !in Decimal(n)
  {
    if n >= 10 { DecimalHasNoDash(n / 10); }
  }

  lemma {:induction false} DecimalIsInjective(m: nat, n: nat)
    requires Decimal(m) == Decimal(n)
    ensures m == n
    decreases m
  {
    var d := Decimal(m);
    assert d[|d| - 1] == ('0' as int + m % 10) as char == ('0' as int + n % 10) as char;
    assert d[..|d| - 1] == (if m < 10 then "" else Decimal(m / 10)) == (if n < 10 then "" else Decimal(n / 10));
    if m >= 10 && n >= 10 { DecimalIsInjective(m / 10, n / 10); }
  }

  /** The pod name of an instance: built from the function's name and the port alone. */
  function InstanceId(name: string, port: nat): string {
    "faas-" + GatewayLabel(name) + "-" + Decimal(port)
  }

  /** For an accepted name it is the name between "faas-" and the port. */
  lemma InstanceIdParts(name: string, port: nat)
    requires name == GatewayLabel(name)
    ensures var id, n := InstanceId(name, port), |name|;
            && |id| > n + 6 && id[..5] == "faas-" && id[5..5 + n] == name && id[5 + n] == '-'
            && id[n + 6..] == Decimal(port)
  {
  }

  /** Two accepted functions share an instance id only for the same name and port. */
  lemma InstanceIdIsInjective(name: string, port: nat, name': string, port': nat)
    requires name == GatewayLabel(name) && name' == GatewayLabel(name')
    requires InstanceId(name, port) == InstanceId(name', port')
    ensures name == name' && port == port'
  {
    DecimalHasNoDash(port);
    DecimalHasNoDash(port');
    SplitsOnce("faas-" + name, Decimal(port), "faas-" + name', Decimal(port'), '-');
    assert ("faas-" + name)[5..] == name && ("faas-" + name')[5..] == name';
    DecimalIsInjective(port, port');
  }
}
