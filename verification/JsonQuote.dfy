/** quote and errorJson of JavaBootstrap.java: what they print, the scanner reads back. */
module JsonQuote {
  import opened JsonGrammar
  import opened JsonScanner

  /** A lower-case hexadecimal digit, as String.format("%04x") prints it. */
  function HexDigit(n: nat): (c: Unit)
    requires n < 16
    ensures IsHex(c)
  {
    if n < 10 then 0x30 + n else 0x61 + n - 10
  }

  /** What quote appends for one char. */
  function Escaped(c: Unit): seq<Unit> {
    if c == BACKSLASH then [BACKSLASH, BACKSLASH]
    else if c == QUOTE then [BACKSLASH, QUOTE]
    else if c == 0x0A then [BACKSLASH, 0x6E]
    else if c == 0x0D then [BACKSLASH, 0x72]
    else if c == 0x09 then [BACKSLASH, 0x74]
    else if c < 0x20 then [BACKSLASH, 0x75, 0x30, 0x30, HexDigit(c / 16), HexDigit(c % 16)]
    else [c]
  }

  /** What is printed for one char: itself, a short escape, or four small hexadecimal digits for other controls. */
  lemma EscapedExactly(c: Unit)
    ensures c == '"' as int || c == '\\' as int ==> Escaped(c) == ['\\' as int, c]
    ensures Escaped(0x0A) == ['\\' as int, 'n' as int] && Escaped(0x0D) == ['\\' as int, 'r' as int]
    ensures Escaped(0x09) == ['\\' as int, 't' as int]
    ensures c >= 0x20 && c != '"' as int && c != '\\' as int ==> Escaped(c) == [c]
    ensures c < 0x20 && c !in {0x0A, 0x0D, 0x09} ==>
              && |Escaped(c)| == 6 && Escaped(c)[..4] == ['\\' as int, 'u' as int, '0' as int, '0' as int]
              && Escaped(c)[4] == (if c < 0x10 then '0' as int else '1' as int)
              && Escaped(c)[5] == if c % 16 < 10 then '0' as int + c % 16 else 'a' as int + c % 16 - 10
  {
  }

  function EscapedAll(v: seq<Unit>): seq<Unit> {
    if v == [] then [] else Escaped(v[0]) + EscapedAll(v[1..])
  }

  function Quoted(v: seq<Unit>): seq<Unit> {
    [QUOTE] + EscapedAll(v) + [QUOTE]
  }

  lemma {:induction false} EscapedSnoc(v: seq<Unit>, c: Unit)
    ensures EscapedAll(v + [c]) == EscapedAll(v) + Escaped(c)
  {
    if v == [] {
      assert v + [c] == [c];
      assert EscapedAll([c]) == Escaped(c) + EscapedAll([]);
    } else {
      assert (v + [c])[1..] == v[1..] + [c];
      EscapedSnoc(v[1..], c);
    }
  }

  /** quote: the StringBuilder grows by one escape in each turn. */
  method Quote(value: seq<Unit>) returns (sb: seq<Unit>)
    ensures sb == Quoted(value)
  {
    sb := [QUOTE];
    for i := 0 to |value|
      invariant sb == [QUOTE] + EscapedAll(value[..i])
    {
      var c := value[i];
      ghost var was := sb;
      if c == BACKSLASH {
        sb := sb + [BACKSLASH, BACKSLASH];
      } else if c == QUOTE {
        sb := sb + [BACKSLASH, QUOTE];
      } else if c == 0x0A {
        sb := sb + [BACKSLASH, 0x6E];
      } else if c == 0x0D {
        sb := sb + [BACKSLASH, 0x72];
      } else if c == 0x09 {
        sb := sb + [BACKSLASH, 0x74];
      } else if c < 0x20 {
        sb := sb + [BACKSLASH, 0x75, 0x30, 0x30, HexDigit(c / 16), HexDigit(c % 16)];
      } else {
        sb := sb + [c];
      }
      assert sb == was + Escaped(c);
      EscapedTurn(value, i);
    }
    assert value[..|value|] == value;
    sb := sb + [QUOTE];
  }

  lemma EscapedTurn(value: seq<Unit>, i: nat)
    requires i < |value|
    ensures [QUOTE] + EscapedAll(value[..i + 1]) == [QUOTE] + EscapedAll(value[..i]) + Escaped(value[i])
  {
    EscapedSnoc(value[..i], value[i]);
    assert value[..i + 1] == value[..i] + [value[i]];
  }

  // ----- decoding, by section 7 of RFC 8259 -----

  function HexValue(c: Unit): (n: nat)
    requires IsHex(c)
    ensures n < 16
  {
    if IsDigit(c) then c - 0x30 else if c >= 0x61 then c - 0x61 + 10 else c - 0x41 + 10
  }

  function SimpleEscape(c: Unit): Unit
    requires IsEscape(c)
  {
    if c == 0x62 then 0x08 else if c == 0x66 then 0x0C else if c == 0x6E then 0x0A
    else if c == 0x72 then 0x0D else if c == 0x74 then 0x09 else c
  }

  /** What the short escapes stand for, by section 7. */
  lemma EscapesMean()
    ensures SimpleEscape('b' as int) == 8 && SimpleEscape('t' as int) == 9 && SimpleEscape('n' as int) == 10
    ensures SimpleEscape('f' as int) == 12 && SimpleEscape('r' as int) == 13
    ensures SimpleEscape('"' as int) == '"' as int && SimpleEscape('\\' as int) == '\\' as int
    ensures SimpleEscape('/' as int) == '/' as int
  {
  }

  /** The units that a string stands for, from `i` just after its opening quote to its closing quote. */
  function Decode(t: seq<Unit>, i: nat): seq<Unit>
    requires i <= |t| && ReadString(t, i).At?
    decreases |t| - i
  {
    if t[i] == QUOTE then []
    else if t[i] != BACKSLASH then [t[i]] + Decode(t, i + 1)
    else if t[i + 1] == 0x75 then
      [HexValue(t[i + 2]) * 4096 + HexValue(t[i + 3]) * 256 + HexValue(t[i + 4]) * 16 + HexValue(t[i + 5])]
        + Decode(t, i + 6)
    else [SimpleEscape(t[i + 1])] + Decode(t, i + 2)
  }

  /** The units of `part` stand in `t` at `i`. */
  predicate Stands(t: seq<Unit>, i: nat, part: seq<Unit>) {
    i + |part| <= |t| && t[i..i + |part|] == part
  }

  lemma StandsAt(t: seq<Unit>, i: nat, part: seq<Unit>, k: nat)
    requires Stands(t, i, part) && k < |part|
    ensures t[i + k] == part[k]
  {
    assert t[i + k] == t[i..i + |part|][k];
  }

  lemma StandsApart(t: seq<Unit>, i: nat, a: seq<Unit>, b: seq<Unit>)
    requires Stands(t, i, a + b)
    ensures Stands(t, i, a) && Stands(t, i + |a|, b)
  {
    var w := t[i..i + |a + b|];
    assert t[i..i + |a|] == w[..|a|] == a;
    assert t[i + |a|..i + |a| + |b|] == w[|a|..] == b;
  }

  /** One escape is read as one char and decodes to that char. */
  lemma ReadsOne(t: seq<Unit>, i: nat, c: Unit)
    requires Stands(t, i, Escaped(c))
    ensures ReadString(t, i) == ReadString(t, i + |Escaped(c)|)
    ensures ReadString(t, i).At? ==> Decode(t, i) == [c] + Decode(t, i + |Escaped(c)|)
  {
    var e := Escaped(c);
    StandsAt(t, i, e, 0);
    if |e| > 1 { StandsAt(t, i, e, 1); }
    if |e| > 2 {
      ReadsHex(t, i, c);
    }
  }

  lemma ReadsHex(t: seq<Unit>, i: nat, c: Unit)
    requires Stands(t, i, Escaped(c)) && |Escaped(c)| == 6
    ensures ReadHexDigits(t, i + 2) == At(i + 6)
    ensures HexValue(t[i + 2]) * 4096 + HexValue(t[i + 3]) * 256 + HexValue(t[i + 4]) * 16 + HexValue(t[i + 5]) == c
  {
    var e := Escaped(c);
    StandsAt(t, i, e, 2);
    StandsAt(t, i, e, 3);
    StandsAt(t, i, e, 4);
    StandsAt(t, i, e, 5);
    assert HexValue(HexDigit(c / 16)) == c / 16 && HexValue(HexDigit(c % 16)) == c % 16;
  }

  /** At `i` stand the escapes of `v` and a closing quote: the scanner reads them all, and they decode to `v`. */
  lemma {:induction false} ReadsEscaped(t: seq<Unit>, i: nat, v: seq<Unit>)
    requires Stands(t, i, EscapedAll(v)) && Stands(t, i + |EscapedAll(v)|, [QUOTE])
    ensures ReadString(t, i) == At(i + |EscapedAll(v)| + 1)
    ensures Decode(t, i) == v
    decreases |v|
  {
    hide *;
    if v == [] {
      NothingEscaped(t, i);
    } else {
      EscapedSplit(v);
      FrontAndRest(v);
      var e := Escaped(v[0]);
      StandsApart(t, i, e, EscapedAll(v[1..]));
      ReadsEscaped(t, i + |e|, v[1..]);
      ReadsOne(t, i, v[0]);
    }
  }

  lemma FrontAndRest(v: seq<Unit>)
    requires v != []
    ensures v == [v[0]] + v[1..]
  {
  }

  lemma NothingEscaped(t: seq<Unit>, i: nat)
    ensures EscapedAll([]) == []
    ensures Stands(t, i, [QUOTE]) ==> ReadString(t, i) == At(i + 1) && Decode(t, i) == []
  {
    if Stands(t, i, [QUOTE]) { StandsAt(t, i, [QUOTE], 0); }
  }

  lemma EscapedSplit(v: seq<Unit>)
    requires v != []
    ensures EscapedAll(v) == Escaped(v[0]) + EscapedAll(v[1..])
  {
    hide Escaped;
  }

  /** Reading quote(v) consumes exactly its whole length, and decoding it gives back v. */
  lemma QuoteRoundTrip(v: seq<Unit>)
    ensures ReadString(Quoted(v), 1) == At(|Quoted(v)|)
    ensures Decode(Quoted(v), 1) == v
  {
    assert Stands(Quoted(v), 1, EscapedAll(v));
    assert Stands(Quoted(v), 1 + |EscapedAll(v)|, [QUOTE]);
    ReadsEscaped(Quoted(v), 1, v);
  }

  lemma QuoteIsInjective(v: seq<Unit>, w: seq<Unit>)
    requires Quoted(v) == Quoted(w)
    ensures v == w
  {
    QuoteRoundTrip(v);
    QuoteRoundTrip(w);
  }

  // ----- errorJson -----

  /** The letters of the two member names. */
  const ERROR_TYPE: seq<Unit> := [0x65, 0x72, 0x72, 0x6F, 0x72, 0x54, 0x79, 0x70, 0x65]
  const ERROR_MESSAGE: seq<Unit> := [0x65, 0x72, 0x72, 0x6F, 0x72, 0x4D, 0x65, 0x73, 0x73, 0x61, 0x67, 0x65]
  const ERROR: seq<Unit> := [0x45, 0x72, 0x72, 0x6F, 0x72]

  /** A throwable: null, or its class's simple name and its message, which may be null. */
  datatype Throwable = NoThrowable | Thrown(simpleName: seq<Unit>, message: Text)

  function ErrorJson(err: Throwable): seq<Unit> {
    var kind := if err.NoThrowable? then ERROR else err.simpleName;
    var message := if err.NoThrowable? || err.message.Null? then [] else err.message.units;
    [LBRACE] + Quoted(ERROR_TYPE) + [COLON] + Quoted(kind) + [COMMA] + Quoted(ERROR_MESSAGE) + [COLON] + Quoted(message)
      + [RBRACE]
  }

  /** A quoted string standing anywhere is a string of the grammar. */
  lemma QuotedIsString(t: seq<Unit>, i: nat, v: seq<Unit>)
    requires Stands(t, i, Quoted(v))
    ensures String(t, i, i + |Quoted(v)|)
  {
    hide Quoted, EscapedAll, ReadString, Chars, Stands, Decode;
    QuotedLength(v);
    FitsIn(t, i, Quoted(v));
    ReadsQuoted(t, i, v);
    StringSound(t, i + 1);
  }

  lemma MemberOfStrings(t: seq<Unit>, i: nat, a: nat, j: nat)
    requires String(t, i, a) && a < j <= |t| && t[a] == COLON && String(t, a + 1, j)
    ensures Item(t, true, i, j)
  {
    assert Ws(t, i, i) && Ws(t, a, a) && Ws(t, a + 1, a + 1) && Ws(t, j, j);
    assert Value(t, a + 1, j);
    assert Element(t, a + 1, j);
  }

  /** Every errorJson result is a JSON text, so requireJson accepts it. */
  lemma ErrorJsonIsJson(err: Throwable)
    ensures JsonText(ErrorJson(err))
  {
    hide JsonText, Quoted, String;
    var kind := if err.NoThrowable? then ERROR else err.simpleName;
    var message := if err.NoThrowable? || err.message.Null? then [] else err.message.units;
    TwoMembersAreJson(Quoted(ERROR_TYPE), Quoted(kind), Quoted(ERROR_MESSAGE), Quoted(message), ErrorJson(err),
                      ERROR_TYPE, kind, ERROR_MESSAGE, message);
  }

  lemma TwoMembersAreJson(w: seq<Unit>, x: seq<Unit>, y: seq<Unit>, z: seq<Unit>, t: seq<Unit>,
                          w0: seq<Unit>, x0: seq<Unit>, y0: seq<Unit>, z0: seq<Unit>)
    requires w == Quoted(w0) && x == Quoted(x0) && y == Quoted(y0) && z == Quoted(z0)
    requires t == [LBRACE] + w + [COLON] + x + [COMMA] + y + [COLON] + z + [RBRACE]
    ensures JsonText(t)
  {
    hide *;
    var a := 1 + |w|;
    var b := a + 1 + |x|;
    var c := b + 1 + |y|;
    var d := c + 1 + |z|;
    Layout(w, x, y, z, t);
    QuotedIsString(t, 1, w0);
    QuotedIsString(t, a + 1, x0);
    QuotedIsString(t, b + 1, y0);
    QuotedIsString(t, c + 1, z0);
    TwoMembers(t, a, b, c, d);
  }

  /** Where the parts of errorJson's concatenation stand. */
  lemma Layout(w: seq<Unit>, x: seq<Unit>, y: seq<Unit>, z: seq<Unit>, t: seq<Unit>)
    requires t == [LBRACE] + w + [COLON] + x + [COMMA] + y + [COLON] + z + [RBRACE]
    ensures var a := 1 + |w|; var b := a + 1 + |x|; var c := b + 1 + |y|; var d := c + 1 + |z|;
            && |t| == d + 1
            && t[0] == LBRACE && t[a] == COLON && t[b] == COMMA && t[c] == COLON && t[d] == RBRACE
            && Stands(t, 1, w) && Stands(t, a + 1, x) && Stands(t, b + 1, y) && Stands(t, c + 1, z)
  {
    var a := 1 + |w|;
    var b := a + 1 + |x|;
    var c := b + 1 + |y|;
    assert t[1..a] == w && t[a + 1..b] == x && t[b + 1..c] == y && t[c + 1..c + 1 + |z|] == z;
  }

  lemma TwoMembers(t: seq<Unit>, a: nat, b: nat, c: nat, d: nat)
    requires 1 <= a < b < c < d && |t| == d + 1
    requires t[0] == LBRACE && t[a] == COLON && t[b] == COMMA && t[c] == COLON && t[d] == RBRACE
    requires String(t, 1, a) && String(t, a + 1, b) && String(t, b + 1, c) && String(t, c + 1, d)
    ensures JsonText(t)
  {
    hide *;
    MemberOfStrings(t, 1, a, b);
    MemberOfStrings(t, b + 1, c, d);
    LastItem(t, true, b + 1, d);
    MoreItems(t, true, 1, b, d);
    ClosesWithBrace();
    CompositeIsValue(t, true, 0, |t|);
    ValueIsText(t);
  }

  lemma ClosesWithBrace()
    ensures Close(true) == RBRACE
  {
  }

  lemma ValueIsText(t: seq<Unit>)
    requires Value(t, 0, |t|)
    ensures JsonText(t)
  {
    assert Ws(t, 0, 0) && Ws(t, |t|, |t|);
  }

  function Units(s: string): (u: seq<Unit>)
    requires forall i :: 0 <= i < |s| ==> s[i] as int < 0x1_0000
  {
    seq(|s|, i requires 0 <= i < |s| => s[i] as int)
  }

  /** From i to j stands a string, which is read to its end and stands for v. */
  predicate ReadsAs(t: seq<Unit>, i: nat, j: nat, v: seq<Unit>) {
    i < |t| && t[i] == QUOTE && ReadString(t, i + 1) == At(j) && Decode(t, i + 1) == v
  }

  function KindOf(err: Throwable): seq<Unit> { if err.Thrown? then err.simpleName else ERROR }

  function MessageOf(err: Throwable): seq<Unit> {
    if err.Thrown? && err.message.Of? then err.message.units else []
  }

  /** The three words that errorJson writes itself. */
  lemma WordsAre()
    ensures ERROR_TYPE == Units("errorType") && ERROR_MESSAGE == Units("errorMessage") && ERROR == Units("Error")
  {
  }

  /** The text is an object of two members, with strings from 1 to a, a + 1 to b, and so on. */
  predicate IsObjectOf(t: seq<Unit>, a: nat, b: nat, c: nat, w: seq<Unit>, x: seq<Unit>, y: seq<Unit>, z: seq<Unit>) {
    && 1 < a < b < c < |t| - 1
    && t[0] == '{' as int && t[a] == ':' as int && t[b] == ',' as int && t[c] == ':' as int
    && t[|t| - 1] == '}' as int
    && ReadsAs(t, 1, a, w) && ReadsAs(t, a + 1, b, x) && ReadsAs(t, b + 1, c, y) && ReadsAs(t, c + 1, |t| - 1, z)
  }

  /** What errorJson says: an object whose members are read back as the type and the message: the class's simple name,
      or
      Error for no throwable, and the message, or nothing when there is none. */
  lemma ErrorJsonSays(err: Throwable) returns (a: nat, b: nat, c: nat)
    ensures IsObjectOf(ErrorJson(err), a, b, c, ERROR_TYPE, KindOf(err), ERROR_MESSAGE, MessageOf(err))
  {
    hide Quoted, ReadsAs;
    a, b, c := TwoMembersRead(ErrorJson(err), ERROR_TYPE, KindOf(err), ERROR_MESSAGE, MessageOf(err));
  }

  lemma TwoMembersRead(t: seq<Unit>, w: seq<Unit>, x: seq<Unit>, y: seq<Unit>, z: seq<Unit>)
    returns (a: nat, b: nat, c: nat)
    requires t == [LBRACE] + Quoted(w) + [COLON] + Quoted(x) + [COMMA] + Quoted(y) + [COLON] + Quoted(z) + [RBRACE]
    ensures IsObjectOf(t, a, b, c, w, x, y, z)
  {
    hide *;
    a := 1 + |Quoted(w)|;
    b := a + 1 + |Quoted(x)|;
    c := b + 1 + |Quoted(y)|;
    Layout(Quoted(w), Quoted(x), Quoted(y), Quoted(z), t);
    FourRead(t, a, b, c, w, x, y, z);
  }

  lemma FourRead(t: seq<Unit>, a: nat, b: nat, c: nat, w: seq<Unit>, x: seq<Unit>, y: seq<Unit>, z: seq<Unit>)
    requires a == 1 + |Quoted(w)| && b == a + 1 + |Quoted(x)| && c == b + 1 + |Quoted(y)|
    requires |t| == c + 2 + |Quoted(z)|
    requires t[0] == LBRACE && t[a] == COLON && t[b] == COMMA && t[c] == COLON && t[|t| - 1] == RBRACE
    requires Stands(t, 1, Quoted(w)) && Stands(t, a + 1, Quoted(x))
    requires Stands(t, b + 1, Quoted(y)) && Stands(t, c + 1, Quoted(z))
    ensures IsObjectOf(t, a, b, c, w, x, y, z)
  {
    hide Quoted, ReadsAs, Stands;
    QuotedLength(w);
    QuotedLength(x);
    QuotedLength(y);
    QuotedLength(z);
    ReadsQuoted(t, 1, w);
    ReadsQuoted(t, a + 1, x);
    ReadsQuoted(t, b + 1, y);
    ReadsQuoted(t, c + 1, z);
  }

  lemma QuotedLength(v: seq<Unit>)
    ensures |Quoted(v)| >= 2
  {
    hide EscapedAll;
  }

  lemma QuotedParts(v: seq<Unit>)
    ensures Quoted(v) == [QUOTE] + (EscapedAll(v) + [QUOTE]) && |Quoted(v)| == |EscapedAll(v)| + 2
  {
    hide EscapedAll;
  }

  /** A quotation that stands anywhere is read as the string it quotes. */
  lemma ReadsQuoted(t: seq<Unit>, i: nat, v: seq<Unit>)
    requires Stands(t, i, Quoted(v))
    ensures ReadsAs(t, i, i + |Quoted(v)|, v)
  {
    hide Quoted, EscapedAll, ReadString, Decode, Stands;
    QuotedParts(v);
    StandsAt(t, i, Quoted(v), 0);
    StandsApart(t, i, [QUOTE], EscapedAll(v) + [QUOTE]);
    StandsApart(t, i + 1, EscapedAll(v), [QUOTE]);
    ReadsEscaped(t, i + 1, v);
    FitsIn(t, i, Quoted(v));
  }

  lemma FitsIn(t: seq<Unit>, i: nat, part: seq<Unit>)
    requires Stands(t, i, part)
    ensures i + |part| <= |t|
  {
  }
}
