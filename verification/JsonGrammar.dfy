/** The grammar of sections 2 to 7 of RFC 8259 over UTF-16 code units, with whitespace widened to what
    java.lang.Character.isWhitespace accepts.  Each predicate says that the units `t[i..j]` derive from the
    rule of the same name. */
module JsonGrammar {

  /** A Java char: one UTF-16 code unit. */
  type Unit = u: int | 0 <= u < 0x1_0000

  const LBRACE: Unit := 0x7B
  const RBRACE: Unit := 0x7D
  const LBRACKET: Unit := 0x5B
  const RBRACKET: Unit := 0x5D
  const COLON: Unit := 0x3A
  const COMMA: Unit := 0x2C
  const QUOTE: Unit := 0x22
  const BACKSLASH: Unit := 0x5C
  const MINUS: Unit := 0x2D
  const PLUS: Unit := 0x2B
  const POINT: Unit := 0x2E
  const ZERO: Unit := 0x30
  const TRUE: seq<Unit> := [0x74, 0x72, 0x75, 0x65]
  const FALSE: seq<Unit> := [0x66, 0x61, 0x6C, 0x73, 0x65]
  const NULL: seq<Unit> := [0x6E, 0x75, 0x6C, 0x6C]

  /** Character.isWhitespace on a char: the space, line and paragraph separators except the no-break
      spaces U+00A0, U+2007 and U+202F, and the controls U+0009 to U+000D and U+001C to U+001F. */
  predicate IsWhitespace(c: Unit) {
    || 0x09 <= c <= 0x0D || 0x1C <= c <= 0x20
    || c == 0x1680 || 0x2000 <= c <= 0x2006 || 0x2008 <= c <= 0x200A
    || c == 0x2028 || c == 0x2029 || c == 0x205F || c == 0x3000
  }

  predicate IsDigit(c: Unit) { 0x30 <= c <= 0x39 }
  predicate IsHex(c: Unit) { IsDigit(c) || 0x61 <= c <= 0x66 || 0x41 <= c <= 0x46 }
  predicate IsE(c: Unit) { c == 0x65 || c == 0x45 }

  /** The units that may follow a backslash, other than u. */
  predicate IsEscape(c: Unit) {
    c in {BACKSLASH, QUOTE, 0x2F, 0x62, 0x66, 0x6E, 0x72, 0x74}
  }

  predicate IsUnescaped(c: Unit) { c >= 0x20 && c != QUOTE && c != BACKSLASH }

  /** The same classes by their characters, as the rules of RFC 8259 name them; below U+0100 the widened whitespace adds
      the vertical tab, the form feed and the four separator controls. */
  lemma CharacterClasses(c: Unit)
    ensures IsDigit(c) <==> '0' as int <= c <= '9' as int
    ensures IsHex(c)
            <==> '0' as int <= c <= '9' as int || 'a' as int <= c <= 'f' as int || 'A' as int <= c <= 'F' as int
    ensures IsE(c) <==> c == 'e' as int || c == 'E' as int
    ensures IsEscape(c) <==> c in {'"' as int, '\\' as int, '/' as int, 'b' as int, 'f' as int, 'n' as int, 'r' as int,
                                   't' as int}
    ensures IsUnescaped(c) <==> 0x20 <= c <= 0x21 || 0x23 <= c <= 0x5B || 0x5D <= c
    ensures c < 0x100 ==> (IsWhitespace(c) <==> c in {' ' as int, '\t' as int, '\n' as int, '\r' as int,
                                                      0x0B, 0x0C, 0x1C, 0x1D, 0x1E, 0x1F})
  {
  }

  lemma Tokens()
    ensures LBRACE == '{' as int && RBRACE == '}' as int && LBRACKET == '[' as int && RBRACKET == ']' as int
    ensures COLON == ':' as int && COMMA == ',' as int && QUOTE == '"' as int && BACKSLASH == '\\' as int
    ensures MINUS == '-' as int && PLUS == '+' as int && POINT == '.' as int && ZERO == '0' as int
    ensures TRUE == ['t' as int, 'r' as int, 'u' as int, 'e' as int]
    ensures FALSE == ['f' as int, 'a' as int, 'l' as int, 's' as int, 'e' as int]
    ensures NULL == ['n' as int, 'u' as int, 'l' as int, 'l' as int]
  {
  }

  predicate Within(t: seq<Unit>, i: nat, j: nat) { i <= j <= |t| }

  ghost predicate Ws(t: seq<Unit>, i: nat, j: nat) {
    Within(t, i, j) && forall k :: i <= k < j ==> IsWhitespace(t[k])
  }

  // ----- section 3: literal names -----

  ghost predicate Literal(t: seq<Unit>, i: nat, j: nat) {
    Within(t, i, j) && (t[i..j] == TRUE || t[i..j] == FALSE || t[i..j] == NULL)
  }

  // ----- section 6: numbers -----

  ghost predicate Digits(t: seq<Unit>, i: nat, j: nat) {
    i < j <= |t| && forall k :: i <= k < j ==> IsDigit(t[k])
  }

  ghost predicate Int(t: seq<Unit>, i: nat, j: nat) {
    Digits(t, i, j) && (t[i] != ZERO || j == i + 1)
  }

  ghost predicate Frac(t: seq<Unit>, i: nat, j: nat) {
    i == j || (i < j <= |t| && t[i] == POINT && Digits(t, i + 1, j))
  }

  ghost predicate Exp(t: seq<Unit>, i: nat, j: nat) {
    i == j || (i + 1 < j <= |t| && IsE(t[i])
               && (Digits(t, i + 1, j) || ((t[i + 1] == PLUS || t[i + 1] == MINUS) && Digits(t, i + 2, j))))
  }

  ghost predicate Unsigned(t: seq<Unit>, i: nat, j: nat) {
    exists a: nat, b: nat :: a <= b <= j && Int(t, i, a) && Frac(t, a, b) && Exp(t, b, j)
  }

  ghost predicate Number(t: seq<Unit>, i: nat, j: nat) {
    Unsigned(t, i, j) || (i < |t| && t[i] == MINUS && Unsigned(t, i + 1, j))
  }

  // ----- section 7: strings -----

  ghost predicate Hex4(t: seq<Unit>, i: nat, j: nat) {
    j == i + 4 <= |t| && forall k :: i <= k < j ==> IsHex(t[k])
  }

  /** *char */
  ghost predicate Chars(t: seq<Unit>, i: nat, j: nat)
    requires Within(t, i, j)
    decreases j - i
  {
    || i == j
    || (i < j && IsUnescaped(t[i]) && Chars(t, i + 1, j))
    || (i + 2 <= j && t[i] == BACKSLASH && IsEscape(t[i + 1]) && Chars(t, i + 2, j))
    || (i + 6 <= j && t[i] == BACKSLASH && t[i + 1] == 0x75 && Hex4(t, i + 2, i + 6) && Chars(t, i + 6, j))
  }

  ghost predicate String(t: seq<Unit>, i: nat, j: nat) {
    i + 2 <= j <= |t| && t[i] == QUOTE && t[j - 1] == QUOTE && Chars(t, i + 1, j - 1)
  }

  // ----- sections 2 to 5: texts, values, objects and arrays -----

  ghost predicate Value(t: seq<Unit>, i: nat, j: nat)
    requires Within(t, i, j)
    decreases j - i, 3
  {
    || Literal(t, i, j) || Number(t, i, j) || String(t, i, j)
    || (i + 2 <= j && t[i] == LBRACKET && t[j - 1] == RBRACKET
         && (Ws(t, i + 1, j - 1) || Items(t, false, i + 1, j - 1)))
    || (i + 2 <= j && t[i] == LBRACE && t[j - 1] == RBRACE && (Ws(t, i + 1, j - 1) || Items(t, true, i + 1, j - 1)))
  }

  /** A value with the whitespace that the structural characters around it allow. */
  ghost predicate Element(t: seq<Unit>, i: nat, j: nat)
    requires Within(t, i, j)
    decreases j - i, 4
  {
    exists a: nat, b: nat :: i <= a <= b <= j && Ws(t, i, a) && Value(t, a, b) && Ws(t, b, j)
  }

  /** An element of an array, or a member of an object: a string, a colon and an element. */
  ghost predicate Item(t: seq<Unit>, member: bool, i: nat, j: nat)
    requires Within(t, i, j)
    decreases j - i, 5
  {
    if member then
      exists a: nat, b: nat, c: nat :: i <= a <= b <= c < j && Ws(t, i, a) && String(t, a, b)
                                       && Ws(t, b, c) && t[c] == COLON && Element(t, c + 1, j)
    else Element(t, i, j)
  }

  /** One or more items separated by commas. */
  ghost predicate Items(t: seq<Unit>, member: bool, i: nat, j: nat)
    requires Within(t, i, j)
    decreases j - i, 6
  {
    Item(t, member, i, j)
    || exists k: nat :: i <= k < j && t[k] == COMMA && Item(t, member, i, k) && Items(t, member, k + 1, j)
  }

  ghost predicate JsonText(t: seq<Unit>) {
    Element(t, 0, |t|)
  }
}
