/** JsonScanner and requireJson of runtime/bootstrap/java/JavaBootstrap.java.

    The functions give the position after each construct, None where the Java code throws.  The class is
    the scanner itself; the lemmas show that it accepts exactly the grammar. */
module JsonScanner {
  import opened JsonGrammar

  datatype Position = None | At(pos: nat)

  function SkipWhitespace(t: seq<Unit>, i: nat): (j: nat)
    requires i <= |t|
    ensures Ws(t, i, j) && (j < |t| ==> !IsWhitespace(t[j]))
    decreases |t| - i
  {
    if i < |t| && IsWhitespace(t[i]) then SkipWhitespace(t, i + 1) else i
  }

  function ReadDigits(t: seq<Unit>, i: nat): (j: nat)
    requires i <= |t|
    ensures i <= j <= |t| && (forall k :: i <= k < j ==> IsDigit(t[k])) && (j < |t| ==> !IsDigit(t[j]))
    decreases |t| - i
  {
    if i < |t| && IsDigit(t[i]) then ReadDigits(t, i + 1) else i
  }

  function ReadHexDigits(t: seq<Unit>, i: nat): (r: Position)
    ensures r.At? ==> i < r.pos <= |t|
  {
    if i + 4 <= |t| && IsHex(t[i]) && IsHex(t[i + 1]) && IsHex(t[i + 2]) && IsHex(t[i + 3]) then At(i + 4) else None
  }

  /** The string whose opening quote has been read. */
  function ReadString(t: seq<Unit>, i: nat): (r: Position)
    requires i <= |t|
    ensures r.At? ==> i < r.pos <= |t|
    decreases |t| - i
  {
    if i == |t| then None
    else if t[i] == QUOTE then At(i + 1)
    else if t[i] == BACKSLASH then
      if i + 1 == |t| then None
      else if t[i + 1] == 0x75 then
        match ReadHexDigits(t, i + 2)
        case None => None
        case At(j) => ReadString(t, j)
      else if IsEscape(t[i + 1]) then ReadString(t, i + 2)
      else None
    else if t[i] < 0x20 then None
    else ReadString(t, i + 1)
  }

  function ReadLiteral(t: seq<Unit>, i: nat, suffix: seq<Unit>): (r: Position)
    ensures r.At? ==> i <= r.pos <= |t|
  {
    if i + |suffix| <= |t| && t[i..i + |suffix|] == suffix then At(i + |suffix|) else None
  }

  /** The integer part: `first` is the unit just before `i`. */
  function ReadInt(t: seq<Unit>, i: nat, first: Unit): (r: Position)
    requires i <= |t|
    ensures r.At? ==> i <= r.pos <= |t|
  {
    if first == ZERO then (if i < |t| && IsDigit(t[i]) then None else At(i))
    else if IsDigit(first) then At(ReadDigits(t, i))
    else None
  }

  function ReadFrac(t: seq<Unit>, i: nat): (r: Position)
    requires i <= |t|
    ensures r.At? ==> i <= r.pos <= |t|
  {
    if i < |t| && t[i] == POINT then
      (if i + 1 == |t| || !IsDigit(t[i + 1]) then None else At(ReadDigits(t, i + 1)))
    else At(i)
  }

  function ReadExp(t: seq<Unit>, i: nat): (r: Position)
    requires i <= |t|
    ensures r.At? ==> i <= r.pos <= |t|
  {
    if i < |t| && IsE(t[i]) then
      var k := if i + 1 < |t| && (t[i + 1] == PLUS || t[i + 1] == MINUS) then i + 2 else i + 1;
      (if k == |t| || !IsDigit(t[k]) then None else At(ReadDigits(t, k)))
    else At(i)
  }

  /** The number whose first unit, a minus or a digit, is just before `i`. */
  function ReadNumber(t: seq<Unit>, i: nat, first: Unit): (r: Position)
    requires i <= |t|
    ensures r.At? ==> i <= r.pos <= |t|
  {
    if first == MINUS && i == |t| then None
    else
      var start := if first == MINUS then i + 1 else i;
      match ReadInt(t, start, if first == MINUS then t[i] else first)
      case None => None
      case At(a) =>
        match ReadFrac(t, a)
        case None => None
        case At(b) => ReadExp(t, b)
  }

  /** A string, literal name or number. */
  function ReadScalar(t: seq<Unit>, a: nat): (r: Position)
    requires a < |t|
    ensures r.At? ==> a < r.pos <= |t|
  {
    if t[a] == QUOTE then ReadString(t, a + 1)
    else if t[a] == TRUE[0] then ReadLiteral(t, a + 1, TRUE[1..])
    else if t[a] == FALSE[0] then ReadLiteral(t, a + 1, FALSE[1..])
    else if t[a] == NULL[0] then ReadLiteral(t, a + 1, NULL[1..])
    else if t[a] == MINUS || IsDigit(t[a]) then ReadNumber(t, a + 1, t[a])
    else None
  }

  function ReadValue(t: seq<Unit>, i: nat): (r: Position)
    requires i <= |t|
    ensures r.At? ==> i < r.pos <= |t|
    decreases |t| - i, 0
  {
    var a := SkipWhitespace(t, i);
    if a == |t| then None
    else if t[a] == LBRACE then ReadComposite(t, a + 1, true)
    else if t[a] == LBRACKET then ReadComposite(t, a + 1, false)
    else ReadScalar(t, a)
  }

  function Close(member: bool): Unit { if member then RBRACE else RBRACKET }

  /** The object or array whose opening unit has been read. */
  function ReadComposite(t: seq<Unit>, i: nat, member: bool): (r: Position)
    requires i <= |t|
    ensures r.At? ==> i < r.pos <= |t|
    decreases |t| - i, 3
  {
    var a := SkipWhitespace(t, i);
    if a < |t| && t[a] == Close(member) then At(a + 1) else ReadItems(t, a, member)
  }

  /** What one turn of the loop reads before the value: in an object the name and the colon. */
  function ReadName(t: seq<Unit>, i: nat): (r: Position)
    requires i <= |t|
    ensures r.At? ==> i < r.pos <= |t|
  {
    var a := SkipWhitespace(t, i);
    if a == |t| || t[a] != QUOTE then None
    else
      match ReadString(t, a + 1)
      case None => None
      case At(b) =>
        var c := SkipWhitespace(t, b);
        if c == |t| || t[c] != COLON then None else At(c + 1)
  }

  /** How one turn of the loop of readComposite ends: it throws, continues after a comma, or returns. */
  datatype Turn = Throws | Continues(pos: nat) | Returns(pos: nat)

  function ReadItem(t: seq<Unit>, i: nat, member: bool): (r: Turn)
    requires i <= |t|
    ensures !r.Throws? ==> i < r.pos <= |t|
    decreases |t| - i, 1
  {
    var start := if member then ReadName(t, i) else At(i);
    if start == None then Throws
    else
      var value := ReadValue(t, start.pos);
      if value == None then Throws
      else
        var k := SkipWhitespace(t, value.pos);
        if k < |t| && t[k] == COMMA then Continues(k + 1)
        else if k < |t| && t[k] == Close(member) then Returns(k + 1)
        else Throws
  }

  /** The loop of readComposite. */
  function ReadItems(t: seq<Unit>, i: nat, member: bool): (r: Position)
    requires i <= |t|
    ensures r.At? ==> i < r.pos <= |t|
    decreases |t| - i, 2
  {
    match ReadItem(t, i, member)
    case Throws => None
    case Continues(k) => ReadItems(t, k, member)
    case Returns(k) => At(k)
  }

  // ----- the scanner reads what the grammar derives -----

  lemma {:induction false} StringSound(t: seq<Unit>, i: nat)
    requires i <= |t| && ReadString(t, i).At?
    ensures var j := ReadString(t, i).pos; t[j - 1] == QUOTE && Chars(t, i, j - 1)
    decreases |t| - i
  {
    if t[i] == QUOTE {
    } else if t[i] == BACKSLASH {
      StringSound(t, if t[i + 1] == 0x75 then i + 6 else i + 2);
    } else {
      StringSound(t, i + 1);
    }
  }

  lemma {:induction false} StringComplete(t: seq<Unit>, i: nat, j: nat)
    requires i <= j < |t| && Chars(t, i, j) && t[j] == QUOTE
    ensures ReadString(t, i) == At(j + 1)
    decreases j - i
  {
    if i == j {
    } else if t[i] == BACKSLASH {
      StringComplete(t, if t[i + 1] == 0x75 then i + 6 else i + 2, j);
    } else {
      StringComplete(t, i + 1, j);
    }
  }

  /** The text does not go on with a unit that could prolong a number. */
  predicate EndsNumber(t: seq<Unit>, j: nat) {
    j >= |t| || !(IsDigit(t[j]) || IsE(t[j]) || t[j] == POINT)
  }

  lemma {:induction false} DigitsGreedy(t: seq<Unit>, i: nat, j: nat)
    requires i <= j <= |t| && (forall k :: i <= k < j ==> IsDigit(t[k])) && (j < |t| ==> !IsDigit(t[j]))
    ensures ReadDigits(t, i) == j
    decreases j - i
  {
    if i < j { DigitsGreedy(t, i + 1, j); }
  }

  lemma IntSound(t: seq<Unit>, i: nat)
    requires i < |t| && ReadInt(t, i + 1, t[i]).At?
    ensures Int(t, i, ReadInt(t, i + 1, t[i]).pos)
  {
  }

  lemma FracSound(t: seq<Unit>, i: nat)
    requires i <= |t| && ReadFrac(t, i).At?
    ensures Frac(t, i, ReadFrac(t, i).pos)
  {
  }

  lemma ExpSound(t: seq<Unit>, i: nat)
    requires i <= |t| && ReadExp(t, i).At?
    ensures Exp(t, i, ReadExp(t, i).pos)
  {
  }

  lemma NumberSound(t: seq<Unit>, i: nat)
    requires i < |t| && (t[i] == MINUS || IsDigit(t[i])) && ReadNumber(t, i + 1, t[i]).At?
    ensures Number(t, i, ReadNumber(t, i + 1, t[i]).pos)
  {
    var d := if t[i] == MINUS then i + 1 else i;
    IntSound(t, d);
    var a := ReadInt(t, d + 1, t[d]).pos;
    FracSound(t, a);
    ExpSound(t, ReadFrac(t, a).pos);
    assert Unsigned(t, d, ReadNumber(t, i + 1, t[i]).pos);
  }

  /** Each part is read to its end when the next unit cannot prolong it. */
  lemma IntComplete(t: seq<Unit>, i: nat, j: nat)
    requires Int(t, i, j) && (j < |t| ==> !IsDigit(t[j]))
    ensures ReadInt(t, i + 1, t[i]) == At(j)
  {
    DigitsGreedy(t, i + 1, j);
  }

  lemma FracComplete(t: seq<Unit>, i: nat, j: nat)
    requires Frac(t, i, j) && i <= |t| && (j < |t| ==> !IsDigit(t[j]) && (i == j ==> t[j] != POINT))
    ensures ReadFrac(t, i) == At(j)
  {
    if i < j { DigitsGreedy(t, i + 1, j); }
  }

  lemma ExpComplete(t: seq<Unit>, i: nat, j: nat)
    requires Exp(t, i, j) && i <= |t| && EndsNumber(t, j)
    ensures ReadExp(t, i) == At(j)
  {
    if i < j { DigitsGreedy(t, if Digits(t, i + 1, j) then i + 1 else i + 2, j); }
  }

  lemma UnsignedComplete(t: seq<Unit>, i: nat, j: nat)
    requires Unsigned(t, i, j) && EndsNumber(t, j)
    ensures i < j <= |t| && IsDigit(t[i])
    ensures ReadInt(t, i + 1, t[i]).At? && ReadFrac(t, ReadInt(t, i + 1, t[i]).pos).At?
    ensures ReadExp(t, ReadFrac(t, ReadInt(t, i + 1, t[i]).pos).pos) == At(j)
  {
    var a: nat, b: nat :| a <= b <= j && Int(t, i, a) && Frac(t, a, b) && Exp(t, b, j);
    IntComplete(t, i, a);
    FracComplete(t, a, b);
    ExpComplete(t, b, j);
  }

  lemma NumberComplete(t: seq<Unit>, i: nat, j: nat)
    requires Number(t, i, j) && EndsNumber(t, j)
    ensures i < j <= |t| && (t[i] == MINUS || IsDigit(t[i])) && ReadNumber(t, i + 1, t[i]) == At(j)
  {
    if Unsigned(t, i, j) {
      UnsignedComplete(t, i, j);
    } else {
      UnsignedComplete(t, i + 1, j);
    }
  }

  lemma CompositeIsValue(t: seq<Unit>, member: bool, i: nat, j: nat)
    requires i + 2 <= j <= |t| && t[i] == (if member then LBRACE else LBRACKET) && t[j - 1] == Close(member)
    requires Ws(t, i + 1, j - 1) || Items(t, member, i + 1, j - 1)
    ensures Value(t, i, j)
  {
  }

  lemma ScalarSound(t: seq<Unit>, a: nat, j: nat)
    requires a < |t| && ReadScalar(t, a) == At(j)
    ensures a < j <= |t| && Value(t, a, j)
  {
    if t[a] == QUOTE {
      StringSound(t, a + 1);
    } else if t[a] == MINUS || IsDigit(t[a]) {
      NumberSound(t, a);
    } else {
      assert t[a..j] == [t[a]] + t[a + 1..j];
      assert Literal(t, a, j);
    }
  }

  /** Soundness: where the scanner stops, a value ends. */
  lemma {:induction false} ValueSound(t: seq<Unit>, i: nat, j: nat)
    requires i <= |t| && ReadValue(t, i) == At(j)
    ensures SkipWhitespace(t, i) < j && Value(t, SkipWhitespace(t, i), j)
    decreases |t| - i, 0
  {
    var a := SkipWhitespace(t, i);
    if t[a] == LBRACE {
      CompositeSound(t, a + 1, true, j - 1);
      CompositeIsValue(t, true, a, j);
    } else if t[a] == LBRACKET {
      CompositeSound(t, a + 1, false, j - 1);
      CompositeIsValue(t, false, a, j);
    } else {
      ScalarSound(t, a, j);
    }
  }

  lemma {:induction false} CompositeSound(t: seq<Unit>, i: nat, member: bool, j: nat)
    requires i <= |t| && ReadComposite(t, i, member) == At(j + 1)
    ensures i <= j < |t| && t[j] == Close(member) && (Ws(t, i, j) || Items(t, member, i, j))
    decreases |t| - i, 3
  {
    var a := SkipWhitespace(t, i);
    if !(a < |t| && t[a] == Close(member)) {
      ItemsSound(t, i, a, member, j);
    }
  }

  lemma NameSound(t: seq<Unit>, i: nat) returns (a: nat, b: nat, c: nat)
    requires i <= |t| && ReadName(t, i).At?
    ensures ReadName(t, i) == At(c + 1) && a <= b <= c < |t|
    ensures Ws(t, i, a) && String(t, a, b) && Ws(t, b, c) && t[c] == COLON
  {
    a := SkipWhitespace(t, i);
    StringSound(t, a + 1);
    b := ReadString(t, a + 1).pos;
    c := SkipWhitespace(t, b);
  }

  /** One turn of the loop: an item from `w`, with whitespace up to `i` skipped before, to the next structural unit. */
  lemma ItemSound(t: seq<Unit>, w: nat, i: nat, member: bool, v: nat, b: nat, k: nat)
    requires Ws(t, w, i) && (if member then ReadName(t, i) == At(v) else v == i)
    requires v <= |t| && SkipWhitespace(t, v) <= b && Within(t, b, k) && Value(t, SkipWhitespace(t, v), b)
        && Ws(t, b, k)
    ensures w <= k && Item(t, member, w, k)
  {
    var a := SkipWhitespace(t, v);
    if member {
      var x, y, z := NameSound(t, i);
      assert Element(t, v, k);
      assert Ws(t, w, x);
    } else {
      assert Ws(t, w, a);
      assert Element(t, w, k);
    }
  }

  lemma MoreItems(t: seq<Unit>, member: bool, i: nat, k: nat, j: nat)
    requires i <= k < j <= |t| && Item(t, member, i, k) && t[k] == COMMA && Items(t, member, k + 1, j)
    ensures Items(t, member, i, j)
  {
  }

  lemma LastItem(t: seq<Unit>, member: bool, i: nat, k: nat)
    requires Within(t, i, k) && Item(t, member, i, k)
    ensures Items(t, member, i, k)
  {
  }

  /** One turn of the loop reads an item, up to a comma or the closing unit just before `j`. */
  lemma {:induction false} TurnSound(t: seq<Unit>, w: nat, i: nat, member: bool, j: nat)
    requires Ws(t, w, i) && (ReadItem(t, i, member) == Continues(j + 1) || ReadItem(t, i, member) == Returns(j + 1))
    ensures w <= j < |t| && Item(t, member, w, j)
    ensures t[j] == if ReadItem(t, i, member).Continues? then COMMA else Close(member)
    decreases |t| - i, 1
  {
    var v := if member then ReadName(t, i).pos else i;
    var b := ReadValue(t, v).pos;
    hide Item, Element, Value, ReadValue, ReadName;
    ValueSound(t, v, b);
    ItemSound(t, w, i, member, v, b, j);
  }

  lemma NoWs(t: seq<Unit>, i: nat)
    requires i <= |t|
    ensures Ws(t, i, i)
  {
  }

  /** The items read from `i`, where whitespace from `w` to `i` was skipped before, end before the closing unit. */
  lemma {:induction false} ItemsSound(t: seq<Unit>, w: nat, i: nat, member: bool, j: nat)
    requires Ws(t, w, i) && ReadItems(t, i, member) == At(j + 1)
    ensures w <= j < |t| && t[j] == Close(member)
    ensures Items(t, member, w, j)
    decreases |t| - i, 2
  {
    hide *;
    ItemsTurn(t, i, member);
    var turn := ReadItem(t, i, member);
    var k := turn.pos - 1;
    TurnSound(t, w, i, member, k);
    if turn.Continues? {
      NoWs(t, k + 1);
      ItemsSound(t, k + 1, k + 1, member, j);
      MoreItems(t, member, w, k, j);
    } else {
      LastItem(t, member, w, k);
    }
  }

  // ----- and stops where the grammar does -----

  lemma ElementParts(t: seq<Unit>, i: nat, j: nat) returns (a: nat, b: nat)
    requires Within(t, i, j) && Element(t, i, j)
    ensures i <= a <= b <= j && Ws(t, i, a) && Value(t, a, b) && Ws(t, b, j)
  {
    a, b :| i <= a <= b <= j && Ws(t, i, a) && Value(t, a, b) && Ws(t, b, j);
  }

  lemma MemberParts(t: seq<Unit>, i: nat, j: nat) returns (a: nat, b: nat, c: nat)
    requires Within(t, i, j) && Item(t, true, i, j)
    ensures i <= a <= b <= c < j && Ws(t, i, a) && String(t, a, b) && Ws(t, b, c) && t[c] == COLON
        && Element(t, c + 1, j)
  {
    a, b, c :| i <= a <= b <= c < j && Ws(t, i, a) && String(t, a, b) && Ws(t, b, c) && t[c] == COLON
      && Element(t, c + 1, j);
  }

  lemma ItemsParts(t: seq<Unit>, member: bool, i: nat, j: nat) returns (k: nat)
    requires Within(t, i, j) && Items(t, member, i, j)
    ensures i <= k <= j && Item(t, member, i, k) && (k == j || (t[k] == COMMA && Items(t, member, k + 1, j)))
    ensures !member ==> Element(t, i, k)
  {
    k :| i <= k <= j && Item(t, member, i, k) && (k == j || (t[k] == COMMA && Items(t, member, k + 1, j)));
  }

  lemma {:induction false} SkipAll(t: seq<Unit>, i: nat, j: nat)
    requires Ws(t, i, j) && (j < |t| ==> !IsWhitespace(t[j]))
    ensures SkipWhitespace(t, i) == j
    decreases j - i
  {
    if i < j { SkipAll(t, i + 1, j); }
  }

  /** What a value can start with. */
  lemma ValueStarts(t: seq<Unit>, i: nat, j: nat)
    requires Within(t, i, j) && Value(t, i, j)
    ensures i < j && !IsWhitespace(t[i]) && t[i] != RBRACE && t[i] != RBRACKET && t[i] != COMMA && t[i] != COLON
  {
    if Literal(t, i, j) {
      assert t[i] == t[i..j][0];
    }
  }

  /** Completeness: a value that is not prolonged by what follows is read to its end. */
  lemma {:induction false} ValueComplete(t: seq<Unit>, i: nat, a: nat, b: nat)
    requires Ws(t, i, a) && Within(t, a, b) && Value(t, a, b) && EndsNumber(t, b)
    ensures ReadValue(t, i) == At(b)
    decreases b - a, 3
  {
    ValueStarts(t, a, b);
    SkipAll(t, i, a);
    if Literal(t, a, b) {
      LiteralComplete(t, a, b);
    } else if Number(t, a, b) {
      NumberComplete(t, a, b);
    } else if String(t, a, b) {
      StringComplete(t, a + 1, b - 1);
    } else {
      CompositeComplete(t, t[a] == LBRACE, a + 1, b - 1);
    }
  }

  lemma LiteralComplete(t: seq<Unit>, i: nat, j: nat)
    requires Literal(t, i, j)
    ensures i < j && t[i] in {TRUE[0], FALSE[0], NULL[0]}
    ensures var name := if t[i] == TRUE[0] then TRUE else if t[i] == FALSE[0] then FALSE else NULL;
            ReadLiteral(t, i + 1, name[1..]) == At(j)
  {
    assert t[i] == t[i..j][0];
    assert t[i + 1..j] == t[i..j][1..];
  }

  lemma {:induction false} CompositeComplete(t: seq<Unit>, member: bool, i: nat, j: nat)
    requires i <= j < |t| && t[j] == Close(member) && (Ws(t, i, j) || Items(t, member, i, j))
    ensures ReadComposite(t, i, member) == At(j + 1)
    decreases j - i, 7
  {
    if Ws(t, i, j) {
      SkipAll(t, i, j);
    } else {
      ItemsStart(t, member, i, j);
      ItemsComplete(t, member, i, SkipWhitespace(t, i), j, ReadItems(t, SkipWhitespace(t, i), member));
    }
  }

  /** The whitespace before items ends at a unit that does not close the composite. */
  lemma ItemsStart(t: seq<Unit>, member: bool, i: nat, j: nat)
    requires Within(t, i, j) && Items(t, member, i, j)
    ensures SkipWhitespace(t, i) < j && t[SkipWhitespace(t, i)] != Close(member)
  {
    var k := ItemsParts(t, member, i, j);
    if member {
      var a, b, c := MemberParts(t, i, k);
      SkipAll(t, i, a);
    } else {
      var a, b := ElementParts(t, i, k);
      ValueStarts(t, a, b);
      SkipAll(t, i, a);
    }
  }

  /** After a value comes whitespace or a structural unit, which cannot prolong a number. */
  lemma ElementEnds(t: seq<Unit>, b: nat, k: nat)
    requires Ws(t, b, k) && (k == |t| || t[k] in {COMMA, RBRACE, RBRACKET})
    ensures EndsNumber(t, b)
  {
  }

  lemma {:induction false} ElementComplete(t: seq<Unit>, w: nat, i: nat, k: nat) returns (b: nat)
    requires Within(t, w, k) && Element(t, w, k) && (k == |t| || t[k] in {COMMA, RBRACE, RBRACKET})
    requires i == w || i == SkipWhitespace(t, w)
    ensures ReadValue(t, i) == At(b) && Ws(t, b, k) && i <= k
    decreases k - w, 4
  {
    var a: nat;
    a, b := ElementParts(t, w, k);
    ValueStarts(t, a, b);
    SkipAll(t, w, a);
    ElementEnds(t, b, k);
    ValueComplete(t, i, a, b);
  }

  lemma NameRead(t: seq<Unit>, i: nat, a: nat, b: nat, c: nat)
    requires Ws(t, i, a) && String(t, a, b) && Ws(t, b, c) && c < |t| && t[c] == COLON
    ensures ReadName(t, i) == At(c + 1)
  {
    SkipAll(t, i, a);
    StringComplete(t, a + 1, b - 1);
    SkipAll(t, b, c);
  }

  lemma NameComplete(t: seq<Unit>, w: nat, i: nat, k: nat) returns (v: nat)
    requires Within(t, w, k) && Item(t, true, w, k) && (i == w || i == SkipWhitespace(t, w))
    ensures i <= k && ReadName(t, i) == At(v) && w < v <= k && Element(t, v, k)
  {
    var a, b, c := MemberParts(t, w, k);
    SkipAll(t, w, a);
    NameRead(t, i, a, b, c);
    v := c + 1;
  }

  /** One turn of the loop reads the first item to its end. */
  lemma {:induction false} TurnComplete(t: seq<Unit>, member: bool, w: nat, i: nat, k: nat)
    requires Within(t, w, k) && Item(t, member, w, k) && (!member ==> Element(t, w, k))
    requires k < |t| && (t[k] == COMMA || t[k] == Close(member)) && (i == w || i == SkipWhitespace(t, w))
    ensures ReadItem(t, i, member) == if t[k] == COMMA then Continues(k + 1) else Returns(k + 1)
    decreases k - w, 5, 0
  {
    var v, b := i, i;
    if member {
      v := NameComplete(t, w, i, k);
      b := ElementComplete(t, v, v, k);
    } else {
      b := ElementComplete(t, w, i, k);
    }
    SkipAll(t, b, k);
  }

  /** The loop of readComposite, one turn at a time. */
  lemma ItemsTurn(t: seq<Unit>, i: nat, member: bool)
    requires i <= |t|
    ensures ReadItem(t, i, member).Continues?
        ==> ReadItems(t, i, member) == ReadItems(t, ReadItem(t, i, member).pos, member)
    ensures ReadItem(t, i, member).Returns? ==> ReadItems(t, i, member) == At(ReadItem(t, i, member).pos)
    ensures ReadItem(t, i, member).Throws? ==> ReadItems(t, i, member) == None
  {
  }

  lemma CommaDoesNotClose(member: bool)
    ensures Close(member) != COMMA
  {
  }

  /** The first of the items between `w` and `j` is read, and says how the loop goes on. */
  lemma {:induction false} FirstItem(t: seq<Unit>, member: bool, w: nat, i: nat, j: nat, r: Position) returns (k: nat)
    requires w <= j < |t| && t[j] == Close(member) && Items(t, member, w, j)
    requires (i == w || i == SkipWhitespace(t, w)) && r == ReadItems(t, i, member)
    ensures w <= k <= j
    ensures if k < j then Items(t, member, k + 1, j) && r == ReadItems(t, k + 1, member) else r == At(j + 1)
    decreases j - w, 5, 1
  {
    hide *;
    CommaDoesNotClose(member);
    k := ItemsParts(t, member, w, j);
    TurnComplete(t, member, w, i, k);
    ItemsTurn(t, i, member);
  }

  /** The items between `w` and the closing unit at `j` are read, also if their leading whitespace was skipped. */
  lemma {:induction false} ItemsComplete(t: seq<Unit>, member: bool, w: nat, i: nat, j: nat, r: Position)
    requires w <= j < |t| && t[j] == Close(member) && Items(t, member, w, j)
    requires (i == w || i == SkipWhitespace(t, w)) && r == ReadItems(t, i, member)
    ensures r == At(j + 1)
    decreases j - w, 6
  {
    hide *;
    var k := FirstItem(t, member, w, i, j, r);
    if k < j { ItemsComplete(t, member, k + 1, k + 1, j, r); }
  }

  // ----- requireJson -----

  predicate IsBlank(t: seq<Unit>) {
    forall i :: 0 <= i < |t| ==> IsWhitespace(t[i])
  }

  predicate Accepts(t: seq<Unit>) {
    && !IsBlank(t)
    && ReadValue(t, 0).At? && SkipWhitespace(t, ReadValue(t, 0).pos) == |t|
  }

  /** requireJson accepts exactly the JSON texts. */
  lemma AcceptsExactlyJson(t: seq<Unit>)
    ensures Accepts(t) <==> JsonText(t)
  {
    if Accepts(t) {
      ValueSound(t, 0, ReadValue(t, 0).pos);
    }
    if JsonText(t) {
      var a, b := ElementParts(t, 0, |t|);
      ValueStarts(t, a, b);
      ElementEnds(t, b, |t|);
      ValueComplete(t, 0, a, b);
      SkipAll(t, b, |t|);
    }
  }

  // ----- the scanner object -----

  /** JsonScanner: every method moves `pos` and answers false where the Java method throws. */
  class Scanner {
    const value: seq<Unit>
    var pos: nat

    constructor (value: seq<Unit>)
      ensures this.value == value && pos == 0
    {
      this.value, pos := value, 0;
    }

    predicate Valid()
      reads this
    {
      pos <= |value|
    }

    predicate IsDone()
      reads this
    {
      pos == |value|
    }

    /** The method moved to `r`, or failed when `r` is None. */
    ghost predicate Reached(ok: bool, r: Position)
      reads this
    {
      Valid() && ok == r.At? && (ok ==> r == At(pos))
    }

    method Skip()
      requires Valid()
      modifies this
      ensures Valid() && pos == SkipWhitespace(value, old(pos))
    {
      while !IsDone() && IsWhitespace(value[pos])
        invariant Valid() && SkipWhitespace(value, pos) == SkipWhitespace(value, old(pos))
        decreases |value| - pos
      {
        pos := pos + 1;
      }
    }

    method Read() returns (ok: bool)
      requires Valid()
      modifies this
      ensures Reached(ok, ReadValue(value, old(pos)))
      decreases |value| - pos, 0
    {
      Skip();
      if IsDone() {
        return false;
      }
      var c := value[pos];
      pos := pos + 1;
      if c == LBRACE {
        ok := Composite(true);
      } else if c == LBRACKET {
        ok := Composite(false);
      } else if c == QUOTE {
        ok := ReadStringRest();
      } else if c == TRUE[0] {
        ok := Suffix(TRUE[1..]);
      } else if c == FALSE[0] {
        ok := Suffix(FALSE[1..]);
      } else if c == NULL[0] {
        ok := Suffix(NULL[1..]);
      } else if c == MINUS || IsDigit(c) {
        ok := NumberRest(c);
      } else {
        ok := false;
      }
    }

    method Composite(member: bool) returns (ok: bool)
      requires Valid()
      modifies this
      ensures Reached(ok, ReadComposite(value, old(pos), member))
      decreases |value| - pos, 2
    {
      ghost var r := ReadComposite(value, pos, member);
      Skip();
      if !IsDone() && value[pos] == Close(member) {
        pos := pos + 1;
        return true;
      }
      while true
        invariant Valid() && old(pos) <= pos && r == ReadItems(value, pos, member)
        decreases |value| - pos
      {
        var turn := Item(member);
        if turn.Throws? { return false; }
        if turn.Returns? { return true; }
      }
    }

    /** One turn of that loop. */
    method Item(member: bool) returns (turn: Turn)
      requires Valid()
      modifies this
      ensures Valid() && turn == ReadItem(value, old(pos), member) && (!turn.Throws? ==> pos == turn.pos)
      decreases |value| - pos, 1
    {
      if member {
        var named := Name();
        if !named { return Throws; }
      }
      var ok := Read();
      if !ok { return Throws; }
      Skip();
      if !IsDone() && value[pos] == COMMA {
        pos := pos + 1;
        return Continues(pos);
      }
      if !IsDone() && value[pos] == Close(member) {
        pos := pos + 1;
        return Returns(pos);
      }
      return Throws;
    }

    /** The part of the loop of readComposite that only objects have. */
    method Name() returns (ok: bool)
      requires Valid()
      modifies this
      ensures Reached(ok, ReadName(value, old(pos)))
    {
      Skip();
      if IsDone() || value[pos] != QUOTE {
        return false;
      }
      pos := pos + 1;
      ok := ReadStringRest();
      if !ok { return; }
      Skip();
      if IsDone() || value[pos] != COLON {
        return false;
      }
      pos := pos + 1;
    }

    method ReadStringRest() returns (ok: bool)
      requires Valid()
      modifies this
      ensures Reached(ok, ReadString(value, old(pos)))
    {
      ghost var r := ReadString(value, pos);
      while !IsDone()
        invariant Valid() && r == ReadString(value, pos)
        decreases |value| - pos
      {
        var c := value[pos];
        pos := pos + 1;
        if c == QUOTE {
          return true;
        }
        if c == BACKSLASH {
          if IsDone() {
            return false;
          }
          var escaped := value[pos];
          pos := pos + 1;
          if escaped == 0x75 {
            ok := HexDigits();
            if !ok { return; }
          } else if !IsEscape(escaped) {
            return false;
          }
        } else if c < 0x20 {
          return false;
        }
      }
      ok := false;
    }

    method HexDigits() returns (ok: bool)
      requires Valid()
      modifies this
      ensures Reached(ok, ReadHexDigits(value, old(pos)))
    {
      for i := 0 to 4
        invariant Valid() && pos == old(pos) + i
        invariant forall k :: old(pos) <= k < pos ==> IsHex(value[k])
      {
        if IsDone() || !IsHex(value[pos]) {
          return false;
        }
        pos := pos + 1;
      }
      ok := true;
    }

    method Suffix(suffix: seq<Unit>) returns (ok: bool)
      requires Valid()
      modifies this
      ensures Reached(ok, ReadLiteral(value, old(pos), suffix))
    {
      for i := 0 to |suffix|
        invariant Valid() && pos == old(pos) + i && value[old(pos)..pos] == suffix[..i]
      {
        if IsDone() || value[pos] != suffix[i] {
          assert old(pos) + |suffix| <= |value| ==> value[old(pos)..old(pos) + |suffix|][i] == value[pos];
          return false;
        }
        pos := pos + 1;
      }
      ok := true;
    }

    method Digits()
      requires Valid()
      modifies this
      ensures Valid() && pos == ReadDigits(value, old(pos))
    {
      while !IsDone() && IsDigit(value[pos])
        invariant Valid() && ReadDigits(value, pos) == ReadDigits(value, old(pos))
        decreases |value| - pos
      {
        pos := pos + 1;
      }
    }

    method NumberRest(first: Unit) returns (ok: bool)
      requires Valid()
      modifies this
      ensures Reached(ok, ReadNumber(value, old(pos), first))
    {
      var c := first;
      if c == MINUS {
        if IsDone() {
          return false;
        }
        c := value[pos];
        pos := pos + 1;
      }
      if c == ZERO {
        if !IsDone() && IsDigit(value[pos]) {
          return false;
        }
      } else if IsDigit(c) {
        Digits();
      } else {
        return false;
      }
      ok := Fraction();
      if !ok { return; }
      ok := Exponent();
    }

    method Fraction() returns (ok: bool)
      requires Valid()
      modifies this
      ensures Reached(ok, ReadFrac(value, old(pos)))
    {
      if !IsDone() && value[pos] == POINT {
        pos := pos + 1;
        if IsDone() || !IsDigit(value[pos]) {
          return false;
        }
        Digits();
      }
      ok := true;
    }

    method Exponent() returns (ok: bool)
      requires Valid()
      modifies this
      ensures Reached(ok, ReadExp(value, old(pos)))
    {
      if !IsDone() && IsE(value[pos]) {
        pos := pos + 1;
        if !IsDone() && (value[pos] == PLUS || value[pos] == MINUS) {
          pos := pos + 1;
        }
        if IsDone() || !IsDigit(value[pos]) {
          return false;
        }
        Digits();
      }
      ok := true;
    }
  }

  /** A string that may be null. */
  datatype Text = Null | Of(units: seq<Unit>)

  /** requireJson: true exactly for the JSON texts, false where the Java method throws. */
  method RequireJson(value: Text) returns (ok: bool)
    ensures ok <==> value.Of? && JsonText(value.units)
  {
    if value.Null? {
      return false;
    }
    AcceptsExactlyJson(value.units);
    if IsBlank(value.units) {
      return false;
    }
    var scanner := new Scanner(value.units);
    ok := scanner.Read();
    if !ok {
      return;
    }
    scanner.Skip();
    ok := scanner.IsDone();
  }
}
