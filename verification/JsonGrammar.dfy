/** The validator against the grammar of RFC 8259: it accepts exactly the texts the
    grammar derives within its limits. A derivation is a tree that keeps the blanks. */
module JsonGrammar {
  import opened Common
  import opened Json
  import opened JsonValidator
  import opened JsonAccepted

  /** Strings as they stand between their quotes; `open` are the blanks behind an
      opening bracket, `gap` those behind a comma, `after` those behind a value. */
  datatype Tree =
    | Words(body: string)
    | Lone(raw: string)
    | EmptyObject(open: string)
    | Fields(open: string, pairs: Pairs)
    | EmptyArray(open: string)
    | List(open: string, elements: Elements)

  datatype Pairs = Pair(name: string, colon: string, before: string, value: Tree, after: string, next: Next)
  datatype Next = Finish | Then(gap: string, pairs: Pairs)
  datatype Elements = Element(value: Tree, after: string, tail: Tail)
  datatype Tail = Stop | And(gap: string, elements: Elements)

  predicate Blanks(t: string) { forall i :: 0 <= i < |t| ==> IsBlank(t[i]) }

  /** The inside of a string (section 7 of RFC 8259). */
  predicate ValidBody(b: string) {
    || b == []
    || (Plain(b[0]) && ValidBody(b[1..]))
    || (|b| >= 2 && b[0] == BACKSLASH && Short(b[1]) && ValidBody(b[2..]))
    || (|b| >= 6 && b[0] == BACKSLASH && b[1] == 'u' && IsHex(b[2]) && IsHex(b[3]) && IsHex(b[4]) && IsHex(b[5]) && ValidBody(b[6..]))
  }

  /** Within the limits: eight levels, 16 names in an object, all different and none
      with an escape. */
  ghost predicate Derives(d: Tree, depth: int) {
    && depth <= 8
    && match d
       case Words(body) => ValidBody(body)
       case Lone(raw) => Scalar(raw)
       case EmptyObject(open) => Blanks(open)
       case Fields(open, pairs) => Blanks(open) && DerivesPairs(pairs, depth, [])
       case EmptyArray(open) => Blanks(open)
       case List(open, elements) => Blanks(open) && DerivesElements(elements, depth)
  }

  ghost predicate DerivesPairs(p: Pairs, depth: int, seen: seq<string>) {
    && ValidBody(p.name) && BACKSLASH !in p.name && |seen| < 16 && p.name !in seen
    && Blanks(p.colon) && Blanks(p.before) && Derives(p.value, depth + 1) && Blanks(p.after)
    && (p.next.Then? ==> Blanks(p.next.gap) && DerivesPairs(p.next.pairs, depth, seen + [p.name]))
  }

  ghost predicate DerivesElements(e: Elements, depth: int) {
    && Derives(e.value, depth + 1) && Blanks(e.after)
    && (e.tail.And? ==> Blanks(e.tail.gap) && DerivesElements(e.tail.elements, depth))
  }

  function Quotes(body: string): string { [QUOTE] + body + [QUOTE] }

  function Spell(d: Tree): string {
    match d
    case Words(body) => Quotes(body)
    case Lone(raw) => raw
    case EmptyObject(open) => "{" + (open + "}")
    case Fields(open, pairs) => "{" + (open + SpellPairs(pairs))
    case EmptyArray(open) => "[" + (open + "]")
    case List(open, elements) => "[" + (open + SpellElements(elements))
  }

  function SpellPairs(p: Pairs): string {
    Quotes(p.name) + (p.colon + (":" + (p.before + (Spell(p.value) + (p.after + SpellNext(p.next))))))
  }

  function SpellNext(n: Next): string {
    match n
    case Finish => "}"
    case Then(gap, pairs) => "," + (gap + SpellPairs(pairs))
  }

  function SpellElements(e: Elements): string {
    Spell(e.value) + (e.after + SpellTail(e.tail))
  }

  function SpellTail(t: Tail): string {
    match t
    case Stop => "]"
    case And(gap, elements) => "," + (gap + SpellElements(elements))
  }

  // ------------------------------------------------------- blanks and strings

  lemma {:induction false} BlanksSkipped(b: string, t: string)
    requires Blanks(b) && (t == [] || !IsBlank(t[0]))
    ensures Space(b + t) == t
  {
    if b == [] {
      assert b + t == t;
    } else {
      assert (b + t)[1..] == b[1..] + t;
      BlanksSkipped(b[1..], t);
    }
  }

  lemma BlanksPush(c: char, b: string)
    requires IsBlank(c) && Blanks(b)
    ensures Blanks([c] + b)
  {}

  lemma {:induction false} SkippedBlanks(t: string) returns (b: string)
    ensures Blanks(b) && t == b + Space(t) && (Space(t) == [] || !IsBlank(Space(t)[0]))
  {
    if t != [] && IsBlank(t[0]) {
      var more := SkippedBlanks(t[1..]);
      hide Blanks;
      b := [t[0]] + more;
      BlanksPush(t[0], more);
      assert t == [t[0]] + t[1..];
    } else {
      b := [];
    }
  }

  lemma {:induction false} BodyEnds(b: string, rest: string)
    requires ValidBody(b)
    ensures Ends(b + ([QUOTE] + rest)) == Some(rest)
  {
    hide Ends;
    var end := [QUOTE] + rest;
    if b == [] {
      assert b + end == end;
      EndsHere(rest);
    } else if Plain(b[0]) {
      BodyEnds(b[1..], rest);
      assert b + end == [b[0]] + (b[1..] + end);
      EndsPlain(b[0], b[1..] + end);
    } else if Short(b[1]) {
      BodyEnds(b[2..], rest);
      assert b + end == [BACKSLASH, b[1]] + (b[2..] + end);
      EndsShort(b[1], b[2..] + end);
    } else {
      BodyEnds(b[6..], rest);
      assert b + end == b[..6] + (b[6..] + end);
      EndsHex(b[..6], b[6..] + end);
    }
  }

  lemma EndsHere(rest: string)
    ensures Ends([QUOTE] + rest) == Some(rest)
  {}

  lemma {:induction false} EndsBody(t: string) returns (b: string)
    requires Ends(t).Some?
    ensures ValidBody(b) && t == b + ([QUOTE] + Ends(t).value)
  {
    hide ValidBody, Ends;
    var n := Unit(t);
    EndsUnit(t);
    if n == 0 {
      b := [];
      NothingIsValid();
      assert t == [QUOTE] + t[1..];
    } else {
      b := EndsBody(t[n..]);
      b := Grown(t, n, b, [QUOTE] + Ends(t).value);
    }
  }

  lemma NothingIsValid()
    ensures ValidBody([])
  {}

  /** How many characters the first unit of a body takes, 0 at its end. */
  function Unit(t: string): nat {
    if t == [] || t[0] == QUOTE then 0 else if t[0] != BACKSLASH then 1 else if |t| >= 2 && t[1] == 'u' then 6 else 2
  }

  predicate ValidUnit(t: string, n: nat) {
    || (n == 1 && |t| >= 1 && Plain(t[0]))
    || (n == 2 && |t| >= 2 && t[0] == BACKSLASH && Short(t[1]))
    || (n == 6 && |t| >= 6 && t[0] == BACKSLASH && t[1] == 'u' && IsHex(t[2]) && IsHex(t[3]) && IsHex(t[4]) && IsHex(t[5]))
  }

  lemma EndsUnit(t: string)
    requires Ends(t).Some?
    ensures t != [] && Unit(t) <= |t|
    ensures Unit(t) == 0 ==> t[0] == QUOTE && Ends(t) == Some(t[1..])
    ensures Unit(t) > 0 ==> ValidUnit(t, Unit(t)) && Ends(t) == Ends(t[Unit(t)..])
  {}

  /** `b` with the first `n` characters of `t` before it. */
  lemma Grown(t: string, n: nat, b: string, end: string) returns (g: string)
    requires n <= |t| && ValidBody(b) && t[n..] == b + end && ValidUnit(t, n)
    ensures ValidBody(g) && t == g + end
  {
    g := t[..n] + b;
    assert g[n..] == b;
    assert t == t[..n] + t[n..];
  }

  lemma QuotedRead(body: string, rest: string)
    requires ValidBody(body)
    ensures CheckString(Quotes(body) + rest) == Some(rest)
  {
    hide ValidBody, Ends;
    var t := Quotes(body) + rest;
    assert t[1..] == body + ([QUOTE] + rest);
    BodyEnds(body, rest);
  }

  lemma ReadQuoted(t: string) returns (body: string)
    requires CheckString(t).Some?
    ensures ValidBody(body) && t == Quotes(body) + CheckString(t).value && Quoted(t, CheckString(t).value) == Quotes(body)
  {
    hide ValidBody;
    body := EndsBody(t[1..]);
    var rest := CheckString(t).value;
    assert t == [QUOTE] + t[1..];
    assert t == Quotes(body) + rest;
  }

  // ------------------------------------------------------------ numbers, literals

  lemma DigitsPush(c: char, d: string)
    requires IsDigit(c) && AllDigits(d)
    ensures AllDigits([c] + d)
  {}

  lemma {:induction false} SkippedDigits(t: string) returns (d: string)
    ensures AllDigits(d) && t == d + SkipDigits(t)
  {
    if t != [] && IsDigit(t[0]) {
      var more := SkippedDigits(t[1..]);
      hide AllDigits;
      d := [t[0]] + more;
      DigitsPush(t[0], more);
      assert t == [t[0]] + t[1..];
    } else {
      d := [];
    }
  }

  lemma SomeRead(t: string) returns (d: string)
    requires SomeDigits(t).Some?
    ensures d != [] && AllDigits(d) && t == d + SomeDigits(t).value && d[0] == t[0]
  {
    var more := SkippedDigits(t[1..]);
    hide AllDigits, SkipDigits;
    d := [t[0]] + more;
    DigitsPush(t[0], more);
    assert t == [t[0]] + t[1..];
  }

  lemma ReadInteger(t: string) returns (negative: bool, whole: string)
    requires Integer(t).Some?
    ensures WholeText(whole) && t == (if negative then "-" else "") + (whole + Integer(t).value)
  {
    negative := t[0] == '-';
    var u := if negative then t[1..] else t;
    if u[0] == '0' {
      whole := "0";
      assert u == "0" + u[1..];
    } else {
      whole := SomeRead(u);
    }
    assert t == (if negative then "-" else "") + u;
  }

  lemma ReadFraction(t: string) returns (f: string)
    requires Fraction(t).Some?
    ensures FractionText(f) && t == f + Fraction(t).value
  {
    f := [];
    if t != [] && t[0] == '.' {
      var d := SomeRead(t[1..]);
      f := "." + d;
      assert f[1..] == d;
    }
  }

  lemma ReadExponent(t: string) returns (e: string)
    requires Exponent(t).Some?
    ensures ExponentText(e) && t == e + Exponent(t).value
  {
    e := [];
    if t != [] && (t[0] == 'e' || t[0] == 'E') {
      var u := t[1..];
      if u != [] && (u[0] == '+' || u[0] == '-') {
        var d := SomeRead(u[1..]);
        e := [t[0], u[0]] + d;
        assert e[2..] == d;
      } else {
        var d := SomeRead(u);
        e := [t[0]] + d;
        assert e[1..] == d;
      }
    }
  }

  lemma ReadNumber(t: string) returns (raw: string)
    requires CheckNumber(t).Some?
    ensures Scalar(raw) && t == raw + CheckNumber(t).value
  {
    hide Integer, Fraction, Exponent, WholeText, FractionText, ExponentText;
    var negative, whole := ReadInteger(t);
    var i := Integer(t).value;
    var f := ReadFraction(i);
    var e := ReadExponent(Fraction(i).value);
    var n := Number(negative, whole, f, e);
    raw := NumberText(n);
    assert ValidNumber(n);
  }

  lemma ReadLiteral(t: string) returns (raw: string)
    requires CheckLiteral(t).Some?
    ensures Scalar(raw) && t == raw + CheckLiteral(t).value
  {
    raw := if "true" <= t then "true" else if "false" <= t then "false" else "null";
  }

  // ------------------------------------------------- what is accepted is derived

  /** The cases of a value, by the first character behind its blanks. */
  lemma Cases(text: string, depth: int, t: string, u: string)
    requires t == Space(text) && (t != [] ==> u == Space(t[1..]))
    ensures depth > 8 || t == [] ==> CheckValue(text, depth) == None
    ensures depth <= 8 && t != [] && t[0] == QUOTE ==> CheckValue(text, depth) == CheckString(t)
    ensures depth <= 8 && t != [] && t[0] == '{' ==>
              CheckValue(text, depth) == if u != [] && u[0] == '}' then Some(u[1..]) else CheckMembers(u, depth, [])
    ensures depth <= 8 && t != [] && t[0] == '[' ==>
              CheckValue(text, depth) == if u != [] && u[0] == ']' then Some(u[1..]) else CheckItems(u, depth)
    ensures depth <= 8 && t != [] && t[0] != QUOTE && t[0] != '{' && t[0] != '[' ==>
              CheckValue(text, depth) == if CheckLiteral(t).Some? then CheckLiteral(t) else CheckNumber(t)
  {
    hide CheckString, CheckLiteral, CheckNumber, CheckMembers, CheckItems;
  }

  lemma {:induction false} ReadValue(text: string, depth: int) returns (before: string, d: Tree)
    requires CheckValue(text, depth).Some?
    ensures Blanks(before) && Derives(d, depth) && text == before + (Spell(d) + CheckValue(text, depth).value)
    decreases |text|, 2
  {
    hide Blanks, ValidBody, Scalar, CheckValue, CheckString, CheckLiteral, CheckNumber, CheckMembers, CheckItems, DerivesPairs,
         DerivesElements, SpellPairs, SpellElements, Quotes;
    before := SkippedBlanks(text);
    var t := Space(text);
    Cases(text, depth, t, if t == [] then [] else Space(t[1..]));
    if t[0] == QUOTE {
      var body := ReadQuoted(t);
      d := Words(body);
    } else if t[0] == '{' {
      d := ReadObject(t, depth, CheckValue(text, depth).value);
    } else if t[0] == '[' {
      d := ReadArray(t, depth, CheckValue(text, depth).value);
    } else if CheckLiteral(t).Some? {
      var raw := ReadLiteral(t);
      d := Lone(raw);
    } else {
      var raw := ReadNumber(t);
      d := Lone(raw);
    }
  }

  lemma Bracketed(t: string, bracket: string, open: string, inside: string, rest: string)
    requires t == bracket + (open + (inside + rest))
    ensures t == (bracket + (open + inside)) + rest
  {}

  lemma {:induction false} ReadObject(t: string, depth: int, rest: string) returns (d: Tree)
    requires depth <= 8 && t != [] && t[0] == '{'
    requires var u := Space(t[1..]); Some(rest) == if u != [] && u[0] == '}' then Some(u[1..]) else CheckMembers(u, depth, [])
    ensures Derives(d, depth) && t == Spell(d) + rest
    decreases |t|, 1
  {
    hide Blanks, CheckMembers, DerivesPairs, SpellPairs;
    var open := SkippedBlanks(t[1..]);
    var u := Space(t[1..]);
    assert t == "{" + (open + u);
    if u != [] && u[0] == '}' {
      d := EmptyObject(open);
      assert u == "}" + rest;
      Bracketed(t, "{", open, "}", rest);
    } else {
      var pairs := ReadPairs(u, depth, [], []);
      d := Fields(open, pairs);
      Bracketed(t, "{", open, SpellPairs(pairs), rest);
    }
  }

  lemma {:induction false} ReadArray(t: string, depth: int, rest: string) returns (d: Tree)
    requires depth <= 8 && t != [] && t[0] == '['
    requires var u := Space(t[1..]); Some(rest) == if u != [] && u[0] == ']' then Some(u[1..]) else CheckItems(u, depth)
    ensures Derives(d, depth) && t == Spell(d) + rest
    decreases |t|, 1
  {
    hide Blanks, CheckItems, DerivesElements, SpellElements;
    var open := SkippedBlanks(t[1..]);
    var u := Space(t[1..]);
    assert t == "[" + (open + u);
    if u != [] && u[0] == ']' {
      d := EmptyArray(open);
      assert u == "]" + rest;
      Bracketed(t, "[", open, "]", rest);
    } else {
      var elements := ReadElements(u, depth);
      d := List(open, elements);
      Bracketed(t, "[", open, SpellElements(elements), rest);
    }
  }

  ghost predicate Named(keys: seq<string>, seen: seq<string>) {
    |keys| == |seen| && forall i :: 0 <= i < |seen| ==> keys[i] == Quotes(seen[i])
  }

  lemma FreshName(name: string, keys: seq<string>, seen: seq<string>)
    requires Named(keys, seen)
    ensures Fresh(Quotes(name), keys) <==> |seen| < 16 && BACKSLASH !in name && name !in seen
    ensures Named(keys + [Quotes(name)], seen + [name])
  {
    var q := Quotes(name);
    assert BACKSLASH in q <==> BACKSLASH in name by {
      if BACKSLASH in name {
        var i :| 0 <= i < |name| && name[i] == BACKSLASH;
        assert q[i + 1] == BACKSLASH;
      }
    }
    forall i | 0 <= i < |seen| ensures keys[i] == q <==> seen[i] == name {
      assert Quotes(seen[i])[1..|seen[i]| + 1] == seen[i] && q[1..|name| + 1] == name;
    }
  }

  lemma {:induction false} ReadPairs(t: string, depth: int, keys: seq<string>, seen: seq<string>) returns (p: Pairs)
    requires CheckMembers(t, depth, keys).Some? && Named(keys, seen)
    ensures DerivesPairs(p, depth, seen) && t == SpellPairs(p) + CheckMembers(t, depth, keys).value
    decreases |t|, 0
  {
    hide Blanks, ValidBody, CheckString, CheckValue, Derives, Spell, Named, Fresh, Quotes;
    var name := ReadQuoted(t);
    var k := CheckString(t).value;
    FreshName(name, keys, seen);
    var colon := SkippedBlanks(k);
    var c := Space(k);
    var before, value := ReadValue(c[1..], depth + 1);
    var v := CheckValue(c[1..], depth + 1).value;
    var after := SkippedBlanks(v);
    var u := Space(v);
    var next := Finish;
    var rest := CheckMembers(t, depth, keys).value;
    if u[0] == '}' {
      assert u == SpellNext(next) + rest;
    } else {
      var gap := SkippedBlanks(u[1..]);
      var pairs := ReadPairs(Space(u[1..]), depth, keys + [Quotes(name)], seen + [name]);
      next := Then(gap, pairs);
      Concat4(u, gap, SpellPairs(pairs), rest);
      assert u == SpellNext(next) + rest;
    }
    p := Pair(name, colon, before, value, after, next);
    assert c == ":" + c[1..];
    PairConcat(p, t, k, c, v, u, rest);
  }

  lemma Concat4(u: string, gap: string, x: string, rest: string)
    requires u != [] && u[0] == ',' && u[1..] == gap + (x + rest)
    ensures u == ("," + (gap + x)) + rest
  {
    assert u == "," + u[1..];
  }

  lemma PairConcat(p: Pairs, t: string, k: string, c: string, v: string, u: string, rest: string)
    requires t == Quotes(p.name) + k && k == p.colon + c && c == ":" + (p.before + (Spell(p.value) + v))
    requires v == p.after + u && u == SpellNext(p.next) + rest
    ensures t == SpellPairs(p) + rest
  {
    hide Quotes, Spell, SpellNext;
    assert v == (p.after + SpellNext(p.next)) + rest;
    assert Spell(p.value) + v == (Spell(p.value) + (p.after + SpellNext(p.next))) + rest;
    var w := Spell(p.value) + (p.after + SpellNext(p.next));
    assert c == (":" + (p.before + w)) + rest;
    assert k == (p.colon + (":" + (p.before + w))) + rest;
  }

  lemma {:induction false} ReadElements(t: string, depth: int) returns (e: Elements)
    requires CheckItems(t, depth).Some? && (t == [] || !IsBlank(t[0]))
    ensures DerivesElements(e, depth) && t == SpellElements(e) + CheckItems(t, depth).value
    decreases |t|, 3
  {
    hide Blanks, CheckValue, Derives, Spell;
    var before, value := ReadValue(t, depth + 1);
    NoBlanks(before, t);
    var v := CheckValue(t, depth + 1).value;
    var after := SkippedBlanks(v);
    var u := Space(v);
    var tail := Stop;
    var rest := CheckItems(t, depth).value;
    if u[0] == ']' {
      assert u == SpellTail(tail) + rest;
    } else {
      var gap := SkippedBlanks(u[1..]);
      var elements := ReadElements(Space(u[1..]), depth);
      tail := And(gap, elements);
      Concat4(u, gap, SpellElements(elements), rest);
      assert u == SpellTail(tail) + rest;
    }
    e := Element(value, after, tail);
    assert v == (after + SpellTail(tail)) + rest;
    assert t == Spell(value) + v;
  }

  lemma NoBlanks(b: string, t: string)
    requires Blanks(b) && b <= t && (t == [] || !IsBlank(t[0]))
    ensures b == []
  {
    assert t[..|b|] == b;
  }

  // ------------------------------------------------- what is derived is accepted

  /** What a derived value begins with. */
  lemma TreeStarts(d: Tree, rest: string)
    requires d.Lone? ==> Scalar(d.raw)
    ensures var t := Spell(d) + rest;
            && t != [] && !IsBlank(t[0]) && t[0] != '}' && t[0] != ']'
            && (d.Lone? ==> t[0] != QUOTE && t[0] != '{' && t[0] != '[')
            && (d.Words? ==> t[0] == QUOTE) && (d.EmptyObject? || d.Fields? ==> t[0] == '{') && (d.EmptyArray? || d.List? ==> t[0] == '[')
  {
    hide SpellPairs, SpellElements;
    if d.Lone? {
      ValueStarts(Raw(d.raw), rest);
    }
  }

  lemma BlankEnds(b: string, t: string)
    requires Blanks(b) && Ended(t)
    ensures Ended(b + t)
  {
    if b == [] {
      assert b + t == t;
    }
  }

  lemma {:induction false} TreeRead(before: string, d: Tree, rest: string, depth: int)
    requires Blanks(before) && Derives(d, depth) && Ended(rest)
    ensures CheckValue(before + (Spell(d) + rest), depth) == Some(rest)
    decreases d, 1
  {
    hide Blanks, ValidBody, Scalar, CheckValue, CheckString, CheckLiteral, CheckNumber, CheckMembers, CheckItems, DerivesPairs,
         DerivesElements, SpellPairs, SpellElements, Quotes, Space;
    var t, text := Spell(d) + rest, before + (Spell(d) + rest);
    TreeStarts(d, rest);
    BlanksSkipped(before, t);
    Cases(text, depth, t, Space(t[1..]));
    match d {
      case Words(body) => QuotedRead(body, rest);
      case Lone(raw) => RawRead(raw, rest);
      case EmptyObject(open) => Emptied(t, open, "}", rest);
      case Fields(open, pairs) =>
        var inner := SpellPairs(pairs) + rest;
        assert t[1..] == open + inner;
        PairsStart(pairs, rest);
        BlanksSkipped(open, inner);
        PairsRead(pairs, rest, depth, [], []);
      case EmptyArray(open) => Emptied(t, open, "]", rest);
      case List(open, elements) =>
        var inner := SpellElements(elements) + rest;
        assert t[1..] == open + inner;
        ElementsStart(elements, rest, depth);
        BlanksSkipped(open, inner);
        ElementsRead(elements, rest, depth);
    }
  }

  lemma Emptied(t: string, open: string, close: string, rest: string)
    requires Blanks(open) && |close| == 1 && !IsBlank(close[0]) && t != [] && t[1..] == (open + close) + rest
    ensures Space(t[1..]) == close + rest && (close + rest)[1..] == rest
  {
    assert t[1..] == open + (close + rest);
    BlanksSkipped(open, close + rest);
  }

  lemma PairsStart(p: Pairs, rest: string)
    ensures var t := SpellPairs(p) + rest; t != [] && t[0] == QUOTE
  {
    hide Spell, SpellNext;
  }

  lemma ElementsStart(e: Elements, rest: string, depth: int)
    requires DerivesElements(e, depth)
    ensures var t := SpellElements(e) + rest; t != [] && !IsBlank(t[0]) && t[0] != ']'
  {
    TreeStarts(e.value, (e.after + SpellTail(e.tail)) + rest);
    hide Spell, SpellTail;
    assert SpellElements(e) + rest == Spell(e.value) + ((e.after + SpellTail(e.tail)) + rest);
  }

  lemma NextEnds(n: Next, rest: string)
    ensures var t := SpellNext(n) + rest;
            && t != [] && Ended(t) && !IsBlank(t[0])
            && (n.Finish? ==> t[0] == '}' && t[1..] == rest)
            && (n.Then? ==> t[0] == ',' && t[1..] == n.gap + (SpellPairs(n.pairs) + rest))
  {
    hide SpellPairs;
  }

  lemma TailEnds(n: Tail, rest: string)
    ensures var t := SpellTail(n) + rest;
            && t != [] && Ended(t) && !IsBlank(t[0])
            && (n.Stop? ==> t[0] == ']' && t[1..] == rest)
            && (n.And? ==> t[0] == ',' && t[1..] == n.gap + (SpellElements(n.elements) + rest))
  {
    hide SpellElements;
  }

  /** One derived member is accepted. */
  lemma {:induction false} PairRead(p: Pairs, rest: string, depth: int, keys: seq<string>, seen: seq<string>)
    requires DerivesPairs(p, depth, seen) && Named(keys, seen)
    ensures var t, v := SpellPairs(p) + rest, p.after + (SpellNext(p.next) + rest);
            && CheckMember(t, depth, keys) == Some(v)
            && CheckString(t).Some? && Quoted(t, CheckString(t).value) == Quotes(p.name)
    decreases p, 0
  {
    hide Blanks, ValidBody, CheckString, CheckValue, Derives, Spell, SpellNext, Named, Fresh, Quotes;
    var u := SpellNext(p.next) + rest;
    var v := p.after + u;
    var c := ":" + (p.before + (Spell(p.value) + v));
    var k := p.colon + c;
    var t := SpellPairs(p) + rest;
    PairLayout(p, rest, k, c, v, u);
    QuotedRead(p.name, k);
    assert t[..|t| - |k|] == Quotes(p.name);
    FreshName(p.name, keys, seen);
    BlanksSkipped(p.colon, c);
    NextEnds(p.next, rest);
    BlankEnds(p.after, u);
    TreeRead(p.before, p.value, v, depth + 1);
    assert c[1..] == p.before + (Spell(p.value) + v);
  }

  lemma PairLayout(p: Pairs, rest: string, k: string, c: string, v: string, u: string)
    requires u == SpellNext(p.next) + rest && v == p.after + u && c == ":" + (p.before + (Spell(p.value) + v)) && k == p.colon + c
    ensures SpellPairs(p) + rest == Quotes(p.name) + k
  {
    PairConcat(p, Quotes(p.name) + k, k, c, v, u, rest);
  }

  lemma {:induction false} PairsRead(p: Pairs, rest: string, depth: int, keys: seq<string>, seen: seq<string>)
    requires DerivesPairs(p, depth, seen) && Named(keys, seen)
    ensures CheckMembers(SpellPairs(p) + rest, depth, keys) == Some(rest)
    decreases p, 1
  {
    hide Blanks, ValidBody, CheckString, CheckMember, Derives, Spell, SpellPairs, SpellNext, Named, Quotes;
    PairRead(p, rest, depth, keys, seen);
    var u := SpellNext(p.next) + rest;
    NextEnds(p.next, rest);
    BlanksSkipped(p.after, u);
    if p.next.Then? {
      var pairs := p.next.pairs;
      PairsStart(pairs, rest);
      BlanksSkipped(p.next.gap, SpellPairs(pairs) + rest);
      FreshName(p.name, keys, seen);
      PairsRead(pairs, rest, depth, keys + [Quotes(p.name)], seen + [p.name]);
    }
  }

  lemma {:induction false} ElementsRead(e: Elements, rest: string, depth: int)
    requires DerivesElements(e, depth)
    ensures CheckItems(SpellElements(e) + rest, depth) == Some(rest)
    decreases e, 1
  {
    hide Blanks, CheckValue, Derives, Spell, SpellTail;
    var u := SpellTail(e.tail) + rest;
    var v := e.after + u;
    TailEnds(e.tail, rest);
    BlankEnds(e.after, u);
    assert SpellElements(e) + rest == Spell(e.value) + v;
    assert [] + (Spell(e.value) + v) == Spell(e.value) + v;
    assert Blanks([]) by { NoneBlank(); }
    TreeRead([], e.value, v, depth + 1);
    BlanksSkipped(e.after, u);
    if e.tail.And? {
      var elements := e.tail.elements;
      ElementsStart(elements, rest, depth);
      hide SpellElements;
      BlanksSkipped(e.tail.gap, SpellElements(elements) + rest);
      ElementsRead(elements, rest, depth);
    }
  }

  lemma NoneBlank()
    ensures Blanks([])
  {}

  /** The whole text is one value with blanks around it. */
  ghost predicate IsText(text: string, before: string, d: Tree, after: string) {
    Blanks(before) && Derives(d, 0) && Blanks(after) && text == before + (Spell(d) + after)
  }

  /** The validator accepts a text to its end, blanks aside, exactly if the grammar
      derives it within the limits. */
  lemma AcceptsExactlyTheGrammar(text: string)
    ensures CheckValue(text, 0).Some? && Space(CheckValue(text, 0).value) == [] <==> exists before, d, after :: IsText(text, before, d, after)
  {
    hide CheckValue, Derives, Spell, Blanks;
    if CheckValue(text, 0).Some? && Space(CheckValue(text, 0).value) == [] {
      var before, d := ReadValue(text, 0);
      var rest := CheckValue(text, 0).value;
      var after := SkippedBlanks(rest);
      assert after + [] == after;
      assert IsText(text, before, d, after);
    }
    if before, d, after :| IsText(text, before, d, after) {
      AfterEnds(after);
      TreeRead(before, d, after, 0);
      BlanksSkipped(after, []);
      assert after + [] == after;
    }
  }

  lemma AfterEnds(b: string)
    requires Blanks(b)
    ensures Ended(b)
  {}
}
