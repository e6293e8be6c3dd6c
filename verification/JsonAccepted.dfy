/** Everything the printer prints within the validator's limits is accepted by it,
    and read to its end. */
module JsonAccepted {
  import opened Common
  import opened Json
  import opened JsonValidator

  // --------------------------------------------------------------------- numbers

  predicate AllDigits(t: string) { forall i :: 0 <= i < |t| ==> IsDigit(t[i]) }

  /** Zero, or digits that do not begin with one. */
  predicate WholeText(t: string) { t == "0" || (t != [] && AllDigits(t) && t[0] != '0') }

  predicate FractionText(t: string) { t == [] || (|t| >= 2 && t[0] == '.' && AllDigits(t[1..])) }

  predicate ExponentText(t: string) {
    || t == []
    || (|t| >= 2 && (t[0] == 'e' || t[0] == 'E') && AllDigits(t[1..]))
    || (|t| >= 3 && (t[0] == 'e' || t[0] == 'E') && (t[1] == '+' || t[1] == '-') && AllDigits(t[2..]))
  }

  /** A number (section 6 of RFC 8259). */
  datatype Number = Number(negative: bool, whole: string, fraction: string, exponent: string)

  predicate ValidNumber(n: Number) { WholeText(n.whole) && FractionText(n.fraction) && ExponentText(n.exponent) }

  function NumberText(n: Number): string {
    (if n.negative then "-" else "") + (n.whole + (n.fraction + n.exponent))
  }

  /** A value ends here: at the end of the text, or at what may follow a value. */
  predicate Ended(t: string) { t == [] || t[0] == ',' || t[0] == '}' || t[0] == ']' || IsBlank(t[0]) }

  lemma {:induction false} DigitsSkipped(d: string, rest: string)
    requires AllDigits(d) && (rest == [] || !IsDigit(rest[0]))
    ensures SkipDigits(d + rest) == rest
  {
    if d == [] {
      assert d + rest == rest;
    } else {
      assert (d + rest)[1..] == d[1..] + rest;
      DigitsSkipped(d[1..], rest);
    }
  }

  lemma SomeSkipped(d: string, rest: string)
    requires AllDigits(d) && d != [] && (rest == [] || !IsDigit(rest[0]))
    ensures SomeDigits(d + rest) == Some(rest)
  {
    assert (d + rest)[1..] == d[1..] + rest;
    DigitsSkipped(d[1..], rest);
  }

  lemma ExponentRead(e: string, rest: string)
    requires ExponentText(e) && Ended(rest)
    ensures Exponent(e + rest) == Some(rest)
  {
    if e == [] {
      assert e + rest == rest;
    } else {
      var u := (e + rest)[1..];
      if e[1] == '+' || e[1] == '-' {
        assert u[1..] == e[2..] + rest;
        SomeSkipped(e[2..], rest);
      } else {
        assert u == e[1..] + rest;
        SomeSkipped(e[1..], rest);
      }
    }
  }

  lemma FractionRead(f: string, e: string, rest: string)
    requires FractionText(f) && ExponentText(e) && Ended(rest)
    ensures Fraction(f + (e + rest)) == Some(e + rest)
  {
    if f == [] {
      assert f + (e + rest) == e + rest;
    } else {
      assert (f + (e + rest))[1..] == f[1..] + (e + rest);
      SomeSkipped(f[1..], e + rest);
    }
  }

  lemma IntegerRead(n: Number, rest: string)
    requires WholeText(n.whole) && (rest == [] || !IsDigit(rest[0]))
    ensures Integer((if n.negative then "-" else "") + (n.whole + rest)) == Some(rest)
  {
    var t := (if n.negative then "-" else "") + (n.whole + rest);
    var u := if t != [] && t[0] == '-' then t[1..] else t;
    assert u == n.whole + rest;
    if n.whole == "0" {
      assert u[1..] == rest;
    } else {
      SomeSkipped(n.whole, rest);
    }
  }

  lemma NumberRead(n: Number, rest: string)
    requires ValidNumber(n) && Ended(rest)
    ensures CheckNumber(NumberText(n) + rest) == Some(rest) && CheckLiteral(NumberText(n) + rest) == None
  {
    hide SkipDigits, AllDigits, Integer, Fraction, Exponent, SomeDigits;
    var sign, after := if n.negative then "-" else "", n.fraction + (n.exponent + rest);
    assert NumberText(n) + rest == sign + (n.whole + after);
    NumberStarts(n);
    NotLiteral(NumberText(n) + rest);
    assert after == [] || !IsDigit(after[0]);
    IntegerRead(n, after);
    FractionRead(n.fraction, n.exponent, rest);
    ExponentRead(n.exponent, rest);
  }

  lemma NotLiteral(t: string)
    requires t != [] && (t[0] == '-' || IsDigit(t[0]))
    ensures CheckLiteral(t) == None
  {
    assert forall word: string :: word <= t && word != [] ==> word[0] == t[0];
  }

  lemma NumberStarts(n: Number)
    requires ValidNumber(n)
    ensures NumberText(n) != [] && (NumberText(n)[0] == '-' || IsDigit(NumberText(n)[0]))
  {}

  // --------------------------------------------------------------------- strings

  lemma EndsPlain(c: char, t: string)
    requires Plain(c)
    ensures Ends([c] + t) == Ends(t)
  {
    assert ([c] + t)[1..] == t;
  }

  lemma EndsShort(c: char, t: string)
    requires Short(c)
    ensures Ends([BACKSLASH, c] + t) == Ends(t)
  {
    assert ([BACKSLASH, c] + t)[2..] == t;
  }

  lemma EndsHex(e: string, t: string)
    requires |e| == 6 && e[0] == BACKSLASH && e[1] == 'u' && forall k :: 2 <= k < 6 ==> IsHex(e[k])
    ensures Ends(e + t) == Ends(t)
  {
    assert (e + t)[6..] == t;
  }

  lemma EndsEscape(c: char, t: string)
    ensures Ends(Escape(c) + t) == Ends(t)
  {
    var e := Escape(c);
    hide Ends;
    if Plain(c) {
      EndsPlain(c, t);
    } else if |e| == 2 {
      EndsShort(e[1], t);
    } else {
      EndsHex(e, t);
    }
  }

  lemma {:induction false} EndsAll(s: string, rest: string)
    ensures Ends(EscapeAll(s) + ([QUOTE] + rest)) == Some(rest)
  {
    hide Escape;
    var end := [QUOTE] + rest;
    if s == [] {
      assert EscapeAll(s) + end == end && end[1..] == rest;
    } else {
      EndsAll(s[1..], rest);
      hide Ends;
      Associate(Escape(s[0]), EscapeAll(s[1..]), end);
      EndsEscape(s[0], EscapeAll(s[1..]) + end);
    }
  }

  /** Every printed string is accepted, whatever its characters. */
  lemma StringRead(s: string, rest: string)
    ensures CheckString(PrintString(s) + rest) == Some(rest)
  {
    hide Ends, EscapeAll;
    var t := PrintString(s) + rest;
    assert t[1..] == EscapeAll(s) + ([QUOTE] + rest);
    EndsAll(s, rest);
  }

  // ---------------------------------------------------------------------- values

  ghost predicate Scalar(raw: string) {
    raw == "true" || raw == "false" || raw == "null" || exists n :: ValidNumber(n) && raw == NumberText(n)
  }

  /** Within the limits: numbers and literals spelt as such, at most eight levels, and
      in each object at most 16 names, all different and none with an escape. */
  ghost predicate Fits(v: Value, depth: int) {
    && depth <= 8
    && match v
       case Text(_) => true
       case Raw(raw) => Scalar(raw)
       case Object(ms) => MembersFit(ms, depth, [])
       case Array(items) => ItemsFit(items, depth)
  }

  ghost predicate MembersFit(ms: Members, depth: int, seen: seq<string>) {
    ms.Members? ==>
      && |seen| < 16 && PlainText(ms.key) && ms.key !in seen
      && Fits(ms.value, depth + 1) && MembersFit(ms.rest, depth, seen + [ms.key])
  }

  ghost predicate ItemsFit(items: Items, depth: int) {
    items.Items? ==> Fits(items.value, depth + 1) && ItemsFit(items.rest, depth)
  }

  function QuotedNames(names: seq<string>): (q: seq<string>)
    ensures |q| == |names| && forall i :: 0 <= i < |names| ==> q[i] == PrintString(names[i])
  {
    seq(|names|, i requires 0 <= i < |names| => PrintString(names[i]))
  }

  lemma LiteralRead(raw: string, rest: string)
    requires raw == "true" || raw == "false" || raw == "null"
    ensures CheckLiteral(raw + rest) == Some(rest)
  {
    var t := raw + rest;
    assert raw <= t && t[|raw|..] == rest;
    assert t[0] == raw[0] && t[1] == raw[1];
  }

  lemma Unspaced(t: string)
    requires t == [] || !IsBlank(t[0])
    ensures Space(t) == t
  {}

  /** What a printed value begins with. */
  lemma ValueStarts(v: Value, rest: string)
    requires v.Raw? ==> Scalar(v.raw)
    ensures var t := Print(v) + rest; t != [] && !IsBlank(t[0]) && (v.Raw? ==> t[0] != QUOTE && t[0] != '{' && t[0] != '[')
    ensures var t := Print(v) + rest; t[0] != '}' && t[0] != ']'
  {
    hide PrintMembers, PrintItems, EscapeAll;
    if v.Raw? {
      if n :| ValidNumber(n) && v.raw == NumberText(n) {
        NumberStarts(n);
        hide ValidNumber, NumberText;
      }
    }
  }

  lemma RawRead(raw: string, rest: string)
    requires Scalar(raw) && Ended(rest)
    ensures CheckLiteral(raw + rest) == Some(rest) || (CheckLiteral(raw + rest) == None && CheckNumber(raw + rest) == Some(rest))
  {
    if raw == "true" || raw == "false" || raw == "null" {
      LiteralRead(raw, rest);
    } else {
      var n :| ValidNumber(n) && raw == NumberText(n);
      hide ValidNumber, NumberText, CheckNumber;
      NumberRead(n, rest);
    }
  }

  lemma {:induction false} ValueRead(v: Value, rest: string, depth: int)
    requires Fits(v, depth) && Ended(rest)
    ensures CheckValue(Print(v) + rest, depth) == Some(rest)
    decreases v, 1
  {
    hide Scalar, PrintString, CheckString, CheckLiteral, CheckNumber, CheckMembers, CheckItems, PrintMembers, PrintItems, Space;
    var t := Print(v) + rest;
    ValueStarts(v, rest);
    Unspaced(t);
    match v {
      case Text(s) =>
        StringRead(s, rest);
        PrintedQuote(s, rest);
      case Raw(raw) => RawRead(raw, rest);
      case Object(ms) =>
        var inner := PrintMembers(ms, true) + ("}" + rest);
        assert t == ['{'] + inner && t[1..] == inner;
        MembersStart(ms, rest);
        Unspaced(inner);
        if ms.NoMembers? {
          assert inner[1..] == rest;
        } else {
          MembersRead(ms, rest, depth, []);
        }
      case Array(items) =>
        var inner := PrintItems(items, true) + ("]" + rest);
        assert t == ['['] + inner && t[1..] == inner;
        ItemsStart(items, rest, depth);
        Unspaced(inner);
        if items.NoItems? {
          assert inner[1..] == rest;
        } else {
          ItemsRead(items, rest, depth);
        }
    }
  }

  lemma PrintedQuote(s: string, rest: string)
    ensures (PrintString(s) + rest)[0] == QUOTE
  {}

  lemma MembersStart(ms: Members, rest: string)
    ensures var t := PrintMembers(ms, true) + ("}" + rest);
            t != [] && !IsBlank(t[0]) && (ms.NoMembers? ==> t == "}" + rest) && (ms.Members? ==> t[0] == QUOTE)
  {}

  lemma ItemsStart(items: Items, rest: string, depth: int)
    requires ItemsFit(items, depth)
    ensures var t := PrintItems(items, true) + ("]" + rest);
            t != [] && !IsBlank(t[0]) && (items.NoItems? ==> t == "]" + rest) && (items.Items? ==> t[0] != ']')
  {
    if items.Items? {
      var more := PrintItems(items.rest, false) + ("]" + rest);
      assert PrintItems(items, true) + ("]" + rest) == Print(items.value) + more;
      ValueStarts(items.value, more);
      hide Print, PrintItems;
    }
  }

  /** Behind a printed member: the end of the object, or a comma and the rest. */
  lemma MembersAfter(more: Members, rest: string)
    ensures var t := PrintMembers(more, false) + ("}" + rest);
            && t != [] && Ended(t) && !IsBlank(t[0])
            && (more.NoMembers? ==> t == "}" + rest)
            && (more.Members? ==> t == "," + (PrintMembers(more, true) + ("}" + rest)))
  {
    hide Print, PrintString;
    if more.Members? {
      var x := PrintString(more.key) + (":" + (Print(more.value) + PrintMembers(more.rest, false)));
      assert PrintMembers(more, false) == "," + x && PrintMembers(more, true) == [] + x == x;
      assert ("," + x) + ("}" + rest) == "," + (x + ("}" + rest));
    }
  }

  lemma ItemsAfter(more: Items, rest: string)
    ensures var t := PrintItems(more, false) + ("]" + rest);
            && t != [] && Ended(t) && !IsBlank(t[0])
            && (more.NoItems? ==> t == "]" + rest)
            && (more.Items? ==> t == "," + (PrintItems(more, true) + ("]" + rest)))
  {
    hide Print;
    if more.Items? {
      var x := Print(more.value) + PrintItems(more.rest, false);
      assert PrintItems(more, false) == "," + x && PrintItems(more, true) == [] + x == x;
      assert ("," + x) + ("]" + rest) == "," + (x + ("]" + rest));
    }
  }

  lemma NameIsFresh(name: string, seen: seq<string>)
    requires |seen| < 16 && PlainText(name) && name !in seen
    ensures Fresh(PrintString(name), QuotedNames(seen)) && QuotedNames(seen) + [PrintString(name)] == QuotedNames(seen + [name])
  {
    PlainPrintsItself(name);
    var q := PrintString(name);
    assert q == [QUOTE] + name + [QUOTE];
    forall i | 0 <= i < |seen| ensures QuotedNames(seen)[i] != q {
      if PrintString(seen[i]) == q {
        SameName(seen[i], name);
      }
    }
  }

  lemma SameName(a: string, b: string)
    requires PlainText(b) && PrintString(a) == PrintString(b)
    ensures a == b
  {
    var x, y := EscapeAll(a), EscapeAll(b);
    assert PrintString(a)[1..|x| + 1] == x && PrintString(b)[1..|y| + 1] == y;
    CloseAll(a, []);
    CloseAll(b, []);
    hide EscapeAll, Close, Plain;
    PlainPrintsItself(a);
    PlainPrintsItself(b);
  }

  /** One printed member is accepted. */
  lemma {:induction false} MemberRead(ms: Members, rest: string, depth: int, seen: seq<string>)
    requires ms.Members? && MembersFit(ms, depth, seen)
    ensures var after := PrintMembers(ms.rest, false) + ("}" + rest);
            var t := PrintMembers(ms, true) + ("}" + rest);
            && CheckMember(t, depth, QuotedNames(seen)) == Some(after)
            && CheckString(t).Some? && Quoted(t, CheckString(t).value) == PrintString(ms.key)
    decreases ms, 0
  {
    hide Scalar, PrintString, CheckString, CheckValue, Space, Print, Fresh, PlainText, QuotedNames;
    var after := PrintMembers(ms.rest, false) + ("}" + rest);
    var t := PrintMembers(ms, true) + ("}" + rest);
    var body := ":" + (Print(ms.value) + after);
    MembersLayout(ms, true, "}" + rest);
    assert t == PrintString(ms.key) + body;
    StringRead(ms.key, body);
    assert t[..|t| - |body|] == PrintString(ms.key);
    NameIsFresh(ms.key, seen);
    Unspaced(body);
    MembersAfter(ms.rest, rest);
    assert body[1..] == Print(ms.value) + after;
    ValueRead(ms.value, after, depth + 1);
  }

  lemma {:induction false} MembersRead(ms: Members, rest: string, depth: int, seen: seq<string>)
    requires ms.Members? && MembersFit(ms, depth, seen)
    ensures CheckMembers(PrintMembers(ms, true) + ("}" + rest), depth, QuotedNames(seen)) == Some(rest)
    decreases ms, 1
  {
    hide Scalar, PrintString, CheckString, CheckMember, Space, Print, PrintMembers, QuotedNames, PlainText, Fits;
    MemberRead(ms, rest, depth, seen);
    NameIsFresh(ms.key, seen);
    var after := PrintMembers(ms.rest, false) + ("}" + rest);
    MembersAfter(ms.rest, rest);
    Unspaced(after);
    if ms.rest.NoMembers? {
      assert after[1..] == rest;
    } else {
      var next := PrintMembers(ms.rest, true) + ("}" + rest);
      assert after[1..] == next;
      MembersStart(ms.rest, rest);
      Unspaced(next);
      MembersRead(ms.rest, rest, depth, seen + [ms.key]);
    }
  }

  lemma {:induction false} ItemsRead(items: Items, rest: string, depth: int)
    requires items.Items? && ItemsFit(items, depth)
    ensures CheckItems(PrintItems(items, true) + ("]" + rest), depth) == Some(rest)
    decreases items, 1
  {
    hide Scalar, CheckValue, Space, Print;
    var after := PrintItems(items.rest, false) + ("]" + rest);
    var t := PrintItems(items, true) + ("]" + rest);
    assert t == Print(items.value) + after;
    ItemsAfter(items.rest, rest);
    ValueRead(items.value, after, depth + 1);
    hide PrintItems;
    Unspaced(after);
    if items.rest.NoItems? {
      assert after[1..] == rest;
    } else {
      var next := PrintItems(items.rest, true) + ("]" + rest);
      assert after[1..] == next;
      ItemsStart(items.rest, rest, depth);
      Unspaced(next);
      ItemsRead(items.rest, rest, depth);
    }
  }

  /** Every printed object within the limits is accepted to its last character. */
  lemma PrintedIsAccepted(ms: Members)
    requires MembersFit(ms, 0, [])
    ensures CheckValue(Print(Object(ms)), 0) == Some([])
  {
    hide Print, CheckValue, MembersFit;
    assert Print(Object(ms)) + [] == Print(Object(ms));
    ValueRead(Object(ms), [], 0);
  }
}
