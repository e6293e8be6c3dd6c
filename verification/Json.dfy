/** The daemon's JSON printer and accessor. A C pointer into text is the text
    from there on; text contains no NUL. */
module Json {

  import opened Common

  const QUOTE: char := '\"'
  const BACKSLASH: char := '\\'

  predicate IsSpace(c: char) { c == ' ' || 9 <= c as int <= 13 }

  function SkipSpace(t: string): (r: string)
    ensures |r| <= |t| && (r != [] ==> !IsSpace(r[0]))
  {
    if t != [] && IsSpace(t[0]) then SkipSpace(t[1..]) else t
  }

  // ------------------------------------------------------------------- key lookup

  /** Where a string body ends, and whether it has an escape; -1 if it does not end. */
  datatype Body = Body(length: int, escaped: bool)

  function Close(t: string): (b: Body)
    ensures b.length < |t| && b.length >= -1 && (b.length >= 0 ==> t[b.length] == QUOTE)
  {
    if t == [] then Body(-1, false)
    else if t[0] == QUOTE then Body(0, false)
    else if t[0] == BACKSLASH then
      if |t| < 2 then Body(-1, true)
      else
        var b := Close(t[2..]);
        Body(if b.length < 0 then -1 else b.length + 2, true)
    else
      var b := Close(t[1..]);
      Body(if b.length < 0 then -1 else b.length + 1, b.escaped)
  }

  predicate StartsColon(t: string) { SkipSpace(t) != [] && SkipSpace(t)[0] == ':' }

  predicate Opens(c: char) { c == '{' || c == '[' }
  predicate Closes(c: char) { c == '}' || c == ']' }

  /** The scan of `pm_find_json_key` at nesting `depth`. */
  function Scan(t: string, depth: int, key: string): Option<string>
    decreases |t|
  {
    if t == [] then None
    else if Opens(t[0]) then Scan(t[1..], depth + 1, key)
    else if Closes(t[0]) then if depth == 1 then None else Scan(t[1..], depth - 1, key)
    else if t[0] != QUOTE then Scan(t[1..], depth, key)
    else
      var b := Close(t[1..]);
      if b.length < 0 then None
      else
        var after := t[b.length + 2..];
        if depth == 1 && !b.escaped && StartsColon(after) && t[1..b.length + 1] == key then Some(SkipSpace(SkipSpace(after)[1..]))
        else Scan(after, depth, key)
  }

  function FindKey(t: string, key: string): Option<string> {
    var s := SkipSpace(t);
    if s == [] || s[0] != '{' then None else Scan(s, 0, key)
  }

  // ---------------------------------------------------------------------- printing

  function Hex(n: nat): char
    requires n < 16
  {
    if n < 10 then '0' + n as char else 'a' + (n - 10) as char
  }

  /** How one character is printed inside a string. */
  function Escape(c: char): (e: string)
    ensures |e| >= 1
  {
    if c == QUOTE then [BACKSLASH, QUOTE]
    else if c == BACKSLASH then [BACKSLASH, BACKSLASH]
    else if c as int == 8 then [BACKSLASH, 'b']
    else if c as int == 12 then [BACKSLASH, 'f']
    else if c == '\n' then [BACKSLASH, 'n']
    else if c == '\r' then [BACKSLASH, 'r']
    else if c == '\t' then [BACKSLASH, 't']
    else if c as int < 32 then [BACKSLASH, 'u', '0', '0', Hex(c as int / 16), Hex(c as int % 16)]
    else [c]
  }

  /** The escapes are those of section 7 of RFC 8259; a control character without a
      short form is printed by its two hexadecimal digits. */
  lemma EscapesAreStandard(c: char)
    ensures Escape('\"') == "\\\"" && Escape('\\') == "\\\\" && Escape('\n') == "\\n" && Escape('\r') == "\\r" && Escape('\t') == "\\t"
    ensures Escape(8 as char) == "\\b" && Escape(12 as char) == "\\f"
    ensures Escape(0x1f as char) == "\\u001f" && Escape(1 as char) == "\\u0001" && Escape(0x1a as char) == "\\u001a"
    ensures c as int >= 32 && c != '\"' && c != '\\' ==> Escape(c) == [c]
  {}

  /** A character that is printed as itself. */
  predicate Plain(c: char) { c != QUOTE && c != BACKSLASH && c as int >= 32 }

  function EscapeAll(s: string): string {
    if s == [] then [] else Escape(s[0]) + EscapeAll(s[1..])
  }

  /** `raw` is a number or a literal. */
  datatype Value = Text(text: string) | Raw(raw: string) | Object(members: Members) | Array(items: Items)
  datatype Members = NoMembers | Members(key: string, value: Value, rest: Members)
  datatype Items = NoItems | Items(value: Value, rest: Items)

  predicate Simple(c: char) { !Opens(c) && !Closes(c) && c != QUOTE }

  predicate WellFormed(v: Value) {
    match v
    case Text(_) => true
    case Raw(raw) => forall i :: 0 <= i < |raw| ==> Simple(raw[i])
    case Object(ms) => MembersFormed(ms)
    case Array(items) => ItemsFormed(items)
  }

  predicate MembersFormed(ms: Members) { ms.Members? ==> WellFormed(ms.value) && MembersFormed(ms.rest) }
  predicate ItemsFormed(items: Items) { items.Items? ==> WellFormed(items.value) && ItemsFormed(items.rest) }

  function PrintString(s: string): string { [QUOTE] + EscapeAll(s) + [QUOTE] }

  function Print(v: Value): string {
    match v
    case Text(s) => PrintString(s)
    case Raw(raw) => raw
    case Object(ms) => "{" + PrintMembers(ms, true) + "}"
    case Array(items) => "[" + PrintItems(items, true) + "]"
  }

  function PrintMembers(ms: Members, first: bool): string {
    match ms
    case NoMembers => []
    case Members(key, value, rest) =>
      (if first then [] else ",") + (PrintString(key) + (":" + (Print(value) + PrintMembers(rest, false))))
  }

  function PrintItems(items: Items, first: bool): string {
    match items
    case NoItems => []
    case Items(value, rest) => (if first then [] else ",") + (Print(value) + PrintItems(rest, false))
  }

  // ------------------------------------------------------- strings are passed over

  lemma CloseStep(c: char, t: string)
    requires Plain(c)
    ensures Close([c] + t).length == (if Close(t).length < 0 then -1 else Close(t).length + 1)
    ensures Close([c] + t).escaped == Close(t).escaped
  {
    assert ([c] + t)[1..] == t;
  }

  lemma CloseSkip(c: char, t: string)
    ensures Close([BACKSLASH, c] + t).length == (if Close(t).length < 0 then -1 else Close(t).length + 2)
    ensures Close([BACKSLASH, c] + t).escaped
  {
    assert ([BACKSLASH, c] + t)[2..] == t;
  }

  lemma CloseEscape(c: char, t: string)
    ensures Close(Escape(c) + t).length == (if Close(t).length < 0 then -1 else Close(t).length + |Escape(c)|)
    ensures Close(Escape(c) + t).escaped == (!Plain(c) || Close(t).escaped)
  {
    var e := Escape(c);
    if Plain(c) {
      CloseStep(c, t);
    } else if |e| == 2 {
      CloseSkip(e[1], t);
    } else {
      CloseUnicode(e, t);
    }
    hide Close;
  }

  lemma CloseUnicode(e: string, t: string)
    requires |e| == 6 && e[0] == BACKSLASH && forall k :: 2 <= k < 6 ==> Plain(e[k])
    ensures Close(e + t).length == (if Close(t).length < 0 then -1 else Close(t).length + 6) && Close(e + t).escaped
  {
    hide Close;
    var a, b, c := [e[5]] + t, [e[4]] + ([e[5]] + t), [e[3]] + ([e[4]] + ([e[5]] + t));
    CloseStep(e[5], t);
    CloseStep(e[4], a);
    CloseStep(e[3], b);
    CloseStep(e[2], c);
    CloseSkip(e[1], [e[2]] + c);
    assert e + t == [BACKSLASH, e[1]] + ([e[2]] + c);
  }

  /** A printed string ends where it was printed to end. */
  lemma {:induction false} CloseAll(s: string, rest: string)
    ensures Close(EscapeAll(s) + ([QUOTE] + rest)).length == |EscapeAll(s)|
    ensures Close(EscapeAll(s) + ([QUOTE] + rest)).escaped == exists i :: 0 <= i < |s| && !Plain(s[i])
  {
    hide Close, Plain, Escape;
    var end := [QUOTE] + rest;
    if s == [] {
      assert EscapeAll(s) + end == end;
      CloseEnd(rest);
    } else {
      CloseAll(s[1..], rest);
      Associate(Escape(s[0]), EscapeAll(s[1..]), end);
      CloseEscape(s[0], EscapeAll(s[1..]) + end);
      SomePlain(s);
    }
  }

  lemma CloseEnd(rest: string)
    ensures Close([QUOTE] + rest) == Body(0, false)
  {}

  lemma SomePlain(s: string)
    requires s != []
    ensures (exists i :: 0 <= i < |s| && !Plain(s[i])) <==> !Plain(s[0]) || exists i :: 0 <= i < |s[1..]| && !Plain(s[1..][i])
  {
    if i :| 0 <= i < |s| && !Plain(s[i]) {
      if i > 0 {
        assert s[1..][i - 1] == s[i];
      }
    }
    if i :| 0 <= i < |s[1..]| && !Plain(s[1..][i]) {
      assert s[i + 1] == s[1..][i];
    }
  }

  /** A key that can be looked up: printed as itself. */
  predicate PlainText(s: string) { forall i :: 0 <= i < |s| ==> Plain(s[i]) }

  lemma {:induction false} PlainPrintsItself(s: string)
    requires PlainText(s)
    ensures EscapeAll(s) == s
  {
    if s != [] {
      PlainPrintsItself(s[1..]);
      assert s == [s[0]] + s[1..];
    }
  }

  /** A printed string in the scan: a match, or nothing. */
  lemma ScanString(s: string, rest: string, depth: int, key: string)
    ensures Scan(PrintString(s) + rest, depth, key) ==
      if depth == 1 && PlainText(s) && StartsColon(rest) && s == key then Some(SkipSpace(SkipSpace(rest)[1..]))
      else Scan(rest, depth, key)
  {
    var t := PrintString(s) + rest;
    var e := EscapeAll(s);
    assert t[1..] == e + ([QUOTE] + rest);
    CloseAll(s, rest);
    assert t[|e| + 2..] == rest && t[1..|e| + 1] == e;
    if PlainText(s) {
      PlainPrintsItself(s);
    }
    hide Close, EscapeAll, SkipSpace;
  }

  // -------------------------------------------------------- values are passed over

  lemma ScanSimple(c: char, t: string, depth: int, key: string)
    requires Simple(c)
    ensures Scan([c] + t, depth, key) == Scan(t, depth, key)
  {
    assert ([c] + t)[1..] == t;
  }

  lemma ScanOpen(c: char, t: string, depth: int, key: string)
    requires Opens(c)
    ensures Scan([c] + t, depth, key) == Scan(t, depth + 1, key)
  {
    assert ([c] + t)[1..] == t;
  }

  lemma ScanClose(c: char, t: string, depth: int, key: string)
    requires Closes(c)
    ensures Scan([c] + t, depth, key) == if depth == 1 then None else Scan(t, depth - 1, key)
  {
    assert ([c] + t)[1..] == t;
  }

  lemma {:induction false} ScanRaw(raw: string, rest: string, depth: int, key: string)
    requires forall i :: 0 <= i < |raw| ==> Simple(raw[i])
    ensures Scan(raw + rest, depth, key) == Scan(rest, depth, key)
  {
    if raw == [] {
      assert raw + rest == rest;
    } else {
      ScanRaw(raw[1..], rest, depth, key);
      assert raw + rest == [raw[0]] + (raw[1..] + rest);
      hide Scan, Simple;
      ScanSimple(raw[0], raw[1..] + rest, depth, key);
    }
  }

  /** No printed value, whatever its strings look like, is ever taken for a key,
      unless it is a string and a colon follows it. */
  lemma {:induction false} ScanValue(v: Value, rest: string, depth: int, key: string)
    requires WellFormed(v) && depth >= 1 && (depth >= 2 || !StartsColon(rest))
    ensures Scan(Print(v) + rest, depth, key) == Scan(rest, depth, key)
    decreases v, 1
  {
    hide Scan, PrintString, StartsColon, PrintMembers, PrintItems;
    match v {
      case Text(s) => ScanString(s, rest, depth, key);
      case Raw(raw) => ScanRaw(raw, rest, depth, key);
      case Object(ms) =>
        ScanMembers(ms, true, "}" + rest, depth + 1, key);
        ScanBrackets('{', PrintMembers(ms, true), '}', rest, depth, key);
      case Array(items) =>
        ScanItems(items, true, "]" + rest, depth + 1, key);
        ScanBrackets('[', PrintItems(items, true), ']', rest, depth, key);
    }
  }

  /** Brackets around what is itself passed over. */
  lemma ScanBrackets(open: char, inside: string, close: char, rest: string, depth: int, key: string)
    requires Opens(open) && Closes(close) && depth >= 1
    requires Scan(inside + ([close] + rest), depth + 1, key) == Scan([close] + rest, depth + 1, key)
    ensures Scan(([open] + inside + [close]) + rest, depth, key) == Scan(rest, depth, key)
  {
    hide Scan;
    var t := inside + ([close] + rest);
    assert ([open] + inside + [close]) + rest == [open] + t;
    ScanOpen(open, t, depth, key);
    ScanClose(close, rest, depth + 1, key);
  }

  lemma {:induction false} ScanMembers(ms: Members, first: bool, rest: string, depth: int, key: string)
    requires MembersFormed(ms) && depth >= 2
    ensures Scan(PrintMembers(ms, first) + rest, depth, key) == Scan(rest, depth, key)
    decreases ms, 0
  {
    hide Scan, PrintString, StartsColon;
    match ms {
      case NoMembers => assert PrintMembers(ms, first) + rest == rest;
      case Members(k, value, more) =>
        var after := PrintMembers(more, false) + rest;
        var body := ":" + (Print(value) + after);
        MembersLayout(ms, first, rest);
        if !first {
          ScanSimple(',', PrintString(k) + body, depth, key);
        }
        ScanString(k, body, depth, key);
        ScanSimple(':', Print(value) + after, depth, key);
        ScanValue(value, after, depth, key);
        ScanMembers(more, false, rest, depth, key);
    }
  }

  lemma MembersLayout(ms: Members, first: bool, rest: string)
    requires ms.Members?
    ensures var body := ":" + (Print(ms.value) + (PrintMembers(ms.rest, false) + rest));
      && (first ==> PrintMembers(ms, first) + rest == PrintString(ms.key) + body)
      && (!first ==> PrintMembers(ms, first) + rest == [','] + (PrintString(ms.key) + body))
  {
    var sep := if first then [] else ",";
    var body := ":" + (Print(ms.value) + (PrintMembers(ms.rest, false) + rest));
    Nest(sep, PrintString(ms.key), ":", Print(ms.value), PrintMembers(ms.rest, false), rest);
    assert PrintMembers(ms, first) + rest == sep + (PrintString(ms.key) + body);
    hide PrintString, Print, PrintMembers;
    assert first ==> sep + (PrintString(ms.key) + body) == PrintString(ms.key) + body;
  }

  lemma Nest(a: string, b: string, c: string, d: string, e: string, r: string)
    ensures (a + (b + (c + (d + e)))) + r == a + (b + (c + (d + (e + r))))
  {
    assert (d + e) + r == d + (e + r);
    assert (c + (d + e)) + r == c + ((d + e) + r);
    assert (b + (c + (d + e))) + r == b + ((c + (d + e)) + r);
  }

  lemma {:induction false} ScanItems(items: Items, first: bool, rest: string, depth: int, key: string)
    requires ItemsFormed(items) && depth >= 2
    ensures Scan(PrintItems(items, first) + rest, depth, key) == Scan(rest, depth, key)
    decreases items, 0
  {
    hide Scan, PrintString, StartsColon;
    match items {
      case NoItems => assert PrintItems(items, first) + rest == rest;
      case Items(value, more) =>
        var after := PrintItems(more, false) + rest;
        assert PrintItems(items, first) + rest == (if first then [] else ",") + (Print(value) + after);
        if first {
          assert PrintItems(items, first) + rest == Print(value) + after;
        } else {
          assert PrintItems(items, first) + rest == [','] + (Print(value) + after);
          ScanSimple(',', Print(value) + after, depth, key);
        }
        ScanValue(value, after, depth, key);
        ScanItems(more, false, rest, depth, key);
    }
  }

  // ---------------------------------------------------------------- outer members

  /** The text at the value of the first member of that name. */
  function FirstMember(ms: Members, key: string, rest: string): Option<string> {
    match ms
    case NoMembers => None
    case Members(k, value, more) =>
      if k == key then Some(Print(value) + (PrintMembers(more, false) + rest)) else FirstMember(more, key, rest)
  }

  /** A printed value does not begin with white space. */
  predicate Tight(v: Value) { v.Raw? ==> v.raw != [] && !IsSpace(v.raw[0]) }

  predicate TightMembers(ms: Members) { ms.Members? ==> Tight(ms.value) && TightMembers(ms.rest) }

  lemma TightStart(v: Value, rest: string)
    requires Tight(v)
    ensures SkipSpace(Print(v) + rest) == Print(v) + rest && Print(v) != []
  {
    hide EscapeAll;
    assert Print(v) != [] && !IsSpace(Print(v)[0]);
    assert (Print(v) + rest)[0] == Print(v)[0];
  }

  lemma NotColon(c: char, t: string)
    requires c != ':' && !IsSpace(c)
    ensures !StartsColon([c] + t)
  {}

  lemma {:induction false} ScanOuter(ms: Members, first: bool, rest: string, key: string)
    requires MembersFormed(ms) && TightMembers(ms)
    ensures Scan(PrintMembers(ms, first) + ("}" + rest), 1, key) ==
      if PlainText(key) then FirstMember(ms, key, "}" + rest) else None
  {
    hide Scan, PrintString, StartsColon, SkipSpace, PlainText;
    var end := "}" + rest;
    match ms {
      case NoMembers =>
        assert PrintMembers(ms, first) + end == ['}'] + rest;
        ScanClose('}', rest, 1, key);
      case Members(k, value, more) =>
        var after := PrintMembers(more, false) + end;
        var body := ":" + (Print(value) + after);
        MembersLayout(ms, first, end);
        if !first {
          ScanSimple(',', PrintString(k) + body, 1, key);
        }
        ScanString(k, body, 1, key);
        ColonBody(Print(value) + after);
        TightStart(value, after);
        if !(PlainText(k) && k == key) {
          ScanSimple(':', Print(value) + after, 1, key);
          AfterValue(more, rest);
          ScanValue(value, after, 1, key);
          ScanOuter(more, false, rest, key);
        }
    }
  }

  lemma ColonBody(t: string)
    ensures StartsColon(":" + t) && SkipSpace(":" + t) == ":" + t && (":" + t)[1..] == t
  {}

  /** A comma or the closing brace follows every value. */
  lemma AfterValue(more: Members, rest: string)
    ensures !StartsColon(PrintMembers(more, false) + ("}" + rest))
  {
    hide PrintString, Print;
    var t := PrintMembers(more, false) + ("}" + rest);
    assert t != [] && (t[0] == ',' || t[0] == '}');
    assert t == [t[0]] + t[1..];
    NotColon(t[0], t[1..]);
  }

  /** In every printed object, whatever its nested values contain, looking up a
      plain key finds the first outer member of that name, and nothing otherwise;
      a key that is printed with an escape is never found. */
  lemma LookupFindsFirstMember(ms: Members, rest: string, key: string)
    requires MembersFormed(ms) && TightMembers(ms)
    ensures FindKey(Print(Object(ms)) + rest, key) == if PlainText(key) then FirstMember(ms, key, "}" + rest) else None
  {
    hide Scan, PrintMembers, PlainText;
    var inner := PrintMembers(ms, true) + ("}" + rest);
    assert Print(Object(ms)) + rest == ['{'] + inner;
    ScanOpen('{', inner, 0, key);
    ScanOuter(ms, true, rest, key);
  }

  // ------------------------------------------------------------------ reading back

  predicate IsHex(c: char) { '0' <= c <= '9' || 'a' <= c <= 'f' || 'A' <= c <= 'F' }

  /** How many of the first four characters are hexadecimal digits, from the left. */
  function HexRun(t: string, limit: nat): (n: nat)
    ensures n <= |t| && n <= limit
    decreases limit
  {
    if limit == 0 || t == [] || !IsHex(t[0]) then 0 else 1 + HexRun(t[1..], limit - 1)
  }

  /** What an escape stands for; a \u escape is read as a question mark. */
  function Unescape(c: char): char {
    if c == 'b' then 8 as char else if c == 'f' then 12 as char else if c == 'n' then '\n'
    else if c == 'r' then '\r' else if c == 't' then '\t' else if c == 'u' then '?' else c
  }

  /** Reads a string body into a buffer of `size`, behind `out`. */
  function ReadBody(t: string, out: string, size: nat): Option<string>
    decreases |t|
  {
    if t == [] then None
    else if t[0] == QUOTE then Some(out)
    else if t[0] == BACKSLASH then
      if |t| < 2 || |out| + 1 >= size then None
      else
        var skip := if t[1] == 'u' then HexRun(t[2..], 4) else 0;
        ReadBody(t[2 + skip..], out + [Unescape(t[1])], size)
    else if |out| + 1 >= size then None
    else ReadBody(t[1..], out + [t[0]], size)
  }

  function ReadString(t: string, size: nat): Option<string> {
    if t == [] || t[0] != QUOTE || size == 0 then None else ReadBody(t[1..], [], size)
  }

  function GetString(t: string, key: string, size: nat): Option<string> {
    var at := FindKey(t, key);
    if at.None? then None else ReadString(at.value, size)
  }

  /** A control character without a short escape is not kept. */
  function Shown(c: char): char {
    if c as int < 32 && c as int != 8 && c as int != 12 && c != '\n' && c != '\r' && c != '\t' then '?' else c
  }

  function ShowAll(s: string): (r: string)
    ensures |r| == |s|
  {
    if s == [] then [] else [Shown(s[0])] + ShowAll(s[1..])
  }

  lemma ReadEscape(c: char, t: string, out: string, size: nat)
    ensures ReadBody(Escape(c) + t, out, size) == if |out| + 1 >= size then None else ReadBody(t, out + [Shown(c)], size)
  {
    var e := Escape(c);
    if Plain(c) {
      assert (e + t)[1..] == t;
    } else if |e| == 2 {
      assert (e + t)[2..] == t && e[1] != 'u' && Unescape(e[1]) == Shown(c);
    } else {
      ReadUnicode(e, t, out, size);
    }
  }

  lemma ReadUnicode(e: string, t: string, out: string, size: nat)
    requires |e| == 6 && e[0] == BACKSLASH && e[1] == 'u' && forall k :: 2 <= k < 6 ==> IsHex(e[k])
    ensures ReadBody(e + t, out, size) == if |out| + 1 >= size then None else ReadBody(t, out + ['?'], size)
  {
    var r := e + t;
    FourHex(r[2..]);
    assert r[6..] == t;
    hide HexRun;
  }

  lemma FourHex(t: string)
    requires |t| >= 4 && IsHex(t[0]) && IsHex(t[1]) && IsHex(t[2]) && IsHex(t[3])
    ensures HexRun(t, 4) == 4
  {
    assert HexRun(t[1..], 3) == 1 + HexRun(t[1..][1..], 2);
    assert t[1..][1..] == t[2..] && t[2..][1..] == t[3..];
    assert HexRun(t[2..], 2) == 1 + HexRun(t[3..], 1);
    assert HexRun(t[3..], 1) == 1;
  }

  /** Reading a printed string returns what was printed, if it fits. */
  lemma {:induction false} ReadBack(s: string, rest: string, out: string, size: nat)
    requires |out| < size
    ensures ReadBody(EscapeAll(s) + ([QUOTE] + rest), out, size) ==
      if |out| + |s| < size then Some(out + ShowAll(s)) else None
  {
    hide ReadBody, Escape, Shown;
    var end := [QUOTE] + rest;
    if s == [] {
      assert EscapeAll(s) + end == end && out + ShowAll(s) == out;
      ReadEnd(rest, out, size);
    } else {
      var t := EscapeAll(s[1..]) + end;
      Associate(Escape(s[0]), EscapeAll(s[1..]), end);
      ReadEscape(s[0], t, out, size);
      if |out| + 1 < size {
        ReadBack(s[1..], rest, out + [Shown(s[0])], size);
        Associate(out, [Shown(s[0])], ShowAll(s[1..]));
      }
    }
  }

  lemma Associate(a: string, b: string, c: string)
    ensures (a + b) + c == a + (b + c)
  {}

  lemma ReadEnd(rest: string, out: string, size: nat)
    ensures ReadBody([QUOTE] + rest, out, size) == Some(out)
  {}

  lemma ReadPrinted(s: string, rest: string, size: nat)
    requires size > 0
    ensures ReadString(PrintString(s) + rest, size) == if |s| < size then Some(ShowAll(s)) else None
  {
    hide ReadBody, EscapeAll, ShowAll;
    var t := PrintString(s) + rest;
    PrintedBody(EscapeAll(s), rest);
    ReadBack(s, rest, [], size);
    assert [] + ShowAll(s) == ShowAll(s);
  }

  lemma PrintedBody(e: string, rest: string)
    ensures var t := ([QUOTE] + e + [QUOTE]) + rest;
      t != [] && t[0] == QUOTE && t[1..] == e + ([QUOTE] + rest)
  {}

  /** The first outer member of a name. */
  function MemberNamed(ms: Members, key: string): Option<Value> {
    match ms
    case NoMembers => None
    case Members(k, value, more) => if k == key then Some(value) else MemberNamed(more, key)
  }

  lemma {:induction false} FirstMemberText(ms: Members, key: string, rest: string)
    ensures MemberNamed(ms, key).None? ==> FirstMember(ms, key, rest) == None
    ensures MemberNamed(ms, key).Some? ==>
      exists more: string :: FirstMember(ms, key, rest) == Some(Print(MemberNamed(ms, key).value) + more)
  {
    hide Print, PrintMembers;
    match ms {
      case NoMembers =>
      case Members(k, value, more) =>
        if k != key {
          FirstMemberText(more, key, rest);
        }
    }
  }

  /** For every printed object, however its keys, strings and nested objects look,
      reading a plain key as a string returns the text of the first outer member
      of that name, control characters without a short escape replaced; it fails
      if that text does not fit the buffer or there is no such member. */
  lemma PrintedStringReadsBack(ms: Members, rest: string, key: string, size: nat, s: string)
    requires MembersFormed(ms) && TightMembers(ms) && PlainText(key) && size > 0
    ensures MemberNamed(ms, key) == Some(Text(s)) ==>
      GetString(Print(Object(ms)) + rest, key, size) == if |s| < size then Some(ShowAll(s)) else None
    ensures MemberNamed(ms, key).None? ==> GetString(Print(Object(ms)) + rest, key, size) == None
  {
    hide FindKey, ReadString, PlainText;
    LookupFindsFirstMember(ms, rest, key);
    FirstMemberText(ms, key, "}" + rest);
    if MemberNamed(ms, key) == Some(Text(s)) {
      var more: string :| FirstMember(ms, key, "}" + rest) == Some(Print(Text(s)) + more);
      ReadPrinted(s, more, size);
    }
  }

  /** In the object {"a\"b":"x"} the member a"b is there and is not found. */
  lemma EscapedKeyIsNotFound(ms: Members, key: string)
    requires key == ['a', QUOTE, 'b'] && ms == Members(key, Text("x"), NoMembers)
    ensures MemberNamed(ms, key) == Some(Text("x")) && FindKey(Print(Object(ms)), key) == None
  {
    assert !Plain(key[1]);
    LookupFindsFirstMember(ms, "", key);
    assert Print(Object(ms)) + "" == Print(Object(ms));
    hide FindKey, Print;
  }
}
