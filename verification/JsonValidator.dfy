/** The strict validator for the scope agent's replies, and why the accessor may
    be used on what it accepts: an outer member is the only one of its name. */
module JsonValidator {
  import opened Common
  import opened Json

  const MAX_DEPTH := 8
  const MAX_KEYS := 16

  predicate IsBlank(c: char) { c == ' ' || c == '\t' || c == '\r' || c == '\n' }

  function Space(t: string): (r: string)
    ensures |r| <= |t|
  {
    if t != [] && IsBlank(t[0]) then Space(t[1..]) else t
  }

  predicate Short(c: char) { c == QUOTE || c == BACKSLASH || c == '/' || c == 'b' || c == 'f' || c == 'n' || c == 'r' || c == 't' }

  /** What follows a string body, if it is a valid one. */
  function Ends(t: string): (r: Option<string>)
    ensures r.Some? ==> |r.value| < |t|
  {
    if t == [] then None
    else if t[0] == QUOTE then Some(t[1..])
    else if t[0] as int < 32 then None
    else if t[0] != BACKSLASH then Ends(t[1..])
    else if |t| < 2 then None
    else if t[1] == 'u' then
      if |t| < 6 || !(IsHex(t[2]) && IsHex(t[3]) && IsHex(t[4]) && IsHex(t[5])) then None else Ends(t[6..])
    else if Short(t[1]) then Ends(t[2..])
    else None
  }

  function CheckString(t: string): (r: Option<string>)
    ensures r.Some? ==> |r.value| < |t| && t[0] == QUOTE
  {
    if t == [] || t[0] != QUOTE then None else Ends(t[1..])
  }

  function SkipDigits(t: string): (r: string)
    ensures |r| <= |t|
  {
    if t != [] && IsDigit(t[0]) then SkipDigits(t[1..]) else t
  }

  /** One digit or more. */
  function SomeDigits(t: string): (r: Option<string>)
    ensures r.Some? ==> |r.value| < |t|
  {
    if t == [] || !IsDigit(t[0]) then None else Some(SkipDigits(t[1..]))
  }

  function Integer(t: string): (r: Option<string>)
    ensures r.Some? ==> |r.value| < |t|
  {
    var u := if t != [] && t[0] == '-' then t[1..] else t;
    if u != [] && u[0] == '0' then Some(u[1..]) else SomeDigits(u)
  }

  function Fraction(t: string): (r: Option<string>)
    ensures r.Some? ==> |r.value| <= |t|
  {
    if t == [] || t[0] != '.' then Some(t) else SomeDigits(t[1..])
  }

  function Exponent(t: string): (r: Option<string>)
    ensures r.Some? ==> |r.value| <= |t|
  {
    if t == [] || (t[0] != 'e' && t[0] != 'E') then Some(t)
    else
      var u := t[1..];
      SomeDigits(if u != [] && (u[0] == '+' || u[0] == '-') then u[1..] else u)
  }

  function CheckNumber(t: string): (r: Option<string>)
    ensures r.Some? ==> |r.value| < |t|
  {
    var i := Integer(t);
    if i.None? then None
    else
      var f := Fraction(i.value);
      if f.None? then None else Exponent(f.value)
  }

  function CheckLiteral(t: string): (r: Option<string>)
    ensures r.Some? ==> |r.value| < |t|
  {
    if "true" <= t then Some(t[4..]) else if "false" <= t then Some(t[5..]) else if "null" <= t then Some(t[4..]) else None
  }

  /** The quoted text of a key, as it stands. */
  function Quoted(t: string, rest: string): string
    requires |rest| <= |t|
  {
    t[..|t| - |rest|]
  }

  function CheckValue(text: string, depth: int): (r: Option<string>)
    ensures r.Some? ==> |r.value| < |text|
    decreases |text|, 1
  {
    var t := Space(text);
    if depth > MAX_DEPTH || t == [] then None
    else if t[0] == QUOTE then CheckString(t)
    else if t[0] == '{' then
      var u := Space(t[1..]);
      if u != [] && u[0] == '}' then Some(u[1..]) else CheckMembers(u, depth, [])
    else if t[0] == '[' then
      var u := Space(t[1..]);
      if u != [] && u[0] == ']' then Some(u[1..]) else CheckItems(u, depth)
    else
      var l := CheckLiteral(t);
      if l.Some? then l else CheckNumber(t)
  }

  /** A key that may follow `keys`: not escaped, not repeated, not too many. */
  predicate Fresh(key: string, keys: seq<string>) {
    |keys| < MAX_KEYS && BACKSLASH !in key && key !in keys
  }

  /** Behind a key: a colon and a value; what follows the value. */
  function CheckMember(t: string, depth: int, keys: seq<string>): (r: Option<string>)
    ensures r.Some? ==> |r.value| < |t| && CheckString(t).Some?
    decreases |t|, 0
  {
    var k := CheckString(t);
    if k.None? || !Fresh(Quoted(t, k.value), keys) then None
    else
      var c := Space(k.value);
      if c == [] || c[0] != ':' then None else CheckValue(c[1..], depth + 1)
  }

  function CheckMembers(t: string, depth: int, keys: seq<string>): (r: Option<string>)
    ensures r.Some? ==> |r.value| < |t|
    decreases |t|, 1
  {
    var v := CheckMember(t, depth, keys);
    if v.None? then None
    else
      var u := Space(v.value);
      if u == [] then None
      else if u[0] == '}' then Some(u[1..])
      else if u[0] != ',' then None
      else CheckMembers(Space(u[1..]), depth, keys + [Quoted(t, CheckString(t).value)])
  }

  function CheckItems(t: string, depth: int): (r: Option<string>)
    ensures r.Some? ==> |r.value| < |t|
    decreases |t|, 2
  {
    var v := CheckValue(t, depth + 1);
    if v.None? then None
    else
      var u := Space(v.value);
      if u == [] then None
      else if u[0] == ']' then Some(u[1..])
      else if u[0] != ',' then None
      else CheckItems(Space(u[1..]), depth)
  }

  // ------------------------------------------------------- the accessor's scan

  lemma Step(t: string, depth: int, key: string)
    requires t != [] && Simple(t[0])
    ensures Scan(t, depth, key) == Scan(t[1..], depth, key)
  {}

  lemma {:induction false} ScanSpace(t: string, depth: int, key: string)
    ensures Scan(t, depth, key) == Scan(Space(t), depth, key)
  {
    hide Scan;
    if t != [] && IsBlank(t[0]) {
      Step(t, depth, key);
      ScanSpace(t[1..], depth, key);
    }
  }

  lemma {:induction false} SpaceIsSkipSpace(t: string)
    requires Space(t) != [] && !IsSpace(Space(t)[0])
    ensures SkipSpace(t) == Space(t)
  {
    if t != [] && IsBlank(t[0]) {
      SpaceIsSkipSpace(t[1..]);
    }
  }

  /** The two readers of strings agree on where a valid one ends. */
  lemma {:induction false} EndsCloses(t: string)
    requires Ends(t).Some?
    ensures var b, r := Close(t), Ends(t).value;
      b.length == |t| - |r| - 1 >= 0 && t[b.length + 1..] == r && (b.escaped <==> BACKSLASH in t[..b.length])
  {
    if t[0] != QUOTE {
      if t[0] != BACKSLASH {
        EndsCloses(t[1..]);
        Shift(t, 1, Close(t[1..]).length);
      } else if t[1] == 'u' {
        EndsCloses(t[6..]);
        HexCloses(t);
        Shift(t, 6, Close(t[6..]).length);
      } else {
        EndsCloses(t[2..]);
        Shift(t, 2, Close(t[2..]).length);
      }
    }
  }

  lemma Shift(t: string, k: nat, n: nat)
    requires k + n < |t|
    ensures t[k..][n + 1..] == t[k + n + 1..] && t[..k + n] == t[..k] + t[k..][..n]
  {}

  lemma HexCloses(t: string)
    requires |t| >= 6 && t[0] == BACKSLASH && IsHex(t[2]) && IsHex(t[3]) && IsHex(t[4]) && IsHex(t[5])
    ensures Close(t).escaped && Close(t).length == if Close(t[6..]).length < 0 then -1 else Close(t[6..]).length + 6
  {
    CloseOne(t[2..]);
    CloseOne(t[3..]);
    CloseOne(t[4..]);
    CloseOne(t[5..]);
    assert t[2..][1..] == t[3..] && t[3..][1..] == t[4..] && t[4..][1..] == t[5..] && t[5..][1..] == t[6..];
  }

  lemma CloseOne(t: string)
    requires t != [] && IsHex(t[0])
    ensures Close(t).length == if Close(t[1..]).length < 0 then -1 else Close(t[1..]).length + 1
  {}

  /** What stands between the quotes. */
  function Content(t: string, rest: string): string
    requires |rest| + 2 <= |t|
  {
    t[1..|t| - |rest| - 1]
  }

  /** A valid string in the scan: a match, or nothing. */
  lemma ScanChecked(t: string, depth: int, key: string)
    requires CheckString(t).Some?
    ensures var r := CheckString(t).value;
      && |r| + 2 <= |t| && Quoted(t, r) == [QUOTE] + Content(t, r) + [QUOTE]
      && Scan(t, depth, key) ==
         if depth == 1 && BACKSLASH !in Content(t, r) && StartsColon(r) && Content(t, r) == key
         then Some(SkipSpace(SkipSpace(r)[1..])) else Scan(r, depth, key)
  {
    var r := CheckString(t).value;
    EndsCloses(t[1..]);
    var n := Close(t[1..]).length;
    assert t[n + 2..] == t[1..][n + 1..] && t[1..n + 1] == t[1..][..n];
    hide Close, Ends, SkipSpace;
  }

  // ------------------------------------------------------------- other values

  lemma {:induction false} ScanDigits(t: string, depth: int, key: string)
    ensures Scan(t, depth, key) == Scan(SkipDigits(t), depth, key)
  {
    hide Scan;
    if t != [] && IsDigit(t[0]) {
      Step(t, depth, key);
      ScanDigits(t[1..], depth, key);
    }
  }

  lemma ScanSomeDigits(t: string, depth: int, key: string)
    requires SomeDigits(t).Some?
    ensures Scan(t, depth, key) == Scan(SomeDigits(t).value, depth, key)
  {
    hide Scan;
    Step(t, depth, key);
    ScanDigits(t[1..], depth, key);
  }

  lemma ScanNumber(t: string, depth: int, key: string)
    requires CheckNumber(t).Some?
    ensures Scan(t, depth, key) == Scan(CheckNumber(t).value, depth, key)
  {
    hide Scan, SkipDigits;
    ScanInteger(t, depth, key);
    var i := Integer(t).value;
    ScanFraction(i, depth, key);
    ScanExponent(Fraction(i).value, depth, key);
  }

  lemma ScanInteger(t: string, depth: int, key: string)
    requires Integer(t).Some?
    ensures Scan(t, depth, key) == Scan(Integer(t).value, depth, key)
  {
    hide Scan, SkipDigits;
    var u := if t != [] && t[0] == '-' then t[1..] else t;
    if t != [] && t[0] == '-' {
      Step(t, depth, key);
    }
    if u != [] && u[0] == '0' {
      Step(u, depth, key);
    } else {
      ScanSomeDigits(u, depth, key);
    }
  }

  lemma ScanFraction(t: string, depth: int, key: string)
    requires Fraction(t).Some?
    ensures Scan(t, depth, key) == Scan(Fraction(t).value, depth, key)
  {
    hide Scan, SkipDigits;
    if t != [] && t[0] == '.' {
      Step(t, depth, key);
      ScanSomeDigits(t[1..], depth, key);
    }
  }

  lemma ScanExponent(t: string, depth: int, key: string)
    requires Exponent(t).Some?
    ensures Scan(t, depth, key) == Scan(Exponent(t).value, depth, key)
  {
    hide Scan, SkipDigits;
    if t != [] && (t[0] == 'e' || t[0] == 'E') {
      Step(t, depth, key);
      var u := t[1..];
      if u != [] && (u[0] == '+' || u[0] == '-') {
        Step(u, depth, key);
        ScanSomeDigits(u[1..], depth, key);
      } else {
        ScanSomeDigits(u, depth, key);
      }
    }
  }

  lemma ScanLiteral(t: string, depth: int, key: string)
    requires CheckLiteral(t).Some?
    ensures Scan(t, depth, key) == Scan(CheckLiteral(t).value, depth, key)
  {
    hide Scan;
    var n := |t| - |CheckLiteral(t).value|;
    var word := t[..n];
    assert word == "true" || word == "false" || word == "null";
    assert forall i :: 0 <= i < |word| ==> Simple(word[i]);
    assert t == word + t[n..];
    ScanRaw(word, t[n..], depth, key);
  }

  /** What comes behind an accepted value inside an object or array. */
  lemma BehindValue(t: string)
    requires Space(t) != [] && (Space(t)[0] == ',' || Closes(Space(t)[0]))
    ensures !StartsColon(t)
  {
    SpaceIsSkipSpace(t);
  }

  lemma ScanCloser(t: string, depth: int, key: string)
    requires t != [] && Closes(t[0]) && depth >= 2
    ensures Scan(t, depth, key) == Scan(t[1..], depth - 1, key)
  {}

  lemma ScanOpener(t: string, depth: int, key: string)
    requires t != [] && Opens(t[0])
    ensures Scan(t, depth, key) == Scan(t[1..], depth + 1, key)
  {}

  /** No accepted value is taken for a key, unless it is a string and a colon
      follows it. */
  lemma {:induction false} ScanAccepted(text: string, nesting: int, depth: int, key: string)
    requires CheckValue(text, nesting).Some? && depth >= 1
    requires depth >= 2 || !StartsColon(CheckValue(text, nesting).value)
    ensures Scan(text, depth, key) == Scan(CheckValue(text, nesting).value, depth, key)
    decreases |text|, 1
  {
    hide Scan, CheckString, CheckLiteral, CheckNumber, StartsColon;
    var t := Space(text);
    ScanSpace(text, depth, key);
    if t[0] == QUOTE {
      ScanChecked(t, depth, key);
    } else if t[0] == '{' || t[0] == '[' {
      var u := Space(t[1..]);
      ScanOpener(t, depth, key);
      ScanSpace(t[1..], depth + 1, key);
      if u != [] && u[0] == (if t[0] == '{' then '}' else ']') {
        ScanCloser(u, depth + 1, key);
      } else if t[0] == '{' {
        ScanAcceptedMembers(u, nesting, [], depth + 1, key);
      } else {
        ScanAcceptedItems(u, nesting, depth + 1, key);
      }
    } else if CheckLiteral(t).Some? {
      ScanLiteral(t, depth, key);
    } else {
      ScanNumber(t, depth, key);
    }
  }

  /** A key, its colon and its value, where keys do not count. */
  lemma {:induction false} ScanAcceptedMember(t: string, nesting: int, keys: seq<string>, depth: int, key: string)
    requires CheckMember(t, nesting, keys).Some? && depth >= 2
    ensures Scan(t, depth, key) == Scan(CheckMember(t, nesting, keys).value, depth, key)
    decreases |t|, 0
  {
    hide Scan, CheckString, CheckValue, Fresh;
    ScanChecked(t, depth, key);
    var k := CheckString(t).value;
    var c := Space(k);
    ScanSpace(k, depth, key);
    Step(c, depth, key);
    ScanAccepted(c[1..], nesting + 1, depth, key);
  }

  lemma {:induction false} ScanAcceptedMembers(t: string, nesting: int, keys: seq<string>, depth: int, key: string)
    requires CheckMembers(t, nesting, keys).Some? && depth >= 2
    ensures Scan(t, depth, key) == Scan(CheckMembers(t, nesting, keys).value, depth - 1, key)
    decreases |t|, 1
  {
    hide Scan, CheckMember;
    var v := CheckMember(t, nesting, keys).value;
    var u := Space(v);
    ScanAcceptedMember(t, nesting, keys, depth, key);
    ScanSpace(v, depth, key);
    if u[0] == '}' {
      ScanCloser(u, depth, key);
    } else {
      Step(u, depth, key);
      ScanSpace(u[1..], depth, key);
      ScanAcceptedMembers(Space(u[1..]), nesting, keys + [Quoted(t, CheckString(t).value)], depth, key);
    }
  }

  lemma {:induction false} ScanAcceptedItems(t: string, nesting: int, depth: int, key: string)
    requires CheckItems(t, nesting).Some? && depth >= 2
    ensures Scan(t, depth, key) == Scan(CheckItems(t, nesting).value, depth - 1, key)
    decreases |t|, 2
  {
    hide Scan, CheckValue;
    var v := CheckValue(t, nesting + 1).value;
    var u := Space(v);
    ScanAccepted(t, nesting + 1, depth, key);
    ScanSpace(v, depth, key);
    if u[0] == ']' {
      ScanCloser(u, depth, key);
    } else {
      Step(u, depth, key);
      ScanSpace(u[1..], depth, key);
      ScanAcceptedItems(Space(u[1..]), nesting, depth, key);
    }
  }

  // ------------------------------------------------------------- outer members

  /** A member of an accepted object: its name and the text at its value. */
  datatype Found = Found(name: string, at: string)

  /** The members of an accepted object, in order. */
  function Listed(t: string, nesting: int, keys: seq<string>): (l: seq<Found>)
    requires CheckMembers(t, nesting, keys).Some?
    ensures |l| >= 1
    decreases |t|
  {
    var k, u := CheckString(t).value, Space(CheckMember(t, nesting, keys).value);
    ContentFits(t);
    [Found(Content(t, k), SkipSpace(Space(k)[1..]))]
    + if u[0] == '}' then [] else Listed(Space(u[1..]), nesting, keys + [Quoted(t, k)])
  }

  lemma ContentFits(t: string)
    requires CheckString(t).Some?
    ensures |CheckString(t).value| + 2 <= |t|
  {}

  function FindIn(l: seq<Found>, name: string): Option<string> {
    if l == [] then None else if l[0].name == name then Some(l[0].at) else FindIn(l[1..], name)
  }

  lemma {:induction false} ScanListed(t: string, nesting: int, keys: seq<string>, key: string)
    requires CheckMembers(t, nesting, keys).Some?
    ensures Scan(t, 1, key) == FindIn(Listed(t, nesting, keys), key)
    decreases |t|
  {
    hide Scan, CheckString, CheckValue;
    var k := CheckString(t).value;
    var c := Space(k);
    var v := CheckMember(t, nesting, keys).value;
    var u := Space(v);
    var l := Listed(t, nesting, keys);
    ScanChecked(t, 1, key);
    SpaceIsSkipSpace(k);
    NoEscape(Quoted(t, k), Content(t, k));
    if Content(t, k) != key {
      ScanSpace(k, 1, key);
      Step(c, 1, key);
      BehindValue(v);
      ScanAccepted(c[1..], nesting + 1, 1, key);
      ScanSpace(v, 1, key);
      if u[0] == '}' {
        ScanLast(u, key);
        assert l[1..] == [];
      } else {
        Step(u, 1, key);
        ScanSpace(u[1..], 1, key);
        ScanListed(Space(u[1..]), nesting, keys + [Quoted(t, k)], key);
        assert l[1..] == Listed(Space(u[1..]), nesting, keys + [Quoted(t, k)]);
      }
    }
  }

  lemma NoEscape(quoted: string, content: string)
    requires quoted == [QUOTE] + content + [QUOTE] && BACKSLASH !in quoted
    ensures BACKSLASH !in content
  {}

  lemma ScanLast(u: string, key: string)
    requires u != [] && u[0] == '}'
    ensures Scan(u, 1, key) == None
  {}

  /** Names are new with respect to the keys before, and differ pairwise. */
  lemma {:induction false} ListedDistinct(t: string, nesting: int, keys: seq<string>, i: nat)
    requires CheckMembers(t, nesting, keys).Some? && i < |Listed(t, nesting, keys)|
    ensures var l := Listed(t, nesting, keys);
      && [QUOTE] + l[i].name + [QUOTE] !in keys
      && forall j :: 0 <= j < i ==> l[j].name != l[i].name
    decreases |t|
  {
    hide CheckString, CheckValue;
    var k := CheckString(t).value;
    var l := Listed(t, nesting, keys);
    ScanChecked(t, 0, "");
    if i > 0 {
      var u := Space(CheckMember(t, nesting, keys).value);
      var more := keys + [Quoted(t, k)];
      var rest := Listed(Space(u[1..]), nesting, more);
      assert l[1..] == rest && l[i] == rest[i - 1];
      ListedDistinct(Space(u[1..]), nesting, more, i - 1);
      Unquote(Quoted(t, k), l[0].name, l[i].name, keys, more);
      forall j | 0 <= j < i ensures l[j].name != l[i].name {
        if j > 0 {
          assert l[j] == rest[j - 1];
        }
      }
    }
  }

  lemma Unquote(quoted: string, name: string, other: string, keys: seq<string>, more: seq<string>)
    requires quoted == [QUOTE] + name + [QUOTE] && more == keys + [quoted] && [QUOTE] + other + [QUOTE] !in more
    ensures name != other && [QUOTE] + other + [QUOTE] !in keys
  {
    assert more[|keys|] == quoted;
    assert forall x :: x in keys ==> x in more;
  }

  /** For every object the validator accepts, key lookup finds exactly the outer
      members, and an outer member is the only one of its name. */
  lemma AcceptedMembersAreUnique(text: string, key: string)
    requires CheckValue(text, 0).Some? && Space(text) != [] && Space(text)[0] == '{'
    ensures var u := Space(Space(text)[1..]);
      if u != [] && u[0] == '}' then FindKey(text, key) == None
      else
        && CheckMembers(u, 0, []).Some?
        && var l := Listed(u, 0, []);
           && FindKey(text, key) == FindIn(l, key)
           && forall i, j :: 0 <= i < j < |l| ==> l[i].name != l[j].name
  {
    hide Scan, CheckMembers, Listed;
    var t := Space(text);
    var u := Space(t[1..]);
    SpaceIsSkipSpace(text);
    ScanOpener(t, 0, key);
    ScanSpace(t[1..], 1, key);
    if u != [] && u[0] == '}' {
      ScanLast(u, key);
    } else {
      ScanListed(u, 0, [], key);
      var l := Listed(u, 0, []);
      forall i, j | 0 <= i < j < |l| ensures l[i].name != l[j].name {
        ListedDistinct(u, 0, [], j);
      }
    }
  }
}
