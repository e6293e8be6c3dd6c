/** The JSON printer and accessor as loops over a growing buffer and a cursor. */
module JsonText {
  import opened Common
  import opened Json

  /** A capacity that is enough: doubled as often as needed. */
  method Grow(capacity: nat, required: nat) returns (next: nat)
    ensures next >= required && next >= capacity && (required <= capacity ==> next == capacity)
    ensures required > capacity ==> next > 0 && (next == 1024 || next == capacity || next / 2 < required)
  {
    if required <= capacity {
      return capacity;
    }
    next := if capacity == 0 then 1024 else capacity;
    while next < required
      invariant next > 0 && next >= capacity && (next == 1024 || next == capacity || next / 2 < required)
      decreases required - next
    {
      next := next * 2;
    }
  }

  class Buffer {
    var data: string
    var capacity: nat

    /** There is always room for the terminator behind what was appended. */
    ghost predicate Valid()
      reads this
    {
      data == [] || |data| < capacity
    }

    constructor ()
      ensures Valid() && data == []
    {
      data, capacity := [], 0;
    }

    method Append(text: string)
      requires Valid()
      modifies this
      ensures Valid() && data == old(data) + text && |data| < capacity
    {
      capacity := Grow(capacity, |data| + |text| + 1);
      data := data + text;
    }

    /** Appends a value as a JSON string. */
    method AppendString(value: string)
      requires Valid()
      modifies this
      ensures Valid() && data == old(data) + PrintString(value)
    {
      hide Escape;
      Append([QUOTE]);
      var i := 0;
      assert value[0..] == value;
      while i < |value|
        invariant i <= |value| && Valid()
        invariant data + EscapeAll(value[i..]) == old(data) + [QUOTE] + EscapeAll(value)
      {
        assert value[i..][1..] == value[i + 1..];
        Associate(data, Escape(value[i]), EscapeAll(value[i + 1..]));
        Append(Escape(value[i]));
        i := i + 1;
      }
      assert data == old(data) + [QUOTE] + EscapeAll(value);
      Append([QUOTE]);
      Associate(old(data), [QUOTE] + EscapeAll(value), [QUOTE]);
      Associate(old(data), [QUOTE], EscapeAll(value));
    }
  }

  /** The first place from `at` that is not white space. */
  method SkipBlank(t: string, at: nat) returns (i: nat)
    requires at <= |t|
    ensures at <= i <= |t| && t[i..] == SkipSpace(t[at..])
  {
    i := at;
    while i < |t| && IsSpace(t[i])
      invariant at <= i <= |t| && SkipSpace(t[at..]) == SkipSpace(t[i..])
    {
      assert t[i..][1..] == t[i + 1..];
      i := i + 1;
    }
  }

  /** The end of the string body that starts at `at`, -1 if it does not end. */
  method FindQuote(t: string, at: nat) returns (end: int, escaped: bool)
    requires at <= |t|
    ensures var b := Close(t[at..]);
      && end == (if b.length < 0 then -1 else at + b.length) && (end >= 0 ==> escaped == b.escaped)
  {
    hide Close;
    var i := at;
    escaped := false;
    while i < |t| && t[i] != QUOTE
      invariant at <= i <= |t| && Along(Close(t[at..]), Close(t[i..]), i - at, escaped)
    {
      CloseAt(t, i);
      if t[i] == BACKSLASH {
        escaped := true;
        if i + 1 == |t| {
          return -1, true;
        }
        i := i + 2;
      } else {
        i := i + 1;
      }
    }
    CloseThere(t, i);
    end := if i == |t| then -1 else i;
  }

  /** `b` is what `c` becomes when `n` characters stand before it. */
  predicate Along(b: Body, c: Body, n: nat, escaped: bool) {
    if c.length < 0 then b.length < 0 else b.length == n + c.length && b.escaped == (escaped || c.escaped)
  }

  lemma CloseAt(t: string, i: nat)
    requires i < |t| && t[i] != QUOTE
    ensures t[i] != BACKSLASH ==> Along(Close(t[i..]), Close(t[i + 1..]), 1, false)
    ensures t[i] == BACKSLASH && i + 1 == |t| ==> Close(t[i..]).length < 0
    ensures t[i] == BACKSLASH && i + 1 < |t| ==> Along(Close(t[i..]), Close(t[i + 2..]), 2, true)
  {
    assert t[i..][1..] == t[i + 1..];
    if i + 1 < |t| {
      assert t[i..][2..] == t[i + 2..];
    }
  }

  lemma CloseThere(t: string, i: nat)
    requires i <= |t| && (i < |t| ==> t[i] == QUOTE)
    ensures Close(t[i..]) == if i == |t| then Body(-1, false) else Body(0, false)
  {}

  /** A string met by the scan: the key looked for, or something to pass over. */
  method AtString(t: string, i: nat, depth: int, key: string) returns (at: int, next: int)
    requires i < |t| && t[i] == QUOTE
    ensures -1 <= at <= |t| && (next < 0 ==> Scan(t[i..], depth, key) == if at < 0 then None else Some(t[at..]))
    ensures next >= 0 ==> i < next <= |t| && Scan(t[i..], depth, key) == Scan(t[next..], depth, key)
  {
    hide Scan, Close, SkipSpace, StartsColon;
    var end, escaped := FindQuote(t, i + 1);
    if end < 0 {
      Unclosed(t, i, depth, key);
      return -1, -1;
    }
    var value := SkipBlank(t, end + 1);
    ColonAt(t, end + 1, value);
    if depth == 1 && !escaped && value < |t| && t[value] == ':' && t[i + 1..end] == key {
      var start := SkipBlank(t, value + 1);
      Matches(t, i, key, end, value, start);
      return start, -1;
    }
    Passes(t, i, depth, key, end);
    return -1, end + 1;
  }

  lemma Unclosed(t: string, i: nat, depth: int, key: string)
    requires i < |t| && t[i] == QUOTE && Close(t[i + 1..]).length < 0
    ensures Scan(t[i..], depth, key) == None
  {
    hide Scan;
    ScanAtQuote(t, i, depth, key);
  }

  lemma ColonAt(t: string, at: nat, value: nat)
    requires at <= |t| && value <= |t| && t[value..] == SkipSpace(t[at..])
    ensures StartsColon(t[at..]) <==> value < |t| && t[value] == ':'
  {
    hide SkipSpace;
  }

  lemma Matches(t: string, i: nat, key: string, end: nat, value: nat, start: nat)
    requires i < end < |t| && t[i] == QUOTE && Close(t[i + 1..]) == Body(end - i - 1, false) && t[i + 1..end] == key
    requires value < |t| && StartsColon(t[end + 1..]) && t[value..] == SkipSpace(t[end + 1..])
    requires start <= |t| && t[start..] == SkipSpace(t[value + 1..])
    ensures Scan(t[i..], 1, key) == Some(t[start..])
  {
    hide Scan, SkipSpace, StartsColon;
    ScanAtQuote(t, i, 1, key);
    assert t[value..][1..] == t[value + 1..];
  }

  lemma Passes(t: string, i: nat, depth: int, key: string, end: nat)
    requires i < end < |t| && t[i] == QUOTE && Close(t[i + 1..]).length == end - i - 1
    requires !(depth == 1 && !Close(t[i + 1..]).escaped && StartsColon(t[end + 1..]) && t[i + 1..end] == key)
    ensures Scan(t[i..], depth, key) == Scan(t[end + 1..], depth, key)
  {
    hide Scan, StartsColon;
    ScanAtQuote(t, i, depth, key);
  }

  /** The place of the value of the first outer member of that name, -1 if none. */
  method FindJsonKey(t: string, key: string) returns (at: int)
    ensures -1 <= at <= |t| && FindKey(t, key) == if at < 0 then None else Some(t[at..])
  {
    hide Scan, SkipSpace;
    var i := SkipBlank(t, 0);
    assert t[0..] == t;
    if i == |t| || t[i] != '{' {
      return -1;
    }
    var depth := 0;
    while i < |t|
      invariant i <= |t| && FindKey(t, key) == Scan(t[i..], depth, key)
      decreases |t| - i
    {
      hide FindKey;
      if t[i] == QUOTE {
        var next;
        at, next := AtString(t, i, depth, key);
        if next < 0 {
          return at;
        }
        i := next;
      } else {
        ScanAtOther(t, i, depth, key);
        if Closes(t[i]) && depth == 1 {
          return -1;
        }
        depth := if Opens(t[i]) then depth + 1 else if Closes(t[i]) then depth - 1 else depth;
        i := i + 1;
      }
    }
    ScanEnd(t[i..], depth, key);
    at := -1;
  }

  lemma ScanEnd(t: string, depth: int, key: string)
    requires t == []
    ensures Scan(t, depth, key) == None
  {}

  lemma ScanAtOther(t: string, i: nat, depth: int, key: string)
    requires i < |t| && t[i] != QUOTE
    ensures Scan(t[i..], depth, key) ==
      if Closes(t[i]) && depth == 1 then None
      else Scan(t[i + 1..], if Opens(t[i]) then depth + 1 else if Closes(t[i]) then depth - 1 else depth, key)
  {
    assert t[i..][1..] == t[i + 1..];
  }

  lemma ScanAtQuote(t: string, i: nat, depth: int, key: string)
    requires i < |t| && t[i] == QUOTE
    ensures var b := Close(t[i + 1..]);
      Scan(t[i..], depth, key) ==
      if b.length < 0 then None
      else if depth == 1 && !b.escaped && StartsColon(t[i + b.length + 2..]) && t[i + 1..i + 1 + b.length] == key
        then Some(SkipSpace(SkipSpace(t[i + b.length + 2..])[1..]))
      else Scan(t[i + b.length + 2..], depth, key)
  {
    var s := t[i..];
    assert s[1..] == t[i + 1..];
    var b := Close(s[1..]);
    if b.length >= 0 {
      assert s[b.length + 2..] == t[i + b.length + 2..] && s[1..b.length + 1] == t[i + 1..i + 1 + b.length];
    }
    hide Close, SkipSpace;
  }

  /** Reads the string at `at` into a buffer of `size`. */
  method ReadJsonString(t: string, at: nat, size: nat) returns (out: Option<string>)
    requires at <= |t|
    ensures out == ReadString(t[at..], size)
  {
    if at == |t| || t[at] != QUOTE || size == 0 {
      return None;
    }
    var i, text := at + 1, [];
    assert t[at..][1..] == t[i..];
    hide ReadBody;
    while i < |t|
      invariant i <= |t| && ReadBody(t[at + 1..], [], size) == ReadBody(t[i..], text, size)
      decreases |t| - i
    {
      hide CharacterAt, NextAt;
      ReadStops(t, i, text, size);
      if t[i] == QUOTE {
        return Some(text);
      }
      if |text| + 1 >= size || (t[i] == BACKSLASH && i + 1 == |t|) {
        return None;
      }
      ReadAt(t, i, text, size);
      text, i := text + [CharacterAt(t, i)], NextAt(t, i);
    }
    ReadNothing(t[i..], text, size);
    out := None;
  }

  lemma ReadNothing(t: string, out: string, size: nat)
    requires t == []
    ensures ReadBody(t, out, size) == None
  {}

  lemma ReadStops(t: string, i: nat, out: string, size: nat)
    requires i < |t|
    ensures t[i] == QUOTE ==> ReadBody(t[i..], out, size) == Some(out)
    ensures t[i] != QUOTE && (|out| + 1 >= size || (t[i] == BACKSLASH && i + 1 == |t|)) ==> ReadBody(t[i..], out, size) == None
  {}

  /** The character read at `i`, and where the next one starts. */
  function CharacterAt(t: string, i: nat): char
    requires i < |t| && (t[i] == BACKSLASH ==> i + 1 < |t|)
  {
    if t[i] == BACKSLASH then Unescape(t[i + 1]) else t[i]
  }

  function NextAt(t: string, i: nat): (n: nat)
    requires i < |t| && (t[i] == BACKSLASH ==> i + 1 < |t|)
    ensures i < n <= |t|
  {
    if t[i] != BACKSLASH then i + 1
    else if t[i + 1] == 'u' then i + 2 + HexRun(t[i + 2..], 4)
    else i + 2
  }

  lemma ReadAt(t: string, i: nat, out: string, size: nat)
    requires i < |t| && t[i] != QUOTE && |out| + 1 < size && (t[i] == BACKSLASH ==> i + 1 < |t|)
    ensures ReadBody(t[i..], out, size) == ReadBody(t[NextAt(t, i)..], out + [CharacterAt(t, i)], size)
  {
    hide HexRun;
    var s := t[i..];
    assert s[1..] == t[i + 1..];
    if t[i] == BACKSLASH {
      assert s[2..] == t[i + 2..];
      assert s[NextAt(t, i) - i..] == t[NextAt(t, i)..];
    }
  }
}
