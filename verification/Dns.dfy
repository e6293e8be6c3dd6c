/** Reading one DNS question and answering it from the table (sections 3.2 and
    4.1 of RFC 1035). */
module Dns {
  import opened Common
  import opened DnsTable

  type Byte = b: int | 0 <= b < 256

  const NAME_SIZE := 256

  function Lower(b: Byte): char {
    if 65 <= b <= 90 then (b + 32) as char else b as char
  }

  /** The `n` bytes from `at`, in lower case. */
  function LowerText(packet: seq<Byte>, at: nat, n: nat): (s: string)
    requires at + n <= |packet|
    ensures |s| == n && forall k :: 0 <= k < n ==> s[k] == Lower(packet[at + k])
  {
    seq(n, k requires 0 <= k < n => Lower(packet[at + k]))
  }

  /** Two bytes, most significant first. */
  function Word(high: int, low: int): int { high * 256 + low }

  // ---------------------------------------------------------------- the question

  datatype Name = Name(text: string, next: nat)

  /** One more label behind what was read. */
  function Joined(name: string, part: string): string {
    if name == [] then part else name + "." + part
  }

  /** The name from `cursor` on, given what was read before. Compression and
      labels that would overflow the buffer are rejected. */
  function ParseName(packet: seq<Byte>, cursor: nat, name: string): (r: Option<Name>)
    ensures r.Some? && cursor <= |packet| ==> cursor <= r.value.next <= |packet|
    decreases |packet| - cursor
  {
    if cursor >= |packet| then Some(Name(name, cursor))
    else
      var n, at := packet[cursor], cursor + 1;
      if n == 0 then Some(Name(name, at))
      else if n >= 64 || at + n > |packet| then None
      else if |name| + n + 2 > NAME_SIZE then None
      else ParseName(packet, at + n, Joined(name, LowerText(packet, at, n)))
  }

  datatype Question = Question(name: string, kind: int, klass: int, end: nat)

  function ParseQuestion(packet: seq<Byte>): (r: Option<Question>)
    ensures r.Some? && |packet| >= 12 ==> 16 <= r.value.end <= |packet|
  {
    var n := ParseName(packet, 12, "");
    if n.None? || n.value.next + 4 > |packet| || n.value.text == "" then None
    else
      var c := n.value.next;
      Some(Question(n.value.text, Word(packet[c], packet[c + 1]), Word(packet[c + 2], packet[c + 3]), c + 4))
  }

  /** What is read always fits its buffer, with its terminator. */
  lemma {:induction false} NamesFit(packet: seq<Byte>, cursor: nat, name: string)
    requires |name| + 1 <= NAME_SIZE
    ensures var r := ParseName(packet, cursor, name); r.Some? ==> |r.value.text| + 1 <= NAME_SIZE
    decreases |packet| - cursor
  {
    if cursor < |packet| {
      var n, at := packet[cursor], cursor + 1;
      if n != 0 && n < 64 && at + n <= |packet| && |name| + n + 2 <= NAME_SIZE {
        NamesFit(packet, at + n, Joined(name, LowerText(packet, at, n)));
      }
    }
  }

  ghost predicate Agree(a: seq<Byte>, b: seq<Byte>, end: nat) {
    end <= |a| && end <= |b| && forall k :: 12 <= k < end ==> a[k] == b[k]
  }

  lemma SameText(a: seq<Byte>, b: seq<Byte>, end: nat, at: nat, n: nat)
    requires Agree(a, b, end) && 12 <= at && at + n <= end
    ensures LowerText(a, at, n) == LowerText(b, at, n)
  {
    hide Lower;
  }

  /** One label of a name. */
  lemma ParseLabel(packet: seq<Byte>, cursor: nat, name: string)
    requires cursor < |packet|
    ensures packet[cursor] == 0 ==> ParseName(packet, cursor, name) == Some(Name(name, cursor + 1))
    ensures 0 < packet[cursor] < 64 && cursor + 1 + packet[cursor] <= |packet| && |name| + packet[cursor] + 2 <= NAME_SIZE ==>
      ParseName(packet, cursor, name) ==
      ParseName(packet, cursor + 1 + packet[cursor], Joined(name, LowerText(packet, cursor + 1, packet[cursor])))
    ensures packet[cursor] >= 64 || cursor + 1 + packet[cursor] > |packet| || |name| + packet[cursor] + 2 > NAME_SIZE ==>
      packet[cursor] == 0 || ParseName(packet, cursor, name).None?
  {
    hide LowerText, Joined;
  }

  /** Reading depends only on the bytes read, if a zero label ends the name. */
  lemma {:induction false} SameBytesSameName(a: seq<Byte>, b: seq<Byte>, cursor: nat, name: string, end: nat)
    requires Agree(a, b, end) && 12 <= cursor < |a|
    requires ParseName(a, cursor, name).Some? && ParseName(a, cursor, name).value.next < end
    ensures ParseName(b, cursor, name) == ParseName(a, cursor, name)
    decreases |a| - cursor
  {
    hide ParseName, LowerText, Joined;
    ParseLabel(a, cursor, name);
    Ahead(a, cursor, name);
    var n, at := a[cursor], cursor + 1;
    assert b[cursor] == n;
    ParseLabel(b, cursor, name);
    if n != 0 {
      var next := Joined(name, LowerText(a, at, n));
      Ahead(a, at + n, next);
      SameText(a, b, end, at, n);
      SameBytesSameName(a, b, at + n, next, end);
    }
  }

  lemma {:induction false} Ahead(packet: seq<Byte>, cursor: nat, name: string)
    ensures ParseName(packet, cursor, name).Some? ==> cursor <= ParseName(packet, cursor, name).value.next
    ensures ParseName(packet, cursor, name).Some? && cursor < |packet| ==> cursor < ParseName(packet, cursor, name).value.next
    decreases |packet| - cursor
  {
    hide LowerText, Joined;
    if cursor < |packet| {
      var n, at := packet[cursor], cursor + 1;
      if n != 0 && n < 64 && at + n <= |packet| && |name| + n + 2 <= NAME_SIZE {
        Ahead(packet, at + n, Joined(name, LowerText(packet, at, n)));
      }
    }
  }

  // ---------------------------------------------------------------- the response

  /** A response header: the query's id and recursion bit, one response code. */
  function Header(query: seq<Byte>, questions: Byte, answers: Byte, code: Byte): (h: seq<Byte>)
    requires |query| >= 12 && code < 16
    ensures |h| == 12
  {
    [query[0], query[1], 128 + query[2] % 2, 128 + code, 0, questions, 0, answers, 0, 0, 0, 0]
  }

  /** Pointer to the question's name, type A, class IN, one second, four bytes. */
  function Answer(address: seq<Byte>): (a: seq<Byte>)
    requires |address| == 4
    ensures |a| == 16
  {
    [0xc0, 0x0c, 0, 1, 0, 1, 0, 0, 0, 1, 0, 4] + address
  }

  predicate Addresses(records: seq<Record>) {
    forall i :: 0 <= i < |records| ==> |records[i].address| == 4 && forall k :: 0 <= k < 4 ==> 0 <= records[i].address[k] < 256
  }

  function AddressOf(r: Record): (a: seq<Byte>)
    requires |r.address| == 4 && forall k :: 0 <= k < 4 ==> 0 <= r.address[k] < 256
    ensures |a| == 4
  {
    [r.address[0], r.address[1], r.address[2], r.address[3]]
  }

  /** What C sees of a name that may contain a zero byte. */
  function CString(name: string): string {
    if name == [] || name[0] == 0 as char then [] else [name[0]] + CString(name[1..])
  }

  predicate Wanted(q: Question) { q.klass == 1 && (q.kind == 1 || q.kind == 255) }

  function Respond(records: seq<Record>, query: seq<Byte>, size: nat): (r: seq<Byte>)
    requires Addresses(records)
  {
    if |query| < 12 || size < |query| + 28 then []
    else if Word(query[4], query[5]) < 1 then Header(query, 0, 0, 0)
    else
      var q := ParseQuestion(query);
      if q.None? then Header(query, 0, 0, 1)
      else
        var row := Linear(records, 0, CString(q.value.name));
        var answers := row >= 0 && Wanted(q.value);
        Header(query, 1, if answers then 1 else 0, if row < 0 then 3 else 0) + query[12..q.value.end]
        + if answers then Answer(AddressOf(records[row])) else []
  }

  /** A query that gets its question back. */
  predicate Readable(query: seq<Byte>, size: nat) {
    |query| >= 12 && size >= |query| + 28 && Word(query[4], query[5]) >= 1 && ParseQuestion(query).Some?
  }

  /** Every response stays within its buffer and carries the query's id. */
  lemma ResponseFits(records: seq<Record>, query: seq<Byte>, size: nat)
    requires Addresses(records)
    ensures var r := Respond(records, query, size);
      && |r| <= size && (r == [] <==> |query| < 12 || size < |query| + 28)
      && (r != [] ==> |r| >= 12 && r[0] == query[0] && r[1] == query[1])
  {
    hide ParseName, CString, Linear;
  }

  lemma Parts(h: seq<Byte>, e: seq<Byte>, t: seq<Byte>)
    requires |h| == 12
    ensures var r := h + e + t;
      && |r| == 12 + |e| + |t| && (forall k :: 0 <= k < 12 ==> r[k] == h[k])
      && (forall k :: 0 <= k < |e| ==> r[12 + k] == e[k]) && r[12 + |e|..] == t
  {}

  /** What a readable query gets: a header, its own question, and the answer. */
  lemma ResponseParts(records: seq<Record>, query: seq<Byte>, size: nat)
    requires Addresses(records) && Readable(query, size)
    ensures var r, q := Respond(records, query, size), ParseQuestion(query).value;
      var row := Linear(records, 0, CString(q.name));
      var answers := row >= 0 && Wanted(q);
      var h := Header(query, 1, if answers then 1 else 0, if row < 0 then 3 else 0);
      && Agree(query, r, q.end) && |r| == q.end + (if answers then 16 else 0)
      && (forall k :: 0 <= k < 12 ==> r[k] == h[k])
      && (answers ==> r[q.end..] == Answer(AddressOf(records[row])))
  {
    hide ParseName, CString, Linear, Header, Answer, AddressOf;
    var r, q := Respond(records, query, size), ParseQuestion(query).value;
    var row := Linear(records, 0, CString(q.name));
    var answers := row >= 0 && Wanted(q);
    var e, t: seq<Byte> := query[12..q.end], if answers then Answer(AddressOf(records[row])) else [];
    Parts(Header(query, 1, if answers then 1 else 0, if row < 0 then 3 else 0), e, t);
    forall k | 12 <= k < q.end ensures r[k] == query[k] {
      assert r[12 + (k - 12)] == e[k - 12];
    }
  }

  /** The question comes back unchanged: reading the response reads the query's
      question again. */
  lemma QuestionReadsBack(records: seq<Record>, query: seq<Byte>, size: nat)
    requires Addresses(records) && Readable(query, size)
    ensures var r := Respond(records, query, size);
      |r| >= 12 && r[5] == 1 && ParseQuestion(r) == ParseQuestion(query)
  {
    hide Respond, CString, Linear, ParseQuestion;
    ResponseParts(records, query, size);
    SameQuestion(query, Respond(records, query, size));
  }

  lemma SameQuestion(a: seq<Byte>, b: seq<Byte>)
    requires |a| >= 12 && ParseQuestion(a).Some? && Agree(a, b, ParseQuestion(a).value.end)
    ensures ParseQuestion(b) == ParseQuestion(a)
  {
    hide ParseName;
    SameBytesSameName(a, b, 12, "", ParseQuestion(a).value.end);
  }

  /** Where a question's type and class stand. */
  lemma QuestionFields(query: seq<Byte>)
    requires |query| >= 12 && ParseQuestion(query).Some?
    ensures var q := ParseQuestion(query).value;
      && q.kind == Word(query[q.end - 4], query[q.end - 3]) && q.klass == Word(query[q.end - 2], query[q.end - 1])
  {
    hide ParseName;
  }

  /** There is an A answer exactly when the question is of class IN and type A or
      ANY and the name, read as C text, is in the table. Its last four bytes are then
      the address of the first record with that name, in order, behind a pointer to
      the question's name, type, class, a second to live and the length. The header
      says so, with code 3 for an unknown name. */
  lemma AnswersExactly(records: seq<Record>, query: seq<Byte>, size: nat)
    requires Addresses(records) && Readable(query, size)
    ensures var r, q := Respond(records, query, size), ParseQuestion(query).value;
      var row, end := Linear(records, 0, CString(q.name)), q.end;
      && |r| >= 12 && (r[7] == 1 || r[7] == 0)
      && (r[7] == 1 <==> row >= 0 && query[end - 4] == 0 && (query[end - 3] == 1 || query[end - 3] == 255)
                         && query[end - 2] == 0 && query[end - 1] == 1)
      && r[..7] == [query[0], query[1], 128 + query[2] % 2, if row < 0 then 131 else 128, 0, 1, 0] && r[8..12] == [0, 0, 0, 0]
      && (r[7] == 1 ==>
            && |r| == end + 16 && r[end..end + 12] == [0xc0, 0x0c, 0, 1, 0, 1, 0, 0, 0, 1, 0, 4]
            && forall k :: 0 <= k < 4 ==> r[end + 12 + k] == records[row].address[k])
      && (r[7] == 0 ==> |r| == end)
  {
    ResponseParts(records, query, size);
    QuestionFields(query);
    var r, q := Respond(records, query, size), ParseQuestion(query).value;
    var row := Linear(records, 0, CString(q.name));
    hide Respond, ParseQuestion, CString, Linear, Header, Answer, AddressOf;
    HeaderBytes(r, query, if row >= 0 && Wanted(q) then 1 else 0, if row < 0 then 3 else 0);
    if row >= 0 && Wanted(q) {
      AnswerBytes(r, q.end, records[row]);
    }
  }

  lemma HeaderBytes(r: seq<Byte>, query: seq<Byte>, answers: Byte, code: Byte)
    requires |query| >= 12 && |r| >= 12 && code < 16 && forall k :: 0 <= k < 12 ==> r[k] == Header(query, 1, answers, code)[k]
    ensures r[..7] == [query[0], query[1], 128 + query[2] % 2, 128 + code, 0, 1, 0] && r[7] == answers && r[8..12] == [0, 0, 0, 0]
  {}

  lemma AnswerBytes(r: seq<Byte>, end: nat, record: Record)
    requires end <= |r| && |record.address| == 4 && (forall k :: 0 <= k < 4 ==> 0 <= record.address[k] < 256)
    requires r[end..] == Answer(AddressOf(record))
    ensures |r| == end + 16 && r[end..end + 12] == [0xc0, 0x0c, 0, 1, 0, 1, 0, 0, 0, 1, 0, 4]
    ensures forall k :: 0 <= k < 4 ==> r[end + 12 + k] == record.address[k]
  {
    var a := Answer(AddressOf(record));
    assert r[end..end + 12] == a[..12];
    forall k | 0 <= k < 4 ensures r[end + 12 + k] == record.address[k] {
      assert r[end + 12 + k] == r[end..][12 + k] == a[12 + k];
    }
  }

  /** A query without a question, or with one that cannot be read, gets a bare header:
      no error for the first, a format error for the second. */
  lemma BareResponses(records: seq<Record>, query: seq<Byte>, size: nat)
    requires Addresses(records) && |query| >= 12 && size >= |query| + 28
    ensures var r := Respond(records, query, size);
      && (query[4] == 0 && query[5] == 0 ==> r == [query[0], query[1], 128 + query[2] % 2, 128, 0, 0, 0, 0, 0, 0, 0, 0])
      && ((query[4] != 0 || query[5] != 0) && ParseQuestion(query).None? ==>
            r == [query[0], query[1], 128 + query[2] % 2, 129, 0, 0, 0, 0, 0, 0, 0, 0])
  {
    hide ParseQuestion, Linear, CString;
  }

  // ------------------------------------------------------------------- hostnames

  predicate LabelChar(c: char) { c == '-' || 'a' <= c <= 'z' || '0' <= c <= '9' }

  /** Where the label that starts at `i` ends. */
  function LabelEnd(h: string, i: nat): (e: nat)
    requires i <= |h|
    ensures i <= e <= |h| && (e < |h| ==> h[e] == '.') && forall k :: i <= k < e ==> h[k] != '.'
    decreases |h| - i
  {
    if i == |h| || h[i] == '.' then i else LabelEnd(h, i + 1)
  }

  /** Labels of [a-z0-9-], 1 to 63 long, with no hyphen at either end. */
  predicate LabelsFrom(h: string, i: nat)
    requires i <= |h|
    decreases |h| - i
  {
    var e := LabelEnd(h, i);
    && 1 <= e - i <= 63 && (forall k :: i <= k < e ==> LabelChar(h[k])) && h[i] != '-' && h[e - 1] != '-'
    && (e < |h| ==> LabelsFrom(h, e + 1))
  }

  predicate Hostname(h: string) { 1 <= |h| <= 253 && LabelsFrom(h, 0) }

  /** The labels from `i` on, each behind its length, and the root. */
  function Encode(h: string, i: nat): seq<Byte>
    requires i <= |h| && LabelsFrom(h, i)
    decreases |h| - i
  {
    var e := LabelEnd(h, i);
    Head(h, i, e) + if e == |h| then [0] else Encode(h, e + 1)
  }

  function Bytes(h: string, i: nat, e: nat): (b: seq<Byte>)
    requires i <= e <= |h| && forall k :: i <= k < e ==> LabelChar(h[k])
    ensures |b| == e - i && forall k :: 0 <= k < e - i ==> b[k] == h[i + k] as int
  {
    if i == e then [] else Bytes(h, i, e - 1) + [Code(h[e - 1])]
  }

  function Code(c: char): (b: Byte)
    requires LabelChar(c)
    ensures b == c as int
  {
    c as int
  }

  lemma LowerLabel(c: char)
    requires LabelChar(c)
    ensures Lower(c as int) == c
  {}

  lemma LabelReads(packet: seq<Byte>, at: nat, h: string, i: nat, e: nat)
    requires i <= e <= |h| && (forall k :: i <= k < e ==> LabelChar(h[k]))
    requires at + (e - i) <= |packet| && packet[at..at + (e - i)] == Bytes(h, i, e)
    ensures LowerText(packet, at, e - i) == h[i..e]
  {
    forall k | 0 <= k < e - i ensures LowerText(packet, at, e - i)[k] == h[i..e][k] {
      assert packet[at + k] == packet[at..at + (e - i)][k];
      LowerLabel(h[i + k]);
    }
  }

  /** Everything read before label `i`. */
  function Before(h: string, i: nat): string
    requires i <= |h|
  {
    if i == 0 then "" else h[..i - 1]
  }

  lemma BeforeNext(h: string, i: nat, e: nat)
    requires i <= e <= |h| && (i == 0 || (i > 1 && h[i - 1] == '.'))
    ensures Joined(Before(h, i), h[i..e]) == h[..e]
  {
    if i > 0 {
      assert h[..i - 1] + "." + h[i..e] == h[..e];
    }
  }

  /** The packet holds `b` at `at`. */
  ghost predicate HasAt(packet: seq<Byte>, at: nat, b: seq<Byte>) {
    at + |b| <= |packet| && packet[at..at + |b|] == b
  }

  lemma HasParts(packet: seq<Byte>, at: nat, n: Byte, bytes: seq<Byte>, rest: seq<Byte>)
    requires |bytes| == n && HasAt(packet, at, ([n] + bytes) + rest)
    ensures at + 1 + n + |rest| <= |packet| && packet[at] == n
    ensures HasAt(packet, at + 1, bytes) && HasAt(packet, at + 1 + n, rest)
  {
    var all := ([n] + bytes) + rest;
    assert |all| == 1 + n + |rest| && all[1..1 + n] == bytes && all[1 + n..] == rest;
    assert packet[at] == packet[at..at + |all|][0];
    assert packet[at + 1..at + 1 + n] == packet[at..at + |all|][1..1 + n];
    assert packet[at + 1 + n..at + 1 + n + |rest|] == packet[at..at + |all|][1 + n..];
  }

  /** The label at the front of an encoded name, and what comes behind it. */
  lemma HasLabel(packet: seq<Byte>, at: nat, h: string, i: nat)
    requires i <= |h| && LabelsFrom(h, i) && HasAt(packet, at, Encode(h, i))
    ensures var e := LabelEnd(h, i);
      && 1 <= e - i <= 63 && at + 1 + (e - i) < |packet| && packet[at] == e - i
      && LowerText(packet, at + 1, e - i) == h[i..e]
      && (e == |h| ==> packet[at + 1 + (e - i)] == 0 && |Encode(h, i)| == e - i + 2)
      && (e < |h| ==> LabelsFrom(h, e + 1) && HasAt(packet, at + 1 + (e - i), Encode(h, e + 1))
                      && |Encode(h, i)| == 1 + (e - i) + |Encode(h, e + 1)|)
  {
    hide LabelEnd, LowerText, Bytes, Encode, HasAt, LabelsFrom;
    EncodeShape(h, i);
    BehindSize(h, i);
    var e := LabelEnd(h, i);
    var rest := Behind(h, i);
    HasParts(packet, at, e - i, Bytes(h, i, e), rest);
    HasSlice(packet, at + 1, Bytes(h, i, e));
    LabelReads(packet, at + 1, h, i, e);
    HasFirst(packet, at + 1 + (e - i), rest);
  }

  lemma HasSlice(packet: seq<Byte>, at: nat, b: seq<Byte>)
    requires HasAt(packet, at, b)
    ensures at + |b| <= |packet| && packet[at..at + |b|] == b
  {}

  /** What follows the label at `i` in the encoding. */
  function Behind(h: string, i: nat): seq<Byte>
    requires i <= |h| && LabelsFrom(h, i)
  {
    var e := LabelEnd(h, i);
    if e == |h| then [0] else Encode(h, e + 1)
  }

  lemma EncodeShape(h: string, i: nat)
    requires i <= |h| && LabelsFrom(h, i)
    ensures var e := LabelEnd(h, i);
      && 1 <= e - i <= 63 && (forall k :: i <= k < e ==> LabelChar(h[k])) && (e < |h| ==> LabelsFrom(h, e + 1))
      && Encode(h, i) == Head(h, i, e) + Behind(h, i)
  {
    hide LabelEnd, Bytes;
  }

  function Head(h: string, i: nat, e: nat): (b: seq<Byte>)
    requires i <= e <= |h| && e - i <= 63 && forall k :: i <= k < e ==> LabelChar(h[k])
    ensures |b| == 1 + (e - i)
  {
    [e - i] + Bytes(h, i, e)
  }

  lemma BehindSize(h: string, i: nat)
    requires i <= |h| && LabelsFrom(h, i)
    ensures |Behind(h, i)| >= 1
  {
    hide LabelEnd, Head, Encode;
    EncodeShape(h, i);
    if LabelEnd(h, i) < |h| {
      EncodeShape(h, LabelEnd(h, i) + 1);
    }
  }

  lemma HasFirst(packet: seq<Byte>, at: nat, b: seq<Byte>)
    requires HasAt(packet, at, b) && b != []
    ensures packet[at] == b[0]
  {
    assert packet[at] == packet[at..at + |b|][0];
  }

  /** Reading an encoded name from label `i` on gives the whole name back. */
  lemma {:induction false} EncodedReads(packet: seq<Byte>, at: nat, h: string, i: nat)
    requires i <= |h| <= 253 && LabelsFrom(h, i) && (i == 0 || (i > 1 && h[i - 1] == '.')) && HasAt(packet, at, Encode(h, i))
    ensures ParseName(packet, at, Before(h, i)) == Some(Name(h, at + |Encode(h, i)|))
    decreases |h| - i
  {
    hide ParseName, LabelsFrom, LowerText, Before, Joined, Encode, HasAt;
    var e := LabelEnd(h, i);
    HasLabel(packet, at, h, i);
    BeforeSize(h, i);
    ParseLabel(packet, at, Before(h, i));
    BeforeNext(h, i, e);
    if e == |h| {
      assert h[..e] == h;
      ParseLabel(packet, at + 1 + (e - i), h);
    } else {
      BeforeDot(h, e);
      EncodedReads(packet, at + 1 + (e - i), h, e + 1);
    }
  }

  lemma BeforeSize(h: string, i: nat)
    requires i <= |h|
    ensures |Before(h, i)| <= i
  {}

  lemma BeforeDot(h: string, e: nat)
    requires e < |h|
    ensures Before(h, e + 1) == h[..e]
  {}

  /** Every normalized hostname, encoded as section 4.1.2 of RFC 1035 asks, is
      read back as itself. */
  lemma HostnameSurvives(h: string, header: seq<Byte>, kind: seq<Byte>)
    requires Hostname(h) && |header| == 12 && |kind| == 4
    ensures var packet := header + Encode(h, 0) + kind;
      && ParseQuestion(packet).Some? && ParseQuestion(packet).value.name == h
      && ParseQuestion(packet).value.kind == Word(kind[0], kind[1]) && ParseQuestion(packet).value.klass == Word(kind[2], kind[3])
  {
    hide ParseName, Encode;
    var packet := header + Encode(h, 0) + kind;
    assert packet[12..12 + |Encode(h, 0)|] == Encode(h, 0);
    EncodedReads(packet, 12, h, 0);
    assert Before(h, 0) == "";
  }

  // -------------------------------------------------------------- the procedures

  function LowerChar(c: char): char { if 'A' <= c <= 'Z' then c + 32 as char else c }

  function LowerAll(t: string): (h: string)
    ensures |h| == |t| && forall k :: 0 <= k < |t| ==> h[k] == LowerChar(t[k])
  {
    seq(|t|, k requires 0 <= k < |t| => LowerChar(t[k]))
  }

  /** One trailing dot is dropped. */
  function Trimmed(t: string): string {
    if t != [] && t[|t| - 1] == '.' then t[..|t| - 1] else t
  }

  lemma {:induction false} LabelEndAt(h: string, i: nat, e: nat)
    requires i <= e <= |h| && (forall k :: i <= k < e ==> h[k] != '.')
    ensures LabelEnd(h, i) >= e && (e == |h| || h[e] == '.' ==> LabelEnd(h, i) == e)
    decreases e - i
  {
    if i < e {
      LabelEndAt(h, i + 1, e);
    }
  }

  /** The label under way at `index` has `size` good characters, and the name is
      a hostname exactly if it is one from that label on. */
  ghost predicate Scanning(h: string, index: nat, size: nat) {
    && size <= index <= |h| && (LabelsFrom(h, 0) <==> LabelsFrom(h, index - size))
    && (forall k :: index - size <= k < index ==> LabelChar(h[k]) && h[k] != '.')
    && (size > 0 ==> h[index - size] != '-')
  }

  lemma ScanCharacter(h: string, index: nat, size: nat)
    requires Scanning(h, index, size) && index < |h| && h[index] != '.'
    ensures LabelChar(h[index]) && !(size == 0 && h[index] == '-') ==> Scanning(h, index + 1, size + 1)
    ensures !LabelChar(h[index]) || (size == 0 && h[index] == '-') ==> !LabelsFrom(h, 0)
  {
    LabelEndAt(h, index - size, index + 1);
    hide LabelEnd;
  }

  lemma ScanLabelEnd(h: string, index: nat, size: nat)
    requires Scanning(h, index, size) && (index == |h| || h[index] == '.')
    ensures size == 0 || size > 63 || h[index - 1] == '-' ==> !LabelsFrom(h, 0)
    ensures !(size == 0 || size > 63 || h[index - 1] == '-') ==>
      if index == |h| then LabelsFrom(h, 0) else Scanning(h, index + 1, 0)
  {
    LabelEndAt(h, index - size, index);
    hide LabelEnd;
  }

  /** Lowercases a record name and says whether it is a hostname. */
  method NormalizeHostname(text: string) returns (ok: bool, hostname: string)
    ensures ok == Hostname(LowerAll(Trimmed(text))) && (ok ==> hostname == LowerAll(Trimmed(text)))
  {
    hide LabelsFrom, Scanning, LabelChar;
    var given := if |text| > 0 && text[|text| - 1] == '.' then text[..|text| - 1] else text;
    var length := |given|;
    if length == 0 || length > 253 {
      return false, [];
    }
    ghost var h := LowerAll(given);
    hide LowerAll, Trimmed;
    hostname := [];
    var index, size := 0, 0;
    assert Scanning(h, 0, 0) by { ScanStart(h); }
    while index < length
      invariant index <= length && Scanning(h, index, size) && size <= index
      invariant hostname == h[..index]
    {
      var c := LowerChar(given[index]);
      if c == '.' {
        ScanLabelEnd(h, index, size);
        if size == 0 || size > 63 || hostname[index - 1] == '-' {
          return false, [];
        }
        size := 0;
      } else {
        ScanCharacter(h, index, size);
        if !LabelChar(c) || (size == 0 && c == '-') {
          return false, [];
        }
        size := size + 1;
      }
      hostname := hostname + [c];
      index := index + 1;
    }
    assert hostname == h;
    ScanLabelEnd(h, index, size);
    ok := !(size == 0 || size > 63 || hostname[index - 1] == '-');
  }

  lemma ScanStart(h: string)
    ensures Scanning(h, 0, 0)
  {}

  /** Reads the question of a packet. */
  method ReadQuestion(packet: seq<Byte>) returns (q: Option<Question>)
    ensures q == ParseQuestion(packet)
  {
    hide LowerText, Joined;
    var cursor, name := 12, "";
    while cursor < |packet| && packet[cursor] != 0
      invariant ParseName(packet, 12, "") == ParseName(packet, cursor, name)
      decreases |packet| - cursor
    {
      var n := packet[cursor];
      if n >= 64 || cursor + 1 + n > |packet| || |name| + n + 2 > NAME_SIZE {
        return None;
      }
      name := Joined(name, LowerText(packet, cursor + 1, n));
      cursor := cursor + 1 + n;
    }
    if cursor < |packet| {
      cursor := cursor + 1;
    }
    if cursor + 4 > |packet| || |name| == 0 {
      return None;
    }
    q := Some(Question(name, Word(packet[cursor], packet[cursor + 1]), Word(packet[cursor + 2], packet[cursor + 3]), cursor + 4));
  }

  /** Copies bytes into the response. */
  method Write(response: array<Byte>, at: nat, bytes: seq<Byte>)
    requires at + |bytes| <= response.Length
    modifies response
    ensures response[..at + |bytes|] == old(response[..at]) + bytes
  {
    ghost var before := response[..at];
    for k := 0 to |bytes|
      invariant response[..at] == before && response[at..at + k] == bytes[..k]
    {
      response[at + k] := bytes[k];
    }
    assert response[..at + |bytes|] == response[..at] + response[at..at + |bytes|];
    assert bytes[..|bytes|] == bytes;
  }

  /** Builds the response in its buffer and returns its length. */
  method BuildResponse(records: seq<Record>, index: seq<nat>, query: seq<Byte>, response: array<Byte>) returns (length: nat)
    requires Addresses(records) && IndexOf(records, index)
    modifies response
    ensures length <= response.Length && response[..length] == Respond(records, query, response.Length)
  {
    ResponseFits(records, query, response.Length);
    hide Linear, CString, ParseName, Header, Answer, AddressOf, IndexOf;
    if |query| < 12 || response.Length < |query| + 28 {
      return 0;
    }
    if Word(query[4], query[5]) < 1 {
      Write(response, 0, Header(query, 0, 0, 0));
      return 12;
    }
    var q := ReadQuestion(query);
    if q.None? {
      Write(response, 0, Header(query, 0, 0, 1));
      return 12;
    }
    var row := Lookup(records, index, CString(q.value.name));
    var answers := row >= 0 && Wanted(q.value);
    var tail: seq<Byte> := if answers then Answer(AddressOf(records[row])) else [];
    length := WriteParts(response, Header(query, 1, if answers then 1 else 0, if row < 0 then 3 else 0),
                         query[12..q.value.end], tail);
  }

  method WriteParts(response: array<Byte>, header: seq<Byte>, echo: seq<Byte>, tail: seq<Byte>) returns (length: nat)
    requires |header| + |echo| + |tail| <= response.Length
    modifies response
    ensures length == |header| + |echo| + |tail| && response[..length] == header + echo + tail
  {
    Write(response, 0, header);
    assert response[..|header|] == header;
    Write(response, |header|, echo);
    Write(response, |header| + |echo|, tail);
    length := |header| + |echo| + |tail|;
  }
}
