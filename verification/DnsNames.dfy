/** Names as labels. The responder joins a question's labels with dots and
    compares C text; this says when that finds the record with those labels. */
module DnsNames {
  import opened Common
  import opened DnsTable
  import opened Dns

  // -------------------------------------------------------- the labels of a packet

  predicate HasLabelAt(packet: seq<Byte>, cursor: nat) {
    cursor < |packet| && 0 < packet[cursor] < 64 && cursor + 1 + packet[cursor] <= |packet|
  }

  /** The labels from `cursor` on, in lower case. */
  function LabelsAt(packet: seq<Byte>, cursor: nat): seq<string>
    decreases |packet| - cursor
  {
    if !HasLabelAt(packet, cursor) then []
    else [LowerText(packet, cursor + 1, packet[cursor])] + LabelsAt(packet, cursor + 1 + packet[cursor])
  }

  predicate CleanByte(b: Byte) { b != 0 && b != 46 }

  /** No label from `cursor` on holds a zero byte or a dot. */
  predicate CleanFrom(packet: seq<Byte>, cursor: nat)
    decreases |packet| - cursor
  {
    HasLabelAt(packet, cursor) ==>
      && (forall k :: cursor + 1 <= k < cursor + 1 + packet[cursor] ==> CleanByte(packet[k]))
      && CleanFrom(packet, cursor + 1 + packet[cursor])
  }

  predicate CleanText(l: string) { 0 as char !in l && '.' !in l }

  predicate CleanLabels(labels: seq<string>) { forall i :: 0 <= i < |labels| ==> CleanText(labels[i]) }

  lemma CleanChar(b: Byte)
    ensures CleanByte(b) <==> Lower(b) != 0 as char && Lower(b) != '.'
  {}

  lemma CleanLabel(packet: seq<Byte>, at: nat, n: nat)
    requires at + n <= |packet|
    ensures CleanText(LowerText(packet, at, n)) <==> forall k :: at <= k < at + n ==> CleanByte(packet[k])
  {
    var t := LowerText(packet, at, n);
    hide Lower, LowerText, CleanByte;
    forall k | at <= k < at + n ensures CleanByte(packet[k]) <==> t[k - at] != 0 as char && t[k - at] != '.' {
      CleanChar(packet[k]);
      assert t[k - at] == Lower(packet[at + (k - at)]);
    }
  }

  /** The bytes are clean exactly if the labels are. */
  lemma {:induction false} CleanBytes(packet: seq<Byte>, cursor: nat)
    ensures CleanFrom(packet, cursor) <==> CleanLabels(LabelsAt(packet, cursor))
    decreases |packet| - cursor
  {
    if HasLabelAt(packet, cursor) {
      var n := packet[cursor];
      CleanLabel(packet, cursor + 1, n);
      CleanBytes(packet, cursor + 1 + n);
      hide LowerText, CleanText, CleanByte;
      var l, rest := LowerText(packet, cursor + 1, n), LabelsAt(packet, cursor + 1 + n);
      CleanCons(l, rest);
    }
  }

  lemma CleanCons(l: string, rest: seq<string>)
    ensures CleanLabels([l] + rest) <==> CleanText(l) && CleanLabels(rest)
  {
    hide CleanText;
    var all := [l] + rest;
    assert all[0] == l && forall i :: 0 <= i < |rest| ==> all[i + 1] == rest[i];
    if CleanText(l) && CleanLabels(rest) {
      forall i | 0 <= i < |all| ensures CleanText(all[i]) {
        assert i > 0 ==> all[i] == rest[i - 1];
      }
    }
  }

  // ------------------------------------------------------------- labels and text

  /** Labels with dots between them. */
  function Dotted(labels: seq<string>): string {
    if labels == [] then "" else if |labels| == 1 then labels[0] else labels[0] + "." + Dotted(labels[1..])
  }

  /** A text cut at its dots. */
  function Split(h: string): seq<string>
    decreases |h|
  {
    var e := LabelEnd(h, 0);
    if e == |h| then [h] else [h[..e]] + Split(h[e + 1..])
  }

  lemma {:induction false} DottedSplit(h: string)
    ensures Split(h) != [] && Dotted(Split(h)) == h
    decreases |h|
  {
    var e := LabelEnd(h, 0);
    if e < |h| {
      DottedSplit(h[e + 1..]);
      var rest := Split(h[e + 1..]);
      assert ([h[..e]] + rest)[1..] == rest;
      assert h == h[..e] + "." + h[e + 1..];
    }
  }

  /** The first label of a text, and the rest behind its dot. */
  lemma SplitFirst(l: string, rest: string)
    requires '.' !in l
    ensures Split(l + "." + rest) == [l] + Split(rest) && Split(l) == [l]
  {
    var h := l + "." + rest;
    assert h[|l|] == '.' && forall k :: 0 <= k < |l| ==> h[k] == l[k];
    LabelEndAt(h, 0, |l|);
    LabelEndAt(l, 0, |l|);
    hide LabelEnd;
    assert h[..|l|] == l && h[|l| + 1..] == rest;
  }

  lemma {:induction false} SplitDotted(labels: seq<string>)
    requires labels != [] && CleanLabels(labels)
    ensures Split(Dotted(labels)) == labels
  {
    hide Split;
    var l, rest := labels[0], labels[1..];
    assert CleanText(l) && labels == [l] + rest;
    SplitFirst(l, Dotted(rest));
    if rest != [] {
      CleanCons(l, rest);
      SplitDotted(rest);
    }
  }

  lemma {:induction false} SplitClean(h: string)
    requires 0 as char !in h
    ensures CleanLabels(Split(h))
    decreases |h|
  {
    var e := LabelEnd(h, 0);
    hide LabelEnd;
    assert CleanText(h[..e]);
    if e < |h| {
      SplitClean(h[e + 1..]);
      CleanCons(h[..e], Split(h[e + 1..]));
    } else {
      assert h[..e] == h;
    }
  }

  /** A hostname has no zero byte. */
  lemma {:induction false} HostnameChars(h: string, i: nat)
    requires i <= |h| && LabelsFrom(h, i)
    ensures forall k :: i <= k < |h| ==> LabelChar(h[k]) || h[k] == '.'
    decreases |h| - i
  {
    var e := LabelEnd(h, i);
    if e < |h| {
      HostnameChars(h, e + 1);
    }
  }

  // ------------------------------------------------------------------ what is read

  /** The text that reading joins from the labels. */
  lemma {:induction false} ParsedText(packet: seq<Byte>, cursor: nat, name: string)
    requires ParseName(packet, cursor, name).Some?
    ensures var labels, text := LabelsAt(packet, cursor), ParseName(packet, cursor, name).value.text;
      text == if labels == [] then name else Joined(name, Dotted(labels))
    decreases |packet| - cursor
  {
    hide LowerText, ParseName;
    if cursor < |packet| {
      ParseLabel(packet, cursor, name);
      var n := packet[cursor];
      if n != 0 {
        var l := LowerText(packet, cursor + 1, n);
        ParsedText(packet, cursor + 1 + n, Joined(name, l));
        JoinMore(name, l, LabelsAt(packet, cursor + 1 + n));
      }
    } else {
      ParseEnd(packet, cursor, name);
    }
  }

  lemma ParseEnd(packet: seq<Byte>, cursor: nat, name: string)
    requires cursor >= |packet|
    ensures ParseName(packet, cursor, name) == Some(Name(name, cursor))
  {}

  lemma JoinMore(name: string, l: string, rest: seq<string>)
    requires l != ""
    ensures Joined(name, Dotted([l] + rest)) ==
      if rest == [] then Joined(name, l) else Joined(Joined(name, l), Dotted(rest))
  {
    assert ([l] + rest)[1..] == rest;
    if rest != [] && name != [] {
      assert name + "." + (l + "." + Dotted(rest)) == name + "." + l + "." + Dotted(rest);
    }
  }

  lemma {:induction false} CStringWhole(name: string)
    ensures CString(name) == name <==> 0 as char !in name
  {
    if name != [] {
      CStringWhole(name[1..]);
      assert name == [name[0]] + name[1..];
    }
  }

  lemma {:induction false} DottedNoZero(labels: seq<string>)
    requires CleanLabels(labels)
    ensures 0 as char !in Dotted(labels)
  {
    if labels != [] {
      assert CleanText(labels[0]);
      forall i | 0 <= i < |labels[1..]| ensures CleanText(labels[1..][i]) {
        assert labels[1..][i] == labels[i + 1];
      }
      DottedNoZero(labels[1..]);
    }
  }

  // ------------------------------------------------------------------ what is found

  predicate Hostnames(records: seq<Record>) { forall i :: 0 <= i < |records| ==> Hostname(records[i].hostname) }

  /** First record from `at` that has these labels, -1 if none. */
  function ByLabels(records: seq<Record>, at: nat, labels: seq<string>): (i: int)
    requires at <= |records|
    ensures -1 <= i < |records|
    ensures i >= 0 ==> Split(records[i].hostname) == labels && i >= at
    ensures i == -1 ==> forall k :: at <= k < |records| ==> Split(records[k].hostname) != labels
    decreases |records| - at
  {
    if at == |records| then -1 else if Split(records[at].hostname) == labels then at else ByLabels(records, at + 1, labels)
  }

  lemma ByLabelsStep(records: seq<Record>, at: nat, labels: seq<string>)
    requires at <= |records|
    ensures ByLabels(records, at, labels) ==
      if at == |records| then -1 else if Split(records[at].hostname) == labels then at else ByLabels(records, at + 1, labels)
  {
    hide Split;
  }

  lemma {:induction false} SameRow(records: seq<Record>, at: nat, name: string, labels: seq<string>)
    requires at <= |records|
    requires forall k :: 0 <= k < |records| ==> (records[k].hostname == name <==> Split(records[k].hostname) == labels)
    ensures Linear(records, at, name) == ByLabels(records, at, labels)
    decreases |records| - at
  {
    hide Split, ByLabels;
    ByLabelsStep(records, at, labels);
    if at < |records| {
      SameRow(records, at + 1, name, labels);
    }
  }

  /** For a table of hostnames and any readable question: a record found has the
      question's labels if and only if no label holds a zero byte or a dot; and
      the row found is the first row with those labels if and only if that, or
      nothing was found. */
  lemma RowHasTheLabels(records: seq<Record>, query: seq<Byte>, size: nat)
    requires Hostnames(records) && Readable(query, size)
    ensures var row, labels := Linear(records, 0, CString(ParseQuestion(query).value.name)), LabelsAt(query, 12);
      && (row >= 0 ==> (Split(records[row].hostname) == labels <==> CleanFrom(query, 12)))
      && (row == ByLabels(records, 0, labels) <==> row < 0 || CleanFrom(query, 12))
  {
    var name, labels := ParseQuestion(query).value.name, LabelsAt(query, 12);
    ParsedText(query, 12, "");
    CleanBytes(query, 12);
    hide ParseName, LabelsAt, CleanFrom, Split, Linear;
    assert labels != [] && name == Dotted(labels);
    forall k | 0 <= k < |records| ensures CleanLabels(Split(records[k].hostname)) && Dotted(Split(records[k].hostname)) == records[k].hostname {
      HostnameChars(records[k].hostname, 0);
      SplitClean(records[k].hostname);
      DottedSplit(records[k].hostname);
    }
    if CleanLabels(labels) {
      SplitDotted(labels);
      DottedNoZero(labels);
      CStringWhole(name);
      SameRow(records, 0, name, labels);
    }
  }

  // ------------------------------------------------------------------- two packets

  const HEAD: seq<Byte> := [0, 0, 1, 0, 0, 1, 0, 0, 0, 0, 0, 0]
  const ASKS_A: seq<Byte> := [0, 1, 0, 1]

  /** A question with one label of three bytes. */
  lemma OneLabel(query: seq<Byte>, b: Byte)
    requires query == HEAD + [3, 97, b, 98, 0] + ASKS_A && Lower(b) == b as char
    ensures ParseQuestion(query) == Some(Question(['a', b as char, 'b'], 1, 1, 21)) && LabelsAt(query, 12) == [['a', b as char, 'b']]
    ensures |query| == 21 && Readable(query, 49)
  {
    assert query[12] == 3 && query[13] == 97 && query[14] == b && query[15] == 98 && query[16] == 0;
    assert query[17] == 0 && query[18] == 1 && query[19] == 0 && query[20] == 1 && query[4] == 0 && query[5] == 1;
    var t := LowerText(query, 13, 3);
    assert t == ['a', b as char, 'b'];
    ParseLabel(query, 12, "");
    ParseLabel(query, 16, t);
    hide ParseName, LowerText;
    assert LabelsAt(query, 16) == [];
    assert LabelsAt(query, 12) == [t];
  }

  lemma NotOneLabel(h: string)
    requires '.' in h && 0 as char !in h
    ensures Split(h) != [h]
  {
    hide Split;
    SplitClean(h);
    assert [h][0] == h;
  }

  lemma OneRecord(records: seq<Record>, labels: seq<string>)
    requires |records| == 1 && Split(records[0].hostname) != labels
    ensures ByLabels(records, 0, labels) == -1
  {
    hide Split;
  }

  lemma Found(records: seq<Record>, query: seq<Byte>, b: Byte)
    requires |records| == 1 && records[0].address == [127, 0, 0, 2] && records[0].hostname == CString(['a', b as char, 'b'])
    requires query == HEAD + [3, 97, b, 98, 0] + ASKS_A && Lower(b) == b as char
    ensures Addresses(records) && |Respond(records, query, 49)| >= 12 && Respond(records, query, 49)[7] == 1
  {
    OneLabel(query, b);
    hide ParseQuestion, Respond, CString, Readable;
    AnswersExactly(records, query, 49);
  }

  /** A label with a dot inside is answered for the record of two labels. */
  lemma DottedLabelFindsAnother(records: seq<Record>, query: seq<Byte>)
    requires records == [Record("a.b", [127, 0, 0, 2])] && query == HEAD + [3, 97, 46, 98, 0] + ASKS_A
    ensures Addresses(records) && |Respond(records, query, 49)| >= 12 && Respond(records, query, 49)[7] == 1
    ensures LabelsAt(query, 12) == ["a.b"] && ByLabels(records, 0, LabelsAt(query, 12)) == -1
  {
    hide Respond, ParseQuestion, LabelsAt, Split, CString;
    OneLabel(query, 46);
    var h := "a.b";
    assert ['a', 46 as char, 'b'] == h && h[1] == '.';
    CStringWhole(h);
    Found(records, query, 46);
    NotOneLabel(h);
    OneRecord(records, [h]);
  }

  /** A label with a zero byte is answered for the record of the text before it. */
  lemma ZeroByteFindsAnother(records: seq<Record>, query: seq<Byte>)
    requires records == [Record("a", [127, 0, 0, 2])] && query == HEAD + [3, 97, 0, 98, 0] + ASKS_A
    ensures Addresses(records) && |Respond(records, query, 49)| >= 12 && Respond(records, query, 49)[7] == 1
    ensures LabelsAt(query, 12) == [['a', 0 as char, 'b']] && ByLabels(records, 0, LabelsAt(query, 12)) == -1
  {
    hide Respond, ParseQuestion, LabelsAt, Split;
    OneLabel(query, 0);
    var name := ['a', 0 as char, 'b'];
    assert name[1..] == [0 as char, 'b'] && CString(name[1..]) == [] && CString(name) == "a";
    hide CString;
    Found(records, query, 0);
    DottedSplit("a");
    assert Dotted([name]) == name;
    OneRecord(records, [name]);
  }
}
