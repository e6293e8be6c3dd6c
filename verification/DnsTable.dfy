/** The browser DNS table: a sorted index that must find what a first-match scan
    of the records finds. */
module DnsTable {
  import opened Text
  import opened Sorting

  datatype Record = Record(hostname: string, address: seq<int>)

  /** First record from `at` with this name, -1 if none. */
  function Linear(records: seq<Record>, at: nat, name: string): (i: int)
    requires at <= |records|
    ensures -1 <= i < |records|
    ensures i >= 0 ==> i >= at && records[i].hostname == name && forall k :: at <= k < i ==> records[k].hostname != name
    ensures i == -1 <==> forall k :: at <= k < |records| ==> records[k].hostname != name
    decreases |records| - at
  {
    if at == |records| then -1 else if records[at].hostname == name then at else Linear(records, at + 1, name)
  }

  /** By name, and among equal names by position. */
  function IndexOrder(records: seq<Record>): (nat, nat) -> bool {
    (i: nat, j: nat) => i < |records| && j < |records| &&
      var c := Compare(records[i].hostname, records[j].hostname); c < 0 || (c == 0 && i <= j)
  }

  lemma IndexOrderTotal(records: seq<Record>, dom: set<nat>)
    requires forall i :: i in dom ==> i < |records|
    ensures TotalOn(IndexOrder(records), dom)
  {
    var le := IndexOrder(records);
    forall i, j | i in dom && j in dom ensures le(i, j) || le(j, i) {
      CompareAntisymmetric(records[i].hostname, records[j].hostname);
    }
    forall i, j, k | i in dom && j in dom && k in dom && le(i, j) && le(j, k) ensures le(i, k) {
      CompareTransitive(records[i].hostname, records[j].hostname, records[k].hostname);
    }
  }

  /** Every record once, in index order. */
  ghost predicate IndexOf(records: seq<Record>, index: seq<nat>) {
    && |index| == |records| && (forall k :: 0 <= k < |index| ==> index[k] < |records|)
    && Sorted(index, IndexOrder(records))
    && (forall p: nat :: p < |records| ==> p in index)
  }

  /** `first` splits the index: names before it are less, from it on not. */
  ghost predicate LowerBound(records: seq<Record>, index: seq<nat>, name: string, first: nat) {
    && first <= |index| && (forall k :: 0 <= k < |index| ==> index[k] < |records|)
    && (forall k :: 0 <= k < first ==> Compare(records[index[k]].hostname, name) < 0)
    && (forall k :: first <= k < |index| ==> Compare(records[index[k]].hostname, name) >= 0)
  }

  /** At the lower bound stands the first record with the name, if there is one. */
  lemma LowerBoundIsFirst(records: seq<Record>, index: seq<nat>, name: string, first: nat)
    requires IndexOf(records, index) && LowerBound(records, index, name, first)
    ensures Linear(records, 0, name) ==
      if first < |index| && records[index[first]].hostname == name then index[first] else -1
  {
    var i := Linear(records, 0, name);
    if i >= 0 {
      var p: nat := i;
      assert p in index;
      var k :| 0 <= k < |index| && index[k] == p;
      assert Compare(records[i].hostname, name) == 0;
      assert first <= k;
      FirstIsLeast(records, index, name, first, k);
    } else if first < |index| {
      assert records[index[first]].hostname != name;
    }
    hide Compare, Linear;
  }

  lemma FirstIsLeast(records: seq<Record>, index: seq<nat>, name: string, first: nat, k: nat)
    requires IndexOf(records, index) && LowerBound(records, index, name, first)
    requires first <= k < |index| && records[index[k]].hostname == name
    ensures records[index[first]].hostname == name && index[first] <= index[k]
  {
    if first < k {
      assert IndexOrder(records)(index[first], index[k]);
      CompareAntisymmetric(records[index[first]].hostname, name);
    }
  }

  /** `pm_dns_lookup` through the index, proved equal to the scan. */
  method Lookup(records: seq<Record>, index: seq<nat>, name: string) returns (row: int)
    requires IndexOf(records, index)
    ensures row == Linear(records, 0, name)
  {
    var first, last := 0, |index|;
    while first < last
      invariant 0 <= first <= last <= |index|
      invariant forall k :: 0 <= k < first ==> Compare(records[index[k]].hostname, name) < 0
      invariant forall k :: last <= k < |index| ==> Compare(records[index[k]].hostname, name) >= 0
    {
      hide Compare, Linear;
      var middle := first + (last - first) / 2;
      if Compare(records[index[middle]].hostname, name) < 0 {
        SmallerBefore(records, index, name, middle);
        first := middle + 1;
      } else {
        GreaterAfter(records, index, name, middle);
        last := middle;
      }
    }
    LowerBoundIsFirst(records, index, name, first);
    row := if first < |index| && records[index[first]].hostname == name then index[first] else -1;
  }

  lemma SmallerBefore(records: seq<Record>, index: seq<nat>, name: string, middle: nat)
    requires IndexOf(records, index) && middle < |index| && Compare(records[index[middle]].hostname, name) < 0
    ensures forall k :: 0 <= k <= middle ==> Compare(records[index[k]].hostname, name) < 0
  {
    forall k | 0 <= k <= middle ensures Compare(records[index[k]].hostname, name) < 0 {
      if k < middle {
        assert IndexOrder(records)(index[k], index[middle]);
        CompareTransitive(records[index[k]].hostname, records[index[middle]].hostname, name);
      }
    }
  }

  lemma GreaterAfter(records: seq<Record>, index: seq<nat>, name: string, middle: nat)
    requires IndexOf(records, index) && middle < |index| && Compare(records[index[middle]].hostname, name) >= 0
    ensures forall k :: middle <= k < |index| ==> Compare(records[index[k]].hostname, name) >= 0
  {
    forall k | middle <= k < |index| ensures Compare(records[index[k]].hostname, name) >= 0 {
      if middle < k {
        assert IndexOrder(records)(index[middle], index[k]);
        CompareAntisymmetric(name, records[index[middle]].hostname);
        CompareTransitive(name, records[index[middle]].hostname, records[index[k]].hostname);
        CompareAntisymmetric(name, records[index[k]].hostname);
      }
    }
  }

  /** `pm_dns_build_index`. */
  method BuildIndex(records: seq<Record>) returns (index: seq<nat>)
    ensures IndexOf(records, index)
  {
    var rows := new nat[|records|](i => i);
    assert rows[..|records|] == seq(|records|, i => i);
    ghost var listed := rows[..|records|];
    ghost var dom := set i | i in listed;
    IndexOrderTotal(records, dom);
    QSort(rows, |records|, IndexOrder(records), dom);
    index := rows[..|records|];
    SameElements(index, listed);
    SameElements(listed, index);
    forall p: nat | p < |records| ensures p in index {
      assert listed[p] == p;
    }
  }
}
