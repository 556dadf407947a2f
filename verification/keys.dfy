/** `add_enhanced_buno_key`: every row of a stream gets the key
    BUNO_FY_TASK, and when several rows of the stream share a key, each of
    them gets `_` and its 0-based position within that group appended. */
module Keys {
  import opened Options
  import opened Text
  import opened Records

  /** The text a missing cell renders as. */
  const Missing: string := "nan"

  function NumberText(v: Option<int>): string {
    match v
    case Some(n) => IntToString(n)
    case None => Missing
  }

  function TaskText(v: Option<string>): string {
    v.GetOr(Missing)
  }

  /** `BUNO + "_" + FY + "_" + TASK`. */
  function BaseKey(e: Event): string {
    NumberText(e.buno) + "_" + NumberText(e.fy) + "_" + TaskText(e.task)
  }

  /** How many rows share the key of row `i`, and how many of them come
      before it (`groupby(...).cumcount()`). */
  function GroupSize(keys: seq<string>, i: nat): nat
    requires i < |keys|
  {
    multiset(keys)[keys[i]]
  }

  function GroupRank(keys: seq<string>, i: nat): (n: nat)
    requires i < |keys|
    ensures n < GroupSize(keys, i)
  {
    assert keys == keys[..i] + keys[i..];
    assert keys[i..][0] == keys[i];
    multiset(keys[..i])[keys[i]]
  }

  /** The key of row `i` after the collision pass. */
  function Resolved(keys: seq<string>, i: nat): (r: string)
    requires i < |keys|
    ensures |keys[i]| <= |r| && r[..|keys[i]|] == keys[i]
    ensures GroupSize(keys, i) == 1 ==> r == keys[i]
    ensures GroupSize(keys, i) > 1 ==> r[|keys[i]|..] == "_" + NatToString(GroupRank(keys, i))
  {
    if GroupSize(keys, i) > 1 then keys[i] + "_" + NatToString(GroupRank(keys, i)) else keys[i]
  }

  /** The collision pass over the keys of one stream: the row count is kept,
      a key that occurs once is left alone, and every member of a group of
      equal keys is suffixed with its position in the group. */
  function DedupKeys(keys: seq<string>): (r: seq<string>)
    ensures |r| == |keys|
    ensures forall i :: 0 <= i < |keys| ==> |keys[i]| <= |r[i]| && r[i][..|keys[i]|] == keys[i]
    ensures forall i :: 0 <= i < |keys| && GroupSize(keys, i) == 1 ==> r[i] == keys[i]
    ensures forall i :: 0 <= i < |keys| && GroupSize(keys, i) > 1 ==>
              r[i][|keys[i]|..] == "_" + NatToString(GroupRank(keys, i))
  {
    seq(|keys|, i requires 0 <= i < |keys| => Resolved(keys, i))
  }

  /** An earlier member of a group has a smaller position in it. */
  lemma RankIncreases(keys: seq<string>, i: nat, j: nat)
    requires i < j < |keys| && keys[i] == keys[j]
    ensures GroupRank(keys, i) < GroupRank(keys, j)
  {
    assert keys[..j] == keys[..i] + keys[i..j];
    assert keys[i..j][0] == keys[i];
  }

  /** The same prefix with different numbers appended gives different keys. */
  lemma SuffixesDiffer(k: string, a: nat, b: nat)
    requires a != b
    ensures k + "_" + NatToString(a) != k + "_" + NatToString(b)
  {
    if k + "_" + NatToString(a) == k + "_" + NatToString(b) {
      assert (k + "_" + NatToString(a))[|k| + 1..] == NatToString(a);
      assert (k + "_" + NatToString(b))[|k| + 1..] == NatToString(b);
      NatToStringInjective(a, b);
    }
  }

  /** Rows that shared a key before the pass have pairwise distinct keys
      after it. */
  lemma DedupSeparatesGroup(keys: seq<string>, i: nat, j: nat)
    requires i < j < |keys| && keys[i] == keys[j]
    ensures DedupKeys(keys)[i] != DedupKeys(keys)[j]
  {
    assert multiset(keys)[keys[i]] > 1 by {
      assert keys == keys[..j] + keys[j..];
      assert keys[j..][0] == keys[j];
      assert keys[..j] == keys[..i] + keys[i..j];
      assert keys[i..j][0] == keys[i];
    }
    RankIncreases(keys, i, j);
    SuffixesDiffer(keys[i], GroupRank(keys, i), GroupRank(keys, j));
  }

  /** The base keys of a stream. */
  function BaseKeys(rows: seq<Event>): (r: seq<string>)
    ensures |r| == |rows|
    ensures forall i :: 0 <= i < |rows| ==> r[i] == BaseKey(rows[i])
  {
    seq(|rows|, i requires 0 <= i < |rows| => BaseKey(rows[i]))
  }

  /** `add_enhanced_buno_key` on one stream: only the key column changes. */
  function AssignKeys(rows: seq<Event>): (r: seq<Event>)
    ensures |r| == |rows|
    ensures forall i :: 0 <= i < |rows| ==>
              r[i].key.Some? && r[i] == rows[i].(key := r[i].key)
    ensures forall i :: 0 <= i < |rows| ==>
              var base := BaseKey(rows[i]);
              |base| <= |r[i].key.value| && r[i].key.value[..|base|] == base
    ensures forall i :: 0 <= i < |rows| && GroupSize(BaseKeys(rows), i) == 1 ==>
              r[i].key == Some(BaseKey(rows[i]))
    ensures forall i :: 0 <= i < |rows| && GroupSize(BaseKeys(rows), i) > 1 ==>
              r[i].key.value[|BaseKey(rows[i])|..] == "_" + NatToString(GroupRank(BaseKeys(rows), i))
  {
    var keys := DedupKeys(BaseKeys(rows));
    seq(|rows|, i requires 0 <= i < |rows| => rows[i].(key := Some(keys[i])))
  }

  /** Within one stream, rows with the same BUNO, FY and TASK end up with
      distinct keys. */
  lemma AssignKeysSeparates(rows: seq<Event>, i: nat, j: nat)
    requires i < j < |rows| && BaseKey(rows[i]) == BaseKey(rows[j])
    ensures AssignKeys(rows)[i].key != AssignKeys(rows)[j].key
  {
    DedupSeparatesGroup(BaseKeys(rows), i, j);
  }

  /** The pass runs on each stream separately, so one key may still appear
      in two streams of the combined ledger; within a stream, a suffixed key
      can also meet a base key that already ends in the same suffix. */
  lemma KeysNotUniqueAcrossStreams()
    ensures var a := DedupKeys(["1_2024_PMI1"]);
      var b := DedupKeys(["1_2024_PMI1"]);
      (a + b)[0] == (a + b)[1]
    ensures var r := DedupKeys(["A", "A", "A_1"]);
      r[1] == r[2]
  {
    var keys := ["A", "A", "A_1"];
    assert keys[..1] == ["A"];
    assert "A" != "A_1" by { assert |"A"| != |"A_1"|; }
    assert multiset(keys)["A"] == 2;
    assert multiset(keys)["A_1"] == 1;
    assert multiset(["1_2024_PMI1"])["1_2024_PMI1"] == 1;
    assert NatToString(1) == "1";
  }
}
