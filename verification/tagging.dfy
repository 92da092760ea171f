/** First-match keyword tagging, the shape shared by `_identificar_tipo_valor`
    and `_identificar_tipo_data`: rows of keywords are tried in order and the
    first row with a keyword occurring in the text decides the tag. */
module Tagging {
  import opened Text

  /** Some keyword of `words` occurs in `s` (Python's `any(w in s for w in words)`). */
  predicate AnyIn(s: string, words: seq<string>) {
    |words| > 0 && (Contains(s, words[0]) || AnyIn(s, words[1..]))
  }

  lemma {:induction false} AnyInIff(s: string, words: seq<string>)
    ensures AnyIn(s, words) <==> exists k | 0 <= k < |words| :: Contains(s, words[k])
  {
    if |words| > 0 {
      AnyInIff(s, words[1..]);
      assert forall k | 1 <= k < |words| :: words[k] == words[1..][k - 1];
      if AnyIn(s, words[1..]) && !Contains(s, words[0]) {
        var k :| 0 <= k < |words[1..]| && Contains(s, words[1..][k]);
        assert Contains(s, words[k + 1]);
      }
    }
  }

  /** The index of the first row with a keyword in `s`, or the number of rows
      when none has. */
  function FirstFiring<K>(table: seq<(K, seq<string>)>, s: string): (i: nat)
    ensures i <= |table|
    ensures i < |table| ==> AnyIn(s, table[i].1)
    ensures forall j | 0 <= j < i :: !AnyIn(s, table[j].1)
  {
    if |table| == 0 then 0
    else if AnyIn(s, table[0].1) then 0
    else 1 + FirstFiring(table[1..], s)
  }

  /** The tag of the first firing row, or `default` when no row fires. */
  function FirstTag<K>(table: seq<(K, seq<string>)>, s: string, default: K): (r: K)
    ensures (forall j | 0 <= j < |table| :: !AnyIn(s, table[j].1)) ==> r == default
    ensures (exists j | 0 <= j < |table| :: AnyIn(s, table[j].1)) ==>
              exists j | 0 <= j < |table| :: AnyIn(s, table[j].1) && r == table[j].0 &&
                                           forall i | 0 <= i < j :: !AnyIn(s, table[i].1)
  {
    var i := FirstFiring(table, s);
    if i < |table| then table[i].0 else default
  }

  /** Reading the table one row at a time: the first row decides when it
      fires, and the rest of the table decides otherwise. */
  lemma FirstTagStep<K>(table: seq<(K, seq<string>)>, s: string, default: K)
    ensures FirstTag(table, s, default) ==
      if |table| == 0 then default
      else if AnyIn(s, table[0].1) then table[0].0
      else FirstTag(table[1..], s, default)
  {
  }

  lemma AnyInOne(s: string, a: string)
    ensures AnyIn(s, [a]) <==> Contains(s, a)
  {
    assert [a][1..] == [];
  }

  lemma AnyInTwo(s: string, a: string, b: string)
    ensures AnyIn(s, [a, b]) <==> Contains(s, a) || Contains(s, b)
  {
    assert [a, b][1..] == [b];
    AnyInOne(s, b);
  }

  lemma AnyInThree(s: string, a: string, b: string, c: string)
    ensures AnyIn(s, [a, b, c]) <==> Contains(s, a) || Contains(s, b) || Contains(s, c)
  {
    assert [a, b, c][1..] == [b, c];
    AnyInTwo(s, b, c);
  }
}
