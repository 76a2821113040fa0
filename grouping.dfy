/**
 * The two breakdowns of the report: results grouped by a key into a dictionary of
 * `{ as, vb, count }` accumulators, listed in order of first insertion. The grouping
 * is generic in its key; the per-type key is supplied by module Benchmark.
 */
module Grouping {
  import opened Metrics

  /** The keys that occur in `rs`. */
  function KeySet(rs: seq<MessageResult>, keyOf: MessageResult -> string): set<string>
  {
    if rs == [] then {} else KeySet(rs[..|rs| - 1], keyOf) + {keyOf(rs[|rs| - 1])}
  }

  /** Every result's key is in the key set, and only those. */
  lemma {:induction false} KeySetMembers(rs: seq<MessageResult>, keyOf: MessageResult -> string)
    ensures forall j :: 0 <= j < |rs| ==> keyOf(rs[j]) in KeySet(rs, keyOf)
    ensures forall k :: k in KeySet(rs, keyOf) ==> exists j :: 0 <= j < |rs| && keyOf(rs[j]) == k
  {
    if rs != [] {
      var p := rs[..|rs| - 1];
      KeySetMembers(p, keyOf);
      assert forall j :: 0 <= j < |p| ==> p[j] == rs[j];
    }
  }

  lemma KeySetSnoc(rs: seq<MessageResult>, r: MessageResult, keyOf: MessageResult -> string)
    ensures KeySet(rs + [r], keyOf) == KeySet(rs, keyOf) + {keyOf(r)}
  {
    assert (rs + [r])[..|rs|] == rs;
  }

  /** The key set is exactly the set of keys of the results. */
  lemma {:induction false} KeySetIsImage(rs: seq<MessageResult>, keyOf: MessageResult -> string)
    ensures KeySet(rs, keyOf) == set r | r in rs :: keyOf(r)
  {
    if rs != [] {
      var p := rs[..|rs| - 1];
      assert rs == p + [rs[|rs| - 1]];
      KeySetIsImage(p, keyOf);
      assert (set r | r in rs :: keyOf(r)) == (set r | r in p :: keyOf(r)) + {keyOf(rs[|rs| - 1])};
    }
  }

  predicate Distinct(ks: seq<string>)
  {
    forall i, j :: 0 <= i < j < |ks| ==> ks[i] != ks[j]
  }

  /** The position of the first result whose key is `k`. */
  function FirstIndex(rs: seq<MessageResult>, keyOf: MessageResult -> string, k: string): (i: nat)
    requires k in KeySet(rs, keyOf)
    ensures i < |rs| && keyOf(rs[i]) == k
    ensures forall j :: 0 <= j < i ==> keyOf(rs[j]) != k
  {
    var p := rs[..|rs| - 1];
    assert forall j :: 0 <= j < |p| ==> p[j] == rs[j];
    if k in KeySet(p, keyOf) then FirstIndex(p, keyOf, k)
    else
      KeySetMembers(p, keyOf);
      |rs| - 1
  }

  /** The distinct keys of `rs`, each listed once, in order of first occurrence. */
  function FirstKeys(rs: seq<MessageResult>, keyOf: MessageResult -> string): (ks: seq<string>)
    ensures forall k :: k in ks <==> k in KeySet(rs, keyOf)
    ensures Distinct(ks)
  {
    if rs == [] then []
    else
      var ks := FirstKeys(rs[..|rs| - 1], keyOf);
      var k := keyOf(rs[|rs| - 1]);
      if k in ks then ks else ks + [k]
  }

  /** A key listed before another occurs first before the other occurs at all. */
  lemma {:induction false} FirstKeysInOrder(rs: seq<MessageResult>, keyOf: MessageResult -> string, a: nat, b: nat)
    requires a < b < |FirstKeys(rs, keyOf)|
    ensures FirstIndex(rs, keyOf, FirstKeys(rs, keyOf)[a]) < FirstIndex(rs, keyOf, FirstKeys(rs, keyOf)[b])
  {
    var p := rs[..|rs| - 1];
    var ks := FirstKeys(p, keyOf);
    var fk := FirstKeys(rs, keyOf);
    assert fk[a] in KeySet(p, keyOf);
    if b < |ks| {
      assert fk[b] in KeySet(p, keyOf);
      FirstKeysInOrder(p, keyOf, a, b);
    }
  }

  /** The results whose key is `k`, in their original order. */
  function Filter(rs: seq<MessageResult>, keyOf: MessageResult -> string, k: string): seq<MessageResult>
  {
    if rs == [] then []
    else
      var r := rs[|rs| - 1];
      Filter(rs[..|rs| - 1], keyOf, k) + if keyOf(r) == k then [r] else []
  }

  /** `Filter` keeps exactly the results whose key is `k`. */
  lemma {:induction false} FilterMembers(rs: seq<MessageResult>, keyOf: MessageResult -> string, k: string)
    ensures |Filter(rs, keyOf, k)| <= |rs|
    ensures forall r :: r in Filter(rs, keyOf, k) <==> r in rs && keyOf(r) == k
  {
    if rs != [] {
      var p := rs[..|rs| - 1];
      assert rs == p + [rs[|rs| - 1]];
      FilterMembers(p, keyOf, k);
    }
  }

  /** `Filter` keeps each result whose key is `k` as often as it occurs, and no other. */
  lemma {:induction false} FilterCounts(rs: seq<MessageResult>, keyOf: MessageResult -> string, k: string)
    ensures forall r :: multiset(Filter(rs, keyOf, k))[r] == if keyOf(r) == k then multiset(rs)[r] else 0
  {
    if rs != [] {
      var p := rs[..|rs| - 1];
      assert rs == p + [rs[|rs| - 1]];
      FilterCounts(p, keyOf, k);
    }
  }

  lemma FilterSnoc(rs: seq<MessageResult>, r: MessageResult, keyOf: MessageResult -> string, k: string)
    ensures Filter(rs + [r], keyOf, k) == Filter(rs, keyOf, k) + if keyOf(r) == k then [r] else []
  {
    assert (rs + [r])[..|rs|] == rs;
  }

  /** The entry of `k`, or an empty accumulator when there is none. */
  function Lookup(groups: map<string, Group>, k: string): Group
  {
    if k in groups then groups[k] else Zero()
  }

  /**
   * The dictionary the grouping loop builds: for each result in turn, the entry of
   * its key (created empty when absent) receives its counts.
   */
  function GroupMap(rs: seq<MessageResult>, keyOf: MessageResult -> string): map<string, Group>
  {
    if rs == [] then map[]
    else
      var m := GroupMap(rs[..|rs| - 1], keyOf);
      var r := rs[|rs| - 1];
      m[keyOf(r) := Add(Lookup(m, keyOf(r)), Single(r))]
  }

  /** One step of the grouping loop. */
  lemma GroupMapSnoc(rs: seq<MessageResult>, r: MessageResult, keyOf: MessageResult -> string)
    ensures GroupMap(rs + [r], keyOf)
         == GroupMap(rs, keyOf)[keyOf(r) := Add(Lookup(GroupMap(rs, keyOf), keyOf(r)), Single(r))]
  {
    assert (rs + [r])[..|rs|] == rs;
  }

  lemma LookupSnoc(rs: seq<MessageResult>, r: MessageResult, keyOf: MessageResult -> string, k: string)
    ensures Lookup(GroupMap(rs + [r], keyOf), k)
         == Add(Lookup(GroupMap(rs, keyOf), k), if keyOf(r) == k then Single(r) else Zero())
  {
    GroupMapSnoc(rs, r, keyOf);
  }

  /** The dictionary has an entry for exactly the keys that occur. */
  lemma {:induction false} GroupMapKeys(rs: seq<MessageResult>, keyOf: MessageResult -> string)
    ensures GroupMap(rs, keyOf).Keys == KeySet(rs, keyOf)
  {
    if rs != [] {
      var p := rs[..|rs| - 1];
      assert rs == p + [rs[|rs| - 1]];
      GroupMapKeys(p, keyOf);
      GroupMapSnoc(p, rs[|rs| - 1], keyOf);
      KeySetSnoc(p, rs[|rs| - 1], keyOf);
    }
  }

  lemma TotalFilterSnoc(rs: seq<MessageResult>, r: MessageResult, keyOf: MessageResult -> string, k: string)
    ensures Total(Filter(rs + [r], keyOf, k))
         == Add(Total(Filter(rs, keyOf, k)), if keyOf(r) == k then Single(r) else Zero())
  {
    FilterSnoc(rs, r, keyOf, k);
    TotalSnoc(Filter(rs, keyOf, k), r);
    assert Filter(rs, keyOf, k) + [] == Filter(rs, keyOf, k);
  }

  /** Every key, present or not, looks up the totals of exactly the results carrying it. */
  lemma {:induction false} LookupGroupMap(rs: seq<MessageResult>, keyOf: MessageResult -> string, k: string)
    ensures Lookup(GroupMap(rs, keyOf), k) == Total(Filter(rs, keyOf, k))
  {
    if rs != [] {
      var p := rs[..|rs| - 1];
      var r := rs[|rs| - 1];
      assert rs == p + [r];
      LookupGroupMap(p, keyOf, k);
      LookupSnoc(p, r, keyOf, k);
      TotalFilterSnoc(p, r, keyOf, k);
    }
  }

  /**
   * Each group's `as`, `vb` and `count` are the sums over the results whose key is
   * the group's key.
   */
  lemma GroupMapIsFilterTotals(rs: seq<MessageResult>, keyOf: MessageResult -> string)
    ensures GroupMap(rs, keyOf).Keys == KeySet(rs, keyOf)
    ensures forall k :: k in GroupMap(rs, keyOf) ==> GroupMap(rs, keyOf)[k] == Total(Filter(rs, keyOf, k))
  {
    GroupMapKeys(rs, keyOf);
    forall k | k in GroupMap(rs, keyOf) ensures GroupMap(rs, keyOf)[k] == Total(Filter(rs, keyOf, k)) {
      LookupGroupMap(rs, keyOf, k);
    }
  }

  /** Componentwise sum of the entries of `groups` listed in `ks`. */
  function SumOver(groups: map<string, Group>, ks: seq<string>): Group
  {
    if ks == [] then Zero()
    else Add(SumOver(groups, ks[..|ks| - 1]), Lookup(groups, ks[|ks| - 1]))
  }

  /** Splitting a duplicate-free key list at its last key. */
  lemma SplitLast(ks: seq<string>, k: string)
    requires Distinct(ks) && ks != []
    ensures Distinct(ks[..|ks| - 1])
    ensures (k in ks) == (k in ks[..|ks| - 1] || k == ks[|ks| - 1])
    ensures !(k in ks[..|ks| - 1] && k == ks[|ks| - 1])
  {
    assert ks == ks[..|ks| - 1] + [ks[|ks| - 1]];
  }

  /** Adding `g` to the entry of `k` adds `g` to a sum that lists `k` once. */
  lemma {:induction false} SumOverBump(m: map<string, Group>, m0: map<string, Group>, ks: seq<string>, k: string, g: Group)
    requires Distinct(ks)
    requires forall j :: Lookup(m, j) == Add(Lookup(m0, j), if j == k then g else Zero())
    ensures SumOver(m, ks) == Add(SumOver(m0, ks), if k in ks then g else Zero())
  {
    if ks != [] {
      var q, last := ks[..|ks| - 1], ks[|ks| - 1];
      SplitLast(ks, k);
      SumOverBump(m, m0, q, k, g);
      BumpStep(SumOver(m, ks), SumOver(m, q), SumOver(m0, ks), SumOver(m0, q), Lookup(m, last), Lookup(m0, last), g, k in q, k == last);
    }
  }

  /** Arithmetic of one step of SumOverBump. */
  lemma BumpStep(s: Group, sq: Group, s0: Group, s0q: Group, e: Group, e0: Group, g: Group, inq: bool, isLast: bool)
    requires s == Add(sq, e) && s0 == Add(s0q, e0)
    requires sq == Add(s0q, if inq then g else Zero())
    requires e == Add(e0, if isLast then g else Zero())
    requires !(inq && isLast)
    ensures s == Add(s0, if inq || isLast then g else Zero())
  {}

  lemma SumOverSnoc(rs: seq<MessageResult>, r: MessageResult, keyOf: MessageResult -> string, ks: seq<string>)
    requires Distinct(ks)
    ensures SumOver(GroupMap(rs + [r], keyOf), ks)
         == Add(SumOver(GroupMap(rs, keyOf), ks), if keyOf(r) in ks then Single(r) else Zero())
  {
    forall j ensures Lookup(GroupMap(rs + [r], keyOf), j)
                  == Add(Lookup(GroupMap(rs, keyOf), j), if j == keyOf(r) then Single(r) else Zero()) {
      LookupSnoc(rs, r, keyOf, j);
    }
    SumOverBump(GroupMap(rs + [r], keyOf), GroupMap(rs, keyOf), ks, keyOf(r), Single(r));
  }

  lemma SumOverAppend(groups: map<string, Group>, ks: seq<string>, k: string)
    ensures SumOver(groups, ks + [k]) == Add(SumOver(groups, ks), Lookup(groups, k))
  {
    assert (ks + [k])[..|ks|] == ks;
  }

  lemma FirstKeysSnoc(rs: seq<MessageResult>, r: MessageResult, keyOf: MessageResult -> string)
    ensures FirstKeys(rs + [r], keyOf)
         == if keyOf(r) in FirstKeys(rs, keyOf) then FirstKeys(rs, keyOf) else FirstKeys(rs, keyOf) + [keyOf(r)]
  {
    assert (rs + [r])[..|rs|] == rs;
  }

  /** The entry a result creates when its key is new. */
  lemma NewKeyEntry(p: seq<MessageResult>, r: MessageResult, keyOf: MessageResult -> string)
    requires keyOf(r) !in KeySet(p, keyOf)
    ensures Lookup(GroupMap(p + [r], keyOf), keyOf(r)) == Single(r)
  {
    GroupMapKeys(p, keyOf);
    LookupSnoc(p, r, keyOf, keyOf(r));
  }

  /** The partition survives one more result. */
  lemma PartitionStep(p: seq<MessageResult>, r: MessageResult, keyOf: MessageResult -> string)
    requires SumOver(GroupMap(p, keyOf), FirstKeys(p, keyOf)) == Total(p)
    ensures SumOver(GroupMap(p + [r], keyOf), FirstKeys(p + [r], keyOf)) == Total(p + [r])
  {
    var k := keyOf(r);
    var ks := FirstKeys(p, keyOf);
    FirstKeysSnoc(p, r, keyOf);
    SumOverSnoc(p, r, keyOf, ks);
    TotalSnoc(p, r);
    if k !in ks {
      SumOverAppend(GroupMap(p + [r], keyOf), ks, k);
      NewKeyEntry(p, r, keyOf);
    }
  }

  /**
   * The groups partition the results: summed over the listed keys, the groups'
   * token counts and message counts are the totals over all results.
   */
  lemma {:induction false} GroupsPartition(rs: seq<MessageResult>, keyOf: MessageResult -> string)
    ensures SumOver(GroupMap(rs, keyOf), FirstKeys(rs, keyOf)) == Total(rs)
  {
    if rs != [] {
      var p := rs[..|rs| - 1];
      assert rs == p + [rs[|rs| - 1]];
      GroupsPartition(p, keyOf);
      PartitionStep(p, rs[|rs| - 1], keyOf);
    }
  }

  /** What one iteration of the grouping loop does to the dictionary and the key order. */
  lemma GroupByStep(p: seq<MessageResult>, r: MessageResult, keyOf: MessageResult -> string)
    ensures GroupMap(p + [r], keyOf)
         == GroupMap(p, keyOf)[keyOf(r) := Add(Lookup(GroupMap(p, keyOf), keyOf(r)), Single(r))]
    ensures FirstKeys(p + [r], keyOf)
         == if keyOf(r) in GroupMap(p, keyOf) then FirstKeys(p, keyOf) else FirstKeys(p, keyOf) + [keyOf(r)]
  {
    GroupMapSnoc(p, r, keyOf);
    FirstKeysSnoc(p, r, keyOf);
    GroupMapKeys(p, keyOf);
  }

  /**
   * The body of the grouping loop: create the entry of `key` with zero counts if it is
   * absent, appending `key` to the insertion order, then add the counts of `r` to it.
   */
  method AddToGroup(groups: map<string, Group>, order: seq<string>, key: string, r: MessageResult)
    returns (groups': map<string, Group>, order': seq<string>)
    ensures groups' == groups[key := Add(Lookup(groups, key), Single(r))]
    ensures order' == if key in groups then order else order + [key]
  {
    groups', order' := groups, order;
    if key !in groups' {
      groups' := groups'[key := Group(0, 0, 0)];
      order' := order' + [key];
    }
    var g := groups'[key];
    groups' := groups'[key := Group(g.agentspeak + r.agentspeakTokens, g.verbose + r.verboseTokens, g.count + 1)];
  }

  /**
   * The grouping loop: for each result, create its key's entry if absent (and so
   * append the key to the insertion order), then add the result's counts to it.
   */
  method GroupBy(results: seq<MessageResult>, keyOf: MessageResult -> string)
    returns (groups: map<string, Group>, order: seq<string>)
    ensures groups == GroupMap(results, keyOf)
    ensures order == FirstKeys(results, keyOf)
    ensures groups.Keys == KeySet(results, keyOf)
    ensures Distinct(order) && forall k :: k in order <==> k in groups
    ensures SumOver(groups, order) == Total(results)
  {
    groups, order := map[], [];
    for i := 0 to |results|
      invariant groups == GroupMap(results[..i], keyOf)
      invariant order == FirstKeys(results[..i], keyOf)
    {
      var r := results[i];
      assert results[..i + 1] == results[..i] + [r];
      GroupByStep(results[..i], r, keyOf);
      groups, order := AddToGroup(groups, order, keyOf(r), r);
    }
    assert results[..|results|] == results;
    GroupMapKeys(results, keyOf);
    GroupsPartition(results, keyOf);
  }
}
