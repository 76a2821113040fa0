/**
 * The grouping loops as the script writes them, on a plain JavaScript object.
 * `!groups[key]` reads through the object's prototype: for a key such as
 * `constructor` or `toString` it finds an inherited, truthy value, so no entry is
 * created, and the additions that follow land on that inherited value. Such a result
 * never reaches any entry that `Object.entries` lists.
 */
module PrototypeKeys {
  import opened Metrics
  import opened Grouping

  /** The properties every plain object inherits from `Object.prototype`; all are truthy. */
  const InheritedProperties: set<string> :=
    {"constructor", "hasOwnProperty", "isPrototypeOf", "propertyIsEnumerable",
     "toLocaleString", "toString", "valueOf", "__proto__",
     "__defineGetter__", "__defineSetter__", "__lookupGetter__", "__lookupSetter__"}

  predicate IsInheritedProperty(k: string)
  {
    k in InheritedProperties
  }

  /** The results whose key is not an inherited property, in their original order. */
  function OwnResults(rs: seq<MessageResult>, keyOf: MessageResult -> string): seq<MessageResult>
  {
    if rs == [] then []
    else
      var r := rs[|rs| - 1];
      OwnResults(rs[..|rs| - 1], keyOf) + if IsInheritedProperty(keyOf(r)) then [] else [r]
  }

  /** The results kept are those whose key is not inherited, each as often as it occurs. */
  lemma {:induction false} OwnResultsMembers(rs: seq<MessageResult>, keyOf: MessageResult -> string)
    ensures |OwnResults(rs, keyOf)| <= |rs|
    ensures forall r :: r in OwnResults(rs, keyOf) <==> r in rs && !IsInheritedProperty(keyOf(r))
    ensures forall r :: multiset(OwnResults(rs, keyOf))[r]
                     == if IsInheritedProperty(keyOf(r)) then 0 else multiset(rs)[r]
  {
    if rs != [] {
      var p := rs[..|rs| - 1];
      assert rs == p + [rs[|rs| - 1]];
      OwnResultsMembers(p, keyOf);
    }
  }

  lemma OwnResultsSnoc(rs: seq<MessageResult>, r: MessageResult, keyOf: MessageResult -> string)
    ensures OwnResults(rs + [r], keyOf)
         == OwnResults(rs, keyOf) + if IsInheritedProperty(keyOf(r)) then [] else [r]
  {
    assert (rs + [r])[..|rs|] == rs;
  }

  /**
   * The grouping loop as written: an entry is created only when the key reads as
   * falsy, which an inherited property never does, and the additions reach an own
   * entry only when there is one.
   */
  method GroupByAsWritten(results: seq<MessageResult>, keyOf: MessageResult -> string)
    returns (groups: map<string, Group>, order: seq<string>)
    ensures groups == GroupMap(OwnResults(results, keyOf), keyOf)
    ensures order == FirstKeys(OwnResults(results, keyOf), keyOf)
    ensures SumOver(groups, order) == Total(OwnResults(results, keyOf))
  {
    groups, order := map[], [];
    for i := 0 to |results|
      invariant groups == GroupMap(OwnResults(results[..i], keyOf), keyOf)
      invariant order == FirstKeys(OwnResults(results[..i], keyOf), keyOf)
    {
      var r := results[i];
      var key := keyOf(r);
      ghost var own := OwnResults(results[..i], keyOf);
      assert results[..i + 1] == results[..i] + [r];
      OwnResultsSnoc(results[..i], r, keyOf);
      if !IsInheritedProperty(key) {
        assert OwnResults(results[..i + 1], keyOf) == own + [r];
        GroupByStep(own, r, keyOf);
        groups, order := AddToGroup(groups, order, key, r);
      } else {
        assert OwnResults(results[..i + 1], keyOf) == own;
      }
    }
    assert results[..|results|] == results;
    GroupsPartition(OwnResults(results, keyOf), keyOf);
  }

  /** When no key is an inherited property, the loop as written groups every result. */
  lemma {:induction false} NoInheritedKeysKeepsAll(rs: seq<MessageResult>, keyOf: MessageResult -> string)
    requires forall i :: 0 <= i < |rs| ==> !IsInheritedProperty(keyOf(rs[i]))
    ensures OwnResults(rs, keyOf) == rs
  {
    if rs != [] {
      NoInheritedKeysKeepsAll(rs[..|rs| - 1], keyOf);
    }
  }

  /** A message from the agent `constructor` is counted in no per-agent group. */
  lemma ConstructorAgentIsDropped(r: MessageResult)
    requires r.agent == "constructor"
    ensures var keyOf := (x: MessageResult) => x.agent;
      && GroupMap(OwnResults([r], keyOf), keyOf) == map[]
      && SumOver(GroupMap(OwnResults([r], keyOf), keyOf), FirstKeys(OwnResults([r], keyOf), keyOf)).count == 0
      && Total([r]).count == 1
  {
    var keyOf := (x: MessageResult) => x.agent;
    assert IsInheritedProperty(keyOf(r));
    assert OwnResults([r], keyOf) == [];
  }
}
