/**
 * The benchmark run as a whole: measure every message, total the counts, break them
 * down by message type and by agent, and project the cost of the tokens saved.
 * Printing is not modelled; the report holds the values the script formats.
 */
module Benchmark {
  import opened Wrappers
  import opened Metrics
  import opened TypeKeys
  import opened Grouping
  import opened Costs

  /** Key of the per-type breakdown. */
  function TypeGroupKey(r: MessageResult): (k: string)
    ensures |k| == |r.msgType| || |k| == |r.msgType| - |Ui| || |k| == |r.msgType| - |Coder|
    ensures k == r.msgType <==> !HasMatch(r.msgType)
  {
    TypeKey(r.msgType)
  }

  /** Key of the per-agent breakdown: the raw agent label. */
  function AgentGroupKey(r: MessageResult): (k: string)
    ensures k == r.agent
  {
    r.agent
  }

  /** Each result lands in the group of its key, and every group holds its results' counts. */
  lemma {:induction false} GroupsOfKeys(rs: seq<MessageResult>, keyOf: MessageResult -> string)
    ensures GroupMap(rs, keyOf).Keys == set r | r in rs :: keyOf(r)
    ensures forall k :: k in GroupMap(rs, keyOf) ==> GroupMap(rs, keyOf)[k].count == |Filter(rs, keyOf, k)|
  {
    GroupMapIsFilterTotals(rs, keyOf);
    KeySetIsImage(rs, keyOf);
  }

  /** The per-agent breakdown has one line per distinct agent, counting its messages. */
  lemma AgentGroups(rs: seq<MessageResult>)
    ensures GroupMap(rs, AgentGroupKey).Keys == set r | r in rs :: r.agent
    ensures forall a :: a in GroupMap(rs, AgentGroupKey) ==>
      GroupMap(rs, AgentGroupKey)[a].count == |Filter(rs, AgentGroupKey, a)|
  {
    GroupsOfKeys(rs, AgentGroupKey);
  }

  /** The per-type breakdown has one line per distinct rewritten type. */
  lemma TypeGroups(rs: seq<MessageResult>)
    ensures GroupMap(rs, TypeGroupKey).Keys == set r | r in rs :: TypeKey(r.msgType)
  {
    GroupsOfKeys(rs, TypeGroupKey);
  }

  /** A group is the total of the results with its key, of which there is at least one. */
  lemma GroupIsFilterTotal(rs: seq<MessageResult>, keyOf: MessageResult -> string, k: string)
    requires k in GroupMap(rs, keyOf)
    ensures GroupMap(rs, keyOf)[k] == Total(Filter(rs, keyOf, k))
    ensures Filter(rs, keyOf, k) != []
  {
    LookupGroupMap(rs, keyOf, k);
    FilterMembers(rs, keyOf, k);
    GroupMapKeys(rs, keyOf);
    KeySetMembers(rs, keyOf);
    var j :| 0 <= j < |rs| && keyOf(rs[j]) == k;
    assert rs[j] in Filter(rs, keyOf, k);
  }

  /** When every result with key `k` has verbose tokens, so do its group's members, and the group's sum is positive. */
  lemma GroupVerbosePositive(rs: seq<MessageResult>, keyOf: MessageResult -> string, k: string)
    requires k in GroupMap(rs, keyOf)
    requires forall i :: 0 <= i < |rs| && keyOf(rs[i]) == k ==> rs[i].verboseTokens > 0
    ensures forall i :: 0 <= i < |Filter(rs, keyOf, k)| ==> Filter(rs, keyOf, k)[i].verboseTokens > 0
    ensures Total(Filter(rs, keyOf, k)).verbose > 0
  {
    var f := Filter(rs, keyOf, k);
    GroupIsFilterTotal(rs, keyOf, k);
    FilterMembers(rs, keyOf, k);
    forall i | 0 <= i < |f| ensures f[i].verboseTokens > 0 {
      assert f[i] in rs && keyOf(f[i]) == k;
    }
  }

  /**
   * A group's savings percent is the verbose-weighted mean of its members' savings,
   * so it is computed from summed tokens, not by averaging the members' percentages.
   * Only the group's own members need verbose tokens.
   */
  lemma GroupSavingsIsWeightedMean(rs: seq<MessageResult>, keyOf: MessageResult -> string, k: string)
    requires k in GroupMap(rs, keyOf)
    requires forall i :: 0 <= i < |rs| && keyOf(rs[i]) == k ==> rs[i].verboseTokens > 0
    ensures IsWeightedMean(GroupMap(rs, keyOf)[k], Filter(rs, keyOf, k))
  {
    GroupIsFilterTotal(rs, keyOf, k);
    GroupVerbosePositive(rs, keyOf, k);
    SummedSavingsIsWeightedMean(Filter(rs, keyOf, k));
  }

  datatype Line = Line(key: string, savings: Option<real>)

  function Breakdown(groups: map<string, Group>, order: seq<string>): (lines: seq<Line>)
    ensures |lines| == |order|
    ensures forall i :: 0 <= i < |order| ==>
      lines[i].key == order[i] && lines[i].savings == SavingsPercent(Lookup(groups, order[i]).agentspeak, Lookup(groups, order[i]).verbose)
  {
    if order == [] then []
    else
      var k := order[|order| - 1];
      Breakdown(groups, order[..|order| - 1]) + [Line(k, SavingsPercent(Lookup(groups, k).agentspeak, Lookup(groups, k).verbose))]
  }

  datatype Report = Report(
    results: seq<MessageResult>,
    totalAgentSpeak: nat,
    totalVerbose: nat,
    totalSavings: Option<real>,
    totalRatio: Option<real>,
    typeGroups: map<string, Group>,
    typeOrder: seq<string>,
    typeLines: seq<Line>,
    saved: int,
    cost: Projection,
    agentGroups: map<string, Group>,
    agentOrder: seq<string>,
    agentLines: seq<Line>)

  method Run(messages: seq<Message>, tokens: string -> nat) returns (rep: Report)
    ensures |rep.results| == |messages|
    ensures forall i :: 0 <= i < |messages| ==> rep.results[i] == MeasureOne(messages[i], tokens)
    ensures Group(rep.totalAgentSpeak, rep.totalVerbose, |messages|) == Total(rep.results)
    ensures rep.totalSavings == SavingsPercent(rep.totalAgentSpeak, rep.totalVerbose)
    ensures rep.totalRatio == Ratio(rep.totalAgentSpeak, rep.totalVerbose)
    ensures rep.typeGroups == GroupMap(rep.results, TypeGroupKey)
    ensures rep.typeOrder == FirstKeys(rep.results, TypeGroupKey)
    ensures SumOver(rep.typeGroups, rep.typeOrder) == Total(rep.results)
    ensures rep.typeLines == Breakdown(rep.typeGroups, rep.typeOrder)
    ensures rep.agentGroups == GroupMap(rep.results, AgentGroupKey)
    ensures rep.agentOrder == FirstKeys(rep.results, AgentGroupKey)
    ensures SumOver(rep.agentGroups, rep.agentOrder) == Total(rep.results)
    ensures rep.agentLines == Breakdown(rep.agentGroups, rep.agentOrder)
    ensures rep.saved == rep.totalVerbose - rep.totalAgentSpeak
    ensures rep.totalSavings.Some? ==> (rep.saved < 0 <==> rep.totalSavings.value < 0.0)
    ensures rep.cost == Project(rep.saved)
  {
    var results, totalAgentSpeak, totalVerbose := Measure(messages, tokens);
    var totalSavings := SavingsPercent(totalAgentSpeak, totalVerbose);
    var totalRatio := Ratio(totalAgentSpeak, totalVerbose);
    var typeGroups, typeOrder := GroupBy(results, TypeGroupKey);
    var saved := totalVerbose as int - totalAgentSpeak as int;
    var agentGroups, agentOrder := GroupBy(results, AgentGroupKey);
    rep := Report(
      results, totalAgentSpeak, totalVerbose, totalSavings, totalRatio,
      typeGroups, typeOrder, Breakdown(typeGroups, typeOrder),
      saved, Project(saved),
      agentGroups, agentOrder, Breakdown(agentGroups, agentOrder));
  }
}
