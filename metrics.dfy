/**
 * Per-message token metrics and the running totals of the benchmark's main loop.
 *
 * The tokenizer is not modelled: it is the parameter `tokens`, a deterministic
 * function from a text to its token count.
 */
module Metrics {
  import opened Wrappers

  /** One entry of the corpus: identifier, type label, agent label and its two forms. */
  datatype Message = Message(id: int, msgType: string, agent: string, agentspeak: string, verbose: string)

  /**
   * The record the main loop pushes onto `results`. `savings` and `ratio` are exact;
   * `None` stands for the non-finite value JavaScript produces when dividing by zero.
   */
  datatype MessageResult = MessageResult(
    id: int, msgType: string, agent: string,
    agentspeakTokens: nat, verboseTokens: nat,
    savings: Option<real>, ratio: Option<real>)

  /** The accumulator `{ as, vb, count }` of a group (or of the whole run). */
  datatype Group = Group(agentspeak: nat, verbose: nat, count: nat)

  function Zero(): Group { Group(0, 0, 0) }

  function Add(g: Group, h: Group): Group
  {
    Group(g.agentspeak + h.agentspeak, g.verbose + h.verbose, g.count + h.count)
  }

  /** What one result contributes to a group. */
  function Single(r: MessageResult): Group
  {
    Group(r.agentspeakTokens, r.verboseTokens, 1)
  }

  /** Totals over a sequence of results, accumulated front to back as the loops do. */
  function Total(rs: seq<MessageResult>): (g: Group)
    ensures g.count == |rs|
  {
    if rs == [] then Zero() else Add(Total(rs[..|rs| - 1]), Single(rs[|rs| - 1]))
  }

  lemma TotalSnoc(rs: seq<MessageResult>, r: MessageResult)
    ensures Total(rs + [r]) == Add(Total(rs), Single(r))
  {
    assert (rs + [r])[..|rs|] == rs;
  }

  /** The sign of a product with a positive factor is the sign of the other factor. */
  lemma MulSign(x: real, y: real)
    requires y > 0.0
    ensures x < 0.0 ==> x * y < 0.0
    ensures x > 0.0 ==> x * y > 0.0
  {
  }

  /**
   * Savings percent `(1 - compact / verbose) * 100`; undefined when `verbose` is 0.
   */
  function SavingsPercent(compact: nat, verbose: nat): (r: Option<real>)
    ensures r.Some? <==> verbose > 0
    ensures r.Some? ==> r.value * verbose as real == 100.0 * (verbose as real - compact as real)
    ensures r.Some? ==> r.value <= 100.0
    ensures r.Some? ==> (r.value == 100.0 <==> compact == 0)
    ensures r.Some? ==> (r.value < 0.0 <==> compact > verbose)
    ensures r.Some? ==> (r.value == 0.0 <==> compact == verbose)
  {
    if verbose == 0 then None
    else
      var c, v := compact as real, verbose as real;
      var q := c / v;
      assert q * v == c;
      MulSign(q, v);
      MulSign(q - 1.0, v);
      assert (q - 1.0) * v == c - v;
      assert (1.0 - q) * 100.0 * v == 100.0 * (v - c);
      Some((1.0 - q) * 100.0)
  }

  /** Compression ratio `verbose / compact`; undefined when `compact` is 0. */
  function Ratio(compact: nat, verbose: nat): (r: Option<real>)
    ensures r.Some? <==> compact > 0
    ensures r.Some? ==> r.value * compact as real == verbose as real
    ensures r.Some? ==> r.value >= 0.0
    ensures r.Some? ==> (r.value > 1.0 <==> verbose > compact)
  {
    if compact == 0 then None
    else
      var c, v := compact as real, verbose as real;
      var q := v / c;
      assert q * c == v;
      MulSign(q, c);
      MulSign(q - 1.0, c);
      assert (q - 1.0) * c == v - c;
      Some(q)
  }

  /** When both are defined, savings and ratio determine each other. */
  lemma SavingsFromRatio(compact: nat, verbose: nat)
    requires compact > 0 && verbose > 0
    ensures SavingsPercent(compact, verbose).value
         == (1.0 - 1.0 / Ratio(compact, verbose).value) * 100.0
  {
    var q := Ratio(compact, verbose).value;
    assert q * compact as real == verbose as real;
    assert 1.0 / q == compact as real / verbose as real;
  }

  /** The metrics of one message, as the main loop's body computes them. */
  function MeasureOne(m: Message, tokens: string -> nat): (r: MessageResult)
    ensures r.id == m.id && r.msgType == m.msgType && r.agent == m.agent
    ensures r.agentspeakTokens == tokens(m.agentspeak) && r.verboseTokens == tokens(m.verbose)
    ensures r.savings.Some? <==> r.verboseTokens > 0
    ensures r.savings.Some? ==>
      r.savings.value * r.verboseTokens as real == 100.0 * (r.verboseTokens as real - r.agentspeakTokens as real)
    ensures r.ratio.Some? <==> r.agentspeakTokens > 0
    ensures r.ratio.Some? ==> r.ratio.value * r.agentspeakTokens as real == r.verboseTokens as real
  {
    var a := tokens(m.agentspeak);
    var v := tokens(m.verbose);
    MessageResult(m.id, m.msgType, m.agent, a, v, SavingsPercent(a, v), Ratio(a, v))
  }

  /**
   * The main loop: one result per message, in input order, and the running totals
   * `totalAgentSpeak` and `totalVerbose`.
   */
  method Measure(messages: seq<Message>, tokens: string -> nat)
    returns (results: seq<MessageResult>, totalAgentSpeak: nat, totalVerbose: nat)
    ensures |results| == |messages|
    ensures forall i :: 0 <= i < |messages| ==> results[i] == MeasureOne(messages[i], tokens)
    ensures forall i :: 0 <= i < |messages| ==>
      && results[i].id == messages[i].id
      && results[i].msgType == messages[i].msgType
      && results[i].agent == messages[i].agent
      && results[i].agentspeakTokens == tokens(messages[i].agentspeak)
      && results[i].verboseTokens == tokens(messages[i].verbose)
    ensures totalAgentSpeak == Total(results).agentspeak
    ensures totalVerbose == Total(results).verbose
  {
    results, totalAgentSpeak, totalVerbose := [], 0, 0;
    for i := 0 to |messages|
      invariant |results| == i
      invariant forall j :: 0 <= j < i ==> results[j] == MeasureOne(messages[j], tokens)
      invariant totalAgentSpeak == Total(results).agentspeak
      invariant totalVerbose == Total(results).verbose
    {
      var msg := messages[i];
      var asTokens := tokens(msg.agentspeak);
      var verboseTokens := tokens(msg.verbose);
      var savings := SavingsPercent(asTokens, verboseTokens);
      var ratio := Ratio(asTokens, verboseTokens);
      totalAgentSpeak := totalAgentSpeak + asTokens;
      totalVerbose := totalVerbose + verboseTokens;
      var r := MessageResult(msg.id, msg.msgType, msg.agent, asTokens, verboseTokens, savings, ratio);
      TotalSnoc(results, r);
      results := results + [r];
    }
  }

  /** Savings summed over messages, each weighted by its verbose token count. */
  function WeightedSavings(rs: seq<MessageResult>): real
    requires forall i :: 0 <= i < |rs| ==> rs[i].verboseTokens > 0
  {
    if rs == [] then 0.0
    else
      var r := rs[|rs| - 1];
      WeightedSavings(rs[..|rs| - 1])
        + SavingsPercent(r.agentspeakTokens, r.verboseTokens).value * r.verboseTokens as real
  }

  /** The savings percent of `g` is the mean of the savings of `rs` weighted by verbose tokens. */
  ghost predicate IsWeightedMean(g: Group, rs: seq<MessageResult>)
  {
    && g.verbose > 0
    && (forall i :: 0 <= i < |rs| ==> rs[i].verboseTokens > 0)
    && SavingsPercent(g.agentspeak, g.verbose).value * g.verbose as real == WeightedSavings(rs)
  }

  /**
   * The savings percent of a total (the overall figure and every group's figure) is the
   * mean of the per-message savings weighted by verbose tokens, not their plain average.
   */
  lemma {:induction false} SummedSavingsIsWeightedMean(rs: seq<MessageResult>)
    requires forall i :: 0 <= i < |rs| ==> rs[i].verboseTokens > 0
    requires rs != []
    ensures IsWeightedMean(Total(rs), rs)
  {
    WeightedIsSavedTokens(rs);
  }

  lemma {:induction false} WeightedIsSavedTokens(rs: seq<MessageResult>)
    requires forall i :: 0 <= i < |rs| ==> rs[i].verboseTokens > 0
    ensures WeightedSavings(rs) == 100.0 * (Total(rs).verbose as real - Total(rs).agentspeak as real)
  {
    if rs != [] {
      WeightedIsSavedTokens(rs[..|rs| - 1]);
    }
  }

  /** Averaging the per-message percentages would give a different figure. */
  lemma SummedSavingsIsNotAverage()
    ensures SavingsPercent(1, 2) == Some(50.0) && SavingsPercent(1, 10) == Some(90.0)
    ensures SavingsPercent(1 + 1, 2 + 10).value != (50.0 + 90.0) / 2.0
  {
    var s := SavingsPercent(2, 12).value;
    assert s * 12.0 == 1000.0;
  }
}
