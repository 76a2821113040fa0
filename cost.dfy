/**
 * The cost estimate: the signed number of tokens saved, priced per million tokens
 * as input, as output and as both, per session and at fixed session volumes.
 */
module Costs {
  /** Dollars per million input tokens. */
  const InputPricePerMillion: real := 5.0
  /** Dollars per million output tokens. */
  const OutputPricePerMillion: real := 25.0
  const SessionsPerDay: int := 100
  const SessionsPerMonth: int := 3000

  /** The value `costStr` formats: `tokens / 1_000_000 * pricePerM`. */
  function Cost(tokens: int, pricePerMillion: real): (c: real)
    ensures c * 1000000.0 == tokens as real * pricePerMillion
  {
    tokens as real / 1000000.0 * pricePerMillion
  }

  /** Pricing at the sum of two prices is the sum of the two costs. */
  lemma CostAdditiveInPrice(tokens: int, p1: real, p2: real)
    ensures Cost(tokens, p1 + p2) == Cost(tokens, p1) + Cost(tokens, p2)
  {
    var t := tokens as real / 1000000.0;
    assert t * (p1 + p2) == t * p1 + t * p2;
  }

  /** Multiplying the tokens by a session count multiplies the cost by it. */
  lemma CostLinearInVolume(tokens: int, sessions: int, price: real)
    ensures Cost(tokens * sessions, price) == sessions as real * Cost(tokens, price)
  {
    var t := tokens as real;
    var n := sessions as real;
    assert (tokens * sessions) as real == t * n;
    assert t * n / 1000000.0 * price == n * (t / 1000000.0 * price);
  }

  /** At a positive price, the cost has the sign of the token count. */
  lemma CostSign(tokens: int, price: real)
    requires price > 0.0
    ensures Cost(tokens, price) > 0.0 <==> tokens > 0
    ensures Cost(tokens, price) < 0.0 <==> tokens < 0
  {
    var t := tokens as real / 1000000.0;
    if tokens > 0 {
      assert t > 0.0;
      assert t * price > 0.0;
    } else if tokens < 0 {
      assert t < 0.0;
      assert (-t) * price > 0.0;
    }
  }

  /** One line group of the estimate: the saving as input, as output and combined. */
  datatype Estimate = Estimate(asInput: real, asOutput: real, combined: real)

  /** The whole estimate: per session, at 100 sessions a day and at 3,000 a month. */
  datatype Projection = Projection(perSession: Estimate, perDay: Estimate, perMonth: Estimate)

  /** The three figures for `tokens` tokens; combined is priced at input plus output. */
  function EstimateFor(tokens: int): (e: Estimate)
    ensures e.combined == e.asInput + e.asOutput
    ensures e.asOutput == 5.0 * e.asInput
    ensures e.asInput > 0.0 <==> tokens > 0
    ensures e.asInput < 0.0 <==> tokens < 0
  {
    CostAdditiveInPrice(tokens, InputPricePerMillion, OutputPricePerMillion);
    CostSign(tokens, InputPricePerMillion);
    Estimate(
      Cost(tokens, InputPricePerMillion),
      Cost(tokens, OutputPricePerMillion),
      Cost(tokens, InputPricePerMillion + OutputPricePerMillion))
  }

  function Scale(e: Estimate, n: int): Estimate
  {
    Estimate(n as real * e.asInput, n as real * e.asOutput, n as real * e.combined)
  }

  /**
   * The estimate for `saved` tokens. Daily and monthly figures price `saved * 100`
   * and `saved * 3000` tokens, which makes them exactly 100 and 3,000 times the
   * per-session figures; a negative saving gives negative costs, never clamped.
   */
  function Project(saved: int): (p: Projection)
    ensures p.perSession == EstimateFor(saved)
    ensures p.perDay == Scale(p.perSession, SessionsPerDay)
    ensures p.perMonth == Scale(p.perSession, SessionsPerMonth)
    ensures p.perMonth == Scale(p.perDay, 30)
    ensures p.perSession.combined == p.perSession.asInput + p.perSession.asOutput
    ensures p.perSession.combined < 0.0 <==> saved < 0
  {
    CostLinearInVolume(saved, SessionsPerDay, InputPricePerMillion);
    CostLinearInVolume(saved, SessionsPerDay, OutputPricePerMillion);
    CostLinearInVolume(saved, SessionsPerDay, InputPricePerMillion + OutputPricePerMillion);
    CostLinearInVolume(saved, SessionsPerMonth, InputPricePerMillion);
    CostLinearInVolume(saved, SessionsPerMonth, OutputPricePerMillion);
    CostLinearInVolume(saved, SessionsPerMonth, InputPricePerMillion + OutputPricePerMillion);
    Projection(EstimateFor(saved), EstimateFor(saved * SessionsPerDay), EstimateFor(saved * SessionsPerMonth))
  }
}
