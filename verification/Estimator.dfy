/** Estimated cost of a model call in whole cents, over exact rationals. */
module Estimator {
  import opened Common
  import opened PyText

  /** Dollars for a million tokens. */
  datatype ModelPricing = ModelPricing(input: real, output: real)

  /** The prices of the opus and sonnet models of the table, and of its haiku model. */
  const OPUS: ModelPricing := ModelPricing(3.0, 15.0)
  const SONNET: ModelPricing := ModelPricing(3.0, 15.0)
  const HAIKU: ModelPricing := ModelPricing(0.8, 4.0)

  /** Python's `round`: to the nearest integer, a tie to the even one. */
  function RoundHalfEven(x: real): int {
    var below := x.Floor;
    var over := x - below as real;
    if over < 0.5 || (over == 0.5 && below % 2 == 0) then below else below + 1
  }

  /** In cents. */
  function CostOf(tokens: int, price: real): real {
    tokens as real / 1_000_000.0 * price * 100.0
  }

  function Cost(p: ModelPricing, input: int, output: int): real {
    CostOf(input, p.input) + CostOf(output, p.output)
  }

  function EstimateCostCents(p: ModelPricing, input: int, output: int): int {
    RoundHalfEven(Cost(p, input, output))
  }

  /** The model a name stands for in the table, whatever its case and surrounding white space. */
  function ModelOf(model: string): Option<ModelPricing> {
    var name := Strip(model);
    if LowersTo(name, "claude-opus-4-7") then Some(OPUS)
    else if LowersTo(name, "claude-opus-4-6") then Some(OPUS)
    else if LowersTo(name, "claude-sonnet-4-6") then Some(SONNET)
    else if LowersTo(name, "claude-haiku-4-5") then Some(HAIKU)
    else None
  }

  /** `estimate_cost`: nothing for a provider or model that is not in the table. */
  function EstimateCost(provider: Option<string>, model: Option<string>, input: int, output: int): Option<int> {
    if provider.None? || model.None? || !LowersTo(Strip(provider.value), "anthropic") then None else
    match ModelOf(model.value)
    case None => None
    case Some(pricing) => Some(EstimateCostCents(pricing, input, output))
  }

  /** The price list in cents a million tokens, which with additivity of cost determines every
      estimate: 300 in and 1,500 out for the opus and sonnet models, 80 and 400 for haiku. */
  lemma {:induction false} PriceList(provider: string, model: string, m: int, n: int)
    ensures EstimateCost(Some(provider), Some(model), 1_000_000 * m, 1_000_000 * n)
         == var name := Strip(model);
            if !LowersTo(Strip(provider), "anthropic") then None
            else if LowersTo(name, "claude-opus-4-7") || LowersTo(name, "claude-opus-4-6")
                    || LowersTo(name, "claude-sonnet-4-6") then Some(300 * m + 1_500 * n)
            else if LowersTo(name, "claude-haiku-4-5") then Some(80 * m + 400 * n)
            else None
  {
    if ModelOf(model).Some? {
      var p := ModelOf(model).value;
      var cents := if p == HAIKU then 80 * m + 400 * n else 300 * m + 1_500 * n;
      assert Cost(p, 1_000_000 * m, 1_000_000 * n) == cents as real;
    }
  }

  predicate IsPriced(p: ModelPricing) {
    0.0 <= p.input && 0.0 <= p.output
  }

  // ----- rounding ----------------------------------------------------------------------

  function Abs(x: real): real { if x < 0.0 then -x else x }

  /** The integer nearest to `x`, or the even one of the two nearest. */
  predicate IsNearest(n: int, x: real) {
    Abs(n as real - x) < 0.5 || (Abs(n as real - x) == 0.5 && n % 2 == 0)
  }

  /** Rounding gives the nearest integer with ties to even, and no other integer is that. */
  lemma {:induction false} RoundIsNearest(x: real, n: int)
    ensures n == RoundHalfEven(x) <==> IsNearest(n, x)
  {
    var below := x.Floor;
    assert below as real <= x < (below + 1) as real;
    if IsNearest(n, x) {
      assert below as real - 1.0 < n as real < (below + 2) as real;
      assert n == below || n == below + 1;
    }
  }

  // ----- estimates ---------------------------------------------------------------------

  lemma {:induction false} TimesPrice(tokens: int, more: int, price: real)
    requires tokens <= more && 0.0 <= price
    ensures CostOf(tokens, price) <= CostOf(more, price)
  {
    var a, b := tokens as real / 1_000_000.0, more as real / 1_000_000.0;
    assert a <= b;
    assert a * price <= b * price;
  }

  /** More tokens of either kind never lower the estimate. */
  lemma {:induction false} EstimateIsMonotone(p: ModelPricing, input: int, output: int, moreInput: int, moreOutput: int)
    requires IsPriced(p) && input <= moreInput && output <= moreOutput
    ensures EstimateCostCents(p, input, output) <= EstimateCostCents(p, moreInput, moreOutput)
  {
    TimesPrice(input, moreInput, p.input);
    TimesPrice(output, moreOutput, p.output);
  }

  // ----- splitting a workload ----------------------------------------------------------

  datatype Call = Call(input: int, output: int)

  function Workload(calls: seq<Call>): Call {
    if calls == [] then Call(0, 0) else
    var rest := Workload(calls[..|calls| - 1]);
    Call(rest.input + calls[|calls| - 1].input, rest.output + calls[|calls| - 1].output)
  }

  function Summed(p: ModelPricing, calls: seq<Call>): int {
    if calls == [] then 0 else
    Summed(p, calls[..|calls| - 1]) + EstimateCostCents(p, calls[|calls| - 1].input, calls[|calls| - 1].output)
  }

  lemma {:induction false} CostAdds(p: ModelPricing, a: Call, b: Call)
    ensures Cost(p, a.input + b.input, a.output + b.output) == Cost(p, a.input, a.output) + Cost(p, b.input, b.output)
  {
  }

  lemma {:induction false} SummedIsClose(p: ModelPricing, calls: seq<Call>)
    ensures Abs(Summed(p, calls) as real - Cost(p, Workload(calls).input, Workload(calls).output)) <= |calls| as real * 0.5
  {
    if calls != [] {
      var n := |calls| - 1;
      SummedIsClose(p, calls[..n]);
      CostAdds(p, Workload(calls[..n]), calls[n]);
    }
  }

  /** However a workload is split into calls, their estimates add up to within `(n + 1) / 2` cents
      of the estimate for the whole. */
  lemma {:induction false} SplittingCostsLittle(p: ModelPricing, calls: seq<Call>)
    ensures Abs((Summed(p, calls) - EstimateCostCents(p, Workload(calls).input, Workload(calls).output)) as real)
         <= (|calls| + 1) as real * 0.5
  {
    SummedIsClose(p, calls);
  }

  // ----- named models ------------------------------------------------------------------

  /** Whether a model is known does not depend on the tokens, and for a known one more tokens of
      either kind never lower the estimate. */
  lemma {:induction false} NamedEstimateIsMonotone(provider: Option<string>, model: Option<string>,
                                                   input: int, output: int, moreInput: int, moreOutput: int)
    requires input <= moreInput && output <= moreOutput
    ensures match EstimateCost(provider, model, input, output)
            case None => EstimateCost(provider, model, moreInput, moreOutput).None?
            case Some(cents) =>
              EstimateCost(provider, model, moreInput, moreOutput).Some?
              && cents <= EstimateCost(provider, model, moreInput, moreOutput).value
  {
    if EstimateCost(provider, model, input, output).Some? {
      var p := ModelOf(model.value).value;
      EstimateIsMonotone(p, input, output, moreInput, moreOutput);
    }
  }

  /** The estimates of calls to a named model, added up; none as soon as one is unknown. */
  function NamedSum(provider: Option<string>, model: Option<string>, calls: seq<Call>): Option<int> {
    if calls == [] then Some(0) else
    var last := calls[|calls| - 1];
    match (NamedSum(provider, model, calls[..|calls| - 1]), EstimateCost(provider, model, last.input, last.output))
    case (Some(before), Some(cents)) => Some(before + cents)
    case _ => None
  }

  lemma {:induction false} NamedSumIs(provider: Option<string>, model: Option<string>, calls: seq<Call>)
    ensures match EstimateCost(provider, model, 0, 0)
            case None => calls != [] ==> NamedSum(provider, model, calls).None?
            case Some(_) => NamedSum(provider, model, calls) == Some(Summed(ModelOf(model.value).value, calls))
  {
    if calls != [] { NamedSumIs(provider, model, calls[..|calls| - 1]); }
  }

  /** For a known model the estimates of any split add up to within `(n + 1) / 2` cents of the estimate
      for the whole; for an unknown one neither is given. */
  lemma {:induction false} NamedSplittingCostsLittle(provider: Option<string>, model: Option<string>, calls: seq<Call>)
    requires calls != []
    ensures match EstimateCost(provider, model, Workload(calls).input, Workload(calls).output)
            case None => NamedSum(provider, model, calls).None?
            case Some(cents) =>
              && NamedSum(provider, model, calls).Some?
              && Abs((NamedSum(provider, model, calls).value - cents) as real) <= (|calls| + 1) as real * 0.5
  {
    NamedSumIs(provider, model, calls);
    if EstimateCost(provider, model, 0, 0).Some? {
      SplittingCostsLittle(ModelOf(model.value).value, calls);
    }
  }

  // ----- calls that look free ----------------------------------------------------------

  function Repeated(call: Call, n: nat): (calls: seq<Call>)
    ensures |calls| == n
  {
    if n == 0 then [] else Repeated(call, n - 1) + [call]
  }

  /** Half a cent rounds to nothing, so the bound is all but met: 1,250 output tokens of the haiku
      model at a time are estimated as free, however many such calls there are. */
  lemma {:induction false} HalfCentCallsLookFree(n: nat)
    ensures var p, calls := HAIKU, Repeated(Call(0, 1_250), n);
            && Workload(calls) == Call(0, 1_250 * n)
            && Summed(p, calls) == 0
            && n - 1 <= 2 * EstimateCostCents(p, 0, 1_250 * n)
  {
    var p, calls := HAIKU, Repeated(Call(0, 1_250), n);
    if n > 0 {
      HalfCentCallsLookFree(n - 1);
      assert calls[..n - 1] == Repeated(Call(0, 1_250), n - 1);
    }
  }
}
