/**
 * The transaction simulator: a mock fraud score from the entered amount and
 * one random draw, and the risk level the score is shown with.
 */
module Simulator {
  import opened JsNumber

  datatype Risk = Low | Medium | High

  /** `getRiskLevel`: below 0.3 is low, below 0.7 medium, anything else high. */
  function RiskLevel(score: real): (r: Risk)
    ensures r == Low <==> score < 0.3
    ensures r == Medium <==> 0.3 <= score < 0.7
    ensures r == High <==> score >= 0.7
  {
    if score < 0.3 then Low
    else if score < 0.7 then Medium
    else High
  }

  function Severity(r: Risk): nat {
    match r
    case Low => 0
    case Medium => 1
    case High => 2
  }

  /** The label the risk level is shown with: its name followed by " Risk". */
  function Label(risk: Risk): (r: string)
    ensures |r| > 5 && r[|r| - 5..] == " Risk"
  {
    match risk
    case Low => "Low Risk"
    case Medium => "Medium Risk"
    case High => "High Risk"
  }

  /** The colour the risk level is shown with; only high risk is shown as destructive. */
  function Color(risk: Risk): (r: string)
    ensures r == "destructive" <==> risk == High
  {
    match risk
    case Low => "success"
    case Medium => "warning"
    case High => "destructive"
  }

  /** The three levels are told apart by their labels and by their colours. */
  lemma LabelsAndColorsDistinct(a: Risk, b: Risk)
    requires a != b
    ensures Label(a) != Label(b)
    ensures Color(a) != Color(b)
  {
  }

  /** A higher score never gives a lower risk level. */
  lemma RiskMonotone(a: real, b: real)
    requires a <= b
    ensures Severity(RiskLevel(a)) <= Severity(RiskLevel(b))
  {
  }

  /** The extra 0.5 for amounts that `parseFloat` reads as more than 1000. */
  function AmountOffset(amount: string): real {
    if GreaterThan(ParseFloat(amount), 1000.0) then 0.5 else 0.0
  }

  /** `Math.random() * 0.3 + (parseFloat(amount) > 1000 ? 0.5 : 0)`, with the draw `r`
      in [0, 1): below 0.3 for small or unreadable amounts, otherwise in [0.5, 0.8). */
  function MockScore(r: real, amount: string): (score: real)
    requires 0.0 <= r < 1.0
    ensures GreaterThan(ParseFloat(amount), 1000.0) ==> 0.5 <= score < 0.8
    ensures !GreaterThan(ParseFloat(amount), 1000.0) ==> 0.0 <= score < 0.3
  {
    r * 0.3 + AmountOffset(amount)
  }

  /** An amount of at most 1000, or one `parseFloat` cannot read, always scores low risk;
      a larger amount never does, and scores high risk exactly when the draw is at least
      two thirds. */
  lemma AmountRisk(r: real, amount: string)
    requires 0.0 <= r < 1.0
    ensures !HasNumericPrefix(amount) ==> RiskLevel(MockScore(r, amount)) == Low
    ensures RiskLevel(MockScore(r, amount)) == Low <==> !GreaterThan(ParseFloat(amount), 1000.0)
    ensures GreaterThan(ParseFloat(amount), 1000.0) ==>
      (RiskLevel(MockScore(r, amount)) == High <==> r >= 2.0 / 3.0)
  {
  }
}
