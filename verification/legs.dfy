/** The legs of an itinerary. The source builds each leg's text with a template string;
    the model keeps the pieces in a datatype and renders them with `Render`. */
module Legs {
  import opened Options
  import opened Strings

  datatype Leg =
    | TakeSpawnWarp(name: string)
      /** A proximity hop; `distance` is rounded only when rendered. */
    | Fly(distance: real, typeName: string, target: string)
    | ChangeTo(typeName: string, company: string, target: string)
    | GoToGate(code: string)
      /** `fromGate`/`toGate` are the gates' nullable codes. */
    | TakeFlight(fromGate: Option<string>, airline: string, flightCode: string, airport: string, toGate: Option<string>)
      /** `dirLabel` is the already parenthesised direction label, or "". */
    | TakeLine(company: string, line: string, dirLabel: string, target: string)

  /** `Math.round`: the nearest integer, halves rounded up. */
  function Round(x: real): (r: int)
    ensures r as real - 0.5 <= x < r as real + 0.5
  {
    (x + 0.5).Floor
  }

  /** The text of a leg as the source's template strings produce it. */
  function Render(l: Leg): (r: string)
    ensures |r| > 0
  {
    match l
    case TakeSpawnWarp(name) => "Take spawn warp to " + name
    case Fly(d, t, target) => "Fly " + IntToString(Round(d)) + " blocks to " + t + " " + target
    case ChangeTo(t, company, target) => "Change to " + t + " " + company + " " + target
    case GoToGate(code) => "Go to gate " + code
    case TakeFlight(fromGate, airline, flightCode, airport, toGate) =>
      (match fromGate case Some(c) => "At Gate " + c + " t" case None => "T") +
      "ake " + airline + " " + flightCode + " to " + airport +
      (match toGate case Some(c) => " (Gate " + c + ")" case None => "")
    case TakeLine(company, line, dirLabel, target) =>
      "Take " + company + " " + line + " " + dirLabel + "to " + target
  }
}
