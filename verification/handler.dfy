/** The "Go" button's click handler: what the page shows for a chosen origin and destination. */
module Handler {
  import opened Strings
  import opened Transit
  import opened Legs
  import opened Search
  import opened SearchProofs

  /** What ends up in the output element: a text, or nothing because the search never returns. */
  datatype Output = Shown(text: string) | Hung

  /** The page's line break between legs. */
  const LineBreak := "<br>"

  /** The rendered legs of a route, in order. */
  function Lines(legs: seq<Leg>): (r: seq<string>)
    ensures |r| == |legs|
    ensures forall k | 0 <= k < |r| :: |r[k]| > 0
  {
    seq(|legs|, k requires 0 <= k < |legs| => Render(legs[k]))
  }

  /** What the handler writes for a search outcome: the legs joined by line breaks, or the
      one-line answer "No solution". */
  function Answer(o: Outcome): (r: Output)
  {
    match o
    case Route(legs) => Shown(Join(Lines(legs), LineBreak))
    case NoSolution => Shown("No solution")
    case Diverges => Hung
  }

  /** The click handler. Equal ids answer "Already there" without searching; otherwise the
      search's outcome is shown. */
  function OnClick(net: Network, from: Id, to: Id, v: Variant): (r: Output)
    requires WellFormed(net) && (from == to || IsPlaceId(net, from))
    ensures from == to ==> r == Shown("Already there")
    ensures from != to ==> (r == Shown("No solution") <==> Dijkstra(net, from, to, v) == NoSolution)
    ensures from != to ==> (r.Hung? <==> Dijkstra(net, from, to, v) == Diverges)
  {
    if from == to then Shown("Already there")
    else
      var o := Dijkstra(net, from, to, v);
      RouteNeverReadsNoSolution(o);
      Answer(o)
  }

  /** No leg's text starts with 'N', so a route never reads "No solution". */
  lemma RenderNotNoSolution(l: Leg)
    ensures |Render(l)| > 0 && Render(l)[0] != 'N'
  {
    match l
    case TakeFlight(fromGate, _, _, _, _) =>
      assert Render(l)[0] == (if fromGate.Some? then 'A' else 'T');
    case _ =>
  }

  /** A join starts with the first character of its first part. */
  lemma {:induction false} JoinStartsWithFirst(parts: seq<string>, sep: string)
    requires |parts| > 0 && |parts[0]| > 0
    ensures |Join(parts, sep)| > 0 && Join(parts, sep)[0] == parts[0][0]
  {
    if |parts| > 1 {
      assert Join(parts, sep) == parts[0] + sep + Join(parts[1..], sep);
    }
  }

  /** The text shown for a route differs from the text shown for no route. */
  lemma RouteNeverReadsNoSolution(o: Outcome)
    ensures Answer(o) == Shown("No solution") <==> o == NoSolution
  {
    if o.Route? {
      var lines := Lines(o.legs);
      if |lines| > 0 {
        assert lines[0] == Render(o.legs[0]);
        RenderNotNoSolution(o.legs[0]);
        JoinStartsWithFirst(lines, LineBreak);
        assert Join(lines, LineBreak)[0] != "No solution"[0];
      } else {
        assert Join(lines, LineBreak) == "";
      }
    }
  }

  /** With the corrected search, every click shows a text, and for distinct ids that text is
      "No solution" exactly when no chain of legs leads from the origin to the destination. */
  lemma CorrectedClickAnswers(net: Network, from: Id, to: Id)
    requires WellFormed(net) && IsPlaceId(net, from)
    ensures OnClick(net, from, to, Corrected).Shown?
    ensures from != to ==>
      (OnClick(net, from, to, Corrected).text == "No solution" <==> !Reachable(net, from, to))
  {
    CorrectedRouteIffReachable(net, from, to);
    CorrectedNeverDiverges(net, from, to);
  }
}
