/**
 * What the pipeline gets back from its language-model agents, and how a
 * reply becomes a JSON value.  The agent itself and `json.loads` are outside
 * the model: a reply is given, and parsing is a parameter that answers
 * `None` where `json.loads` raises `JSONDecodeError`.
 */
module Agent {
  import opened Outcomes
  import opened Json
  import opened Text

  /** `agent.step(prompt)`: the reply text, or the exception the call raised. */
  datatype Reply = Replied(text: string) | AgentFailed(message: string)

  /** `json.loads`, with `None` standing for `JSONDecodeError`. */
  type Parser = string -> Option<Value>

  /**
   * Parse cleaned text; only when that fails, parse it again with every
   * backslash doubled (LaTeX in a reply is seldom valid JSON escaping).
   */
  function ParseCleaned(parse: Parser, t: string): (r: Option<Value>)
    ensures r.None? <==> parse(t).None? && parse(DoubleBackslashes(t)).None?
    ensures parse(t).Some? ==> r == parse(t)
    ensures (forall i :: 0 <= i < |t| ==> t[i] != '\\') ==> r == parse(t)
  {
    match parse(t)
    case Some(v) => Some(v)
    case None =>
      DoublingWithoutBackslash(t);
      parse(DoubleBackslashes(t))
  }

  /** Remove the code fences, strip, and parse with the backslash repair. */
  function ParseResponse(parse: Parser, text: string): Option<Value>
  {
    ParseCleaned(parse, Clean(text))
  }

  /**
   * A reply that wraps its JSON in a json code fence parses exactly as the
   * stripped body does.
   */
  lemma FencedResponse(parse: Parser, body: string, gap: string)
    requires AllSpace(gap) && NoOpen(body)
    ensures ParseResponse(parse, OpenFence + gap + body + Ticks) == ParseCleaned(parse, Strip(body))
  {
    FencedRoundTrip(body, gap);
  }
}
