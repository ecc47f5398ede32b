/** Routing of an incoming WebSocket frame to a command verb: a text frame
    is `<verb> <payload>`; keep-alive pings and non-text frames are dropped. */
module Protocol {
  import opened PokerTypes

  datatype Frame = Text(text: string) | NonText

  datatype Routed =
    | Skip                               // not text, or a keep-alive ping
    | Unsupported                        // text with no known verb
    | Routed(verb: Verb, payload: string)

  /** Routes a frame by its verb prefix; the verbs are tried in a fixed
      order and the payload is what follows the prefix. */
  function Route(f: Frame): (r: Routed)
    ensures r.Routed? ==> f.Text? && f.text == r.verb.Prefix() + r.payload
    ensures r == Skip <==> f.NonText? || f.text == "ping" || f.text == "ping\n"
  {
    match f
    case NonText => Skip
    case Text(t) =>
      if t == "ping" || t == "ping\n" then Skip
      else if UserVerb.Prefix() <= t then Routed(UserVerb, t[|UserVerb.Prefix()|..])
      else if StoriesVerb.Prefix() <= t then Routed(StoriesVerb, t[|StoriesVerb.Prefix()|..])
      else if RemoveStoryVerb.Prefix() <= t then Routed(RemoveStoryVerb, t[|RemoveStoryVerb.Prefix()|..])
      else if VoteVerb.Prefix() <= t then Routed(VoteVerb, t[|VoteVerb.Prefix()|..])
      else if FinishVerb.Prefix() <= t then Routed(FinishVerb, t[|FinishVerb.Prefix()|..])
      else if ActiveStoryVerb.Prefix() <= t then Routed(ActiveStoryVerb, t[|ActiveStoryVerb.Prefix()|..])
      else Unsupported
  }

  /** The client framing `<verb> <payload>` is routed back to that verb and
      exactly that payload, whatever the payload is. */
  lemma RouteEncoded(v: Verb, payload: string)
    ensures Route(Text(v.Prefix() + payload)) == Routed(v, payload)
  {
    var t := v.Prefix() + payload;
    assert t[..|v.Prefix()|] == v.Prefix();
    assert t[|v.Prefix()|..] == payload;
    // The six prefixes start with six different letters, so only `v` matches.
    assert t[0] == v.Prefix()[0];
  }

  /** A decoded payload belongs to the frame it was decoded from: there is
      one only when the frame was routed to that command's verb. */
  predicate Decodes(f: Frame, parsed: Option<Command>)
  {
    parsed.Some? ==> Route(f).Routed? && Route(f).verb == parsed.value.Verb()
  }
}
