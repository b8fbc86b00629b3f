/** What the parser does when a callback refuses, and when a delimiter is followed by something else. */
module MultipartRefusal {
  import opened Basics
  import opened Text
  import opened MultipartSpec

  // ---------------------------------------------------------------- a refusing callback

  /** The callbacks have accepted every call so far. */
  ghost predicate Accepted(env: Env, events: seq<Event>) {
    forall k :: 0 < k <= |events| ==> env.accept(events[..k])
  }

  /** Only the last call may have been refused, and then the parser is invalid. */
  ghost predicate RefusedLast(env: Env, ok: bool, p: Parser) {
    || Accepted(env, p.events)
    || (!ok && !p.valid && p.events != [] && Accepted(env, p.events[..|p.events| - 1]) && !env.accept(p.events))
  }

  ghost predicate StepHeard(env: Env, s: Step) {
    match s
    case More(q) => Accepted(env, q.events)
    case Return(ok, q) => RefusedLast(env, ok, q) && (ok ==> Accepted(env, q.events))
  }

  lemma EmitHeard(env: Env, p: Parser, e: Event, next: Parser)
    requires Accepted(env, p.events)
    ensures StepHeard(env, Emit(env, p, e, next))
  {
    var es := p.events + [e];
    assert es[..|es|] == es && es[..|es| - 1] == p.events;
    forall k | 0 < k < |es|
      ensures env.accept(es[..k])
    {
      assert es[..k] == p.events[..k];
    }
  }

  lemma {:induction false} HeaderLoopHeard(env: Env, p: Parser)
    requires Accepted(env, p.events)
    ensures StepHeard(env, HeaderLoop(env, p))
    decreases |p.window|
  {
    var w, pos := p.window, Find(p.window, CRLF);
    if pos == |w| {
      HeaderLoopWaits(env, p);
    } else if pos == 0 {
      HeaderLoopAnnounces(env, p);
      EmitHeard(env, p, Header(p.lines), p.(window := w[2..], state := 3));
    } else {
      HeaderLoopReads(env, p, pos);
      if env.lineOk(w[..pos]) {
        HeaderLoopHeard(env, p.(lines := p.lines + [w[..pos]], window := w[pos + 2..]));
      }
    }
  }

  lemma BodyHeard(env: Env, d: string, p: Parser)
    requires d != "" && Accepted(env, p.events)
    ensures StepHeard(env, BodyUpTo(env, d, p))
  {
    var w, pos := p.window, Find(p.window, d);
    if |d| <= |w| && pos < |w| {
      BodyFound(env, d, p, pos);
      EmitHeard(env, p, Content(w[..pos]), p.(window := w[pos + |d|..], state := 4));
    } else if |d| < |w| {
      BodyHeld(env, d, p);
      var n := |w| - |d|;
      EmitHeard(env, p, Content(w[..n]), p.(window := w[n..], state := 3));
      StopHeard(env, DeliverStep(env, p, n, n, 3));
    }
  }

  lemma StopHeard(env: Env, s: Step)
    requires StepHeard(env, s)
    ensures StepHeard(env, Stop(s))
  {
  }

  lemma IterateHeard(env: Env, p: Parser)
    requires p.state <= 4 && p.window != "" && Accepted(env, p.events)
    ensures StepHeard(env, Iterate(env, p))
  {
    match p.state
    case 2 => HeaderLoopHeard(env, p);
    case 3 => BodyHeard(env, env.CrlfDashBoundary(), p);
    case _ =>
  }

  lemma {:induction false} RunHeard(env: Env, p: Parser)
    requires p.state <= 4 && Accepted(env, p.events)
    ensures RefusedLast(env, Run(env, p).0, Run(env, p).1)
    ensures Run(env, p).0 ==> Accepted(env, Run(env, p).1.events)
    decreases |p.window|, if p.state == 1 then 1 else 0
  {
    if p.window != "" {
      IterateHeard(env, p);
      if Iterate(env, p).More? {
        RunHeard(env, Iterate(env, p).p);
      }
    }
  }

  lemma {:induction false} FeedAllHeard(env: Env, p: Parser, chunks: seq<string>)
    requires p.state <= 4 && Accepted(env, p.events)
    ensures RefusedLast(env, FeedAll(env, p, chunks).0, FeedAll(env, p, chunks).1)
    decreases |chunks|
  {
    if chunks != [] {
      RunHeard(env, p.(window := p.window + chunks[0]));
      if Feed(env, p, chunks[0]).0 {
        FeedAllHeard(env, Feed(env, p, chunks[0]).1, chunks[1..]);
      }
    }
  }

  /**
   Whatever the text, its cut and the callbacks: after a call that is refused no callback is called, parse
   has returned false, and the parser is not valid.
   */
  lemma RefusalEnds(env: Env, chunks: seq<string>, k: nat)
    requires 0 < k <= |FeedAll(env, INITIAL, chunks).1.events|
    requires !env.accept(FeedAll(env, INITIAL, chunks).1.events[..k])
    ensures var (ok, p) := FeedAll(env, INITIAL, chunks);
            !ok && !p.valid && k == |p.events|
  {
    var es := FeedAll(env, INITIAL, chunks).1.events;
    assert k < |es| ==> es[..|es| - 1][..k] == es[..k];
    FeedAllHeard(env, INITIAL, chunks);
  }

  // ------------------------------------------------------- something else after a delimiter

  /**
   A delimiter followed by neither a line end nor two dashes is never refused: parse goes on returning true,
   calls nobody, never becomes valid, and keeps all that comes.
   */
  lemma {:induction false} OtherTextWaits(env: Env, p: Parser, chunks: seq<string>)
    requires p.state == 4 && |p.window| >= 2 && !OccursAt(p.window, CRLF, 0) && !OccursAt(p.window, DASH, 0)
    ensures FeedAll(env, p, chunks) == (true, p.(window := p.window + Flatten(chunks)))
    decreases |chunks|
  {
    if chunks == [] {
      assert p.window + [] == p.window;
    } else {
      var c, q := chunks[0], p.(window := p.window + chunks[0]);
      OccursInPrefix(p.window, c, CRLF, 0);
      OccursInPrefix(p.window, c, DASH, 0);
      assert Iterate(env, q) == Return(true, q) && Feed(env, p, c) == (true, q);
      OtherTextWaits(env, q, chunks[1..]);
      assert p.window + c + Flatten(chunks[1..]) == p.window + (c + Flatten(chunks[1..]));
    }
  }
}
