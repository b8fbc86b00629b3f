/** For every text there is a cut that the parser treats otherwise than the whole, unless `Steady` holds. */
module MultipartEveryCut {
  import opened Basics
  import opened Text
  import opened MultipartSpec
  import opened MultipartCuts
  import opened MultipartTrips

  // ----------------------------------------------------------------------- every cut

  /** Some cut of the window, the parser having nothing buffered, does not end as the whole does. */
  ghost predicate TellingCut(env: Env, p: Parser, chunks: seq<string>)
    requires p.state <= 4
  {
    && Flatten(chunks) == p.window
    && !SeenAlike(FeedAll(env, p.(window := ""), chunks), Run(env, p))
  }

  lemma {:induction false} CollectNeverShrinks(es: seq<Event>, more: seq<Event>)
    ensures |Collect(es)| <= |Collect(es + more)|
    decreases |more|
  {
    if more == [] {
      assert es + more == es;
    } else {
      var init := more[..|more| - 1];
      CollectNeverShrinks(es, init);
      assert es + more == (es + init) + [more[|more| - 1]];
      CollectLast(es + init, more[|more| - 1]);
    }
  }

  lemma {:induction false} HeaderLoopEvents(env: Env, p: Parser)
    requires AcceptsAll(env)
    ensures var s := HeaderLoop(env, p);
            if s.More? then |Collect(s.p.events)| == |Collect(p.events)| + 1 else s.p.events == p.events
    decreases |p.window|
  {
    var w, pos := p.window, Find(p.window, CRLF);
    if pos == |w| {
      HeaderLoopWaits(env, p);
    } else if pos == 0 {
      HeaderLoopAnnounces(env, p);
      CollectLast(p.events, Header(p.lines));
    } else {
      HeaderLoopReads(env, p, pos);
      if env.lineOk(w[..pos]) {
        HeaderLoopEvents(env, PastLine(p, pos));
      }
    }
  }

  lemma BodyEvents(env: Env, d: string, p: Parser)
    requires d != ""
    ensures p.events <= BodyUpTo(env, d, p).p.events
  {
  }

  lemma IterateEvents(env: Env, p: Parser)
    requires AcceptsAll(env) && p.state <= 4 && p.window != ""
    ensures |Collect(p.events)| <= |Collect(Iterate(env, p).p.events)|
  {
    var es := Iterate(env, p).p.events;
    match p.state
    case 2 => HeaderLoopEvents(env, p);
    case 3 =>
      BodyEvents(env, env.CrlfDashBoundary(), p);
      assert es == p.events + es[|p.events|..];
      CollectNeverShrinks(p.events, es[|p.events|..]);
    case _ =>
  }

  /** No entry is ever taken back. */
  lemma {:induction false} RunEvents(env: Env, p: Parser)
    requires AcceptsAll(env) && p.state <= 4
    ensures |Collect(p.events)| <= |Collect(Run(env, p).1.events)|
    decreases |p.window|, if p.state == 1 then 1 else 0
  {
    if p.window != "" {
      IterateEvents(env, p);
      if Iterate(env, p).More? {
        RunEvents(env, Iterate(env, p).p);
      }
    }
  }

  /** A long line in a block that is read as a whole. */
  lemma LongLineTells(env: Env, p: Parser) returns (chunks: seq<string>)
    requires AcceptsAll(env) && p.state == 2 && p.window != "" && !Tidy(env, p)
    ensures TellingCut(env, p, chunks)
  {
    HeaderTest(env, p);
    chunks := LongLineCut(env, p);
    if Iterate(env, p).More? {
      HeaderLoopEvents(env, p);
      RunEvents(env, Iterate(env, p).p);
    }
  }

  lemma FinalDelimiter(env: Env, p: Parser)
    requires p.state == 4 && OccursAt(p.window, DASH, 0)
    ensures Run(env, p) == (true, p.(window := "", valid := true))
  {
    var q := p.(window := "", valid := true);
    assert p.window[0..2][0] == '-';
    assert Iterate(env, p) == More(q) && Run(env, q) == (true, q);
  }

  /** Bytes behind the final delimiter, the last of them on its own. */
  lemma EpilogueTells(env: Env, p: Parser) returns (chunks: seq<string>)
    requires p.state == 4 && p.window != "" && !Tidy(env, p)
    ensures TellingCut(env, p, chunks)
  {
    var w, n := p.window, |p.window| - 1;
    var last := w[n..];
    chunks := [w[..n]] + [last];
    assert Flatten([last]) == last + "" == last && w[..n] + last == w;
    OccursInPrefix(w[..n], last, DASH, 0);
    assert "" + w[..n] == w[..n] && "" + last == last;
    var q := p.(window := "", valid := true);
    FinalDelimiter(env, p);
    FinalDelimiter(env, p.(window := w[..n]));
    FeedFirst(env, p.(window := ""), w[..n], [last], (true, q));
    assert Feed(env, q, last) == (true, q.(window := last));
    FeedFirst(env, q, last, [], (true, q.(window := last)));
    assert [last] + [] == [last];
  }

  lemma ConsumedFirst(env: Env, p: Parser, n: nat)
    requires p.state <= 4 && p.window != "" && Iterate(env, p).More? && Consumes(env, p, n)
    ensures Feed(env, p.(window := ""), p.window[..n]) == (true, Iterate(env, p).p.(window := ""))
  {
    var p' := p.(window := p.window[..n]);
    assert "" + p.window[..n] == p.window[..n];
    assert p'.window != "" && Run(env, p') == Run(env, Iterate(env, p').p);
  }

  /** State 1 takes nothing from the window. */
  lemma {:induction false} AfterStart(env: Env, p: Parser, q: Parser, chunks: seq<string>)
    requires p.state == 1 && p.window == "" && q == p.(lines := [], state := 2) && Flatten(chunks) != ""
    ensures FeedAll(env, p, chunks) == FeedAll(env, q, chunks)
    decreases |chunks|
  {
    var c := chunks[0];
    assert "" + c == c;
    if c == "" {
      assert Feed(env, p, c) == (true, p) && Feed(env, q, c) == (true, q);
      AfterStart(env, p, q, chunks[1..]);
    }
  }

  lemma {:induction false} UnsteadyTells(env: Env, p: Parser) returns (chunks: seq<string>)
    requires AcceptsAll(env) && p.state <= 4 && !Steady(env, p)
    ensures TellingCut(env, p, chunks)
    decreases |p.window|, if p.state == 1 then 1 else 0
  {
    if !Tidy(env, p) {
      if p.state == 2 {
        chunks := LongLineTells(env, p);
      } else {
        chunks := EpilogueTells(env, p);
      }
    } else {
      var q := Iterate(env, p).p;
      var rest := UnsteadyTells(env, q);
      if p.state == 1 {
        chunks := rest;
        AfterStart(env, p.(window := ""), q.(window := ""), rest);
      } else {
        var n := StepAlone(env, p);
        chunks := [p.window[..n]] + rest;
        ConsumedFirst(env, p, n);
        FeedFirst(env, p.(window := ""), p.window[..n], rest, (true, q.(window := "")));
        InFront(p.window, n);
      }
    }
  }

  /**
   Independence of the cut, for every text, whoever wrote it: each cut gives what the whole gives in one
   call exactly when one call meets no header line that reaches the limit, in a block it does not refuse
   anyway, and no bytes behind the final delimiter.
   */
  lemma CutIndependent(env: Env, text: string)
    requires AcceptsAll(env)
    ensures (forall chunks :: Flatten(chunks) == text ==>
               SeenAlike(FeedAll(env, INITIAL, chunks), Feed(env, INITIAL, text)))
            <==> Steady(env, INITIAL.(window := text))
  {
    var p := INITIAL.(window := text);
    assert "" + text == text && p.(window := "") == INITIAL;
    if Steady(env, p) {
      forall chunks: seq<string> | Flatten(chunks) == text
        ensures SeenAlike(FeedAll(env, INITIAL, chunks), Feed(env, INITIAL, text))
      {
        if chunks != [] {
          CutFrom(env, INITIAL, chunks);
        }
      }
    } else {
      var chunks := UnsteadyTells(env, p);
      assert Flatten(chunks) == text && !SeenAlike(FeedAll(env, INITIAL, chunks), Feed(env, INITIAL, text));
    }
  }

  // ------------------------------------------------------------------------ an instance

  /** An entry without header lines and content, up to its closing delimiter. */
  function EmptyEntry(env: Env): string { env.DashBoundaryCrlf() + (CRLF + env.CrlfDashBoundary()) }

  /** Behind the empty entry. */
  const CLOSED := Parser(4, false, [], "", [Header([]), Content("")])

  lemma FindAtFront(pat: string, t: string)
    requires pat != ""
    ensures Find(pat + t, pat) == 0 && (pat + t)[|pat|..] == t
  {
    FindIs(pat + t, pat, 0);
  }

  lemma StartOfEntry(env: Env, t: string)
    ensures Run(env, INITIAL.(window := env.DashBoundaryCrlf() + t)) == Run(env, INITIAL.(window := t, state := 1))
  {
    FindAtFront(env.DashBoundaryCrlf(), t);
  }

  lemma EmptyHeaders(env: Env, p: Parser, t: string)
    requires AcceptsAll(env) && p.state == 1 && p.window == CRLF + t
    ensures Run(env, p) == Run(env, p.(window := t, state := 3, lines := [], events := p.events + [Header([])]))
  {
    var q := p.(state := 2, lines := []);
    FindAtFront(CRLF, t);
    HeaderTest(env, q);
    HeaderLoopAnnounces(env, q);
    assert Run(env, p) == Run(env, q);
  }

  lemma EmptyContent(env: Env, p: Parser, t: string)
    requires AcceptsAll(env) && p.state == 3 && p.window == env.CrlfDashBoundary() + t
    ensures Run(env, p) == Run(env, p.(window := t, state := 4, events := p.events + [Content("")]))
  {
    var d := env.CrlfDashBoundary();
    FindAtFront(d, t);
    BodyFound(env, d, p, 0);
  }

  lemma EntryCloses(env: Env, t: string)
    requires AcceptsAll(env)
    ensures Run(env, INITIAL.(window := EmptyEntry(env) + t)) == Run(env, CLOSED.(window := t))
  {
    var d := env.CrlfDashBoundary();
    var body, block := d + t, CRLF + (d + t);
    EntryText(env.DashBoundaryCrlf(), CRLF, d, t);
    StartOfEntry(env, block);
    EmptyHeaders(env, INITIAL.(window := block, state := 1), body);
    assert [] + [Header([])] == [Header([])];
    EmptyContent(env, INITIAL.(window := body, state := 3, events := [Header([])]), t);
    assert [Header([])] + [Content("")] == CLOSED.events;
  }

  lemma EntryText(a: string, b: string, c: string, t: string)
    ensures a + (b + c) + t == a + (b + (c + t))
  {
  }

  /** What follows the final delimiter is dropped in the same call, and a further entry in the next. */
  lemma EpilogueAnnounced(env: Env)
    requires AcceptsAll(env)
    ensures var (ok, p) := Feed(env, INITIAL, EmptyEntry(env) + DASH + CRLF + CRLF);
            ok && p.valid && Collect(p.events) == [Part([], "")]
    ensures var (ok, p) := FeedAll(env, INITIAL, [EmptyEntry(env) + DASH, CRLF + CRLF]);
            ok && p.valid && Collect(p.events) == [Part([], ""), Part([], "")]
  {
    var closed := CLOSED.(valid := true);
    var first := EmptyEntry(env) + DASH;
    assert first + CRLF + CRLF == EmptyEntry(env) + (DASH + CRLF + CRLF);
    assert "" + first == first && "" + (first + CRLF + CRLF) == first + CRLF + CRLF;
    EntryCloses(env, DASH + CRLF + CRLF);
    EntryCloses(env, DASH);
    FinalDelimiter(env, CLOSED.(window := DASH + CRLF + CRLF));
    FinalDelimiter(env, CLOSED.(window := DASH));
    FeedFirst(env, INITIAL, first, [CRLF + CRLF], (true, closed));
    EpilogueEntry(env, closed);
    FeedFirst(env, closed, CRLF + CRLF, [], Feed(env, closed, CRLF + CRLF));
    assert [first] + [CRLF + CRLF] == [first, CRLF + CRLF] && [CRLF + CRLF] + [] == [CRLF + CRLF];
    EntriesSeen(CLOSED.events);
  }

  lemma EmptyParts(es: seq<Event>)
    ensures Collect(es + [Header([])] + [Content("")]) == Collect(es) + [Part([], "")]
    ensures Collect(es + [Header([])] + [Content("")] + [Header([])]) == Collect(es) + [Part([], ""), Part([], "")]
  {
    CollectLast(es, Header([]));
    CollectLast(es + [Header([])], Content(""));
    assert "" + "" == "";
    CollectLast(es + [Header([])] + [Content("")], Header([]));
  }

  lemma EntriesSeen(es: seq<Event>)
    requires es == CLOSED.events
    ensures Collect(es) == [Part([], "")] && Collect(es + [Header([])]) == [Part([], ""), Part([], "")]
  {
    EmptyParts([]);
    assert es == [] + [Header([])] + [Content("")];
  }

  lemma EpilogueEntry(env: Env, p: Parser)
    requires AcceptsAll(env) && p.state == 4 && p.window == ""
    ensures var r := Feed(env, p, CRLF + CRLF);
            r.0 && r.1.valid == p.valid && r.1.events == p.events + [Header([])]
  {
    var p' := p.(window := CRLF + CRLF);
    assert "" + (CRLF + CRLF) == CRLF + CRLF;
    FindAtFront(CRLF, CRLF);
    assert Run(env, p') == Run(env, p'.(window := CRLF, state := 1));
    assert CRLF + "" == CRLF;
    EmptyHeaders(env, p'.(window := CRLF, state := 1), "");
  }
}
