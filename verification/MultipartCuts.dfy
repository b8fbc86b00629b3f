/**
 The parser on any text, whoever wrote it: what a cut makes of it.

 `Steady` says that one call on the whole text meets nothing that makes a difference: no header line
 that reaches the limit, unless its block is refused anyway, and no bytes behind the final delimiter.

 A trip over a longer window does the same as over a shorter one, or goes on where that one waits
 (`StepGrows`); what was handed out in two pieces instead of one cannot be told from the entries
 (`Same`, `RunSame`).  So stopping after any part of a steady text and going on with the rest ends as
 one call on the whole does (`Resume`), and so does every cut (`CutFrom`).
 */
module MultipartCuts {
  import opened Basics
  import opened Text
  import opened MultipartSpec

  /** The parser with more bytes buffered. */
  function Plus(p: Parser, b: string): Parser { p.(window := p.window + b) }

  /** A parser with the entries it has announced instead of the calls that announced them. */
  ghost function Seen(p: Parser): (Parser, seq<Part>) { (p.(events := []), Collect(p.events)) }

  /** Parsers that have announced the same entries and will go on alike. */
  ghost predicate Same(p: Parser, q: Parser) { Seen(p) == Seen(q) }

  ghost predicate Alike(r: (bool, Parser), r': (bool, Parser)) { r.0 == r'.0 && Same(r.1, r'.1) }

  /** Every header line is shorter than the limit, and an unfinished one not longer than it. */
  ghost predicate LinesShort(w: string)
    decreases |w|
  {
    var pos := Find(w, CRLF);
    if pos == |w| then pos <= HEADER_MAX_LENGTH
    else pos < HEADER_MAX_LENGTH && (pos > 0 ==> LinesShort(w[pos + 2..]))
  }

  /**
   Nothing in the way of one trip: header lines are short unless the block is refused anyway, and there are
   no bytes behind the final delimiter.
   */
  ghost predicate Tidy(env: Env, p: Parser)
    requires p.state <= 4 && p.window != ""
  {
    match p.state
    case 2 => LinesShort(p.window) || Refused(Iterate(env, p))
    case 4 => OccursAt(p.window, DASH, 0) ==> |p.window| == 2
    case _ => true
  }

  predicate Refused(s: Step) { s.Return? && !s.ok }

  /** A text that one call gets through without meeting a long header line or bytes behind the final delimiter. */
  ghost predicate Steady(env: Env, p: Parser)
    requires p.state <= 4
    decreases |p.window|, if p.state == 1 then 1 else 0
  {
    p.window == "" || (Tidy(env, p) && (Iterate(env, p).More? ==> Steady(env, Iterate(env, p).p)))
  }

  /** What a caller can see of the result: the verdict, the entries, and where the parser is if it goes on. */
  ghost predicate SeenAlike(r: (bool, Parser), r': (bool, Parser)) {
    && r.0 == r'.0 && r.1.valid == r'.1.valid && Collect(r.1.events) == Collect(r'.1.events)
    && (r.0 ==> Same(r.1, r'.1))
  }

  // ------------------------------------------------------------ searching in longer text

  lemma FindGrows(w: string, b: string, pat: string)
    requires pat != "" && Find(w, pat) < |w|
    ensures Find(w + b, pat) == Find(w, pat)
  {
    var i := Find(w, pat);
    OccursInPrefix(w, b, pat, i);
    forall j | 0 <= j < i
      ensures !OccursAt(w + b, pat, j)
    {
      OccursInPrefix(w, b, pat, j);
    }
    FindIs(w + b, pat, i);
  }

  lemma OccursInSuffix(s: string, k: nat, pat: string, i: nat)
    requires k <= |s|
    ensures OccursAt(s[k..], pat, i) <==> OccursAt(s, pat, k + i)
  {
    if k + i + |pat| <= |s| {
      assert s[k..][i..i + |pat|] == s[k + i..k + i + |pat|];
    }
  }

  /** A text without the pattern can lose all but the pattern's length; what is found later is found there. */
  lemma FindLater(w: string, b: string, pat: string, k: nat)
    requires pat != "" && Find(w, pat) == |w| && k + |pat| == |w|
    ensures var s := w + b;
            if Find(s, pat) < |s| then k < Find(s, pat) && Find(s[k..], pat) == Find(s, pat) - k
            else Find(s[k..], pat) == |s| - k
  {
    var s := w + b;
    var i := Find(s, pat);
    if i < |s| {
      OccursInPrefix(w, b, pat, i);
      OccursInSuffix(s, k, pat, i - k);
      forall j | 0 <= j < i - k
        ensures !OccursAt(s[k..], pat, j)
      {
        OccursInSuffix(s, k, pat, j);
      }
      FindIs(s[k..], pat, i - k);
    } else {
      forall j | 0 <= j < |s| - k
        ensures !OccursAt(s[k..], pat, j)
      {
        OccursInSuffix(s, k, pat, j);
      }
      FindNone(s[k..], pat);
    }
  }

  // ------------------------------------------------------- same entries, same future

  /** What one more event makes of the entries. */
  function Collected(parts: seq<Part>, e: Event): seq<Part> {
    match e
    case Header(lines) => parts + [Part(lines, "")]
    case Content(data) =>
      if parts == [] then []
      else
        var last := parts[|parts| - 1];
        parts[..|parts| - 1] + [last.(content := last.content + data)]
  }

  lemma CollectLast(es: seq<Event>, e: Event)
    ensures Collect(es + [e]) == Collected(Collect(es), e)
  {
    assert (es + [e])[..|es|] == es;
  }

  lemma CollectSame(es: seq<Event>, es': seq<Event>, e: Event)
    requires Collect(es) == Collect(es')
    ensures Collect(es + [e]) == Collect(es' + [e])
  {
    CollectLast(es, e);
    CollectLast(es', e);
  }

  /** Content may come in one piece or in two. */
  lemma CollectSplit(es: seq<Event>, a: string, b: string)
    ensures Collect(es + [Content(a)] + [Content(b)]) == Collect(es + [Content(a + b)])
  {
    CollectLast(es, Content(a + b));
    CollectLast(es, Content(a));
    CollectLast(es + [Content(a)], Content(b));
    if Collect(es) != [] {
      var last := Collect(es)[|Collect(es)| - 1];
      assert last.content + (a + b) == last.content + a + b;
    }
  }

  ghost function SeenStep(s: Step): (bool, bool, (Parser, seq<Part>)) { (s.More?, s.More? || s.ok, Seen(s.p)) }

  ghost predicate SameStep(s: Step, s': Step) { SeenStep(s) == SeenStep(s') }

  lemma EmitSame(env: Env, p: Parser, q: Parser, e: Event, next: Parser, next': Parser)
    requires AcceptsAll(env) && Same(p, q)
    requires Same(next.(events := []), next'.(events := []))
    ensures SameStep(Emit(env, p, e, next), Emit(env, q, e, next'))
  {
    CollectSame(p.events, q.events, e);
  }

  lemma {:induction false} HeaderLoopSame(env: Env, p: Parser, q: Parser)
    requires AcceptsAll(env) && Same(p, q)
    ensures SameStep(HeaderLoop(env, p), HeaderLoop(env, q))
    decreases |p.window|
  {
    var w, pos := p.window, Find(p.window, CRLF);
    if pos == |w| {
    } else if pos == 0 {
      HeaderLoopAnnounces(env, p);
      HeaderLoopAnnounces(env, q);
      EmitSame(env, p, q, Header(p.lines), p.(window := w[2..], state := 3), q.(window := w[2..], state := 3));
    } else {
      HeaderLoopReads(env, p, pos);
      HeaderLoopReads(env, q, pos);
      if env.lineOk(w[..pos]) {
        HeaderLoopSame(env, p.(lines := p.lines + [w[..pos]], window := w[pos + 2..]),
                       q.(lines := q.lines + [w[..pos]], window := w[pos + 2..]));
      }
    }
  }

  lemma DeliverSame(env: Env, p: Parser, q: Parser, len: nat, skip: nat, next: nat)
    requires AcceptsAll(env) && Same(p, q) && len <= skip <= |p.window|
    ensures SameStep(DeliverStep(env, p, len, skip, next), DeliverStep(env, q, len, skip, next))
  {
    EmitSame(env, p, q, Content(p.window[..len]), p.(window := p.window[skip..], state := next),
             q.(window := q.window[skip..], state := next));
  }

  lemma StopSame(s: Step, s': Step)
    requires SameStep(s, s')
    ensures SameStep(Stop(s), Stop(s'))
  {
  }

  lemma BodyHandsOut(env: Env, d: string, p: Parser, n: nat)
    requires d != "" && 0 < n && n + |d| == |p.window| == Find(p.window, d)
    ensures BodyUpTo(env, d, p) == Stop(DeliverStep(env, p, n, n, 3))
  {
    BodyHeld(env, d, p);
  }

  lemma HeldSame(env: Env, d: string, p: Parser, q: Parser, n: nat, n': nat)
    requires d != "" && 0 < n && n + |d| == |p.window| == Find(p.window, d)
    requires 0 < n' && n' + |d| == |q.window| == Find(q.window, d)
    requires SameStep(DeliverStep(env, p, n, n, 3), DeliverStep(env, q, n', n', 3))
    ensures SameStep(BodyUpTo(env, d, p), BodyUpTo(env, d, q))
  {
    BodyHandsOut(env, d, p, n);
    BodyHandsOut(env, d, q, n');
    StopSame(DeliverStep(env, p, n, n, 3), DeliverStep(env, q, n', n', 3));
  }

  lemma FoundSame(env: Env, d: string, p: Parser, q: Parser, i: nat, i': nat)
    requires d != "" && |d| <= |p.window| && i == Find(p.window, d) < |p.window| && i + |d| <= |p.window|
    requires |d| <= |q.window| && i' == Find(q.window, d) < |q.window| && i' + |d| <= |q.window|
    requires SameStep(DeliverStep(env, p, i, i + |d|, 4), DeliverStep(env, q, i', i' + |d|, 4))
    ensures SameStep(BodyUpTo(env, d, p), BodyUpTo(env, d, q))
  {
    BodyFound(env, d, p, i);
    BodyFound(env, d, q, i');
  }

  lemma BodySame(env: Env, d: string, p: Parser, q: Parser)
    requires AcceptsAll(env) && Same(p, q) && d != ""
    ensures SameStep(BodyUpTo(env, d, p), BodyUpTo(env, d, q))
  {
    if |d| > |p.window| {
      BodyShort(env, d, p);
      BodyShort(env, d, q);
    } else if Find(p.window, d) < |p.window| {
      var i := Find(p.window, d);
      DeliverSame(env, p, q, i, i + |d|, 4);
      FoundSame(env, d, p, q, i, i);
    } else if |d| == |p.window| {
      BodyHeld(env, d, p);
      BodyHeld(env, d, q);
    } else {
      var n := |p.window| - |d|;
      DeliverSame(env, p, q, n, n, 3);
      HeldSame(env, d, p, q, n, n);
    }
  }

  lemma IterateSame(env: Env, p: Parser, q: Parser)
    requires AcceptsAll(env) && Same(p, q) && p.state <= 4 && p.window != ""
    ensures SameStep(Iterate(env, p), Iterate(env, q))
  {
    match p.state
    case 2 => HeaderLoopSame(env, p, q);
    case 3 => BodySame(env, env.CrlfDashBoundary(), p, q);
    case _ =>
  }

  lemma {:induction false} RunSame(env: Env, p: Parser, q: Parser)
    requires AcceptsAll(env) && Same(p, q) && p.state <= 4
    ensures Alike(Run(env, p), Run(env, q))
    ensures Steady(env, p) ==> Steady(env, q)
    decreases |p.window|, if p.state == 1 then 1 else 0
  {
    if p.window != "" {
      IterateSame(env, p, q);
      if Iterate(env, p).More? {
        RunSame(env, Iterate(env, p).p, Iterate(env, q).p);
      }
    }
  }

  // ------------------------------------------------------------------ the header state

  /** A longer window: the same lines are read, and where the shorter one makes the loop wait it goes on. */
  ghost predicate HeaderGrown(env: Env, p: Parser, b: string, s: Step, s': Step) {
    match s
    case More(q) => s' == More(Plus(q, b))
    case Return(ok, q) =>
      if ok then s' == HeaderLoop(env, Plus(q, b)) && q.state == p.state else s' == Return(false, Plus(q, b))
  }

  lemma {:induction false} HeaderGrows(env: Env, p: Parser, b: string)
    ensures HeaderGrown(env, p, b, HeaderLoop(env, p), HeaderLoop(env, Plus(p, b)))
    decreases |p.window|
  {
    var w, pos := p.window, Find(p.window, CRLF);
    if pos == |w| {
      HeaderLoopWaits(env, p);
    } else {
      FindGrows(w, b, CRLF);
      assert (w + b)[pos + 2..] == w[pos + 2..] + b && (w + b)[..pos] == w[..pos];
      if pos == 0 {
        HeaderLoopAnnounces(env, p);
        HeaderLoopAnnounces(env, Plus(p, b));
      } else {
        HeaderLoopReads(env, p, pos);
        HeaderLoopReads(env, Plus(p, b), pos);
        if env.lineOk(w[..pos]) {
          HeaderGrows(env, p.(lines := p.lines + [w[..pos]], window := w[pos + 2..]), b);
        }
      }
    }
  }

  /** No beginning of a block of short lines starts with a line over the limit. */
  lemma FirstLineShort(w: string, b: string)
    requires LinesShort(w + b)
    ensures Find(w, CRLF) <= HEADER_MAX_LENGTH
  {
    if Find(w, CRLF) == |w| {
      NotPastCrlf(w, b);
    } else {
      FindGrows(w, b, CRLF);
    }
  }

  lemma LaterLinesShort(w: string, b: string, pos: nat)
    requires LinesShort(w + b) && 0 < pos == Find(w, CRLF) < |w|
    ensures LinesShort(w[pos + 2..] + b)
  {
    FindGrows(w, b, CRLF);
    assert (w + b)[pos + 2..] == w[pos + 2..] + b;
  }

  /** Where the loop waits, short lines are left. */
  lemma {:induction false} LinesStayShort(env: Env, p: Parser, b: string)
    requires LinesShort(p.window + b) && HeaderLoop(env, p).Return? && HeaderLoop(env, p).ok
    ensures LinesShort(HeaderLoop(env, p).p.window + b)
    decreases |p.window|
  {
    var w, pos := p.window, Find(p.window, CRLF);
    if pos == |w| {
      HeaderLoopWaits(env, p);
    } else if pos == 0 {
      HeaderLoopAnnounces(env, p);
    } else {
      HeaderLoopReads(env, p, pos);
      LaterLinesShort(w, b, pos);
      LinesStayShort(env, p.(lines := p.lines + [w[..pos]], window := w[pos + 2..]), b);
    }
  }

  /** Bytes without CRLF reach at most to the CR of the next one. */
  lemma NotPastCrlf(w: string, b: string)
    requires Find(w, CRLF) == |w|
    ensures |w| <= Find(w + b, CRLF) + 1
  {
    var i := Find(w + b, CRLF);
    if i < |w + b| {
      OccursInPrefix(w, b, CRLF, i);
    }
  }

  // -------------------------------------------------------------------- the body state

  /** `later` is `whole` after its first `k` bytes have been handed out. */
  predicate HandedOut(whole: Parser, later: Parser, k: nat) {
    && k <= |whole.window|
    && later == whole.(window := whole.window[k..], events := whole.events + [Content(whole.window[..k])])
  }

  /** Handing out `i` bytes at once, or first `k` of them and then the rest. */
  lemma TwoPieces(env: Env, whole: Parser, later: Parser, k: nat, i: nat, skip: nat, next: nat)
    requires AcceptsAll(env) && HandedOut(whole, later, k) && k <= i <= skip <= |whole.window|
    ensures SameStep(DeliverStep(env, whole, i, skip, next), DeliverStep(env, later, i - k, skip - k, next))
  {
    var s := whole.window;
    CollectSplit(whole.events, s[..k], s[k..i]);
    InTwo(s, k, i, skip);
    var q := whole.(window := s[skip..], state := next);
    assert DeliverStep(env, whole, i, skip, next) == More(q.(events := whole.events + [Content(s[..i])]));
    assert DeliverStep(env, later, i - k, skip - k, next)
        == More(q.(events := whole.events + [Content(s[..k])] + [Content(s[k..i])]));
  }

  lemma InTwo(s: string, k: nat, i: nat, skip: nat)
    requires k <= i <= skip <= |s|
    ensures s[..k] + s[k..i] == s[..i] && s[k..][..i - k] == s[k..i] && s[k..][skip - k..] == s[skip..]
  {
  }

  lemma FoundResumes(env: Env, whole: Parser, later: Parser, k: nat, d: string)
    requires AcceptsAll(env) && HandedOut(whole, later, k) && d != "" && k + |d| <= |whole.window|
    requires k < Find(whole.window, d) < |whole.window| && Find(later.window, d) == Find(whole.window, d) - k
    ensures SameStep(BodyUpTo(env, d, whole), BodyUpTo(env, d, later))
  {
    var i := Find(whole.window, d);
    TwoPieces(env, whole, later, k, i, i + |d|, 4);
    FoundSame(env, d, whole, later, i, i - k);
  }

  lemma HeldResumes(env: Env, whole: Parser, later: Parser, k: nat, d: string)
    requires AcceptsAll(env) && HandedOut(whole, later, k) && d != "" && 0 < k && k + |d| < |whole.window|
    requires Find(whole.window, d) == |whole.window| && Find(later.window, d) == |later.window|
    ensures SameStep(BodyUpTo(env, d, whole), BodyUpTo(env, d, later))
  {
    var n := |whole.window| - |d|;
    TwoPieces(env, whole, later, k, n, n, 3);
    HeldSame(env, d, whole, later, n, n - k);
  }

  lemma HeldAgain(env: Env, whole: Parser, later: Parser, k: nat, d: string)
    requires AcceptsAll(env) && HandedOut(whole, later, k) && d != "" && 0 < k && k + |d| == |whole.window|
    requires Find(whole.window, d) == |whole.window| && Find(later.window, d) == |later.window|
    requires whole.state == 3
    ensures SameStep(BodyUpTo(env, d, whole), BodyUpTo(env, d, later))
  {
    BodyHeld(env, d, whole);
    BodyHeld(env, d, later);
    OnePiece(env, whole, later, k);
  }

  lemma OnePiece(env: Env, whole: Parser, later: Parser, k: nat)
    requires AcceptsAll(env) && HandedOut(whole, later, k) && whole.state == 3
    ensures DeliverStep(env, whole, k, k, 3) == More(later)
  {
  }

  lemma KeptText(w: string, b: string, k: nat)
    requires k <= |w|
    ensures w[k..] + b == (w + b)[k..] && w[..k] == (w + b)[..k]
  {
  }

  /** The body state has handed out the first `k` bytes of a window without delimiter and kept the rest. */
  lemma BodyResumes(env: Env, p: Parser, q: Parser, b: string, k: nat, d: string)
    requires AcceptsAll(env) && p.state == 3 && d != "" && k > 0 && HandedOut(p, q, k)
    requires Find(p.window, d) == |p.window| == k + |d|
    ensures SameStep(BodyUpTo(env, d, Plus(p, b)), BodyUpTo(env, d, Plus(q, b)))
  {
    var whole, later := Plus(p, b), Plus(q, b);
    FindLater(p.window, b, d, k);
    KeptText(p.window, b, k);
    if Find(whole.window, d) < |whole.window| {
      FoundResumes(env, whole, later, k, d);
    } else if b == "" {
      HeldAgain(env, whole, later, k, d);
    } else {
      HeldResumes(env, whole, later, k, d);
    }
  }

  // -------------------------------------------------------------- one call, or two

  /** A parser that waits with a text that goes on: later it does what it would have done with all of it. */
  ghost predicate Resumes(env: Env, p: Parser, q: Parser, b: string)
    requires p.state <= 4 && q.state <= 4
  {
    && Steady(env, Plus(q, b)) && SeenAlike(Run(env, Plus(q, b)), Run(env, Plus(p, b)))
    && (q.valid ==> q.window + b == "")
  }

  /** A refusal without a callback. */
  ghost predicate Refuses(p: Parser, s: Step) { Refused(s) && !s.p.valid && s.p.events == p.events }

  /** What a trip has to do with the same trip over a longer window. */
  ghost predicate Grown(env: Env, p: Parser, b: string, s: Step, s': Step)
    requires p.state <= 4 && s.p.state <= 4
  {
    match s
    case More(q) => s' == More(Plus(q, b)) && (q.valid ==> q.window + b == "")
    case Return(ok, q) => if ok then Resumes(env, p, q, b) else Refuses(p, s) && Refuses(p, s')
  }

  // header lines

  /** Waiting or refusing, the loop has called nobody. */
  lemma {:induction false} HeaderLoopQuiet(env: Env, p: Parser)
    requires AcceptsAll(env) && !p.valid
    ensures !HeaderLoop(env, p).p.valid
    ensures HeaderLoop(env, p).Return? ==> HeaderLoop(env, p).p.events == p.events
    decreases |p.window|
  {
    var w, pos := p.window, Find(p.window, CRLF);
    if pos == |w| {
      HeaderLoopWaits(env, p);
    } else if pos == 0 {
      HeaderLoopAnnounces(env, p);
    } else {
      HeaderLoopReads(env, p, pos);
      if env.lineOk(w[..pos]) {
        HeaderLoopQuiet(env, p.(lines := p.lines + [w[..pos]], window := w[pos + 2..]));
      }
    }
  }

  lemma HeaderTest(env: Env, p: Parser)
    requires p.state == 2 && p.window != ""
    ensures Iterate(env, p) == if Find(p.window, CRLF) > HEADER_MAX_LENGTH then Return(false, p) else HeaderLoop(env, p)
  {
  }

  lemma HeaderQuiet(env: Env, p: Parser)
    requires AcceptsAll(env) && p.state == 2 && p.window != "" && !p.valid && Iterate(env, p).Return?
    ensures var q := Iterate(env, p).p; q.events == p.events && !q.valid
  {
    HeaderTest(env, p);
    if Find(p.window, CRLF) <= HEADER_MAX_LENGTH {
      HeaderLoopQuiet(env, p);
    }
  }

  /** With short lines the test for a long one never fails. */
  lemma HeaderIterate(env: Env, p: Parser)
    requires p.state == 2 && p.window != "" && LinesShort(p.window)
    ensures Iterate(env, p) == HeaderLoop(env, p)
  {
  }

  lemma HeaderResumes(env: Env, p: Parser, q: Parser, b: string)
    requires p.state == 2 && p.window != "" && Steady(env, Plus(p, b)) && LinesShort(p.window + b) && !q.valid
    requires q == Iterate(env, p).p && Iterate(env, p) == HeaderLoop(env, p) == Return(true, q)
    ensures q.state == 2 && Resumes(env, p, q, b)
  {
    LinesStayShort(env, p, b);
    HeaderGrows(env, p, b);
    if q.window + b == "" {
      assert p.window + b == p.window && q.window + b == q.window;
      assert Plus(p, b) == p && Plus(q, b) == q;
    } else {
      HeaderIterate(env, Plus(p, b));
      HeaderIterate(env, Plus(q, b));
      NextAlike(env, Plus(p, b), Plus(q, b));
    }
  }

  lemma NextAlike(env: Env, p: Parser, q: Parser)
    requires p.state <= 4 && q.state <= 4 && p.window != "" && q.window != "" && Iterate(env, p) == Iterate(env, q)
    requires Steady(env, p) && Tidy(env, q)
    ensures Steady(env, q) && SeenAlike(Run(env, q), Run(env, p))
  {
  }

  /** A block of short lines. */
  lemma ShortHeadersGrow(env: Env, p: Parser, b: string)
    requires AcceptsAll(env) && p.state == 2 && p.window != "" && !p.valid
    requires Steady(env, Plus(p, b)) && LinesShort(p.window + b)
    ensures Grown(env, p, b, Iterate(env, p), Iterate(env, Plus(p, b)))
  {
    FirstLineShort(p.window, b);
    HeaderTest(env, p);
    HeaderIterate(env, Plus(p, b));
    HeaderGrows(env, p, b);
    if Iterate(env, p).Return? {
      HeaderQuiet(env, p);
      if Iterate(env, p).ok {
        HeaderResumes(env, p, Iterate(env, p).p, b);
      } else {
        HeaderQuiet(env, Plus(p, b));
      }
    } else {
      HeaderLoopQuiet(env, p);
    }
  }

  lemma RefusedLater(env: Env, q: Parser)
    requires q.state == 2 && Refused(HeaderLoop(env, q))
    ensures q.window != "" && Refused(Iterate(env, q))
  {
    if q.window == "" {
      HeaderLoopWaits(env, q);
    }
  }

  /** If the whole block is refused, the part of it that has arrived is refused or waits to be. */
  lemma PartRefused(env: Env, p: Parser, b: string)
    requires p.state == 2 && p.window != "" && Refused(Iterate(env, Plus(p, b)))
    ensures var s := Iterate(env, p);
            Refused(s) || (s.Return? && s.p.state == 2 && s.p.window + b != "" && Refused(Iterate(env, Plus(s.p, b))))
  {
    var w := p.window;
    HeaderTest(env, p);
    HeaderTest(env, Plus(p, b));
    if Find(w, CRLF) <= HEADER_MAX_LENGTH < Find(w + b, CRLF) {
      if Find(w, CRLF) < |w| {
        FindGrows(w, b, CRLF);
      }
      HeaderLoopWaits(env, p);
    } else if Find(w, CRLF) <= HEADER_MAX_LENGTH {
      HeaderGrows(env, p, b);
      if !Refused(HeaderLoop(env, p)) {
        RefusedLater(env, Plus(HeaderLoop(env, p).p, b));
      }
    }
  }

  /** A block that is refused, whatever its lines. */
  lemma RefusedHeadersGrow(env: Env, p: Parser, b: string)
    requires AcceptsAll(env) && p.state == 2 && p.window != "" && !p.valid && Refused(Iterate(env, Plus(p, b)))
    ensures Grown(env, p, b, Iterate(env, p), Iterate(env, Plus(p, b)))
  {
    PartRefused(env, p, b);
    HeaderQuiet(env, p);
    HeaderQuiet(env, Plus(p, b));
    var q := Iterate(env, p).p;
    if Iterate(env, p).ok {
      HeaderQuiet(env, Plus(q, b));
    }
  }

  lemma HeadersGrow(env: Env, p: Parser, b: string)
    requires AcceptsAll(env) && p.state == 2 && p.window != "" && !p.valid && Steady(env, Plus(p, b))
    ensures Grown(env, p, b, Iterate(env, p), Iterate(env, Plus(p, b)))
  {
    if LinesShort(p.window + b) {
      ShortHeadersGrow(env, p, b);
    } else {
      RefusedHeadersGrow(env, p, b);
    }
  }

  // the other states

  lemma BodyReturns(env: Env, d: string, p: Parser)
    requires AcceptsAll(env) && d != "" && |d| <= |p.window| && BodyUpTo(env, d, p).Return?
    ensures Find(p.window, d) == |p.window|
  {
  }

  lemma BodyWaits(env: Env, p: Parser, b: string)
    requires AcceptsAll(env) && p.state == 3 && p.window != "" && !p.valid && Steady(env, Plus(p, b))
    requires Iterate(env, p).Return?
    ensures Iterate(env, p).ok && Resumes(env, p, Iterate(env, p).p, b)
  {
    var d, w, q := env.CrlfDashBoundary(), p.window, Iterate(env, p).p;
    if |d| > |w| {
      BodyShort(env, d, p);
    } else {
      BodyReturns(env, d, p);
      BodyHeld(env, d, p);
      var k := |w| - |d|;
      if k > 0 {
        OnePiece(env, p, p.(window := w[k..], events := p.events + [Content(w[..k])]), k);
        BodyResumes(env, p, q, b, k, d);
        StepAlike(env, Plus(p, b), Plus(q, b));
      }
    }
  }

  /** Parsers whose next trips end alike run alike. */
  lemma StepAlike(env: Env, p: Parser, q: Parser)
    requires AcceptsAll(env) && p.state <= 4 && q.state == p.state && p.window != "" && q.window != ""
    requires SameStep(Iterate(env, p), Iterate(env, q)) && Steady(env, p) && Tidy(env, q)
    ensures Steady(env, q) && SeenAlike(Run(env, q), Run(env, p))
  {
    if Iterate(env, p).More? {
      RunSame(env, Iterate(env, p).p, Iterate(env, q).p);
    }
  }

  lemma StepGrows(env: Env, p: Parser, b: string)
    requires AcceptsAll(env) && p.state <= 4 && p.window != "" && !p.valid && Steady(env, Plus(p, b))
    ensures Grown(env, p, b, Iterate(env, p), Iterate(env, Plus(p, b)))
  {
    match p.state
    case 0 => StartGrows(env, p, b);
    case 1 =>
    case 2 => HeadersGrow(env, p, b);
    case 3 =>
      if Iterate(env, p).More? {
        BodyGrows(env, p, b);
      } else {
        BodyWaits(env, p, b);
      }
    case _ => DelimiterGrows(env, p, b);
  }

  lemma StartGrows(env: Env, p: Parser, b: string)
    requires p.state == 0 && p.window != "" && !p.valid && Steady(env, Plus(p, b))
    ensures Grown(env, p, b, Iterate(env, p), Iterate(env, Plus(p, b)))
  {
    var d, w := env.DashBoundaryCrlf(), p.window;
    if Find(w, d) < |w| {
      FindGrows(w, b, d);
      assert (w + b)[Find(w, d) + |d|..] == w[Find(w, d) + |d|..] + b;
    }
  }

  lemma BodyGrows(env: Env, p: Parser, b: string)
    requires AcceptsAll(env) && p.state == 3 && p.window != "" && !p.valid && Iterate(env, p).More?
    ensures Iterate(env, Plus(p, b)) == More(Plus(Iterate(env, p).p, b)) && !Iterate(env, p).p.valid
  {
    var d, w := env.CrlfDashBoundary(), p.window;
    if |d| > |w| {
      BodyShort(env, d, p);
    } else if Find(w, d) == |w| {
      BodyHeld(env, d, p);
    } else {
      var i := Find(w, d);
      FindGrows(w, b, d);
      BodyFound(env, d, p, i);
      BodyFound(env, d, Plus(p, b), i);
      DeliverGrows(env, p, b, i, i + |d|);
    }
  }

  lemma DeliverGrows(env: Env, p: Parser, b: string, len: nat, skip: nat)
    requires AcceptsAll(env) && len <= skip <= |p.window| && !p.valid
    ensures DeliverStep(env, Plus(p, b), len, skip, 4) == More(Plus(DeliverStep(env, p, len, skip, 4).p, b))
    ensures !DeliverStep(env, p, len, skip, 4).p.valid
  {
    KeptText(p.window, b, len);
    KeptText(p.window, b, skip);
  }

  lemma DelimiterGrows(env: Env, p: Parser, b: string)
    requires p.state == 4 && p.window != "" && !p.valid && Steady(env, Plus(p, b))
    ensures Grown(env, p, b, Iterate(env, p), Iterate(env, Plus(p, b)))
  {
    var w := p.window;
    OccursInPrefix(w, b, CRLF, 0);
    OccursInPrefix(w, b, DASH, 0);
    if 2 <= |w| {
      assert (w + b)[2..] == w[2..] + b;
      if OccursAt(w, DASH, 0) {
        assert b == "" && w + b == w;
      }
    }
  }

  /** Stopping after a part of the text and going on later is as good as having had it all. */
  lemma {:induction false} Resume(env: Env, p: Parser, b: string)
    requires AcceptsAll(env) && p.state <= 4 && Steady(env, Plus(p, b)) && (p.valid ==> p.window + b == "")
    ensures if Run(env, p).0 then Resumes(env, p, Run(env, p).1, b) else SeenAlike(Run(env, p), Run(env, Plus(p, b)))
    decreases |p.window|, if p.state == 1 then 1 else 0
  {
    if p.window != "" {
      StepGrows(env, p, b);
      var s := Iterate(env, p);
      if s.More? {
        Resume(env, s.p, b);
      }
    }
  }

  // ------------------------------------------------------------------------- any cut

  lemma {:induction false} CutFrom(env: Env, p: Parser, chunks: seq<string>)
    requires AcceptsAll(env) && p.state <= 4 && chunks != [] && Steady(env, Plus(p, Flatten(chunks)))
    requires p.valid ==> p.window + Flatten(chunks) == ""
    ensures SeenAlike(FeedAll(env, p, chunks), Feed(env, p, Flatten(chunks)))
    decreases |chunks|
  {
    var c, rest := chunks[0], chunks[1..];
    var b := Flatten(rest);
    assert p.window + (c + b) == p.window + c + b;
    assert Plus(p, Flatten(chunks)) == Plus(Plus(p, c), b);
    if rest == [] {
      assert c + "" == c;
    } else {
      Resume(env, Plus(p, c), b);
      var q := Run(env, Plus(p, c)).1;
      if Run(env, Plus(p, c)).0 {
        CutFrom(env, q, rest);
      }
    }
  }
}
