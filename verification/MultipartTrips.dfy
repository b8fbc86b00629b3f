/**
 Sending a text to the parser trip by trip.

 A trip round the loop that goes on needs only the bytes it consumes: sent these alone, the parser
 takes the same step and has nothing left (`Consumes`, `StepAlone`).  So a text can be cut where its
 trips end, and the parser brought to any point of its run with an empty buffer.

 There a header line that reaches the limit is refused if just too much of it is sent first
 (`LongLineCut`), although a call that reads the block as a whole may have accepted it.
 */
module MultipartTrips {
  import opened Basics
  import opened Text
  import opened MultipartSpec
  import opened MultipartCuts

  // ------------------------------------------------------------------- one trip alone

  lemma FindShort(w: string, pat: string, k: nat)
    requires pat != "" && Find(w, pat) < |w| && Find(w, pat) + |pat| <= k <= |w|
    ensures Find(w[..k], pat) == Find(w, pat)
  {
    var i := Find(w, pat);
    assert w == w[..k] + w[k..];
    forall j | 0 <= j <= i
      ensures OccursAt(w[..k], pat, j) <==> j == i
    {
      OccursInPrefix(w[..k], w[k..], pat, j);
    }
    FindIs(w[..k], pat, i);
  }

  /** The parser behind the line that ends at `pos`. */
  function PastLine(p: Parser, pos: nat): Parser
    requires pos + 2 <= |p.window|
  {
    p.(lines := p.lines + [p.window[..pos]], window := p.window[pos + 2..])
  }

  /** The first `n` bytes are a block that the loop reads to its end. */
  ghost predicate Block(env: Env, p: Parser, n: nat) {
    n <= |p.window| && Complete(HeaderLoop(env, p.(window := p.window[..n])))
  }

  ghost predicate Complete(s: Step) { s.More? && s.p.window == "" }

  lemma LastLineBlock(env: Env, p: Parser)
    requires HeaderLoop(env, p).More? && 0 == Find(p.window, CRLF) < |p.window|
    ensures Block(env, p, 2)
  {
    HeaderLoopAnnounces(env, p);
    FindShort(p.window, CRLF, 2);
    HeaderLoopAnnounces(env, p.(window := p.window[..2]));
  }

  lemma LinePrefix(p: Parser, pos: nat, n: nat)
    requires pos + 2 + n <= |p.window|
    ensures var q := PastLine(p, pos);
            PastLine(p.(window := p.window[..pos + 2 + n]), pos) == q.(window := q.window[..n])
    ensures p.window[..pos + 2 + n][..pos] == p.window[..pos]
  {
    assert p.window[..pos + 2 + n][..pos] == p.window[..pos];
    assert p.window[..pos + 2 + n][pos + 2..] == p.window[pos + 2..][..n];
  }

  lemma LoopPasses(env: Env, p: Parser, pos: nat)
    requires 0 < pos == Find(p.window, CRLF) < |p.window| && env.lineOk(p.window[..pos])
    ensures HeaderLoop(env, p) == HeaderLoop(env, PastLine(p, pos))
  {
    HeaderLoopReads(env, p, pos);
  }

  lemma OneMoreLine(env: Env, p: Parser, pos: nat, n: nat, k: nat)
    requires 0 < pos == Find(p.window, CRLF) < |p.window| && env.lineOk(p.window[..pos])
    requires Block(env, PastLine(p, pos), n) && k == pos + 2 + n
    ensures Block(env, p, k)
  {
    var p', q := p.(window := p.window[..k]), PastLine(p, pos);
    FindShort(p.window, CRLF, k);
    LinePrefix(p, pos, n);
    LoopPasses(env, p', pos);
    assert PastLine(p', pos) == q.(window := q.window[..n]);
  }

  lemma BlockGoesOn(env: Env, p: Parser, pos: nat)
    requires HeaderLoop(env, p).More? && 0 < pos == Find(p.window, CRLF)
    ensures pos < |p.window| && env.lineOk(p.window[..pos]) && HeaderLoop(env, PastLine(p, pos)).More?
  {
    if pos == |p.window| {
      HeaderLoopWaits(env, p);
    } else {
      HeaderLoopReads(env, p, pos);
    }
  }

  lemma {:induction false} HeaderBlock(env: Env, p: Parser) returns (n: nat)
    requires HeaderLoop(env, p).More?
    ensures Block(env, p, n)
    decreases |p.window|
  {
    var pos := Find(p.window, CRLF);
    if pos == 0 {
      n := 2;
      LastLineBlock(env, p);
    } else {
      BlockGoesOn(env, p, pos);
      var m := HeaderBlock(env, PastLine(p, pos));
      n := pos + 2 + m;
      OneMoreLine(env, p, pos, m, n);
    }
  }

  /** `n` bytes of the window are all that the trip consumes, and all that it needs. */
  ghost predicate Consumes(env: Env, p: Parser, n: nat)
    requires p.state <= 4 && p.window != "" && Iterate(env, p).More?
  {
    && 0 < n <= |p.window| && p.window[n..] == Iterate(env, p).p.window
    && Iterate(env, p.(window := p.window[..n])) == More(Iterate(env, p).p.(window := ""))
  }

  lemma StartAlone(env: Env, p: Parser) returns (n: nat)
    requires p.state == 0 && p.window != "" && Iterate(env, p).More?
    ensures Consumes(env, p, n)
  {
    var d := env.DashBoundaryCrlf();
    n := Find(p.window, d) + |d|;
    FindShort(p.window, d, n);
  }

  /** What is behind a block makes no difference to it. */
  lemma BlockAlone(env: Env, p: Parser, n: nat)
    requires Block(env, p, n)
    ensures HeaderLoop(env, p) == More(HeaderLoop(env, p.(window := p.window[..n])).p.(window := p.window[n..]))
  {
    var b, p' := p.window[n..], p.(window := p.window[..n]);
    assert p'.window + b == p.window && "" + b == b;
    HeaderGrows(env, p', b);
  }

  lemma BlockFirstLine(env: Env, p: Parser, n: nat)
    requires Block(env, p, n)
    ensures 0 < n && Find(p.window[..n], CRLF) == Find(p.window, CRLF)
  {
    var b, p' := p.window[n..], p.(window := p.window[..n]);
    if Find(p'.window, CRLF) < n {
      assert p'.window + b == p.window;
      FindGrows(p'.window, b, CRLF);
    } else {
      HeaderLoopWaits(env, p');
    }
  }

  lemma HeadersAlone(env: Env, p: Parser) returns (n: nat)
    requires p.state == 2 && p.window != "" && Iterate(env, p).More?
    ensures Consumes(env, p, n)
  {
    HeaderTest(env, p);
    n := HeaderBlock(env, p);
    BlockAlone(env, p, n);
    BlockFirstLine(env, p, n);
    HeaderTest(env, p.(window := p.window[..n]));
  }

  lemma BodyAlone(env: Env, p: Parser) returns (n: nat)
    requires AcceptsAll(env) && p.state == 3 && p.window != "" && Iterate(env, p).More?
    ensures Consumes(env, p, n)
  {
    var d, w := env.CrlfDashBoundary(), p.window;
    if |d| > |w| {
      BodyShort(env, d, p);
    } else if Find(w, d) == |w| {
      BodyHeld(env, d, p);
    } else {
      var i := Find(w, d);
      n := i + |d|;
      BodyFound(env, d, p, i);
      FindShort(w, d, n);
      BodyFound(env, d, p.(window := w[..n]), i);
      assert w[..n][..i] == w[..i];
    }
  }

  lemma StepAlone(env: Env, p: Parser) returns (n: nat)
    requires AcceptsAll(env) && p.state <= 4 && p.state != 1 && p.window != ""
    requires Tidy(env, p) && Iterate(env, p).More?
    ensures Consumes(env, p, n)
  {
    match p.state
    case 0 => n := StartAlone(env, p);
    case 2 => n := HeadersAlone(env, p);
    case 3 => n := BodyAlone(env, p);
    case _ =>
      n := 2;
      OccursInPrefix(p.window[..2], p.window[2..], CRLF, 0);
      assert p.window == p.window[..2] + p.window[2..];
  }

  // ----------------------------------------------------------------- a long header line

  lemma FeedFirst(env: Env, p: Parser, c: string, rest: seq<string>, r: (bool, Parser))
    requires p.state <= 4 && r == Feed(env, p, c)
    ensures FeedAll(env, p, [c] + rest) == if r.0 then FeedAll(env, r.1, rest) else r
    ensures Flatten([c] + rest) == c + Flatten(rest)
  {
    assert ([c] + rest)[1..] == rest;
  }

  lemma InFront(w: string, n: nat)
    requires n <= |w|
    ensures w[..n] + w[n..] == w
  {
  }

  /** Some cut of the window, the parser having nothing buffered, is refused without a callback. */
  ghost predicate RefusedCut(env: Env, p: Parser, chunks: seq<string>)
    requires p.state <= 4
  {
    && Flatten(chunks) == p.window
    && var r := FeedAll(env, p.(window := ""), chunks); !r.0 && r.1.events == p.events
  }

  lemma LineBeforeCut(env: Env, p: Parser, pos: nat, rest: seq<string>)
    requires p.state == 2 && 0 < pos == Find(p.window, CRLF) < |p.window| && pos <= HEADER_MAX_LENGTH
    requires env.lineOk(p.window[..pos]) && RefusedCut(env, PastLine(p, pos), rest)
    ensures RefusedCut(env, p, [p.window[..pos + 2]] + rest)
  {
    LineAlone(env, p, pos);
    FeedFirst(env, p.(window := ""), p.window[..pos + 2], rest, (true, PastLine(p, pos).(window := "")));
    InFront(p.window, pos + 2);
  }

  /** Of a long line just too much. */
  lemma FirstLineCut(env: Env, p: Parser)
    requires p.state == 2 && |p.window| > HEADER_MAX_LENGTH && Find(p.window, CRLF) >= HEADER_MAX_LENGTH
    ensures RefusedCut(env, p, [p.window[..HEADER_MAX_LENGTH + 1]] + [p.window[HEADER_MAX_LENGTH + 1..]])
  {
    var x, rest := p.window[..HEADER_MAX_LENGTH + 1], p.window[HEADER_MAX_LENGTH + 1..];
    assert Flatten([rest]) == rest + "" == rest && x + rest == p.window;
    OverLimit(env, p, x, rest);
    FeedFirst(env, p.(window := ""), x, [rest], (false, p.(window := x)));
  }

  lemma LongLineLater(env: Env, p: Parser, pos: nat)
    requires !LinesShort(p.window) && !Refused(HeaderLoop(env, p))
    requires pos == Find(p.window, CRLF) < |p.window| && pos < HEADER_MAX_LENGTH
    ensures 0 < pos && env.lineOk(p.window[..pos])
    ensures !LinesShort(PastLine(p, pos).window) && !Refused(HeaderLoop(env, PastLine(p, pos)))
  {
    HeaderLoopReads(env, p, pos);
  }

  /** The lines before a long line sent one by one, and then the long one. */
  lemma {:induction false} LongLineCut(env: Env, p: Parser) returns (chunks: seq<string>)
    requires AcceptsAll(env) && p.state == 2 && !LinesShort(p.window) && !Refused(HeaderLoop(env, p))
    ensures RefusedCut(env, p, chunks)
    decreases |p.window|
  {
    var w, pos := p.window, Find(p.window, CRLF);
    if pos < |w| && pos < HEADER_MAX_LENGTH {
      LongLineLater(env, p, pos);
      var rest := LongLineCut(env, PastLine(p, pos));
      chunks := [w[..pos + 2]] + rest;
      LineBeforeCut(env, p, pos, rest);
    } else {
      chunks := [w[..HEADER_MAX_LENGTH + 1]] + [w[HEADER_MAX_LENGTH + 1..]];
      FirstLineCut(env, p);
    }
  }

  lemma LineAlone(env: Env, p: Parser, pos: nat)
    requires p.state == 2 && 0 < pos == Find(p.window, CRLF) < |p.window| && pos <= HEADER_MAX_LENGTH
    requires env.lineOk(p.window[..pos])
    ensures Feed(env, p.(window := ""), p.window[..pos + 2]) == (true, PastLine(p, pos).(window := ""))
  {
    var p', q := p.(window := p.window[..pos + 2]), PastLine(p, pos).(window := "");
    FindShort(p.window, CRLF, pos + 2);
    LinePrefix(p, pos, 0);
    LoopPasses(env, p', pos);
    HeaderLoopWaits(env, q);
    HeaderTest(env, p');
    FeedReturns(env, p');
  }

  lemma FeedReturns(env: Env, p: Parser)
    requires p.state <= 4 && p.window != "" && Iterate(env, p).Return?
    ensures Feed(env, p.(window := ""), p.window) == (Iterate(env, p).ok, Iterate(env, p).p)
  {
    assert "" + p.window == p.window;
  }

  lemma OverLimit(env: Env, p: Parser, x: string, rest: string)
    requires p.state == 2 && |x| == HEADER_MAX_LENGTH + 1 && Find(x + rest, CRLF) >= HEADER_MAX_LENGTH
    ensures Feed(env, p.(window := ""), x) == (false, p.(window := x))
  {
    var pos := Find(x, CRLF);
    if pos < |x| {
      FindGrows(x, rest, CRLF);
    }
    assert "" + x == x;
  }
}
