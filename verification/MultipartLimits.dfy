/** Header lines at and over the length limit: what depends on where the body is cut. */
module MultipartLimits {
  import opened Basics
  import opened Text
  import opened MultipartSpec
  import opened MultipartProgress
  import opened MultipartRoundTrip

  /** Every header line is shorter than the limit. */
  ghost predicate AllShort(parts: seq<Part>) {
    forall i :: 0 <= i < |parts| ==> ShortPart(parts[i])
  }

  ghost predicate ShortPart(part: Part) { forall j :: 0 <= j < |part.lines| ==> |part.lines[j]| < HEADER_MAX_LENGTH }

  lemma GoodAreShort(env: Env, parts: seq<Part>)
    requires WellFormedParts(env, parts) && AllShort(parts)
    ensures GoodParts(env, parts)
  {
    forall i | 0 <= i < |parts|
      ensures GoodPart(env, parts[i])
    {
      assert WellFormedPart(env, parts[i]) && ShortPart(parts[i]);
      forall j {:trigger GoodLine(env, parts[i].lines[j])} | 0 <= j < |parts[i].lines|
        ensures GoodLine(env, parts[i].lines[j])
      {
        assert WellFormedLine(env, parts[i].lines[j]);
      }
    }
  }

  // --------------------------------------------------------------- a cut that is refused

  /** Some cut of `text` makes `parse` return false. */
  ghost predicate Refusable(env: Env, p: Parser, text: string)
    requires p.state <= 4
  {
    exists chunks :: Flatten(chunks) == text && !FeedAll(env, p, chunks).0
  }

  /** Nothing is buffered. */
  predicate Clean(p: Parser, state: nat) { p.state == state && p.window == "" }

  lemma RefusedNow(env: Env, p: Parser, a: string, b: string, text: string)
    requires p.state <= 4 && !Feed(env, p, a).0 && text == a + b
    ensures Refusable(env, p, text)
  {
    var chunks := [a, b];
    assert chunks[1..] == [b] && [b][1..] == [];
    assert Flatten([b]) == b + "" == b;
    assert Flatten(chunks) == text && !FeedAll(env, p, chunks).0;
  }

  lemma RefusedLater(env: Env, p: Parser, a: string, q: Parser, b: string, text: string)
    requires p.state <= 4 && q.state <= 4 && Feed(env, p, a) == (true, q) && Refusable(env, q, b) && text == a + b
    ensures Refusable(env, p, text)
  {
    var rest :| Flatten(rest) == b && !FeedAll(env, q, rest).0;
    var chunks := [a] + rest;
    assert chunks[0] == a && chunks[1..] == rest;
    assert Flatten(chunks) == text && !FeedAll(env, p, chunks).0;
  }

  /** A line at or over the limit, cut between its CR and LF. */
  lemma RefusedLine(env: Env, p: Parser, line: string, rest: string, text: string)
    requires (Clean(p, 1) || Clean(p, 2)) && Find(line, CRLF) == |line| >= HEADER_MAX_LENGTH
    requires text == line + CRLF + rest
    ensures Refusable(env, p, text)
  {
    var cut := line + [CR];
    CutFound(line, cut);
    CutRefused(env, p, cut);
    CutLine(line, rest);
    RefusedNow(env, p, cut, [LF] + rest, text);
  }

  lemma CutFound(line: string, cut: string)
    requires Find(line, CRLF) == |line| && cut == line + [CR]
    ensures Find(cut, CRLF) == |cut|
  {
    assert cut + [LF] == line + CRLF + "";
    FindLine(cut, [LF], line, "");
  }

  lemma CutRefused(env: Env, p: Parser, cut: string)
    requires (Clean(p, 1) || Clean(p, 2)) && Find(cut, CRLF) == |cut| > HEADER_MAX_LENGTH
    ensures !Feed(env, p, cut).0
  {
    var p1 := p.(window := cut);
    var p2 := if p.state == 1 then p1.(lines := [], state := 2) else p1;
    assert p.window + cut == cut;
    assert Iterate(env, p2) == Return(false, p2);
    assert Run(env, p2) == (false, p2);
    assert p.state == 1 ==> Iterate(env, p1) == More(p2);
  }

  lemma CutLine(line: string, rest: string)
    ensures line + CRLF + rest == line + [CR] + ([LF] + rest)
  {
  }

  /** A line with its CRLF, fed alone, is taken whole. */
  lemma LineFed(env: Env, p: Parser, line: string) returns (q: Parser)
    requires (Clean(p, 1) || Clean(p, 2)) && WellFormedLine(env, line) && |line| < HEADER_MAX_LENGTH
    ensures Feed(env, p, line + CRLF) == (true, q) && Clean(q, 2)
  {
    var w := line + CRLF;
    var p1 := p.(window := w);
    var p2 := if p.state == 1 then p1.(lines := [], state := 2) else p1;
    assert p.window + w == w;
    assert w + "" == line + CRLF + "";
    FindLine(w, "", line, "");
    assert w[..|line|] == line && w[|line| + 2..] == "";
    q := p2.(lines := p2.lines + [line], window := "");
    HeaderLoopReads(env, p2, |line|);
    EmptyWaits(env, q);
    assert Iterate(env, p2) == Return(true, q);
    assert Run(env, p2) == (true, q);
    assert p.state == 1 ==> Iterate(env, p1) == More(p2);
  }

  lemma EmptyWaits(env: Env, q: Parser)
    requires q.window == ""
    ensures HeaderLoop(env, q) == Return(true, q)
  {
  }

  /** The empty line, fed alone, announces the entry. */
  lemma BlankFed(env: Env, p: Parser) returns (q: Parser)
    requires AcceptsAll(env) && (Clean(p, 1) || Clean(p, 2))
    ensures Feed(env, p, CRLF) == (true, q) && Clean(q, 3)
  {
    var p1 := p.(window := CRLF);
    var p2 := if p.state == 1 then p1.(lines := [], state := 2) else p1;
    assert p.window + CRLF == CRLF;
    assert OccursAt(CRLF, CRLF, 0);
    FindIs(CRLF, CRLF, 0);
    HeaderLoopAnnounces(env, p2);
    q := HeaderLoop(env, p2).p;
    assert CRLF[2..] == "";
    assert Iterate(env, p2) == More(q);
    assert Run(env, p2) == (true, q);
    assert p.state == 1 ==> Iterate(env, p1) == More(p2);
  }

  /** A piece that one trip round the loop uses up. */
  lemma UsedUp(env: Env, p: Parser, w: string, q: Parser)
    requires p.state <= 4 && p.window == "" && w != "" && q.window == "" && q.state <= 4
    requires Iterate(env, p.(window := w)) == More(q)
    ensures Feed(env, p, w) == (true, q)
  {
    assert p.window + w == w;
    assert Run(env, q) == (true, q);
  }

  /** Content and delimiter, fed together, end the body. */
  lemma ContentFed(env: Env, p: Parser, content: string) returns (q: Parser)
    requires AcceptsAll(env) && Clean(p, 3) && Delimited(env, content)
    ensures Feed(env, p, content + env.CrlfDashBoundary()) == (true, q) && Clean(q, 4)
  {
    var pat := env.CrlfDashBoundary();
    var w := content + pat;
    DelimiterFound(env, content, pat, w);
    BodyStepEnds(env, p.(window := w), |content|);
    q := BodyStep(env, p.(window := w)).p;
    UsedUp(env, p, w, q);
  }

  lemma DelimiterFound(env: Env, content: string, pat: string, w: string)
    requires Delimited(env, content) && pat == env.CrlfDashBoundary() && w == content + pat
    ensures Find(w, pat) == |content| && w[|content| + |pat|..] == ""
  {
    assert w + "" == content + pat + "";
    FindInStream(w, "", content, pat, "");
  }

  lemma DelimiterFed(env: Env, p: Parser) returns (q: Parser)
    requires Clean(p, 4)
    ensures Feed(env, p, CRLF) == (true, q) && Clean(q, 1)
  {
    assert OccursAt(CRLF, CRLF, 0) && CRLF[2..] == "";
    q := p.(window := "", state := 1);
    UsedUp(env, p, CRLF, q);
  }

  lemma StartFed(env: Env) returns (q: Parser)
    ensures Feed(env, INITIAL, env.DashBoundaryCrlf()) == (true, q) && Clean(q, 1)
  {
    var d := env.DashBoundaryCrlf();
    assert d + "" == d;
    StartStep(env, "", INITIAL.(window := d), "");
    q := INITIAL.(window := "", state := 1);
    assert d[|d|..] == "";
    UsedUp(env, INITIAL, d, q);
  }

  /** A block with a long line in it. */
  lemma {:induction false} RefusedBlock(env: Env, p: Parser, todo: seq<string>, after: string, j: nat)
    requires (Clean(p, 1) || Clean(p, 2)) && WellFormedLines(env, todo)
    requires j < |todo| && |todo[j]| >= HEADER_MAX_LENGTH
    ensures Refusable(env, p, Block(todo) + after)
    decreases |todo|
  {
    var line, rest := todo[0], Block(todo[1..]) + after;
    BlockUnfolds(todo, after);
    if |line| >= HEADER_MAX_LENGTH {
      RefusedLine(env, p, line, rest, Block(todo) + after);
    } else {
      var q := LineFed(env, p, line);
      RefusedBlock(env, q, todo[1..], after, j - 1);
      RefusedLater(env, p, line + CRLF, q, rest, Block(todo) + after);
    }
  }

  /** A block without one can be fed up to its empty line. */
  lemma {:induction false} PastBlock(env: Env, p: Parser, todo: seq<string>, after: string)
    requires AcceptsAll(env) && (Clean(p, 1) || Clean(p, 2)) && WellFormedLines(env, todo)
    requires forall j :: 0 <= j < |todo| ==> |todo[j]| < HEADER_MAX_LENGTH
    requires forall q :: Clean(q, 3) ==> Refusable(env, q, after)
    ensures Refusable(env, p, Block(todo) + after)
    decreases |todo|
  {
    if todo == [] {
      var q := BlankFed(env, p);
      RefusedLater(env, p, CRLF, q, after, Block(todo) + after);
    } else {
      var rest := Block(todo[1..]) + after;
      BlockUnfolds(todo, after);
      var q := LineFed(env, p, todo[0]);
      PastBlock(env, q, todo[1..], after);
      RefusedLater(env, p, todo[0] + CRLF, q, rest, Block(todo) + after);
    }
  }

  lemma PastContent(env: Env, p: Parser, content: string, script: string)
    requires AcceptsAll(env) && Clean(p, 3) && Delimited(env, content)
    requires forall q :: Clean(q, 1) ==> Refusable(env, q, script)
    ensures Refusable(env, p, content + env.CrlfDashBoundary() + (CRLF + script))
  {
    var pat := env.CrlfDashBoundary();
    var q := ContentFed(env, p, content);
    var q1 := DelimiterFed(env, q);
    RefusedLater(env, q, CRLF, q1, script, CRLF + script);
    RefusedLater(env, p, content + pat, q, CRLF + script, content + pat + (CRLF + script));
  }

  /** A text in which entry `k` has a long line. */
  lemma {:induction false} RefusedScript(env: Env, p: Parser, parts: seq<Part>, k: nat)
    requires AcceptsAll(env) && Clean(p, 1) && WellFormedParts(env, parts)
    requires k < |parts| && !ShortPart(parts[k])
    ensures Refusable(env, p, Script(env, parts))
    decreases |parts|
  {
    var part := parts[0];
    var after := part.content + env.CrlfDashBoundary() + Tail(env, parts[1..]);
    assert WellFormedPart(env, part);
    LinesFrom(env, part, 0);
    assert part.lines[0..] == part.lines;
    if ShortPart(part) {
      assert WellFormedParts(env, parts[1..]) && parts[1..][k - 1] == parts[k];
      forall q | Clean(q, 3)
        ensures Refusable(env, q, after)
      {
        forall q1 | Clean(q1, 1)
          ensures Refusable(env, q1, Script(env, parts[1..]))
        {
          RefusedScript(env, q1, parts[1..], k - 1);
        }
        PastContent(env, q, part.content, Script(env, parts[1..]));
      }
      PastBlock(env, p, part.lines, after);
    } else {
      var j :| 0 <= j < |part.lines| && |part.lines[j]| >= HEADER_MAX_LENGTH;
      RefusedBlock(env, p, part.lines, after, j);
    }
  }

  /** Whichever header line is at or over the limit, some cut of the body is refused. */
  lemma LongLineRefused(env: Env, items: seq<Item>)
    requires AcceptsAll(env) && items != [] && WellFormedParts(env, Parts(items)) && !AllShort(Parts(items))
    ensures Refusable(env, INITIAL, Serialize(items, env.boundary, true))
  {
    var parts, text := Parts(items), Serialize(items, env.boundary, true);
    SerializedIsScript(env, items, parts, text);
    var k :| 0 <= k < |parts| && !ShortPart(parts[k]);
    var q := StartFed(env);
    RefusedScript(env, q, parts, k);
    RefusedLater(env, INITIAL, env.DashBoundaryCrlf(), q, Script(env, parts), text);
  }

  /** What a caller wants of every cut. */
  ghost predicate Received(env: Env, items: seq<Item>, chunks: seq<string>) {
    var (ok, p) := FeedAll(env, INITIAL, chunks);
    ok && p.valid && Collect(p.events) == Parts(items)
  }

  /**
   The exact bound: every cut of the body of otherwise well-formed items is received as those items,
   exactly when every header line is shorter than the limit.
   */
  lemma EveryCutReceived(env: Env, items: seq<Item>)
    requires AcceptsAll(env) && items != [] && WellFormedParts(env, Parts(items))
    ensures AllShort(Parts(items)) <==>
            forall chunks :: Flatten(chunks) == Serialize(items, env.boundary, true) ==> Received(env, items, chunks)
  {
    if AllShort(Parts(items)) {
      GoodAreShort(env, Parts(items));
      forall chunks | Flatten(chunks) == Serialize(items, env.boundary, true)
        ensures Received(env, items, chunks)
      {
        LinesReceived(env, items, chunks);
      }
    } else {
      LongLineRefused(env, items);
      var chunks :| Flatten(chunks) == Serialize(items, env.boundary, true) && !FeedAll(env, INITIAL, chunks).0;
      assert !Received(env, items, chunks);
    }
  }

  // ------------------------------------------------------------ a body that arrives whole

  /** The first line of every entry from `k` on is within the limit: the only ones tested in one call. */
  ghost predicate FirstsFit(parts: seq<Part>, k: nat) {
    forall i :: k <= i < |parts| && parts[i].lines != [] ==> |parts[i].lines[0]| <= HEADER_MAX_LENGTH
  }

  /** At the first line of entry `k`, everything buffered. */
  ghost predicate AllHere(env: Env, parts: seq<Part>, k: nat, p: Parser) {
    match p
    case Parser(state, valid, lines, window, events) =>
      state == 1 && !valid && k < |parts| && Collect(events) == parts[..k] && window == Script(env, parts[k..])
  }

  lemma TestedLine(env: Env, lines: seq<string>, after: string, w: string)
    requires WellFormedLines(env, lines) && w == Block(lines) + after
    ensures Find(w, CRLF) == if lines == [] then 0 else |lines[0]|
  {
    assert w + "" == w;
    if lines == [] {
      assert "" + CRLF + after == CRLF + after;
      LineArrives(w, "", "", after);
    } else {
      BlockUnfolds(lines, after);
      LineArrives(w, "", lines[0], Block(lines[1..]) + after);
    }
  }

  /** The header block is read in one go. */
  lemma WholeHeaders(env: Env, parts: seq<Part>, k: nat, p: Parser) returns (q: Parser)
    requires AcceptsAll(env) && WellFormedParts(env, parts) && AllHere(env, parts, k, p)
    requires parts[k].lines != [] ==> |parts[k].lines[0]| <= HEADER_MAX_LENGTH
    ensures q.state == 3 && Run(env, p) == Run(env, q)
    ensures BodyAt(parts[..k], parts[k], EndOf(env, parts, k), 0, q, "")
  {
    var part, end := parts[k], EndOf(env, parts, k);
    var p2 := p.(lines := [], state := 2);
    assert WellFormedPart(env, part);
    LinesFrom(env, part, 0);
    assert part.lines[0..] == part.lines;
    ScriptUnfolds(env, parts, k);
    BlockLength(part.lines);
    TestedLine(env, part.lines, part.content + end, p.window);
    assert p2.window + "" == p2.window;
    var seen, todo := HeadersRun(env, parts[..k], [], part.lines, part.content + end, p2, "");
    q := HeaderLoop(env, p2).p;
    assert seen + [] == seen && [] + part.lines == part.lines;
    StartBody(parts[..k], part, end, q, "");
    assert Iterate(env, p) == More(p2) && Iterate(env, p2) == More(q);
  }

  lemma WholeBody(env: Env, parts: seq<Part>, k: nat, p: Parser) returns (q: Parser)
    requires AcceptsAll(env) && WellFormedParts(env, parts) && k < |parts| && p.state == 3
    requires BodyAt(parts[..k], parts[k], EndOf(env, parts, k), 0, p, "")
    ensures q.state == 4 && Run(env, p) == Run(env, q)
    ensures DelimiterAt(parts[..k + 1], Tail(env, parts[k + 1..]), q, "")
  {
    var tail := Tail(env, parts[k + 1..]);
    assert WellFormedPart(env, parts[k]);
    var d := BodyRun(env, parts[..k], parts[k], tail, 0, p, "");
    assert tail != "";
    q := BodyStep(env, p).p;
    PartsGrow(parts, k);
    assert p.window != "" && Iterate(env, p) == More(q);
  }

  /** The result of one call that was given everything from entry `k` on. */
  ghost predicate Decided(r: (bool, Parser), parts: seq<Part>, k: nat) {
    match r
    case (ok, q) => (ok <==> FirstsFit(parts, k)) && (ok ==> q.valid && Collect(q.events) == parts)
  }

  lemma FitsToo(r: (bool, Parser), parts: seq<Part>, k: nat)
    requires k < |parts| && Decided(r, parts, k + 1)
    requires parts[k].lines != [] ==> |parts[k].lines[0]| <= HEADER_MAX_LENGTH
    ensures Decided(r, parts, k)
  {
  }

  lemma {:induction false} WholeFrom(env: Env, parts: seq<Part>, k: nat, p: Parser)
    requires AcceptsAll(env) && WellFormedParts(env, parts) && AllHere(env, parts, k, p)
    ensures Decided(Run(env, p), parts, k)
    decreases |parts| - k
  {
    if parts[k].lines != [] && |parts[k].lines[0]| > HEADER_MAX_LENGTH {
      WholeRefused(env, parts, k, p);
    } else {
      var q := WholeHeaders(env, parts, k, p);
      var q1 := WholeBody(env, parts, k, q);
      if k + 1 == |parts| {
        WholeLast(env, parts, q1);
      } else {
        var q2 := WholeNext(env, parts, k + 1, q1);
        WholeFrom(env, parts, k + 1, q2);
      }
      FitsToo(Run(env, q1), parts, k);
    }
  }

  lemma WholeRefused(env: Env, parts: seq<Part>, k: nat, p: Parser)
    requires WellFormedParts(env, parts) && AllHere(env, parts, k, p)
    requires parts[k].lines != [] && |parts[k].lines[0]| > HEADER_MAX_LENGTH
    ensures Decided(Run(env, p), parts, k)
  {
    var part := parts[k];
    var p2 := p.(lines := [], state := 2);
    assert WellFormedPart(env, part);
    LinesFrom(env, part, 0);
    assert part.lines[0..] == part.lines;
    ScriptUnfolds(env, parts, k);
    BlockLength(part.lines);
    TestedLine(env, part.lines, part.content + EndOf(env, parts, k), p.window);
    assert Iterate(env, p) == More(p2) && Iterate(env, p2) == Return(false, p2);
    assert Run(env, p2) == (false, p2);
  }

  lemma WholeLast(env: Env, parts: seq<Part>, p: Parser)
    requires p.state == 4 && DelimiterAt(parts[..|parts|], Tail(env, parts[|parts|..]), p, "")
    ensures Decided(Run(env, p), parts, |parts|)
  {
    assert parts[..|parts|] == parts && parts[|parts|..] == [];
    assert p.window + "" == p.window;
    assert p.window == DASH + CRLF;
    DelimiterLast(parts, p, "");
    var q := p.(window := "", valid := true);
    assert Iterate(env, p) == More(q) && Run(env, q) == (true, q);
  }

  lemma WholeNext(env: Env, parts: seq<Part>, k: nat, p: Parser) returns (q: Parser)
    requires k < |parts| && p.state == 4 && DelimiterAt(parts[..k], Tail(env, parts[k..]), p, "")
    ensures AllHere(env, parts, k, q) && q.state == 1 && Run(env, p) == Run(env, q)
  {
    var script := Script(env, parts[k..]);
    assert p.window + "" == p.window;
    DelimiterMore(parts[..k], script, p, "");
    q := p.(window := p.window[2..], state := 1);
    assert q.window + "" == q.window;
    assert Iterate(env, p) == More(q);
  }

  /**
   A body that arrives in one call is received exactly when the first header line of every entry is
   within the limit; a line of exactly the limit is.
   */
  lemma WholeReceived(env: Env, items: seq<Item>)
    requires AcceptsAll(env) && items != [] && WellFormedParts(env, Parts(items))
    ensures Received(env, items, [Serialize(items, env.boundary, true)]) <==> FirstsFit(Parts(items), 0)
  {
    var parts, text, d := Parts(items), Serialize(items, env.boundary, true), env.DashBoundaryCrlf();
    SerializedIsScript(env, items, parts, text);
    var p := INITIAL.(window := text);
    assert INITIAL.window + text == text && p.window + "" == d + Script(env, parts);
    StartStep(env, Script(env, parts), p, "");
    var q := p.(window := p.window[|d|..], state := 1);
    assert q.window + "" == q.window;
    assert parts[0..] == parts && parts[..0] == [];
    WholeFrom(env, parts, 0, q);
    assert Iterate(env, p) == More(q);
    OneChunk(env, text);
  }

  lemma OneChunk(env: Env, text: string)
    ensures FeedAll(env, INITIAL, [text]) == Feed(env, INITIAL, text)
  {
    assert [text][1..] == [];
  }

  /** So with a longest header line of exactly the limit, the verdict depends on the cut. */
  lemma AtTheLimit(env: Env, items: seq<Item>)
    requires AcceptsAll(env) && items != [] && WellFormedParts(env, Parts(items))
    requires forall i, j :: 0 <= i < |items| && 0 <= j < |Parts(items)[i].lines| ==>
               |Parts(items)[i].lines[j]| <= HEADER_MAX_LENGTH
    requires exists i, j :: 0 <= i < |items| && 0 <= j < |Parts(items)[i].lines| &&
               |Parts(items)[i].lines[j]| == HEADER_MAX_LENGTH
    ensures Received(env, items, [Serialize(items, env.boundary, true)])
    ensures Refusable(env, INITIAL, Serialize(items, env.boundary, true))
  {
    var parts := Parts(items);
    WholeReceived(env, items);
    var i, j :| 0 <= i < |items| && 0 <= j < |parts[i].lines| && |parts[i].lines[j]| == HEADER_MAX_LENGTH;
    assert !ShortPart(parts[i]);
    LongLineRefused(env, items);
  }
}
