/**
 How the multipart parser makes its way through a serialized text.

 `Progress` says how far the parser has got: before the first delimiter, in the header block of an
 entry, in its body, behind a delimiter, or at the end.  `Stage` is what then holds: the unread
 window followed by the bytes still to come is always the rest of the text, and the callbacks have
 been given what lies before it.

 Each state of the parser has a lemma that one trip round the loop goes from stage to stage, whatever
 part of the rest has arrived; `RunStage` puts them together for one call.
 */
module MultipartProgress {
  import opened Basics
  import opened Text
  import opened MultipartSpec

  /** A header block: the lines and the empty line. */
  function Block(lines: seq<string>): string {
    if lines == [] then CRLF else lines[0] + CRLF + Block(lines[1..])
  }

  /** The text from an entry's header block on. */
  function Script(env: Env, parts: seq<Part>): string
    requires parts != []
    decreases |parts|, 0
  {
    Block(parts[0].lines) + (parts[0].content + env.CrlfDashBoundary() + Tail(env, parts[1..]))
  }

  /** The text after a delimiter. */
  function Tail(env: Env, parts: seq<Part>): string
    decreases |parts|, 1
  {
    if parts == [] then DASH + CRLF else CRLF + Script(env, parts)
  }

  // ------------------------------------------------------------------- progress

  datatype Progress =
    | AtStart
    | InHeaders(k: nat, j: nat)
    | InBody(k: nat, d: nat)
    | AtDelimiter(k: nat)
    | Finished

  /** In the header block of an entry: `seen` lines have been read, `todo` are left, then `after`. */
  ghost predicate HeadersAt(done: seq<Part>, seen: seq<string>, todo: seq<string>, after: string, p: Parser,
                            r: string)
  {
    match p
    case Parser(state, valid, lines, window, events) =>
      && (state == 2 || (state == 1 && seen == []))
      && (state == 2 ==> lines == seen)
      && !valid
      && Collect(events) == done
      && window + r == Block(todo) + after
  }

  /** In the body of an entry: `d` bytes have been delivered, `end` follows the content. */
  ghost predicate BodyAt(done: seq<Part>, part: Part, end: string, d: nat, p: Parser, r: string) {
    match p
    case Parser(state, valid, _, window, events) =>
      && d <= |part.content|
      && state == 3 && !valid
      && Collect(events) == done + [part.(content := part.content[..d])]
      && window + r == part.content[d..] + end
  }

  /** Behind a delimiter, before `tail`. */
  ghost predicate DelimiterAt(done: seq<Part>, tail: string, p: Parser, r: string) {
    p.state == 4 && !p.valid && Collect(p.events) == done && p.window + r == tail
  }

  ghost predicate FinishedAt(parts: seq<Part>, p: Parser, r: string) {
    && p.valid
    && Collect(p.events) == parts
    && (   (p.state == 4 && (p.window + r == "" || p.window + r == "\n" || p.window + r == CRLF))
        || (p.state == 1 && p.window + r == ""))
  }

  /** What follows the content of entry `k`. */
  function EndOf(env: Env, parts: seq<Part>, k: nat): string
    requires k < |parts|
  {
    env.CrlfDashBoundary() + Tail(env, parts[k + 1..])
  }

  /** Parser `p` has got as far as `g`; `r` has not been fed yet. */
  ghost predicate Stage(env: Env, parts: seq<Part>, g: Progress, p: Parser, r: string) {
    match g
    case AtStart =>
      p == INITIAL.(window := p.window) && parts != [] && p.window + r == env.DashBoundaryCrlf() + Script(env, parts)
    case InHeaders(k, j) =>
      && k < |parts| && j <= |parts[k].lines|
      && HeadersAt(parts[..k], parts[k].lines[..j], parts[k].lines[j..], parts[k].content + EndOf(env, parts, k), p, r)
    case InBody(k, d) => k < |parts| && BodyAt(parts[..k], parts[k], EndOf(env, parts, k), d, p, r)
    case AtDelimiter(k) => k <= |parts| && DelimiterAt(parts[..k], Tail(env, parts[k..]), p, r)
    case Finished => FinishedAt(parts, p, r)
  }

  /** What a trip round the loop must leave: still on the way, and done if nothing is left to feed. */
  ghost predicate StepOk(env: Env, parts: seq<Part>, s: Step, g: Progress, r: string) {
    && Stage(env, parts, g, s.p, r)
    && (s.Return? ==> s.ok && (r == "" ==> g == Finished))
  }

  lemma CollectHeader(es: seq<Event>, lines: seq<string>)
    ensures Collect(es + [Header(lines)]) == Collect(es) + [Part(lines, "")]
  {
    assert (es + [Header(lines)])[..|es|] == es;
  }

  lemma CollectContent(es: seq<Event>, done: seq<Part>, part: Part, data: string)
    requires Collect(es) == done + [part]
    ensures Collect(es + [Content(data)]) == done + [part.(content := part.content + data)]
  {
    assert (es + [Content(data)])[..|es|] == es;
    assert (done + [part])[..|done|] == done;
  }

  /** A header line, seen so far in `w`, is found exactly when its CRLF has arrived. */
  lemma FindLine(w: string, r: string, line: string, t: string)
    requires w + r == line + CRLF + t
    requires Find(line, CRLF) == |line|
    ensures Find(w, CRLF) == if |line| + 2 <= |w| then |line| else |w|
  {
    forall j | 0 <= j < |line|
      ensures !OccursAt(line + CRLF, CRLF, j)
    {
      OccursInPrefix(line, CRLF, CRLF, j);
      if j == |line| - 1 {
        assert (line + CRLF)[j..j + 2][1] == CR;
      }
    }
    FindInStream(w, r, line, CRLF, t);
  }

  /** Removing `a` from the front of the window removes it from the text to come. */
  lemma Advance(w: string, r: string, a: string, b: string)
    requires w + r == a + b && |a| <= |w|
    ensures w[|a|..] + r == b && w[..|a|] == a
  {
    assert (w + r)[|a|..] == w[|a|..] + r;
    assert (w + r)[..|a|] == w[..|a|];
    assert (a + b)[|a|..] == b;
    assert (a + b)[..|a|] == a;
  }

  /** `Advance` over `a` and a separator. */
  lemma AdvanceOver(w: string, r: string, a: string, sep: string, b: string)
    requires w + r == a + sep + b && |a| + |sep| <= |w|
    ensures w[|a| + |sep|..] + r == b && w[..|a|] == a
  {
    Advance(w, r, a + sep, b);
    assert w[..|a| + |sep|][..|a|] == w[..|a|];
  }

  // ---------------------------------------------------------------- header block

  lemma BlockUnfolds(todo: seq<string>, after: string)
    requires todo != []
    ensures Block(todo) + after == todo[0] + CRLF + (Block(todo[1..]) + after)
  {
    Reassociate("", todo[0], CRLF, Block(todo[1..]), after);
  }

  /** The string side of reading one line. */
  lemma LineArrives(w: string, r: string, line: string, rest: string)
    requires w + r == line + CRLF + rest && Find(line, CRLF) == |line|
    ensures if |line| + 2 <= |w| then Find(w, CRLF) == |line| && w[..|line|] == line && w[|line| + 2..] + r == rest
            else Find(w, CRLF) == |w| && r != ""
  {
    FindLine(w, r, line, rest);
    if |line| + 2 <= |w| {
      AdvanceOver(w, r, line, CRLF, rest);
    }
  }

  /** Where the header loop leaves the parser: in the body, or in the block with more to come. */
  ghost predicate HeadersLeft(done: seq<Part>, seen: seq<string>, todo: seq<string>, after: string, s: Step,
                              r: string)
  {
    match s
    case More(q) => todo == [] && BodyAt(done, Part(seen, ""), after, 0, q, r)
    case Return(ok, q) => ok && r != "" && HeadersAt(done, seen, todo, after, q, r)
  }

  lemma BodyStarts(done: seq<Part>, lines: seq<string>, after: string, p: Parser, r: string)
    requires p.state == 3 && !p.valid && Collect(p.events) == done + [Part(lines, "")] && p.window + r == after
    ensures BodyAt(done, Part(lines, ""), after, 0, p, r)
  {
    assert ""[0..] + after == after;
  }

  /** The empty line: the entry is announced. */
  lemma HeadersEnd(env: Env, done: seq<Part>, seen: seq<string>, after: string, p: Parser, r: string)
    requires AcceptsAll(env)
    requires HeadersAt(done, seen, [], after, p, r) && p.state == 2
    ensures HeadersLeft(done, seen, [], after, HeaderLoop(env, p), r)
  {
    assert "" + CRLF + after == CRLF + after;
    LineArrives(p.window, r, "", after);
    if 2 <= |p.window| {
      HeaderLoopAnnounces(env, p);
      CollectHeader(p.events, seen);
      BodyStarts(done, seen, after, HeaderLoop(env, p).p, r);
    } else {
      HeaderLoopWaits(env, p);
    }
  }

  /** One line: read if its CRLF has arrived. */
  lemma HeadersLine(env: Env, done: seq<Part>, seen: seq<string>, todo: seq<string>, after: string, p: Parser,
                    r: string)
    returns (read: bool, q: Parser)
    requires HeadersAt(done, seen, todo, after, p, r) && p.state == 2
    requires todo != [] && WellFormedLine(env, todo[0])
    ensures read ==> q.state == 2 && HeadersAt(done, seen + [todo[0]], todo[1..], after, q, r)
    ensures HeaderLoop(env, p) == if read then HeaderLoop(env, q) else Return(true, p)
    ensures !read ==> r != ""
  {
    BlockUnfolds(todo, after);
    LineArrives(p.window, r, todo[0], Block(todo[1..]) + after);
    read := |todo[0]| + 2 <= |p.window|;
    q := p;
    if read {
      q := p.(lines := p.lines + [todo[0]], window := p.window[|todo[0]| + 2..]);
      HeaderLoopReads(env, p, |todo[0]|);
    } else {
      HeaderLoopWaits(env, p);
    }
  }

  /** A line shorter than the limit is never taken for too long, however much of it has arrived. */
  lemma HeadersShort(done: seq<Part>, seen: seq<string>, todo: seq<string>, after: string, p: Parser, r: string)
    requires HeadersAt(done, seen, todo, after, p, r)
    requires todo != [] ==> Find(todo[0], CRLF) == |todo[0]| < HEADER_MAX_LENGTH
    ensures Find(p.window, CRLF) <= HEADER_MAX_LENGTH
  {
    if todo == [] {
      assert "" + CRLF + after == CRLF + after;
      LineArrives(p.window, r, "", after);
    } else {
      BlockUnfolds(todo, after);
      LineArrives(p.window, r, todo[0], Block(todo[1..]) + after);
    }
  }

  ghost predicate WellFormedLines(env: Env, lines: seq<string>) {
    lines == [] || (WellFormedLine(env, lines[0]) && WellFormedLines(env, lines[1..]))
  }

  lemma {:induction false} LinesFrom(env: Env, part: Part, j: nat)
    requires WellFormedPart(env, part) && j <= |part.lines|
    ensures WellFormedLines(env, part.lines[j..])
    decreases |part.lines| - j
  {
    if j < |part.lines| {
      assert WellFormedLine(env, part.lines[j]);
      assert part.lines[j..][1..] == part.lines[j + 1..];
      LinesFrom(env, part, j + 1);
    }
  }

  lemma GoodIsWellFormed(env: Env, part: Part)
    requires GoodPart(env, part)
    ensures WellFormedPart(env, part)
  {
    forall i {:trigger WellFormedLine(env, part.lines[i])} | 0 <= i < |part.lines|
      ensures WellFormedLine(env, part.lines[i])
    {
      assert GoodLine(env, part.lines[i]);
    }
  }

  lemma {:induction false} HeadersRun(env: Env, done: seq<Part>, seen: seq<string>, todo: seq<string>, after: string,
                                      p: Parser, r: string)
    returns (seen': seq<string>, todo': seq<string>)
    requires AcceptsAll(env) && WellFormedLines(env, todo)
    requires HeadersAt(done, seen, todo, after, p, r) && p.state == 2
    ensures seen' + todo' == seen + todo
    ensures HeadersLeft(done, seen', todo', after, HeaderLoop(env, p), r)
    decreases |todo|
  {
    seen', todo' := seen, todo;
    if todo == [] {
      HeadersEnd(env, done, seen, after, p, r);
    } else {
      var read, q := HeadersLine(env, done, seen, todo, after, p, r);
      if read {
        MoveLine(seen, todo);
        seen', todo' := HeadersRun(env, done, seen + [todo[0]], todo[1..], after, q, r);
      }
    }
  }

  lemma MoveLine(seen: seq<string>, todo: seq<string>)
    requires todo != []
    ensures seen + [todo[0]] + todo[1..] == seen + todo
  {
  }

  // ------------------------------------------------------------------------ body

  /** No delimiter starts inside the undelivered content. */
  lemma DelimitedSuffix(env: Env, content: string, d: nat)
    requires Delimited(env, content) && d <= |content|
    ensures Delimited(env, content[d..])
  {
    var pat := env.CrlfDashBoundary();
    assert content[d..] + pat == (content + pat)[d..];
    forall j | 0 <= j < |content[d..]|
      ensures !OccursAt(content[d..] + pat, pat, j)
    {
      if j + |pat| <= |content[d..] + pat| {
        assert (content + pat)[d..][j..j + |pat|] == (content + pat)[d + j..d + j + |pat|];
      }
      assert !OccursAt(content + pat, pat, d + j);
    }
  }

  /** The whole delimiter has arrived: the rest of the content is delivered. */
  lemma BodyEnds(env: Env, done: seq<Part>, part: Part, tail: string, d: nat, p: Parser, r: string)
    requires AcceptsAll(env)
    requires BodyAt(done, part, env.CrlfDashBoundary() + tail, d, p, r)
    requires Find(p.window, env.CrlfDashBoundary()) == |part.content| - d
    requires |part.content| - d + |env.CrlfDashBoundary()| <= |p.window|
    ensures BodyStep(env, p).More? && DelimiterAt(done + [part], tail, BodyStep(env, p).p, r)
  {
    var left, pat := part.content[d..], env.CrlfDashBoundary();
    Reassociate("", "", left, pat, tail);
    AdvanceOver(p.window, r, left, pat, tail);
    BodyStepEnds(env, p, |left|);
    CollectRest(p.events, done, part, d);
  }

  /** Once the rest of its content has been delivered the part is complete. */
  lemma CollectRest(es: seq<Event>, done: seq<Part>, part: Part, d: nat)
    requires d <= |part.content| && Collect(es) == done + [part.(content := part.content[..d])]
    ensures Collect(es + [Content(part.content[d..])]) == done + [part]
  {
    CollectContent(es, done, part.(content := part.content[..d]), part.content[d..]);
    assert part.content[..d] + part.content[d..] == part.content;
  }

  lemma BodyStepEnds(env: Env, p: Parser, pos: nat)
    requires AcceptsAll(env) && pos == Find(p.window, env.CrlfDashBoundary()) < |p.window|
    ensures BodyStep(env, p)
         == More(p.(window := p.window[pos + |env.CrlfDashBoundary()|..], state := 4,
                    events := p.events + [Content(p.window[..pos])]))
  {
  }

  /** The delimiter is not complete: all but the last `|delimiter|` bytes are delivered. */
  lemma BodyContinues(env: Env, done: seq<Part>, part: Part, end: string, d: nat, p: Parser, r: string, len: nat)
    requires AcceptsAll(env)
    requires BodyAt(done, part, end, d, p, r)
    requires Find(p.window, env.CrlfDashBoundary()) == |p.window|
    requires 0 < len == |p.window| - |env.CrlfDashBoundary()| < |part.content| - d
    ensures BodyAt(done, part, end, d + len, BodyStep(env, p).p, r)
    ensures BodyStep(env, p).Return? && BodyStep(env, p).ok
  {
    var now, later := part.content[d..d + len], part.content[d + len..];
    SplitContent(part.content, d, len, end);
    Advance(p.window, r, now, later + end);
    CollectContent(p.events, done, part.(content := part.content[..d]), now);
  }

  lemma SplitContent(content: string, d: nat, len: nat, end: string)
    requires d + len <= |content|
    ensures content[d..] + end == content[d..d + len] + (content[d + len..] + end)
    ensures content[..d] + content[d..d + len] == content[..d + len]
  {
    assert content[d..] == content[d..d + len] + content[d + len..];
  }

  /** Where the body step leaves the parser: behind the delimiter, or in the body with more to come. */
  ghost predicate BodyLeft(done: seq<Part>, part: Part, pat: string, tail: string, d: nat, s: Step, r: string) {
    match s
    case More(q) => DelimiterAt(done + [part], tail, q, r)
    case Return(ok, q) => ok && (r == "" ==> tail == "") && BodyAt(done, part, pat + tail, d, q, r)
  }

  lemma BodyRun(env: Env, done: seq<Part>, part: Part, tail: string, d: nat, p: Parser, r: string) returns (d': nat)
    requires AcceptsAll(env) && Delimited(env, part.content)
    requires BodyAt(done, part, env.CrlfDashBoundary() + tail, d, p, r)
    ensures BodyLeft(done, part, env.CrlfDashBoundary(), tail, d', BodyStep(env, p), r)
  {
    var pat, left := env.CrlfDashBoundary(), part.content[d..];
    DelimitedSuffix(env, part.content, d);
    Reassociate("", "", left, pat, tail);
    FindInStream(p.window, r, left, pat, tail);
    assert |p.window + r| == |left| + |pat| + |tail|;
    d' := d;
    if |left| + |pat| <= |p.window| {
      BodyEnds(env, done, part, tail, d, p, r);
    } else if |pat| < |p.window| {
      d' := d + |p.window| - |pat|;
      BodyContinues(env, done, part, pat + tail, d, p, r, |p.window| - |pat|);
    }
  }

  // ------------------------------------------------------------- start, delimiter

  lemma StartStep(env: Env, script: string, p: Parser, r: string)
    requires p == INITIAL.(window := p.window) && p.window != "" && p.window + r == env.DashBoundaryCrlf() + script
    ensures var d := env.DashBoundaryCrlf();
            if |d| <= |p.window| then
              Iterate(env, p) == More(p.(window := p.window[|d|..], state := 1)) && p.window[|d|..] + r == script
            else Iterate(env, p) == Return(true, p) && r != ""
  {
    var d := env.DashBoundaryCrlf();
    assert p.window + r == "" + d + script;
    FindInStream(p.window, r, "", d, script);
    if |d| <= |p.window| {
      Advance(p.window, r, d, script);
    }
  }

  lemma DelimiterMore(done: seq<Part>, script: string, p: Parser, r: string)
    requires DelimiterAt(done, CRLF + script, p, r)
    ensures if 2 <= |p.window| then
              DelimiterStep(p) == More(p.(window := p.window[2..], state := 1)) && p.window[2..] + r == script
            else DelimiterStep(p) == Return(true, p) && r != ""
  {
    if 2 <= |p.window| {
      Advance(p.window, r, CRLF, script);
    }
  }

  lemma DelimiterLast(parts: seq<Part>, p: Parser, r: string)
    requires DelimiterAt(parts, DASH + CRLF, p, r)
    ensures if 2 <= |p.window| then
              DelimiterStep(p).More? && FinishedAt(parts, DelimiterStep(p).p, r)
            else DelimiterStep(p) == Return(true, p) && r != ""
  {
    if 2 <= |p.window| {
      Advance(p.window, r, DASH, CRLF);
      var seen := p.window[2..];
      assert |seen| + |r| == 2;
      assert r == CRLF[|seen|..] by {
        assert (seen + r)[|seen|..] == r;
      }
    }
  }

  lemma FinishedStep(env: Env, parts: seq<Part>, p: Parser, r: string)
    requires FinishedAt(parts, p, r) && p.window != ""
    ensures FinishedAt(parts, Iterate(env, p).p, r)
    ensures Iterate(env, p).Return? ==> Iterate(env, p).ok
  {
    if 2 <= |p.window| {
      assert p.window + r == CRLF && r == "" && p.window == CRLF;
    }
  }

  // ------------------------------------------------------------------ every trip

  lemma EnterEntry(env: Env, parts: seq<Part>, k: nat, p: Parser, r: string)
    requires k < |parts| && p.state == 1 && !p.valid && Collect(p.events) == parts[..k]
    requires p.window + r == Script(env, parts[k..])
    ensures Stage(env, parts, InHeaders(k, 0), p, r)
  {
    ScriptUnfolds(env, parts, k);
    assert parts[k].lines[0..] == parts[k].lines && parts[k].lines[..0] == [];
  }

  lemma ScriptUnfolds(env: Env, parts: seq<Part>, k: nat)
    requires k < |parts|
    ensures Script(env, parts[k..]) == Block(parts[k].lines) + (parts[k].content + EndOf(env, parts, k))
  {
    assert parts[k..][0] == parts[k] && parts[k..][1..] == parts[k + 1..];
    Reassociate("", "", parts[k].content, env.CrlfDashBoundary(), Tail(env, parts[k + 1..]));
  }

  lemma HeaderProgress(env: Env, parts: seq<Part>, k: nat, j: nat, p: Parser, r: string) returns (g: Progress)
    requires AcceptsAll(env) && GoodParts(env, parts)
    requires Stage(env, parts, InHeaders(k, j), p, r) && p.state == 2 && p.window != ""
    ensures StepOk(env, parts, Iterate(env, p), g, r)
  {
    var part, end := parts[k], EndOf(env, parts, k);
    GoodIsWellFormed(env, part);
    LinesFrom(env, part, j);
    assert j < |part.lines| ==> GoodLine(env, part.lines[j]);
    HeadersShort(parts[..k], part.lines[..j], part.lines[j..], part.content + end, p, r);
    var seen, todo := HeadersRun(env, parts[..k], part.lines[..j], part.lines[j..], part.content + end, p, r);
    assert seen + todo == part.lines;
    if HeaderLoop(env, p).More? {
      assert seen == part.lines;
      StartBody(parts[..k], part, end, HeaderLoop(env, p).p, r);
      g := InBody(k, 0);
    } else {
      g := InHeaders(k, |seen|);
      assert part.lines[..|seen|] == seen && part.lines[|seen|..] == todo;
    }
  }

  lemma StartBody(done: seq<Part>, part: Part, end: string, p: Parser, r: string)
    requires BodyAt(done, Part(part.lines, ""), part.content + end, 0, p, r)
    ensures BodyAt(done, part, end, 0, p, r)
  {
    assert part.content[..0] == "" && part.content[0..] == part.content;
    assert ""[0..] + (part.content + end) == part.content + end;
  }

  lemma BodyProgress(env: Env, parts: seq<Part>, k: nat, d: nat, p: Parser, r: string) returns (g: Progress)
    requires AcceptsAll(env) && GoodParts(env, parts)
    requires Stage(env, parts, InBody(k, d), p, r)
    ensures StepOk(env, parts, BodyStep(env, p), g, r)
  {
    assert GoodPart(env, parts[k]);
    var d' := BodyRun(env, parts[..k], parts[k], Tail(env, parts[k + 1..]), d, p, r);
    PartsGrow(parts, k);
    g := if BodyStep(env, p).More? then AtDelimiter(k + 1) else InBody(k, d');
  }

  lemma PartsGrow(parts: seq<Part>, k: nat)
    requires k < |parts|
    ensures parts[..k] + [parts[k]] == parts[..k + 1]
  {
  }

  lemma DelimiterProgress(env: Env, parts: seq<Part>, k: nat, p: Parser, r: string) returns (g: Progress)
    requires Stage(env, parts, AtDelimiter(k), p, r)
    ensures StepOk(env, parts, DelimiterStep(p), g, r)
  {
    g := AtDelimiter(k);
    if k == |parts| {
      assert parts[k..] == [] && parts[..k] == parts;
      DelimiterLast(parts, p, r);
      if 2 <= |p.window| {
        g := Finished;
      }
    } else {
      DelimiterMore(parts[..k], Script(env, parts[k..]), p, r);
      if 2 <= |p.window| {
        EnterEntry(env, parts, k, DelimiterStep(p).p, r);
        g := InHeaders(k, 0);
      }
    }
  }

  lemma StartProgress(env: Env, parts: seq<Part>, p: Parser, r: string) returns (g: Progress)
    requires Stage(env, parts, AtStart, p, r) && p.window != ""
    ensures StepOk(env, parts, Iterate(env, p), g, r)
  {
    StartStep(env, Script(env, parts), p, r);
    g := AtStart;
    if |env.DashBoundaryCrlf()| <= |p.window| {
      assert parts[0..] == parts;
      EnterEntry(env, parts, 0, Iterate(env, p).p, r);
      g := InHeaders(0, 0);
    }
  }

  /** Every trip round the parse loop stays on the way through the text. */
  lemma IterateStage(env: Env, parts: seq<Part>, g0: Progress, p: Parser, r: string) returns (g: Progress)
    requires AcceptsAll(env) && GoodParts(env, parts)
    requires p.state <= 4
    requires Stage(env, parts, g0, p, r) && p.window != ""
    ensures StepOk(env, parts, Iterate(env, p), g, r)
  {
    match g0
    case AtStart => g := StartProgress(env, parts, p, r);
    case InHeaders(k, j) =>
      if p.state == 1 {
        assert parts[k].lines[..0] == [];
        g := g0;
      } else {
        g := HeaderProgress(env, parts, k, j, p, r);
      }
    case InBody(k, d) => g := BodyProgress(env, parts, k, d, p, r);
    case AtDelimiter(k) => g := DelimiterProgress(env, parts, k, p, r);
    case Finished => FinishedStep(env, parts, p, r); g := Finished;
  }

  lemma {:induction false} RunStage(env: Env, parts: seq<Part>, g0: Progress, p: Parser, r: string)
    returns (g: Progress)
    requires AcceptsAll(env) && GoodParts(env, parts)
    requires p.state <= 4
    requires Stage(env, parts, g0, p, r)
    ensures Run(env, p).0
    ensures Stage(env, parts, g, Run(env, p).1, r)
    ensures r == "" ==> g == Finished
    decreases |p.window|, if p.state == 1 then 1 else 0
  {
    if p.window == "" {
      g := g0;
      NothingLeft(env, parts, g0, p, r);
    } else {
      g := IterateStage(env, parts, g0, p, r);
      var s := Iterate(env, p);
      if s.More? {
        g := RunStage(env, parts, g, s.p, r);
      }
    }
  }

  lemma BlockLength(lines: seq<string>)
    ensures |Block(lines)| >= 2
  {
  }

  /** With nothing buffered and nothing to come, the text is used up. */
  lemma NothingLeft(env: Env, parts: seq<Part>, g: Progress, p: Parser, r: string)
    requires Stage(env, parts, g, p, r) && p.window == ""
    ensures r == "" ==> g == Finished
  {
    if g.InHeaders? {
      BlockLength(parts[g.k].lines[g.j..]);
    }
  }
}
