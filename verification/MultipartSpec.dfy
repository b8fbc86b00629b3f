/**
 The incremental multipart/form-data parser as a function of its state, and the serializer it must
 invert.

 `Iterate` is one trip round the parse loop, `Run` the loop, `Feed` one call of `parse` and `FeedAll`
 the calls on successive chunks.  The object of Multipart.dfy refines `Feed`; what is proved of the
 parser is proved of these functions.

 The code the parser calls into is a parameter (`Env`): a predicate that decides a header line, and the
 callbacks' verdict on the history of their calls.  `Collect` is what a caller has been told: the entries,
 with pieces of content put together.
 */
module MultipartSpec {
  import opened Text

  /** What the two callbacks of `parse` are given, in call order. */
  datatype Event = Header(lines: seq<string>) | Content(data: string)

  /**
   The code the parser calls into.  `lineOk` decides one header line (header syntax and
   Content-Disposition parameters); `accept` is the callbacks' verdict on the call
   history including the current call.
   */
  datatype Env = Env(boundary: string, lineOk: string -> bool, accept: seq<Event> -> bool) {
    function DashBoundaryCrlf(): string { DASH + boundary + CRLF }
    function CrlfDashBoundary(): string { CRLF + DASH + boundary }
  }

  /** `window` is the unread part of the buffer, `lines` the header lines of the entry. */
  datatype Parser = Parser(state: nat, valid: bool, lines: seq<string>, window: string, events: seq<Event>)

  /** One trip round the parse loop: go on, or return `ok`. */
  datatype Step = More(p: Parser) | Return(ok: bool, p: Parser)

  const INITIAL := Parser(0, false, [], "", [])

  /** Call a callback with `e` and go on with `next` if it accepts. */
  function Emit(env: Env, p: Parser, e: Event, next: Parser): Step {
    var q := p.(events := p.events + [e]);
    if env.accept(q.events) then More(next.(events := q.events)) else Return(false, q.(valid := false))
  }

  /** The loop of state 2 over the complete header lines in the window. */
  function HeaderLoop(env: Env, p: Parser): (s: Step)
    ensures s.More? ==> |s.p.window| < |p.window| && s.p.state == 3
    ensures |s.p.window| <= |p.window|
    decreases |p.window|
  {
    var pos := Find(p.window, CRLF);
    if pos == |p.window| then Return(true, p)
    else if pos == 0 then
      Emit(env, p, Header(p.lines), p.(window := p.window[2..], state := 3))
    else if !env.lineOk(p.window[..pos]) then Return(false, p.(valid := false))
    else HeaderLoop(env, p.(lines := p.lines + [p.window[..pos]], window := p.window[pos + 2..]))
  }

  lemma HeaderLoopReads(env: Env, p: Parser, pos: nat)
    requires 0 < pos == Find(p.window, CRLF) < |p.window|
    ensures HeaderLoop(env, p)
         == if env.lineOk(p.window[..pos])
            then HeaderLoop(env, p.(lines := p.lines + [p.window[..pos]], window := p.window[pos + 2..]))
            else Return(false, p.(valid := false))
  {
  }

  lemma HeaderLoopAnnounces(env: Env, p: Parser)
    requires 0 == Find(p.window, CRLF) < |p.window|
    ensures |p.window| >= 2
    ensures HeaderLoop(env, p) == Emit(env, p, Header(p.lines), p.(window := p.window[2..], state := 3))
  {
  }

  lemma HeaderLoopWaits(env: Env, p: Parser)
    requires Find(p.window, CRLF) == |p.window|
    ensures HeaderLoop(env, p) == Return(true, p)
  {
  }

  /** Return instead of going on. */
  function Stop(s: Step): Step { if s.More? then Return(true, s.p) else s }

  function BodyStep(env: Env, p: Parser): Step { BodyUpTo(env, env.CrlfDashBoundary(), p) }

  /** State 3 with delimiter `d`. */
  function BodyUpTo(env: Env, d: string, p: Parser): Step
    requires d != ""
  {
    var pos := Find(p.window, d);
    if |d| > |p.window| then Return(true, p)
    else if pos < |p.window| then DeliverStep(env, p, pos, pos + |d|, 4)
    else if |p.window| == |d| then Return(true, p)
    else Stop(DeliverStep(env, p, |p.window| - |d|, |p.window| - |d|, 3))
  }

  lemma BodyShort(env: Env, d: string, p: Parser)
    requires d != "" && |d| > |p.window|
    ensures BodyUpTo(env, d, p) == Return(true, p)
  {
  }

  lemma BodyFound(env: Env, d: string, p: Parser, pos: nat)
    requires d != "" && |d| <= |p.window| && pos == Find(p.window, d) < |p.window|
    ensures pos + |d| <= |p.window| && BodyUpTo(env, d, p) == DeliverStep(env, p, pos, pos + |d|, 4)
  {
  }

  lemma BodyHeld(env: Env, d: string, p: Parser)
    requires d != "" && |d| <= |p.window| == Find(p.window, d)
    ensures BodyUpTo(env, d, p)
         == if |p.window| == |d| then Return(true, p)
            else Stop(DeliverStep(env, p, |p.window| - |d|, |p.window| - |d|, 3))
  {
  }

  /** The content callback gets the first `len` bytes; if it accepts, `skip` bytes are dropped. */
  function DeliverStep(env: Env, p: Parser, len: nat, skip: nat, next: nat): Step
    requires len <= skip <= |p.window|
  {
    Emit(env, p, Content(p.window[..len]), p.(window := p.window[skip..], state := next))
  }

  function DelimiterStep(p: Parser): Step {
    if |p.window| < 2 then Return(true, p)
    else if OccursAt(p.window, CRLF, 0) then More(p.(window := p.window[2..], state := 1))
    else if OccursAt(p.window, DASH, 0) then More(p.(window := "", valid := true))
    else Return(true, p)
  }

  /** The body of the parse loop. */
  function Iterate(env: Env, p: Parser): (s: Step)
    requires p.state <= 4 && p.window != ""
    ensures s.p.state <= 4
    ensures s.More? ==> |s.p.window| < |p.window| || (|s.p.window| == |p.window| && p.state == 1 && s.p.state == 2)
  {
    match p.state
    case 0 =>
      var pos := Find(p.window, env.DashBoundaryCrlf());
      if pos == |p.window| then Return(true, p)
      else More(p.(window := p.window[pos + |env.DashBoundaryCrlf()|..], state := 1))
    case 1 => More(p.(lines := [], state := 2))
    case 2 =>
      if Find(p.window, CRLF) > HEADER_MAX_LENGTH then Return(false, p)
      else HeaderLoopKeepsState(env, p); HeaderLoop(env, p)
    case 3 => BodyStep(env, p)
    case _ => DelimiterStep(p)
  }

  lemma HeaderLoopKeepsState(env: Env, p: Parser)
    requires p.state <= 4
    ensures HeaderLoop(env, p).p.state <= 4
    decreases |p.window|
  {
    var pos := Find(p.window, CRLF);
    if 0 < pos < |p.window| && env.lineOk(p.window[..pos]) {
      HeaderLoopKeepsState(env, p.(lines := p.lines + [p.window[..pos]], window := p.window[pos + 2..]));
    }
  }

  /** The whole parse loop. */
  function Run(env: Env, p: Parser): (r: (bool, Parser))
    requires p.state <= 4
    ensures r.1.state <= 4
    decreases |p.window|, if p.state == 1 then 1 else 0
  {
    if p.window == "" then (true, p)
    else
      match Iterate(env, p)
      case Return(ok, q) => (ok, q)
      case More(q) => Run(env, q)
  }

  /** `parse` on one chunk. */
  function Feed(env: Env, p: Parser, chunk: string): (r: (bool, Parser))
    requires p.state <= 4
    ensures r.1.state <= 4
  {
    Run(env, p.(window := p.window + chunk))
  }

  /** `parse` on successive chunks, given up at the first `false`. */
  function FeedAll(env: Env, p: Parser, chunks: seq<string>): (r: (bool, Parser))
    requires p.state <= 4
    ensures r.1.state <= 4
    decreases |chunks|
  {
    if chunks == [] then (true, p)
    else
      var (ok, q) := Feed(env, p, chunks[0]);
      if ok then FeedAll(env, q, chunks[1..]) else (false, q)
  }

  // ------------------------------------------------------------------ serializer

  datatype Item = Item(name: string, filename: string, contentType: string, content: string)

  function DispositionLine(item: Item): string {
    "Content-Disposition: form-data; name=\"" + item.name + "\""
    + if item.filename == "" then "" else "; filename=\"" + item.filename + "\""
  }

  function TypeLine(item: Item): string { "Content-Type: " + item.contentType }

  function ItemBegin(item: Item, boundary: string): string {
    DASH + boundary + CRLF
    + DispositionLine(item) + CRLF
    + (if item.contentType == "" then "" else TypeLine(item) + CRLF)
    + CRLF
  }

  function ItemEnd(): string { CRLF }

  function Finish(boundary: string): string { DASH + boundary + DASH + CRLF }

  function ItemsText(items: seq<Item>, boundary: string): string {
    if items == [] then ""
    else ItemBegin(items[0], boundary) + (items[0].content + ItemEnd()) + ItemsText(items[1..], boundary)
  }

  function Serialize(items: seq<Item>, boundary: string, finish: bool): string {
    ItemsText(items, boundary) + if finish then Finish(boundary) else ""
  }

  // ------------------------------------------------------- what a reader should get

  /** One received entry: its header lines and its whole content. */
  datatype Part = Part(lines: seq<string>, content: string)

  function HeaderLines(item: Item): seq<string> {
    [DispositionLine(item)] + if item.contentType == "" then [] else [TypeLine(item)]
  }

  function Parts(items: seq<Item>): (ps: seq<Part>)
    ensures |ps| == |items|
  {
    if items == [] then [] else [Part(HeaderLines(items[0]), items[0].content)] + Parts(items[1..])
  }

  /** The entries announced by the callbacks; pieces of content are concatenated. */
  function Collect(events: seq<Event>): seq<Part> {
    if events == [] then []
    else
      var before := Collect(events[..|events| - 1]);
      match events[|events| - 1]
      case Header(lines) => before + [Part(lines, "")]
      case Content(data) =>
        if before == [] then []
        else
          var last := before[|before| - 1];
          before[..|before| - 1] + [last.(content := last.content + data)]
  }

  /** A header line the parser can make sense of, whatever its length. */
  ghost predicate WellFormedLine(env: Env, line: string) {
    line != "" && Find(line, CRLF) == |line| && env.lineOk(line)
  }

  ghost predicate GoodLine(env: Env, line: string) { WellFormedLine(env, line) && |line| < HEADER_MAX_LENGTH }

  /** The delimiter first occurs at the end of the content. */
  ghost predicate Delimited(env: Env, content: string) {
    forall j :: 0 <= j < |content| ==> !OccursAt(content + env.CrlfDashBoundary(), env.CrlfDashBoundary(), j)
  }

  ghost predicate WellFormedPart(env: Env, part: Part) {
    && (forall i {:trigger WellFormedLine(env, part.lines[i])} ::
          0 <= i < |part.lines| ==> WellFormedLine(env, part.lines[i]))
    && Delimited(env, part.content)
  }

  ghost predicate WellFormedParts(env: Env, parts: seq<Part>) {
    forall i :: 0 <= i < |parts| ==> WellFormedPart(env, parts[i])
  }

  ghost predicate GoodPart(env: Env, part: Part) {
    && (forall i {:trigger GoodLine(env, part.lines[i])} :: 0 <= i < |part.lines| ==> GoodLine(env, part.lines[i]))
    && Delimited(env, part.content)
  }

  ghost predicate GoodParts(env: Env, parts: seq<Part>) {
    forall i :: 0 <= i < |parts| ==> GoodPart(env, parts[i])
  }

  ghost predicate AcceptsAll(env: Env) {
    forall es :: env.accept(es)
  }
}
