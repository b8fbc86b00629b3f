/** Serializing form data and feeding the text to the parser in any split gives the same entries back. */
module MultipartRoundTrip {
  // The proof follows how far the parser has got (`Progress`): the unread window followed by
  // the bytes still to come is always the rest of the text.

  import opened Basics
  import opened Text
  import opened MultipartSpec
  import opened MultipartProgress
  import opened FormHeaders
  import opened MultipartNames

  // ------------------------------------------- the serializer writes such a text

  lemma BeginIsBlock(item: Item, boundary: string)
    ensures ItemBegin(item, boundary) == DASH + boundary + CRLF + Block(HeaderLines(item))
  {
    var lines := HeaderLines(item);
    var start, first := DASH + boundary + CRLF, DispositionLine(item);
    assert lines[0] == first;
    if item.contentType == "" {
      assert lines[1..] == [];
      Reassociate(start, first, CRLF, "", CRLF);
    } else {
      var second := TypeLine(item);
      assert lines[1..] == [second];
      assert lines[1..][1..] == [];
      assert Block(lines[1..]) == second + CRLF + CRLF;
      Reassociate(start, first, CRLF, second + CRLF, CRLF);
    }
  }

  /** Moves the CRLF that ends an item to the front of the delimiter that follows it. */
  lemma Regroup(db: string, begin: string, head: string, content: string, more: string, finish: string, tail: string)
    requires begin == db + CRLF + head
    requires more + finish == db + tail
    ensures (begin + (content + CRLF) + more) + finish == db + (CRLF + (head + (content + (CRLF + db) + tail)))
  {
    assert (begin + (content + CRLF) + more) + finish == begin + (content + CRLF) + (more + finish);
  }

  lemma {:induction false} ItemsAreScript(env: Env, items: seq<Item>)
    ensures ItemsText(items, env.boundary) + Finish(env.boundary) == DASH + env.boundary + Tail(env, Parts(items))
  {
    var db, finish := DASH + env.boundary, Finish(env.boundary);
    if items == [] {
      assert finish == db + (DASH + CRLF);
    } else {
      ItemsAreScript(env, items[1..]);
      BeginIsBlock(items[0], env.boundary);
      TailUnfolds(env, items);
      Regroup(db, ItemBegin(items[0], env.boundary), Block(HeaderLines(items[0])), items[0].content,
              ItemsText(items[1..], env.boundary), finish, Tail(env, Parts(items[1..])));
    }
  }

  lemma TailUnfolds(env: Env, items: seq<Item>)
    requires items != []
    ensures Tail(env, Parts(items))
         == CRLF + (Block(HeaderLines(items[0]))
                    + (items[0].content + (CRLF + (DASH + env.boundary)) + Tail(env, Parts(items[1..]))))
  {
    var parts := Parts(items);
    assert parts[0] == Part(HeaderLines(items[0]), items[0].content) && parts[1..] == Parts(items[1..]);
    assert env.CrlfDashBoundary() == CRLF + (DASH + env.boundary);
  }

  // -------------------------------------------------------------------- all calls

  lemma {:induction false} FeedAllStage(env: Env, parts: seq<Part>, g: Progress, p: Parser, chunks: seq<string>)
    requires AcceptsAll(env) && GoodParts(env, parts)
    requires p.state <= 4
    requires Stage(env, parts, g, p, Flatten(chunks))
    requires chunks == [] ==> g == Finished
    ensures FeedAll(env, p, chunks).0
    ensures Stage(env, parts, Finished, FeedAll(env, p, chunks).1, "")
    decreases |chunks|
  {
    if chunks != [] {
      var rest := Flatten(chunks[1..]);
      var p1 := p.(window := p.window + chunks[0]);
      assert p1.window + rest == p.window + Flatten(chunks);
      var g1 := RunStage(env, parts, g, p1, rest);
      assert Feed(env, p, chunks[0]) == Run(env, p1);
      if chunks[1..] == [] {
        assert rest == "";
      }
      FeedAllStage(env, parts, g1, Run(env, p1).1, chunks[1..]);
    }
  }

  /** Whatever pieces the serialized text arrives in, the callbacks are given the items' lines and contents. */
  lemma LinesReceived(env: Env, items: seq<Item>, chunks: seq<string>)
    requires AcceptsAll(env) && items != [] && GoodParts(env, Parts(items))
    requires Flatten(chunks) == Serialize(items, env.boundary, true)
    ensures FeedAll(env, INITIAL, chunks).0
    ensures FeedAll(env, INITIAL, chunks).1.valid
    ensures Collect(FeedAll(env, INITIAL, chunks).1.events) == Parts(items)
  {
    var parts := Parts(items);
    SerializedIsScript(env, items, parts, Flatten(chunks));
    StartsAt(env, parts, Flatten(chunks));
    FeedAllStage(env, parts, AtStart, INITIAL, chunks);
    FinishedMeans(env, parts, FeedAll(env, INITIAL, chunks).1);
  }

  /**
   Round trip under any segmentation: whatever pieces the serialized text arrives in,
   `parse` accepts every piece, ends valid, and the callbacks have been given exactly the
   items, in order, each with its header lines and its whole content.  What the parser learns from
   the lines are the items' names, file names and types exactly when all of them are plain.
   */
  lemma RoundTrip(env: Env, decode: Decoder, items: seq<Item>, chunks: seq<string>)
    requires AcceptsAll(env) && Shortens(decode) && items != [] && GoodParts(env, Parts(items))
    requires Flatten(chunks) == Serialize(items, env.boundary, true)
    ensures FeedAll(env, INITIAL, chunks).0
    ensures FeedAll(env, INITIAL, chunks).1.valid
    ensures Collect(FeedAll(env, INITIAL, chunks).1.events) == Parts(items)
    ensures ItemsOf(decode, Collect(FeedAll(env, INITIAL, chunks).1.events)) == items
            <==> forall i :: 0 <= i < |items| ==> Plain(items[i])
  {
    LinesReceived(env, items, chunks);
    ItemsLearned(decode, items);
  }

  /**
   With the parser's own verdict on header lines: plain items with short lines, whose contents do not hold
   the delimiter, are received from every cut of their text.
   */
  lemma PlainReceived(env: Env, decode: Decoder, items: seq<Item>, chunks: seq<string>)
    requires AcceptsAll(env) && Shortens(decode) && OwnVerdict(env, decode)
    requires items != [] && forall i :: 0 <= i < |items| ==> Receivable(env, items[i])
    requires Flatten(chunks) == Serialize(items, env.boundary, true)
    ensures FeedAll(env, INITIAL, chunks).0 && FeedAll(env, INITIAL, chunks).1.valid
    ensures ItemsOf(decode, Collect(FeedAll(env, INITIAL, chunks).1.events)) == items
  {
    PlainParts(env, decode, items, Parts(items));
    RoundTrip(env, decode, items, chunks);
  }

  /** The serialized text is what the parser expects from its initial state on. */
  lemma SerializedIsScript(env: Env, items: seq<Item>, parts: seq<Part>, text: string)
    requires items != [] && parts == Parts(items) && text == Serialize(items, env.boundary, true)
    ensures text == env.DashBoundaryCrlf() + Script(env, parts)
  {
    ItemsAreScript(env, items);
    FirstDelimiter(DASH, env.boundary, CRLF, Script(env, parts));
  }

  lemma FirstDelimiter(d: string, b: string, nl: string, t: string)
    ensures d + b + (nl + t) == d + b + nl + t
  {
  }

  lemma StartsAt(env: Env, parts: seq<Part>, text: string)
    requires parts != [] && text == env.DashBoundaryCrlf() + Script(env, parts)
    ensures Stage(env, parts, AtStart, INITIAL, text) && text != ""
  {
    assert "" + text == text;
  }

  lemma FinishedMeans(env: Env, parts: seq<Part>, p: Parser)
    requires Stage(env, parts, Finished, p, "")
    ensures p.valid && Collect(p.events) == parts
  {
  }
}
