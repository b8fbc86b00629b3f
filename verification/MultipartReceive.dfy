/** The parser object fed a whole message, piece by piece. */
module MultipartReceive {
  import opened Basics
  import opened MultipartSpec
  import opened Multipart
  import opened MultipartRoundTrip
  import opened FormHeaders
  import opened MultipartNames

  /** Feeds the pieces until one is refused. */
  method FeedPieces(p: FormDataParser, env: Env, chunks: seq<string>) returns (ok: bool)
    requires p.Valid() && env.boundary == p.boundary
    modifies p
    ensures p.Valid()
    ensures (ok, p.Abs()) == FeedAll(env, old(p.Abs()), chunks)
  {
    ghost var goal := FeedAll(env, p.Abs(), chunks);
    assert chunks[0..] == chunks;
    for i := 0 to |chunks|
      invariant p.Valid() && FeedAll(env, p.Abs(), chunks[i..]) == goal
    {
      assert chunks[i..][0] == chunks[i] && chunks[i..][1..] == chunks[i + 1..];
      ok := p.Parse(env, chunks[i]);
      if !ok {
        return false;
      }
    }
    return true;
  }

  /** A new parser fed any pieces of the serialized items: it ends valid and has announced exactly them. */
  method Receive(env: Env, decode: Decoder, items: seq<Item>, chunks: seq<string>) returns (p: FormDataParser)
    requires AcceptsAll(env) && Shortens(decode) && items != [] && GoodParts(env, Parts(items))
    requires Flatten(chunks) == Serialize(items, env.boundary, true)
    ensures p.isValid && Collect(p.events) == Parts(items)
    ensures ItemsOf(decode, Collect(p.events)) == items <==> forall i :: 0 <= i < |items| ==> Plain(items[i])
  {
    p := new FormDataParser(env.boundary);
    var ok := FeedPieces(p, env, chunks);
    RoundTrip(env, decode, items, chunks);
  }
}
