/**
 `_read_reply` on a stateful reader.

 The file is a buffered binary one: a read returns less than asked for only at the end.  The two methods
 call each other as the recursive function and its list comprehension do, and stop at the first
 exception; they are proved against `ReadReply` and `ReadReplies`.
 */
module RespReading {
  import opened Resp

  /** A buffered binary file: reads return less than asked for only at the end. */
  class Reader {
    var data: string

    constructor (data: string)
      ensures this.data == data
    {
      this.data := data;
    }

    method Read(n: nat) returns (bytes: string)
      modifies this
      ensures bytes == old(data)[..Min(n, |old(data)|)] && data == old(data)[Min(n, |old(data)|)..]
    {
      var k := Min(n, |data|);
      bytes, data := data[..k], data[k..];
    }

    /** Up to and including the first line feed. */
    method ReadLine() returns (line: string)
      modifies this
      ensures line == old(data)[..LineLength(old(data))] && data == old(data)[LineLength(old(data))..]
    {
      var k := LineLength(data);
      line, data := data[..k], data[k..];
    }
  }

  datatype Answer = Raised | Returned(reply: Reply)

  /** What the reader did to `before`, as the function says. */
  ghost predicate Agrees(o: Outcome, answer: Answer, after: string) {
    match o
    case Failed => answer.Raised?
    case Got(reply, rest) => answer == Returned(reply) && after == rest
  }

  method ReadReplyFrom(r: Reader) returns (answer: Answer)
    modifies r
    ensures Agrees(ReadReply(old(r.data)), answer, r.data)
    ensures |r.data| <= |old(r.data)|
    decreases |r.data|, 1
  {
    var prefix := r.Read(1);
    if prefix == "" {
      return Raised;
    }
    var line := r.ReadLine();
    answer := Interpreted(r, prefix[0], RStrip(line));
  }

  /** The branches on the prefix. */
  method Interpreted(r: Reader, prefix: char, line: string) returns (answer: Answer)
    modifies r
    ensures Agrees(Interpret(prefix, line, old(r.data)), answer, r.data)
    ensures |r.data| <= |old(r.data)|
    decreases |r.data|, 3
  {
    if prefix == '+' {
      return Returned(Str(line));
    }
    if prefix != ':' && prefix != '$' && prefix != '*' {
      return Raised;
    }
    var number := ParseInt(line);
    if number.NotANumber? {
      return Raised;
    }
    var length := number.value;
    if prefix == ':' {
      return Returned(Int(length));
    }
    if length < 0 {
      return Returned(Nil);
    }
    if prefix == '$' {
      answer := ReadBulkFrom(r, length);
    } else {
      answer := ReadListFrom(r, length);
    }
  }

  method ReadBulkFrom(r: Reader, length: nat) returns (answer: Answer)
    modifies r
    ensures Agrees(ReadBulk(length, old(r.data)), answer, r.data)
    ensures |r.data| <= |old(r.data)|
  {
    var data := r.Read(length);
    var end := r.Read(2);
    answer := Returned(Str(data));
  }

  /** The list comprehension: an exception in any element ends it. */
  method ReadListFrom(r: Reader, length: nat) returns (answer: Answer)
    modifies r
    ensures Agrees(AsList(ReadReplies(old(r.data), length)), answer, r.data)
    ensures |r.data| <= |old(r.data)|
    decreases |r.data|, 2
  {
    var items: seq<Reply> := [];
    ghost var all := ReadReplies(r.data, length);
    var i := 0;
    while i < length
      invariant 0 <= i <= length
      invariant |r.data| <= |old(r.data)|
      invariant all == After(items, ReadReplies(r.data, length - i))
    {
      ghost var before := r.data;
      var item := ReadReplyFrom(r);
      if item.Raised? {
        return Raised;
      }
      Extend(items, item.reply, ReadReplies(r.data, length - i - 1));
      items := items + [item.reply];
      i := i + 1;
    }
    assert items + [] == items;
    answer := Returned(List(items));
  }

  /** The items already read in front of what is still to come. */
  ghost function After(items: seq<Reply>, o: Outcomes): Outcomes {
    match o
    case AllFailed => AllFailed
    case AllGot(replies, rest) => AllGot(items + replies, rest)
  }

  lemma Extend(items: seq<Reply>, reply: Reply, o: Outcomes)
    ensures After(items, After([reply], o)) == After(items + [reply], o)
  {
    if o.AllGot? {
      assert items + ([reply] + o.replies) == items + [reply] + o.replies;
    }
  }
}
