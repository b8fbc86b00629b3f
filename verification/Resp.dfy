/**
 The Redis serialization protocol as the test driver speaks it: commands out, replies in.

 `ReadReply` is the reader on a byte sequence: the prefix decides what the line behind it means, arrays
 are read element by element, and any exception ends the whole.  Numbers are read as Python's `int`
 reads them.

 `Print` writes reply trees as a server sends them.  `RoundTrip` says what the reader makes of them,
 however nested: their meaning, or the exception for an error somewhere in them.
 */
module Resp {
  import opened Basics
  import opened Text
  import opened Numerals

  /** What `_read_reply` returns; texts are taken as their UTF-8 bytes. */
  datatype Reply = Str(text: string) | Int(value: int) | Nil | List(items: seq<Reply>)

  /** `Failed` stands for any exception. */
  datatype Outcome = Failed | Got(reply: Reply, rest: string)
  datatype Outcomes = AllFailed | AllGot(replies: seq<Reply>, rest: string)

  // ------------------------------------------------------------------- the reader

  /** `readline`: up to and including the first line feed, or everything. */
  function LineLength(data: string): (n: nat)
    ensures n <= |data|
  {
    if data == "" then 0 else if data[0] == '\n' then 1 else 1 + LineLength(data[1..])
  }

  /** `rstrip(b"\r\n")`. */
  function RStrip(s: string): string {
    if s != "" && (s[|s| - 1] == '\r' || s[|s| - 1] == '\n') then RStrip(s[..|s| - 1]) else s
  }

  function Min(a: nat, b: nat): nat { if a < b then a else b }

  function StripRight(s: string): string {
    if s != "" && IsSpace(s[|s| - 1]) then StripRight(s[..|s| - 1]) else s
  }

  /** Digits, with single underscores between them. */
  predicate Grouped(s: string) {
    s != "" && IsDigit(s[|s| - 1], 10) && forall i :: 0 <= i < |s| ==> GroupedAt(s, i)
  }

  predicate GroupedAt(s: string, i: nat)
    requires i < |s|
  {
    IsDigit(s[i], 10) || (s[i] == '_' && i > 0 && IsDigit(s[i - 1], 10))
  }

  function Ungrouped(s: string): (r: string)
    ensures AllDigits(r, 10)
  {
    if s == "" then "" else (if IsDigit(s[0], 10) then [s[0]] else "") + Ungrouped(s[1..])
  }

  datatype Number = NotANumber | Number(value: int)

  /** Python's `int` of a byte string. */
  function ParseInt(s: string): Number {
    var t := StripRight(StripLeft(s));
    var signed, negative := t != "" && (t[0] == '-' || t[0] == '+'), t != "" && t[0] == '-';
    var u := if signed then t[1..] else t;
    if !Grouped(u) then NotANumber
    else
      var v: int := Value(Ungrouped(u), 10);
      Number(if negative then -v else v)
  }

  function ReadReply(data: string): (o: Outcome)
    ensures o.Got? ==> |o.rest| < |data|
    decreases |data|, 0
  {
    if data == "" then Failed
    else
      var n := LineLength(data[1..]);
      Interpret(data[0], RStrip(data[1..][..n]), data[1..][n..])
  }

  /** What the prefix makes of the line behind it. */
  function Interpret(prefix: char, line: string, rest: string): (o: Outcome)
    ensures o.Got? ==> |o.rest| <= |rest|
    decreases |rest|, 2
  {
    match prefix
    case '+' => Got(Str(line), rest)
    case ':' =>
      (match ParseInt(line)
       case NotANumber => Failed
       case Number(v) => Got(Int(v), rest))
    case '$' =>
      (match ParseInt(line)
       case NotANumber => Failed
       case Number(v) => if v < 0 then Got(Nil, rest) else ReadBulk(v, rest))
    case '*' =>
      (match ParseInt(line)
       case NotANumber => Failed
       case Number(v) => if v < 0 then Got(Nil, rest) else AsList(ReadReplies(rest, v)))
    case _ => Failed
  }

  function AsList(o: Outcomes): Outcome {
    match o
    case AllFailed => Failed
    case AllGot(replies, rest) => Got(List(replies), rest)
  }

  /** The data of a bulk string and the two bytes after it, or what there is of them. */
  function ReadBulk(length: nat, data: string): (o: Outcome)
    ensures o.Got? && |o.rest| <= |data|
  {
    var n := Min(length, |data|);
    Got(Str(data[..n]), data[Min(n + 2, |data|)..])
  }

  function ReadReplies(data: string, n: nat): (o: Outcomes)
    ensures o.AllGot? ==> |o.rest| <= |data| && |o.replies| == n
    decreases |data|, 1
  {
    if n == 0 then AllGot([], data)
    else
      match ReadReply(data)
      case Failed => AllFailed
      case Got(r, rest) =>
        match ReadReplies(rest, n - 1)
        case AllFailed => AllFailed
        case AllGot(rs, rest') => AllGot([r] + rs, rest')
  }

  // ------------------------------------------------------------------- the printers

  /** Replies as a server sends them. */
  datatype Tree =
    | Simple(text: string)
    | Failure(text: string)
    | Integer(value: int)
    | Bulk(text: string)
    | NullBulk
    | NullArray
    | Array(items: seq<Tree>)

  function Line(prefix: char, s: string): string { [prefix] + s + "\r\n" }

  function Print(t: Tree): string
    decreases t
  {
    match t
    case Simple(text) => Line('+', text)
    case Failure(text) => Line('-', text)
    case Integer(v) => Line(':', ShowInt(v))
    case Bulk(text) => Line('$', ShowInt(|text|)) + text + "\r\n"
    case NullBulk => Line('$', ShowInt(-1))
    case NullArray => Line('*', ShowInt(-1))
    case Array(items) => Line('*', ShowInt(|items|)) + PrintAll(items)
  }

  function PrintAll(ts: seq<Tree>): string
    decreases ts
  {
    if ts == [] then "" else Print(ts[0]) + PrintAll(ts[1..])
  }

  /** An error anywhere in the reply is raised as an exception. */
  ghost predicate Fails(t: Tree)
    decreases t
  {
    match t
    case Failure(_) => true
    case Array(items) => exists i :: 0 <= i < |items| && Fails(items[i])
    case _ => false
  }

  /** What a reply without an error means. */
  function Meaning(t: Tree): Reply
    decreases t
  {
    match t
    case Simple(text) => Str(text)
    case Failure(_) => Nil
    case Integer(v) => Int(v)
    case Bulk(text) => Str(text)
    case NullBulk => Nil
    case NullArray => Nil
    case Array(items) => List(Meanings(items))
  }

  function Meanings(ts: seq<Tree>): (rs: seq<Reply>)
    decreases ts
  {
    if ts == [] then [] else [Meaning(ts[0])] + Meanings(ts[1..])
  }

  /** A simple string holds neither carriage return nor line feed; all else is free. */
  ghost predicate Sendable(t: Tree)
    decreases t
  {
    match t
    case Simple(text) => forall i :: 0 <= i < |text| ==> text[i] != '\r' && text[i] != '\n'
    case Array(items) => forall i :: 0 <= i < |items| ==> Sendable(items[i])
    case _ => true
  }

  // --------------------------------------------------------------------- round trip

  ghost predicate OneLine(s: string) { forall i :: 0 <= i < |s| ==> s[i] != '\r' && s[i] != '\n' }

  lemma {:induction false} LineLengthIs(s: string, rest: string)
    requires OneLine(s)
    ensures LineLength(s + "\r\n" + rest) == |s| + 2
  {
    var data := s + "\r\n" + rest;
    if s == "" {
      assert data[0] == '\r' && data[1..][0] == '\n';
    } else {
      LineLengthIs(s[1..], rest);
      assert data[1..] == s[1..] + "\r\n" + rest;
    }
  }

  lemma RStripLine(s: string)
    requires OneLine(s)
    ensures RStrip(s + "\r\n") == s
  {
    var t, u := s + "\r\n", s + "\r";
    assert t[|t| - 1] == '\n' && t[..|t| - 1] == u;
    assert u[|u| - 1] == '\r' && u[..|u| - 1] == s;
    assert RStrip(t) == RStrip(u) == RStrip(s);
  }

  /** The reader takes one line and leaves the rest. */
  lemma ReadsLine(prefix: char, s: string, rest: string, data: string)
    requires OneLine(s) && data == Line(prefix, s) + rest
    ensures ReadReply(data) == Interpret(prefix, s, rest)
  {
    var tail := s + "\r\n" + rest;
    assert data[0] == prefix && data[1..] == tail;
    LineLengthIs(s, rest);
    RStripLine(s);
    assert tail[..|s| + 2] == s + "\r\n" && tail[|s| + 2..] == rest;
  }

  lemma {:induction false} UngroupedDigits(s: string)
    requires AllDigits(s, 10)
    ensures Ungrouped(s) == s
  {
    if s != "" {
      UngroupedDigits(s[1..]);
    }
  }

  lemma DigitsParse(s: string, n: int)
    requires s != "" && AllDigits(s, 10) && Value(s, 10) == n
    ensures ParseInt(s) == Number(n) && OneLine(s)
  {
    assert IsDigit(s[0], 10) && IsDigit(s[|s| - 1], 10);
    assert StripLeft(s) == s && StripRight(s) == s;
    UngroupedDigits(s);
    DigitsOneLine(s);
  }

  lemma DigitsOneLine(s: string)
    requires AllDigits(s, 10)
    ensures OneLine(s) && OneLine("-" + s)
  {
    forall i | 0 <= i < |s|
      ensures s[i] != '\r' && s[i] != '\n'
    {
      assert IsDigit(s[i], 10);
    }
  }

  lemma NegativeParses(s: string, t: string, n: int)
    requires s != "" && AllDigits(s, 10) && Value(s, 10) == n && t == "-" + s
    ensures ParseInt(t) == Number(-n)
  {
    assert IsDigit(s[|s| - 1], 10);
    assert t[0] == '-' && t[1..] == s && t[|t| - 1] == s[|s| - 1];
    assert StripLeft(t) == t && StripRight(t) == t;
    UngroupedDigits(s);
  }

  lemma IntParses(n: int)
    ensures ParseInt(ShowInt(n)) == Number(n) && OneLine(ShowInt(n))
  {
    var m := if n < 0 then -n else n;
    ValueShow(m, 10);
    DigitsOneLine(Show(m, 10));
    if n < 0 {
      NegativeParses(Show(m, 10), ShowInt(n), m);
    } else {
      DigitsParse(Show(m, 10), m);
    }
  }

  lemma BulkReads(line: string, text: string, rest: string, data: string)
    requires ParseInt(line) == Number(|text|) && data == text + "\r\n" + rest
    ensures Interpret('$', line, data) == Got(Str(text), rest)
  {
    assert data[..|text|] == text && data[|text| + 2..] == rest;
  }

  lemma {:induction false} StripsLeft(ws: string, t: string)
    requires (forall i :: 0 <= i < |ws| ==> IsSpace(ws[i])) && (t != "" ==> !IsSpace(t[0]))
    ensures StripLeft(ws + t) == t
  {
    if ws == "" {
      assert ws + t == t;
    } else {
      StripsLeft(ws[1..], t);
      assert (ws + t)[1..] == ws[1..] + t;
    }
  }

  lemma {:induction false} StripsRight(t: string, ws: string)
    requires (forall i :: 0 <= i < |ws| ==> IsSpace(ws[i])) && (t != "" ==> !IsSpace(t[|t| - 1]))
    ensures StripRight(t + ws) == t
  {
    if ws == "" {
      assert t + ws == t;
    } else {
      StripsRight(t, ws[..|ws| - 1]);
      assert (t + ws)[..|t + ws| - 1] == t + ws[..|ws| - 1];
    }
  }

  lemma GroupedFirst(u: string)
    requires Grouped(u)
    ensures IsDigit(u[0], 10)
  {
    assert GroupedAt(u, 0);
  }

  /** White space around a number, and a sign of either kind, are taken; so are underscores between digits. */
  lemma LenientInt(ws: string, sign: string, u: string, ws': string, s: string)
    requires (forall i :: 0 <= i < |ws| ==> IsSpace(ws[i])) && forall i :: 0 <= i < |ws'| ==> IsSpace(ws'[i])
    requires (sign == "" || sign == "+" || sign == "-") && Grouped(u) && s == ws + (sign + u + ws')
    ensures ParseInt(s) == Number(if sign == "-" then 0 - Value(Ungrouped(u), 10) else Value(Ungrouped(u), 10))
  {
    var t := sign + u;
    GroupedFirst(u);
    assert sign != "" ==> t[0] == sign[0] && t[1..] == u;
    assert sign == "" ==> t == u;
    assert t[|t| - 1] == u[|u| - 1];
    StripsLeft(ws, t + ws');
    StripsRight(t, ws');
  }

  /** Two runs of digits with an underscore between them; one alone, or at an end, is none. */
  lemma Underscores(a: string, b: string, s: string)
    requires AllDigits(a, 10) && AllDigits(b, 10) && s == a + "_" + b
    ensures Grouped(s) <==> a != "" && b != ""
    ensures Ungrouped(s) == a + b
  {
    UngroupedJoin(a, b);
    if a != "" && b != "" {
      BothRuns(a, b, s);
    } else if b == "" {
      assert s[|s| - 1] == '_';
    } else {
      assert s[0] == '_' && !GroupedAt(s, 0);
    }
  }

  lemma BothRuns(a: string, b: string, s: string)
    requires AllDigits(a, 10) && AllDigits(b, 10) && s == a + "_" + b && a != "" && b != ""
    ensures Grouped(s)
  {
    assert s[|s| - 1] == b[|b| - 1] && IsDigit(b[|b| - 1], 10);
    forall i | 0 <= i < |s|
      ensures GroupedAt(s, i)
    {
      if i < |a| {
        assert s[i] == a[i] && IsDigit(a[i], 10);
      } else if i > |a| {
        assert s[i] == b[i - |a| - 1] && IsDigit(b[i - |a| - 1], 10);
      } else {
        assert s[i] == '_' && s[i - 1] == a[i - 1] && IsDigit(a[i - 1], 10);
      }
    }
  }

  lemma {:induction false} UngroupedJoin(a: string, b: string)
    requires AllDigits(a, 10) && AllDigits(b, 10)
    ensures Ungrouped(a + "_" + b) == a + b
  {
    var s := a + "_" + b;
    if a == "" {
      assert s[0] == '_' && s[1..] == b;
      UngroupedDigits(b);
      assert "" + b == b;
    } else {
      assert s[0] == a[0] && s[1..] == a[1..] + "_" + b;
      UngroupedJoin(a[1..], b);
      assert [a[0]] + (a[1..] + b) == a + b;
    }
  }

  /** Whatever begins with an error mark, or with no mark at all, raises an exception. */
  lemma OtherPrefix(data: string)
    requires data == "" || (data[0] != '+' && data[0] != ':' && data[0] != '$' && data[0] != '*')
    ensures ReadReply(data) == Failed
  {
  }

  /** And so does a number line that is no number. */
  lemma BadNumber(prefix: char, s: string, rest: string)
    requires prefix == ':' || prefix == '$' || prefix == '*'
    requires OneLine(s) && ParseInt(s) == NotANumber
    ensures ReadReply(Line(prefix, s) + rest) == Failed
  {
    ReadsLine(prefix, s, rest, Line(prefix, s) + rest);
  }

  /**
   Reading a printed reply gives its meaning and leaves exactly what followed it, unless there is an error
   somewhere in it, which is raised.
   */
  lemma {:induction false} RoundTrip(t: Tree, rest: string)
    requires Sendable(t)
    ensures ReadReply(Print(t) + rest) == if Fails(t) then Failed else Got(Meaning(t), rest)
    decreases t
  {
    var data := Print(t) + rest;
    match t
    case Simple(text) => SimpleRoundTrip('+', text, rest, data);
    case Failure(text) =>
      assert data[0] == '-';
      OtherPrefix(data);
    case Integer(v) => IntegerRoundTrip(v, rest, data);
    case NullBulk => NullRoundTrip('$', -1, rest, data);
    case NullArray => NullRoundTrip('*', -1, rest, data);
    case Bulk(text) => BulkRoundTrip(Line('$', ShowInt(|text|)), text, "\r\n", rest, data);
    case Array(items) =>
      RoundTrips(items, rest);
      ArrayRoundTrip(Line('*', ShowInt(|items|)), |items|, PrintAll(items), rest, data);
  }

  lemma NumberLine(prefix: char, n: int, rest: string, data: string)
    requires data == Line(prefix, ShowInt(n)) + rest
    ensures ReadReply(data) == Interpret(prefix, ShowInt(n), rest)
    ensures ParseInt(ShowInt(n)) == Number(n)
  {
    IntParses(n);
    ReadsLine(prefix, ShowInt(n), rest, data);
  }

  lemma SimpleRoundTrip(plus: char, text: string, rest: string, data: string)
    requires plus == '+' && OneLine(text) && data == Line(plus, text) + rest
    ensures ReadReply(data) == Got(Str(text), rest)
  {
    ReadsLine(plus, text, rest, data);
  }

  lemma IntegerRoundTrip(v: int, rest: string, data: string)
    requires data == Line(':', ShowInt(v)) + rest
    ensures ReadReply(data) == Got(Int(v), rest)
  {
    NumberLine(':', v, rest, data);
    NumberReads(ShowInt(v), v, rest);
  }

  lemma NullRoundTrip(prefix: char, v: int, rest: string, data: string)
    requires (prefix == '$' || prefix == '*') && v < 0 && data == Line(prefix, ShowInt(v)) + rest
    ensures ReadReply(data) == Got(Nil, rest)
  {
    NumberLine(prefix, v, rest, data);
    NumberReads(ShowInt(v), v, rest);
  }

  lemma NumberReads(line: string, v: int, rest: string)
    requires ParseInt(line) == Number(v)
    ensures Interpret(':', line, rest) == Got(Int(v), rest)
    ensures v < 0 ==> Interpret('$', line, rest) == Interpret('*', line, rest) == Got(Nil, rest)
    ensures v >= 0 ==> Interpret('*', line, rest) == AsList(ReadReplies(rest, v))
  {
  }

  lemma BulkRoundTrip(head: string, text: string, nl: string, rest: string, data: string)
    requires head == Line('$', ShowInt(|text|)) && nl == "\r\n" && data == head + text + nl + rest
    ensures ReadReply(data) == Got(Str(text), rest)
  {
    var tail := text + nl + rest;
    Regrouped(head, text, nl, rest);
    NumberLine('$', |text|, tail, data);
    BulkReads(ShowInt(|text|), text, rest, tail);
  }

  lemma Regrouped(a: string, b: string, c: string, d: string)
    ensures a + b + c + d == a + (b + c + d)
  {
  }

  lemma ArrayRoundTrip(head: string, n: nat, body: string, rest: string, data: string)
    requires head == Line('*', ShowInt(n)) && data == head + body + rest
    ensures ReadReply(data) == AsList(ReadReplies(body + rest, n))
  {
    Associate(head, body, rest);
    NumberLine('*', n, body + rest, data);
    NumberReads(ShowInt(n), n, body + rest);
  }

  lemma {:induction false} RoundTrips(ts: seq<Tree>, rest: string)
    requires forall i :: 0 <= i < |ts| ==> Sendable(ts[i])
    ensures ReadReplies(PrintAll(ts) + rest, |ts|) == if AnyFails(ts) then AllFailed else AllGot(Meanings(ts), rest)
    decreases ts
  {
    if ts == [] {
      assert "" + rest == rest;
    } else {
      RoundTrip(ts[0], PrintAll(ts[1..]) + rest);
      RoundTrips(ts[1..], rest);
      Associate(Print(ts[0]), PrintAll(ts[1..]), rest);
      FirstFails(ts);
    }
  }

  ghost predicate AnyFails(ts: seq<Tree>) { exists i :: 0 <= i < |ts| && Fails(ts[i]) }

  lemma FirstFails(ts: seq<Tree>)
    requires ts != []
    ensures AnyFails(ts) <==> Fails(ts[0]) || AnyFails(ts[1..])
  {
    if AnyFails(ts) && !Fails(ts[0]) {
      var i :| 0 <= i < |ts| && Fails(ts[i]);
      assert ts[1..][i - 1] == ts[i];
    }
    if AnyFails(ts[1..]) {
      var i :| 0 <= i < |ts| - 1 && Fails(ts[1..][i]);
      assert ts[i + 1] == ts[1..][i];
    }
  }

  // ----------------------------------------------------------------------- commands

  function Bulks(args: seq<string>): (ts: seq<Tree>)
    ensures |ts| == |args| && forall i :: 0 <= i < |args| ==> ts[i] == Bulk(args[i])
  {
    if args == [] then [] else [Bulk(args[0])] + Bulks(args[1..])
  }

  /** `_encode`, whose arguments have already been turned into bytes. */
  method Encode(args: seq<string>) returns (out: string)
    ensures out == Print(Array(Bulks(args)))
  {
    out := Line('*', ShowInt(|args|));
    ghost var goal := Print(Array(Bulks(args)));
    assert args[0..] == args;
    for i := 0 to |args|
      invariant out + PrintAll(Bulks(args[i..])) == goal
    {
      NextArgument(out, args, i);
      out := out + Line('$', ShowInt(|args[i]|));
      out := out + args[i];
      out := out + "\r\n";
    }
  }

  lemma NextArgument(out: string, args: seq<string>, i: nat)
    requires i < |args|
    ensures out + PrintAll(Bulks(args[i..]))
         == out + Line('$', ShowInt(|args[i]|)) + args[i] + "\r\n" + PrintAll(Bulks(args[i + 1..]))
  {
    var ts := Bulks(args[i..]);
    assert args[i..][1..] == args[i + 1..];
    assert ts[0] == Bulk(args[i]) && ts[1..] == Bulks(args[i + 1..]);
    Regroup(out, Line('$', ShowInt(|args[i]|)), args[i], "\r\n", PrintAll(Bulks(args[i + 1..])));
  }

  lemma Regroup(a: string, b: string, c: string, d: string, e: string)
    ensures a + ((b + c + d) + e) == a + b + c + d + e
  {
  }

  function Strings(args: seq<string>): (rs: seq<Reply>)
    ensures |rs| == |args| && forall i :: 0 <= i < |args| ==> rs[i] == Str(args[i])
  {
    seq(|args|, i requires 0 <= i < |args| => Str(args[i]))
  }

  lemma {:induction false} MeaningsOfBulks(args: seq<string>)
    ensures Meanings(Bulks(args)) == Strings(args)
  {
    if args != [] {
      MeaningsOfBulks(args[1..]);
      assert Bulks(args)[1..] == Bulks(args[1..]);
    }
  }

  /** An encoded command, whatever its arguments, reads back as the list of them. */
  lemma CommandRoundTrip(args: seq<string>, rest: string)
    ensures ReadReply(Print(Array(Bulks(args))) + rest) == Got(List(Strings(args)), rest)
  {
    RoundTrip(Array(Bulks(args)), rest);
    MeaningsOfBulks(args);
  }
}
