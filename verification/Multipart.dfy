/**
 `FormDataParser`: the parser object with its sliding buffer.

 The buffer is a growing text with a start and an end position; the window is what lies between them.
 `StartWith` and `BufFind` look into the window, `BufAppend` slides, grows and fills it, `BufErase`
 drops its front.

 Each state of the parse loop is a method that refines its step function in MultipartSpec.dfy; `Trip` is
 one trip round the loop and `Parse` the whole call, which goes exactly where `Feed` says.
 */
module Multipart {
  import opened Text
  import opened MultipartSpec

  class FormDataParser {
    const boundary: string
    const dashBoundaryCrlf: string
    const crlfDashBoundary: string

    var state: nat
    var isValid: bool
    var lines: seq<string>   // header lines of the entry being read
    var buf: string
    var spos: nat
    var epos: nat
    var events: seq<Event>   // calls made to the two callbacks

    ghost predicate Valid()
      reads this
    {
      && state <= 4
      && spos <= epos <= |buf|
      && dashBoundaryCrlf == DASH + boundary + CRLF
      && crlfDashBoundary == CRLF + DASH + boundary
    }

    ghost function Window(): string
      requires Valid()
      reads this
    {
      buf[spos..epos]
    }

    ghost function Abs(): Parser
      requires Valid()
      reads this
    {
      Parser(state, isValid, lines, Window(), events)
    }

    constructor (boundary: string)
      ensures Valid() && this.boundary == boundary && Abs() == INITIAL
    {
      this.boundary := boundary;
      dashBoundaryCrlf := DASH + boundary + CRLF;
      crlfDashBoundary := CRLF + DASH + boundary;
      state, isValid, lines, buf, spos, epos, events := 0, false, [], "", 0, 0, [];
    }

    /** Whether `b` is found at absolute position `at` of the buffer. */
    method StartWith(at: nat, b: string) returns (r: bool)
      requires Valid() && spos <= at <= epos
      ensures r == OccursAt(Window(), b, at - spos)
    {
      if epos - at < |b| {
        return false;
      }
      var i := 0;
      while i < |b| && buf[at + i] == b[i]
        invariant 0 <= i <= |b|
        invariant forall j {:trigger b[j]} :: 0 <= j < i ==> buf[at + j] == b[j]
      {
        i := i + 1;
      }
      SliceOfSlice(buf, spos, epos, at, b);
      return i == |b|;
    }

    static lemma SliceOfSlice(buf: string, spos: nat, epos: nat, at: nat, b: string)
      requires spos <= at && at + |b| <= epos <= |buf|
      ensures OccursAt(buf[spos..epos], b, at - spos) <==>
              forall j {:trigger b[j]} :: 0 <= j < |b| ==> buf[at + j] == b[j]
    {
      var slice := buf[spos..epos][at - spos..at - spos + |b|];
      forall j {:trigger b[j]} | 0 <= j < |b|
        ensures slice[j] == buf[at + j]
      {
        assert buf[spos..epos][at - spos + j] == buf[at + j];
      }
    }

    method BufFind(s: string) returns (r: nat)
      requires Valid() && s != ""
      ensures r == Find(Window(), s)
    {
      var c := s[0];
      var off := spos;
      while off < epos
        invariant spos <= off <= epos
        invariant forall j :: 0 <= j < off - spos ==> !OccursAt(Window(), s, j)
      {
        var pos := off;
        while pos < epos && buf[pos] != c
          invariant off <= pos <= epos
          invariant forall j :: 0 <= j < pos - spos ==> !OccursAt(Window(), s, j)
        {
          NoMatchAt(s, pos);
          pos := pos + 1;
        }
        if pos == epos || |s| > epos - pos {
          FindNone(Window(), s);
          return epos - spos;
        }
        var hit := StartWith(pos, s);
        if hit {
          FindIs(Window(), s, pos - spos);
          return pos - spos;
        }
        off := pos + 1;
      }
      FindNone(Window(), s);
      return epos - spos;
    }

    lemma NoMatchAt(s: string, pos: nat)
      requires Valid() && s != ""
      requires spos <= pos < epos && buf[pos] != s[0]
      ensures !OccursAt(Window(), s, pos - spos)
    {
      assert Window()[pos - spos] == buf[pos];
    }

    /** Slides the unread bytes to the front: a forward copy onto itself. */
    method Slide()
      requires Valid()
      modifies this`buf, this`spos, this`epos
      ensures Valid() && spos == 0
      ensures Window() == old(Window())
    {
      var remaining := epos - spos;
      ghost var window := Window();
      if remaining > 0 && spos > 0 {
        var i := 0;
        while i < remaining
          invariant 0 <= i <= remaining == |window| == epos - spos
          invariant 0 < spos && epos <= |buf|
          invariant forall j :: 0 <= j < i ==> buf[j] == window[j]
          invariant forall j :: i <= j < remaining ==> buf[spos + j] == window[j]
        {
          buf := buf[i := buf[spos + i]];
          i := i + 1;
        }
      }
      spos, epos := 0, remaining;
      assert buf[0..remaining] == window;
    }

    /** Adds `data` behind the unread bytes. */
    method BufAppend(data: string)
      requires Valid()
      modifies this`buf, this`spos, this`epos
      ensures Valid()
      ensures Window() == old(Window()) + data
    {
      Slide();
      ghost var window := Window();
      var remaining := epos;
      if remaining + |data| > |buf| {
        buf := buf + seq(remaining + |data| - |buf|, _ => '\0');
      }
      var i := 0;
      while i < |data|
        invariant 0 <= i <= |data| && remaining == epos == |window| && spos == 0
        invariant remaining + |data| <= |buf|
        invariant forall j :: 0 <= j < remaining ==> buf[j] == window[j]
        invariant forall j :: 0 <= j < i ==> buf[remaining + j] == data[j]
      {
        buf := buf[epos + i := data[i]];
        i := i + 1;
      }
      epos := epos + |data|;
      assert buf[0..epos] == window + data;
    }

    /** The empty line: announces the entry. */
    method Announce(env: Env) returns (ok: bool)
      requires Valid() && state == 2 && 0 == Find(Window(), CRLF) < epos - spos
      modifies this
      ensures Valid()
      ensures HeaderLoop(env, old(Abs())) == if ok then More(Abs()) else Return(false, Abs())
    {
      HeaderLoopAnnounces(env, Abs());
      events := events + [Header(lines)];
      ok := env.accept(events);
      if ok {
        spos, state := spos + 2, 3;
      } else {
        isValid := false;
      }
    }

    /** One header line, ended by the CRLF found at `pos`. */
    method ReadLine(env: Env, pos: nat) returns (ok: bool)
      requires Valid() && state == 2 && 0 < pos == Find(Window(), CRLF) < epos - spos
      modifies this
      ensures Valid()
      ensures ok ==> state == 2 && epos - spos < old(epos - spos)
      ensures HeaderLoop(env, old(Abs())) == if ok then HeaderLoop(env, Abs()) else Return(false, Abs())
    {
      ghost var p := Abs();
      HeaderLoopReads(env, p, pos);
      var header := buf[spos..spos + pos];
      assert header == p.window[..pos];
      ok := env.lineOk(header);
      if ok {
        lines, spos := lines + [header], spos + pos + 2;
        assert Window() == p.window[pos + 2..];
      } else {
        isValid := false;
      }
    }

    /** The loop of state 2; without `more`, parse returns `ok`. */
    method ParseHeaders(env: Env) returns (more: bool, ok: bool)
      requires Valid() && state == 2
      modifies this
      ensures Valid()
      ensures HeaderLoop(env, old(Abs())) == if more then More(Abs()) else Return(ok, Abs())
    {
      ghost var start := HeaderLoop(env, Abs());
      var pos := BufFind(CRLF);
      while pos < epos - spos
        invariant Valid() && state == 2
        invariant pos == Find(Window(), CRLF)
        invariant HeaderLoop(env, Abs()) == start
        decreases epos - spos
      {
        if pos == 0 {
          ok := Announce(env);
          return ok, ok;
        }
        ok := ReadLine(env, pos);
        if !ok {
          return false, false;
        }
        pos := BufFind(CRLF);
      }
      HeaderLoopWaits(env, Abs());
      return false, true;
    }

    method BufErase(n: nat)
      requires Valid() && n <= epos - spos
      modifies this`spos
      ensures Valid()
      ensures Window() == old(Window())[n..]
    {
      spos := spos + n;
    }

    /** Calls the content callback with the first `len` unread bytes and, if it accepts, goes on. */
    method Deliver(env: Env, len: nat, skip: nat, next: nat) returns (ok: bool)
      requires Valid() && len <= skip <= epos - spos && next <= 4
      modifies this
      ensures Valid()
      ensures DeliverStep(env, old(Abs()), len, skip, next) == if ok then More(Abs()) else Return(false, Abs())
    {
      ghost var p := Abs();
      var data := buf[spos..spos + len];
      assert data == p.window[..len];
      events := events + [Content(data)];
      ok := env.accept(events);
      if ok {
        spos, state := spos + skip, next;
        assert Window() == p.window[skip..];
      } else {
        isValid := false;
      }
    }

    /** The delimiter has been found at `pos`: the content in front of it is the last of the body. */
    method EndBody(env: Env, pos: nat) returns (ok: bool)
      requires Valid() && pos == Find(Window(), crlfDashBoundary) < epos - spos && |crlfDashBoundary| <= epos - spos
      modifies this
      ensures Valid() && crlfDashBoundary != ""
      ensures BodyUpTo(env, crlfDashBoundary, old(Abs())) == if ok then More(Abs()) else Return(false, Abs())
    {
      BodyFound(env, crlfDashBoundary, Abs(), pos);
      ok := Deliver(env, pos, pos + |crlfDashBoundary|, 4);
    }

    /** No delimiter yet: all but as many bytes as it has are handed out. */
    method HandOut(env: Env) returns (ok: bool)
      requires Valid() && state == 3 && |crlfDashBoundary| <= epos - spos == Find(Window(), crlfDashBoundary)
      modifies this
      ensures Valid() && crlfDashBoundary != ""
      ensures BodyUpTo(env, crlfDashBoundary, old(Abs())) == Return(ok, Abs())
    {
      BodyHeld(env, crlfDashBoundary, Abs());
      ok := true;
      var len := epos - spos - |crlfDashBoundary|;
      if len > 0 {
        ok := Deliver(env, len, len, 3);
      }
    }

    /** State 3. */
    method ParseBody(env: Env) returns (more: bool, ok: bool)
      requires Valid() && state == 3
      modifies this
      ensures Valid() && crlfDashBoundary != ""
      ensures BodyUpTo(env, crlfDashBoundary, old(Abs())) == if more then More(Abs()) else Return(ok, Abs())
    {
      if |crlfDashBoundary| > epos - spos {
        BodyShort(env, crlfDashBoundary, Abs());
        return false, true;
      }
      var pos := BufFind(crlfDashBoundary);
      if pos < epos - spos {
        ok := EndBody(env, pos);
        more := ok;
      } else {
        ok := HandOut(env);
        more := false;
      }
    }

    /** State 4. */
    method ParseDelimiter() returns (more: bool)
      requires Valid() && state == 4
      modifies this
      ensures Valid()
      ensures DelimiterStep(old(Abs())) == if more then More(Abs()) else Return(true, Abs())
    {
      if epos - spos < |CRLF| {
        return false;
      }
      var crlf := StartWith(spos, CRLF);
      var dash := StartWith(spos, DASH);
      if crlf {
        spos, state := spos + |CRLF|, 1;
      } else if dash {
        isValid, spos := true, epos;
      }
      return crlf || dash;
    }

    /** State 0. */
    method ParseInitialBoundary(env: Env) returns (more: bool)
      requires Valid() && env.boundary == boundary && state == 0 && spos < epos
      modifies this
      ensures Valid()
      ensures Iterate(env, old(Abs())) == if more then More(Abs()) else Return(true, Abs())
    {
      var pos := BufFind(dashBoundaryCrlf);
      if pos == epos - spos {
        return false;
      }
      BufErase(pos + |dashBoundaryCrlf|);
      state := 1;
      return true;
    }

    /** One trip round the parse loop. */
    method Trip(env: Env) returns (more: bool, ok: bool)
      requires Valid() && env.boundary == boundary && spos < epos
      modifies this
      ensures Valid()
      ensures Iterate(env, old(Abs())) == if more then More(Abs()) else Return(ok, Abs())
    {
      match state {
        case 0 =>
          more := ParseInitialBoundary(env);
          ok := true;
        case 1 =>
          lines := [];
          state := 2;
          more, ok := true, true;
        case 2 =>
          var pos := BufFind(CRLF);
          if pos > HEADER_MAX_LENGTH {
            return false, false;
          }
          more, ok := ParseHeaders(env);
        case 3 =>
          more, ok := ParseBody(env);
        case _ =>
          more := ParseDelimiter();
          ok := true;
      }
    }

    /** Feeds one chunk: the object goes where `Feed` says. */
    method Parse(env: Env, chunk: string) returns (ok: bool)
      requires Valid() && env.boundary == boundary
      modifies this
      ensures Valid()
      ensures (ok, Abs()) == Feed(env, old(Abs()), chunk)
    {
      BufAppend(chunk);
      ghost var result := Run(env, Abs());
      assert result == Feed(env, old(Abs()), chunk);
      while epos - spos > 0
        invariant Valid()
        invariant Run(env, Abs()) == result
        decreases epos - spos, if state == 1 then 1 else 0
      {
        ghost var p := Abs();
        assert |p.window| == epos - spos;
        var more;
        more, ok := Trip(env);
        assert Run(env, p) == if more then Run(env, Abs()) else (ok, Abs());
        if !more {
          return ok;
        }
        assert |Abs().window| == epos - spos;
      }
      return true;
    }
  }
}
