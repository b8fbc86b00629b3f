/**
 Joining pieces with a delimiter, which splitting undoes.

 Pieces survive when they are not empty and hold neither the delimiter nor a blank: trimming
 then takes nothing away and no piece is dropped.  Printed key-value pairs are such pieces,
 because the percent codec leaves no delimiter and no blank in them.

 `JoinedFirst` is the text as a loop builds it from the front, `JoinedRest` the text as the
 splitting loop meets it; `FirstAndRest` ties the two together.
 */
module Joining {
  import opened Splitting

  /** Neither the delimiter nor a blank. */
  ghost predicate Free(p: string, d: char) { forall j :: 0 <= j < |p| ==> p[j] != d && !IsBlank(p[j]) }

  /** A piece that splitting and trimming leave as it is. */
  ghost predicate Solid(p: string, d: char) { p != "" && Free(p, d) }

  /** Two halves with a sign between them make a piece. */
  lemma SolidAround(a: string, sign: char, b: string, d: char)
    requires Free(a, d) && Free(b, d) && sign != d && !IsBlank(sign)
    ensures Solid(a + [sign] + b, d)
  {
  }

  /** The pieces from place `i` on, each behind a delimiter. */
  function JoinedRest(ps: seq<string>, i: nat, d: char): string
    requires i <= |ps|
    decreases |ps| - i
  {
    if i == |ps| then "" else [d] + ps[i] + JoinedRest(ps, i + 1, d)
  }

  function Joined(ps: seq<string>, d: char): string {
    if ps == [] then "" else ps[0] + JoinedRest(ps, 1, d)
  }

  /** The first `n` pieces with delimiters between them, as a loop builds them. */
  function JoinedFirst(ps: seq<string>, n: nat, d: char): string
    requires n <= |ps|
  {
    if n == 0 then ""
    else if n == 1 then JoinedFirst(ps, 0, d) + ps[0]
    else JoinedFirst(ps, n - 1, d) + [d] + ps[n - 1]
  }

  lemma {:induction false} FirstAndRest(ps: seq<string>, n: nat, d: char)
    requires 0 < n <= |ps|
    ensures JoinedFirst(ps, n, d) + JoinedRest(ps, n, d) == Joined(ps, d)
  {
    if n == 1 {
      assert JoinedFirst(ps, 0, d) + ps[0] == ps[0];
    } else {
      FirstAndRest(ps, n - 1, d);
      Delimit(JoinedFirst(ps, n - 1, d), d, ps[n - 1], JoinedRest(ps, n, d));
    }
  }

  lemma FirstIsAll(ps: seq<string>, d: char)
    ensures JoinedFirst(ps, |ps|, d) == Joined(ps, d)
  {
    if ps != [] {
      FirstAndRest(ps, |ps|, d);
      assert JoinedFirst(ps, |ps|, d) + "" == JoinedFirst(ps, |ps|, d);
    }
  }

  lemma Delimit(a: string, d: char, b: string, c: string)
    ensures a + ([d] + b + c) == a + [d] + b + c
    ensures a + ([d] + b + c) == a + [d] + (b + c)
  {
  }

  lemma SolidPiece(p: string, d: char, t: string)
    requires Solid(p, d)
    ensures Pieces(p + [d] + t, d) == [p] + Pieces(t, d)
    ensures Pieces(p, d) == [p]
  {
    TrimSolid(p);
    PiecesOfJoin(p, d, t);
  }

  lemma RestUnfolds(ps: seq<string>, i: nat, d: char)
    requires i < |ps|
    ensures JoinedRest(ps, i, d) == [d] + ps[i] + JoinedRest(ps, i + 1, d)
  {
  }

  lemma PiecesLast(ps: seq<string>, i: nat, d: char)
    requires i + 1 == |ps| && Solid(ps[i], d)
    ensures Pieces(ps[i] + JoinedRest(ps, i + 1, d), d) == ps[i..]
  {
    SolidPiece(ps[i], d, "");
    assert ps[i] + "" == ps[i];
  }

  lemma TextStep(ps: seq<string>, i: nat, d: char, text: string, rest: string)
    requires i + 1 < |ps| && rest == ps[i + 1] + JoinedRest(ps, i + 2, d) && text == ps[i] + JoinedRest(ps, i + 1, d)
    ensures text == ps[i] + [d] + rest
  {
    RestUnfolds(ps, i + 1, d);
    Delimit(ps[i], d, ps[i + 1], JoinedRest(ps, i + 2, d));
  }

  lemma FirstOf(ps: seq<string>, i: nat)
    requires i < |ps|
    ensures [ps[i]] + ps[i + 1..] == ps[i..]
  {
  }

  lemma {:induction false} PiecesFrom(ps: seq<string>, i: nat, d: char, text: string)
    requires i < |ps| && forall j :: 0 <= j < |ps| ==> Solid(ps[j], d)
    requires text == ps[i] + JoinedRest(ps, i + 1, d)
    ensures Pieces(text, d) == ps[i..]
    decreases |ps| - i
  {
    assert Solid(ps[i], d);
    if i + 1 == |ps| {
      PiecesLast(ps, i, d);
    } else {
      var rest := ps[i + 1] + JoinedRest(ps, i + 2, d);
      PiecesFrom(ps, i + 1, d, rest);
      TextStep(ps, i, d, text, rest);
      SolidPiece(ps[i], d, rest);
      FirstOf(ps, i);
    }
  }

  /** Splitting undoes joining. */
  lemma PiecesOfJoined(ps: seq<string>, d: char)
    requires forall j :: 0 <= j < |ps| ==> Solid(ps[j], d)
    ensures Pieces(Joined(ps, d), d) == ps
  {
    if ps != [] {
      PiecesFrom(ps, 0, d, Joined(ps, d));
    }
  }
}
