/** Query strings: params_to_query_str and parse_query_text. */
module Query {
  import opened Percent
  import opened Splitting
  import opened Joining

  type Pair = (string, string)

  /** A multimap: pairs in key order, equal keys in order of insertion. */
  type Params = seq<Pair>

  /** `std::string` order. */
  predicate Less(a: string, b: string) {
    b != "" && (a == "" || a[0] < b[0] || (a[0] == b[0] && Less(a[1..], b[1..])))
  }

  lemma {:induction false} LessTransitive(a: string, b: string, c: string)
    requires Less(a, b) && Less(b, c)
    ensures Less(a, c)
  {
    if a != "" && a[0] == b[0] == c[0] {
      LessTransitive(a[1..], b[1..], c[1..]);
    }
  }

  ghost predicate KeySorted(m: Params) {
    forall i, j :: 0 <= i < j < |m| ==> !Less(m[j].0, m[i].0)
  }

  /** `upper_bound`: the first place whose key comes after `k`. */
  function UpperBound(m: Params, k: string): (p: nat)
    ensures p <= |m| && (p < |m| ==> Less(k, m[p].0))
    ensures forall i :: 0 <= i < p ==> !Less(k, m[i].0)
  {
    if m == [] || Less(k, m[0].0) then 0 else 1 + UpperBound(m[1..], k)
  }

  function Emplace(m: Params, q: Pair): Params {
    var p := UpperBound(m, q.0);
    m[..p] + [q] + m[p..]
  }

  /** `emplace` keeps the order and adds the pair behind those with the same key. */
  lemma EmplaceSorted(m: Params, q: Pair)
    requires KeySorted(m)
    ensures KeySorted(Emplace(m, q))
    ensures multiset(Emplace(m, q)) == multiset(m) + multiset{q}
  {
    var p := UpperBound(m, q.0);
    BehindBound(m, q.0);
    InsertSorted(m, p, q);
    InsertCounts(m, p, q);
  }

  lemma BehindBound(m: Params, k: string)
    requires KeySorted(m)
    ensures forall j :: UpperBound(m, k) <= j < |m| ==> !Less(m[j].0, k)
  {
    var p := UpperBound(m, k);
    forall j | p <= j < |m|
      ensures !Less(m[j].0, k)
    {
      LessAsymmetric(m, p, j);
      if Less(m[j].0, k) {
        LessTransitive(m[j].0, k, m[p].0);
      }
    }
  }

  lemma InsertSorted(m: Params, p: nat, q: Pair)
    requires KeySorted(m) && p <= |m|
    requires forall i :: 0 <= i < p ==> !Less(q.0, m[i].0)
    requires forall i :: p <= i < |m| ==> !Less(m[i].0, q.0)
    ensures KeySorted(m[..p] + [q] + m[p..])
  {
    var n := m[..p] + [q] + m[p..];
    forall i, j | 0 <= i < j < |n|
      ensures !Less(n[j].0, n[i].0)
    {
      assert i < p ==> n[i] == m[i];
      assert i > p ==> n[i] == m[i - 1];
      assert j < p ==> n[j] == m[j];
      assert j > p ==> n[j] == m[j - 1];
    }
  }

  lemma InsertCounts(m: Params, p: nat, q: Pair)
    requires p <= |m|
    ensures multiset(m[..p] + [q] + m[p..]) == multiset(m) + multiset{q}
  {
    assert m == m[..p] + m[p..];
  }

  lemma LessAsymmetric(m: Params, p: nat, j: nat)
    requires KeySorted(m) && p <= j < |m|
    ensures !Less(m[j].0, m[p].0)
  {
    LessIrreflexive(m[p].0);
  }

  lemma {:induction false} LessIrreflexive(a: string)
    ensures !Less(a, a)
  {
    if a != "" {
      LessIrreflexive(a[1..]);
    }
  }

  // ----------------------------------------------------------------------- printing

  ghost predicate ByteParams(m: Params) {
    forall i :: 0 <= i < |m| ==> BytePair(m[i])
  }

  ghost predicate BytePair(q: Pair) { Bytes(q.0) && Bytes(q.1) }

  function PrintPair(q: Pair): string
    requires BytePair(q)
  {
    Encode(q.0, true) + "=" + Encode(q.1, true)
  }

  function PrintEach(m: Params): (ps: seq<string>)
    requires ByteParams(m)
    ensures |ps| == |m| && forall i :: 0 <= i < |m| ==> BytePair(m[i]) && ps[i] == PrintPair(m[i])
  {
    if m == [] then [] else [PrintPair(m[0])] + PrintEach(m[1..])
  }

  function Print(m: Params): string
    requires ByteParams(m)
  {
    Joined(PrintEach(m), '&')
  }

  method ParamsToQueryStr(m: Params) returns (query: string)
    requires ByteParams(m)
    ensures query == Print(m)
  {
    query := "";
    ghost var ps := PrintEach(m);
    for i := 0 to |m|
      invariant query == JoinedFirst(ps, i, '&')
    {
      if i != 0 {
        query := query + ['&'];
      }
      query := AppendPair(query, m[i]);
    }
    FirstIsAll(ps, '&');
  }

  method AppendPair(query: string, q: Pair) returns (r: string)
    requires BytePair(q)
    ensures r == query + PrintPair(q)
  {
    var key := EncodeQueryComponent(q.0, true);
    var value := EncodeQueryComponent(q.1, true);
    Grouped(query, key, "=", value);
    r := query + key;
    r := r + "=";
    r := r + value;
  }

  lemma Grouped(q: string, k: string, e: string, v: string)
    ensures q + (k + e + v) == q + k + e + v
  {
  }

  // ------------------------------------------------------------------------ parsing

  /** `divide`: the texts before and after the first delimiter. */
  function Divide(s: string, d: char): Pair {
    var i := IndexOf(s, d);
    (s[..i], if i < |s| then s[i + 1..] else "")
  }

  /** The set of pieces met so far, and the parameters. */
  datatype Reading = Reading(cache: set<string>, params: Params)

  /** The callback given to `split`. */
  function Take(r: Reading, piece: string): Reading {
    if piece in r.cache then r
    else
      var kv := Divide(piece, '=');
      Reading(r.cache + {piece},
              if kv.0 == "" then r.params else Emplace(r.params, (Decode(kv.0, true), Decode(kv.1, true))))
  }

  /** After the first `n` pieces. */
  function TakeFirst(r: Reading, pieces: seq<string>, n: nat): Reading
    requires n <= |pieces|
  {
    if n == 0 then r else Take(TakeFirst(r, pieces, n - 1), pieces[n - 1])
  }

  function Parse(s: string, m: Params): Params {
    var pieces := Pieces(s, '&');
    TakeFirst(Reading({}, m), pieces, |pieces|).params
  }

  method ParseQueryText(s: string, m: Params) returns (params: Params)
    ensures params == Parse(s, m)
  {
    var cache: set<string> := {};
    params := m;
    var pieces := Split(s, '&');
    for i := 0 to |pieces|
      invariant TakeFirst(Reading({}, m), pieces, i) == Reading(cache, params)
    {
      var piece := pieces[i];
      if piece !in cache {
        cache := cache + {piece};
        var kv := Divide(piece, '=');
        if kv.0 != "" {
          var key := DecodeQueryComponent(kv.0, true);
          var value := DecodeQueryComponent(kv.1, true);
          params := Emplace(params, (key, value));
        }
      }
    }
  }

  /** A text that is one piece: it is taken once, divided at its first equals sign if it has one. */
  lemma OnePiece(text: string, m: Params)
    requires Solid(text, '&')
    ensures (forall j :: 0 <= j < |text| ==> text[j] != '=') ==> Parse(text, m) == Emplace(m, (Decode(text, true), ""))
  {
    SolidPiece(text, '&', "");
    TakesOne(text, m);
    if forall j :: 0 <= j < |text| ==> text[j] != '=' {
      assert IndexOf(text, '=') == |text| && text[..|text|] == text;
      assert Divide(text, '=') == (text, "");
    }
  }

  /** The first equals sign counts; further ones belong to the value.  Without a key nothing is added. */
  lemma DividedPiece(key: string, value: string, m: Params)
    requires Solid(key + "=" + value, '&') && forall j :: 0 <= j < |key| ==> key[j] != '='
    ensures Parse(key + "=" + value, m)
         == if key == "" then m else Emplace(m, (Decode(key, true), Decode(value, true)))
  {
    var text := key + "=" + value;
    SolidPiece(text, '&', "");
    TakesOne(text, m);
    assert text[|key|] == '=' && text[..|key|] == key && text[|key| + 1..] == value;
    forall j | 0 <= j < |key|
      ensures text[j] != '='
    {
      assert text[j] == key[j];
    }
    IndexIs(text, '=', |key|);
  }

  /** And a repeated piece is taken once. */
  lemma RepeatedPiece(p: string, m: Params)
    requires Solid(p, '&')
    ensures Parse(p + "&" + p, m) == Parse(p, m)
  {
    SolidPiece(p, '&', p);
    SolidPiece(p, '&', "");
    TakesTwice(p, p + "&" + p, m);
    TakesOne(p, m);
  }

  lemma TakesTwice(p: string, text: string, m: Params)
    requires Pieces(text, '&') == [p] + [p]
    ensures Parse(text, m) == Take(Reading({}, m), p).params
  {
    var r, ps := Reading({}, m), [p] + [p];
    assert TakeFirst(r, ps, 0) == r && TakeFirst(r, ps, 1) == Take(r, p);
    assert TakeFirst(r, ps, 2) == Take(Take(r, p), p) == Take(r, p);
  }

  lemma TakesOne(p: string, m: Params)
    requires Pieces(p, '&') == [p]
    ensures Parse(p, m) == Take(Reading({}, m), p).params
  {
    var r := Reading({}, m);
    assert TakeFirst(r, [p], 1) == Take(TakeFirst(r, [p], 0), p) == Take(r, p);
  }

  lemma {:induction false} TakeSorted(r: Reading, pieces: seq<string>, n: nat)
    requires n <= |pieces| && KeySorted(r.params)
    ensures KeySorted(TakeFirst(r, pieces, n).params)
  {
    if n > 0 {
      TakeSorted(r, pieces, n - 1);
      var kv := Divide(pieces[n - 1], '=');
      EmplaceSorted(TakeFirst(r, pieces, n - 1).params, (Decode(kv.0, true), Decode(kv.1, true)));
    }
  }

  /** Parsing any text keeps the multimap in order. */
  lemma ParseSorted(s: string, m: Params)
    requires KeySorted(m)
    ensures KeySorted(Parse(s, m))
  {
    TakeSorted(Reading({}, m), Pieces(s, '&'), |Pieces(s, '&')|);
  }

  // --------------------------------------------------------------------- round trip

  predicate Repeats(m: Params, i: nat)
    requires i < |m|
  {
    exists j :: 0 <= j < i && m[j] == m[i]
  }

  /** The survivors among the first `n` pairs: those with a key, each pair at its first place only. */
  function Survivors(m: Params, n: nat): Params
    requires n <= |m|
  {
    if n == 0 then []
    else Survivors(m, n - 1) + if m[n - 1].0 == "" || Repeats(m, n - 1) then [] else [m[n - 1]]
  }

  function Surviving(m: Params): Params { Survivors(m, |m|) }

  lemma {:induction false} SurvivorsAre(m: Params, n: nat)
    requires n <= |m|
    ensures forall q :: q in Survivors(m, n) <==> q in m[..n] && q.0 != ""
  {
    if n > 0 {
      SurvivorsAre(m, n - 1);
      assert m[..n] == m[..n - 1] + [m[n - 1]];
      if Repeats(m, n - 1) {
        var j :| 0 <= j < n - 1 && m[j] == m[n - 1];
        assert m[..n - 1][j] == m[j];
      }
    }
  }

  lemma {:induction false} SurvivorsDiffer(m: Params, n: nat)
    requires n <= |m|
    ensures forall i, j :: 0 <= i < j < |Survivors(m, n)| ==> Survivors(m, n)[i] != Survivors(m, n)[j]
  {
    if n > 0 {
      SurvivorsDiffer(m, n - 1);
      SurvivorsAre(m, n - 1);
      var s := Survivors(m, n - 1);
      forall i | 0 <= i < |s| && !Repeats(m, n - 1)
        ensures s[i] != m[n - 1]
      {
        assert s[i] in m[..n - 1];
      }
    }
  }

  /** The survivors are the pairs with a key, each once. */
  lemma SurvivingMeans(m: Params)
    ensures forall q :: q in Surviving(m) <==> q in m && q.0 != ""
    ensures forall i, j :: 0 <= i < j < |Surviving(m)| ==> Surviving(m)[i] != Surviving(m)[j]
  {
    SurvivorsAre(m, |m|);
    SurvivorsDiffer(m, |m|);
    assert m[..|m|] == m;
  }

  /** Nothing is lost from distinct pairs with keys. */
  lemma {:induction false} NothingLost(m: Params, n: nat)
    requires n <= |m|
    requires forall i :: 0 <= i < |m| ==> m[i].0 != ""
    requires forall i, j :: 0 <= i < j < |m| ==> m[i] != m[j]
    ensures Survivors(m, n) == m[..n]
  {
    if n > 0 {
      NothingLost(m, n - 1);
    }
  }

  /** A printed pair is one piece. */
  lemma PairSolid(q: Pair)
    requires BytePair(q)
    ensures Solid(PrintPair(q), '&')
  {
    EncodedPlain(q.0, true);
    EncodedPlain(q.1, true);
    SolidAround(Encode(q.0, true), '=', Encode(q.1, true), '&');
  }

  /** Splitting the printed form gives the printed pairs. */
  lemma SplitsBack(m: Params)
    requires ByteParams(m)
    ensures Pieces(Print(m), '&') == PrintEach(m)
  {
    var ps := PrintEach(m);
    forall i | 0 <= i < |ps|
      ensures Solid(ps[i], '&')
    {
      PairSolid(m[i]);
    }
    PiecesOfJoined(ps, '&');
  }

  lemma DivideJoin(a: string, b: string)
    requires AllPlain(a)
    ensures Divide(a + "=" + b, '=') == (a, b)
  {
    var p := a + "=" + b;
    forall j | 0 <= j < |a|
      ensures p[j] != '='
    {
      assert p[j] == a[j] && Plain(a[j]);
    }
    assert p[|a|] == '=';
    IndexIs(p, '=', |a|);
    assert p[..|a|] == a && p[|a| + 1..] == b;
  }

  /** The pair `q` can be read off the text `p`. */
  predicate Reads(p: string, q: Pair) {
    var kv := Divide(p, '=');
    (kv.0 == "" <==> q.0 == "") && Decode(kv.0, true) == q.0 && Decode(kv.1, true) == q.1
  }

  lemma PairReads(q: Pair)
    requires BytePair(q)
    ensures Reads(PrintPair(q), q)
  {
    EncodedPlain(q.0, true);
    DivideJoin(Encode(q.0, true), Encode(q.1, true));
    RoundTrip(q.0, true, true);
    RoundTrip(q.1, true, true);
  }

  /** A key that no other follows is added at the end. */
  lemma EmplaceLast(m: Params, q: Pair)
    requires forall i :: 0 <= i < |m| ==> !Less(q.0, m[i].0)
    ensures Emplace(m, q) == m + [q]
  {
  }

  /** After the first `n` pieces: they are the cache, and their survivors are the parameters. */
  ghost function ReadSoFar(ps: seq<string>, m: Params, n: nat): Reading
    requires n <= |m| == |ps|
  {
    Reading((set p | p in ps[..n]), Survivors(m, n))
  }

  lemma FreshTake(r: Reading, p: string, q: Pair)
    requires Reads(p, q) && p !in r.cache
    ensures Take(r, p) == Reading(r.cache + {p}, if q.0 == "" then r.params else Emplace(r.params, q))
  {
  }

  /** Each piece reads as its pair, so equal pieces stand for equal pairs; and conversely. */
  ghost predicate Printed(ps: seq<string>, m: Params) {
    && |ps| == |m|
    && (forall i :: 0 <= i < |m| ==> Reads(ps[i], m[i]))
    && (forall i, j :: 0 <= i < j < |m| && m[i] == m[j] ==> ps[i] == ps[j])
  }

  lemma Known(ps: seq<string>, m: Params, n: nat)
    requires Printed(ps, m) && n < |m|
    ensures ps[n] in ps[..n] <==> Repeats(m, n)
  {
    if Repeats(m, n) {
      var j :| 0 <= j < n && m[j] == m[n];
      assert ps[..n][j] == ps[j];
    }
    if ps[n] in ps[..n] {
      var j :| 0 <= j < n && ps[..n][j] == ps[n];
      assert Reads(ps[j], m[j]) && Reads(ps[n], m[n]);
    }
  }

  lemma ReadStep(ps: seq<string>, m: Params, n: nat)
    requires Printed(ps, m) && KeySorted(m) && n < |m|
    ensures Take(ReadSoFar(ps, m, n), ps[n]) == ReadSoFar(ps, m, n + 1)
  {
    var r := ReadSoFar(ps, m, n);
    var next := Take(r, ps[n]);
    CacheStep(r.cache, next.cache, ps, n);
    Known(ps, m, n);
    ParamsStep(r, ps[n], m, n);
  }

  lemma CacheStep(cache: set<string>, next: set<string>, ps: seq<string>, n: nat)
    requires n < |ps| && (forall p :: p in cache <==> p in ps[..n])
    requires next == cache + {ps[n]}
    ensures forall p :: p in next <==> p in ps[..n + 1]
  {
    assert ps[..n + 1] == ps[..n] + [ps[n]];
  }

  lemma ParamsStep(r: Reading, p: string, m: Params, n: nat)
    requires n < |m| && KeySorted(m) && r.params == Survivors(m, n)
    requires Reads(p, m[n]) && (p in r.cache <==> Repeats(m, n))
    ensures Take(r, p).params == Survivors(m, n + 1)
  {
    if p !in r.cache {
      FreshTake(r, p, m[n]);
      AtTheEnd(m, n);
    }
  }

  lemma AtTheEnd(m: Params, n: nat)
    requires KeySorted(m) && n < |m|
    ensures Emplace(Survivors(m, n), m[n]) == Survivors(m, n) + [m[n]]
  {
    var s := Survivors(m, n);
    SurvivorsAre(m, n);
    forall i | 0 <= i < |s|
      ensures !Less(m[n].0, s[i].0)
    {
      assert s[i] in m[..n];
    }
    EmplaceLast(s, m[n]);
  }

  /** The readings that the pieces lead through. */
  ghost predicate Leads(ps: seq<string>, rs: seq<Reading>) {
    |rs| == |ps| + 1 && forall k :: 0 <= k < |ps| ==> rs[k + 1] == Take(rs[k], ps[k])
  }

  lemma {:induction false} TakesThrough(ps: seq<string>, rs: seq<Reading>, n: nat)
    requires n <= |ps| && Leads(ps, rs)
    ensures TakeFirst(rs[0], ps, n) == rs[n]
  {
    if n > 0 {
      TakesThrough(ps, rs, n - 1);
      assert rs[n - 1 + 1] == Take(rs[n - 1], ps[n - 1]);
    }
  }

  lemma ReadsAll(ps: seq<string>, m: Params)
    requires Printed(ps, m) && KeySorted(m)
    ensures TakeFirst(Reading({}, []), ps, |m|) == ReadSoFar(ps, m, |m|)
  {
    var rs := seq(|m| + 1, n requires 0 <= n <= |m| => ReadSoFar(ps, m, n));
    forall k | 0 <= k < |ps|
      ensures rs[k + 1] == Take(rs[k], ps[k])
    {
      ReadStep(ps, m, k);
    }
    assert rs[0] == Reading({}, []);
    TakesThrough(ps, rs, |m|);
  }

  /** Parsing a printed multimap gives its surviving pairs, in the same order. */
  lemma ParsePrint(m: Params)
    requires ByteParams(m) && KeySorted(m)
    ensures Parse(Print(m), []) == Surviving(m)
  {
    SplitsBack(m);
    var ps := PrintEach(m);
    forall i | 0 <= i < |m|
      ensures Reads(ps[i], m[i])
    {
      PairReads(m[i]);
    }
    ReadsAll(ps, m);
  }

  /** The whole multimap comes back exactly when it has no empty key and no repeated pair. */
  lemma WholeRoundTrip(m: Params)
    requires ByteParams(m) && KeySorted(m)
    ensures Parse(Print(m), []) == m <==>
            (forall i :: 0 <= i < |m| ==> m[i].0 != "") && (forall i, j :: 0 <= i < j < |m| ==> m[i] != m[j])
  {
    ParsePrint(m);
    SurvivingMeans(m);
    if (forall i :: 0 <= i < |m| ==> m[i].0 != "") && (forall i, j :: 0 <= i < j < |m| ==> m[i] != m[j]) {
      NothingLost(m, |m|);
      assert m[..|m|] == m;
    }
    if Parse(Print(m), []) == m {
      forall i | 0 <= i < |m|
        ensures m[i].0 != ""
      {
        assert m[i] in Surviving(m);
      }
    }
  }
}
