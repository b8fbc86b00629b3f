/**
 What the multipart parser learns from a header line: the entry's name, file name and content type.

 `ParseHeader` decides whether a line is a header at all.  Of a Content-Type line the value is kept,
 trimmed; of a Content-Disposition line the parameters are split at semicolons and again at equals signs,
 and three of them are looked up.

 `Learn` is the whole as a function of the line, `LearnLine` the code.  The decoder of an encoded file name
 is a parameter.
 */
module FormHeaders {
  import opened Basics
  import opened Text
  import opened Splitting
  import Q = Query

  /** The texts of `FormData` that header lines set. */
  datatype File = File(name: string, filename: string, contentType: string)

  const NEW_FILE := File("", "", "")

  // ------------------------------------------------------------------- parse_header

  predicate IsTokenChar(c: char) {
    || 'a' <= c <= 'z' || 'A' <= c <= 'Z' || '0' <= c <= '9'
    || c == '!' || c == '#' || c == '$' || c == '%' || c == '&' || c == '\'' || c == '*' || c == '+'
    || c == '-' || c == '.' || c == '^' || c == '_' || c == '`' || c == '|' || c == '~'
  }

  /** The token characters are the visible ones but for the delimiters (section 5.6.2 of RFC 9110). */
  lemma TokenChars(c: char)
    ensures IsTokenChar(c) <==> '!' <= c <= '~' && c !in "\"(),/:;<=>?@[\\]{}"
  {
  }

  predicate IsToken(s: string) { s != "" && forall i :: 0 <= i < |s| ==> IsTokenChar(s[i]) }

  /** A visible character or a byte outside ASCII. */
  predicate IsFieldVchar(c: char) { '!' <= c <= '~' || 128 <= c as int }

  /** What may stand inside a field value. */
  predicate IsFieldChar(c: char) { IsBlank(c) || IsFieldVchar(c) }

  /** Everything but the control characters other than the tab. */
  lemma FieldChars(c: char)
    ensures IsFieldChar(c) <==> c == '\t' || (c as int >= 32 && c as int != 127)
  {
  }

  predicate FieldText(s: string) { forall i :: 0 <= i < |s| ==> IsFieldChar(s[i]) }

  /** A field value: nothing but field characters, and no blank at either end. */
  predicate FieldContent(s: string) {
    FieldText(s) && (s != "" ==> IsFieldVchar(s[0]) && IsFieldVchar(s[|s| - 1]))
  }

  method IsFieldContent(s: string) returns (ok: bool)
    ensures ok == FieldContent(s)
  {
    if s == "" {
      return true;
    }
    if |s| == 1 {
      return IsFieldVchar(s[0]);
    }
    if |s| == 2 {
      return IsFieldVchar(s[0]) && IsFieldVchar(s[1]);
    }
    if !IsFieldVchar(s[0]) {
      return false;
    }
    var i := 1;
    while i < |s| - 1
      invariant 1 <= i <= |s| - 1 && FieldText(s[..i])
    {
      if !(s[i] == ' ' || s[i] == '\t' || IsFieldVchar(s[i])) {
        assert !IsFieldChar(s[i]);
        return false;
      }
      assert s[..i + 1] == s[..i] + [s[i]];
      i := i + 1;
    }
    assert s == s[..i] + [s[i]];
    return IsFieldVchar(s[i]);
  }

  /** The name and the value of a header line, if it is one. */
  function HeaderField(line: string): Option<(string, string)> {
    var t := TrimRight(line);
    var p := IndexOf(t, ':');
    if p == |t| || !IsToken(t[..p]) then None
    else
      var v := TrimLeft(t[p + 1..]);
      if FieldContent(v) then Some((t[..p], v)) else None
  }

  method ParseHeader(line: string) returns (r: Option<(string, string)>)
    ensures r == HeaderField(line)
  {
    var end := SkipTrailing(line);
    ghost var t := line[..end];
    var p := FindColon(line, end);
    var key := line[..p];
    assert t[..p] == key;
    if !IsToken(key) || p == end {
      return None;
    }
    var beg := SkipLeading(line, p + 1, end);
    assert t[p + 1..] == line[p + 1..end];
    var ok := IsFieldContent(line[beg..end]);
    return if ok then Some((key, line[beg..end])) else None;
  }

  method SkipTrailing(line: string) returns (end: nat)
    ensures end <= |line| && line[..end] == TrimRight(line)
  {
    end := |line|;
    while 0 < end && IsBlank(line[end - 1])
      invariant 0 <= end <= |line| && forall j :: end <= j < |line| ==> IsBlank(line[j])
    {
      end := end - 1;
    }
    TrimRightIs(line, end);
  }

  method FindColon(line: string, end: nat) returns (p: nat)
    requires end <= |line|
    ensures p <= end && p == IndexOf(line[..end], ':')
  {
    p := 0;
    while p < end && line[p] != ':'
      invariant 0 <= p <= end && forall j :: 0 <= j < p ==> line[j] != ':'
    {
      p := p + 1;
    }
    IndexIs(line[..end], ':', p);
  }

  method SkipLeading(line: string, from: nat, end: nat) returns (beg: nat)
    requires from <= end <= |line|
    ensures from <= beg <= end && line[beg..end] == TrimLeft(line[from..end])
  {
    beg := from;
    while beg < end && IsBlank(line[beg])
      invariant from <= beg <= end && forall j :: from <= j < beg ==> IsBlank(line[j])
    {
      beg := beg + 1;
    }
    TrimLeftIs(line[from..end], beg - from);
    assert line[from..end][beg - from..] == line[beg..end];
  }

  // ------------------------------------------------------- parse_disposition_params

  /** `trim_double_quotes_copy`. */
  function TrimQuotes(s: string): (r: string)
    ensures |r| <= |s|
  {
    if |s| >= 2 && s[0] == '"' && s[|s| - 1] == '"' then s[1..|s| - 1] else s
  }

  /** The parameter has key `k`: its first piece between equals signs. */
  predicate HasKey(kv: string, k: string) {
    var ps := Pieces(kv, '=');
    ps != [] && TrimQuotes(ps[0]) == k
  }

  /** Its value: the last piece, if there is a second one. */
  function ValueOf(kv: string): string {
    var ps := Pieces(kv, '=');
    if |ps| > 1 then TrimQuotes(ps[|ps| - 1]) else ""
  }

  /** The value of the first parameter with key `k`. */
  function FirstValue(kvs: seq<string>, k: string): Option<string> {
    if kvs == [] then None else if HasKey(kvs[0], k) then Some(ValueOf(kvs[0])) else FirstValue(kvs[1..], k)
  }

  /** `find` in a multimap: the first pair with that key. */
  function FindKey(m: Q.Params, k: string): Option<string> {
    if m == [] then None else if m[0].0 == k then Some(m[0].1) else FindKey(m[1..], k)
  }

  lemma {:induction false} FindJoined(a: Q.Params, b: Q.Params, k: string)
    ensures FindKey(a + b, k) == if FindKey(a, k).Some? then FindKey(a, k) else FindKey(b, k)
  {
    if a == [] {
      assert a + b == b;
    } else {
      FindJoined(a[1..], b, k);
      assert (a + b)[1..] == a[1..] + b;
    }
  }

  lemma {:induction false} FindNothing(m: Q.Params, k: string)
    requires forall i :: 0 <= i < |m| ==> m[i].0 != k
    ensures FindKey(m, k) == None
  {
    if m != [] {
      FindNothing(m[1..], k);
    }
  }

  /** A pair is put behind those with its key, so it is found only if there is none. */
  lemma FindEmplaced(m: Q.Params, q: Q.Pair, k: string)
    requires Q.KeySorted(m)
    ensures FindKey(Q.Emplace(m, q), k)
         == if FindKey(m, k).Some? then FindKey(m, k) else if q.0 == k then Some(q.1) else None
  {
    var p := Q.UpperBound(m, q.0);
    var a, b := m[..p], m[p..];
    assert m == a + b;
    FindJoined(a, b, k);
    FindJoined(a + [q], b, k);
    FindJoined(a, [q], k);
    assert [q][1..] == [];
    if q.0 == k {
      forall j | 0 <= j < |b|
        ensures b[j].0 != k
      {
        Q.LessIrreflexive(k);
        assert b[j] == m[p + j];
      }
      FindNothing(b, k);
    }
  }

  /** `parse_disposition_params`: the first parameter with a key is the one that is found. */
  method ParseDispositionParams(s: string) returns (params: Q.Params)
    ensures forall k :: FindKey(params, k) == FirstValue(Pieces(s, ';'), k)
  {
    var cache: set<string> := {};
    params := [];
    var kvs := Split(s, ';');
    assert kvs[..0] == [];
    for i := 0 to |kvs|
      invariant Found(kvs, i, cache, params)
    {
      var kv := kvs[i];
      ghost var before := params;
      if kv !in cache {
        cache := cache + {kv};
        var key, val := SplitParam(kv);
        if key != "" {
          params := Q.Emplace(params, (TrimQuotes(key), TrimQuotes(val)));
        }
        FoundNext(kvs, i, cache - {kv}, before, params, key, val);
      } else {
        FoundAgain(kvs, i, cache, params);
      }
    }
    assert kvs[..|kvs|] == kvs;
  }

  /** The parameters found in the first `i` pieces. */
  ghost predicate Found(kvs: seq<string>, i: nat, cache: set<string>, params: Q.Params)
    requires i <= |kvs|
  {
    && Q.KeySorted(params) && (forall kv :: kv in cache <==> kv in kvs[..i])
    && forall k :: FindKey(params, k) == FirstValue(kvs[..i], k)
  }

  /** The inner `split`: the first piece is the key, the last of the others the value. */
  method SplitParam(kv: string) returns (key: string, val: string)
    ensures key != "" <==> Pieces(kv, '=') != []
    ensures key != "" ==> key == Pieces(kv, '=')[0] && TrimQuotes(val) == ValueOf(kv)
  {
    key, val := "", "";
    var ps := Split(kv, '=');
    PiecesNotEmpty(kv, '=');
    for i := 0 to |ps|
      invariant (key == "" <==> i == 0) && (i > 0 ==> key == ps[0])
      invariant val == if i > 1 then ps[i - 1] else ""
    {
      if key == "" {
        key := ps[i];
      } else {
        val := ps[i];
      }
    }
  }

  lemma {:induction false} PiecesNotEmpty(s: string, d: char)
    ensures forall i :: 0 <= i < |Pieces(s, d)| ==> Pieces(s, d)[i] != ""
    decreases |s|
  {
    var i := IndexOf(s, d);
    if i < |s| {
      PiecesNotEmpty(s[i + 1..], d);
    }
  }

  lemma {:induction false} FirstJoined(a: seq<string>, b: seq<string>, k: string)
    ensures FirstValue(a + b, k) == if FirstValue(a, k).Some? then FirstValue(a, k) else FirstValue(b, k)
  {
    if a == [] {
      assert a + b == b;
    } else {
      FirstJoined(a[1..], b, k);
      var ab := a + b;
      assert ab[1..] == a[1..] + b && ab[0] == a[0];
    }
  }

  lemma FirstNext(kvs: seq<string>, i: nat, k: string)
    requires i < |kvs|
    ensures FirstValue(kvs[..i + 1], k)
         == if FirstValue(kvs[..i], k).Some? then FirstValue(kvs[..i], k)
            else if HasKey(kvs[i], k) then Some(ValueOf(kvs[i])) else None
  {
    assert kvs[..i + 1] == kvs[..i] + [kvs[i]];
    FirstJoined(kvs[..i], [kvs[i]], k);
    assert [kvs[i]][1..] == [];
  }

  lemma FoundNext(kvs: seq<string>, i: nat, cache: set<string>, params: Q.Params, params': Q.Params,
                  key: string, val: string)
    requires i < |kvs| && Found(kvs, i, cache, params)
    requires key != "" <==> Pieces(kvs[i], '=') != []
    requires key != "" ==> key == Pieces(kvs[i], '=')[0] && TrimQuotes(val) == ValueOf(kvs[i])
    requires params' == if key != "" then Q.Emplace(params, (TrimQuotes(key), TrimQuotes(val))) else params
    ensures Found(kvs, i + 1, cache + {kvs[i]}, params')
  {
    assert kvs[..i + 1] == kvs[..i] + [kvs[i]];
    var q := (TrimQuotes(key), TrimQuotes(val));
    if key != "" {
      Q.EmplaceSorted(params, q);
    }
    forall k
      ensures FindKey(params', k) == FirstValue(kvs[..i + 1], k)
    {
      FirstNext(kvs, i, k);
      if key != "" {
        FindEmplaced(params, q, k);
      }
    }
  }

  /** A repeated parameter changes nothing: the earlier one is found. */
  lemma FoundAgain(kvs: seq<string>, i: nat, cache: set<string>, params: Q.Params)
    requires i < |kvs| && Found(kvs, i, cache, params) && kvs[i] in cache
    ensures Found(kvs, i + 1, cache, params)
  {
    assert kvs[..i + 1] == kvs[..i] + [kvs[i]];
    forall k
      ensures FindKey(params, k) == FirstValue(kvs[..i + 1], k)
    {
      FirstNext(kvs, i, k);
      if HasKey(kvs[i], k) {
        EarlierFound(kvs[..i], kvs[i], k);
      }
    }
  }

  lemma {:induction false} EarlierFound(kvs: seq<string>, kv: string, k: string)
    requires kv in kvs && HasKey(kv, k)
    ensures FirstValue(kvs, k).Some?
  {
    if !HasKey(kvs[0], k) {
      EarlierFound(kvs[1..], kv, k);
    }
  }

  // --------------------------------------------------------------------- header lines

  /** `case_ignore::to_lower` on ASCII; the letters of Latin-1 that it also lowers never meet a field name. */
  function ToLower(c: char): char { if 'A' <= c <= 'Z' then (c as int + 32) as char else c }

  /** `start_with_case_ignore`. */
  predicate StartsWith(s: string, pat: string) {
    |pat| <= |s| && forall i :: 0 <= i < |pat| ==> ToLower(s[i]) == ToLower(pat[i])
  }

  /** The same letter in either case. */
  predicate SameLetter(a: char, b: char) {
    || a == b
    || ('A' <= a <= 'Z' && b as int == a as int + 32)
    || ('A' <= b <= 'Z' && a as int == b as int + 32)
  }

  /** A field name is recognised in upper and lower case, and nothing else is. */
  lemma AnyCase(s: string, pat: string)
    ensures StartsWith(s, pat) <==> |pat| <= |s| && forall i :: 0 <= i < |pat| ==> SameLetter(s[i], pat[i])
  {
    assert forall i :: 0 <= i < |pat| && i < |s| ==> (ToLower(s[i]) == ToLower(pat[i]) <==> SameLetter(s[i], pat[i]));
  }

  const TYPE_FIELD := "Content-Type:"
  const DISPOSITION_FIELD := "Content-Disposition:"
  const FORM_DATA := "form-data;"
  const UTF8 := "UTF-8''"

  /** The parameters of a Content-Disposition line, if the regular expression matches a line of field text. */
  function Disposition(line: string): Option<string> {
    if !StartsWith(line, DISPOSITION_FIELD) then None
    else
      var rest := StripLeft(line[|DISPOSITION_FIELD|..]);
      if StartsWith(rest, FORM_DATA) then Some(StripLeft(rest[|FORM_DATA|..])) else None
  }

  /** Percent-decoding of a path component, which is not part of this model, never makes a text longer. */
  type Decoder = string -> string

  ghost predicate Shortens(decode: Decoder) { forall x :: |decode(x)| <= |x| }

  /** What the values of `name`, `filename` and `filename*` set; `None` if the entry is refused. */
  function LearnValues(decode: Decoder, f: File, name: Option<string>, filename: Option<string>,
                       encoded: Option<string>): Option<File>
  {
    if name.None? then None
    else
      var g := f.(name := name.value, filename := if filename.Some? then filename.value else f.filename);
      if encoded.None? then Some(g)
      else if StartsWith(encoded.value, UTF8) && |encoded.value| > |UTF8|
      then Some(g.(filename := decode(encoded.value[|UTF8|..]))) else None
  }

  /** What the parameters of an entry set. */
  function LearnParams(decode: Decoder, f: File, kvs: seq<string>): Option<File> {
    LearnValues(decode, f, FirstValue(kvs, "name"), FirstValue(kvs, "filename"), FirstValue(kvs, "filename*"))
  }

  /** What one header line sets; `None` if it is refused. */
  function Learn(decode: Decoder, f: File, line: string): Option<File> {
    if HeaderField(line).None? then None
    else if StartsWith(line, TYPE_FIELD) then Some(f.(contentType := Trim(line[|TYPE_FIELD|..])))
    else
      match Disposition(line)
      case None => Some(f)
      case Some(params) => LearnParams(decode, f, Pieces(params, ';'))
  }

  /** The same on the fields. */
  method LearnLine(decode: Decoder, f: File, line: string) returns (ok: bool, g: File)
    ensures if ok then Learn(decode, f, line) == Some(g) else Learn(decode, f, line) == None
  {
    g := f;
    var field := ParseHeader(line);
    if field.None? {
      return false, g;
    }
    if StartsWith(line, TYPE_FIELD) {
      var value := line[|TYPE_FIELD|..];
      var l, r := TrimRange(value, 0, |value|);
      assert value[0..|value|] == value;
      return true, g.(contentType := if l < r then value[l..r] else "");
    }
    var rest := Disposition(line);
    if rest.None? {
      return true, g;
    }
    ok, g := LearnFound(decode, f, rest.value);
  }

  method LearnFound(decode: Decoder, f: File, rest: string) returns (ok: bool, g: File)
    ensures if ok then LearnParams(decode, f, Pieces(rest, ';')) == Some(g)
            else LearnParams(decode, f, Pieces(rest, ';')) == None
  {
    g := f;
    var params := ParseDispositionParams(rest);
    var it := FindKey(params, "name");
    if it.None? {
      return false, g;
    }
    g := g.(name := it.value);
    it := FindKey(params, "filename");
    if it.Some? {
      g := g.(filename := it.value);
    }
    it := FindKey(params, "filename*");
    if it.Some? {
      if !(StartsWith(it.value, UTF8) && |it.value| > |UTF8|) {
        return false, g;
      }
      g := g.(filename := decode(it.value[|UTF8|..]));
    }
    return true, g;
  }

  function Learned(decode: Decoder, f: File, line: string): File {
    match Learn(decode, f, line)
    case None => f
    case Some(g) => g
  }

  /** What the lines of an entry set, refused ones left out. */
  function LearnAll(decode: Decoder, f: File, lines: seq<string>): File
    decreases |lines|
  {
    if lines == [] then f else LearnAll(decode, Learned(decode, f, lines[0]), lines[1..])
  }

  lemma LearnOne(decode: Decoder, f: File, line: string, lines: seq<string>)
    requires lines == [line]
    ensures LearnAll(decode, f, lines) == Learned(decode, f, line)
  {
    assert lines[1..] == [];
  }

  lemma LearnTwo(decode: Decoder, f: File, first: string, second: string, lines: seq<string>)
    requires lines == [first, second]
    ensures LearnAll(decode, f, lines) == Learned(decode, Learned(decode, f, first), second)
  {
    assert lines[1..] == [second];
    LearnOne(decode, Learned(decode, f, first), second, lines[1..]);
  }
}
