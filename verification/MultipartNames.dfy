/**
 The names, file names and content types that the serializer prints, and what the parser learns of them.

 A printed parameter is `key="text"`.  If the text has no semicolon and no equals sign, the parser finds
 exactly that key and that text; otherwise the first cuts the parameter off, or the second leaves only what
 is behind it, and neither is the text.  An encoded file name cannot make up for it, being shorter.

 So an item is learned as it is exactly when it is `Plain` (`ItemLearned`), and plain items are such as the
 parser accepts (`PlainParts`).
 */
module MultipartNames {
  import opened Basics
  import opened Text
  import opened Splitting
  import opened MultipartSpec
  import opened FormHeaders

  // ------------------------------------------------------------------- plain texts

  /** A name that comes back: field text without a semicolon and an equals sign. */
  predicate PlainName(s: string) { FieldText(s) && Free(s) }

  predicate Free(s: string) { forall i :: 0 <= i < |s| ==> s[i] != ';' && s[i] != '=' }

  predicate Plain(item: Item) {
    PlainName(item.name) && PlainName(item.filename) && FieldContent(item.contentType)
  }

  // ---------------------------------------------------------------- pieces of a text

  /** A part of `s` without `d`. */
  predicate Within(p: string, s: string, d: char) { d !in p && |p| <= |s| && forall c :: c in p ==> c in s }

  /** No delimiter is left in a piece, and nothing is added to it. */
  lemma {:induction false} PiecesLack(s: string, d: char, ps: seq<string>, i: nat)
    requires ps == Pieces(s, d) && i < |ps|
    ensures Within(ps[i], s, d)
    decreases |s|
  {
    var k := IndexOf(s, d);
    if k == |s| {
      TrimPart(s, d);
    } else {
      var head, tail := s[..k], s[k + 1..];
      var kept, rest := Keep(Trim(head)), Pieces(tail, d);
      PiecesFirst(s, d, k, ps);
      if i < |kept| {
        TrimPart(head, d);
        WithinPart(ps[i], head, s, d);
      } else {
        PiecesLack(tail, d, rest, i - |kept|);
        WithinPart(ps[i], tail, s, d);
      }
    }
  }

  lemma PiecesFirst(s: string, d: char, k: nat, ps: seq<string>)
    requires ps == Pieces(s, d) && k == IndexOf(s, d) < |s|
    ensures ps == Keep(Trim(s[..k])) + Pieces(s[k + 1..], d)
  {
  }

  lemma WithinPart(p: string, part: string, s: string, d: char)
    requires Within(p, part, d) && |part| <= |s| && forall c :: c in part ==> c in s
    ensures Within(p, s, d)
  {
  }

  /** Trimming keeps a part of the text. */
  lemma TrimPart(s: string, d: char)
    requires d !in s
    ensures Within(Trim(s), s, d)
  {
    LeftPart(s);
    RightPart(TrimLeft(s));
  }

  lemma {:induction false} LeftPart(s: string)
    ensures forall c :: c in TrimLeft(s) ==> c in s
  {
    if s != "" && IsBlank(s[0]) {
      LeftPart(s[1..]);
    }
  }

  lemma {:induction false} RightPart(s: string)
    ensures forall c :: c in TrimRight(s) ==> c in s
  {
    if s != "" && IsBlank(s[|s| - 1]) {
      RightPart(s[..|s| - 1]);
    }
  }

  /** A value holds no equals sign, and nothing that is not in its parameter. */
  lemma ValueLacks(kv: string)
    ensures Within(ValueOf(kv), kv, '=')
  {
    var ps := Pieces(kv, '=');
    if |ps| > 1 {
      PiecesLack(kv, '=', ps, |ps| - 1);
    }
  }

  // ----------------------------------------------------------- one printed parameter

  const QUOTE: string := "\""

  /** `key="` and what follows, trimmed on the right. */
  lemma TrimmedParam(key: string, text: string)
    requires key != "" && !IsBlank(key[0])
    ensures exists rest :: Trim(key + "=" + QUOTE + text) == key + "=" + (QUOTE + rest)
                           && (forall c :: c in rest ==> c in text)
  {
    var head := key + "=" + QUOTE;
    var s := head + text;
    assert s[0] == key[0] && TrimLeft(s) == s;
    RightKeeps(head, text);
    var rest := TrimRight(text);
    RightPart(text);
    assert head + rest == key + "=" + (QUOTE + rest);
  }

  lemma {:induction false} RightKeeps(a: string, b: string)
    requires a != "" && !IsBlank(a[|a| - 1])
    ensures TrimRight(a + b) == a + TrimRight(b)
    decreases |b|
  {
    if b == "" {
      assert a + b == a && a + "" == a;
    } else if IsBlank(b[|b| - 1]) {
      assert (a + b)[..|a + b| - 1] == a + b[..|b| - 1];
      RightKeeps(a, b[..|b| - 1]);
    }
  }

  /** A parameter that begins with `key="` has that key, and a value. */
  lemma ParamKey(key: string, rest: string, kv: string)
    requires key != "" && kv == key + "=" + (QUOTE + rest) && TrimQuotes(key) == key
    requires (forall j :: 0 <= j < |key| ==> key[j] != '=') && !IsBlank(key[0]) && !IsBlank(key[|key| - 1])
    ensures forall k :: HasKey(kv, k) <==> k == key
  {
    PiecesOfJoin(key, '=', QUOTE + rest);
    TrimSolid(key);
  }

  /** A value without an equals sign is the text between the quotes. */
  lemma ParamValue(key: string, text: string, kv: string)
    requires key != "" && kv == key + "=" + (QUOTE + text + QUOTE)
    requires (forall j :: 0 <= j < |key| ==> key[j] != '=') && !IsBlank(key[0]) && !IsBlank(key[|key| - 1])
    requires forall j :: 0 <= j < |text| ==> text[j] != '='
    ensures ValueOf(kv) == text
  {
    var quoted := QUOTE + text + QUOTE;
    PiecesOfJoin(key, '=', quoted);
    TrimSolid(key);
    assert forall j :: 0 <= j < |quoted| ==> quoted[j] != '=';
    PiecesOfJoin(quoted, '=', "");
    TrimSolid(quoted);
    assert Pieces(kv, '=') == [key] + [quoted];
    assert quoted[1..|quoted| - 1] == text;
  }

  /** A printed parameter that ends the text or stands before a semicolon, if its text has none. */
  lemma WholeParam(key: string, text: string, kv: string)
    requires key != "" && !IsBlank(key[0]) && kv == key + "=" + (QUOTE + text + QUOTE)
    ensures Trim(kv) == kv && Keep(Trim(kv)) == [kv]
  {
    assert kv[0] == key[0] && kv[|kv| - 1] == '"';
    TrimSolid(kv);
  }

  // ------------------------------------------------------------- the printed parameters

  predicate GoodKey(key: string) {
    && key != "" && TrimQuotes(key) == key && !IsBlank(key[0]) && !IsBlank(key[|key| - 1])
    && forall j :: 0 <= j < |key| ==> key[j] != '=' && key[j] != ';'
  }

  lemma Keys()
    ensures GoodKey("name") && GoodKey("filename")
  {
  }

  /** `key="text"` in front of `more`: the first parameter has that key, and that value just if the text is free. */
  lemma FirstParam(key: string, text: string, more: string, s: string, kvs: seq<string>)
    requires GoodKey(key) && s == key + "=" + QUOTE + text + QUOTE + more && kvs == Pieces(s, ';')
    requires more == "" || more[0] == ';'
    ensures kvs != [] && (forall k :: HasKey(kvs[0], k) <==> k == key)
    ensures ValueOf(kvs[0]) == text <==> Free(text)
  {
    if ';' !in text {
      ParamAlone(key, text, more, s);
    } else {
      ParamCut(key, text, more, s, kvs);
    }
  }

  function Param(key: string, text: string): string { key + "=" + (QUOTE + text + QUOTE) }

  lemma ParamText(key: string, text: string, more: string)
    ensures key + "=" + QUOTE + text + QUOTE + more == Param(key, text) + more
    ensures Param(key, text) == key + "=" + (QUOTE + (text + QUOTE))
  {
    assert QUOTE + (text + QUOTE) == QUOTE + text + QUOTE;
  }

  lemma ParamFree(key: string, text: string, d: char)
    requires d !in key && d !in text && d != '=' && d != '"'
    ensures forall j :: 0 <= j < |Param(key, text)| ==> Param(key, text)[j] != d
  {
  }

  lemma PiecesBefore(kv: string, more: string)
    requires (forall j :: 0 <= j < |kv| ==> kv[j] != ';') && (more == "" || more[0] == ';')
    ensures Pieces(kv + more, ';') == Keep(Trim(kv)) + Pieces(if more == "" then "" else more[1..], ';')
  {
    if more == "" {
      PiecesOfJoin(kv, ';', "");
      assert Pieces("", ';') == [] && kv + more == kv;
    } else {
      assert kv + more == kv + [';'] + more[1..];
      PiecesOfJoin(kv, ';', more[1..]);
    }
  }

  lemma ParamAlone(key: string, text: string, more: string, s: string)
    requires GoodKey(key) && s == key + "=" + QUOTE + text + QUOTE + more
    requires (more == "" || more[0] == ';') && ';' !in text
    ensures Pieces(s, ';') == [Param(key, text)] + Pieces(if more == "" then "" else more[1..], ';')
    ensures forall k :: HasKey(Param(key, text), k) <==> k == key
    ensures ValueOf(Param(key, text)) == text <==> Free(text)
  {
    var kv := Param(key, text);
    ParamText(key, text, more);
    WholeParam(key, text, kv);
    ParamKey(key, text + QUOTE, kv);
    ParamFree(key, text, ';');
    PiecesBefore(kv, more);
    if Free(text) {
      ParamValue(key, text, kv);
    } else {
      ValueLacks(kv);
    }
  }

  /** A semicolon in the text cuts the parameter off. */
  lemma ParamCut(key: string, text: string, more: string, s: string, kvs: seq<string>)
    requires GoodKey(key) && s == key + "=" + QUOTE + text + QUOTE + more && kvs == Pieces(s, ';') && ';' in text
    ensures kvs != [] && (forall k :: HasKey(kvs[0], k) <==> k == key) && ValueOf(kvs[0]) != text
    ensures kvs[1..] == Pieces(Behind(text, more), ';')
  {
    var i := IndexOf(text, ';');
    var first, rest := key + "=" + QUOTE + text[..i], Behind(text, more);
    CutText(key, text, i, more);
    PiecesOfJoin(first, ';', rest);
    CutParam(key, text[..i], Trim(first));
    assert kvs == [Trim(first)] + Pieces(rest, ';');
  }

  /** What follows the first semicolon of the text. */
  function Behind(text: string, more: string): (r: string)
    requires ';' in text
    ensures |r| <= |text| + |more|
  {
    text[IndexOf(text, ';') + 1..] + QUOTE + more
  }

  lemma CutText(key: string, text: string, i: nat, more: string)
    requires GoodKey(key) && i == IndexOf(text, ';') < |text|
    ensures var first := key + "=" + QUOTE + text[..i];
            && key + "=" + QUOTE + text + QUOTE + more == first + [';'] + (text[i + 1..] + QUOTE + more)
            && forall j :: 0 <= j < |first| ==> first[j] != ';'
  {
    var head, tail := text[..i], text[i + 1..];
    assert text == head + [';'] + tail;
    assert key + "=" + QUOTE + (head + [';'] + tail) + QUOTE + more
        == key + "=" + QUOTE + head + [';'] + (tail + QUOTE + more);
  }

  lemma CutParam(key: string, head: string, kv: string)
    requires GoodKey(key) && ';' !in head && kv == Trim(key + "=" + QUOTE + head)
    ensures kv != "" && (forall k :: HasKey(kv, k) <==> k == key) && ';' !in ValueOf(kv)
  {
    TrimmedParam(key, head);
    var rest :| kv == key + "=" + (QUOTE + rest) && forall c :: c in rest ==> c in head;
    ParamKey(key, rest, kv);
    ValueLacks(kv);
    assert ';' !in key && ';' !in kv;
  }

  // ---------------------------------------------------------- the disposition's parameters

  /** What stands behind the name. */
  function FilePart(item: Item): string {
    if item.filename == "" then "" else "; " + FileParam(item)
  }

  function ParamsOf(item: Item): string { "name=" + QUOTE + item.name + QUOTE + FilePart(item) }

  lemma NameLearned(item: Item, kvs: seq<string>)
    requires kvs == Pieces(ParamsOf(item), ';')
    ensures FirstValue(kvs, "name").Some?
    ensures FirstValue(kvs, "name").value == item.name <==> Free(item.name)
  {
    Keys();
    NameText(item, ParamsOf(item), FilePart(item));
    FirstParam("name", item.name, FilePart(item), ParamsOf(item), kvs);
    assert HasKey(kvs[0], "name");
  }

  lemma FirstSkips(kv: string, rest: seq<string>, kvs: seq<string>, k: string)
    requires kvs == [kv] + rest && !HasKey(kv, k)
    ensures FirstValue(kvs, k) == FirstValue(rest, k)
  {
    assert kvs[1..] == rest;
  }

  lemma NameText(item: Item, s: string, more: string)
    requires s == ParamsOf(item) && more == FilePart(item)
    ensures s == "name" + "=" + QUOTE + item.name + QUOTE + more && (more == "" || more[0] == ';')
  {
    assert "name=" == "name" + "=";
  }

  /** The parameters behind a free name. */
  lemma FilePieces(item: Item, kv: string, kvs: seq<string>, rest: seq<string>)
    requires Free(item.name) && kvs == Pieces(ParamsOf(item), ';') && kv == Param("name", item.name)
    requires rest == if item.filename == "" then [] else Pieces(FileParam(item), ';')
    ensures kvs == [kv] + rest && forall k :: HasKey(kv, k) <==> k == "name"
  {
    var s, more := ParamsOf(item), FilePart(item);
    Keys();
    NameText(item, s, more);
    ParamAlone("name", item.name, more, s);
    FileBehind(item, more, rest);
  }

  function FileParam(item: Item): string { "filename=" + QUOTE + item.filename + QUOTE }

  lemma FileBehind(item: Item, more: string, rest: seq<string>)
    requires more == FilePart(item)
    requires rest == if item.filename == "" then [] else Pieces(FileParam(item), ';')
    ensures Pieces(if more == "" then "" else more[1..], ';') == rest
  {
    if item.filename != "" {
      BehindSign("; ", FileParam(item), more);
      LeadingBlank(FileParam(item), ';');
    } else {
      NoPieces(';');
    }
  }

  lemma BehindSign(sign: string, file: string, more: string)
    requires sign == "; " && more == sign + file
    ensures more[1..] == " " + file
  {
  }

  lemma NoPieces(d: char)
    ensures Pieces("", d) == []
  {
  }

  /** The parameters of a file name: found, exact just if it is free, and not overridden by itself. */
  lemma FileLearned(text: string, s: string, rest: seq<string>)
    requires s == "filename=" + QUOTE + text + QUOTE && rest == Pieces(s, ';')
    ensures FirstValue(rest, "filename").Some?
    ensures FirstValue(rest, "filename").value == text <==> Free(text)
    ensures Free(text) ==> FirstValue(rest, "filename*") == None
    ensures FirstValue(rest, "filename*").Some? ==> |FirstValue(rest, "filename*").value| <= |text|
  {
    FileText(text, s);
    Keys();
    FirstParam("filename", text, "", s, rest);
    assert HasKey(rest[0], "filename") && !HasKey(rest[0], "filename*");
    FirstSkips(rest[0], rest[1..], rest, "filename*");
    if ';' !in text {
      FileAlone(text, s, rest);
    } else {
      FileCut(text, s, rest);
    }
  }

  lemma FileText(text: string, s: string)
    requires s == "filename=" + QUOTE + text + QUOTE
    ensures s == "filename" + "=" + QUOTE + text + QUOTE + ""
  {
  }

  lemma FileAlone(text: string, s: string, rest: seq<string>)
    requires s == "filename" + "=" + QUOTE + text + QUOTE + "" && rest == Pieces(s, ';') && ';' !in text
    ensures rest != [] && FirstValue(rest[1..], "filename*") == None
  {
    Keys();
    ParamAlone("filename", text, "", s);
    NoPieces(';');
    assert rest[1..] == [];
  }

  lemma FileCut(text: string, s: string, rest: seq<string>)
    requires s == "filename" + "=" + QUOTE + text + QUOTE + "" && rest == Pieces(s, ';') && ';' in text
    ensures rest != []
    ensures FirstValue(rest[1..], "filename*").Some? ==> |FirstValue(rest[1..], "filename*").value| <= |text|
  {
    Keys();
    ParamCut("filename", text, "", s, rest);
    FoundShort(Behind(text, ""), rest[1..], "filename*");
  }

  lemma FoundShort(s: string, kvs: seq<string>, k: string)
    requires kvs == Pieces(s, ';')
    ensures FirstValue(kvs, k).Some? ==> |FirstValue(kvs, k).value| <= |s|
  {
    if FirstValue(kvs, k).Some? {
      var i := FoundAt(kvs, k);
      PiecesLack(s, ';', kvs, i);
      ValueLacks(kvs[i]);
    }
  }

  lemma {:induction false} FoundAt(kvs: seq<string>, k: string) returns (i: nat)
    requires FirstValue(kvs, k).Some?
    ensures i < |kvs| && FirstValue(kvs, k) == Some(ValueOf(kvs[i]))
  {
    if HasKey(kvs[0], k) {
      i := 0;
    } else {
      i := FoundAt(kvs[1..], k);
      i := i + 1;
    }
  }

  /** Name and file name are both learned as they are just if both are free. */
  lemma ParamsLearned(decode: Decoder, item: Item, kvs: seq<string>, r: Option<File>)
    requires Shortens(decode) && kvs == Pieces(ParamsOf(item), ';') && r == LearnParams(decode, NEW_FILE, kvs)
    ensures LearnedPair(r, item) <==> Free(item.name) && Free(item.filename)
    ensures r.Some? ==> r.value.contentType == ""
  {
    var name, filename, encoded := FirstValue(kvs, "name"), FirstValue(kvs, "filename"), FirstValue(kvs, "filename*");
    NameLearned(item, kvs);
    ValuesName(decode, NEW_FILE, name, filename, encoded, r);
    if Free(item.name) {
      FreeNameLearned(decode, item, kvs, r);
    }
  }

  lemma ValuesName(decode: Decoder, f: File, name: Option<string>, filename: Option<string>, encoded: Option<string>,
                   r: Option<File>)
    requires r == LearnValues(decode, f, name, filename, encoded)
    ensures r.Some? ==> name == Some(r.value.name) && r.value.contentType == f.contentType
  {
  }

  predicate LearnedPair(r: Option<File>, item: Item) {
    r.Some? && r.value.name == item.name && r.value.filename == item.filename
  }

  lemma FreeNameLearned(decode: Decoder, item: Item, kvs: seq<string>, r: Option<File>)
    requires Shortens(decode) && kvs == Pieces(ParamsOf(item), ';') && Free(item.name)
    requires FirstValue(kvs, "name") == Some(item.name) && r == LearnParams(decode, NEW_FILE, kvs)
    ensures LearnedPair(r, item) <==> Free(item.filename)
  {
    var rest := if item.filename == "" then [] else Pieces(FileParam(item), ';');
    var kv := Param("name", item.name);
    FilePieces(item, kv, kvs, rest);
    FirstSkips(kv, rest, kvs, "filename");
    FirstSkips(kv, rest, kvs, "filename*");
    if item.filename != "" {
      FileLearned(item.filename, FileParam(item), rest);
    }
    ValuesLearned(decode, item, FirstValue(kvs, "filename"), FirstValue(kvs, "filename*"), r);
  }

  lemma ValuesLearned(decode: Decoder, item: Item, filename: Option<string>, encoded: Option<string>, r: Option<File>)
    requires Shortens(decode) && r == LearnValues(decode, NEW_FILE, Some(item.name), filename, encoded)
    requires if item.filename == "" then filename == None == encoded
             else filename.Some? && (filename.value == item.filename <==> Free(item.filename))
    requires Free(item.filename) ==> encoded == None
    requires encoded.Some? ==> |encoded.value| <= |item.filename|
    ensures LearnedPair(r, item) <==> Free(item.filename)
  {
    if encoded.Some? && |encoded.value| > |UTF8| {
      assert |decode(encoded.value[|UTF8|..])| <= |encoded.value[|UTF8|..]|;
    }
  }

  // ------------------------------------------------------------------ encoded file names

  /** An encoded file name overrides the plain one; one that is not UTF-8, or is empty, is refused. */
  lemma EncodedName(decode: Decoder, f: File, name: string, kvs: seq<string>, value: string)
    requires FirstValue(kvs, "name") == Some(name) && FirstValue(kvs, "filename*") == Some(value)
    ensures forall x :: x != "" && value == "UTF-8''" + x ==>
              LearnParams(decode, f, kvs) == Some(File(name, decode(x), f.contentType))
    ensures |value| <= 7 || !(forall i :: 0 <= i < 7 ==> SameLetter(value[i], "UTF-8''"[i])) ==>
              LearnParams(decode, f, kvs) == None
  {
    AnyCase(value, UTF8);
    forall x | x != "" && value == "UTF-8''" + x
      ensures LearnParams(decode, f, kvs) == Some(File(name, decode(x), f.contentType))
    {
      assert value[7..] == x && value[..7] == UTF8;
      assert forall i :: 0 <= i < 7 ==> value[i] == UTF8[i];
    }
  }

  /** A parameter without quotes. */
  lemma BareParam(key: string, value: string, kv: string)
    requires GoodKey(key) && kv == key + "=" + value && '=' !in value
    requires value != "" && !IsBlank(value[0]) && !IsBlank(value[|value| - 1]) && TrimQuotes(value) == value
    ensures (forall k :: HasKey(kv, k) <==> k == key) && ValueOf(kv) == value
  {
    PiecesOfJoin(key, '=', value);
    TrimSolid(key);
    PiecesOfJoin(value, '=', "");
    TrimSolid(value);
    assert Pieces(kv, '=') == [key] + [value];
  }

  /** As printed by a client that encodes its file names. */
  lemma EncodedParam(x: string, kv: string)
    requires kv == "filename*" + "=" + (UTF8 + x) && x != "" && '=' !in x && !IsBlank(x[|x| - 1])
    ensures (forall k :: HasKey(kv, k) <==> k == "filename*") && ValueOf(kv) == UTF8 + x
  {
    var value := UTF8 + x;
    assert value[0] == 'U' && value[|value| - 1] == x[|x| - 1] && '=' !in value;
    BareParam("filename*", value, kv);
  }

  // ---------------------------------------------------------------------- the two lines

  /** The line with its parameters. */
  function Printed(field: string, form: string, params: string): string { field + (" " + (form + (" " + params))) }

  lemma HeadText()
    ensures "Content-Disposition: form-data; name=\"" == Printed(DISPOSITION_FIELD, FORM_DATA, "name=" + QUOTE)
  {
  }

  lemma PrintedMore(field: string, form: string, params: string, name: string, quote: string, more: string)
    ensures Printed(field, form, params) + name + quote + more == Printed(field, form, params + name + quote + more)
  {
  }

  lemma DispositionText(item: Item, line: string)
    requires line == DispositionLine(item)
    ensures line == Printed(DISPOSITION_FIELD, FORM_DATA, ParamsOf(item))
  {
    HeadText();
    if item.filename != "" {
      FileHead();
      MoveSign("; ", "filename=" + QUOTE, item.filename + QUOTE);
    }
    PrintedMore(DISPOSITION_FIELD, FORM_DATA, "name=" + QUOTE, item.name, QUOTE, FilePart(item));
  }

  lemma FileHead()
    ensures "; filename=\"" == "; " + ("filename=" + QUOTE)
  {
  }

  lemma MoveSign(sign: string, key: string, text: string)
    ensures sign + key + text == sign + (key + text)
  {
  }

  lemma FieldParts(a: string, b: string)
    ensures FieldText(a + b) <==> FieldText(a) && FieldText(b)
  {
    assert forall i :: 0 <= i < |a| ==> (a + b)[i] == a[i];
    assert forall i :: 0 <= i < |b| ==> (a + b)[|a| + i] == b[i];
  }

  lemma FieldAround(head: string, text: string, tail: string)
    requires FieldText(head)
    ensures FieldText(head + text + tail) <==> FieldText(text) && FieldText(tail)
  {
    FieldParts(head + text, tail);
    FieldParts(head, text);
  }

  lemma ParamsField(item: Item, params: string)
    requires params == ParamsOf(item)
    ensures FieldText(params) <==> FieldText(item.name) && FieldText(item.filename)
    ensures params[0] == 'n' && params[|params| - 1] == '"'
  {
    var more := FilePart(item);
    FieldAround("name=" + QUOTE, item.name, QUOTE + more);
    FieldParts(QUOTE, more);
    FileField(item, more);
    MoveSign("name=" + QUOTE + item.name, QUOTE, more);
  }

  lemma FileField(item: Item, more: string)
    requires more == FilePart(item)
    ensures FieldText(more) <==> FieldText(item.filename)
    ensures more != "" ==> more[|more| - 1] == '"'
  {
    if item.filename != "" {
      var file := "filename=" + QUOTE + item.filename + QUOTE;
      FieldAround("filename=" + QUOTE, item.filename, QUOTE);
      FieldParts("; ", file);
    }
  }

  /** A line with a token, a colon and a value is accepted just if the value, trimmed, is one. */
  lemma FieldOf(key: string, value: string, line: string)
    requires line == key + ":" + value && IsToken(key)
    ensures HeaderField(line).Some? <==> FieldContent(Trim(value))
  {
    RightKeeps(key + ":", value);
    var t := key + ":" + TrimRight(value);
    KeyEnds(key, TrimRight(value), t);
    TrimEither(value);
  }

  lemma KeyEnds(key: string, value: string, t: string)
    requires t == key + ":" + value && IsToken(key)
    ensures IndexOf(t, ':') == |key| && t[..|key|] == key && t[|key| + 1..] == value
  {
    forall j | 0 <= j < |key|
      ensures t[j] != ':'
    {
      assert t[j] == key[j] && IsTokenChar(key[j]);
    }
    assert t[|key|] == ':';
    IndexIs(t, ':', |key|);
  }

  lemma Tokens()
    ensures DISPOSITION_FIELD == "Content-Disposition" + ":" && IsToken("Content-Disposition")
    ensures TYPE_FIELD == "Content-Type" + ":" && IsToken("Content-Type")
  {
  }

  lemma DispositionAccepted(params: string, line: string)
    requires line == Printed(DISPOSITION_FIELD, FORM_DATA, params)
    requires params != "" && IsFieldVchar(params[|params| - 1])
    ensures HeaderField(line).Some? <==> FieldText(params)
  {
    Tokens();
    var value := FORM_DATA + (" " + params);
    FieldOf("Content-Disposition", " " + value, line);
    TrimBlank(value);
    ValueField(FORM_DATA, params, value);
  }

  lemma ValueField(form: string, params: string, value: string)
    requires value == form + (" " + params) && params != "" && IsFieldVchar(params[|params| - 1])
    requires form != "" && FieldText(form) && IsFieldVchar(form[0])
    ensures FieldContent(Trim(value)) <==> FieldText(params)
  {
    assert value[0] == form[0] && value[|value| - 1] == params[|params| - 1];
    TrimSolid(value);
    FieldParts(form, " " + params);
    FieldParts(" ", params);
  }

  lemma DispositionOf(params: string, line: string)
    requires line == Printed(DISPOSITION_FIELD, FORM_DATA, params) && params != "" && !IsSpace(params[0])
    ensures Disposition(line) == Some(params)
  {
    var rest := FORM_DATA + (" " + params);
    BehindField(DISPOSITION_FIELD, rest, line);
    BehindField(FORM_DATA, params, rest);
  }

  lemma NotType(field: string, rest: string, line: string)
    requires field == DISPOSITION_FIELD && line == field + rest
    ensures !StartsWith(line, TYPE_FIELD)
  {
    assert field[8] == 'D' && TYPE_FIELD[8] == 'T';
    assert line[8] == field[8];
  }

  lemma BehindField(field: string, rest: string, line: string)
    requires line == field + (" " + rest) && rest != "" && !IsSpace(rest[0])
    ensures StartsWith(line, field) && StripLeft(line[|field|..]) == rest
  {
    assert line[|field|..] == " " + rest && (" " + rest)[1..] == rest;
  }

  /** What the parser makes of the printed line. */
  lemma DispositionLearns(decode: Decoder, item: Item, params: string, line: string)
    requires params == ParamsOf(item) && line == Printed(DISPOSITION_FIELD, FORM_DATA, params)
    ensures Learn(decode, NEW_FILE, line)
         == if FieldText(params) then LearnParams(decode, NEW_FILE, Pieces(params, ';')) else None
  {
    ParamsField(item, params);
    DispositionAccepted(params, line);
    DispositionOf(params, line);
    NotType(DISPOSITION_FIELD, " " + (FORM_DATA + (" " + params)), line);
  }

  lemma DispositionLearned(decode: Decoder, item: Item)
    requires Shortens(decode)
    ensures var f := Learned(decode, NEW_FILE, DispositionLine(item));
            && f.contentType == ""
            && (f.name == item.name && f.filename == item.filename
                <==> PlainName(item.name) && PlainName(item.filename))
  {
    var line, params := DispositionLine(item), ParamsOf(item);
    DispositionText(item, line);
    DispositionLearns(decode, item, params, line);
    ParamsField(item, params);
    ParamsLearned(decode, item, Pieces(params, ';'), LearnParams(decode, NEW_FILE, Pieces(params, ';')));
  }

  lemma TypeLearns(decode: Decoder, f: File, text: string, line: string)
    requires line == TYPE_FIELD + (" " + text)
    ensures Learn(decode, f, line) == if FieldContent(Trim(text)) then Some(f.(contentType := Trim(text))) else None
  {
    Tokens();
    FieldOf("Content-Type", " " + text, line);
    TrimBlank(text);
    TypeValue(TYPE_FIELD, " " + text, line);
  }

  /** The value of a Content-Type line is learned trimmed. */
  lemma TypeLearned(decode: Decoder, f: File, text: string, line: string)
    requires text != "" && line == TYPE_FIELD + (" " + text) && f.contentType == ""
    ensures Learned(decode, f, line) == f.(contentType := Learned(decode, f, line).contentType)
    ensures Learned(decode, f, line).contentType == text <==> FieldContent(text)
  {
    TypeLearns(decode, f, text, line);
    if FieldContent(text) {
      TrimSolid(text);
    }
  }

  lemma TypeValue(field: string, value: string, line: string)
    requires line == field + value
    ensures StartsWith(line, field) && line[|field|..] == value
  {
  }

  lemma TypeText(item: Item, line: string)
    requires line == TypeLine(item)
    ensures line == TYPE_FIELD + (" " + item.contentType)
  {
    assert "Content-Type: " == TYPE_FIELD + " ";
  }

  /** Trimming the right end first makes no difference. */
  lemma {:induction false} TrimEither(s: string)
    ensures TrimLeft(TrimRight(s)) == Trim(s)
  {
    if s != "" {
      var t, b := s[..|s| - 1], s[|s| - 1];
      assert s == t + [b];
      LeftKeeps(t, b);
      if IsBlank(b) {
        TrimEither(t);
        assert TrimLeft([b]) == "" by {
          assert [b][1..] == "";
        }
        assert (TrimLeft(t) + [b])[..|TrimLeft(t)|] == TrimLeft(t);
      }
    }
  }

  lemma {:induction false} LeftKeeps(t: string, b: char)
    ensures TrimLeft(t + [b]) == if TrimLeft(t) != "" then TrimLeft(t) + [b] else TrimLeft([b])
  {
    if t == "" {
      assert t + [b] == [b];
    } else if IsBlank(t[0]) {
      LeftKeeps(t[1..], b);
      assert (t + [b])[1..] == t[1..] + [b];
    }
  }

  // --------------------------------------------------------------------------- all items

  /** The item that an entry announces. */
  function ItemOf(decode: Decoder, part: Part): Item {
    var f := LearnAll(decode, NEW_FILE, part.lines);
    Item(f.name, f.filename, f.contentType, part.content)
  }

  function ItemsOf(decode: Decoder, parts: seq<Part>): (items: seq<Item>)
    ensures |items| == |parts| && forall i :: 0 <= i < |parts| ==> items[i] == ItemOf(decode, parts[i])
  {
    seq(|parts|, i requires 0 <= i < |parts| => ItemOf(decode, parts[i]))
  }

  /** An item is learned from its lines as it is just if it is plain. */
  lemma ItemLearned(decode: Decoder, item: Item)
    requires Shortens(decode)
    ensures ItemOf(decode, Part(HeaderLines(item), item.content)) == item <==> Plain(item)
  {
    var lines, first := HeaderLines(item), DispositionLine(item);
    DispositionLearned(decode, item);
    if item.contentType == "" {
      LearnOne(decode, NEW_FILE, first, lines);
    } else {
      LearnTwo(decode, NEW_FILE, first, TypeLine(item), lines);
      TypeText(item, TypeLine(item));
      TypeLearned(decode, Learned(decode, NEW_FILE, first), item.contentType, TypeLine(item));
    }
  }

  /** A name that does not come back: the parser cuts it at the semicolon. */
  lemma SemicolonInName(decode: Decoder)
    requires Shortens(decode)
    ensures var item := Item("a;b", "", "", "x");
            ItemOf(decode, Part(HeaderLines(item), item.content)) != item
  {
    var name := "a;b";
    assert name[1] == ';';
    ItemLearned(decode, Item(name, "", "", "x"));
  }

  /** All items are learned as they are just if all are plain. */
  lemma ItemsLearned(decode: Decoder, items: seq<Item>)
    requires Shortens(decode)
    ensures ItemsOf(decode, Parts(items)) == items <==> forall i :: 0 <= i < |items| ==> Plain(items[i])
  {
    var learned := ItemsOf(decode, Parts(items));
    forall i | 0 <= i < |items|
      ensures learned[i] == items[i] <==> Plain(items[i])
    {
      PartAt(items, i);
      ItemLearned(decode, items[i]);
    }
    SameItems(learned, items);
  }

  lemma SameItems(a: seq<Item>, b: seq<Item>)
    requires |a| == |b|
    ensures a == b <==> forall i :: 0 <= i < |b| ==> a[i] == b[i]
  {
  }

  lemma {:induction false} PartAt(items: seq<Item>, i: nat)
    requires i < |items|
    ensures Parts(items)[i] == Part(HeaderLines(items[i]), items[i].content)
  {
    if i > 0 {
      PartAt(items[1..], i - 1);
    }
  }

  // --------------------------------------------------------------------- accepted lines

  /** The parser's own verdict on a header line. */
  predicate LineOk(decode: Decoder, line: string) { Learn(decode, NEW_FILE, line).Some? }

  lemma FieldLine(line: string)
    requires FieldText(line)
    ensures Find(line, CRLF) == |line|
  {
    forall j | 0 <= j < |line|
      ensures !OccursAt(line, CRLF, j)
    {
      assert IsFieldChar(line[j]);
      if j + 2 <= |line| {
        assert line[j..j + 2][0] == line[j];
      }
    }
    FindNone(line, CRLF);
  }

  lemma DispositionGood(decode: Decoder, item: Item, line: string)
    requires Shortens(decode) && Plain(item) && line == DispositionLine(item)
    ensures line != "" && Find(line, CRLF) == |line| && LineOk(decode, line)
  {
    var params := ParamsOf(item);
    DispositionText(item, line);
    DispositionLearns(decode, item, params, line);
    ParamsField(item, params);
    ParamsLearned(decode, item, Pieces(params, ';'), LearnParams(decode, NEW_FILE, Pieces(params, ';')));
    PrintedLine(params, line);
  }

  lemma PrintedLine(params: string, line: string)
    requires FieldText(params) && line == Printed(DISPOSITION_FIELD, FORM_DATA, params)
    ensures line != "" && Find(line, CRLF) == |line|
  {
    PrintedField(DISPOSITION_FIELD, FORM_DATA, params);
    FieldLine(line);
  }

  lemma PrintedField(field: string, form: string, params: string)
    requires FieldText(field) && FieldText(form) && FieldText(params)
    ensures FieldText(Printed(field, form, params))
  {
    FieldParts(" ", params);
    FieldParts(form, " " + params);
    FieldParts(" ", form + (" " + params));
    FieldParts(field, " " + (form + (" " + params)));
  }

  lemma TypeGood(decode: Decoder, text: string, line: string)
    requires text != "" && FieldContent(text) && line == TYPE_FIELD + (" " + text)
    ensures line != "" && Find(line, CRLF) == |line| && LineOk(decode, line)
  {
    TypeAccepted(decode, text, line);
    TypeIsField(TYPE_FIELD, text);
    FieldLine(line);
  }

  lemma TypeAccepted(decode: Decoder, text: string, line: string)
    requires text != "" && FieldContent(text) && line == TYPE_FIELD + (" " + text)
    ensures LineOk(decode, line)
  {
    TypeLearns(decode, NEW_FILE, text, line);
    TrimSolid(text);
  }

  lemma TypeIsField(field: string, text: string)
    requires FieldText(field) && FieldText(text)
    ensures FieldText(field + (" " + text))
  {
    FieldParts(" ", text);
    FieldParts(field, " " + text);
  }

  /** The lines of a plain item are such as the parser accepts. */
  lemma PlainLines(decode: Decoder, item: Item, j: nat)
    requires Shortens(decode) && Plain(item) && j < |HeaderLines(item)|
    ensures var line := HeaderLines(item)[j];
            line != "" && Find(line, CRLF) == |line| && LineOk(decode, line)
  {
    if j == 0 {
      DispositionGood(decode, item, DispositionLine(item));
    } else {
      TypeText(item, TypeLine(item));
      TypeGood(decode, item.contentType, TypeLine(item));
    }
  }

  function Verdict(decode: Decoder): string -> bool { (line: string) => LineOk(decode, line) }

  /** The verdict on header lines is the parser's own. */
  ghost predicate OwnVerdict(env: Env, decode: Decoder) { env.lineOk == Verdict(decode) }

  /** Short header lines, and a content in which the delimiter does not occur. */
  ghost predicate Fits(env: Env, item: Item) {
    && (forall j :: 0 <= j < |HeaderLines(item)| ==> |HeaderLines(item)[j]| < HEADER_MAX_LENGTH)
    && Delimited(env, item.content)
  }

  lemma PlainLine(env: Env, decode: Decoder, item: Item, j: nat, line: string)
    requires Shortens(decode) && OwnVerdict(env, decode) && Plain(item) && Fits(env, item)
    requires j < |HeaderLines(item)| && line == HeaderLines(item)[j]
    ensures GoodLine(env, line)
  {
    PlainLines(decode, item, j);
    assert Verdict(decode)(line) == LineOk(decode, line);
  }

  lemma PlainPart(env: Env, decode: Decoder, item: Item, part: Part)
    requires Shortens(decode) && OwnVerdict(env, decode) && Plain(item) && Fits(env, item)
    requires part == Part(HeaderLines(item), item.content)
    ensures GoodPart(env, part)
  {
    forall j {:trigger GoodLine(env, part.lines[j])} | 0 <= j < |part.lines|
      ensures GoodLine(env, part.lines[j])
    {
      PlainLine(env, decode, item, j, part.lines[j]);
    }
  }

  /** What the parser can receive as it is. */
  ghost predicate Receivable(env: Env, item: Item) { Plain(item) && Fits(env, item) }

  /** Plain items with short lines and delimited contents are what the parser can receive. */
  lemma {:induction false} PlainParts(env: Env, decode: Decoder, items: seq<Item>, parts: seq<Part>)
    requires Shortens(decode) && OwnVerdict(env, decode) && parts == Parts(items)
    requires forall i :: 0 <= i < |items| ==> Receivable(env, items[i])
    ensures GoodParts(env, parts)
  {
    if items != [] {
      var item := items[0];
      assert Receivable(env, item);
      PlainParts(env, decode, items[1..], parts[1..]);
      PlainPart(env, decode, item, parts[0]);
      GoodFirst(env, parts);
    }
  }

  lemma GoodFirst(env: Env, parts: seq<Part>)
    requires parts != [] && GoodPart(env, parts[0]) && GoodParts(env, parts[1..])
    ensures GoodParts(env, parts)
  {
    forall i | 0 < i < |parts|
      ensures GoodPart(env, parts[i])
    {
      assert parts[i] == parts[1..][i - 1];
    }
  }
}
