/** What the editor and the parser each make of a line, and the parser of the lines around an
    edit (internal/config/persist_origins.go, internal/config/yaml/yaml.go). */
module OriginsLaws {
  import opened Model
  import opened Yaml
  import opened YamlFrames
  import opened YamlEdits
  import opened OriginsEditor
  import opened OriginsTokens

  // ----- one line, seen by both -----

  /** No tab indentation, and carriage returns only at the ends of lines. */
  ghost predicate Readable(lines: seq<string>) {
    Tokens(lines).Ok? && forall i :: 0 <= i < |lines| ==> PlainLine(lines[i])
  }

  predicate PlainLine(line: string) {
    '\r' !in TrimRight(line)
  }

  /** A document marker: the parser skips it, the editor does not. */
  predicate IsMarker(line: string) {
    Trim(line) == "---"
  }

  lemma {:induction false} TrimRightHead(s: string)
    requires s != "" && !IsSpace(s[0])
    ensures TrimRight(s) != "" && TrimRight(s)[0] == s[0]
  {
    if IsSpace(s[|s| - 1]) {
      TrimRightHead(s[..|s| - 1]);
    }
  }

  lemma {:induction false} StripHead(s: string, i: nat, inS: bool, inD: bool)
    requires i <= |s| && s != "" && !IsSpace(s[0])
    ensures StripFrom(s, i, inS, inD) != "" && StripFrom(s, i, inS, inD)[0] == s[0]
    decreases |s| - i
  {
    if i < |s| {
      if i > 0 { TrimRightHead(s[..i]); }
      if s[i] == '\'' && !inD {
        StripHead(s, i + 1, !inS, inD);
      } else if s[i] == '"' && !inS {
        StripHead(s, i + 1, inS, !inD);
      } else {
        StripHead(s, i + 1, inS, inD);
      }
    }
  }

  lemma {:induction false} TrimLeftIsSpaces(line: string)
    requires Spaces(line) < |line| && !IsSpace(line[Spaces(line)])
    ensures TrimLeft(line) == line[Spaces(line)..]
  {
    if line[0] == ' ' {
      TrimLeftIsSpaces(line[1..]);
    }
  }

  lemma {:induction false} AllSpace(line: string)
    requires TrimRight(line) == ""
    ensures forall i :: 0 <= i < |line| ==> IsSpace(line[i])
  {
    if line != "" {
      AllSpace(line[..|line| - 1]);
    }
  }

  lemma {:induction false} SpaceTrims(line: string)
    requires forall i :: 0 <= i < |line| ==> IsSpace(line[i])
    ensures TrimRight(line) == "" && TrimLeft(line) == ""
  {
    if line != "" {
      SpaceTrims(line[..|line| - 1]);
      SpaceTrims(line[1..]);
    }
  }

  lemma {:induction false} OnlySpaces(line: string, i: nat)
    requires i < Spaces(line)
    ensures line[i] == ' '
  {
    if i > 0 {
      OnlySpaces(line[1..], i - 1);
    }
  }

  /** The first character past the indent of a line that is not blank. */
  lemma ContentStarts(line: string)
    requires PlainLine(line) && TrimRight(line) != "" && (Spaces(line) < |line| ==> line[Spaces(line)] != '\t')
    ensures Spaces(line) < |line| && !IsSpace(line[Spaces(line)])
  {
    hide TrimRight, Spaces;
    var t, n := TrimRight(line), Spaces(line);
    if n >= |t| {
      OnlySpaces(line, |t| - 1);
    }
    assert t[n] == line[n];
    assert t[n] in t;
  }

  /** What the editor trims and what the parser reads after the indent is the same text. */
  lemma TrimIsContent(line: string)
    requires PlainLine(line) && (Spaces(line) < |line| ==> line[Spaces(line)] != '\t')
    ensures Trim(line) == TrimRight(line[Spaces(line)..])
  {
    hide TrimRight, TrimLeft, Spaces, PlainLine;
    if TrimRight(line) == "" {
      AllSpace(line);
      SpaceTrims(line);
      SpaceTrims(line[Spaces(line)..]);
    } else {
      ContentStarts(line);
      TrimLeftIsSpaces(line);
    }
  }

  /** The editor skips a line exactly when the parser does, document markers apart, and they
      agree on its indent. */
  lemma LineReads(line: string)
    requires PlainLine(line) && TokenOf(line).Ok?
    ensures TokenOf(line).value.Some? <==> !Skipped(line) && !IsMarker(line)
    ensures TokenOf(line).value.Some? ==> TokenOf(line).value.value.indent == Lead(line)
  {
    TrimIsContent(line);
    var content := Trim(line);
    if !Skipped(line) {
      StripHead(content, 0, false, false);
      TrimRightHead(StripComment(content));
    }
  }

  lemma {:induction false} ColonAfter(key: string, rest: string)
    requires ':' !in key && rest != "" && rest[0] == ':'
    ensures Colon(key + rest) == |key|
  {
    if key == "" {
      assert key + rest == rest;
    } else {
      assert key[0] in key;
      assert (key + rest)[1..] == key[1..] + rest;
      ColonAfter(key[1..], rest);
    }
  }

  lemma {:induction false} StripIsPrefix(s: string, i: nat, inS: bool, inD: bool)
    requires i <= |s|
    ensures StripFrom(s, i, inS, inD) <= s
    decreases |s| - i
  {
    if i < |s| {
      if s[i] == '\'' && !inD {
        StripIsPrefix(s, i + 1, !inS, inD);
      } else if s[i] == '"' && !inS {
        StripIsPrefix(s, i + 1, inS, !inD);
      } else {
        StripIsPrefix(s, i + 1, inS, inD);
      }
    }
  }

  lemma {:induction false} TrimLeftKeeps(s: string, c: char)
    requires c in s && !IsSpace(c)
    ensures c in TrimLeft(s)
  {
    if IsSpace(s[0]) {
      assert c in s[1..];
      TrimLeftKeeps(s[1..], c);
    }
  }

  lemma {:induction false} TrimRightKeeps(s: string, c: char)
    requires c in s && !IsSpace(c)
    ensures c in TrimRight(s)
  {
    if IsSpace(s[|s| - 1]) {
      assert c in s[..|s| - 1];
      TrimRightKeeps(s[..|s| - 1], c);
    }
  }

  /** The parser reads the line as one setting the key. */
  ghost predicate NamesService(line: string, ind: nat, key: string) {
    TokenOf(line).Ok? && TokenOf(line).value.Some? && SetsKey(ind, TokenOf(line).value.value, key)
  }

  /** Where the parser cuts a key that holds no colon is the first colon of the line. */
  lemma CutAtColon(t: string, text: string, i: nat, key: string)
    requires text <= t && i < |text| && text[i] == ':' && Trim(text[..i]) == key && ':' !in key
    ensures Colon(t) == i && t[..i] == text[..i]
  {
    if ':' in text[..i] {
      TrimLeftKeeps(text[..i], ':');
      TrimRightKeeps(TrimLeft(text[..i]), ':');
    }
    assert t == t[..i] + t[i..] && t[..i] == text[..i];
    ColonAfter(t[..i], t[i..]);
  }

  /** Of a line the parser reads as setting a key without colons, the editor sees that key. */
  lemma EditorSeesKey(line: string, d: nat, key: string)
    requires PlainLine(line) && NamesService(line, d, key) && ':' !in key
    ensures EditorKey(line) == key
  {
    hide Trim, TrimRight, StripFrom, IsSeqItem;
    TrimIsContent(line);
    var t, text := Trim(line), TokenOf(line).value.value.text;
    StripIsPrefix(t, 0, false, false);
    CutAtColon(t, text, if Separator(text) < |text| then Separator(text) else |text| - 1, key);
  }

  lemma StrippedHeader()
    ensures StripComment("origins:") == "origins:" && Trim("origins:") != ""
  {
    StripPlain("origins:", 0, false, false);
    TrimExact("origins:");
  }

  lemma HeaderToken(line: string)
    requires PlainLine(line) && IsHeader(line)
    ensures TokenOf(line) == Ok(Some(Token(0, "origins:")))
  {
    hide StripComment, TrimRight, TrimLeft, PlainLine, Trim;
    assert line[0..] == line;
    TrimIsContent(line);
    StrippedHeader();
  }

  lemma HeaderReads(line: string)
    requires PlainLine(line) && IsHeader(line)
    ensures TokenOf(line) == Ok(Some(BareToken(0, "origins"))) && KeyLine(BareToken(0, "origins"), 0, "origins")
  {
    hide TokenOf, PlainLine, IsHeader, KeyLine;
    HeaderToken(line);
    assert "origins" + ":" == "origins:";
    BareLine(0, "origins");
  }

  // ----- runs of lines -----

  function Toks(lines: seq<string>): seq<Token> {
    match Tokens(lines) case Err => [] case Ok(ts) => ts
  }

  lemma ReadableParts(a: seq<string>, b: seq<string>)
    requires Readable(a + b)
    ensures Readable(a) && Readable(b) && Toks(a + b) == Toks(a) + Toks(b)
  {
    TokensAppend(a, b);
    assert forall i :: 0 <= i < |a| ==> a[i] == (a + b)[i];
    assert forall i :: 0 <= i < |b| ==> b[i] == (a + b)[|a| + i];
  }

  lemma TokensJoin(a: seq<string>, b: seq<string>)
    requires Tokens(a).Ok? && Tokens(b).Ok?
    ensures Tokens(a + b) == Ok(Toks(a) + Toks(b))
  {
    TokensAppend(a, b);
  }

  predicate Child(line: string, d: int) {
    Skipped(line) || Lead(line) > d
  }

  lemma {:induction false} ChildTokens(lines: seq<string>, d: nat)
    requires Readable(lines) && forall i :: 0 <= i < |lines| ==> Child(lines[i], d)
    ensures AllDeeper(d, Toks(lines))
  {
    if lines != [] {
      var init, last := lines[..|lines| - 1], lines[|lines| - 1];
      assert lines == init + [last];
      ReadableParts(init, [last]);
      ChildTokens(init, d);
      TokensSnoc(init, last);
      LineReads(last);
    }
  }

  /** A line that neither skips gives the first token of what it heads. */
  lemma HeadToken(line: string, rest: seq<string>)
    requires Readable([line] + rest) && !Skipped(line) && !IsMarker(line)
    ensures TokenOf(line).Ok? && TokenOf(line).value.Some? && TokenOf(line).value.value.indent == Lead(line)
    ensures Readable(rest) && Toks([line] + rest) == [TokenOf(line).value.value] + Toks(rest)
  {
    var nothing: seq<string> := [];
    ReadableParts([line], rest);
    assert [line][0] == line;
    TokensSnoc(nothing, line);
    assert nothing + [line] == [line];
    LineReads(line);
    OneToken(line, TokenOf(line).value.value);
  }

  // ----- the document in pieces -----

  /** A document around its `origins:` block: lines before, header, block, lines after. */
  function Doc(a: seq<string>, hdr: string, b: seq<string>, c: seq<string>): seq<string> {
    a + ([hdr] + (b + c))
  }

  lemma DocTokens(a: seq<string>, hdr: string, b: seq<string>, c: seq<string>)
    requires Readable(Doc(a, hdr, b, c)) && IsHeader(hdr)
    ensures Readable(a) && Readable(b) && Readable(c) && PlainLine(hdr)
    ensures Tokens(Doc(a, hdr, b, c)) == Ok(Toks(a) + ([BareToken(0, "origins")] + (Toks(b) + Toks(c))))
    ensures KeyLine(BareToken(0, "origins"), 0, "origins")
  {
    ReadableParts(a, [hdr] + (b + c));
    ReadableParts([hdr], b + c);
    ReadableParts(b, c);
    assert [hdr][0] == hdr;
    HeaderReads(hdr);
    OneToken(hdr, BareToken(0, "origins"));
  }

  lemma DocRebuilt(a: seq<string>, hdr: string, b: seq<string>, b': seq<string>, c: seq<string>)
    requires Readable(Doc(a, hdr, b, c)) && IsHeader(hdr) && Tokens(b').Ok?
    ensures Tokens(Doc(a, hdr, b', c)) == Ok(Toks(a) + ([BareToken(0, "origins")] + (Toks(b') + Toks(c))))
  {
    DocTokens(a, hdr, b, c);
    HeaderReads(hdr);
    OneToken(hdr, BareToken(0, "origins"));
    TokensJoin(b', c);
    TokensJoin([hdr], b' + c);
    TokensJoin(a, [hdr] + (b' + c));
  }

  // ----- replacing an entry -----

  lemma MapValue(ts: seq<Token>, k: nat, o: map<string, Value>)
    requires ts != [] && ts[0].indent == k
    ensures ValueOf(ts) == Some(Map(o)) ==> MapLoop(k, ts, map[]) == Ok((o, |ts|))
    ensures !IsSeqItem(ts[0].text) && MapLoop(k, ts, map[]) == Ok((o, |ts|)) ==> ValueOf(ts) == Some(Map(o))
    ensures ValueOf(ts) == Some(Map(o)) ==> !IsSeqItem(ts[0].text)
  {
  }

  /** On tokens: swapping an entry's own tokens for a rendered entry's. */
  lemma EntryTokensReplaced(k: nat, x: seq<Token>, e: seq<Token>, e': seq<Token>, y: seq<Token>, key: string,
                            o: map<string, Value>, v': Value)
    requires IsEntry(k, e, key) && Sets(k, e', key, v') && Boundary(k, y) && NeverSets(k, y, key)
    requires (x + (e + y))[0].indent == k && ValueOf(x + (e + y)) == Some(Map(o))
    ensures ValueOf(x + (e' + y)) == Some(Map(o[key := v']))
  {
    var ts, ts' := x + (e + y), x + (e' + y);
    MapValue(ts, k, o);
    EntryReplaced(k, x, e, e', y, key, o, v');
    assert ts'[0] == if x == [] then e'[0] else x[0];
    assert ts[0] == if x == [] then e[0] else x[0];
    MapValue(ts', k, o[key := v']);
  }

  /** The lines an entry takes up: its own line, and deeper ones. */
  predicate EntryLines(e: seq<string>, ind: nat) {
    e != [] && !Skipped(e[0]) && Lead(e[0]) == ind && forall i :: 1 <= i < |e| ==> !Skipped(e[i]) && Lead(e[i]) > ind
  }

  lemma EntryTokens(e: seq<string>, ind: nat, service: string)
    requires Readable(e) && EntryLines(e, ind) && NamesService(e[0], ind, service)
    ensures IsEntry(ind, Toks(e), service)
  {
    assert e == [e[0]] + e[1..];
    assert !IsMarker(e[0]) by {
      ReadableParts([e[0]], e[1..]);
      assert [e[0]][0] == e[0];
      LineReads(e[0]);
    }
    HeadToken(e[0], e[1..]);
    ChildTokens(e[1..], ind);
    assert Toks(e)[1..] == Toks(e[1..]);
  }

  lemma DeeperParts(d: nat, a: seq<Token>, b: seq<Token>)
    ensures AllDeeper(d, a + b) <==> AllDeeper(d, a) && AllDeeper(d, b)
  {
    assert forall i :: 0 <= i < |a| ==> (a + b)[i] == a[i];
    assert forall i :: 0 <= i < |b| ==> (a + b)[|a| + i] == b[i];
  }

  lemma SetsDeeper(k: nat, d: nat, e: seq<Token>, key: string, v: Value)
    requires Sets(k, e, key, v) && k > d
    ensures AllDeeper(d, e)
  {
    assert forall i :: 1 <= i < |e| ==> e[i] == e[1..][i - 1];
  }

  // ----- adding an entry -----

  lemma TokensAdded(ts: seq<Token>, e': seq<Token>, k: nat, key: string, o: map<string, Value>, v': Value)
    requires Sets(k, e', key, v')
    requires if ts == [] then o == map[] else ts[0].indent == k && ValueOf(ts) == Some(Map(o))
    ensures ValueOf(ts + e') == Some(Map(o[key := v']))
  {
    if ts != [] {
      MapValue(ts, k, o);
    }
    EntryInserted(k, ts, e', key, o, v');
    assert (ts + e')[0] == if ts == [] then e'[0] else ts[0];
    MapValue(ts + e', k, o[key := v']);
  }
}
