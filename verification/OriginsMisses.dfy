/** Where the line editor and the parser part (internal/config/persist_origins.go): two families
    of documents on which an edit does something else than setting the entry. */
module OriginsMisses {
  import opened Model
  import opened Yaml
  import opened OriginsEditor
  import opened OriginsTokens
  import opened OriginsLaws
  import opened OriginsAgree

  // ----- what the editor sees of a rendered line -----

  lemma {:induction false} TrimPad(k: nat, text: string)
    requires text != "" && !IsSpace(text[0])
    ensures TrimLeft(Pad(k) + text) == text
  {
    if k == 0 {
      assert Pad(k) + text == text;
    } else {
      assert (Pad(k) + text)[1..] == Pad(k - 1) + text;
      TrimPad(k - 1, text);
    }
  }

  lemma PaddedReads(k: nat, text: string)
    requires text != "" && !IsSpace(text[0]) && !IsSpace(text[|text| - 1])
    ensures Trim(Pad(k) + text) == text && Lead(Pad(k) + text) == k
  {
    TrimPad(k, text);
    TrimExact(text);
    SpacesOfPad(k, text);
    assert (Pad(k) + text)[k] == text[0];
  }

  lemma SeesLine(k: nat, key: string, rest: string)
    requires PlainKey(key) && rest != "" && rest[0] == ':' && !IsSpace(rest[|rest| - 1])
    ensures See(Pad(k) + (key + rest)) == Sight(false, k, key, k == 0 && key + rest == "origins:")
  {
    hide Trim, Lead, Spaces, Pad, PlainKey, PlainText;
    var text := key + rest;
    assert text[0] == key[0] && !IsSpace(text[0]) && text[0] != '#' && ':' !in key && Trim(key) == key by { PlainKeyReads(key); }
    PaddedReads(k, text);
    assert text[..|key|] == key;
    ColonAfter(key, rest);
  }

  lemma PlainKeyReads(key: string)
    requires PlainKey(key)
    ensures key != "" && !IsSpace(key[0]) && key[0] != '#' && ':' !in key && Trim(key) == key
  {
    PlainEnds(key);
    assert key[0] in key;
    TrimExact(key);
  }

  // ----- a header with a trailing comment -----

  const COMMENTED_HEADER := "origins: #"

  lemma {:induction false} StripAt(s: string, i: nat, k: nat)
    requires i <= k < |s| && k > 0 && s[k] == '#' && s[k - 1] == ' '
    requires forall j :: i <= j < k ==> s[j] != '#' && s[j] != '\'' && s[j] != '"'
    ensures StripFrom(s, i, false, false) == TrimRight(s[..k])
    decreases k - i
  {
    if i < k {
      StripAt(s, i + 1, k);
    }
  }

  lemma CommentStripped()
    ensures StripComment(COMMENTED_HEADER) == "origins:"
  {
    var h := COMMENTED_HEADER;
    assert h[..9][..8] == "origins:";
    StripAt(h, 0, 9);
    TrimExact("origins:");
  }

  /** The parser reads it as the `origins` key; the editor sees no header in it. */
  lemma CommentedHeaderReads()
    ensures TokenOf(COMMENTED_HEADER) == Ok(Some(BareToken(0, "origins")))
    ensures !IsHeader(COMMENTED_HEADER) && !IsTopLevelKey(COMMENTED_HEADER, "edges")
  {
    hide StripComment, IsTopLevelKey;
    var h := COMMENTED_HEADER;
    TrimExact(h);
    assert h[0..] == h && TrimLeft(h) == h;
    CommentStripped();
    assert "origins" + ":" == "origins:";
    TrimExact("origins:");
    KeyStarts(h, "edges");
  }

  lemma KeyStarts(line: string, key: string)
    requires line != "" && key != "" && line[0] != key[0] && !IsSpace(line[0]) && Trim(line) == line
    ensures !IsTopLevelKey(line, key)
  {
    var cut := line[..Colon(line)];
    if cut != "" {
      assert TrimLeft(cut) == cut && cut[0] == line[0];
    }
  }

  lemma BlockReads(hdr: string, service: string, backend: string, scope: string)
    requires TokenOf(hdr) == Ok(Some(BareToken(0, "origins"))) && Writable(service, backend, scope)
    ensures Tokens([hdr] + OriginLines(service, backend, scope, 2))
         == Ok([BareToken(0, "origins")] + OriginTokens(service, backend, scope, 2))
    ensures Parse([hdr] + OriginLines(service, backend, scope, 2))
         == Ok(Map(map["origins" := Map(map[service := EntryValue(backend, scope)])]))
  {
    var e, v := OriginTokens(service, backend, scope, 2), Map(map[service := EntryValue(backend, scope)]);
    var none: map<string, Value> := map[];
    var nothing: seq<Token> := [];
    OneToken(hdr, BareToken(0, "origins"));
    OriginLinesTokens(service, backend, scope, 2);
    TokensJoin([hdr], OriginLines(service, backend, scope, 2));
    FreshValue(service, backend, scope);
    FreshDoc(nothing, e, none, v);
    assert nothing + ([BareToken(0, "origins")] + e) == [BareToken(0, "origins")] + e;
    assert none["origins" := v] == map["origins" := v];
  }

  /** Setting an origin under a commented header forgets the ones already there: the parser
      takes the block for the origins, the editor appends another, and the last one counts. An
      instance of a header the editor does not recognise (OriginsExact.AppendAgreesIff). */
  lemma CommentedHeaderForgets(other: string, held: string, service: string, backend: string, scope: string)
    requires Writable(other, held, "") && Writable(service, backend, scope)
    ensures var lines := [COMMENTED_HEADER] + OriginLines(other, held, "", 2);
      && Parse(lines) == Ok(Map(map["origins" := Map(map[other := Str(held)])]))
      && WriteOrigin(lines, service, backend, scope).Ok?
      && Parse(WriteOrigin(lines, service, backend, scope).value)
         == Ok(Map(map["origins" := Map(map[service := EntryValue(backend, scope)])]))
  {
    hide Look, FindHeader, TokenOf, Tokens, Parse, IsHeader, IsTopLevelKey, HasTopLevelKey, OriginLines, Appended, SplitKey, Trim;
    var lines := [COMMENTED_HEADER] + OriginLines(other, held, "", 2);
    var m := map["origins" := Map(map[other := Str(held)])];
    CommentedHeaderReads();
    BlockReads(COMMENTED_HEADER, other, held, "");
    HidesBlock(other, held);
    assert Keyed(0, Toks(lines)) by { BareLine(0, "origins"); }
    AppendAgrees(lines, service, backend, scope, m);
    assert m["origins" := Map(map[service := EntryValue(backend, scope)])]
        == map["origins" := Map(map[service := EntryValue(backend, scope)])];
  }

  lemma NoHeaderInTwo(a: string, b: string)
    requires !IsHeader(a) && !IsHeader(b) && !IsTopLevelKey(a, "edges") && !IsTopLevelKey(b, "edges")
    ensures FindHeader(Look([a, b]), 0) == 2 && !HasTopLevelKey([a, b], "edges")
  {
    hide IsHeader, IsTopLevelKey, Lead, Skipped, EditorKey;
    assert Look([a, b])[0] == See(a) && Look([a, b])[1] == See(b);
  }

  lemma NotTopLevel(line: string, key: string)
    requires See(line).lead != 0
    ensures !IsTopLevelKey(line, key)
  {
  }

  lemma HidesBlock(other: string, held: string)
    requires Writable(other, held, "")
    requires !IsHeader(COMMENTED_HEADER) && !IsTopLevelKey(COMMENTED_HEADER, "edges")
    ensures var lines := [COMMENTED_HEADER] + OriginLines(other, held, "", 2);
      FindHeader(Look(lines), 0) == |lines| && !HasTopLevelKey(lines, "edges")
  {
    hide Look, FindHeader, HasTopLevelKey, IsTopLevelKey, Quote, Pad, Trim, Lead, Skipped, EditorKey;
    var entry := Pad(2) + (other + ": " + Quote(held));
    assert See(entry).lead == 2 && !See(entry).header by {
      QuoteTight(held);
      Regroup(other, ": ", Quote(held));
      SeesLine(2, other, ": " + Quote(held));
    }
    NotTopLevel(entry, "edges");
    NoHeaderInTwo(COMMENTED_HEADER, entry);
    assert [COMMENTED_HEADER] + [entry] == [COMMENTED_HEADER, entry];
  }

  // ----- a nested line taken for an entry -----

  lemma NestedEdit(other: string, held: string, scope: string, backend: string)
    requires Writable(other, held, scope) && scope != "" && other != "addr" && PlainText(backend)
    ensures Edit(["origins:"] + OriginLines(other, held, scope, 2), "addr", backend, "")
         == Some(["origins:"] + OriginLines(other, backend, scope, 2))
  {
    hide Look, FindHeader, Locate, EntryEnd, Quote, Pad, PlainText, PlainKey;
    var lines := ["origins:"] + OriginLines(other, held, scope, 2);
    NestedSights(other, held, scope);
    NestedPlace(Look(lines), other);
    assert lines[..2] + OriginLines("addr", backend, "", 4) + lines[3..] == ["origins:"] + OriginLines(other, backend, scope, 2);
  }

  lemma PlainHeaderReads()
    ensures TokenOf("origins:") == Ok(Some(BareToken(0, "origins")))
  {
    hide TokenOf;
    BareLine(0, "origins");
    assert Pad(0) + ("origins" + ":") == "origins:";
  }

  /** Setting the origin of a service called "addr" where a scoped entry comes first rewrites
      that entry's address instead, and adds nothing: an instance of an edit whose lines do not
      stand at the block's column (OriginsExact.ReplaceAgreesIff). */
  lemma NestedLineTakenForEntry(other: string, held: string, scope: string, backend: string)
    requires Writable(other, held, scope) && scope != "" && other != "addr" && PlainText(backend)
    ensures Edit(["origins:"] + OriginLines(other, held, scope, 2), "addr", backend, "")
         == Some(["origins:"] + OriginLines(other, backend, scope, 2))
    ensures Parse(["origins:"] + OriginLines(other, backend, scope, 2))
         == Ok(Map(map["origins" := Map(map[other := EntryValue(backend, scope)])]))
  {
    hide Edit, OriginLines, Parse, Tokens, TokenOf, PlainText, PlainKey;
    NestedEdit(other, held, scope, backend);
    PlainHeaderReads();
    BlockReads("origins:", other, backend, scope);
  }

  /** What the editor sees of a block with one scoped entry. */
  function NestedLook(other: string): seq<Sight> {
    [Sight(false, 0, "origins", true), Sight(false, 2, other, false), Sight(false, 4, "addr", false), Sight(false, 4, "scope", false)]
  }

  lemma NestedPlace(seen: seq<Sight>, other: string)
    requires seen == NestedLook(other) && other != "addr"
    ensures FindHeader(seen, 0) == 0 && Locate(seen, "addr", 1, 0) == Over(2, 4) && EntryEnd(seen, 4, 3) == 3
  {
    assert Locate(seen, "addr", 2, 2) == Over(2, 4);
  }

  lemma FourSights(a: string, b: string, c: string, d: string)
    ensures Look([a, b, c, d]) == [See(a), See(b), See(c), See(d)]
  {
    hide See;
  }

  lemma NestedSights(other: string, held: string, scope: string)
    requires Writable(other, held, scope) && scope != ""
    ensures Look(["origins:"] + OriginLines(other, held, scope, 2)) == NestedLook(other)
  {
    hide See, Look, Quote;
    var a, b := Pad(2) + (other + ":"), Pad(4) + ("addr" + ": " + Quote(held));
    var c := Pad(4) + ("scope" + ": " + scope);
    FieldNames();
    QuoteTight(held);
    QuoteTight(scope);
    assert See("origins:") == NestedLook(other)[0] by {
      SeesLine(0, "origins", ":");
      assert Pad(0) + ("origins" + ":") == "origins:";
    }
    SeesLine(2, other, ":");
    assert See(b) == NestedLook(other)[2] by { Regroup("addr", ": ", Quote(held)); SeesLine(4, "addr", ": " + Quote(held)); }
    assert See(c) == NestedLook(other)[3] by { Regroup("scope", ": ", scope); SeesLine(4, "scope", ": " + scope); }
    FourSights("origins:", a, b, c);
    assert ["origins:"] + OriginLines(other, held, scope, 2) == ["origins:", a, b, c];
  }
}
