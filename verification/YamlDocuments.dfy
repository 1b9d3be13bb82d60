/** Laid out line by line, a tree of maps, lists and scalars reads as itself
    (internal/config/yaml/yaml.go). */
module YamlDocuments {
  import opened Model
  import opened Yaml
  import opened YamlFrames
  import opened YamlLayout
  import opened YamlEdits
  import opened OriginsEditor
  import opened OriginsTokens

  /** A document: the text of a scalar, the entries of a map, the items of a list. A compact list
      begins an item's map on the line of its dash. */
  datatype Doc = Leaf(text: string) | Node(entries: Entries) | Items(items: Docs, compact: bool)

  datatype Entries = NoEntry | Entry(key: string, value: Doc, more: Entries)

  datatype Docs = NoItem | Item(first: Doc, others: Docs)

  // ----- what it means -----

  function Meaning(doc: Doc): Value {
    match doc
    case Leaf(text) => ParseScalar(text)
    case Node(entries) => Map(Filled(entries, map[]))
    case Items(items, _) => List(Meanings(items))
  }

  /** A key given twice has its last value. */
  function Filled(entries: Entries, acc: map<string, Value>): map<string, Value> {
    match entries
    case NoEntry => acc
    case Entry(key, value, more) => Filled(more, acc[key := Meaning(value)])
  }

  function Meanings(items: Docs): seq<Value> {
    match items
    case NoItem => []
    case Item(first, others) => [Meaning(first)] + Meanings(others)
  }

  // ----- how it is laid out -----

  /** Its lines at a column: what belongs to a key or a dash stands two columns further in. */
  function Laid(doc: Doc, d: nat): seq<Token> {
    match doc
    case Leaf(text) => [Token(d, text)]
    case Node(entries) => EntryLines(entries, d)
    case Items(items, compact) => ItemLines(items, compact, d)
  }

  function EntryLines(entries: Entries, d: nat): seq<Token> {
    match entries
    case NoEntry => []
    case Entry(key, value, more) =>
      OneEntry(key, value, Laid(value, d + 2), d) + EntryLines(more, d)
  }

  function OneEntry(key: string, value: Doc, below: seq<Token>, d: nat): seq<Token> {
    if value.Leaf? then [ValueToken(d, key, value.text)] else [BareToken(d, key)] + below
  }

  function ItemLines(items: Docs, compact: bool, d: nat): seq<Token> {
    match items
    case NoItem => []
    case Item(first, others) => OneItem(first, Laid(first, d + 2), compact, d) + ItemLines(others, compact, d)
  }

  function OneItem(first: Doc, below: seq<Token>, compact: bool, d: nat): seq<Token> {
    if first.Leaf? then [Token(d, "- " + first.text)]
    else if first.Node? && compact && below != [] then [Token(d, "- " + below[0].text)] + below[1..]
    else [Token(d, "-")] + below
  }

  /** Plain keys, nothing empty, and scalars on one line that are not taken for anything else: no
      blank at an end, no comment sign, and in a list no key. */
  ghost predicate Writable(doc: Doc) {
    match doc
    case Leaf(text) => Tight(text) && text != "---"
    case Node(entries) => entries.Entry? && EntriesWritable(entries)
    case Items(items, _) => items.Item? && ItemsWritable(items)
  }

  ghost predicate EntriesWritable(entries: Entries) {
    entries.Entry? ==> PlainKey(entries.key) && Writable(entries.value) && EntriesWritable(entries.more)
  }

  ghost predicate ItemsWritable(items: Docs) {
    items.Item? ==>
      Writable(items.first) && (items.first.Leaf? ==> SplitKey(items.first.text).None?) && ItemsWritable(items.others)
  }

  // ----- where its lines stand -----

  /** Lines at a column or further in, the first at it, none of them blank, with a blank at an end, a
      comment or a document marker. */
  ghost predicate Stands(ts: seq<Token>, d: nat) {
    ts != [] && ts[0].indent == d && forall i :: 0 <= i < |ts| ==> ts[i].indent >= d && Lined(ts[i])
  }

  predicate Lined(t: Token) {
    t.text != "" && !IsSpace(t.text[0]) && !IsSpace(t.text[|t.text| - 1]) && '#' !in t.text && t.text != "---"
  }

  lemma LaidStands(doc: Doc, d: nat)
    requires Writable(doc)
    ensures Stands(Laid(doc, d), d)
    ensures doc.Node? ==> Keyed(d, Laid(doc, d)) && SplitKey(Laid(doc, d)[0].text).Some?
    ensures doc.Items? ==> Itemed(d, Laid(doc, d))
    decreases doc
  {
    match doc
    case Leaf(_) =>
    case Node(entries) => EntriesStand(entries, d);
    case Items(items, compact) => ItemsStand(items, compact, d);
  }

  lemma ValueLined(key: string, text: string, d: nat)
    requires PlainKey(key) && Tight(text)
    ensures Lined(ValueToken(d, key, text)) && SetsLine(ValueToken(d, key, text), d, key, text)
  {
    hide SplitKey, IsSeqItem, TokenOf;
    ValueLine(d, key, text);
    PlainEnds(key);
    NotSeqItem(key, ": " + text);
    var value := key + ": " + text;
    assert value == key + (": " + text);
    assert value[|value| - 1] == text[|text| - 1] && value[0] == key[0];
  }

  lemma BareLined(key: string, d: nat)
    requires PlainKey(key)
    ensures Lined(BareToken(d, key)) && KeyLine(BareToken(d, key), d, key)
  {
    hide SplitKey, IsSeqItem, TokenOf;
    BareLine(d, key);
    PlainEnds(key);
    NotSeqItem(key, ":");
    var bare := key + ":";
    assert bare[0] == key[0] && bare[|bare| - 1] == ':';
  }

  lemma EntryStands(key: string, value: Doc, below: seq<Token>, d: nat)
    requires PlainKey(key) && (value.Leaf? ==> Tight(value.text)) && Stands(below, d + 2)
    ensures var ts := OneEntry(key, value, below, d); Stands(ts, d) && Keyed(d, ts) && SplitKey(ts[0].text).Some?
  {
    hide PlainKey, Tight, Lined, IsSeqItem, SplitKey;
    if value.Leaf? {
      ValueLined(key, value.text, d);
    } else {
      BareLined(key, d);
    }
  }

  lemma EntriesStand(entries: Entries, d: nat)
    requires EntriesWritable(entries)
    ensures entries.Entry? ==> Stands(EntryLines(entries, d), d) && Keyed(d, EntryLines(entries, d))
    ensures entries.Entry? ==> SplitKey(EntryLines(entries, d)[0].text).Some?
    decreases entries
  {
    hide PlainKey, Tight, Lined, IsSeqItem, SplitKey, OneEntry, Laid;
    if entries.Entry? {
      LaidStands(entries.value, d + 2);
      EntryStands(entries.key, entries.value, Laid(entries.value, d + 2), d);
      EntriesStand(entries.more, d);
    }
  }

  lemma DashLined(d: nat, text: string)
    requires Lined(Token(d, text))
    ensures Lined(Token(d, "- " + text)) && Itemed(d, [Token(d, "- " + text)]) && Inline("- " + text) == text
    ensures Lined(Token(d, "-")) && Itemed(d, [Token(d, "-")]) && Inline("-") == ""
  {
    var t := "- " + text;
    assert t[0] == '-' && t[1] == ' ' && t[|t| - 1] == text[|text| - 1];
    assert t[1..] == " " + text && (" " + text)[1..] == text;
    TrimExact(text);
    assert t != "---" by { assert "---"[1] == '-'; }
  }

  lemma ItemsStand(items: Docs, compact: bool, d: nat)
    requires ItemsWritable(items)
    ensures items.Item? ==> Stands(ItemLines(items, compact, d), d) && Itemed(d, ItemLines(items, compact, d))
    decreases items
  {
    if items.Item? {
      ItemsStand(items.others, compact, d);
      LaidStands(items.first, d + 2);
      OneStands(items.first, compact, d);
    }
  }

  lemma LinedAnywhere(t: Token, d: nat)
    requires Lined(t)
    ensures Lined(Token(d, t.text))
  {
  }

  lemma OneStands(first: Doc, compact: bool, d: nat)
    requires Writable(first) && Stands(Laid(first, d + 2), d + 2)
    ensures var ts := OneItem(first, Laid(first, d + 2), compact, d);
      Stands(ts, d) && Itemed(d, ts) && forall i :: 1 <= i < |ts| ==> ts[i].indent >= d + 2
  {
    hide IsSeqItem, Lined, Inline, Writable, SplitKey;
    var below := Laid(first, d + 2);
    LinedAnywhere(below[0], d);
    DashLined(d, below[0].text);
    HeadStands(first, below, compact, d);
  }

  lemma HeadStands(first: Doc, below: seq<Token>, compact: bool, d: nat)
    requires Stands(below, d + 2) && (first.Leaf? ==> below == [Token(d + 2, first.text)])
    requires Lined(Token(d, "- " + below[0].text)) && Itemed(d, [Token(d, "- " + below[0].text)])
    requires Lined(Token(d, "-")) && Itemed(d, [Token(d, "-")])
    ensures var ts := OneItem(first, below, compact, d);
      Stands(ts, d) && Itemed(d, ts) && forall i :: 1 <= i < |ts| ==> ts[i].indent >= d + 2
  {
    hide IsSeqItem, Lined;
  }

  // ----- it reads as itself -----

  lemma DocReads(doc: Doc, d: nat)
    requires Writable(doc) && !doc.Leaf?
    ensures Laid(doc, d) != [] && ParseBlock(Laid(doc, d)) == Ok((Meaning(doc), |Laid(doc, d)|))
    decreases doc
  {
    hide SplitKey, IsSeqItem;
    LaidStands(doc, d);
    match doc
    case Node(entries) => EntriesRead(entries, d, map[]);
    case Items(items, compact) =>
      ItemsRead(items, compact, d, []);
      assert [] + Meanings(items) == Meanings(items);
  }

  lemma EntriesRead(entries: Entries, d: nat, acc: map<string, Value>)
    requires EntriesWritable(entries)
    ensures MapLoop(d, EntryLines(entries, d), acc) == Ok((Filled(entries, acc), |EntryLines(entries, d)|))
    decreases entries
  {
    hide MapLoop, MapEntry, ParseBlock, PlainKey, Tight, Lined, IsSeqItem, SplitKey, OneEntry, Laid, Meaning;
    if entries.NoEntry? {
      DeeperStops(d, [], acc);
    } else {
      EntriesStand(entries.more, d);
      LaidStands(entries.value, d + 2);
      if !entries.value.Leaf? { DocReads(entries.value, d + 2); }
      EntriesRead(entries.more, d, acc[entries.key := Meaning(entries.value)]);
      EntryRound(entries.key, entries.value, d, EntryLines(entries.more, d), acc, Filled(entries, acc));
    }
  }

  lemma EntryRound(key: string, value: Doc, d: nat, rest: seq<Token>, acc: map<string, Value>, m: map<string, Value>)
    requires PlainKey(key) && Stands(Laid(value, d + 2), d + 2) && (value.Leaf? ==> Tight(value.text))
    requires !value.Leaf? ==> ParseBlock(Laid(value, d + 2)) == Ok((Meaning(value), |Laid(value, d + 2)|))
    requires rest == [] || Keyed(d, rest)
    requires MapLoop(d, rest, acc[key := Meaning(value)]) == Ok((m, |rest|))
    ensures var one := OneEntry(key, value, Laid(value, d + 2), d); MapLoop(d, one + rest, acc) == Ok((m, |one| + |rest|))
  {
    hide MapLoop, MapEntry, ParseBlock, PlainKey, Tight, Lined, IsSeqItem, SplitKey, Laid, Filled, Meanings;
    if value.Leaf? {
      LeafRound(key, value.text, d, rest, acc);
    } else {
      var below := Laid(value, d + 2);
      BareLined(key, d);
      assert [BareToken(d, key)] + below + rest == [BareToken(d, key)] + (below + rest);
      BlockJoined(BareToken(d, key), below, rest, d, key, acc, Meaning(value), m);
    }
  }

  lemma LeafRound(key: string, text: string, d: nat, rest: seq<Token>, acc: map<string, Value>)
    requires PlainKey(key) && Tight(text)
    ensures MapLoop(d, [ValueToken(d, key, text)] + rest, acc) == Advance(MapLoop(d, rest, acc[key := ParseScalar(text)]), 1)
  {
    hide MapLoop, SplitKey, IsSeqItem, ParseScalar, PlainKey, ValueToken, Lined, ParseBlock;
    var ts := [ValueToken(d, key, text)] + rest;
    ValueLined(key, text, d);
    assert ts[1..] == rest;
    MapRound(d, ts, acc, key, ParseScalar(text), 1);
  }

  lemma ItemsRead(items: Docs, compact: bool, d: nat, acc: seq<Value>)
    requires ItemsWritable(items)
    ensures SeqLoop(d, ItemLines(items, compact, d), acc) == Ok((acc + Meanings(items), |ItemLines(items, compact, d)|))
    decreases items
  {
    hide SeqEntry, SeqLoop, ParseBlock, OneItem, Laid, IsSeqItem, Meaning, Lined, Tight, SplitKey;
    if items.NoItem? {
      NoItems(d, acc);
    } else {
      var first, rest := items.first, ItemLines(items.others, compact, d);
      var one := OneItem(first, Laid(first, d + 2), compact, d);
      ItemsStand(items.others, compact, d);
      LaidStands(first, d + 2);
      if !first.Leaf? { DocReads(first, d + 2); }
      OneReads(first, compact, d, rest);
      ItemsRead(items.others, compact, d, acc + [Meaning(first)]);
      SeqRound(d, one, rest, acc, Meaning(first));
      assert acc + [Meaning(first)] + Meanings(items.others) == acc + Meanings(items);
    }
  }

  lemma NoItems(d: nat, acc: seq<Value>)
    ensures SeqLoop(d, [], acc) == Ok((acc + [], 0))
  {
    assert acc + [] == acc;
  }

  lemma SeqRound(d: nat, one: seq<Token>, rest: seq<Token>, acc: seq<Value>, v: Value)
    requires Itemed(d, one + rest) && SeqEntry(d, one + rest) == Ok((v, |one|))
    ensures SeqLoop(d, one + rest, acc) == Advance(SeqLoop(d, rest, acc + [v]), |one|)
  {
    hide SeqEntry, IsSeqItem;
    assert (one + rest)[|one|..] == rest;
  }

  lemma OneReads(first: Doc, compact: bool, d: nat, rest: seq<Token>)
    requires Writable(first) && Stands(Laid(first, d + 2), d + 2)
    requires first.Leaf? ==> SplitKey(first.text).None?
    requires !first.Leaf? ==> ParseBlock(Laid(first, d + 2)) == Ok((Meaning(first), |Laid(first, d + 2)|))
    requires first.Node? ==> Keyed(d + 2, Laid(first, d + 2)) && SplitKey(Laid(first, d + 2)[0].text).Some?
    requires rest == [] || rest[0].indent == d
    ensures var one := OneItem(first, Laid(first, d + 2), compact, d);
      Itemed(d, one + rest) && SeqEntry(d, one + rest) == Ok((Meaning(first), |one|))
  {
    hide SplitKey, ParseBlock, ParseScalar, Filled, Meanings, Laid, IsSeqItem, Inline, SeqEntry;
    var below := Laid(first, d + 2);
    if first.Leaf? {
      assert Laid(first, d + 2) == [Token(d + 2, first.text)] by { LaidLeaf(first, d + 2); }
      LeafItem(first.text, d, rest);
    } else if first.Node? && compact {
      CompactItem(below, Meaning(first), d, rest);
    } else {
      DashItem(below, Meaning(first), d, rest);
    }
  }

  lemma LaidLeaf(doc: Doc, d: nat)
    requires doc.Leaf?
    ensures Laid(doc, d) == [Token(d, doc.text)]
  {
  }

  lemma LeafItem(text: string, d: nat, rest: seq<Token>)
    requires Lined(Token(d, text)) && SplitKey(text).None?
    ensures var ts := [Token(d, "- " + text)] + rest;
      Itemed(d, ts) && SeqEntry(d, ts) == Ok((ParseScalar(text), 1))
  {
    hide SplitKey, ParseBlock, ParseScalar, IsSeqItem, Inline;
    DashLined(d, text);
  }

  lemma BareDash(ts: seq<Token>, d: nat)
    requires Itemed(d, ts) && Inline(ts[0].text) == "" && |ts| > 1 && ts[1].indent > d
    ensures SeqEntry(d, ts) == Advance(ParseBlock(ts[1..]), 1)
  {
    hide ParseBlock, IsSeqItem, Inline, Deeper, SplitKey, ParseScalar;
  }

  lemma DashItem(below: seq<Token>, v: Value, d: nat, rest: seq<Token>)
    requires Stands(below, d + 2) && ParseBlock(below) == Ok((v, |below|)) && (rest == [] || rest[0].indent == d)
    ensures var ts := [Token(d, "-")] + below + rest;
      Itemed(d, ts) && SeqEntry(d, ts) == Ok((v, 1 + |below|))
  {
    hide ParseBlock, IsSeqItem, Inline, Lined, SeqEntry;
    var ts := [Token(d, "-")] + below + rest;
    LinedAnywhere(below[0], d);
    DashLined(d, below[0].text);
    assert ts[1..] == below + rest;
    BareDash(ts, d);
    FrameBlock(below, rest, d + 1);
  }

  lemma CompactItem(below: seq<Token>, v: Value, d: nat, rest: seq<Token>)
    requires Stands(below, d + 2) && ParseBlock(below) == Ok((v, |below|)) && (rest == [] || rest[0].indent == d)
    requires SplitKey(below[0].text).Some?
    ensures var ts := [Token(d, "- " + below[0].text)] + below[1..] + rest;
      Itemed(d, ts) && SeqEntry(d, ts) == Ok((v, |below|))
  {
    hide SplitKey, ParseBlock, ParseScalar, IsSeqItem, Inline;
    var ts := [Token(d, "- " + below[0].text)] + below[1..] + rest;
    DashLined(d, below[0].text);
    assert ts[1..] == below[1..] + rest;
    DeeperFrame(d, below[1..], rest);
    AllAreDeeper(d, below[1..]);
    assert ts[1..|below|] == below[1..];
    assert SubBlock(d, below[0].text, below[1..]) == below;
  }

  lemma {:induction false} AllAreDeeper(d: nat, ts: seq<Token>)
    requires AllDeeper(d, ts)
    ensures Deeper(d, ts) == |ts|
  {
    if ts != [] {
      AllAreDeeper(d, ts[1..]);
    }
  }

  // ----- as text -----

  function Text(ts: seq<Token>): seq<string> {
    seq(|ts|, i requires 0 <= i < |ts| => Pad(ts[i].indent) + ts[i].text)
  }

  lemma TextSnoc(ts: seq<Token>, t: Token)
    ensures Text(ts + [t]) == Text(ts) + [Pad(t.indent) + t.text]
  {
  }

  lemma {:induction false} TextTokens(ts: seq<Token>)
    requires forall i :: 0 <= i < |ts| ==> Lined(ts[i])
    ensures Tokens(Text(ts)) == Ok(ts)
  {
    hide TokenOf, Text, Pad;
    if ts == [] {
      assert Tokens(Text(ts)) == Ok(ts) by { NoText(ts); }
    } else {
      var n := |ts| - 1;
      assert ts == ts[..n] + [ts[n]];
      TextTokens(ts[..n]);
      TextSnoc(ts[..n], ts[n]);
      TokensSnoc(Text(ts[..n]), Pad(ts[n].indent) + ts[n].text);
      RenderedLine(ts[n].indent, ts[n].text);
    }
  }

  lemma NoText(ts: seq<Token>)
    requires ts == []
    ensures Tokens(Text(ts)) == Ok(ts)
  {
  }

  /** A tree laid out from the margin on reads as itself: its maps with every key, the last value of
      one given twice, its lists in order, compact or not, its scalars as they read. */
  lemma LaidOutReads(doc: Doc)
    requires Writable(doc) && !doc.Leaf?
    ensures Parse(Text(Laid(doc, 0))) == Ok(Meaning(doc))
  {
    hide Laid, Meaning, Text, ParseBlock, Tokens, Writable;
    LaidStands(doc, 0);
    TextTokens(Laid(doc, 0));
    DocReads(doc, 0);
  }
}
