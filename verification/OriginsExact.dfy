/** Exactly when an edit of the `origins:` block is what it should be, the document with one
    entry set (internal/config/persist_origins.go). */
module OriginsExact {
  import opened Model
  import opened Yaml
  import opened YamlFrames
  import opened YamlLayout
  import opened YamlEdits
  import opened OriginsEditor
  import opened OriginsTokens
  import opened OriginsLaws
  import opened OriginsAgree

  /** The entry is there already, as asked. */
  predicate Has(o: map<string, Value>, key: string, v: Value) {
    key in o && o[key] == v
  }

  // ----- what later lines set, stays -----

  lemma SettingTail(d: nat, y: seq<Token>, key: string) returns (j: nat)
    requires !NeverSets(d, y, key)
    ensures j < |y| && SetsKey(d, y[j], key)
  {
    var t :| t in y && SetsKey(d, t, key);
    j :| 0 <= j < |y| && y[j] == t;
  }

  /** A loop that starts with a line setting a key has it, whatever it started from. */
  lemma HeadSets(d: nat, s: seq<Token>, acc: map<string, Value>, key: string, o: map<string, Value>)
    requires s != [] && SetsKey(d, s[0], key) && MapLoop(d, s, acc) == Ok((o, |s|))
    ensures MapLoop(d, s, map[]).Ok?
    ensures var over := MapLoop(d, s, map[]).value.0; key in over && o == acc + over
  {
    hide MapLoop, SplitKey, IsSeqItem;
    var none: map<string, Value> := map[];
    assert acc + none == acc;
    Accumulates(d, s, acc, none);
    HeadEntry(d, s, key);
    if MapEntry(d, s).Ok? {
      var (k, v, n) := MapEntry(d, s).value;
      MapRound(d, s, none, key, v, n);
      assert none[key := v] + none == none[key := v];
      Accumulates(d, s[n..], none[key := v], none);
    } else {
      NoEntry(d, s, none);
    }
  }

  lemma HeadEntry(d: nat, s: seq<Token>, key: string)
    requires s != [] && SetsKey(d, s[0], key)
    ensures Keyed(d, s) && (MapEntry(d, s).Ok? ==> MapEntry(d, s).value.0 == key)
  {
    hide SplitKey, IsSeqItem, ParseScalar;
  }

  lemma NoEntry(d: nat, s: seq<Token>, acc: map<string, Value>)
    requires Keyed(d, s) && MapEntry(d, s).Err?
    ensures MapLoop(d, s, acc).Err?
  {
  }

  /** Whatever stands before it, what a later line sets is what counts. */
  lemma LaterLineWins(d: nat, p: seq<Token>, p': seq<Token>, y: seq<Token>, key: string, o: map<string, Value>, o': map<string, Value>)
    requires !NeverSets(d, y, key)
    requires MapLoop(d, p + y, map[]) == Ok((o, |p + y|)) && MapLoop(d, p' + y, map[]) == Ok((o', |p' + y|))
    ensures key in o && key in o' && o[key] == o'[key]
  {
    hide MapLoop, SplitKey, IsSeqItem;
    var j := SettingTail(d, y, key);
    var init, s := y[..j], y[j..];
    assert y == init + s && s[0] == y[j];
    assert p + y == (p + init) + s && p' + y == (p' + init) + s;
    assert Boundary(d, s);
    var acc := MapCut(d, p + init, s, map[], o);
    var acc' := MapCut(d, p' + init, s, map[], o');
    HeadSets(d, s, acc, key, o);
    HeadSets(d, s, acc', key, o');
  }

  lemma SetsIt(d: nat, a: seq<Token>, y: seq<Token>, key: string, o: map<string, Value>)
    requires !NeverSets(d, y, key) && MapLoop(d, a + y, map[]) == Ok((o, |a + y|))
    ensures key in o
  {
    LaterLineWins(d, a, a, y, key, o, o);
  }

  lemma Unset(d: nat, ts: seq<Token>, key: string, o: map<string, Value>)
    requires NeverSets(d, ts, key) && MapLoop(d, ts, map[]) == Ok((o, |ts|))
    ensures key !in o
  {
    UnsetKey(d, ts, map[], key);
  }

  lemma NeverInParts(d: nat, x: seq<Token>, e: seq<Token>, y: seq<Token>, key: string)
    ensures NeverSets(d, x + (e + y), key) <==> NeverSets(d, x, key) && NeverSets(d, e, key) && NeverSets(d, y, key)
  {
    forall t ensures t in x + (e + y) <==> t in x || t in e || t in y {
    }
  }

  /** An entry's lines set no other key at or above its own depth. */
  lemma EntrySetsOnly(d: nat, ind: nat, e: seq<Token>, service: string, key: string)
    requires IsEntry(ind, e, service) && d <= ind && (d < ind || key != service)
    ensures NeverSets(d, e, key)
  {
    hide SplitKey, IsSeqItem;
    forall t | t in e ensures !SetsKey(d, t, key) {
      var i :| 0 <= i < |e| && e[i] == t;
      if i > 0 { assert e[i] == e[1..][i - 1]; }
    }
  }

  // ----- one entry's tokens for another's -----

  /** The entry is one line with its value on it. */
  ghost predicate OneLine(k: nat, e: seq<Token>, key: string) {
    |e| == 1 && exists value :: SetsLine(e[0], k, key, value)
  }

  lemma StopsShort(k: nat, y: seq<Token>, acc: map<string, Value>)
    requires !Boundary(k, y)
    ensures MapLoop(k, y, acc) == Ok((acc, 0))
  {
  }

  lemma OneLineEnds(k: nat, e: seq<Token>, y: seq<Token>, key: string, acc: map<string, Value>, o: map<string, Value>)
    requires OneLine(k, e, key) && MapLoop(k, e + y, acc) == Ok((o, |e + y|))
    ensures Boundary(k, y)
  {
    hide SplitKey, IsSeqItem, ParseScalar;
    var value :| SetsLine(e[0], k, key, value);
    MapRound(k, e + y, acc, key, ParseScalar(value), 1);
    assert (e + y)[1..] == y;
    if !Boundary(k, y) {
      StopsShort(k, y, acc[key := ParseScalar(value)]);
    }
  }

  /** An edit of a block on tokens: the entry of `key` at `ind`, `e`, goes, that of the service
      comes. The lines before do not set the service. */
  ghost predicate Swap(ind: nat, x: seq<Token>, e: seq<Token>, e': seq<Token>, y: seq<Token>, key: string, service: string) {
    && IsEntry(ind, e, key) && IsEntry(ind, e', service) && NowhereSets(x, service)
    && (key != service ==> NeverSets(ind, x, key) && NeverSets(ind, y, key))
  }

  /** The edited place is the service's own entry, and nothing after it in the block spoils it. */
  ghost predicate Settles(bind: nat, ind: nat, key: string, service: string, y: seq<Token>) {
    ind == bind && key == service && NeverSets(ind, y, service) && Boundary(ind, y)
  }

  lemma SwapHeads(ind: nat, x: seq<Token>, e: seq<Token>, e': seq<Token>, y: seq<Token>, key: string, service: string)
    requires Swap(ind, x, e, e', y, key, service)
    ensures e != [] && e' != [] && SetsKey(ind, e[0], key) && Boundary(ind, e' + y)
    ensures (x + (e' + y))[0].indent == (x + (e + y))[0].indent
  {
    hide SplitKey, IsSeqItem, NeverSets;
    var ts, ts' := x + (e + y), x + (e' + y);
    assert ts[0] == (if x == [] then e[0] else x[0]) && ts'[0] == (if x == [] then e'[0] else x[0]);
  }

  /** No line of a block stands left of its column. */
  lemma InColumn(x: seq<Token>, e: seq<Token>, y: seq<Token>)
    requires e != [] && ValueOf(x + (e + y)).Some?
    ensures (x + (e + y))[0].indent <= e[0].indent
  {
    var ts := x + (e + y);
    BlockFits(ts);
    assert ts[|x|] == e[0];
  }

  lemma SwapSettles(ind: nat, x: seq<Token>, e: seq<Token>, e': seq<Token>, y: seq<Token>, key: string, service: string,
                    o: map<string, Value>, v: Value)
    requires Swap(ind, x, e, e', y, key, service) && ValueOf(x + (e + y)) == Some(Map(o)) && !Has(o, service, v)
    requires ValueOf(x + (e' + y)) == Some(Map(o[service := v]))
    requires Boundary(ind, y) || OneLine(ind, e', service)
    ensures Settles((x + (e + y))[0].indent, ind, key, service, y)
  {
    hide MapLoop, SplitKey, IsSeqItem, ValueOf, SetsKey, IsEntry, OneLine, Boundary;
    var ts, ts', o' := x + (e + y), x + (e' + y), o[service := v];
    SwapHeads(ind, x, e, e', y, key, service);
    var bind := ts[0].indent;
    MapValue(ts, bind, o);
    MapValue(ts', bind, o');
    HeadIndent(ind, e, key);
    InColumn(x, e, y);
    LaterStays(bind, x, e, e', y, service, o, o', v);
    NeverInParts(bind, x, e', y, service);
    if bind < ind {
      EntrySetsOnly(bind, ind, e', service, service);
      Unset(bind, ts', service, o');
    } else {
      OtherKeyLost(bind, x, e, e', y, key, service, o, o', v);
      var acc := MapCut(ind, x, e' + y, map[], o');
      if OneLine(ind, e', service) {
        OneLineEnds(ind, e', y, service, acc, o');
      }
    }
  }

  lemma HeadIndent(ind: nat, e: seq<Token>, key: string)
    requires IsEntry(ind, e, key)
    ensures e[0].indent == ind
  {
    hide SplitKey, IsSeqItem;
  }

  lemma LaterStays(bind: nat, x: seq<Token>, e: seq<Token>, e': seq<Token>, y: seq<Token>, service: string,
                   o: map<string, Value>, o': map<string, Value>, v: Value)
    requires MapLoop(bind, x + (e + y), map[]) == Ok((o, |x + (e + y)|)) && MapLoop(bind, x + (e' + y), map[]) == Ok((o', |x + (e' + y)|))
    requires !Has(o, service, v) && o' == o[service := v]
    ensures NeverSets(bind, y, service)
  {
    hide MapLoop, NeverSets;
    assert x + (e + y) == (x + e) + y && x + (e' + y) == (x + e') + y;
    if !NeverSets(bind, y, service) {
      LaterLineWins(bind, x + e, x + e', y, service, o, o');
    }
  }

  lemma OtherKeyLost(d: nat, x: seq<Token>, e: seq<Token>, e': seq<Token>, y: seq<Token>, key: string, service: string,
                     o: map<string, Value>, o': map<string, Value>, v: Value)
    requires Swap(d, x, e, e', y, key, service)
    requires MapLoop(d, x + (e + y), map[]) == Ok((o, |x + (e + y)|)) && MapLoop(d, x + (e' + y), map[]) == Ok((o', |x + (e' + y)|))
    requires o' == o[service := v]
    ensures key == service
  {
    hide MapLoop, SetsKey;
    if key != service {
      assert e[0] in e + y && SetsKey(d, e[0], key);
      SetsIt(d, x, e + y, key, o);
      EntrySetsOnly(d, d, e', service, key);
      NeverInParts(d, x, e', y, key);
      Unset(d, x + (e' + y), key, o');
    }
  }

  /** On tokens: swapping one entry's lines for the service's sets the service, and nothing
      else, when they were its own and nothing after them spoils it, and only then, unless the
      entry was as asked before. */
  lemma SwapIff(ind: nat, x: seq<Token>, e: seq<Token>, e': seq<Token>, y: seq<Token>, key: string, service: string,
                o: map<string, Value>, v: Value)
    requires Swap(ind, x, e, e', y, key, service) && ValueOf(x + (e + y)) == Some(Map(o)) && Sets(ind, e', service, v)
    requires Boundary(ind, y) || OneLine(ind, e', service)
    ensures var holds := Settles((x + (e + y))[0].indent, ind, key, service, y);
      && (holds ==> ValueOf(x + (e' + y)) == Some(Map(o[service := v])))
      && (!Has(o, service, v) ==> (ValueOf(x + (e' + y)) == Some(Map(o[service := v])) <==> holds))
  {
    hide MapLoop, SplitKey, IsSeqItem, ValueOf, SetsKey, IsEntry, NeverSets, OneLine, Boundary, Sets, Swap;
    SwapHeads(ind, x, e, e', y, key, service);
    if ValueOf(x + (e' + y)) == Some(Map(o[service := v])) && !Has(o, service, v) {
      SwapSettles(ind, x, e, e', y, key, service, o, v);
    }
    if Settles((x + (e + y))[0].indent, ind, key, service, y) {
      SwapSets(ind, x, e, e', y, service, o, v);
    }
  }

  lemma SwapSets(k: nat, x: seq<Token>, e: seq<Token>, e': seq<Token>, y: seq<Token>, service: string, o: map<string, Value>, v: Value)
    requires Swap(k, x, e, e', y, service, service) && ValueOf(x + (e + y)) == Some(Map(o)) && (x + (e + y))[0].indent == k
    requires Sets(k, e', service, v) && NeverSets(k, y, service) && Boundary(k, y)
    ensures ValueOf(x + (e' + y)) == Some(Map(o[service := v]))
  {
    hide MapLoop, SplitKey, IsSeqItem, ValueOf, SetsKey, NeverSets, Boundary, Sets;
    EntryTokensReplaced(k, x, e, e', y, service, o, v);
  }

  // ----- the block in its document -----

  /** The margin after a block that parses is a boundary, and the block is parsed whole. */
  lemma BlockEnds(ta: seq<Token>, h: Token, tb: seq<Token>, tc: seq<Token>, m: map<string, Value>)
    requires KeyLine(h, 0, "origins") && AllDeeper(0, tb) && tb != [] && (tc == [] || tc[0].indent == 0)
    requires ParseTokens(ta + ([h] + (tb + tc))) == Ok(Map(m))
    ensures Boundary(0, tc) && ValueOf(tb).Some?
  {
    hide MapLoop, MapEntry, ParseTokens, ParseBlock, ValueOf, SplitKey;
    var s := [h] + (tb + tc);
    KeyLineKeys(h, tb + tc, 0, "origins");
    var ma := DocCut(ta, s, m);
    var n := BlockTaken(h, tb, tc, ma, m);
    if !Boundary(0, tc) {
      BlockStopsShort(h, tb, tc, ma);
    }
    BlockPassed(h, tb, tc, 0, "origins", ma, m);
  }

  lemma BlockTaken(h: Token, tb: seq<Token>, tc: seq<Token>, acc: map<string, Value>, m: map<string, Value>) returns (n: nat)
    requires KeyLine(h, 0, "origins") && AllDeeper(0, tb) && tb != [] && (tc == [] || tc[0].indent == 0)
    requires MapLoop(0, [h] + (tb + tc), acc) == Ok((m, |[h] + (tb + tc)|))
    ensures n == |tb| && ParseBlock(tb + tc).Ok? && ParseBlock(tb + tc).value.1 == n
  {
    hide ParseBlock, SplitKey, MapLoop;
    var s := [h] + (tb + tc);
    assert s[1..] == tb + tc;
    if MapEntry(0, s).Err? {
      NoEntry(0, s, acc);
    }
    n := ParseBlock(tb + tc).value.1;
    BlockFits(tb + tc);
    assert tc != [] ==> (tb + tc)[|tb|] == tc[0];
    MapRound(0, s, acc, "origins", ParseBlock(tb + tc).value.0, 1 + n);
    if n < |tb| {
      assert s[1 + n..][0] == tb[n];
      DeeperStops(0, s[1 + n..], acc["origins" := ParseBlock(tb + tc).value.0]);
    }
  }

  lemma BlockStopsShort(h: Token, tb: seq<Token>, tc: seq<Token>, acc: map<string, Value>)
    requires KeyLine(h, 0, "origins") && tb != [] && tb[0].indent > 0 && !Boundary(0, tc)
    requires ParseBlock(tb + tc).Ok? && ParseBlock(tb + tc).value.1 == |tb|
    ensures MapLoop(0, [h] + (tb + tc), acc).Ok? && MapLoop(0, [h] + (tb + tc), acc).value.1 == 1 + |tb| < |[h] + (tb + tc)|
  {
    hide ParseBlock, SplitKey, MapLoop;
    var s, v := [h] + (tb + tc), ParseBlock(tb + tc).value.0;
    assert s[1..] == tb + tc && s[1 + |tb|..] == tc;
    MapRound(0, s, acc, "origins", v, 1 + |tb|);
    StopsShort(0, tc, acc["origins" := v]);
  }

  lemma DocLoop(ta: seq<Token>, s: seq<Token>, m: map<string, Value>)
    requires Keyed(0, s) && ParseTokens(ta + s) == Ok(Map(m))
    ensures MapLoop(0, ta + s, map[]) == Ok((m, |ta + s|))
  {
    hide MapLoop, ParseTokens;
    StartsAtZero(ta, s);
    ParsedMap(ta + s, m);
  }

  /** Another block under the header is another value of `origins`, and nothing else, when no
      later line sets `origins` and the block's tokens are that value, and only then, unless it
      was the value before. */
  lemma BlockSwapIff(ta: seq<Token>, h: Token, tb: seq<Token>, tb': seq<Token>, tc: seq<Token>, m: map<string, Value>, v': Value)
    requires KeyLine(h, 0, "origins") && AllDeeper(0, tb) && AllDeeper(0, tb') && Boundary(0, tc)
    requires ParseTokens(ta + ([h] + (tb + tc))) == Ok(Map(m)) && "origins" in m
    ensures NeverSets(0, tc, "origins") ==> ValueOf(tb) == Some(m["origins"])
    ensures var holds := NeverSets(0, tc, "origins") && ValueOf(tb') == Some(v');
      && (holds ==> ParseTokens(ta + ([h] + (tb' + tc))) == Ok(Map(m["origins" := v'])))
      && (m["origins"] != v' ==> (ParseTokens(ta + ([h] + (tb' + tc))) == Ok(Map(m["origins" := v'])) <==> holds))
  {
    hide MapLoop, ParseTokens, ValueOf, NeverSets, Boundary, KeyLine;
    var none: seq<Token> := [];
    if NeverSets(0, tc, "origins") {
      assert ValueOf(none) == Some(Null) by { NothingIsNull(); }
      DocEdited(ta, h, tb, none, tc, "origins", m, Null);
      if ParseTokens(ta + ([h] + (tb' + tc))) == Ok(Map(m["origins" := v'])) {
        DocEdited(ta, h, tb', none, tc, "origins", m["origins" := v'], Null);
      }
      if ValueOf(tb') == Some(v') {
        DocEdited(ta, h, tb, tb', tc, "origins", m, v');
      }
    } else if ParseTokens(ta + ([h] + (tb' + tc))) == Ok(Map(m["origins" := v'])) {
      LaterBlockCounts(ta, h, tb, tb', tc, m, m["origins" := v']);
    }
  }

  lemma NothingIsNull()
    ensures ValueOf([]) == Some(Null)
  {
  }

  lemma LaterBlockCounts(ta: seq<Token>, h: Token, tb: seq<Token>, tb': seq<Token>, tc: seq<Token>, m: map<string, Value>, m': map<string, Value>)
    requires KeyLine(h, 0, "origins") && !NeverSets(0, tc, "origins")
    requires ParseTokens(ta + ([h] + (tb + tc))) == Ok(Map(m)) && ParseTokens(ta + ([h] + (tb' + tc))) == Ok(Map(m'))
    ensures "origins" in m && "origins" in m' && m["origins"] == m'["origins"]
  {
    hide MapLoop, ParseTokens, NeverSets;
    KeyLineKeys(h, tb + tc, 0, "origins");
    KeyLineKeys(h, tb' + tc, 0, "origins");
    DocLoop(ta, [h] + (tb + tc), m);
    DocLoop(ta, [h] + (tb' + tc), m');
    assert ta + ([h] + (tb + tc)) == (ta + ([h] + tb)) + tc && ta + ([h] + (tb' + tc)) == (ta + ([h] + tb')) + tc;
    LaterLineWins(0, ta + ([h] + tb), ta + ([h] + tb'), tc, "origins", m, m');
  }

  // ----- the text around an edit -----

  /** Lines before the header, the header, the block's lines before, at and after the place of
      the edit, and the rest. */
  datatype Pieces = Pieces(a: seq<string>, hdr: string, x: seq<string>, e: seq<string>, y: seq<string>, c: seq<string>)

  function Whole(p: Pieces, e: seq<string>): seq<string> {
    Doc(p.a, p.hdr, p.x + (e + p.y), p.c)
  }

  function PiecesOf(lines: seq<string>, h: nat, at: nat, end: nat, stop: nat): Pieces
    requires h < at <= end <= stop <= |lines|
  {
    Pieces(lines[..h], lines[h], lines[h + 1..at], lines[at..end], lines[end..stop], lines[stop..])
  }

  lemma Respliced(lines: seq<string>, h: nat, at: nat, end: nat, stop: nat, mid: seq<string>)
    requires h < at <= end <= stop <= |lines|
    ensures Whole(PiecesOf(lines, h, at, end, stop), lines[at..end]) == lines
    ensures Whole(PiecesOf(lines, h, at, end, stop), mid) == lines[..at] + mid + lines[end..]
  {
    Spliced(lines, h, at, end, stop, mid);
  }

  /** The tokens of a text in pieces. */
  function WholeTokens(p: Pieces, e: seq<Token>): seq<Token> {
    Toks(p.a) + ([BareToken(0, "origins")] + ((Toks(p.x) + (e + Toks(p.y))) + Toks(p.c)))
  }

  lemma PiecesRead(p: Pieces, mid: seq<string>)
    requires Readable(Whole(p, p.e)) && IsHeader(p.hdr) && Tokens(mid).Ok?
    ensures Readable(p.x) && Readable(p.e) && Readable(p.y) && KeyLine(BareToken(0, "origins"), 0, "origins")
    ensures Tokens(Whole(p, p.e)) == Ok(WholeTokens(p, Toks(p.e))) && Tokens(Whole(p, mid)) == Ok(WholeTokens(p, Toks(mid)))
  {
    hide IsHeader, KeyLine, Readable;
    DocTokens(p.a, p.hdr, p.x + (p.e + p.y), p.c);
    ReadableParts(p.x, p.e + p.y);
    ReadableParts(p.e, p.y);
    assert Tokens(p.x).Ok? && Tokens(p.y).Ok? by { ReadableReads(p.x); ReadableReads(p.y); }
    TokensJoin(mid, p.y);
    TokensJoin(p.x, mid + p.y);
    DocRebuilt(p.a, p.hdr, p.x + (p.e + p.y), p.x + (mid + p.y), p.c);
  }

  lemma ReadableReads(lines: seq<string>)
    requires Readable(lines)
    ensures Tokens(lines).Ok?
  {
  }

  lemma RenderedEntry(service: string, backend: string, scope: string, k: nat)
    requires Writable(service, backend, scope)
    ensures var e' := OriginTokens(service, backend, scope, k);
      Sets(k, e', service, EntryValue(backend, scope)) && IsEntry(k, e', service) && (scope == "" ==> OneLine(k, e', service))
  {
    hide SplitKey, IsSeqItem, Sets;
    OriginTokensSet(service, backend, scope, k);
    QuoteTight(backend);
    if scope == "" {
      ValueLine(k, service, Quote(backend));
    } else {
      BareLine(k, service);
    }
  }

  // ----- replace -----

  /** What the tokens around a replaced entry must be for the edit to do what it should. */
  ghost predicate ReplaceHolds(x: seq<Token>, e: seq<Token>, y: seq<Token>, tc: seq<Token>, ind: nat, key: string, service: string)
    requires e != []
  {
    Settles((x + (e + y))[0].indent, ind, key, service, y) && NeverSets(0, tc, "origins")
  }

  lemma ReplaceTokensIff(p: Pieces, e: seq<Token>, e': seq<Token>, ind: nat, key: string, service: string,
                         m: map<string, Value>, o: map<string, Value>, v: Value)
    requires var x, y, tc := Toks(p.x), Toks(p.y), Toks(p.c);
      && Swap(ind, x, e, e', y, key, service) && Sets(ind, e', service, v) && ind > 0
      && AllDeeper(0, x) && AllDeeper(0, y) && (tc == [] || tc[0].indent == 0)
      && (Boundary(ind, y) || OneLine(ind, e', service))
    requires ParseTokens(WholeTokens(p, e)) == Ok(Map(m)) && "origins" in m && m["origins"] == Map(o)
    ensures e != []
    ensures var holds := ReplaceHolds(Toks(p.x), e, Toks(p.y), Toks(p.c), ind, key, service);
      var sets := ParseTokens(WholeTokens(p, e')) == Ok(Map(m["origins" := Map(o[service := v])]));
      (holds ==> sets) && (!Has(o, service, v) ==> (sets <==> holds))
  {
    hide MapLoop, SplitKey, IsSeqItem, ValueOf, SetsKey, NeverSets, OneLine, Boundary, Sets, ParseTokens, Settles;
    var x, y, tc, h := Toks(p.x), Toks(p.y), Toks(p.c), BareToken(0, "origins");
    BareLine(0, "origins");
    EntryDeep(ind, e, key);
    EntryDeep(ind, e', service);
    DeepParts(x, e, y);
    DeepParts(x, e', y);
    BlockEnds(Toks(p.a), h, x + (e + y), tc, m);
    BlockSwapIff(Toks(p.a), h, x + (e + y), x + (e' + y), tc, m, Map(o[service := v]));
    if NeverSets(0, tc, "origins") {
      SwapIff(ind, x, e, e', y, key, service, o, v);
    }
    if !Has(o, service, v) { NotYet(o, service, v); }
  }

  lemma EntryDeep(ind: nat, e: seq<Token>, key: string)
    requires IsEntry(ind, e, key) && ind > 0
    ensures e != [] && AllDeeper(0, e)
  {
    hide SplitKey, IsSeqItem;
    assert forall i :: 1 <= i < |e| ==> e[i] == e[1..][i - 1];
  }

  lemma DeepParts(x: seq<Token>, e: seq<Token>, y: seq<Token>)
    requires AllDeeper(0, x) && AllDeeper(0, e) && AllDeeper(0, y)
    ensures AllDeeper(0, x + (e + y))
  {
    DeeperParts(0, e, y);
    DeeperParts(0, x, e + y);
  }

  lemma NotYet(o: map<string, Value>, key: string, v: Value)
    requires !Has(o, key, v)
    ensures Map(o[key := v]) != Map(o)
  {
    assert key in o[key := v] && o[key := v][key] == v;
  }

  /** A document in which the editor takes over the lines from `at` to `end`, of a block the
      parser has end at `stop`, and the parser reads line `at` as setting `key`. Left aside are a
      key that the block sets twice where it is taken for the service, and a structured entry
      written over the first half of one that a comment divides. */
  ghost predicate TakesOver(lines: seq<string>, service: string, scope: string, h: nat, at: nat, ind: nat, end: nat, stop: nat, key: string) {
    && Readable(lines) && h == FindHeader(Look(lines), 0) < at < end <= stop <= |lines|
    && Locate(Look(lines), service, h + 1, 0) == Over(at, ind) && end == EntryEnd(Look(lines), ind, at + 1) && stop == BlockStop(lines, end)
    && NamesService(lines[at], ind, key)
    && (key != service ==> NeverSets(ind, Toks(lines[h + 1..at]), key) && NeverSets(ind, Toks(lines[end..stop]), key))
    && (scope == "" || Boundary(ind, Toks(lines[end..stop])))
  }

  /** The text around an edit that does what it should: the lines taken over stand at the
      block's column and set the service for the parser too, no line of the block goes on with
      them or sets the service again, and no later line sets `origins` again. */
  ghost predicate EditHolds(lines: seq<string>, service: string, h: nat, at: nat, ind: nat, end: nat, stop: nat, key: string)
    requires h < at <= end <= stop <= |lines|
  {
    Toks(lines[at..end]) != []
    && ReplaceHolds(Toks(lines[h + 1..at]), Toks(lines[at..end]), Toks(lines[end..stop]), Toks(lines[stop..]), ind, key, service)
  }

  lemma TakenSwap(lines: seq<string>, service: string, backend: string, scope: string, h: nat, at: nat, ind: nat, end: nat, stop: nat, key: string)
    requires TakesOver(lines, service, scope, h, at, ind, end, stop, key) && Writable(service, backend, scope)
    ensures ind > 0 && IsHeader(lines[h])
    ensures Readable(lines[at..end]) && AllDeeper(0, Toks(lines[h + 1..at])) && AllDeeper(0, Toks(lines[end..stop]))
    ensures Swap(ind, Toks(lines[h + 1..at]), Toks(lines[at..end]), OriginTokens(service, backend, scope, ind), Toks(lines[end..stop]), key, service)
    ensures Toks(lines[stop..]) == [] || Toks(lines[stop..])[0].indent == 0
  {
    hide Locate, FindHeader, EntryEnd, BlockStop, Boundary, NeverSets, NamesService, EntryLines, Readable, See, IsEntry, AllDeeper, PlainKey, IsHeader, OriginTokens, Sets, OneLine, Toks, NowhereSets, PlainText;
    ReadableNoTabs(lines);
    ScanFacts(Look(lines), service, h + 1, 0);
    HeaderThere(lines, h);
    PlainKeyHasNone(service);
    PassedLines(lines, service, h + 1, at);
    TakenLines(lines, at, ind, end);
    PartReadable(lines, at, end);
    EntryTokens(lines[at..end], ind, key);
    StopsAtMargin(lines, end);
    RenderedEntry(service, backend, scope, ind);
  }

  lemma EditText(lines: seq<string>, service: string, backend: string, scope: string, p: Place, h: nat, end: nat)
    requires h == FindHeader(Look(lines), 0) < p.at <= end <= |lines| && Locate(Look(lines), service, h + 1, 0) == p
    requires end == if p.Over? then EntryEnd(Look(lines), p.indent, p.at + 1) else p.at
    ensures Edit(lines, service, backend, scope) == Some(lines[..p.at] + OriginLines(service, backend, scope, p.indent) + lines[end..])
  {
    hide See, OriginLines, Edit, Locate, FindHeader, EntryEnd;
    EditAt(lines, service, backend, scope, p);
  }

  /** The edited text, read. */
  lemma EditedReads(lines: seq<string>, service: string, backend: string, scope: string, p: Place, h: nat, end: nat, stop: nat)
    requires Readable(lines) && Writable(service, backend, scope) && p.indent >= 0
    requires h == FindHeader(Look(lines), 0) < p.at <= end <= stop <= |lines| && Locate(Look(lines), service, h + 1, 0) == p
    requires end == if p.Over? then EntryEnd(Look(lines), p.indent, p.at + 1) else p.at
    ensures Edit(lines, service, backend, scope).Some?
    ensures var q := PiecesOf(lines, h, p.at, end, stop);
      && Parse(lines) == ParseTokens(WholeTokens(q, Toks(lines[p.at..end])))
      && Parse(Edit(lines, service, backend, scope).value) == ParseTokens(WholeTokens(q, OriginTokens(service, backend, scope, p.indent)))
  {
    hide See, Look, Locate, FindHeader, EntryEnd, ParseTokens, OriginLines, Whole, Readable, IsHeader, PlainText, WholeTokens, OriginTokens, Edit, Tokens;
    var q, entry := PiecesOf(lines, h, p.at, end, stop), OriginLines(service, backend, scope, p.indent);
    EditText(lines, service, backend, scope, p, h, end);
    HeaderThere(lines, h);
    Respliced(lines, h, p.at, end, stop, entry);
    OriginLinesTokens(service, backend, scope, p.indent);
    PiecesRead(q, entry);
  }

  /** An edit that takes over lines sets the service in the document, and nothing else, if and
      only if the text around it is as EditHolds says; if it is, also where the entry was as
      asked before. */
  lemma ReplaceAgreesIff(lines: seq<string>, service: string, backend: string, scope: string, m: map<string, Value>, o: map<string, Value>,
                         h: nat, at: nat, ind: nat, end: nat, stop: nat, key: string)
    requires TakesOver(lines, service, scope, h, at, ind, end, stop, key) && Writable(service, backend, scope)
    requires Parse(lines) == Ok(Map(m)) && "origins" in m && m["origins"] == Map(o)
    ensures Edit(lines, service, backend, scope).Some?
    ensures var sets := Parse(Edit(lines, service, backend, scope).value) == Ok(Map(m["origins" := Map(o[service := EntryValue(backend, scope)])]));
      && (EditHolds(lines, service, h, at, ind, end, stop, key) ==> sets)
      && (!Has(o, service, EntryValue(backend, scope)) ==> (sets <==> EditHolds(lines, service, h, at, ind, end, stop, key)))
  {
    hide See, Look, Locate, FindHeader, EntryEnd, BlockStop, Boundary, NeverSets, ParseTokens, NamesService, Readable, ReplaceHolds, Swap, AllDeeper;
    hide IsHeader, PlainText, Has, Sets, OneLine, IsEntry, WholeTokens, OriginTokens, Parse, Edit, Toks;
    TakenSwap(lines, service, backend, scope, h, at, ind, end, stop, key);
    EditedReads(lines, service, backend, scope, Over(at, ind), h, end, stop);
    RenderedEntry(service, backend, scope, ind);
    ReplaceTokensIff(PiecesOf(lines, h, at, end, stop), Toks(lines[at..end]), OriginTokens(service, backend, scope, ind), ind, key, service,
                     m, o, EntryValue(backend, scope));
  }

  // ----- insert -----

  /** What the block's tokens around an inserted entry must be: it comes in at the block's column,
      no line goes on with it, and none after it sets the service. */
  ghost predicate Inserts(x: seq<Token>, y: seq<Token>, ind: nat, service: string) {
    (x + y != [] ==> (x + y)[0].indent == ind) && NeverSets(ind, y, service) && Boundary(ind, y)
  }

  /** Setting a key before lines that do not is setting it after them. */
  lemma LoopAdds(d: nat, y: seq<Token>, acc: map<string, Value>, key: string, v: Value, o: map<string, Value>)
    requires NeverSets(d, y, key) && MapLoop(d, y, acc) == Ok((o, |y|))
    ensures MapLoop(d, y, acc[key := v]) == Ok((o[key := v], |y|))
  {
    hide MapLoop;
    var none: map<string, Value> := map[];
    Accumulates(d, y, acc, none);
    Accumulates(d, y, acc[key := v], none);
    UnsetKey(d, y, none, key);
    assert acc + none == acc && acc[key := v] + none == acc[key := v];
    OverlaySet(acc, MapLoop(d, y, none).value.0, key, v);
  }

  lemma InsertSets(k: nat, x: seq<Token>, e': seq<Token>, y: seq<Token>, service: string, o: map<string, Value>, v: Value)
    requires Inserts(x, y, k, service) && Sets(k, e', service, v)
    requires if x + y == [] then o == map[] else ValueOf(x + y) == Some(Map(o))
    ensures ValueOf(x + (e' + y)) == Some(Map(o[service := v]))
  {
    hide MapLoop, SplitKey, IsSeqItem, ValueOf, SetsKey, NeverSets;
    if y == [] {
      assert x + y == x && e' + y == e';
      TokensAdded(x, e', k, service, o, v);
    } else {
      MapValue(x + y, k, o);
      var mx := MapCut(k, x, y, map[], o);
      LoopAdds(k, y, mx, service, v, o);
      assert Boundary(k, e' + y);
      MapJoin(k, e', y, mx, mx[service := v], o[service := v]);
      MapJoin(k, x, e' + y, map[], mx, o[service := v]);
      assert (x + (e' + y))[0] == (if x == [] then e'[0] else x[0]) && (x != [] ==> (x + y)[0] == x[0]);
      MapValue(x + (e' + y), k, o[service := v]);
    }
  }

  lemma EntryHeads(ind: nat, e': seq<Token>, y: seq<Token>, service: string)
    requires IsEntry(ind, e', service)
    ensures e' != [] && e'[0].indent == ind && Boundary(ind, e' + y)
  {
    hide SplitKey, IsSeqItem;
  }

  /** An entry at the head of the block. */
  lemma FirstNeeds(ind: nat, e': seq<Token>, y: seq<Token>, service: string, o: map<string, Value>, v: Value)
    requires IsEntry(ind, e', service) && !Has(o, service, v) && (y != [] ==> ValueOf(y) == Some(Map(o)))
    requires ValueOf(e' + y) == Some(Map(o[service := v]))
    requires Boundary(ind, y) || OneLine(ind, e', service)
    ensures Inserts([], y, ind, service)
  {
    hide MapLoop, SplitKey, IsSeqItem, ValueOf, SetsKey, IsEntry, OneLine;
    var none: seq<Token> := [];
    EntryHeads(ind, e', y, service);
    MapValue(e' + y, ind, o[service := v]);
    if OneLine(ind, e', service) {
      OneLineEnds(ind, e', y, service, map[], o[service := v]);
    }
    assert none + y == y;
    if y != [] {
      NoneLeft(e', y);
      MapValue(y, ind, o);
      if !NeverSets(ind, y, service) {
        LaterLineWins(ind, none, e', y, service, o, o[service := v]);
      }
    }
  }

  lemma NoneLeft(e: seq<Token>, y: seq<Token>)
    requires e != [] && y != [] && ValueOf(e + y).Some?
    ensures e[0].indent <= y[0].indent
  {
    BlockFits(e + y);
    assert (e + y)[|e|] == y[0];
  }

  /** An entry after others. */
  lemma LaterNeeds(ind: nat, x: seq<Token>, e': seq<Token>, y: seq<Token>, service: string, o: map<string, Value>, v: Value)
    requires x != [] && IsEntry(ind, e', service) && NowhereSets(x, service) && !Has(o, service, v)
    requires ValueOf(x + y) == Some(Map(o)) && ValueOf(x + (e' + y)) == Some(Map(o[service := v]))
    requires Boundary(ind, y) || OneLine(ind, e', service)
    ensures Inserts(x, y, ind, service)
  {
    hide MapLoop, SplitKey, IsSeqItem, ValueOf, SetsKey, IsEntry, OneLine, NeverSets, Boundary;
    var ts', o', col := x + (e' + y), o[service := v], x[0].indent;
    assert ts'[0] == x[0] && (x + y)[0] == x[0];
    EntryHeads(ind, e', y, service);
    MapValue(x + y, col, o);
    MapValue(ts', col, o');
    InColumn(x, e', y);
    assert ts' == (x + e') + y;
    if !NeverSets(col, y, service) {
      LaterLineWins(col, x, x + e', y, service, o, o');
    }
    NeverInParts(col, x, e', y, service);
    if col < ind {
      EntrySetsOnly(col, ind, e', service, service);
      Unset(col, ts', service, o');
    }
    var acc := MapCut(ind, x, e' + y, map[], o');
    if OneLine(ind, e', service) {
      OneLineEnds(ind, e', y, service, acc, o');
    }
  }

  /** On tokens: adding the service's entry sets it, and nothing else, when it comes in at the
      block's column and nothing after it spoils it, and only then, unless it was as asked. */
  lemma InsertIff(ind: nat, x: seq<Token>, e': seq<Token>, y: seq<Token>, service: string, o: map<string, Value>, v: Value)
    requires IsEntry(ind, e', service) && Sets(ind, e', service, v) && NowhereSets(x, service)
    requires if x + y == [] then o == map[] else ValueOf(x + y) == Some(Map(o))
    requires Boundary(ind, y) || OneLine(ind, e', service)
    ensures Inserts(x, y, ind, service) ==> ValueOf(x + (e' + y)) == Some(Map(o[service := v]))
    ensures !Has(o, service, v) ==> (ValueOf(x + (e' + y)) == Some(Map(o[service := v])) <==> Inserts(x, y, ind, service))
  {
    hide MapLoop, SplitKey, IsSeqItem, ValueOf, SetsKey, IsEntry, OneLine, NeverSets, Boundary, Sets, Inserts;
    if Inserts(x, y, ind, service) {
      InsertSets(ind, x, e', y, service, o, v);
    }
    if ValueOf(x + (e' + y)) == Some(Map(o[service := v])) && !Has(o, service, v) {
      if x == [] {
        assert x + (e' + y) == e' + y && x + y == y;
        FirstNeeds(ind, e', y, service, o, v);
      } else {
        LaterNeeds(ind, x, e', y, service, o, v);
      }
    }
  }

  ghost predicate InsertHolds(x: seq<Token>, y: seq<Token>, tc: seq<Token>, ind: nat, service: string) {
    Inserts(x, y, ind, service) && NeverSets(0, tc, "origins") && Boundary(0, tc)
  }

  lemma InsertTokensIff(p: Pieces, e': seq<Token>, ind: nat, service: string, m: map<string, Value>, o: map<string, Value>, v: Value)
    requires var x, y, tc := Toks(p.x), Toks(p.y), Toks(p.c);
      && IsEntry(ind, e', service) && Sets(ind, e', service, v) && ind > 0 && NowhereSets(x, service)
      && AllDeeper(0, x) && AllDeeper(0, y) && (tc == [] || tc[0].indent == 0)
      && (Boundary(ind, y) || OneLine(ind, e', service))
    requires ParseTokens(WholeTokens(p, [])) == Ok(Map(m)) && "origins" in m && Origins(m) == Some(o)
    ensures var holds := InsertHolds(Toks(p.x), Toks(p.y), Toks(p.c), ind, service);
      var sets := ParseTokens(WholeTokens(p, e')) == Ok(Map(m["origins" := Map(o[service := v])]));
      (holds ==> sets) && (!Has(o, service, v) ==> (sets <==> holds))
  {
    hide MapLoop, SplitKey, IsSeqItem, ValueOf, SetsKey, NeverSets, OneLine, Sets, ParseTokens, Inserts, Boundary;
    var x, y, tc, h := Toks(p.x), Toks(p.y), Toks(p.c), BareToken(0, "origins");
    var none: seq<Token> := [];
    BareLine(0, "origins");
    EntryDeep(ind, e', service);
    assert none + y == y;
    DeepParts(x, none, y);
    DeepParts(x, e', y);
    if ParseTokens(WholeTokens(p, e')) == Ok(Map(m["origins" := Map(o[service := v])])) {
      BlockEnds(Toks(p.a), h, x + (e' + y), tc, m["origins" := Map(o[service := v])]);
    }
    if Boundary(0, tc) {
      BlockSwapIff(Toks(p.a), h, x + y, x + (e' + y), tc, m, Map(o[service := v]));
      if NeverSets(0, tc, "origins") {
        NullIsEmpty(x + y, m, o);
        InsertIff(ind, x, e', y, service, o, v);
      }
      if !Has(o, service, v) { NotYet(o, service, v); }
    }
  }

  lemma NullIsEmpty(ts: seq<Token>, m: map<string, Value>, o: map<string, Value>)
    requires "origins" in m && Origins(m) == Some(o) && ValueOf(ts) == Some(m["origins"])
    ensures if ts == [] then o == map[] else ValueOf(ts) == Some(Map(o))
  {
  }

  /** A document in which the editor inserts an entry before line `at`, of a block the parser has
      end at `stop`; left aside are a structured entry and deeper lines that go on with it. */
  ghost predicate ComesIn(lines: seq<string>, service: string, scope: string, h: nat, at: nat, ind: nat, stop: nat) {
    && Readable(lines) && h == FindHeader(Look(lines), 0) < at <= stop <= |lines|
    && Locate(Look(lines), service, h + 1, 0) == Before(at, ind) && stop == BlockStop(lines, at)
    && (scope == "" || Boundary(ind, Toks(lines[at..stop])))
  }

  lemma ComingIn(lines: seq<string>, service: string, scope: string, h: nat, at: nat, ind: nat, stop: nat)
    requires ComesIn(lines, service, scope, h, at, ind, stop) && PlainKey(service)
    ensures ind > 0 && AllDeeper(0, Toks(lines[h + 1..at])) && AllDeeper(0, Toks(lines[at..stop]))
    ensures NowhereSets(Toks(lines[h + 1..at]), service)
    ensures Toks(lines[stop..]) == [] || Toks(lines[stop..])[0].indent == 0
  {
    hide Locate, FindHeader, BlockStop, Boundary, NeverSets, Readable, See, AllDeeper, PlainKey;
    ReadableNoTabs(lines);
    ScanFacts(Look(lines), service, h + 1, 0);
    PlainKeyHasNone(service);
    PassedLines(lines, service, h + 1, at);
    StopsAtMargin(lines, at);
  }

  /** An edit that inserts an entry sets the service in the document, and nothing else, if and
      only if it comes in at the block's column, no later line of the block goes on with it or
      sets the service, and no later line sets `origins` again; if so, also where the entry was
      as asked before. */
  lemma InsertAgreesIff(lines: seq<string>, service: string, backend: string, scope: string, m: map<string, Value>, o: map<string, Value>,
                        h: nat, at: nat, ind: nat, stop: nat)
    requires ComesIn(lines, service, scope, h, at, ind, stop) && Writable(service, backend, scope)
    requires Parse(lines) == Ok(Map(m)) && "origins" in m && Origins(m) == Some(o)
    ensures Edit(lines, service, backend, scope).Some?
    ensures var sets := Parse(Edit(lines, service, backend, scope).value) == Ok(Map(m["origins" := Map(o[service := EntryValue(backend, scope)])]));
      var holds := InsertHolds(Toks(lines[h + 1..at]), Toks(lines[at..stop]), Toks(lines[stop..]), ind, service);
      (holds ==> sets) && (!Has(o, service, EntryValue(backend, scope)) ==> (sets <==> holds))
  {
    hide See, Look, Locate, FindHeader, EntryEnd, BlockStop, Boundary, NeverSets, ParseTokens, Readable, AllDeeper, InsertHolds;
    hide IsHeader, PlainText, Has, Sets, OneLine, IsEntry, WholeTokens, OriginTokens, Parse, Edit;
    ComingIn(lines, service, scope, h, at, ind, stop);
    EditedReads(lines, service, backend, scope, Before(at, ind), h, at, stop);
    RenderedEntry(service, backend, scope, ind);
    assert Toks(lines[at..at]) == [] by { assert lines[at..at] == []; }
    InsertTokensIff(PiecesOf(lines, h, at, at, stop), OriginTokens(service, backend, scope, ind), ind, service, m, o, EntryValue(backend, scope));
  }

  // ----- append -----

  /** The entries under `origins`: none when it is absent or null. */
  function Origins(m: map<string, Value>): Option<map<string, Value>> {
    if "origins" !in m || m["origins"] == Null then Some(map[])
    else if m["origins"].Map? then Some(m["origins"].entries)
    else None
  }

  /** The document's top level is not indented. */
  predicate AtMargin(ts: seq<Token>) {
    ts == [] || ts[0].indent == 0
  }

  lemma NullIsNothing(ts: seq<Token>)
    requires ParseTokens(ts) == Ok(Null)
    ensures ts == []
  {
  }

  lemma MapIsKeyed(ts: seq<Token>, m: map<string, Value>)
    requires ParseTokens(ts) == Ok(Map(m)) && AtMargin(ts)
    ensures Keyed(0, ts)
  {
  }

  lemma IndentedRefuses(ts: seq<Token>, h: Token, e: seq<Token>)
    requires !AtMargin(ts) && h.indent == 0
    ensures ParseTokens(ts + ([h] + e)).Err?
  {
    hide ParseTokens;
    var all := ts + ([h] + e);
    assert all[0] == ts[0] && all[|ts|] == h;
    if ParseTokens(all).Ok? {
      NoDeeperStart(all, |ts|);
    }
  }

  lemma OnlyEntry(o: map<string, Value>, key: string, v: Value)
    ensures o[key := v] == map[key := v] <==> forall k :: k in o ==> k == key
  {
    var one := map[key := v];
    if o[key := v] == one {
      forall k | k in o ensures k == key {
        assert k in o[key := v];
      }
    }
  }

  lemma SameUnder(m: map<string, Value>, key: string, v: Value, w: Value)
    ensures m[key := v] == m[key := w] <==> v == w
  {
    assert m[key := v][key] == v && m[key := w][key] == w;
  }

  /** An edit that finds no header, and appends a block, sets the service in the document, and
      nothing else, if and only if the document is not indented and its `origins`, which only a
      header the editor does not recognise can bring, holds no other service. */
  lemma AppendAgreesIff(lines: seq<string>, service: string, backend: string, scope: string, m: map<string, Value>, o: map<string, Value>)
    requires lines != [] && !HasTopLevelKey(lines, "edges") && FindHeader(Look(lines), 0) == |lines| && Writable(service, backend, scope)
    requires Parse(lines) == Ok(Map(m)) || (Parse(lines) == Ok(Null) && m == map[])
    requires Origins(m) == Some(o)
    ensures WriteOrigin(lines, service, backend, scope).Ok?
    ensures Parse(WriteOrigin(lines, service, backend, scope).value)
         == Ok(Map(m["origins" := Map(o[service := EntryValue(backend, scope)])]))
       <==> AtMargin(Toks(lines)) && forall k :: k in o ==> k == service
  {
    hide Look, FindHeader, HasTopLevelKey, ParseTokens, Appended, Writable, Keyed;
    var ts, v := Toks(lines), EntryValue(backend, scope);
    if AtMargin(ts) {
      if Parse(lines) == Ok(Null) { NullIsNothing(ts); } else { MapIsKeyed(ts, m); }
      AppendAgrees(lines, service, backend, scope, m);
      SameUnder(m, "origins", Map(o[service := v]), Map(map[service := v]));
      OnlyEntry(o, service, v);
    } else {
      AppendedTokens(lines, service, backend, scope);
      IndentedRefuses(ts, BareToken(0, "origins"), OriginTokens(service, backend, scope, 2));
    }
  }
}
