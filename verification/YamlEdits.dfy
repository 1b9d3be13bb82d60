/** What parsing makes of a document when one entry of one top-level block map is set: every
    other key keeps its value. Stated on tokens; OriginsLaws and OriginsAgree say it of the text. */
module YamlEdits {
  import opened Model
  import opened Yaml
  import opened YamlFrames
  import opened YamlLayout

  /** A line `key:` at depth `d`. */
  predicate KeyLine(t: Token, d: nat, key: string) {
    t.indent == d && !IsSeqItem(t.text) && SplitKey(t.text) == Some((key, ""))
  }

  ghost predicate AllDeeper(d: nat, ts: seq<Token>) {
    forall i :: 0 <= i < |ts| ==> ts[i].indent > d
  }

  /** The value of the tokens under a key: null for none, else one block that takes them all. */
  function ValueOf(ts: seq<Token>): Option<Value> {
    if ts == [] then Some(Null)
    else
      match ParseBlock(ts)
      case Err => None
      case Ok((v, n)) => if n == |ts| then Some(v) else None
  }

  // ----- loops cut and joined -----

  lemma MapJoin(k: nat, a: seq<Token>, s: seq<Token>, acc: map<string, Value>, ma: map<string, Value>, m: map<string, Value>)
    requires Boundary(k, s) && MapLoop(k, a, acc) == Ok((ma, |a|)) && MapLoop(k, s, ma) == Ok((m, |s|))
    ensures MapLoop(k, a + s, acc) == Ok((m, |a + s|))
  {
    hide MapLoop, MapEntry;
    MapSplit(k, a, s, acc);
  }

  lemma MapCut(k: nat, a: seq<Token>, s: seq<Token>, acc: map<string, Value>, m: map<string, Value>) returns (ma: map<string, Value>)
    requires Boundary(k, s) && s != [] && MapLoop(k, a + s, acc) == Ok((m, |a + s|))
    ensures MapLoop(k, a, acc) == Ok((ma, |a|)) && MapLoop(k, s, ma) == Ok((m, |s|))
  {
    hide MapLoop, MapEntry;
    MapSplit(k, a, s, acc);
    ma := MapLoop(k, a, acc).value.0;
  }

  lemma DeeperStops(d: nat, s: seq<Token>, acc: map<string, Value>)
    requires s == [] || s[0].indent > d
    ensures MapLoop(d, s, acc) == Ok((acc, 0))
  {
  }

  // ----- the document around a top-level key -----

  lemma ParsedMap(ts: seq<Token>, m: map<string, Value>)
    requires Keyed(0, ts)
    ensures ParseTokens(ts) == Ok(Map(m)) <==> MapLoop(0, ts, map[]) == Ok((m, |ts|))
  {
  }

  /** A document in which a key line stands at depth 0 starts with one. */
  lemma StartsAtZero(ta: seq<Token>, s: seq<Token>)
    requires Keyed(0, s) && ParseTokens(ta + s).Ok?
    ensures ta == [] || Keyed(0, ta)
  {
    var ts := ta + s;
    if ta != [] {
      assert ts[0] == ta[0] && ts[|ta|] == s[0];
      NoDeeperStart(ts, |ta|);
      if ta[0].indent == 0 && IsSeqItem(ta[0].text) {
        FrameBlock(ta, s, 0);
      }
    }
  }

  lemma NoDeeperStart(ts: seq<Token>, i: nat)
    requires i < |ts| && ts[i].indent == 0 && ParseTokens(ts).Ok?
    ensures ts[0].indent == 0
  {
    BlockFits(ts);
  }

  /** A document cut before a line at depth 0. */
  lemma DocCut(ta: seq<Token>, s: seq<Token>, m: map<string, Value>) returns (ma: map<string, Value>)
    requires Keyed(0, s) && ParseTokens(ta + s) == Ok(Map(m))
    ensures (ta == [] || Keyed(0, ta)) && MapLoop(0, ta, map[]) == Ok((ma, |ta|)) && MapLoop(0, s, ma) == Ok((m, |s|))
  {
    hide MapLoop, ParseTokens;
    StartsAtZero(ta, s);
    assert Keyed(0, ta + s);
    ParsedMap(ta + s, m);
    ma := MapCut(0, ta, s, map[], m);
  }

  lemma DocJoin(ta: seq<Token>, s: seq<Token>, ma: map<string, Value>, m: map<string, Value>)
    requires Keyed(0, s) && (ta == [] || Keyed(0, ta))
    requires MapLoop(0, ta, map[]) == Ok((ma, |ta|)) && MapLoop(0, s, ma) == Ok((m, |s|))
    ensures ParseTokens(ta + s) == Ok(Map(m))
  {
    hide MapLoop, ParseTokens;
    assert Keyed(0, ta + s);
    MapJoin(0, ta, s, map[], ma, m);
    ParsedMap(ta + s, m);
  }

  /** The entry a key line opens: its deeper lines, as far as a boundary. */
  lemma BlockEntry(h: Token, tb: seq<Token>, tc: seq<Token>, d: nat, key: string)
    requires KeyLine(h, d, key) && AllDeeper(d, tb) && Boundary(d, tc)
    ensures MapEntry(d, [h] + (tb + tc))
         == if tb == [] then Ok((key, Null, 1))
            else match ParseBlock(tb) case Err => Err case Ok((v, n)) => Ok((key, v, 1 + n))
  {
    hide SplitKey, ParseBlock;
    var ts := [h] + (tb + tc);
    assert ts[1..] == tb + tc;
    if tb != [] {
      FrameBlock(tb, tc, d);
    }
  }

  lemma BlockRound(h: Token, tb: seq<Token>, tc: seq<Token>, d: nat, key: string, acc: map<string, Value>, v: Value)
    requires KeyLine(h, d, key) && AllDeeper(d, tb) && Boundary(d, tc) && ValueOf(tb) == Some(v)
    ensures MapLoop(d, [h] + (tb + tc), acc) == Advance(MapLoop(d, tc, acc[key := v]), 1 + |tb|)
  {
    hide MapLoop, MapEntry, SplitKey;
    var ts := [h] + (tb + tc);
    BlockEntry(h, tb, tc, d, key);
    MapRound(d, ts, acc, key, v, 1 + |tb|);
    assert ts[1 + |tb|..] == tc;
  }

  /** A loop that gets past a key line and its deeper lines has parsed those lines whole. */
  lemma BlockWhole(h: Token, tb: seq<Token>, tc: seq<Token>, d: nat, key: string, acc: map<string, Value>)
    requires KeyLine(h, d, key) && AllDeeper(d, tb) && Boundary(d, tc)
    ensures var p := MapLoop(d, [h] + (tb + tc), acc); p.Ok? && p.value.1 == 1 + |tb| + |tc| ==> ValueOf(tb).Some?
  {
    hide MapEntry, SplitKey;
    var ts := [h] + (tb + tc);
    BlockEntry(h, tb, tc, d, key);
    if tb != [] && ParseBlock(tb).Ok? {
      var (v, n) := ParseBlock(tb).value;
      MapRound(d, ts, acc, key, v, 1 + n);
      if n < |tb| {
        assert ts[1 + n..][0] == tb[n];
        DeeperStops(d, ts[1 + n..], acc[key := v]);
      }
    }
  }

  lemma OverlaySet(base: map<string, Value>, over: map<string, Value>, key: string, v: Value)
    requires key !in over
    ensures base[key := v] + over == (base + over)[key := v]
  {
  }

  lemma SetTwice(base: map<string, Value>, key: string, v: Value, w: Value)
    ensures base[key := v][key := w] == base[key := w]
  {
  }

  /** Setting a key before a loop that does not set it is setting it after. */
  lemma LoopKeeps(d: nat, ts: seq<Token>, acc: map<string, Value>, key: string, v: Value, w: Value, m: map<string, Value>)
    requires NeverSets(d, ts, key)
    requires MapLoop(d, ts, acc[key := v]) == Ok((m, |ts|))
    ensures key in m && m[key] == v
    ensures MapLoop(d, ts, acc[key := w]) == Ok((m[key := w], |ts|))
  {
    hide MapLoop, MapEntry;
    var none: map<string, Value> := map[];
    Accumulates(d, ts, acc[key := v], none);
    Accumulates(d, ts, acc[key := w], none);
    UnsetKey(d, ts, none, key);
    assert acc[key := v] + none == acc[key := v] && acc[key := w] + none == acc[key := w];
    var over := MapLoop(d, ts, none).value.0;
    OverlaySet(acc, over, key, v);
    OverlaySet(acc, over, key, w);
    SetTwice(acc + over, key, v, w);
  }

  lemma Unadvance<T>(p: Parsed<T>, n: nat, m: T, k: nat)
    requires Advance(p, n) == Ok((m, n + k))
    ensures p == Ok((m, k))
  {
  }

  /** What a block under a key line leaves for the loop after it. */
  lemma BlockPassed(h: Token, tb: seq<Token>, tc: seq<Token>, d: nat, key: string, acc: map<string, Value>, m: map<string, Value>)
    requires KeyLine(h, d, key) && AllDeeper(d, tb) && Boundary(d, tc)
    requires MapLoop(d, [h] + (tb + tc), acc) == Ok((m, 1 + |tb| + |tc|))
    ensures ValueOf(tb).Some? && MapLoop(d, tc, acc[key := ValueOf(tb).value]) == Ok((m, |tc|))
  {
    hide MapLoop, MapEntry;
    BlockWhole(h, tb, tc, d, key, acc);
    var v := ValueOf(tb).value;
    BlockRound(h, tb, tc, d, key, acc, v);
    Unadvance(MapLoop(d, tc, acc[key := v]), 1 + |tb|, m, |tc|);
  }

  lemma BlockJoined(h: Token, tb: seq<Token>, tc: seq<Token>, d: nat, key: string, acc: map<string, Value>,
                    v: Value, m: map<string, Value>)
    requires KeyLine(h, d, key) && AllDeeper(d, tb) && Boundary(d, tc) && ValueOf(tb) == Some(v)
    requires MapLoop(d, tc, acc[key := v]) == Ok((m, |tc|))
    ensures MapLoop(d, [h] + (tb + tc), acc) == Ok((m, 1 + |tb| + |tc|))
  {
    hide MapLoop, MapEntry;
    BlockRound(h, tb, tc, d, key, acc, v);
  }

  /** The same for the block under a key line and the loop after it. */
  lemma BlockSwapped(h: Token, tb: seq<Token>, tb': seq<Token>, tc: seq<Token>, d: nat, key: string,
                     acc: map<string, Value>, m: map<string, Value>, v': Value)
    requires KeyLine(h, d, key) && AllDeeper(d, tb) && AllDeeper(d, tb') && Boundary(d, tc)
    requires MapLoop(d, [h] + (tb + tc), acc) == Ok((m, 1 + |tb| + |tc|)) && ValueOf(tb') == Some(v')
    requires NeverSets(d, tc, key)
    ensures ValueOf(tb).Some? && key in m && m[key] == ValueOf(tb).value
    ensures MapLoop(d, [h] + (tb' + tc), acc) == Ok((m[key := v'], 1 + |tb'| + |tc|))
  {
    hide MapLoop, MapEntry;
    assert ValueOf(tb).Some? && MapLoop(d, tc, acc[key := ValueOf(tb).value]) == Ok((m, |tc|)) by {
      BlockPassed(h, tb, tc, d, key, acc, m);
    }
    var v := ValueOf(tb).value;
    assert key in m && m[key] == v && MapLoop(d, tc, acc[key := v']) == Ok((m[key := v'], |tc|)) by {
      LoopKeeps(d, tc, acc, key, v, v', m);
    }
    BlockJoined(h, tb', tc, d, key, acc, v', m[key := v']);
  }

  lemma BlockAtEnd(h: Token, tb: seq<Token>, d: nat, key: string, acc: map<string, Value>, v: Value)
    requires KeyLine(h, d, key) && AllDeeper(d, tb) && ValueOf(tb) == Some(v)
    ensures MapLoop(d, [h] + tb, acc) == Ok((acc[key := v], 1 + |tb|))
  {
    var none: seq<Token> := [];
    assert tb + none == tb;
    DeeperStops(d, none, acc[key := v]);
    BlockJoined(h, tb, none, d, key, acc, v, acc[key := v]);
  }

  lemma KeyLineKeys(h: Token, r: seq<Token>, d: nat, key: string)
    requires KeyLine(h, d, key)
    ensures Keyed(d, [h] + r) && Boundary(d, [h] + r)
  {
  }

  /** Putting another block under a top-level key sets that key, and only that key. */
  lemma DocEdited(ta: seq<Token>, h: Token, tb: seq<Token>, tb': seq<Token>, tc: seq<Token>, key: string,
                  m: map<string, Value>, v': Value)
    requires KeyLine(h, 0, key) && AllDeeper(0, tb) && AllDeeper(0, tb') && Boundary(0, tc)
    requires ParseTokens(ta + ([h] + (tb + tc))) == Ok(Map(m)) && ValueOf(tb') == Some(v')
    requires NeverSets(0, tc, key)
    ensures ValueOf(tb).Some? && key in m && m[key] == ValueOf(tb).value
    ensures ParseTokens(ta + ([h] + (tb' + tc))) == Ok(Map(m[key := v']))
  {
    hide MapLoop, ParseTokens;
    var s, s' := [h] + (tb + tc), [h] + (tb' + tc);
    assert |s| == 1 + |tb| + |tc| && |s'| == 1 + |tb'| + |tc|;
    KeyLineKeys(h, tb + tc, 0, key);
    KeyLineKeys(h, tb' + tc, 0, key);
    var ma := DocCut(ta, s, m);
    assert key in m && ValueOf(tb).Some? && m[key] == ValueOf(tb).value && MapLoop(0, s', ma) == Ok((m[key := v'], |s'|)) by {
      BlockSwapped(h, tb, tb', tc, 0, key, ma, m, v');
    }
    DocJoin(ta, s', ma, m[key := v']);
  }

  /** Appending a block under a fresh top-level key line sets that key. */
  lemma DocAppended(ta: seq<Token>, h: Token, tb: seq<Token>, key: string, m: map<string, Value>, v: Value)
    requires KeyLine(h, 0, key) && AllDeeper(0, tb) && ValueOf(tb) == Some(v)
    requires (ta == [] && m == map[]) || (Keyed(0, ta) && ParseTokens(ta) == Ok(Map(m)))
    ensures ParseTokens(ta + ([h] + tb)) == Ok(Map(m[key := v]))
  {
    assert MapLoop(0, [h] + tb, m) == Ok((m[key := v], |[h] + tb|)) by {
      BlockAtEnd(h, tb, 0, key, m, v);
    }
    assert MapLoop(0, ta, map[]) == Ok((m, |ta|)) by {
      if ta != [] { ParsedMap(ta, m); }
    }
    KeyLineKeys(h, tb, 0, key);
    DocJoin(ta, [h] + tb, m, m[key := v]);
  }

  // ----- entries of a block map -----

  /** What the tokens of one rendered entry do to a map loop. */
  ghost predicate Sets(k: nat, e: seq<Token>, key: string, v: Value) {
    && e != [] && Keyed(k, e) && AllDeeper(k, e[1..])
    && forall acc :: MapLoop(k, e, acc) == Ok((acc[key := v], |e|))
  }

  /** An entry's own lines: a line setting the key, and deeper ones. */
  ghost predicate IsEntry(k: nat, e: seq<Token>, key: string) {
    e != [] && SetsKey(k, e[0], key) && AllDeeper(k, e[1..])
  }

  /** A loop that takes one entry's lines whole sets its key, and only it. */
  lemma EntrySets(k: nat, e: seq<Token>, key: string, acc: map<string, Value>)
    requires IsEntry(k, e, key)
    ensures var p := MapLoop(k, e, acc);
      p.Ok? && p.value.1 == |e| ==> MapEntry(k, e).Ok? && p.value.0 == acc[key := MapEntry(k, e).value.1]
  {
    hide SplitKey, IsSeqItem, ParseScalar;
    if MapEntry(k, e).Ok? {
      var (key', v, n) := MapEntry(k, e).value;
      MapRound(k, e, acc, key, v, n);
      if n < |e| { assert e[n..][0] == e[1..][n - 1]; }
      DeeperStops(k, e[n..], acc[key := v]);
    }
  }

  /** Replacing one entry's lines by a rendered entry sets the key, and only it. */
  lemma EntryReplaced(k: nat, x: seq<Token>, e: seq<Token>, e': seq<Token>, y: seq<Token>, key: string,
                      o: map<string, Value>, v': Value)
    requires IsEntry(k, e, key) && Sets(k, e', key, v') && Boundary(k, y)
    requires MapLoop(k, x + (e + y), map[]) == Ok((o, |x + (e + y)|))
    requires NeverSets(k, y, key)
    ensures MapLoop(k, x + (e' + y), map[]) == Ok((o[key := v'], |x + (e' + y)|))
  {
    hide MapLoop, MapEntry;
    assert Boundary(k, e + y) && Boundary(k, e' + y);
    var mx := MapCut(k, x, e + y, map[], o);
    EntrySwapped(k, e, e', y, key, mx, o, v');
    MapJoin(k, x, e' + y, map[], mx, o[key := v']);
  }

  lemma EntrySwapped(k: nat, e: seq<Token>, e': seq<Token>, y: seq<Token>, key: string,
                     acc: map<string, Value>, o: map<string, Value>, v': Value)
    requires IsEntry(k, e, key) && Sets(k, e', key, v') && Boundary(k, y)
    requires MapLoop(k, e + y, acc) == Ok((o, |e + y|))
    requires NeverSets(k, y, key)
    ensures MapLoop(k, e' + y, acc) == Ok((o[key := v'], |e' + y|))
  {
    hide MapLoop, MapEntry;
    MapSplit(k, e, y, acc);
    EntrySets(k, e, key, acc);
    if y == [] {
      assert e + y == e && e' + y == e';
      SetTwice(acc, key, MapEntry(k, e).value.1, v');
    } else {
      LoopKeeps(k, y, acc, key, MapEntry(k, e).value.1, v', o);
      MapJoin(k, e', y, acc, acc[key := v'], o[key := v']);
    }
  }

  /** Adding a rendered entry at the end of a block map sets the key, and only it. */
  lemma EntryInserted(k: nat, x: seq<Token>, e': seq<Token>, key: string, o: map<string, Value>, v': Value)
    requires Sets(k, e', key, v') && MapLoop(k, x, map[]) == Ok((o, |x|))
    ensures MapLoop(k, x + e', map[]) == Ok((o[key := v'], |x| + |e'|))
  {
    hide MapLoop, MapEntry;
    MapSplit(k, x, e', map[]);
  }
}
