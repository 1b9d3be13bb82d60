/** How far a block reaches (internal/config/yaml/yaml.go:134-220), said line by line instead of by
    the parser's recursion: a block takes its lines exactly as long as each one continues an
    open column, opens one where the line before allows it, or hangs below a `- key: …` item. */
module YamlLayout {
  import opened Model
  import opened Yaml
  import opened YamlFrames

  predicate IsItem(t: Token) {
    IsSeqItem(t.text)
  }

  /** A line that a deeper block may follow: a key without a value, or a dash alone. */
  predicate Opens(t: Token) {
    if IsItem(t) then Inline(t.text) == "" else SplitKey(t.text).Some? && SplitKey(t.text).value.1 == ""
  }

  /** A `- key: …` line takes every deeper line that follows. */
  predicate Swallows(t: Token) {
    IsItem(t) && Inline(t.text) != "" && SplitKey(Inline(t.text)).Some?
  }

  ghost predicate HangsBelow(ts: seq<Token>, j: nat, i: nat)
    requires j < i < |ts|
  {
    Swallows(ts[j]) && forall l :: j < l <= i ==> ts[l].indent > ts[j].indent
  }

  /** Deeper than an opening line before it, or a sequence at that key's own column. */
  predicate OpensHere(ts: seq<Token>, i: nat)
    requires 0 < i < |ts|
  {
    Opens(ts[i - 1]) &&
    (ts[i].indent > ts[i - 1].indent || (ts[i].indent == ts[i - 1].indent && IsItem(ts[i]) && !IsItem(ts[i - 1])))
  }

  /** At the column of an earlier line of its kind, with only deeper lines, or items of that
      column, between. */
  ghost predicate Continues(ts: seq<Token>, j: nat, i: nat)
    requires j < i < |ts|
  {
    && ts[j].indent == ts[i].indent && IsItem(ts[j]) == IsItem(ts[i])
    && forall l :: j < l < i ==> Within(ts[i].indent, ts[l])
  }

  predicate Within(c: nat, t: Token) {
    t.indent > c || (t.indent == c && IsItem(t))
  }

  ghost predicate Fits(ts: seq<Token>, i: nat)
    requires i < |ts|
  {
    || i == 0
    || OpensHere(ts, i)
    || (exists j :: 0 <= j < i && HangsBelow(ts, j, i))
    || (exists j :: 0 <= j < i && Continues(ts, j, i))
  }

  /** The first `n` lines fit, and the next one does not. */
  ghost predicate FitsTo(ts: seq<Token>, n: nat) {
    n <= |ts| && (forall i :: 0 <= i < n ==> Fits(ts, i)) && (n < |ts| ==> !Fits(ts, n))
  }

  // ----- dropping lines from the front -----

  /** None of the first lines is why line `k` fits. */
  ghost predicate HeadEnds(ts: seq<Token>, m: nat, k: nat)
    requires m < k < |ts|
  {
    forall j :: 0 <= j < m ==> !HangsBelow(ts, j, k) && !Continues(ts, j, k)
  }

  lemma HangsLater(ts: seq<Token>, m: nat, j: nat, k: nat)
    requires j < k < |ts| - m && HangsBelow(ts[m..], j, k)
    ensures HangsBelow(ts, m + j, m + k)
  {
    var tail := ts[m..];
    forall l | m + j < l <= m + k ensures ts[l].indent > ts[m + j].indent {
      assert tail[l - m] == ts[l];
    }
  }

  lemma ContinuesLater(ts: seq<Token>, m: nat, j: nat, k: nat)
    requires j < k < |ts| - m && Continues(ts[m..], j, k)
    ensures Continues(ts, m + j, m + k)
  {
    var tail := ts[m..];
    forall l | m + j < l < m + k ensures Within(ts[m + k].indent, ts[l]) {
      assert tail[l - m] == ts[l];
    }
  }

  lemma FitsLater(ts: seq<Token>, m: nat, i: nat)
    requires m < i < |ts| && Fits(ts[m..], i - m)
    ensures Fits(ts, i)
  {
    hide HangsBelow, Continues;
    var tail, k := ts[m..], i - m;
    if j :| 0 <= j < k && HangsBelow(tail, j, k) {
      HangsLater(ts, m, j, k);
    } else if j :| 0 <= j < k && Continues(tail, j, k) {
      ContinuesLater(ts, m, j, k);
    }
  }

  /** A line that fits fits without the first lines too, unless one of them is why. */
  lemma FitsSooner(ts: seq<Token>, m: nat, i: nat)
    requires m < i < |ts| && Fits(ts, i) && HeadEnds(ts, m, i)
    ensures Fits(ts[m..], i - m)
  {
    var tail := ts[m..];
    if j :| 0 <= j < i && HangsBelow(ts, j, i) {
      assert HangsBelow(tail, j - m, i - m);
    } else if j :| 0 <= j < i && Continues(ts, j, i) {
      assert Continues(tail, j - m, i - m);
    }
  }

  // ----- entries -----

  /** The first `m` lines are one entry of a map at column `c`, and nothing else goes on it. */
  ghost predicate MapChunk(c: nat, ts: seq<Token>, m: nat) {
    && 1 <= m <= |ts| && Keyed(c, ts)
    && (forall i :: 0 <= i < m ==> Fits(ts, i))
    && (forall i :: 1 <= i < m ==> Within(c, ts[i]))
    && (m < |ts| && !Keyed(c, ts[m..]) ==> !Fits(ts, m))
  }

  ghost predicate SeqChunk(c: nat, ts: seq<Token>, m: nat) {
    && 1 <= m <= |ts| && Itemed(c, ts)
    && (forall i :: 0 <= i < m ==> Fits(ts, i))
    && (forall i :: 1 <= i < m ==> ts[i].indent > c)
    && (m < |ts| && !Itemed(c, ts[m..]) ==> !Fits(ts, m))
  }

  lemma LoneKey(c: nat, ts: seq<Token>)
    requires Keyed(c, ts) && (1 < |ts| ==> !OpensHere(ts, 1))
    ensures MapChunk(c, ts, 1)
  {
  }

  lemma KeyOverBlock(c: nat, ts: seq<Token>, n: nat)
    requires Keyed(c, ts) && 1 < |ts| && OpensHere(ts, 1) && 1 <= n && FitsTo(ts[1..], n)
    requires forall i :: 0 <= i < n ==> Within(c, ts[1..][i])
    ensures MapChunk(c, ts, 1 + n)
  {
    hide Fits, Opens, Within;
    HeadFits(ts);
    forall i | 1 < i < 1 + n ensures Fits(ts, i) {
      FitsLater(ts, 1, i);
    }
    forall i | 1 <= i < 1 + n ensures Within(c, ts[i]) {
      assert ts[i] == ts[1..][i - 1];
    }
    var m := 1 + n;
    if m < |ts| && !Keyed(c, ts[m..]) && Fits(ts, m) {
      assert !HangsBelow(ts, 0, m) && !Continues(ts, 0, m);
      FitsSooner(ts, 1, m);
    }
  }

  lemma HeadFits(ts: seq<Token>)
    requires ts != []
    ensures Fits(ts, 0) && (1 < |ts| && OpensHere(ts, 1) ==> Fits(ts, 1))
  {
  }

  lemma ColumnFits(ts: seq<Token>, j: nat, i: nat)
    requires j < i < |ts| && (Continues(ts, j, i) || HangsBelow(ts, j, i))
    ensures Fits(ts, i)
  {
  }

  lemma LoneItem(c: nat, ts: seq<Token>)
    requires Itemed(c, ts) && (1 < |ts| ==> !OpensHere(ts, 1) && !HangsBelow(ts, 0, 1))
    ensures SeqChunk(c, ts, 1)
  {
  }

  lemma ItemOverBlock(c: nat, ts: seq<Token>, n: nat)
    requires Itemed(c, ts) && Opens(ts[0]) && !Swallows(ts[0]) && 1 < |ts| && ts[1].indent > c && 1 <= n && FitsTo(ts[1..], n)
    requires forall i :: 0 <= i < n ==> ts[1..][i].indent > c
    ensures SeqChunk(c, ts, 1 + n)
  {
    hide Fits, Opens, Within, Swallows, SplitKey, Inline;
    HeadFits(ts);
    forall i | 1 < i < 1 + n ensures Fits(ts, i) {
      FitsLater(ts, 1, i);
    }
    forall i | 1 <= i < 1 + n ensures ts[i].indent > c {
      assert ts[i] == ts[1..][i - 1];
    }
    var m := 1 + n;
    if m < |ts| && !Itemed(c, ts[m..]) && Fits(ts, m) {
      assert !HangsBelow(ts, 0, m) && !Continues(ts, 0, m);
      FitsSooner(ts, 1, m);
    }
  }

  lemma KeyedItemChunk(c: nat, ts: seq<Token>)
    requires Itemed(c, ts) && Swallows(ts[0])
    ensures SeqChunk(c, ts, 1 + Deeper(c, ts[1..]))
  {
    hide SplitKey, Inline, Fits;
    HeadFits(ts);
    var m := 1 + Deeper(c, ts[1..]);
    forall i | 1 <= i < m ensures ts[i].indent > c {
      assert ts[i] == ts[1..][i - 1];
    }
    forall i | 1 <= i < m ensures Fits(ts, i) {
      ColumnFits(ts, 0, i);
    }
    if m < |ts| {
      assert ts[m] == ts[1..][m - 1] && ts[m].indent <= c;
      if !Itemed(c, ts[m..]) { ShallowEnds(c, ts, m); }
    }
  }

  lemma ShallowEnds(c: nat, ts: seq<Token>, m: nat)
    requires Itemed(c, ts) && 1 <= m < |ts| && !Itemed(c, ts[m..]) && ts[m].indent <= c
    requires forall i :: 1 <= i < m ==> ts[i].indent > c
    ensures !Fits(ts, m)
  {
    hide Opens, Swallows;
    assert ts[m..][0] == ts[m];
  }

  // ----- loops -----

  /** An entry's lines do not carry on past the next line at the loop's column. */
  lemma MapHeadEnds(c: nat, ts: seq<Token>, m: nat, k: nat, j: nat)
    requires MapChunk(c, ts, m) && j < m < k < |ts| && Keyed(c, ts[m..])
    ensures !HangsBelow(ts, j, k) && !Continues(ts, j, k)
  {
    hide Fits;
    assert ts[m..][0] == ts[m];
    assert j > 0 ==> Within(c, ts[j]);
  }

  lemma SeqHeadEnds(c: nat, ts: seq<Token>, m: nat, k: nat, j: nat)
    requires SeqChunk(c, ts, m) && j < m < k < |ts| && Itemed(c, ts[m..]) && !Itemed(c, ts[k..])
    ensures !HangsBelow(ts, j, k) && !Continues(ts, j, k)
  {
    hide Fits;
    assert ts[m..][0] == ts[m] && ts[k..][0] == ts[k];
    assert j > 0 ==> ts[j].indent > c;
  }

  lemma SecondColumn(c: nat, ts: seq<Token>, m: nat)
    requires m < |ts| && ((MapChunk(c, ts, m) && Keyed(c, ts[m..])) || (SeqChunk(c, ts, m) && Itemed(c, ts[m..])))
    ensures Fits(ts, m)
  {
    hide Fits;
    assert ts[m..][0] == ts[m];
    ColumnFits(ts, 0, m);
  }

  /** Two stretches of one loop. */
  lemma FitsOn(ts: seq<Token>, m: nat, n: nat)
    requires 1 <= m && 1 <= n && m + n <= |ts| && (forall i :: 0 <= i <= m ==> Fits(ts, i)) && FitsTo(ts[m..], n)
    requires m + n < |ts| ==> HeadEnds(ts, m, m + n)
    ensures FitsTo(ts, m + n)
  {
    hide Fits, HangsBelow, Continues;
    var k := m + n;
    forall i | m < i < k ensures Fits(ts, i) {
      FitsLater(ts, m, i);
    }
    if k < |ts| && Fits(ts, k) {
      FitsSooner(ts, m, k);
    }
  }

  /** What a map loop at column `c` has taken is followed by nothing of its own. */
  lemma MapChunks(c: nat, ts: seq<Token>, m: nat, n: nat)
    requires MapChunk(c, ts, m) && m < |ts| && Keyed(c, ts[m..]) && FitsTo(ts[m..], n) && n >= 1
    requires forall i :: 0 <= i < n ==> ts[m..][i].indent >= c
    ensures FitsTo(ts, m + n) && forall i :: 0 <= i < m + n ==> ts[i].indent >= c
  {
    hide Fits, HangsBelow, Continues;
    SecondColumn(c, ts, m);
    var k := m + n;
    if k < |ts| {
      forall j | 0 <= j < m ensures !HangsBelow(ts, j, k) && !Continues(ts, j, k) {
        MapHeadEnds(c, ts, m, k, j);
      }
    }
    FitsOn(ts, m, n);
    forall i | m <= i < m + n ensures ts[i].indent >= c {
      assert ts[i] == ts[m..][i - m];
    }
  }

  lemma MapChunkEnds(c: nat, ts: seq<Token>, m: nat)
    requires MapChunk(c, ts, m) && !Keyed(c, ts[m..])
    ensures FitsTo(ts, m) && forall i :: 0 <= i < m ==> ts[i].indent >= c
  {
    hide Fits;
  }

  lemma SeqChunks(c: nat, ts: seq<Token>, m: nat, n: nat)
    requires SeqChunk(c, ts, m) && m < |ts| && Itemed(c, ts[m..]) && FitsTo(ts[m..], n) && n >= 1
    requires forall i :: 0 <= i < n ==> Within(c, ts[m..][i])
    requires !Itemed(c, ts[m + n..])
    ensures FitsTo(ts, m + n) && forall i :: 0 <= i < m + n ==> Within(c, ts[i])
  {
    hide Fits, HangsBelow, Continues;
    SecondColumn(c, ts, m);
    var k := m + n;
    if k < |ts| {
      forall j | 0 <= j < m ensures !HangsBelow(ts, j, k) && !Continues(ts, j, k) {
        SeqHeadEnds(c, ts, m, k, j);
      }
    }
    FitsOn(ts, m, n);
    forall i | m <= i < m + n ensures Within(c, ts[i]) {
      assert ts[i] == ts[m..][i - m];
    }
  }

  lemma SeqChunkEnds(c: nat, ts: seq<Token>, m: nat)
    requires SeqChunk(c, ts, m) && !Itemed(c, ts[m..])
    ensures FitsTo(ts, m) && forall i :: 0 <= i < m ==> Within(c, ts[i])
  {
    hide Fits;
  }

  /** The lines a block takes: none left of its column, and in a sequence only items at it. */
  ghost predicate BlockLines(ts: seq<Token>, n: nat)
    requires ts != [] && n <= |ts|
  {
    forall i :: 0 <= i < n ==> ts[i].indent >= ts[0].indent && (IsItem(ts[0]) ==> Within(ts[0].indent, ts[i]))
  }

  lemma {:induction false} BlockFits(ts: seq<Token>)
    requires ts != [] && ParseBlock(ts).Ok?
    ensures FitsTo(ts, ParseBlock(ts).value.1) && BlockLines(ts, ParseBlock(ts).value.1)
    decreases Weight(ts), 3
  {
    hide SplitKey, Inline, IsSeqItem, Fits;
    if IsItem(ts[0]) {
      SeqFits(ts[0].indent, ts, []);
    } else {
      MapFits(ts[0].indent, ts, map[]);
    }
  }

  lemma {:induction false} MapFits(c: nat, ts: seq<Token>, acc: map<string, Value>)
    requires Keyed(c, ts) && MapLoop(c, ts, acc).Ok?
    ensures FitsTo(ts, MapLoop(c, ts, acc).value.1)
    ensures forall i :: 0 <= i < MapLoop(c, ts, acc).value.1 ==> ts[i].indent >= c
    decreases Weight(ts), 2
  {
    hide SplitKey, Inline, IsSeqItem, FitsTo, MapChunk, MapEntry;
    var (key, v, m) := MapEntry(c, ts).value;
    EntryFits(c, ts);
    WeightDrop(ts, m);
    MapRound(c, ts, acc, key, v, m);
    if Keyed(c, ts[m..]) {
      MapFits(c, ts[m..], acc[key := v]);
      MapChunks(c, ts, m, MapLoop(c, ts[m..], acc[key := v]).value.1);
    } else {
      MapChunkEnds(c, ts, m);
    }
  }

  lemma {:induction false} EntryFits(c: nat, ts: seq<Token>)
    requires Keyed(c, ts) && MapEntry(c, ts).Ok?
    ensures MapChunk(c, ts, MapEntry(c, ts).value.2)
    decreases Weight(ts), 1
  {
    hide Inline, Fits;
    WeightDrop(ts, 1);
    var rest := SplitKey(ts[0].text).value.1;
    if rest == "" && Nests(c, ts[1..]) {
      assert OpensHere(ts, 1);
      BlockFits(ts[1..]);
      KeyOverBlock(c, ts, ParseBlock(ts[1..]).value.1);
    } else {
      LoneKey(c, ts);
    }
  }

  lemma {:induction false} SeqFits(c: nat, ts: seq<Token>, acc: seq<Value>)
    requires Itemed(c, ts) && SeqLoop(c, ts, acc).Ok?
    ensures FitsTo(ts, SeqLoop(c, ts, acc).value.1)
    ensures forall i :: 0 <= i < SeqLoop(c, ts, acc).value.1 ==> Within(c, ts[i])
    decreases Weight(ts), 2
  {
    hide SplitKey, Inline, IsSeqItem, FitsTo, SeqChunk, SeqEntry, Within;
    var (v, m) := SeqEntry(c, ts).value;
    ItemFits(c, ts);
    WeightDrop(ts, m);
    if Itemed(c, ts[m..]) {
      SeqFits(c, ts[m..], acc + [v]);
      var n := SeqLoop(c, ts[m..], acc + [v]).value.1;
      SeqStops(c, ts[m..], acc + [v]);
      assert ts[m..][n..] == ts[m + n..];
      SeqChunks(c, ts, m, n);
    } else {
      SeqChunkEnds(c, ts, m);
    }
  }

  lemma {:induction false} SeqStops(c: nat, ts: seq<Token>, acc: seq<Value>)
    requires SeqLoop(c, ts, acc).Ok?
    ensures !Itemed(c, ts[SeqLoop(c, ts, acc).value.1..])
    decreases Weight(ts)
  {
    hide SplitKey, Inline, IsSeqItem;
    if Itemed(c, ts) {
      var (v, m) := SeqEntry(c, ts).value;
      WeightDrop(ts, m);
      SeqStops(c, ts[m..], acc + [v]);
      var n := SeqLoop(c, ts[m..], acc + [v]).value.1;
      assert ts[m..][n..] == ts[m + n..];
    }
  }

  lemma {:induction false} ItemFits(c: nat, ts: seq<Token>)
    requires Itemed(c, ts) && SeqEntry(c, ts).Ok?
    ensures SeqChunk(c, ts, SeqEntry(c, ts).value.1)
    decreases Weight(ts), 1
  {
    hide SplitKey, IsSeqItem, Fits;
    WeightDrop(ts, 1);
    if Swallows(ts[0]) {
      KeyedItemChunk(c, ts);
    } else if Inline(ts[0].text) == "" && ts[1..] != [] && ts[1].indent > c {
      BlockFits(ts[1..]);
      ItemOverBlock(c, ts, ParseBlock(ts[1..]).value.1);
    } else {
      LoneItem(c, ts);
    }
  }

  // ----- what follows -----

  /** Where its lines parse at all, a document is accepted exactly when every line fits. */
  lemma DocumentParsesIff(ts: seq<Token>)
    requires ts != [] && ParseBlock(ts).Ok?
    ensures ParseTokens(ts).Ok? <==> forall i :: 0 <= i < |ts| ==> Fits(ts, i)
  {
    BlockFits(ts);
  }

  /** A `- key: …` item loses none of its deeper lines exactly when every one of them fits the
      synthetic block, in which the item's own text stands two columns past the dash. Otherwise
      the lines from the first that does not fit are dropped, and no error is given. */
  lemma ItemLosesNothingIff(d: nat, ts: seq<Token>)
    requires Itemed(d, ts) && Swallows(ts[0]) && SeqEntry(d, ts).Ok?
    ensures var n := Deeper(d, ts[1..]);
      var sub := SubBlock(d, Inline(ts[0].text), ts[1..1 + n]);
      && SeqEntry(d, ts).value.1 == 1 + n
      && ParseBlock(sub).Ok? && SeqEntry(d, ts).value.0 == ParseBlock(sub).value.0
      && FitsTo(sub, ParseBlock(sub).value.1)
      && (ParseBlock(sub).value.1 == |sub| <==> forall i :: 0 <= i < |sub| ==> Fits(sub, i))
  {
    hide SplitKey, IsSeqItem, Fits;
    var n := Deeper(d, ts[1..]);
    BlockFits(SubBlock(d, Inline(ts[0].text), ts[1..1 + n]));
  }

  /** In particular, any line less than two columns past the dash is lost, with all that follow. */
  lemma StrayColumnIsLost(d: nat, ts: seq<Token>, i: nat)
    requires Itemed(d, ts) && Swallows(ts[0]) && SeqEntry(d, ts).Ok? && 1 <= i <= Deeper(d, ts[1..]) && ts[i].indent < d + 2
    ensures ParseBlock(SubBlock(d, Inline(ts[0].text), ts[1..1 + Deeper(d, ts[1..])])).value.1 <= i
  {
    hide SplitKey, IsSeqItem, Fits;
    var n := Deeper(d, ts[1..]);
    var sub := SubBlock(d, Inline(ts[0].text), ts[1..1 + n]);
    BlockFits(sub);
    assert sub[i] == ts[1..1 + n][i - 1] == ts[i];
  }
}
