/** How the YAML parser's blocks depend on what surrounds them (internal/config/yaml/yaml.go):
    what follows a block does not change it, map loops compose, entries accumulate. */
module YamlFrames {
  import opened Model
  import opened Yaml

  /** Nothing at depth `k` or deeper can continue into `s`, a sequence at `k` included. */
  ghost predicate Boundary(k: nat, s: seq<Token>) {
    s == [] || s[0].indent < k || (s[0].indent == k && !IsSeqItem(s[0].text))
  }

  lemma {:induction false} DeeperFrame(d: nat, t: seq<Token>, s: seq<Token>)
    requires s == [] || s[0].indent <= d
    ensures Deeper(d, t + s) == Deeper(d, t)
  {
    if t == [] {
      assert t + s == s;
    } else {
      assert (t + s)[1..] == t[1..] + s;
      if t[0].indent > d { DeeperFrame(d, t[1..], s); }
    }
  }

  lemma Shifted(t: seq<Token>, s: seq<Token>, n: nat)
    requires n <= |t|
    ensures (t + s)[n..] == t[n..] + s
    ensures n >= 1 ==> (t + s)[1..n] == t[1..n]
  {
  }

  // ----- what follows a boundary does not change a block -----

  lemma {:induction false} FrameBlock(t: seq<Token>, s: seq<Token>, k: nat)
    requires t != [] && Boundary(k, s) && (t[0].indent > k || (t[0].indent == k && IsSeqItem(t[0].text)))
    ensures ParseBlock(t + s) == ParseBlock(t)
    decreases Weight(t), 3
  {
    if IsSeqItem(t[0].text) {
      FrameSeq(t[0].indent, t, s, [], k);
    } else {
      FrameMap(t[0].indent, t, s, map[], k);
    }
  }

  lemma {:induction false} FrameMapEntry(d: nat, t: seq<Token>, s: seq<Token>, k: nat)
    requires Boundary(k, s) && d >= k && Keyed(d, t)
    ensures MapEntry(d, t + s) == MapEntry(d, t)
    decreases Weight(t), 1
  {
    hide SplitKey, Inline;
    Shifted(t, s, 1);
    WeightDrop(t, 1);
    if Nests(d, t[1..]) {
      FrameBlock(t[1..], s, k);
    }
  }

  lemma {:induction false} FrameMap(d: nat, t: seq<Token>, s: seq<Token>, acc: map<string, Value>, k: nat)
    requires Boundary(k, s) && d > k
    ensures MapLoop(d, t + s, acc) == MapLoop(d, t, acc)
    decreases Weight(t), 2
  {
    if t == [] {
      assert t + s == s;
    } else if Keyed(d, t) {
      FrameMapEntry(d, t, s, k);
      if MapEntry(d, t).Ok? {
        var (key, v, n) := MapEntry(d, t).value;
        Shifted(t, s, n);
        WeightDrop(t, n);
        FrameMap(d, t[n..], s, acc[key := v], k);
      }
    }
  }

  lemma {:induction false} FrameSeqEntry(d: nat, t: seq<Token>, s: seq<Token>, k: nat)
    requires Boundary(k, s) && d >= k && Itemed(d, t)
    ensures SeqEntry(d, t + s) == SeqEntry(d, t)
    decreases Weight(t), 1
  {
    hide SplitKey, Inline, ParseScalar, IsSeqItem, ParseBlock;
    Shifted(t, s, 1);
    WeightDrop(t, 1);
    if Inline(t[0].text) == "" {
      if t[1..] != [] && t[1].indent > d {
        FrameBlock(t[1..], s, k);
      }
    } else {
      DeeperFrame(d, t[1..], s);
      Shifted(t, s, 1 + Deeper(d, t[1..]));
    }
  }

  lemma {:induction false} FrameSeq(d: nat, t: seq<Token>, s: seq<Token>, acc: seq<Value>, k: nat)
    requires Boundary(k, s) && d >= k
    ensures SeqLoop(d, t + s, acc) == SeqLoop(d, t, acc)
    decreases Weight(t), 2
  {
    if t == [] {
      assert t + s == s;
    } else if Itemed(d, t) {
      FrameSeqEntry(d, t, s, k);
      if SeqEntry(d, t).Ok? {
        var (v, n) := SeqEntry(d, t).value;
        Shifted(t, s, n);
        WeightDrop(t, n);
        FrameSeq(d, t[n..], s, acc + [v], k);
      }
    }
  }

  // ----- map loops compose -----

  /** A map loop over `a` and a boundary `s`: if it takes all of `a`, it goes on into `s` with
      what it has; if not, it stops or fails where it would have. */
  lemma {:induction false} MapSplit(k: nat, a: seq<Token>, s: seq<Token>, acc: map<string, Value>)
    requires Boundary(k, s)
    ensures var r := MapLoop(k, a, acc);
      MapLoop(k, a + s, acc) == if r.Ok? && r.value.1 == |a| then Advance(MapLoop(k, s, r.value.0), |a|) else r
    decreases |a|
  {
    hide SplitKey, Inline;
    if a == [] {
      assert a + s == s;
      AdvanceNone(MapLoop(k, s, acc));
    } else if Keyed(k, a) {
      FrameMapEntry(k, a, s, k);
      if MapEntry(k, a).Ok? {
        var (key, v, n) := MapEntry(k, a).value;
        MapRound(k, a, acc, key, v, n);
        MapRound(k, a + s, acc, key, v, n);
        Shifted(a, s, n);
        MapSplit(k, a[n..], s, acc[key := v]);
        var r := MapLoop(k, a[n..], acc[key := v]);
        if r.Ok? { AdvanceTwice(MapLoop(k, s, r.value.0), |a[n..]|, n); }
      }
    }
  }

  lemma AdvanceNone<T>(r: Parsed<T>)
    ensures Advance(r, 0) == r
  {
  }

  lemma AdvanceTwice<T>(r: Parsed<T>, m: nat, n: nat)
    ensures Advance(Advance(r, m), n) == Advance(r, n + m)
  {
  }

  /** One round of the loop. */
  lemma MapRound(d: nat, ts: seq<Token>, acc: map<string, Value>, key: string, v: Value, n: nat)
    requires Keyed(d, ts) && MapEntry(d, ts) == Ok((key, v, n))
    ensures MapLoop(d, ts, acc) == Advance(MapLoop(d, ts[n..], acc[key := v]), n)
  {
  }

  function Onto(base: map<string, Value>, p: Parsed<map<string, Value>>): Parsed<map<string, Value>> {
    match p case Err => Err case Ok((m, n)) => Ok((base + m, n))
  }

  lemma OntoRounds(base: map<string, Value>, here: Parsed<map<string, Value>>, there: Parsed<map<string, Value>>,
                   next: Parsed<map<string, Value>>, thereNext: Parsed<map<string, Value>>, n: nat)
    requires here == Advance(next, n) && there == Advance(thereNext, n) && thereNext == Onto(base, next)
    ensures there == Onto(base, here)
  {
  }

  lemma Overlay(base: map<string, Value>, acc: map<string, Value>, key: string, v: Value)
    ensures base + acc[key := v] == (base + acc)[key := v]
  {
  }

  /** A map loop started on top of other entries adds to them what it would have made. */
  lemma {:induction false} Accumulates(d: nat, ts: seq<Token>, base: map<string, Value>, acc: map<string, Value>)
    ensures MapLoop(d, ts, base + acc) == Onto(base, MapLoop(d, ts, acc))
    decreases |ts|
  {
    if Keyed(d, ts) && MapEntry(d, ts).Ok? {
      var (key, v, n) := MapEntry(d, ts).value;
      Accumulates(d, ts[n..], base, acc[key := v]);
      Overlay(base, acc, key, v);
      MapRound(d, ts, acc, key, v, n);
      MapRound(d, ts, base + acc, key, v, n);
      OntoRounds(base, MapLoop(d, ts, acc), MapLoop(d, ts, base + acc),
                 MapLoop(d, ts[n..], acc[key := v]), MapLoop(d, ts[n..], base + acc[key := v]), n);
    }
  }

  /** The key a token sets at depth `d`. */
  predicate SetsKey(d: nat, t: Token, key: string) {
    t.indent == d && !IsSeqItem(t.text) && SplitKey(t.text).Some? && SplitKey(t.text).value.0 == key
  }

  predicate NeverSets(d: nat, ts: seq<Token>, key: string) {
    forall t :: t in ts ==> !SetsKey(d, t, key)
  }

  /** A key no token of the loop's depth sets is not in what it makes. */
  lemma {:induction false} UnsetKey(d: nat, ts: seq<Token>, acc: map<string, Value>, key: string)
    requires key !in acc && NeverSets(d, ts, key)
    ensures MapLoop(d, ts, acc).Ok? ==> key !in MapLoop(d, ts, acc).value.0
    decreases |ts|
  {
    if Keyed(d, ts) && MapEntry(d, ts).Ok? {
      var (k, v, n) := MapEntry(d, ts).value;
      assert ts[0] in ts;
      UnsetKey(d, ts[n..], acc[k := v], key);
    }
  }

  // ----- what an item loses -----

  /** The block of a `- key: value` item is cut where its lines leave the column the item's own
      text is given, two past the dash; what follows belongs to the item all the same, so
      deeper lines at another column are taken and dropped without an error. An instance of
      lines that do not fit (YamlLayout.ItemLosesNothingIff). */
  lemma MisalignedLinesAreLost(d: nat, ts: seq<Token>, key: string, value: string)
    requires Itemed(d, ts) && !IsSeqItem(Inline(ts[0].text)) && Inline(ts[0].text) != ""
    requires SplitKey(Inline(ts[0].text)) == Some((key, value)) && value != ""
    requires Deeper(d, ts[1..]) > 0 && ts[1].indent != d + 2
    ensures SeqEntry(d, ts) == Ok((Map(map[key := ParseScalar(value)]), 1 + Deeper(d, ts[1..])))
  {
    hide SplitKey, Inline, IsSeqItem, ParseScalar;
    var n := Deeper(d, ts[1..]);
    var sub := SubBlock(d, Inline(ts[0].text), ts[1..1 + n]);
    var none: map<string, Value> := map[];
    assert sub[1..] == ts[1..1 + n];
    MapRound(d + 2, sub, none, key, ParseScalar(value), 1);
    assert none[key := ParseScalar(value)] == map[key := ParseScalar(value)];
  }
}
