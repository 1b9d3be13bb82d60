/** The YAML-subset decoder's own loops (internal/config/yaml/yaml.go): indices over the token
    list, proved against the functions of Yaml; the total remaining token text decreases. */
module YamlParser {
  import opened Model
  import opened Yaml
  import opened YamlFrames

  method StripLoop(s: string) returns (t: string)
    ensures t == StripComment(s)
  {
    var inS, inD := false, false;
    for i := 0 to |s|
      invariant StripFrom(s, i, inS, inD) == StripComment(s)
    {
      if s[i] == '\'' && !inD {
        inS := !inS;
      } else if s[i] == '"' && !inS {
        inD := !inD;
      } else if s[i] == '#' && !inS && !inD && i > 0 && (s[i - 1] == ' ' || s[i - 1] == '\t') {
        return TrimRight(s[..i]);
      }
    }
    t := s;
  }

  method Indentation(raw: string) returns (indent: nat)
    ensures indent == Spaces(raw)
  {
    indent := 0;
    while indent < |raw| && raw[indent] == ' '
      invariant indent <= |raw| && Spaces(raw) == indent + Spaces(raw[indent..])
    {
      indent := indent + 1;
    }
  }

  method ReadLine(raw: string) returns (r: Result<Option<Token>>)
    ensures r == TokenOf(raw)
  {
    var indent := Indentation(raw);
    if indent < |raw| && raw[indent] == '\t' {
      return Err;
    }
    var content := TrimRight(raw[indent..]);
    if content == "" || content[0] == '#' || content == "---" {
      return Ok(None);
    }
    var text := StripLoop(content);
    r := if Trim(text) == "" then Ok(None) else Ok(Some(Token(indent, text)));
  }

  method Tokenize(lines: seq<string>) returns (r: Result<seq<Token>>)
    ensures r == Tokens(lines)
  {
    var out: seq<Token> := [];
    for n := 0 to |lines|
      invariant Tokens(lines[..n]) == Ok(out)
    {
      assert lines[..n + 1][..n] == lines[..n];
      var t := ReadLine(lines[n]);
      if t.Err? {
        TokensErr(lines, n + 1);
        return Err;
      }
      if t.value.Some? {
        out := out + [t.value.value];
      }
    }
    assert lines[..|lines|] == lines;
    return Ok(out);
  }

  lemma {:induction false} TokensErr(lines: seq<string>, n: nat)
    requires n <= |lines| && Tokens(lines[..n]).Err?
    ensures Tokens(lines).Err?
    decreases |lines|
  {
    if n < |lines| {
      assert lines[..|lines| - 1][..n] == lines[..n];
      TokensErr(lines[..|lines| - 1], n);
    } else {
      assert lines[..n] == lines;
    }
  }

  /** The block at `toks[i]`, and the first index it does not take. */
  method ParseBlockAt(toks: seq<Token>, i: nat) returns (r: Result<(Value, nat)>)
    requires i < |toks|
    ensures r == Advance(ParseBlock(toks[i..]), i)
    decreases Weight(toks[i..]), 4
  {
    hide SplitKey, Inline;
    if IsSeqItem(toks[i].text) {
      var p := ParseSeqAt(toks, i);
      ListBlock(toks, i);
      r := AsList(p);
    } else {
      var p := ParseMapAt(toks, i);
      MapBlock(toks, i);
      r := AsMap(p);
    }
  }

  lemma ListBlock(toks: seq<Token>, i: nat)
    requires i < |toks| && IsSeqItem(toks[i].text)
    ensures Advance(ParseBlock(toks[i..]), i) == AsList(Advance(SeqLoop(toks[i].indent, toks[i..], []), i))
  {
    hide SplitKey, Inline;
  }

  lemma MapBlock(toks: seq<Token>, i: nat)
    requires i < |toks| && !IsSeqItem(toks[i].text)
    ensures Advance(ParseBlock(toks[i..]), i) == AsMap(Advance(MapLoop(toks[i].indent, toks[i..], map[]), i))
  {
    hide SplitKey, Inline;
  }

  lemma Later(toks: seq<Token>, i: nat, j: nat)
    requires i <= j <= |toks|
    ensures toks[i..][j - i..] == toks[j..] && Weight(toks[j..]) <= Weight(toks[i..])
    ensures i < j ==> Weight(toks[j..]) < Weight(toks[i..])
  {
    WeightDrop(toks[i..], j - i);
  }

  /** One `key: …` line and what belongs to it. */
  method MapEntryAt(toks: seq<Token>, i: nat, indent: nat) returns (r: Result<(string, Value, nat)>)
    requires i < |toks| && Keyed(indent, toks[i..])
    ensures MapEntry(indent, toks[i..]).Err? <==> r.Err?
    ensures r.Ok? ==> r.value.2 >= i && MapEntry(indent, toks[i..]) == Ok((r.value.0, r.value.1, r.value.2 - i))
    decreases Weight(toks[i..]), 0
  {
    hide SplitKey, Inline;
    Later(toks, i, i + 1);
    match SplitKey(toks[i].text)
    case None => return Err;
    case Some((key, rest)) =>
      if rest != "" {
        return Ok((key, ParseScalar(rest), i + 1));
      }
      if i + 1 < |toks| && (toks[i + 1].indent > indent || (toks[i + 1].indent == indent && IsSeqItem(toks[i + 1].text))) {
        var block := ParseBlockAt(toks, i + 1);
        match block {
          case Err => return Err;
          case Ok((v, next)) => return Ok((key, v, next));
        }
      }
      return Ok((key, Null, i + 1));
  }

  method ParseMapAt(toks: seq<Token>, start: nat) returns (r: Result<(map<string, Value>, nat)>)
    requires start < |toks| && !IsSeqItem(toks[start].text)
    ensures r == Advance(MapLoop(toks[start].indent, toks[start..], map[]), start)
    decreases Weight(toks[start..]), 3
  {
    var result: map<string, Value> := map[];
    var indent, i := toks[start].indent, start;
    ghost var whole := MapRest(toks, start, indent, map[]);
    while i < |toks| && toks[i].indent == indent && !IsSeqItem(toks[i].text)
      invariant start <= i <= |toks| && MapRest(toks, i, indent, result) == whole
    {
      Later(toks, start, i);
      var turn := MapTurn(toks, i, indent, result);
      if turn.Err? {
        return Err;
      }
      result, i := turn.value.0, turn.value.1;
    }
    MapDone(toks, i, indent, result);
    return Ok((result, i));
  }

  /** Reads one entry into the map read so far. */
  method MapTurn(toks: seq<Token>, i: nat, indent: nat, acc: map<string, Value>) returns (r: Parsed<map<string, Value>>)
    requires i < |toks| && Keyed(indent, toks[i..])
    ensures r.Err? ==> MapRest(toks, i, indent, acc) == Err
    ensures r.Ok? ==> i < r.value.1 <= |toks| && MapRest(toks, i, indent, acc) == MapRest(toks, r.value.1, indent, r.value.0)
    decreases Weight(toks[i..]), 1
  {
    hide SplitKey, Inline;
    var entry := MapEntryAt(toks, i, indent);
    MapStep(toks, i, indent, acc);
    if entry.Err? {
      return Err;
    }
    var (key, v, next) := entry.value;
    return Ok((acc[key := v], next));
  }

  lemma MapDone(toks: seq<Token>, i: nat, indent: nat, acc: map<string, Value>)
    requires i <= |toks| && !Keyed(indent, toks[i..])
    ensures MapRest(toks, i, indent, acc) == Ok((acc, i))
  {
  }

  /** What the map loop still makes of the tokens from `i` on. */
  ghost function MapRest(toks: seq<Token>, i: nat, indent: nat, acc: map<string, Value>): Parsed<map<string, Value>>
    requires i <= |toks|
  {
    Advance(MapLoop(indent, toks[i..], acc), i)
  }

  lemma MapStep(toks: seq<Token>, i: nat, indent: nat, acc: map<string, Value>)
    requires i < |toks| && Keyed(indent, toks[i..])
    ensures MapEntry(indent, toks[i..]).Err? ==> MapRest(toks, i, indent, acc) == Err
    ensures MapEntry(indent, toks[i..]).Ok? ==>
      var (key, v, n) := MapEntry(indent, toks[i..]).value;
      MapRest(toks, i, indent, acc) == MapRest(toks, i + n, indent, acc[key := v])
  {
    hide SplitKey, Inline;
    if MapEntry(indent, toks[i..]).Ok? {
      var (key, v, n) := MapEntry(indent, toks[i..]).value;
      MapRound(indent, toks[i..], acc, key, v, n);
      Later(toks, i, i + n);
      AdvanceTwice(MapLoop(indent, toks[i + n..], acc[key := v]), n, i);
    }
  }

  lemma ScalarItem(indent: nat, ts: seq<Token>)
    requires Itemed(indent, ts) && Inline(ts[0].text) != "" && SplitKey(Inline(ts[0].text)).None?
    ensures SeqEntry(indent, ts) == Ok((ParseScalar(Inline(ts[0].text)), 1))
  {
    hide SplitKey, Inline;
  }

  lemma KeyedItem(indent: nat, ts: seq<Token>, n: nat)
    requires Itemed(indent, ts) && Inline(ts[0].text) != "" && SplitKey(Inline(ts[0].text)).Some?
    requires n == Deeper(indent, ts[1..])
    ensures SeqEntry(indent, ts) ==
            match ParseBlock(SubBlock(indent, Inline(ts[0].text), ts[1..1 + n])) case Err => Err case Ok((v, _)) => Ok((v, 1 + n))
  {
    hide SplitKey, Inline;
  }

  /** One `- …` line and what belongs to it. */
  method SeqEntryAt(toks: seq<Token>, i: nat, indent: nat) returns (r: Result<(Value, nat)>)
    requires i < |toks| && Itemed(indent, toks[i..])
    ensures r == Advance(SeqEntry(indent, toks[i..]), i)
    decreases Weight(toks[i..]), 1
  {
    hide SplitKey, Inline;
    Later(toks, i, i + 1);
    var inline := Inline(toks[i].text);
    if inline == "" {
      if i + 1 < |toks| && toks[i + 1].indent > indent {
        r := ParseBlockAt(toks, i + 1);
        return;
      }
      return Ok((Null, i + 1));
    }
    if SplitKey(inline).None? {
      ScalarItem(indent, toks[i..]);
      return Ok((ParseScalar(inline), i + 1));
    }
    var n := CountDeeper(toks, i + 1, indent);
    assert toks[i..][1..1 + n] == toks[i + 1..i + 1 + n];
    KeyedItem(indent, toks[i..], n);
    var v := ItemBlock(toks, i, indent, inline, n);
    return if v.Ok? then Ok((v.value, i + 1 + n)) else Err;
  }

  /** The value of a `- key: …` item: its synthetic block, whose own leftovers are dropped. */
  method ItemBlock(toks: seq<Token>, i: nat, indent: nat, inline: string, n: nat) returns (r: Result<Value>)
    requires i + 1 + n <= |toks| && Itemed(indent, toks[i..]) && inline == Inline(toks[i].text)
    ensures r == match ParseBlock(SubBlock(indent, inline, toks[i + 1..i + 1 + n])) case Err => Err case Ok((v, _)) => Ok(v)
    decreases Weight(toks[i..]), 0
  {
    hide SplitKey, Inline;
    var sub := SubBlock(indent, inline, toks[i + 1..i + 1 + n]);
    assert Weight(sub) < Weight(toks[i..]) && sub[0..] == sub by {
      SubBlockWeighsLess(indent, toks[i..], n);
      assert toks[i..][1..1 + n] == toks[i + 1..i + 1 + n];
    }
    var block := ParseBlockAt(sub, 0);
    match block
    case Err => return Err;
    case Ok((v, _)) => return Ok(v);
  }

  method CountDeeper(toks: seq<Token>, from: nat, indent: nat) returns (n: nat)
    requires from <= |toks|
    ensures n == Deeper(indent, toks[from..])
  {
    n := 0;
    while from + n < |toks| && toks[from + n].indent > indent
      invariant from + n <= |toks| && Deeper(indent, toks[from..]) == n + Deeper(indent, toks[from + n..])
    {
      n := n + 1;
    }
  }

  method ParseSeqAt(toks: seq<Token>, start: nat) returns (r: Result<(seq<Value>, nat)>)
    requires start < |toks| && IsSeqItem(toks[start].text)
    ensures r == Advance(SeqLoop(toks[start].indent, toks[start..], []), start)
    decreases Weight(toks[start..]), 3
  {
    var list: seq<Value> := [];
    var indent, i := toks[start].indent, start;
    ghost var whole := SeqRest(toks, start, indent, []);
    while i < |toks| && toks[i].indent == indent && IsSeqItem(toks[i].text)
      invariant start <= i <= |toks| && SeqRest(toks, i, indent, list) == whole
    {
      Later(toks, start, i);
      var turn := SeqTurn(toks, i, indent, list);
      if turn.Err? {
        return Err;
      }
      list, i := turn.value.0, turn.value.1;
    }
    SeqDone(toks, i, indent, list);
    return Ok((list, i));
  }

  /** Reads one item onto the list read so far. */
  method SeqTurn(toks: seq<Token>, i: nat, indent: nat, acc: seq<Value>) returns (r: Parsed<seq<Value>>)
    requires i < |toks| && Itemed(indent, toks[i..])
    ensures r.Err? ==> SeqRest(toks, i, indent, acc) == Err
    ensures r.Ok? ==> i < r.value.1 <= |toks| && SeqRest(toks, i, indent, acc) == SeqRest(toks, r.value.1, indent, r.value.0)
    decreases Weight(toks[i..]), 2
  {
    hide SplitKey, Inline;
    var item := SeqEntryAt(toks, i, indent);
    if item.Err? {
      SeqStops(toks, i, indent, acc);
      return Err;
    }
    var (v, next) := item.value;
    SeqStep(toks, i, indent, acc, v, next - i);
    return Ok((acc + [v], next));
  }

  lemma SeqDone(toks: seq<Token>, i: nat, indent: nat, acc: seq<Value>)
    requires i <= |toks| && !Itemed(indent, toks[i..])
    ensures SeqRest(toks, i, indent, acc) == Ok((acc, i))
  {
  }

  /** What the sequence loop still makes of the tokens from `i` on. */
  ghost function SeqRest(toks: seq<Token>, i: nat, indent: nat, acc: seq<Value>): Parsed<seq<Value>>
    requires i <= |toks|
  {
    Advance(SeqLoop(indent, toks[i..], acc), i)
  }

  lemma SeqRound(d: nat, ts: seq<Token>, acc: seq<Value>, v: Value, n: nat)
    requires Itemed(d, ts) && SeqEntry(d, ts) == Ok((v, n))
    ensures SeqLoop(d, ts, acc) == Advance(SeqLoop(d, ts[n..], acc + [v]), n)
  {
  }

  lemma SeqStep(toks: seq<Token>, i: nat, indent: nat, acc: seq<Value>, v: Value, n: nat)
    requires i < |toks| && Itemed(indent, toks[i..]) && SeqEntry(indent, toks[i..]) == Ok((v, n))
    ensures SeqRest(toks, i, indent, acc) == SeqRest(toks, i + n, indent, acc + [v])
  {
    hide SeqLoop, SeqEntry;
    SeqRound(indent, toks[i..], acc, v, n);
    Later(toks, i, i + n);
    AdvanceTwice(SeqLoop(indent, toks[i + n..], acc + [v]), n, i);
  }

  lemma SeqStops(toks: seq<Token>, i: nat, indent: nat, acc: seq<Value>)
    requires i < |toks| && Itemed(indent, toks[i..]) && SeqEntry(indent, toks[i..]).Err?
    ensures SeqRest(toks, i, indent, acc) == Err
  {
  }

  /** A whole document. */
  method ParseDocument(lines: seq<string>) returns (r: Result<Value>)
    ensures r == Parse(lines)
  {
    var toks := Tokenize(lines);
    if toks.Err? {
      return Err;
    }
    if toks.value == [] {
      return Ok(Null);
    }
    assert toks.value[0..] == toks.value;
    var block := ParseBlockAt(toks.value, 0);
    match block
    case Err => return Err;
    case Ok((v, next)) => return if next == |toks.value| then Ok(v) else Err;
  }
}
