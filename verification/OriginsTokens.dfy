/** What the YAML parser reads on a line, and on the lines the editor writes
    (internal/config/yaml/yaml.go, internal/config/persist_origins.go). */
module OriginsTokens {
  import opened Model
  import opened Yaml
  import opened YamlFrames
  import opened YamlEdits
  import opened OriginsEditor

  // ----- plain text -----

  predicate PlainChar(c: char) {
    '!' <= c <= '~' && c != '"' && c != '\'' && c != '\\' && c != '#'
  }

  predicate PlainText(s: string) {
    s != "" && forall i :: 0 <= i < |s| ==> PlainChar(s[i])
  }

  predicate PlainKey(s: string) {
    PlainText(s) && ':' !in s
  }

  lemma TrimExact(s: string)
    requires s == "" || (!IsSpace(s[0]) && !IsSpace(s[|s| - 1]))
    ensures Trim(s) == s && TrimRight(s) == s
  {
  }

  lemma {:induction false} StripPlain(s: string, i: nat, inS: bool, inD: bool)
    requires i <= |s| && '#' !in s
    ensures StripFrom(s, i, inS, inD) == s
    decreases |s| - i
  {
    if i < |s| {
      assert s[i] in s;
      StripPlain(s, i + 1, if s[i] == '\'' && !inD then !inS else inS, if s[i] == '"' && !inS && !(s[i] == '\'' && !inD) then !inD else inD);
    }
  }

  lemma {:induction false} SpacesOfPad(n: nat, text: string)
    requires text != "" && text[0] != ' '
    ensures Spaces(Pad(n) + text) == n
  {
    if n == 0 {
      assert Pad(n) + text == text;
    } else {
      assert Pad(n)[1..] == Pad(n - 1);
      assert (Pad(n) + text)[1..] == Pad(n - 1) + text;
      SpacesOfPad(n - 1, text);
    }
  }

  /** A rendered line reads back as its text at its indent. */
  lemma RenderedLine(n: nat, text: string)
    requires text != "" && !IsSpace(text[0]) && !IsSpace(text[|text| - 1]) && '#' !in text && text != "---"
    ensures TokenOf(Pad(n) + text) == Ok(Some(Token(n, text)))
  {
    var line := Pad(n) + text;
    SpacesOfPad(n, text);
    assert line[n..] == text;
    assert text[0] in text;
    TrimExact(text);
    StripPlain(text, 0, false, false);
  }

  lemma {:induction false} SeparatorAfter(key: string, rest: string)
    requires ':' !in key
    ensures Separator(key + (": " + rest)) == |key|
  {
    var s := key + (": " + rest);
    if key != "" {
      assert key[0] in key;
      assert s[1..] == key[1..] + (": " + rest);
      SeparatorAfter(key[1..], rest);
    }
  }

  lemma {:induction false} NoSeparator(key: string)
    requires ':' !in key
    ensures Separator(key + ":") == |key| + 1
  {
    var s := key + ":";
    if key != "" {
      assert key[0] in key;
      assert s[1..] == key[1..] + ":";
      NoSeparator(key[1..]);
    }
  }

  lemma PlainEnds(s: string)
    requires PlainText(s)
    ensures !IsSpace(s[0]) && !IsSpace(s[|s| - 1]) && '#' !in s && '"' !in s && '\\' !in s && '\n' !in s && ' ' !in s
  {
    assert PlainChar(s[0]) && PlainChar(s[|s| - 1]);
    forall c | c in s ensures PlainChar(c) {
      var i :| 0 <= i < |s| && s[i] == c;
    }
  }

  lemma SplitValue(key: string, value: string)
    requires PlainKey(key) && value != "" && !IsSpace(value[0]) && !IsSpace(value[|value| - 1])
    ensures SplitKey(key + ": " + value) == Some((key, value))
  {
    var s := key + (": " + value);
    assert key + ": " + value == s;
    PlainEnds(key);
    SeparatorAfter(key, value);
    assert s[..|key|] == key && s[|key| + 2..] == value;
    TrimExact(key);
    TrimExact(value);
  }

  lemma SplitBare(key: string)
    requires PlainKey(key)
    ensures SplitKey(key + ":") == Some((key, ""))
  {
    var s := key + ":";
    PlainEnds(key);
    NoSeparator(key);
    assert s[..|s| - 1] == key;
    TrimExact(key);
  }

  lemma NotSeqItem(key: string, rest: string)
    requires PlainKey(key) && rest != "" && rest[0] == ':'
    ensures !IsSeqItem(key + rest) && key + rest != "---"
  {
    PlainEnds(key);
    var s := key + rest;
    assert s[|key|] == ':';
    if |key| >= 2 { assert s[1] == key[1] && key[1] in key; }
  }

  lemma {:induction false} UnescapePlain(s: string)
    requires '"' !in s && '\\' !in s && '\n' !in s
    ensures Unescape(s) == Some(s)
  {
    if s != "" {
      assert s[0] in s;
      UnescapePlain(s[1..]);
      assert [s[0]] + s[1..] == s;
    }
  }

  lemma QuotedReadsBack(s: string)
    requires PlainText(s)
    ensures ParseScalar(Quote(s)) == Str(s)
  {
    var q := Quote(s);
    PlainEnds(s);
    TrimExact(q);
    assert q[1..|q| - 1] == s;
    UnescapePlain(s);
  }

  // ----- lines to tokens -----

  lemma TokensSnoc(lines: seq<string>, last: string)
    ensures Tokens(lines + [last])
         == match Tokens(lines)
            case Err => Err
            case Ok(ts) =>
              match TokenOf(last)
              case Err => Err
              case Ok(None) => Ok(ts)
              case Ok(Some(t)) => Ok(ts + [t])
  {
    assert (lines + [last])[..|lines + [last]| - 1] == lines;
  }

  lemma {:induction false} TokensAppend(a: seq<string>, b: seq<string>)
    ensures Tokens(a + b)
         == match Tokens(a)
            case Err => Err
            case Ok(ta) => match Tokens(b) case Err => Err case Ok(tb) => Ok(ta + tb)
  {
    if b == [] {
      assert a + b == a;
      if Tokens(a).Ok? { assert Tokens(a).value + [] == Tokens(a).value; }
    } else {
      var init, last := b[..|b| - 1], b[|b| - 1];
      TokensAppend(a, init);
      assert a + b == (a + init) + [last] && b == init + [last];
      TokensSnoc(a + init, last);
      TokensSnoc(init, last);
      if Tokens(a).Ok? && Tokens(init).Ok? && TokenOf(last).Ok? && TokenOf(last).value.Some? {
        assert Tokens(a).value + Tokens(init).value + [TokenOf(last).value.value]
            == Tokens(a).value + (Tokens(init).value + [TokenOf(last).value.value]);
      }
    }
  }

  lemma OneToken(line: string, t: Token)
    requires TokenOf(line) == Ok(Some(t))
    ensures Tokens([line]) == Ok([t])
  {
    var none: seq<string> := [];
    var nothing: seq<Token> := [];
    TokensSnoc(none, line);
    assert none + [line] == [line] && nothing + [t] == [t];
  }

  lemma ThreeTokens(a: string, b: string, c: string, r: Token, s: Token, t: Token)
    requires TokenOf(a) == Ok(Some(r)) && TokenOf(b) == Ok(Some(s)) && TokenOf(c) == Ok(Some(t))
    ensures Tokens([a, b, c]) == Ok([r] + [s, t])
  {
    OneToken(a, r);
    TokensSnoc([a], b);
    TokensSnoc([a, b], c);
    assert [a] + [b] == [a, b] && [a, b] + [c] == [a, b, c] && [r] + [s] + [t] == [r] + [s, t];
  }

  // ----- a line of its own, and a block under a line -----

  /** The token of a line `key: value`. */
  function ValueToken(k: nat, key: string, value: string): Token {
    Token(k, key + ": " + value)
  }

  function BareToken(k: nat, key: string): Token {
    Token(k, key + ":")
  }

  ghost predicate SetsLine(t: Token, k: nat, key: string, value: string) {
    t.indent == k && !IsSeqItem(t.text) && SplitKey(t.text) == Some((key, value)) && value != ""
  }

  ghost predicate Tight(value: string) {
    value != "" && !IsSpace(value[0]) && !IsSpace(value[|value| - 1]) && '#' !in value
  }

  lemma Regroup(a: string, b: string, c: string)
    ensures a + b + c == a + (b + c)
  {
  }

  lemma ValueLine(k: nat, key: string, value: string)
    requires PlainKey(key) && Tight(value)
    ensures TokenOf(Pad(k) + (key + ": " + value)) == Ok(Some(ValueToken(k, key, value)))
    ensures SetsLine(ValueToken(k, key, value), k, key, value)
  {
    var text := key + ": " + value;
    assert text == key + (": " + value) by { Regroup(key, ": ", value); }
    assert !IsSeqItem(text) && text != "---" by { NotSeqItem(key, ": " + value); }
    assert text[0] == key[0] && !IsSpace(text[0]) && '#' !in text && text[|text| - 1] == value[|value| - 1] by { PlainEnds(key); }
    SplitValue(key, value);
    RenderedLine(k, text);
  }

  lemma BareLine(k: nat, key: string)
    requires PlainKey(key)
    ensures TokenOf(Pad(k) + (key + ":")) == Ok(Some(BareToken(k, key))) && KeyLine(BareToken(k, key), k, key)
  {
    PlainEnds(key);
    NotSeqItem(key, ":");
    SplitBare(key);
    assert (key + ":")[0] == key[0];
    RenderedLine(k, key + ":");
  }

  lemma LineSets(k: nat, t: Token, key: string, value: string)
    requires SetsLine(t, k, key, value)
    ensures Sets(k, [t], key, ParseScalar(value))
  {
    var v := ParseScalar(value);
    assert [t][1..] == [];
    forall acc ensures MapLoop(k, [t], acc) == Ok((acc[key := v], 1)) {
      MapRound(k, [t], acc, key, v, 1);
      DeeperStops(k, [t][1..], acc[key := v]);
    }
  }

  lemma BlockSets(k: nat, h: Token, tb: seq<Token>, key: string, v: Value)
    requires KeyLine(h, k, key) && AllDeeper(k, tb) && ValueOf(tb) == Some(v)
    ensures Sets(k, [h] + tb, key, v)
  {
    assert ([h] + tb)[1..] == tb;
    forall acc ensures MapLoop(k, [h] + tb, acc) == Ok((acc[key := v], |[h] + tb|)) {
      BlockAtEnd(h, tb, k, key, acc, v);
    }
  }

  lemma TwoLines(k: nat, a: Token, b: Token, ka: string, kb: string, va: Value, vb: Value)
    requires Sets(k, [a], ka, va) && Sets(k, [b], kb, vb)
    ensures ValueOf([a, b]) == Some(Map(map[ka := va][kb := vb]))
  {
    var none: map<string, Value> := map[];
    assert [a] + [b] == [a, b];
    EntryInserted(k, [a], [b], kb, none[ka := va], vb);
  }

  // ----- one rendered entry -----

  /** The value an entry sets. */
  function EntryValue(backend: string, scope: string): Value {
    if scope == "" then Str(backend) else Map(map["addr" := Str(backend)]["scope" := ParseScalar(scope)])
  }

  function OriginTokens(service: string, backend: string, scope: string, k: nat): seq<Token> {
    if scope == "" then [ValueToken(k, service, Quote(backend))]
    else [BareToken(k, service)] + [ValueToken(k + 2, "addr", Quote(backend)), ValueToken(k + 2, "scope", scope)]
  }

  ghost predicate Writable(service: string, backend: string, scope: string) {
    PlainKey(service) && PlainText(backend) && (scope == "" || PlainText(scope))
  }

  lemma QuoteTight(s: string)
    requires PlainText(s)
    ensures Tight(Quote(s)) && Tight(s)
  {
    PlainEnds(s);
  }

  lemma FieldNames()
    ensures PlainKey("addr") && PlainKey("scope")
  {
  }

  /** The lines written for an entry are read as its tokens. */
  lemma OriginLinesTokens(service: string, backend: string, scope: string, k: nat)
    requires Writable(service, backend, scope)
    ensures Tokens(OriginLines(service, backend, scope, k)) == Ok(OriginTokens(service, backend, scope, k))
  {
    QuoteTight(backend);
    if scope == "" {
      ValueLine(k, service, Quote(backend));
      OneToken(Pad(k) + (service + ": " + Quote(backend)), ValueToken(k, service, Quote(backend)));
    } else {
      QuoteTight(scope);
      FieldNames();
      ScopedLinesTokens(service, backend, scope, k);
    }
  }

  lemma ScopedLinesTokens(service: string, backend: string, scope: string, k: nat)
    requires PlainKey(service) && Tight(Quote(backend)) && Tight(scope) && PlainKey("addr") && PlainKey("scope")
    ensures Tokens([Pad(k) + (service + ":"), Pad(k + 2) + ("addr" + ": " + Quote(backend)), Pad(k + 2) + ("scope" + ": " + scope)])
         == Ok([BareToken(k, service)] + [ValueToken(k + 2, "addr", Quote(backend)), ValueToken(k + 2, "scope", scope)])
  {
    BareLine(k, service);
    ValueLine(k + 2, "addr", Quote(backend));
    ValueLine(k + 2, "scope", scope);
    ThreeTokens(Pad(k) + (service + ":"), Pad(k + 2) + ("addr" + ": " + Quote(backend)), Pad(k + 2) + ("scope" + ": " + scope),
                BareToken(k, service), ValueToken(k + 2, "addr", Quote(backend)), ValueToken(k + 2, "scope", scope));
  }

  lemma PlainSets(service: string, quoted: string, k: nat)
    requires PlainKey(service) && Tight(quoted)
    ensures Sets(k, [ValueToken(k, service, quoted)], service, ParseScalar(quoted))
  {
    ValueLine(k, service, quoted);
    LineSets(k, ValueToken(k, service, quoted), service, quoted);
  }

  lemma ScopedSets(service: string, k: nat, a: Token, b: Token, v: Value)
    requires PlainKey(service) && a.indent == k + 2 && b.indent == k + 2 && ValueOf([a, b]) == Some(v)
    ensures Sets(k, [BareToken(k, service)] + [a, b], service, v)
  {
    var h := BareToken(k, service);
    assert KeyLine(h, k, service) by { BareLine(k, service); }
    PairSets(h, k, a, b, service, v);
  }

  lemma PairSets(h: Token, k: nat, a: Token, b: Token, key: string, v: Value)
    requires KeyLine(h, k, key) && a.indent == k + 2 && b.indent == k + 2 && ValueOf([a, b]) == Some(v)
    ensures Sets(k, [h] + [a, b], key, v)
  {
    BlockSets(k, h, [a, b], key, v);
  }

  /** And those tokens set exactly the entry's value. */
  lemma OriginTokensSet(service: string, backend: string, scope: string, k: nat)
    requires Writable(service, backend, scope)
    ensures Sets(k, OriginTokens(service, backend, scope, k), service, EntryValue(backend, scope))
  {
    QuoteTight(backend);
    QuotedReadsBack(backend);
    if scope == "" {
      PlainSets(service, Quote(backend), k);
    } else {
      QuoteTight(scope);
      FieldNames();
      ScopedBlock(backend, scope, k + 2);
      ScopedSets(service, k, ValueToken(k + 2, "addr", Quote(backend)), ValueToken(k + 2, "scope", scope), EntryValue(backend, scope));
    }
  }

  lemma ScopedBlock(backend: string, scope: string, k: nat)
    requires Tight(Quote(backend)) && Tight(scope) && ParseScalar(Quote(backend)) == Str(backend)
    requires PlainKey("addr") && PlainKey("scope")
    ensures ValueOf([ValueToken(k, "addr", Quote(backend)), ValueToken(k, "scope", scope)]) == Some(EntryValue(backend, scope))
  {
    var a, b := ValueToken(k, "addr", Quote(backend)), ValueToken(k, "scope", scope);
    ValueLine(k, "addr", Quote(backend));
    ValueLine(k, "scope", scope);
    LineSets(k, a, "addr", Quote(backend));
    LineSets(k, b, "scope", scope);
    TwoLines(k, a, b, "addr", "scope", Str(backend), ParseScalar(scope));
  }
}
