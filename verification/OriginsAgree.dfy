/** What the editor's scan passes over, the texts it leaves, and its third case, a block appended
    (internal/config/persist_origins.go). */
module OriginsAgree {
  import opened Model
  import opened Yaml
  import opened YamlFrames
  import opened YamlEdits
  import opened OriginsEditor
  import opened OriginsTokens
  import opened OriginsLaws

  // ----- what the scan has seen -----

  ghost predicate NoTabs(seen: seq<Sight>) {
    forall i :: 0 <= i < |seen| ==> seen[i].lead >= 0
  }

  /** A line the scan passes over for `service`: skipped, or indented and of another key. */
  predicate Passes(line: Sight, service: string) {
    line.skipped || (line.lead > 0 && line.key != service)
  }

  /** The scan passes over lines until the place it finds; an entry stands there. */
  lemma {:induction false} ScanFacts(seen: seq<Sight>, service: string, j: nat, block: nat)
    requires NoTabs(seen) && j <= |seen|
    ensures var p := Locate(seen, service, j, block);
      && p.indent > 0 && (forall i :: j <= i < p.at ==> Passes(seen[i], service))
      && (p.Over? ==> !seen[p.at].skipped && seen[p.at].lead == p.indent)
    decreases |seen| - j
  {
    if j < |seen| {
      if seen[j].skipped {
        ScanFacts(seen, service, j + 1, block);
      } else if seen[j].lead > 0 {
        var next := if block == 0 then seen[j].lead else block;
        if seen[j].lead >= next && seen[j].key != service {
          ScanFacts(seen, service, j + 1, next);
        }
      }
    }
  }

  lemma {:induction false} EntryEndFacts(seen: seq<Sight>, ind: int, j: nat)
    requires j <= |seen|
    ensures forall i :: j <= i < EntryEnd(seen, ind, j) ==> !seen[i].skipped && seen[i].lead > ind
    decreases |seen| - j
  {
    if j < |seen| && !seen[j].skipped && seen[j].lead > ind {
      EntryEndFacts(seen, ind, j + 1);
    }
  }

  // ----- the lines it has seen -----

  /** In a readable text no line starts with a tab. */
  lemma ReadableLine(lines: seq<string>, i: nat)
    requires Readable(lines) && i < |lines|
    ensures TokenOf(lines[i]).Ok? && Lead(lines[i]) >= 0
  {
    var pre, rest := lines[..i], lines[i + 1..];
    assert lines == pre + ([lines[i]] + rest);
    ReadableParts(pre, [lines[i]] + rest);
    ReadableParts([lines[i]], rest);
    var nothing: seq<string> := [];
    TokensSnoc(nothing, lines[i]);
    assert nothing + [lines[i]] == [lines[i]];
  }

  lemma ReadableNoTabs(lines: seq<string>)
    requires Readable(lines)
    ensures NoTabs(Look(lines))
  {
    forall i | 0 <= i < |lines| ensures Look(lines)[i].lead >= 0 {
      ReadableLine(lines, i);
    }
  }

  /** No token sets the key, at whatever depth. */
  ghost predicate NowhereSets(ts: seq<Token>, key: string) {
    forall d: nat :: NeverSets(d, ts, key)
  }

  /** Lines the scan has passed over are the block's, and set the service at no depth. */
  lemma PassedLines(lines: seq<string>, service: string, from: nat, to: nat)
    requires Readable(lines) && from <= to <= |lines| && ':' !in service
    requires forall i :: from <= i < to ==> Passes(Look(lines)[i], service)
    ensures Readable(lines[from..to]) && AllDeeper(0, Toks(lines[from..to])) && NowhereSets(Toks(lines[from..to]), service)
  {
    hide Trim, EditorKey, IsHeader, Skipped, Lead;
    var part := lines[from..to];
    assert Readable(part) by { PartReadable(lines, from, to); }
    forall i | 0 <= i < |part| ensures Child(part[i], 0) && !Shows(part[i], service) {
      assert Look(lines)[from + i] == See(part[i]);
    }
    ChildTokens(part, 0);
    forall d: nat ensures NeverSets(d, Toks(part), service) {
      UnseenIsUnset(part, d, service);
    }
  }

  lemma PartReadable(lines: seq<string>, from: nat, to: nat)
    requires Readable(lines) && from <= to <= |lines|
    ensures Readable(lines[from..to]) && Readable(lines[to..])
  {
    assert lines == lines[..from] + lines[from..] && lines[from..] == lines[from..to] + lines[to..];
    ReadableParts(lines[..from], lines[from..]);
    ReadableParts(lines[from..to], lines[to..]);
  }

  predicate Shows(line: string, key: string) {
    !Skipped(line) && EditorKey(line) == key
  }

  lemma {:induction false} UnseenIsUnset(lines: seq<string>, d: nat, service: string)
    requires Readable(lines) && ':' !in service && forall i :: 0 <= i < |lines| ==> !Shows(lines[i], service)
    ensures NeverSets(d, Toks(lines), service)
  {
    hide SplitKey, IsSeqItem, PlainLine, TokenOf, Shows;
    if lines != [] {
      var init, last := lines[..|lines| - 1], lines[|lines| - 1];
      assert lines == init + [last];
      ReadableParts(init, [last]);
      UnseenIsUnset(init, d, service);
      TokensSnoc(init, last);
      assert PlainLine(last) && TokenOf(last).Ok? by { assert [last][0] == last; ReadableLine([last], 0); }
      LastUnset(last, d, service);
    }
  }

  lemma LastUnset(line: string, d: nat, service: string)
    requires PlainLine(line) && TokenOf(line).Ok? && ':' !in service && !Shows(line, service)
    ensures TokenOf(line).value.Some? ==> !SetsKey(d, TokenOf(line).value.value, service)
  {
    hide SplitKey, IsSeqItem, Trim, EditorKey, PlainLine, TokenOf;
    LineReads(line);
    if NamesService(line, d, service) {
      EditorSeesKey(line, d, service);
    }
  }

  lemma PlainKeyHasNone(key: string)
    requires PlainKey(key)
    ensures ':' !in key
  {
  }

  /** The line the editor takes over and the deeper ones it swallows. */
  lemma TakenLines(lines: seq<string>, at: nat, ind: nat, end: nat)
    requires at < end <= |lines| && !Look(lines)[at].skipped && Look(lines)[at].lead == ind && end == EntryEnd(Look(lines), ind, at + 1)
    ensures EntryLines(lines[at..end], ind)
  {
    hide Trim, EditorKey, IsHeader, Skipped, Lead;
    var e := lines[at..end];
    EntryEndFacts(Look(lines), ind, at + 1);
    assert Look(lines)[at] == See(e[0]);
    forall i | 1 <= i < |e| ensures !Skipped(e[i]) && Lead(e[i]) > ind {
      assert Look(lines)[at + i] == See(e[i]);
    }
  }

  // ----- where the parser has the block end -----

  predicate AtMarginLine(line: string) {
    TokenOf(line).Ok? && TokenOf(line).value.Some? && TokenOf(line).value.value.indent == 0
  }

  /** The first line from `i` on that the parser reads at the margin. */
  function BlockStop(lines: seq<string>, i: nat): (stop: nat)
    requires i <= |lines|
    ensures i <= stop <= |lines|
    decreases |lines| - i
  {
    if i == |lines| || AtMarginLine(lines[i]) then i else BlockStop(lines, i + 1)
  }

  lemma {:induction false} BlockStopFacts(lines: seq<string>, i: nat)
    requires i <= |lines|
    ensures forall k :: i <= k < BlockStop(lines, i) ==> !AtMarginLine(lines[k])
    ensures BlockStop(lines, i) < |lines| ==> AtMarginLine(lines[BlockStop(lines, i)])
    decreases |lines| - i
  {
    if i < |lines| && !AtMarginLine(lines[i]) {
      BlockStopFacts(lines, i + 1);
    }
  }

  lemma {:induction false} OffMargin(lines: seq<string>)
    requires Readable(lines) && forall i :: 0 <= i < |lines| ==> !AtMarginLine(lines[i])
    ensures AllDeeper(0, Toks(lines))
  {
    hide TokenOf, PlainLine;
    if lines != [] {
      var init, last := lines[..|lines| - 1], lines[|lines| - 1];
      assert lines == init + [last];
      ReadableParts(init, [last]);
      OffMargin(init);
      TokensSnoc(init, last);
      assert TokenOf(last).Ok? by { assert [last][0] == last; ReadableLine([last], 0); }
    }
  }

  /** Up to there all is deep, and what follows, if anything, starts at the margin. */
  lemma StopsAtMargin(lines: seq<string>, i: nat)
    requires Readable(lines) && i <= |lines|
    ensures AllDeeper(0, Toks(lines[i..BlockStop(lines, i)])) && Readable(lines[i..BlockStop(lines, i)])
    ensures Toks(lines[BlockStop(lines, i)..]) == [] || Toks(lines[BlockStop(lines, i)..])[0].indent == 0
  {
    hide TokenOf;
    var stop := BlockStop(lines, i);
    BlockStopFacts(lines, i);
    PartReadable(lines, i, stop);
    OffMargin(lines[i..stop]);
    if stop < |lines| {
      var line, rest := lines[stop], lines[stop + 1..];
      assert lines[stop..] == [line] + rest;
      ReadableParts([line], rest);
      OneToken(line, TokenOf(line).value.value);
    }
  }

  // ----- the texts -----

  lemma EditAt(lines: seq<string>, service: string, backend: string, scope: string, p: Place)
    requires FindHeader(Look(lines), 0) < |lines| && Locate(Look(lines), service, FindHeader(Look(lines), 0) + 1, 0) == p
    ensures p.at <= |lines| && (p.Over? ==> p.at < |lines|)
    ensures Edit(lines, service, backend, scope) == Some(PutEntry(lines, p, OriginLines(service, backend, scope, p.indent)))
  {
    hide See, OriginLines, PutEntry;
  }

  lemma Spliced<T>(s: seq<T>, h: nat, at: nat, end: nat, stop: nat, mid: seq<T>)
    requires h < at <= end <= stop <= |s|
    ensures s[..at] + mid + s[end..] == s[..h] + ([s[h]] + ((s[h + 1..at] + (mid + s[end..stop])) + s[stop..]))
    ensures s == s[..h] + ([s[h]] + ((s[h + 1..at] + (s[at..end] + s[end..stop])) + s[stop..]))
  {
    assert s[..at] == s[..h] + ([s[h]] + s[h + 1..at]);
    assert s[end..] == s[end..stop] + s[stop..];
    assert s[at..end] + s[end..] == s[at..] && s[..at] + s[at..] == s;
  }

  lemma HeaderThere(lines: seq<string>, h: nat)
    requires h == FindHeader(Look(lines), 0) < |lines|
    ensures IsHeader(lines[h])
  {
    hide IsHeader, Skipped, Lead, EditorKey, FindHeader;
    assert Look(lines)[h] == See(lines[h]);
  }

  // ----- append -----

  lemma BlankLast()
    ensures Tokens([""]) == Ok([])
  {
    assert [""][..0] == [];
  }

  lemma EndedReads(lines: seq<string>)
    requires lines != [] && Tokens(lines).Ok?
    ensures Tokens(Ended(lines)) == Tokens(lines)
  {
    var init, last := lines[..|lines| - 1], lines[|lines| - 1];
    if last == "" {
      assert lines == init + [last];
      TokensSnoc(init, last);
    }
  }

  lemma FreshBlockTokens(added: seq<string>, ts: seq<Token>)
    requires Tokens(added) == Ok(ts)
    ensures Tokens((["origins:"] + added) + [""]) == Ok([BareToken(0, "origins")] + ts)
  {
    assert TokenOf("origins:") == Ok(Some(BareToken(0, "origins"))) by {
      assert Pad(0) + ("origins" + ":") == "origins:";
      BareLine(0, "origins");
    }
    OneToken("origins:", BareToken(0, "origins"));
    BlankLast();
    TokensJoin(["origins:"], added);
    TokensJoin(["origins:"] + added, [""]);
  }

  lemma FreshValue(service: string, backend: string, scope: string)
    requires Writable(service, backend, scope)
    ensures var e' := OriginTokens(service, backend, scope, 2);
      AllDeeper(0, e') && ValueOf(e') == Some(Map(map[service := EntryValue(backend, scope)]))
  {
    var e', v' := OriginTokens(service, backend, scope, 2), EntryValue(backend, scope);
    var none: map<string, Value> := map[];
    var nothing: seq<Token> := [];
    OriginTokensSet(service, backend, scope, 2);
    SetsDeeper(2, 0, e', service, v');
    TokensAdded(nothing, e', 2, service, none, v');
    assert nothing + e' == e' && none[service := v'] == map[service := v'];
  }

  lemma AppendedTokens(lines: seq<string>, service: string, backend: string, scope: string)
    requires lines != [] && Tokens(lines).Ok? && Writable(service, backend, scope)
    ensures Tokens(Appended(lines, service, backend, scope))
         == Ok(Toks(lines) + ([BareToken(0, "origins")] + OriginTokens(service, backend, scope, 2)))
  {
    var added := OriginLines(service, backend, scope, 2);
    EndedReads(lines);
    OriginLinesTokens(service, backend, scope, 2);
    FreshBlockTokens(added, OriginTokens(service, backend, scope, 2));
    TokensJoin(Ended(lines), (["origins:"] + added) + [""]);
    Regrouped(Ended(lines), ["origins:"] + added, [""]);
  }

  lemma Regrouped<T>(a: seq<T>, b: seq<T>, c: seq<T>)
    ensures a + b + c == a + (b + c)
  {
  }

  lemma FreshDoc(ts: seq<Token>, e: seq<Token>, m: map<string, Value>, v: Value)
    requires AllDeeper(0, e) && ValueOf(e) == Some(v)
    requires (ts == [] && m == map[]) || (Keyed(0, ts) && ParseTokens(ts) == Ok(Map(m)))
    ensures ParseTokens(ts + ([BareToken(0, "origins")] + e)) == Ok(Map(m["origins" := v]))
  {
    hide ParseTokens, ValueOf, SplitKey, IsSeqItem;
    assert KeyLine(BareToken(0, "origins"), 0, "origins") by { BareLine(0, "origins"); }
    DocAppended(ts, BareToken(0, "origins"), e, "origins", m, v);
  }

  /** Appending a fresh block, then parsing: the document with `origins` set to just this
      entry. An earlier value is forgotten whole; that can only be one under a header line the
      editor does not recognise. */
  lemma AppendAgrees(lines: seq<string>, service: string, backend: string, scope: string, m: map<string, Value>)
    requires lines != [] && Tokens(lines).Ok? && Writable(service, backend, scope)
    requires (Toks(lines) == [] && m == map[]) || (Keyed(0, Toks(lines)) && Parse(lines) == Ok(Map(m)))
    ensures Parse(Appended(lines, service, backend, scope))
         == Ok(Map(m["origins" := Map(map[service := EntryValue(backend, scope)])]))
  {
    var e', v := OriginTokens(service, backend, scope, 2), Map(map[service := EntryValue(backend, scope)]);
    AppendedTokens(lines, service, backend, scope);
    assert AllDeeper(0, e') && ValueOf(e') == Some(v) by { FreshValue(service, backend, scope); }
    FreshDoc(Toks(lines), e', m, v);
  }
}
