/** The YAML-subset decoder (internal/config/yaml/yaml.go): lines to tokens, tokens to a
    tree. Line numbers, which only errors carry, are left out. */
module Yaml {
  import opened Model

  datatype Value = Null | Bool(b: bool) | Int(n: int) | Str(s: string) | List(items: seq<Value>) | Map(entries: map<string, Value>)

  datatype Token = Token(indent: nat, text: string)

  // ----- text -----

  predicate IsSpace(c: char) {
    c == ' ' || c == '\t' || c == '\r'
  }

  function TrimLeft(s: string): (t: string)
    ensures |t| <= |s|
    ensures t == "" || !IsSpace(t[0])
  {
    if s != "" && IsSpace(s[0]) then TrimLeft(s[1..]) else s
  }

  function TrimRight(s: string): (t: string)
    ensures |t| <= |s| && t == s[..|t|]
    ensures t == "" || !IsSpace(t[|t| - 1])
  {
    if s != "" && IsSpace(s[|s| - 1]) then TrimRight(s[..|s| - 1]) else s
  }

  function Trim(s: string): (t: string)
    ensures |t| <= |s|
    ensures t == "" || (!IsSpace(t[0]) && !IsSpace(t[|t| - 1]))
  {
    TrimRight(TrimLeft(s))
  }

  /** The number of spaces a line starts with. */
  function Spaces(line: string): (n: nat)
    ensures n <= |line|
    ensures n < |line| ==> line[n] != ' '
  {
    if line != "" && line[0] == ' ' then 1 + Spaces(line[1..]) else 0
  }

  /** Drops a trailing comment: a '#' after a blank, outside quotes. */
  function StripFrom(s: string, i: nat, inS: bool, inD: bool): string
    requires i <= |s|
    decreases |s| - i
  {
    if i == |s| then s
    else if s[i] == '\'' && !inD then StripFrom(s, i + 1, !inS, inD)
    else if s[i] == '"' && !inS then StripFrom(s, i + 1, inS, !inD)
    else if s[i] == '#' && !inS && !inD && i > 0 && (s[i - 1] == ' ' || s[i - 1] == '\t') then TrimRight(s[..i])
    else StripFrom(s, i + 1, inS, inD)
  }

  function StripComment(s: string): string {
    StripFrom(s, 0, false, false)
  }

  /** A line is an error, nothing, or one token. */
  function TokenOf(line: string): Result<Option<Token>> {
    var indent := Spaces(line);
    if indent < |line| && line[indent] == '\t' then Err
    else
      var content := TrimRight(line[indent..]);
      if content == "" || content[0] == '#' || content == "---" then Ok(None)
      else if Trim(StripComment(content)) == "" then Ok(None)
      else Ok(Some(Token(indent, StripComment(content))))
  }

  function Tokens(lines: seq<string>): Result<seq<Token>> {
    if lines == [] then Ok([])
    else
      match Tokens(lines[..|lines| - 1])
      case Err => Err
      case Ok(rest) =>
        match TokenOf(lines[|lines| - 1])
        case Err => Err
        case Ok(None) => Ok(rest)
        case Ok(Some(t)) => Ok(rest + [t])
  }

  predicate IsSeqItem(text: string) {
    text == "-" || (|text| >= 2 && text[0] == '-' && text[1] == ' ')
  }

  /** The position of the first ": ", or the length. */
  function Separator(s: string): (i: nat)
    ensures i <= |s|
    ensures i < |s| ==> i + 1 < |s| && s[i] == ':' && s[i + 1] == ' '
  {
    if |s| < 2 then |s|
    else if s[0] == ':' && s[1] == ' ' then 0
    else 1 + Separator(s[1..])
  }

  /** Splits on the first ": ", or a trailing ':'. */
  function SplitKey(s: string): Option<(string, string)> {
    var i := Separator(s);
    if i < |s| then Some((Trim(s[..i]), Trim(s[i + 2..])))
    else if s != "" && s[|s| - 1] == ':' then Some((Trim(s[..|s| - 1]), ""))
    else None
  }

  // ----- scalars -----

  function Comma(s: string): (i: nat)
    ensures i <= |s|
  {
    if s == "" || s[0] == ',' then 0 else 1 + Comma(s[1..])
  }

  /** Simple escapes of a double-quoted scalar; None for what Go would not unquote. */
  function Unescape(s: string): Option<string> {
    if s == "" then Some("")
    else if s[0] == '"' || s[0] == '\n' then None
    else if s[0] != '\\' then
      (match Unescape(s[1..]) case None => None case Some(r) => Some([s[0]] + r))
    else if |s| < 2 || s[1] !in "\\\"nrt" then None
    else
      var c := if s[1] == 'n' then '\n' else if s[1] == 'r' then '\r' else if s[1] == 't' then '\t' else s[1];
      match Unescape(s[2..]) case None => None case Some(r) => Some([c] + r)
  }

  function Unquote(s: string): Option<string> {
    if |s| >= 2 && s[0] == '"' && s[|s| - 1] == '"' then
      (match Unescape(s[1..|s| - 1]) case Some(u) => Some(u) case None => Some(s[1..|s| - 1]))
    else if |s| >= 2 && s[0] == '\'' && s[|s| - 1] == '\'' then Some(s[1..|s| - 1])
    else None
  }

  function Digits(s: string, acc: int): Option<int> {
    if s == "" then Some(acc)
    else if '0' <= s[0] <= '9' then Digits(s[1..], 10 * acc + (s[0] as int - '0' as int))
    else None
  }

  const MAX_INT := 0x7fff_ffff_ffff_ffff

  /** A signed decimal that fits 64 bits. */
  function Atoi(s: string): Option<int> {
    var signed := s != "" && (s[0] == '+' || s[0] == '-');
    var digits := if signed then s[1..] else s;
    if digits == "" then None
    else
      match Digits(digits, 0)
      case None => None
      case Some(n) =>
        var v := if signed && s[0] == '-' then -n else n;
        if -MAX_INT - 1 <= v <= MAX_INT then Some(v) else None
  }

  function ParseScalar(text: string): Value
    decreases |text|, 1
  {
    var s := Trim(text);
    if s == "" || s == "~" || s == "null" then Null
    else if |s| >= 2 && s[0] == '[' && s[|s| - 1] == ']' then
      var inner := Trim(s[1..|s| - 1]);
      if inner == "" then List([]) else List(FlowItems(inner))
    else
      match Unquote(s)
      case Some(q) => Str(q)
      case None =>
        if s in ["true", "True", "TRUE", "yes"] then Bool(true)
        else if s in ["false", "False", "FALSE", "no"] then Bool(false)
        else match Atoi(s) case Some(n) => Int(n) case None => Str(s)
  }

  /** The comma-separated scalars of a flow list. */
  function FlowItems(s: string): seq<Value>
    decreases |s|, 2
  {
    var i := Comma(s);
    if i == |s| then [ParseScalar(s)] else [ParseScalar(s[..i])] + FlowItems(s[i + 1..])
  }

  // ----- blocks -----

  /** What is left to read: every token counts its text and one more, so that stripping the
      dash of a `- key: v` item pays for the synthetic block built from it. */
  function Weight(ts: seq<Token>): nat {
    if ts == [] then 0 else |ts[0].text| + 1 + Weight(ts[1..])
  }

  lemma {:induction false} WeightAppend(a: seq<Token>, b: seq<Token>)
    ensures Weight(a + b) == Weight(a) + Weight(b)
  {
    if a == [] {
      assert a + b == b;
    } else {
      assert (a + b)[1..] == a[1..] + b;
      WeightAppend(a[1..], b);
    }
  }

  lemma WeightDrop(ts: seq<Token>, n: nat)
    requires n <= |ts|
    ensures Weight(ts[n..]) <= Weight(ts) && Weight(ts[..n]) <= Weight(ts)
    ensures n >= 1 ==> Weight(ts[n..]) < Weight(ts)
  {
    WeightAppend(ts[..n], ts[n..]);
    assert ts == ts[..n] + ts[n..];
  }

  /** Something parsed and the number of tokens it took. */
  type Parsed<T> = Result<(T, nat)>

  function Advance<T>(p: Parsed<T>, n: nat): Parsed<T> {
    match p case Err => Err case Ok((v, k)) => Ok((v, n + k))
  }

  function AsList(p: Parsed<seq<Value>>): Parsed<Value> {
    match p case Err => Err case Ok((items, n)) => Ok((List(items), n))
  }

  function AsMap(p: Parsed<map<string, Value>>): Parsed<Value> {
    match p case Err => Err case Ok((m, n)) => Ok((Map(m), n))
  }

  /** The leading tokens indented deeper than `d`. */
  function Deeper(d: nat, ts: seq<Token>): (n: nat)
    ensures n <= |ts|
    ensures forall i :: 0 <= i < n ==> ts[i].indent > d
    ensures n < |ts| ==> ts[n].indent <= d
  {
    if ts == [] || ts[0].indent <= d then 0 else 1 + Deeper(d, ts[1..])
  }

  /** A key without a value takes a deeper block, or a sequence at its own indent. */
  predicate Nests(d: nat, ts: seq<Token>) {
    ts != [] && (ts[0].indent > d || (ts[0].indent == d && IsSeqItem(ts[0].text)))
  }

  function Inline(text: string): (s: string)
    requires IsSeqItem(text)
    ensures |s| < |text|
  {
    Trim(text[1..])
  }

  predicate Keyed(d: nat, ts: seq<Token>) {
    ts != [] && ts[0].indent == d && !IsSeqItem(ts[0].text)
  }

  predicate Itemed(d: nat, ts: seq<Token>) {
    ts != [] && ts[0].indent == d && IsSeqItem(ts[0].text)
  }

  /** Each block takes at least one token. */
  function ParseBlock(ts: seq<Token>): (p: Parsed<Value>)
    requires ts != []
    ensures p.Ok? ==> 1 <= p.value.1 <= |ts|
    decreases Weight(ts), 2
  {
    if IsSeqItem(ts[0].text) then AsList(SeqLoop(ts[0].indent, ts, []))
    else AsMap(MapLoop(ts[0].indent, ts, map[]))
  }

  /** One `key: …` line with what belongs to it: the key, its value, the tokens taken. */
  function MapEntry(d: nat, ts: seq<Token>): (e: Result<(string, Value, nat)>)
    requires Keyed(d, ts)
    ensures e.Ok? ==> 1 <= e.value.2 <= |ts|
    decreases Weight(ts), 0
  {
    WeightDrop(ts, 1);
    match SplitKey(ts[0].text)
    case None => Err
    case Some((key, rest)) =>
      if rest != "" then Ok((key, ParseScalar(rest), 1))
      else if !Nests(d, ts[1..]) then Ok((key, Null, 1))
      else match ParseBlock(ts[1..])
        case Err => Err
        case Ok((v, n)) => Ok((key, v, 1 + n))
  }

  /** Consecutive `key: …` lines at one indent. */
  function MapLoop(d: nat, ts: seq<Token>, acc: map<string, Value>): (p: Parsed<map<string, Value>>)
    ensures p.Ok? ==> p.value.1 <= |ts| && (Keyed(d, ts) ==> p.value.1 >= 1)
    decreases Weight(ts), 1
  {
    if !Keyed(d, ts) then Ok((acc, 0))
    else
      match MapEntry(d, ts)
      case Err => Err
      case Ok((key, v, n)) =>
        WeightDrop(ts, n);
        Advance(MapLoop(d, ts[n..], acc[key := v]), n)
  }

  /** One `- …` line with what belongs to it. */
  function SeqEntry(d: nat, ts: seq<Token>): (e: Parsed<Value>)
    requires Itemed(d, ts)
    ensures e.Ok? ==> 1 <= e.value.1 <= |ts|
    decreases Weight(ts), 0
  {
    WeightDrop(ts, 1);
    var inline := Inline(ts[0].text);
    if inline == "" then
      if ts[1..] != [] && ts[1].indent > d then Advance(ParseBlock(ts[1..]), 1) else Ok((Null, 1))
    else if SplitKey(inline).Some? then
      var n := Deeper(d, ts[1..]);
      SubBlockWeighsLess(d, ts, n);
      match ParseBlock(SubBlock(d, inline, ts[1..1 + n]))
      case Err => Err
      case Ok((v, _)) => Ok((v, 1 + n))
    else Ok((ParseScalar(inline), 1))
  }

  /** Consecutive `- …` items at one indent. */
  function SeqLoop(d: nat, ts: seq<Token>, acc: seq<Value>): (p: Parsed<seq<Value>>)
    ensures p.Ok? ==> p.value.1 <= |ts| && (Itemed(d, ts) ==> p.value.1 >= 1)
    decreases Weight(ts), 1
  {
    if !Itemed(d, ts) then Ok((acc, 0))
    else
      match SeqEntry(d, ts)
      case Err => Err
      case Ok((v, n)) =>
        WeightDrop(ts, n);
        Advance(SeqLoop(d, ts[n..], acc + [v]), n)
  }

  /** The synthetic block of a `- key: v` item: its inline text two columns in, then the
      deeper lines that follow. */
  function SubBlock(d: nat, inline: string, deeper: seq<Token>): seq<Token> {
    [Token(d + 2, inline)] + deeper
  }

  lemma SubBlockWeighsLess(d: nat, ts: seq<Token>, n: nat)
    requires ts != [] && IsSeqItem(ts[0].text) && n <= |ts[1..]|
    ensures Weight(SubBlock(d, Inline(ts[0].text), ts[1..1 + n])) < Weight(ts)
  {
    var inline := Inline(ts[0].text);
    assert SubBlock(d, inline, ts[1..1 + n])[1..] == ts[1..1 + n];
    assert ts[1..][..n] == ts[1..1 + n];
    WeightDrop(ts[1..], n);
  }

  /** A document: one block that takes every token; an empty one is null. */
  function ParseTokens(ts: seq<Token>): Result<Value> {
    if ts == [] then Ok(Null)
    else
      match ParseBlock(ts)
      case Err => Err
      case Ok((v, n)) => if n == |ts| then Ok(v) else Err
  }

  function Parse(lines: seq<string>): Result<Value> {
    match Tokens(lines) case Err => Err case Ok(ts) => ParseTokens(ts)
  }
}
