/** What a scalar of the YAML subset reads as (internal/config/yaml/yaml.go): words, numbers, quoted
    and plain text, flow lists; alone and as the value of a one-line document. */
module YamlScalars {
  import opened Model
  import opened Yaml
  import OriginsEditor
  import opened OriginsTokens

  // ----- blanks around a scalar -----

  /** Blanks around it do not matter. */
  lemma BlanksDoNotMatter(text: string)
    ensures ParseScalar(text) == ParseScalar(Trim(text))
  {
    TrimExact(Trim(text));
    hide Trim, FlowItems, Unquote, Atoi;
  }

  /** No blank at either end. */
  predicate Bare(s: string) {
    s == "" || (!IsSpace(s[0]) && !IsSpace(s[|s| - 1]))
  }

  // ----- words -----

  lemma WordsRead(s: string)
    ensures s in {"", "~", "null"} ==> ParseScalar(s) == Null
    ensures s in {"true", "True", "TRUE", "yes"} ==> ParseScalar(s) == Bool(true)
    ensures s in {"false", "False", "FALSE", "no"} ==> ParseScalar(s) == Bool(false)
  {
    hide Trim, FlowItems, Unescape, Atoi;
    if s in {"", "~", "null", "true", "True", "TRUE", "yes", "false", "False", "FALSE", "no"} {
      TrimExact(s);
    }
  }

  // ----- numbers -----

  predicate IsDigit(c: char) {
    '0' <= c <= '9'
  }

  predicate IsNumeral(s: string) {
    s != "" && AllDigits(s)
  }

  predicate AllDigits(s: string) {
    forall i :: 0 <= i < |s| ==> IsDigit(s[i])
  }

  /** The number a numeral stands for, its last digit counting one. */
  function NumberOf(s: string): nat
    requires AllDigits(s)
  {
    if s == "" then 0 else 10 * NumberOf(s[..|s| - 1]) + (s[|s| - 1] as int - '0' as int)
  }

  lemma {:induction false} DigitsSnoc(s: string, c: char, acc: int)
    requires AllDigits(s)
    requires IsDigit(c)
    ensures Digits(s, acc).Some? && Digits(s + [c], acc) == Some(10 * Digits(s, acc).value + (c as int - '0' as int))
  {
    if s == "" {
      assert s + [c] == [c] && [c][1..] == "";
    } else {
      assert (s + [c])[1..] == s[1..] + [c];
      DigitsSnoc(s[1..], c, 10 * acc + (s[0] as int - '0' as int));
    }
  }

  lemma {:induction false} DigitsRead(s: string)
    requires AllDigits(s)
    ensures Digits(s, 0) == Some(NumberOf(s))
  {
    if s != "" {
      DigitsRead(s[..|s| - 1]);
      DigitsSnoc(s[..|s| - 1], s[|s| - 1], 0);
      assert s == s[..|s| - 1] + [s[|s| - 1]];
    }
  }

  lemma {:induction false} NoDigits(s: string, acc: int)
    requires !AllDigits(s)
    ensures Digits(s, acc).None?
  {
    if IsDigit(s[0]) {
      var i :| 0 <= i < |s| && !IsDigit(s[i]);
      assert s[1..][i - 1] == s[i];
      NoDigits(s[1..], 10 * acc + (s[0] as int - '0' as int));
    }
  }

  const TWO_TO_THE_63 := 0x8000_0000_0000_0000

  predicate Fits64(n: int) {
    -TWO_TO_THE_63 <= n < TWO_TO_THE_63
  }

  /** A numeral for the number, signed or not. */
  ghost predicate StandsForNumber(s: string, n: int) {
    || (IsNumeral(s) && n == NumberOf(s))
    || (s != "" && IsNumeral(s[1..]) && ((s[0] == '+' && n == NumberOf(s[1..])) || (s[0] == '-' && -n == NumberOf(s[1..]))))
  }

  lemma AtoiIff(s: string, n: int)
    ensures Atoi(s) == Some(n) <==> StandsForNumber(s, n) && Fits64(n)
  {
    var signed := s != "" && (s[0] == '+' || s[0] == '-');
    var digits := if signed then s[1..] else s;
    if AllDigits(digits) {
      DigitsRead(digits);
    } else {
      NoDigits(digits, 0);
    }
  }

  predicate IsBracketed(s: string) {
    |s| >= 2 && s[0] == '[' && s[|s| - 1] == ']'
  }

  predicate IsQuoted(s: string) {
    |s| >= 2 && s[0] == s[|s| - 1] && (s[0] == '"' || s[0] == '\'')
  }

  const WORDS := {"", "~", "null", "true", "True", "TRUE", "yes", "false", "False", "FALSE", "no"}

  lemma NumeralIsNoWord(s: string, n: int)
    requires StandsForNumber(s, n)
    ensures s != "" && !IsSpace(s[0]) && !IsSpace(s[|s| - 1]) && s !in WORDS && !IsBracketed(s) && !IsQuoted(s)
  {
    if s[0] != '+' && s[0] != '-' {
      assert IsDigit(s[0]);
    }
    if |s| > 1 {
      assert s[|s| - 1] == s[1..][|s| - 2];
      assert IsDigit(s[|s| - 1]);
    } else {
      assert s[1..] == "";
      assert IsDigit(s[0]);
    }
  }

  /** A numeral that fits 64 bits reads as its number. */
  lemma NumeralReads(s: string, n: int)
    requires StandsForNumber(s, n) && Fits64(n)
    ensures ParseScalar(s) == Int(n)
  {
    NumeralIsNoWord(s, n);
    TrimExact(s);
    AtoiIff(s, n);
  }

  /** A number written in decimal. */
  function Decimal(n: int): string
    decreases if n < 0 then 1 - n else n
  {
    if n < 0 then "-" + Decimal(-n)
    else if n < 10 then [(n + '0' as int) as char]
    else Decimal(n / 10) + [(n % 10 + '0' as int) as char]
  }

  lemma {:induction false} DecimalStands(n: nat)
    ensures IsNumeral(Decimal(n)) && NumberOf(Decimal(n)) == n
  {
    var s := Decimal(n);
    if n < 10 {
      assert s[..0] == "";
    } else {
      DecimalStands(n / 10);
      assert s[..|s| - 1] == Decimal(n / 10);
    }
  }

  /** Written in decimal, every number of 64 bits is read back. */
  lemma DecimalReads(n: int)
    requires -0x8000_0000_0000_0000 <= n <= 0x7fff_ffff_ffff_ffff
    ensures ParseScalar(Decimal(n)) == Int(n)
  {
    hide Decimal, StandsForNumber, ParseScalar;
    DecimalStandsSigned(n);
    NumeralReads(Decimal(n), n);
  }

  lemma DecimalStandsSigned(n: int)
    ensures StandsForNumber(Decimal(n), n) && '#' !in Decimal(n)
  {
    if n < 0 {
      var digits := Decimal(-n);
      DecimalStands(-n);
      DigitsAreNoComment(digits);
      assert Decimal(n) == "-" + digits && Decimal(n)[1..] == digits;
    } else {
      DecimalStands(n);
      DigitsAreNoComment(Decimal(n));
    }
  }

  lemma DigitsAreNoComment(s: string)
    requires AllDigits(s)
    ensures '#' !in s
  {
  }

  // ----- quoted text -----

  /** Between single quotes, text reads as itself. */
  lemma SingleQuotedReads(t: string)
    ensures ParseScalar("'" + t + "'") == Str(t)
  {
    hide Trim, FlowItems, Unescape, Atoi;
    var s := "'" + t + "'";
    assert s == "'" + (t + "'") && s[1..|s| - 1] == t && s[0] == '\'' && s[|s| - 1] == '\'';
    TrimExact(s);
  }

  /** A character as it is written between double quotes. */
  function EscapedChar(c: char): string {
    if c == '\n' then "\\n" else if c == '\r' then "\\r" else if c == '\t' then "\\t"
    else if c == '"' || c == '\\' then ['\\', c] else [c]
  }

  function Escaped(t: string): string {
    if t == "" then "" else EscapedChar(t[0]) + Escaped(t[1..])
  }

  lemma UnescapeOne(c: char, rest: string)
    requires Unescape(rest).Some?
    ensures Unescape(EscapedChar(c) + rest) == Some([c] + Unescape(rest).value)
  {
    var s := EscapedChar(c) + rest;
    if |EscapedChar(c)| == 2 {
      assert s[2..] == rest && s[1] == EscapedChar(c)[1];
    } else {
      assert s[1..] == rest;
    }
  }

  lemma {:induction false} UnescapeEscaped(t: string)
    ensures Unescape(Escaped(t)) == Some(t)
  {
    hide Unescape, EscapedChar;
    if t == "" {
      NothingToUnescape();
    } else {
      UnescapeEscaped(t[1..]);
      UnescapeOne(t[0], Escaped(t[1..]));
      assert t == [t[0]] + t[1..];
    }
  }

  lemma NothingToUnescape()
    ensures Unescape("") == Some("")
  {
  }

  /** Escaped between double quotes, any text reads as itself. */
  lemma DoubleQuotedReads(t: string)
    ensures ParseScalar("\"" + Escaped(t) + "\"") == Str(t)
  {
    var s := "\"" + Escaped(t) + "\"";
    hide Trim, FlowItems, Escaped, Unescape, Atoi;
    assert s == "\"" + (Escaped(t) + "\"") && s[1..|s| - 1] == Escaped(t) && s[0] == '"' && s[|s| - 1] == '"';
    TrimExact(s);
    UnescapeEscaped(t);
  }

  // ----- plain text -----

  /** Any other text, without blanks around it, reads as itself. */
  lemma PlainReads(s: string)
    requires Bare(s) && s !in WORDS && !IsBracketed(s) && !IsQuoted(s)
    requires forall n :: Fits64(n) ==> !StandsForNumber(s, n)
    ensures ParseScalar(s) == Str(s)
  {
    hide Trim, FlowItems;
    TrimExact(s);
    if Atoi(s).Some? {
      AtoiIff(s, Atoi(s).value);
    }
  }

  // ----- flow lists -----

  function Joined(items: seq<string>): string {
    if items == [] then "" else if |items| == 1 then items[0] else items[0] + "," + Joined(items[1..])
  }

  lemma {:induction false} CommaAfter(item: string, rest: string)
    requires ',' !in item
    ensures Comma(item + ("," + rest)) == |item|
    ensures Comma(item) == |item|
  {
    if item != "" {
      assert item[0] in item;
      assert (item + ("," + rest))[1..] == item[1..] + ("," + rest);
      CommaAfter(item[1..], rest);
    }
  }

  function ReadAll(items: seq<string>): seq<Value> {
    seq(|items|, i requires 0 <= i < |items| => ParseScalar(items[i]))
  }

  lemma {:induction false} ItemsRead(items: seq<string>)
    requires items != [] && forall item :: item in items ==> ',' !in item
    ensures FlowItems(Joined(items)) == ReadAll(items)
  {
    var s := Joined(items);
    assert items[0] in items;
    if |items| == 1 {
      CommaAfter(s, "");
    } else {
      var rest := Joined(items[1..]);
      assert s == items[0] + ("," + rest);
      CommaAfter(items[0], rest);
      assert s[..|items[0]|] == items[0] && s[|items[0]| + 1..] == rest;
      ItemsRead(items[1..]);
      assert ReadAll(items) == [ParseScalar(items[0])] + ReadAll(items[1..]);
    }
  }

  lemma BracketsRead(inner: string)
    requires Bare(inner) && inner != ""
    ensures ParseScalar("[" + inner + "]") == List(FlowItems(inner))
  {
    hide FlowItems;
    var s := "[" + inner + "]";
    assert s == "[" + (inner + "]") && s[1..|s| - 1] == inner && s[0] == '[' && s[|s| - 1] == ']';
    TrimExact(s);
    TrimExact(inner);
  }

  /** Items without commas, separated by commas between brackets, read as the list of what they
      read as; blanks around an item do not matter. */
  lemma FlowListReads(items: seq<string>)
    requires items != [] && Bare(Joined(items)) && Joined(items) != "" && forall item :: item in items ==> ',' !in item
    ensures ParseScalar("[" + Joined(items) + "]") == List(ReadAll(items))
    ensures forall i :: 0 <= i < |items| ==> ParseScalar(items[i]) == ParseScalar(Trim(items[i]))
  {
    hide ParseScalar, FlowItems, ReadAll, Trim;
    BracketsRead(Joined(items));
    ItemsRead(items);
    forall i | 0 <= i < |items| ensures ParseScalar(items[i]) == ParseScalar(Trim(items[i])) {
      BlanksDoNotMatter(items[i]);
    }
  }

  lemma EmptyListReads(blanks: string)
    requires forall i :: 0 <= i < |blanks| ==> IsSpace(blanks[i])
    ensures ParseScalar("[" + blanks + "]") == List([])
  {
    var s := "[" + blanks + "]";
    hide FlowItems, Unquote, Atoi;
    assert s == "[" + (blanks + "]") && s[1..|s| - 1] == blanks && s[0] == '[' && s[|s| - 1] == ']';
    TrimExact(s);
    if Trim(blanks) != "" {
      TrimIsPart(blanks);
    }
  }

  lemma {:induction false} TrimIsPart(s: string)
    requires Trim(s) != ""
    ensures exists i :: 0 <= i < |s| && !IsSpace(s[i])
  {
    if IsSpace(s[0]) {
      TrimIsPart(s[1..]);
      var i :| 0 <= i < |s[1..]| && !IsSpace(s[1..][i]);
      assert s[i + 1] == s[1..][i];
    }
  }

  // ----- one-line documents -----

  lemma OneEntry(t: Token, key: string, s: string)
    requires OriginsTokens.SetsLine(t, 0, key, s)
    ensures ParseTokens([t]) == Ok(Map(map[key := ParseScalar(s)]))
  {
    hide ParseScalar, SplitKey;
    var none: map<string, Value> := map[];
    assert [t][1..] == [];
    assert MapEntry(0, [t]) == Ok((key, ParseScalar(s), 1));
    assert MapLoop(0, [], none[key := ParseScalar(s)]) == Ok((none[key := ParseScalar(s)], 0));
    assert none[key := ParseScalar(s)] == map[key := ParseScalar(s)];
    assert MapLoop(0, [t], none) == Ok((map[key := ParseScalar(s)], 1));
    assert ParseBlock([t]) == Ok((Map(map[key := ParseScalar(s)]), 1));
  }

  /** A document of one line, a plain key and a bare value, is that key with what the value reads
      as. */
  lemma LineReads(key: string, s: string)
    requires PlainKey(key) && s != "" && Bare(s) && '#' !in s
    ensures Parse([key + ": " + s]) == Ok(Map(map[key := ParseScalar(s)]))
  {
    hide ParseScalar, ParseTokens, TokenOf, OriginsTokens.SetsLine, PlainKey;
    var line, t := key + ": " + s, ValueToken(0, key, s);
    ValueLine(0, key, s);
    assert OriginsEditor.Pad(0) + line == line;
    OneToken(line, t);
    OneEntry(t, key, s);
  }

  lemma WordDocuments(key: string, t: string)
    requires PlainKey(key)
    ensures t in {"~", "null"} ==> Parse([key + ": " + t]) == Ok(Map(map[key := Null]))
    ensures t in {"true", "True", "TRUE", "yes"} ==> Parse([key + ": " + t]) == Ok(Map(map[key := Bool(true)]))
    ensures t in {"false", "False", "FALSE", "no"} ==> Parse([key + ": " + t]) == Ok(Map(map[key := Bool(false)]))
  {
    hide Parse, PlainKey, ParseScalar;
    if t in {"~", "null", "true", "True", "TRUE", "yes", "false", "False", "FALSE", "no"} {
      LineReads(key, t);
      WordsRead(t);
    }
  }

  lemma NumberDocument(key: string, n: int)
    requires PlainKey(key) && -0x8000_0000_0000_0000 <= n <= 0x7fff_ffff_ffff_ffff
    ensures Parse([key + ": " + Decimal(n)]) == Ok(Map(map[key := Int(n)]))
  {
    hide Parse, PlainKey, ParseScalar, Decimal, StandsForNumber;
    DecimalStandsSigned(n);
    NumeralIsNoWord(Decimal(n), n);
    DecimalReads(n);
    LineReads(key, Decimal(n));
  }

  lemma QuotedDocument(key: string, t: string)
    requires PlainKey(key) && '#' !in t
    ensures Parse([key + ": " + ("'" + t + "'")]) == Ok(Map(map[key := Str(t)]))
  {
    hide Parse, PlainKey, ParseScalar;
    SingleQuotedReads(t);
    LineReads(key, "'" + t + "'");
  }

  lemma PlainDocument(key: string, s: string)
    requires PlainKey(key) && Bare(s) && '#' !in s && s !in WORDS && !IsBracketed(s) && !IsQuoted(s)
    requires forall n :: Fits64(n) ==> !StandsForNumber(s, n)
    ensures Parse([key + ": " + s]) == Ok(Map(map[key := Str(s)]))
  {
    hide Parse, PlainKey, ParseScalar, StandsForNumber;
    PlainReads(s);
    LineReads(key, s);
  }

  lemma ListDocument(key: string, items: seq<string>)
    requires PlainKey(key) && items != [] && Bare(Joined(items)) && Joined(items) != "" && '#' !in Joined(items)
    requires forall item :: item in items ==> ',' !in item
    ensures Parse([key + ": " + ("[" + Joined(items) + "]")]) == Ok(Map(map[key := List(ReadAll(items))]))
  {
    hide Parse, PlainKey, ParseScalar, Joined, ReadAll;
    FlowListReads(items);
    LineReads(key, "[" + Joined(items) + "]");
  }
}
