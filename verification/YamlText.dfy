/** What the YAML reader makes of the text of a line (internal/config/yaml/yaml.go): the blanks it
    trims, the comment it cuts off, the token that is left, and the key it splits off. */
module YamlText {
  import opened Model
  import opened Yaml
  import opened OriginsEditor
  import opened OriginsTokens
  import opened OriginsLaws

  // ----- blanks -----

  predicate IsBlank(s: string) {
    forall i :: 0 <= i < |s| ==> s[i] in {' ', '\t', '\r'}
  }

  lemma {:induction false} TrimRightCuts(s: string)
    ensures IsBlank(s[|TrimRight(s)|..])
  {
    if s != "" && IsSpace(s[|s| - 1]) {
      var init := s[..|s| - 1];
      TrimRightCuts(init);
      assert s[|TrimRight(s)|..] == init[|TrimRight(s)|..] + [s[|s| - 1]];
    }
  }

  lemma {:induction false} TrimLeftCuts(s: string) returns (front: string)
    ensures s == front + TrimLeft(s) && IsBlank(front)
  {
    front := "";
    if s != "" && IsSpace(s[0]) {
      var rest := TrimLeftCuts(s[1..]);
      front := [s[0]] + rest;
    }
  }

  /** Trimming takes blanks off both ends and nothing else. */
  lemma TrimTakesBlanks(s: string) returns (front: string, back: string)
    ensures s == front + Trim(s) + back && IsBlank(front) && IsBlank(back)
    ensures Trim(s) != "" ==> Trim(s)[0] !in {' ', '\t', '\r'} && Trim(s)[|Trim(s)| - 1] !in {' ', '\t', '\r'}
  {
    hide TrimLeft, TrimRight, IsBlank;
    front := TrimLeftCuts(s);
    var t := TrimLeft(s);
    back := t[|TrimRight(t)|..];
    TrimRightCuts(t);
    assert t == TrimRight(t) + back;
  }

  // ----- comments -----

  /** The quote left open at the end of a text, if any: quotes of the other kind do not count
      inside one. */
  function OpenQuote(s: string): Option<char> {
    if s == "" then None
    else
      var c := s[|s| - 1];
      match OpenQuote(s[..|s| - 1])
      case None => if c == '\'' || c == '"' then Some(c) else None
      case Some(q) => if c == q then None else Some(q)
  }

  /** A comment starts here: a '#' after a space or tab, outside quotes. */
  predicate CommentAt(s: string, i: nat)
    requires i < |s|
  {
    i > 0 && s[i] == '#' && s[i - 1] in {' ', '\t'} && OpenQuote(s[..i]).None?
  }

  /** The scan's two flags say which quote is open. */
  ghost predicate InQuotes(s: string, i: nat, inS: bool, inD: bool)
    requires i <= |s|
  {
    !(inS && inD) && OpenQuote(s[..i]) == if inS then Some('\'') else if inD then Some('"') else None
  }

  lemma OneLetter(s: string, i: nat, inS: bool, inD: bool)
    requires i < |s| && InQuotes(s, i, inS, inD)
    ensures InQuotes(s, i + 1, if s[i] == '\'' && !inD then !inS else inS, if s[i] == '"' && !inS then !inD else inD)
    ensures CommentAt(s, i) <==> s[i] == '#' && !inS && !inD && i > 0 && (s[i - 1] == ' ' || s[i - 1] == '\t')
  {
    assert s[..i + 1][..i] == s[..i];
  }

  lemma {:induction false} StripFromCuts(s: string, i: nat, k: nat, inS: bool, inD: bool)
    requires i <= k <= |s| && InQuotes(s, i, inS, inD)
    requires forall j :: i <= j < k ==> !CommentAt(s, j)
    requires k < |s| ==> CommentAt(s, k)
    ensures StripFrom(s, i, inS, inD) == if k == |s| then s else TrimRight(s[..k])
    decreases |s| - i
  {
    hide CommentAt, InQuotes, TrimRight;
    if i < |s| {
      OneLetter(s, i, inS, inD);
      if i < k {
        StripFromCuts(s, i + 1, k, if s[i] == '\'' && !inD then !inS else inS, if s[i] == '"' && !inS then !inD else inD);
      }
    }
  }

  /** What is left of a text: all of it if no comment starts in it, else what is before the first,
      without the blanks that end it. */
  lemma StripCutsComment(s: string)
    ensures (forall k :: 0 <= k < |s| ==> !CommentAt(s, k)) ==> StripComment(s) == s
    ensures forall k :: 0 <= k < |s| && CommentAt(s, k) && (forall j :: 0 <= j < k ==> !CommentAt(s, j)) ==>
      StripComment(s) == TrimRight(s[..k])
  {
    if forall k :: 0 <= k < |s| ==> !CommentAt(s, k) {
      StripFromCuts(s, 0, |s|, false, false);
    }
    forall k | 0 <= k < |s| && CommentAt(s, k) && (forall j :: 0 <= j < k ==> !CommentAt(s, j))
      ensures StripComment(s) == TrimRight(s[..k])
    {
      StripFromCuts(s, 0, k, false, false);
    }
  }

  // ----- lines -----

  /** A line of `n` spaces and a rest: a tab at its start is an error; an empty one, a comment and a
      document marker make no token; any other makes one, at that indent, of the text before its
      comment. */
  lemma LineMakesToken(n: nat, rest: string)
    requires rest != "" ==> rest[0] != ' '
    ensures var line, content := Pad(n) + rest, TrimRight(rest);
      && (rest != "" && rest[0] == '\t' ==> TokenOf(line) == Err)
      && (IsBlank(rest) && (rest != "" ==> rest[0] != '\t') ==> TokenOf(line) == Ok(None))
      && (rest != "" && rest[0] == '#' ==> TokenOf(line) == Ok(None))
      && (content == "---" ==> TokenOf(line) == Ok(None))
      && (rest != "" && rest[0] !in {' ', '\t', '\r', '#'} && content != "---" ==> TokenOf(line) == Ok(Some(Token(n, StripComment(content)))))
  {
    var line := Pad(n) + rest;
    IndentOf(n, rest);
    assert line[n..] == rest;
    if IsBlank(rest) {
      BlankTrims(rest);
    } else if rest[0] !in {' ', '\t', '\r'} {
      HeadSurvives(rest);
    }
  }

  lemma {:induction false} IndentOf(n: nat, rest: string)
    requires rest != "" ==> rest[0] != ' '
    ensures Spaces(Pad(n) + rest) == n
  {
    if n == 0 {
      assert Pad(n) + rest == rest;
    } else {
      assert Pad(n)[1..] == Pad(n - 1);
      assert (Pad(n) + rest)[1..] == Pad(n - 1) + rest;
      IndentOf(n - 1, rest);
    }
  }

  lemma {:induction false} BlankTrims(s: string)
    requires IsBlank(s)
    ensures TrimRight(s) == ""
  {
    if s != "" {
      BlankTrims(s[..|s| - 1]);
    }
  }

  /** The first letter of a text that starts with none of blank or comment survives. */
  lemma HeadSurvives(rest: string)
    requires rest != "" && !IsSpace(rest[0])
    ensures TrimRight(rest) != "" && TrimRight(rest)[0] == rest[0]
    ensures Trim(StripComment(TrimRight(rest))) != ""
  {
    TrimRightHead(rest);
    var content := TrimRight(rest);
    StripHead(content, 0, false, false);
    var cut := StripComment(content);
    TrimRightHead(cut);
    assert TrimLeft(cut) == cut;
  }

  // ----- keys -----

  predicate Separates(s: string, i: nat) {
    i + 1 < |s| && s[i] == ':' && s[i + 1] == ' '
  }

  lemma {:induction false} SeparatorIsFirst(s: string, i: nat)
    requires i <= |s| && forall j :: 0 <= j < i ==> !Separates(s, j)
    requires Separates(s, i) || i == |s|
    ensures Separator(s) == i
  {
    if i > 0 && |s| >= 2 {
      assert !Separates(s, 0);
      forall j | 0 <= j < i - 1 ensures !Separates(s[1..], j) {
        assert !Separates(s, j + 1);
      }
      assert i < |s| ==> Separates(s[1..], i - 1);
      SeparatorIsFirst(s[1..], i - 1);
    }
  }

  /** A line is split at its first colon before a space; failing that at a colon that ends it; failing
      that it has no key. */
  lemma SplitsAtFirst(s: string, i: nat)
    requires i <= |s| && forall j :: 0 <= j < i ==> !Separates(s, j)
    ensures Separates(s, i) ==> SplitKey(s) == Some((Trim(s[..i]), Trim(s[i + 2..])))
    ensures i == |s| && s != "" && s[|s| - 1] == ':' ==> SplitKey(s) == Some((Trim(s[..|s| - 1]), ""))
    ensures i == |s| && (s == "" || s[|s| - 1] != ':') ==> SplitKey(s) == None
  {
    if Separates(s, i) || i == |s| {
      SeparatorIsFirst(s, i);
    }
  }
}
