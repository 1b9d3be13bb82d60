/** Where the editor puts an origin and what it leaves of the text, line by line
    (internal/config/persist_origins.go). */
module OriginsWrites {
  import opened Model
  import opened Yaml
  import opened OriginsEditor

  // ----- the place -----

  /** The first line of a block that is not skipped. */
  ghost predicate IsFirstChild(seen: seq<Sight>, h: nat, f: nat) {
    h < f < |seen| && !seen[f].skipped && forall k :: h < k < f ==> seen[k].skipped
  }

  /** A line that goes on with the block under line `h`: indented, and no less than its first child. */
  ghost predicate IsChild(seen: seq<Sight>, h: nat, j: nat) {
    h < j < |seen| && !seen[j].skipped && seen[j].lead != 0 && forall f: nat :: IsFirstChild(seen, h, f) ==> seen[f].lead <= seen[j].lead
  }

  /** Up to line `j` nothing has ended the block. */
  ghost predicate Unbroken(seen: seq<Sight>, h: nat, j: nat) {
    forall k :: h < k < j && k < |seen| && !seen[k].skipped ==> IsChild(seen, h, k)
  }

  /** The first child of the block, while it lasts, that the service names. */
  ghost predicate IsEntry(seen: seq<Sight>, service: string, h: nat, at: nat) {
    IsChild(seen, h, at) && Unbroken(seen, h, at) && seen[at].key == service
    && forall k :: h < k < at && !seen[k].skipped ==> seen[k].key != service
  }

  /** Where the block ends: at a line that does not go on with it, or with the text. */
  ghost predicate IsEnd(seen: seq<Sight>, h: nat, end: nat) {
    h < end <= |seen| && Unbroken(seen, h, end) && (end < |seen| ==> !seen[end].skipped && !IsChild(seen, h, end))
  }

  /** The scan stands at line `j`: it has met no child, or knows the first one's indent, and none of
      them was the service's. */
  ghost predicate Scanned(seen: seq<Sight>, service: string, h: nat, j: nat, blockIndent: int) {
    && h < j <= |seen| && Unbroken(seen, h, j)
    && (forall k :: h < k < j && !seen[k].skipped ==> seen[k].key != service)
    && (blockIndent == 0 ==> forall k :: h < k < j ==> seen[k].skipped)
    && (blockIndent != 0 ==> exists f: nat :: IsFirstChild(seen, h, f) && f < j && seen[f].lead == blockIndent)
  }

  lemma FirstChildIsOne(seen: seq<Sight>, h: nat, f: nat, g: nat)
    requires IsFirstChild(seen, h, f) && IsFirstChild(seen, h, g)
    ensures f == g
  {
  }

  lemma ChildIff(seen: seq<Sight>, h: nat, f: nat, j: nat)
    requires IsFirstChild(seen, h, f) && f <= j < |seen| && !seen[j].skipped
    ensures IsChild(seen, h, j) <==> seen[j].lead != 0 && seen[f].lead <= seen[j].lead
  {
    forall g: nat | IsFirstChild(seen, h, g) ensures g == f {
      FirstChildIsOne(seen, h, f, g);
    }
  }

  lemma ScannedChild(seen: seq<Sight>, service: string, h: nat, j: nat, blockIndent: int)
    requires Scanned(seen, service, h, j, blockIndent) && j < |seen| && !seen[j].skipped
    ensures var block := if blockIndent == 0 then seen[j].lead else blockIndent;
      && (IsChild(seen, h, j) <==> seen[j].lead != 0 && block <= seen[j].lead)
      && (IsChild(seen, h, j) && seen[j].key != service ==> Scanned(seen, service, h, j + 1, block))
  {
    hide IsChild, IsFirstChild;
    if blockIndent == 0 {
      StartsBlock(seen, h, j);
      ChildIff(seen, h, j, j);
    } else {
      var f: nat :| IsFirstChild(seen, h, f) && f < j && seen[f].lead == blockIndent;
      ChildIff(seen, h, f, j);
    }
  }

  lemma StartsBlock(seen: seq<Sight>, h: nat, j: nat)
    requires h < j < |seen| && !seen[j].skipped && forall k :: h < k < j ==> seen[k].skipped
    ensures IsFirstChild(seen, h, j)
  {
  }

  lemma {:induction false} LocateFinds(seen: seq<Sight>, service: string, h: nat, j: nat, blockIndent: int)
    requires Scanned(seen, service, h, j, blockIndent)
    ensures match Locate(seen, service, j, blockIndent)
            case Over(at, indent) => IsEntry(seen, service, h, at) && indent == seen[at].lead
            case Before(end, indent) =>
              && IsEnd(seen, h, end) && (forall k :: h < k < end && !seen[k].skipped ==> seen[k].key != service)
              && ((forall k :: h < k < end ==> seen[k].skipped) ==> indent == 2)
              && (forall f: nat :: IsFirstChild(seen, h, f) && f < end ==> indent == seen[f].lead)
    decreases |seen| - j
  {
    hide IsChild, IsFirstChild;
    if j == |seen| {
      ScanEnds(seen, service, h, j, blockIndent);
    } else if seen[j].skipped {
      ScannedSkip(seen, service, h, j, blockIndent);
      LocateFinds(seen, service, h, j + 1, blockIndent);
    } else {
      ScannedChild(seen, service, h, j, blockIndent);
      if !IsChild(seen, h, j) {
        ScanEnds(seen, service, h, j, blockIndent);
      } else if seen[j].key != service {
        LocateFinds(seen, service, h, j + 1, if blockIndent == 0 then seen[j].lead else blockIndent);
      }
    }
  }

  lemma ScannedSkip(seen: seq<Sight>, service: string, h: nat, j: nat, blockIndent: int)
    requires Scanned(seen, service, h, j, blockIndent) && j < |seen| && seen[j].skipped
    ensures Scanned(seen, service, h, j + 1, blockIndent)
  {
    hide IsChild, IsFirstChild;
  }

  lemma ScanEnds(seen: seq<Sight>, service: string, h: nat, j: nat, blockIndent: int)
    requires Scanned(seen, service, h, j, blockIndent) && (j < |seen| ==> !seen[j].skipped && !IsChild(seen, h, j))
    ensures IsEnd(seen, h, j)
    ensures (forall k :: h < k < j ==> seen[k].skipped) ==> OrTwo(blockIndent) == 2
    ensures forall f: nat :: IsFirstChild(seen, h, f) && f < j ==> OrTwo(blockIndent) == seen[f].lead
  {
    if blockIndent != 0 {
      var f: nat :| IsFirstChild(seen, h, f) && f < j && seen[f].lead == blockIndent;
      forall g: nat | IsFirstChild(seen, h, g) && g < j ensures seen[g].lead == blockIndent {
        FirstChildIsOne(seen, h, f, g);
      }
    }
  }

  /** The first line that does not go on with an entry: blank, a comment, or not deeper. */
  ghost predicate IsPast(seen: seq<Sight>, indent: int, at: nat, e: nat) {
    at < e <= |seen| && (forall k :: at < k < e ==> !seen[k].skipped && seen[k].lead > indent)
    && (e < |seen| ==> seen[e].skipped || seen[e].lead <= indent)
  }

  lemma {:induction false} EntryEndIsPast(seen: seq<Sight>, indent: int, at: nat, j: nat)
    requires at < j <= |seen| && forall k :: at < k < j ==> !seen[k].skipped && seen[k].lead > indent
    ensures IsPast(seen, indent, at, EntryEnd(seen, indent, j))
    decreases |seen| - j
  {
    if j < |seen| && !seen[j].skipped && seen[j].lead > indent {
      EntryEndIsPast(seen, indent, at, j + 1);
    }
  }

  ghost predicate IsHeaderLine(lines: seq<string>, h: nat) {
    h < |lines| && (lines[h] == "" || lines[h][0] !in {' ', '\t'}) && Trim(lines[h]) == "origins:"
  }

  lemma HeaderIff(line: string)
    ensures IsHeader(line) <==> (line == "" || line[0] !in {' ', '\t'}) && Trim(line) == "origins:"
  {
  }

  lemma {:induction false} FindHeaderIsFirst(lines: seq<string>, i: nat)
    requires i <= |lines| && forall k :: 0 <= k < i ==> !IsHeaderLine(lines, k)
    ensures var h := FindHeader(Look(lines), i);
      && (forall k :: 0 <= k < h ==> !IsHeaderLine(lines, k)) && (h < |lines| ==> IsHeaderLine(lines, h))
    decreases |lines| - i
  {
    hide Trim, IsHeader;
    if i < |lines| {
      HeaderIff(lines[i]);
      if !IsHeader(lines[i]) {
        FindHeaderIsFirst(lines, i + 1);
      }
    }
  }

  /** What an edit leaves: without a bare header, nothing. Else the text with the entry's lines put
      over the service's entry, up to the first line that does not go on with it and at its own
      indent; or, where the block has none, before the block's end, at the indent of its first child,
      two columns in when it has no child. Every other line is as it was. */
  lemma EditWrites(lines: seq<string>, service: string, backend: string, scope: string)
    ensures Edit(lines, service, backend, scope).None? <==> forall k :: 0 <= k < |lines| ==> !IsHeaderLine(lines, k)
    ensures Edit(lines, service, backend, scope).Some? ==> Written(lines, service, backend, scope, Edit(lines, service, backend, scope).value)
  {
    hide Look, Trim, IsHeaderLine, OriginLines, Locate, PutEntry, WrittenAt;
    FindHeaderIsFirst(lines, 0);
    LookLength(lines);
    var h := FindHeader(Look(lines), 0);
    if h < |lines| {
      var p := Locate(Look(lines), service, h + 1, 0);
      PlaceWritten(lines, Look(lines), service, h, OriginLines(service, backend, scope, p.indent));
    }
  }

  lemma PlaceWritten(lines: seq<string>, seen: seq<Sight>, service: string, h: nat, entry: seq<string>)
    requires seen == Look(lines) && |seen| == |lines| && h < |lines|
    ensures var p := Locate(seen, service, h + 1, 0); WrittenAt(lines, seen, service, entry, PutEntry(lines, p, entry), h, p)
  {
    hide Look, Locate, EntryEnd, IsFirstChild, IsChild, IsEntry, IsEnd, IsPast;
    assert Scanned(seen, service, h, h + 1, 0) by { StartScan(seen, service, h); }
    hide Scanned;
    LocateFinds(seen, service, h, h + 1, 0);
    var p := Locate(seen, service, h + 1, 0);
    if p.Over? {
      EntryEndIsPast(seen, p.indent, p.at, p.at + 1);
    }
  }

  lemma LookLength(lines: seq<string>)
    ensures |Look(lines)| == |lines|
  {
  }

  lemma StartScan(seen: seq<Sight>, service: string, h: nat)
    requires h < |seen|
    ensures Scanned(seen, service, h, h + 1, 0)
  {
  }

  ghost predicate Written(lines: seq<string>, service: string, backend: string, scope: string, out: seq<string>) {
    exists h: nat, p: Place :: IsHeaderLine(lines, h) && (forall k :: 0 <= k < h ==> !IsHeaderLine(lines, k))
      && |Look(lines)| == |lines| && WrittenAt(lines, Look(lines), service, OriginLines(service, backend, scope, p.indent), out, h, p)
  }

  ghost predicate WrittenAt(lines: seq<string>, seen: seq<Sight>, service: string, entry: seq<string>, out: seq<string>, h: nat, p: Place)
    requires |seen| == |lines|
  {
    match p
    case Over(at, indent) =>
      && IsEntry(seen, service, h, at) && indent == seen[at].lead
      && exists e: nat :: IsPast(seen, indent, at, e) && out == lines[..at] + entry + lines[e..]
    case Before(end, indent) =>
      && IsEnd(seen, h, end) && (forall k :: h < k < end && !seen[k].skipped ==> seen[k].key != service)
      && ((forall k :: h < k < end ==> seen[k].skipped) ==> indent == 2)
      && (forall f: nat :: IsFirstChild(seen, h, f) && f < end ==> indent == seen[f].lead)
      && out == lines[..end] + entry + lines[end..]
  }

  // ----- the text of an append -----

  /** The lines of a text, put together again. */
  function Joined(lines: seq<string>): string {
    if lines == [] then "" else if |lines| == 1 then lines[0] else Joined(lines[..|lines| - 1]) + "\n" + lines[|lines| - 1]
  }

  lemma {:induction false} JoinedAppend(a: seq<string>, b: seq<string>)
    requires a != [] && b != []
    ensures Joined(a + b) == Joined(a) + "\n" + Joined(b)
  {
    var init, last := b[..|b| - 1], b[|b| - 1];
    assert (a + b)[..|a + b| - 1] == a + init;
    if init == [] {
      assert a + init == a;
    } else {
      JoinedAppend(a, init);
      assert Joined(a + b) == Joined(a) + "\n" + Joined(init) + "\n" + last;
      assert Joined(a) + "\n" + Joined(init) + "\n" + last == Joined(a) + "\n" + (Joined(init) + "\n" + last);
    }
  }

  lemma TailText(entry: seq<string>)
    requires entry != []
    ensures Joined((["origins:"] + entry) + [""]) == "origins:\n" + Joined(entry) + "\n"
  {
    hide Joined;
    var block: seq<string> := ["origins:"] + entry;
    JoinedAppend(["origins:"], entry);
    JoinedAppend(block, [""]);
    OneLine("origins:");
    OneLine("");
    assert "origins:" + "\n" == "origins:\n";
  }

  lemma OneLine(line: string)
    ensures Joined([line]) == line
  {
  }

  /** Appending adds to the text a newline where it does not end in one, an empty text apart, the
      block and a newline. */
  lemma AppendWrites(lines: seq<string>, service: string, backend: string, scope: string)
    requires lines != []
    ensures Joined(Appended(lines, service, backend, scope))
         == Joined(lines) + (if lines[|lines| - 1] == "" then "" else "\n")
            + ("origins:\n" + Joined(OriginLines(service, backend, scope, 2)) + "\n")
  {
    hide Joined, OriginLines;
    var entry := OriginLines(service, backend, scope, 2);
    assert entry != [] by { EntryHasLines(service, backend, scope); }
    TailText(entry);
    BlockAppended(lines, (["origins:"] + entry) + [""]);
    assert Ended(lines) + (["origins:"] + entry) + [""] == Ended(lines) + ((["origins:"] + entry) + [""]);
  }

  lemma BlockAppended(lines: seq<string>, tail: seq<string>)
    requires lines != [] && tail != []
    ensures Joined(Ended(lines) + tail) == Joined(lines) + (if lines[|lines| - 1] == "" then "" else "\n") + Joined(tail)
  {
    hide Joined;
    var init, last := lines[..|lines| - 1], lines[|lines| - 1];
    assert lines == init + [last];
    OneLine("");
    if last != "" {
      JoinedAppend(lines, tail);
    } else if init == [] {
      assert lines == [""] && init + tail == tail;
    } else {
      JoinedAppend(init, tail);
      JoinedAppend(init, [""]);
    }
  }

  lemma EntryHasLines(service: string, backend: string, scope: string)
    ensures OriginLines(service, backend, scope, 2) != []
  {
  }

  /** The lines of an entry: one, or its address and scope two columns further in. */
  lemma EntryWrites(service: string, backend: string, scope: string, indent: int)
    ensures var pad := if indent <= 0 then "" else seq(indent, i => ' ');
      scope == "" ==> OriginLines(service, backend, scope, indent) == [pad + service + ": \"" + backend + "\""]
    ensures indent >= 0 && scope != "" ==>
      var pad := seq(indent, i => ' ');
      OriginLines(service, backend, scope, indent)
      == [pad + service + ":", pad + "  addr: \"" + backend + "\"", pad + "  scope: " + scope]
  {
    var pad := Pad(indent);
    assert pad + (service + ": " + Quote(backend)) == pad + service + ": \"" + backend + "\"";
    assert pad + (service + ":") == pad + service + ":";
    if indent >= 0 {
      assert pad == seq(indent, i => ' ');
      assert Pad(indent + 2) == pad + "  ";
      assert Pad(indent + 2) + ("addr" + ": " + Quote(backend)) == pad + "  addr: \"" + backend + "\"";
      assert Pad(indent + 2) + ("scope" + ": " + scope) == pad + "  scope: " + scope;
    }
  }

  // ----- the refusal -----

  /** A line at the margin, no comment, whose text up to its first colon is the key. */
  ghost predicate IsTopLevel(line: string, key: string) {
    && (line == "" || line[0] !in {' ', '\t'}) && (Trim(line) != "" ==> Trim(line)[0] != '#')
    && exists n :: 0 <= n < |Trim(line)| && Trim(line)[n] == ':' && ':' !in Trim(line)[..n] && Trim(Trim(line)[..n]) == key
  }

  lemma {:induction false} ColonIsFirst(s: string)
    ensures ':' !in s[..Colon(s)] && (Colon(s) < |s| ==> s[Colon(s)] == ':')
    ensures forall n :: 0 <= n < |s| && s[n] == ':' && ':' !in s[..n] ==> n == Colon(s)
  {
    if s != "" && s[0] != ':' {
      ColonIsFirst(s[1..]);
      assert s[..Colon(s)] == [s[0]] + s[1..][..Colon(s[1..])];
      forall n | 0 <= n < |s| && s[n] == ':' && ':' !in s[..n] ensures n == Colon(s) {
        assert n > 0 && s[1..][n - 1] == ':';
        assert forall c :: c in s[1..][..n - 1] ==> c in s[..n];
      }
    } else {
      forall n | 0 < n < |s| && s[0] == ':' ensures ':' in s[..n] {
        assert s[..n][0] == ':';
      }
    }
  }

  lemma TopLevelIff(line: string, key: string)
    ensures IsTopLevelKey(line, key) <==> IsTopLevel(line, key)
  {
    hide Trim;
    ColonIsFirst(Trim(line));
  }

  /** Writing an origin is refused exactly for a text with a top-level `edges`; any other is edited
      or, without a bare header, appended to. */
  lemma WriteRefusedIff(lines: seq<string>, service: string, backend: string, scope: string)
    requires lines != []
    ensures WriteOrigin(lines, service, backend, scope).Err? <==> exists i :: 0 <= i < |lines| && IsTopLevel(lines[i], "edges")
    ensures WriteOrigin(lines, service, backend, scope).Ok? ==>
      var edited := Edit(lines, service, backend, scope);
      WriteOrigin(lines, service, backend, scope).value
      == if edited.Some? then edited.value else Appended(lines, service, backend, scope)
  {
    hide Edit, IsTopLevel, IsTopLevelKey, Appended;
    forall i | 0 <= i < |lines| ensures IsTopLevelKey(lines[i], "edges") <==> IsTopLevel(lines[i], "edges") {
      TopLevelIff(lines[i], "edges");
    }
  }
}
