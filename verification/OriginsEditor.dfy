/** The line-level editor of the `origins:` block (internal/config/persist_origins.go). A text
    is its lines; written backends and keys are plain, so quoting is adding quotes. */
module OriginsEditor {
  import opened Model
  import opened Yaml

  function Pad(n: int): string {
    if n <= 0 then "" else seq(n, i => ' ')
  }

  function Quote(s: string): string {
    "\"" + s + "\""
  }

  /** One entry: a quoted scalar line, or for a scoped entry a nested block map. */
  function OriginLines(service: string, backend: string, scope: string, indent: int): seq<string> {
    if scope == "" then [Pad(indent) + (service + ": " + Quote(backend))]
    else [Pad(indent) + (service + ":"), Pad(indent + 2) + ("addr" + ": " + Quote(backend)), Pad(indent + 2) + ("scope" + ": " + scope)]
  }

  /** Leading spaces, -1 when a tab is met. */
  function Lead(line: string): int {
    if Spaces(line) < |line| && line[Spaces(line)] == '\t' then -1 else Spaces(line)
  }

  /** Blank lines and whole-line comments. */
  predicate Skipped(line: string) {
    Trim(line) == "" || Trim(line)[0] == '#'
  }

  function Colon(s: string): (i: nat)
    ensures i <= |s|
  {
    if s == "" || s[0] == ':' then 0 else 1 + Colon(s[1..])
  }

  /** The text before the first colon. */
  function EditorKey(line: string): string {
    var t := Trim(line);
    if Colon(t) < |t| then Trim(t[..Colon(t)]) else t
  }

  predicate IsHeader(line: string) {
    Lead(line) == 0 && Trim(line) == "origins:"
  }

  /** All the editor looks at in a line. */
  datatype Sight = Sight(skipped: bool, lead: int, key: string, header: bool)

  function See(line: string): Sight {
    Sight(Skipped(line), Lead(line), EditorKey(line), IsHeader(line))
  }

  function Look(lines: seq<string>): seq<Sight> {
    seq(|lines|, i requires 0 <= i < |lines| => See(lines[i]))
  }

  /** The first bare `origins:` line from `i` on. */
  function FindHeader(seen: seq<Sight>, i: nat): (h: nat)
    requires i <= |seen|
    ensures i <= h <= |seen| && (h < |seen| ==> seen[h].header)
    decreases |seen| - i
  {
    if i == |seen| || seen[i].header then i else FindHeader(seen, i + 1)
  }

  /** Where the entry goes: over the lines from `at` on, or before line `at`. */
  datatype Place = Over(at: nat, indent: int) | Before(at: nat, indent: int)

  function OrTwo(blockIndent: int): int {
    if blockIndent == 0 then 2 else blockIndent
  }

  /** Scans the block's lines from `j` on; `blockIndent` is 0 until the first child. */
  function Locate(seen: seq<Sight>, service: string, j: nat, blockIndent: int): (p: Place)
    requires j <= |seen|
    ensures j <= p.at <= |seen| && (p.Over? ==> p.at < |seen|)
    decreases |seen| - j
  {
    if j == |seen| then Before(j, OrTwo(blockIndent))
    else if seen[j].skipped then Locate(seen, service, j + 1, blockIndent)
    else
      var ind := seen[j].lead;
      var block := if blockIndent == 0 then ind else blockIndent;
      if ind == 0 then Before(j, OrTwo(blockIndent))
      else if ind < block then Before(j, block)
      else if seen[j].key == service then Over(j, ind)
      else Locate(seen, service, j + 1, block)
  }

  /** The first line after an entry: blank, a comment, or not deeper than it. */
  function EntryEnd(seen: seq<Sight>, indent: int, j: nat): (e: nat)
    requires j <= |seen|
    ensures j <= e <= |seen|
    decreases |seen| - j
  {
    if j == |seen| || seen[j].skipped || seen[j].lead <= indent then j else EntryEnd(seen, indent, j + 1)
  }

  /** The text with an entry's lines put in place; an entry they go over is swallowed whole. */
  function PutEntry(lines: seq<string>, p: Place, entry: seq<string>): seq<string>
    requires p.at <= |lines| && (p.Over? ==> p.at < |lines|)
  {
    lines[..p.at] + entry + lines[if p.Over? then EntryEnd(Look(lines), p.indent, p.at + 1) else p.at..]
  }

  /** Sets one origin in the first bare `origins:` block; None when there is no such block. */
  function Edit(lines: seq<string>, service: string, backend: string, scope: string): Option<seq<string>> {
    var h := FindHeader(Look(lines), 0);
    if h == |lines| then None
    else
      var p := Locate(Look(lines), service, h + 1, 0);
      Some(PutEntry(lines, p, OriginLines(service, backend, scope, p.indent)))
  }

  predicate IsTopLevelKey(line: string, key: string) {
    var t := Trim(line);
    Lead(line) == 0 && !(t != "" && t[0] == '#') && Colon(t) < |t| && Trim(t[..Colon(t)]) == key
  }

  predicate HasTopLevelKey(lines: seq<string>, key: string) {
    exists i :: 0 <= i < |lines| && IsTopLevelKey(lines[i], key)
  }

  /** The lines of a text that a trailing newline, if missing, has been added to. */
  function Ended(lines: seq<string>): seq<string>
    requires lines != []
  {
    if lines[|lines| - 1] == "" then lines[..|lines| - 1] else lines
  }

  function Appended(lines: seq<string>, service: string, backend: string, scope: string): seq<string>
    requires lines != []
  {
    Ended(lines) + (["origins:"] + OriginLines(service, backend, scope, 2)) + [""]
  }

  /** A multi-edge document is refused; one without the block gets a fresh one at its end. */
  function WriteOrigin(lines: seq<string>, service: string, backend: string, scope: string): Result<seq<string>>
    requires lines != []
  {
    if HasTopLevelKey(lines, "edges") then Err
    else
      match Edit(lines, service, backend, scope)
      case Some(out) => Ok(out)
      case None => Ok(Appended(lines, service, backend, scope))
  }

  // ----- the editor's loops -----

  method FirstHeader(lines: seq<string>) returns (headerIdx: nat)
    ensures headerIdx == FindHeader(Look(lines), 0)
  {
    headerIdx := 0;
    while headerIdx < |lines| && !IsHeader(lines[headerIdx])
      invariant headerIdx <= |lines| && FindHeader(Look(lines), headerIdx) == FindHeader(Look(lines), 0)
    {
      headerIdx := headerIdx + 1;
    }
  }

  method FindPlace(lines: seq<string>, service: string, from: nat) returns (place: Place)
    requires from <= |lines|
    ensures place == Locate(Look(lines), service, from, 0)
  {
    var blockIndent, blockEnd := 0, from;
    var j := from;
    while j < |lines|
      invariant from <= j <= |lines| && blockEnd == j
      invariant Locate(Look(lines), service, j, blockIndent) == Locate(Look(lines), service, from, 0)
    {
      var line := See(lines[j]);
      if line.skipped {
        blockEnd := j + 1;
      } else {
        var ind := line.lead;
        if ind == 0 {
          break;
        }
        if blockIndent == 0 {
          blockIndent := ind;
        }
        if ind < blockIndent {
          break;
        }
        if line.key == service {
          return Over(j, ind);
        }
        blockEnd := j + 1;
      }
      j := j + 1;
    }
    return Before(blockEnd, OrTwo(blockIndent));
  }

  method ReplaceOrInsert(lines: seq<string>, service: string, backend: string, scope: string) returns (r: Option<seq<string>>)
    ensures r == Edit(lines, service, backend, scope)
  {
    hide See, OriginLines, PutEntry;
    var headerIdx := FirstHeader(lines);
    if headerIdx == |lines| {
      return None;
    }
    var place := FindPlace(lines, service, headerIdx + 1);
    var out := Splice(lines, place, OriginLines(service, backend, scope, place.indent));
    return Some(out);
  }

  method Splice(lines: seq<string>, place: Place, entry: seq<string>) returns (out: seq<string>)
    requires place.at <= |lines| && (place.Over? ==> place.at < |lines|)
    ensures out == PutEntry(lines, place, entry)
  {
    var end := place.at;
    if place.Over? {
      end := SwallowEntry(lines, place.indent, place.at + 1);
    }
    out := lines[..place.at] + entry + lines[end..];
  }

  method SwallowEntry(lines: seq<string>, indent: int, from: nat) returns (end: nat)
    requires from <= |lines|
    ensures end == EntryEnd(Look(lines), indent, from)
  {
    end := from;
    while end < |lines|
      invariant from <= end <= |lines| && EntryEnd(Look(lines), indent, end) == EntryEnd(Look(lines), indent, from)
    {
      var line := See(lines[end]);
      if line.skipped || line.lead <= indent {
        break;
      }
      end := end + 1;
    }
  }

  method SetTopLevelOrigin(lines: seq<string>, service: string, backend: string, scope: string) returns (r: Result<seq<string>>)
    requires lines != []
    ensures r == WriteOrigin(lines, service, backend, scope)
  {
    for i := 0 to |lines|
      invariant forall k :: 0 <= k < i ==> !IsTopLevelKey(lines[k], "edges")
    {
      if IsTopLevelKey(lines[i], "edges") {
        return Err;
      }
    }
    var out := ReplaceOrInsert(lines, service, backend, scope);
    match out
    case Some(text) => return Ok(text);
    case None => return Ok(Appended(lines, service, backend, scope));
  }
}
