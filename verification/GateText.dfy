/** What a structured editor's request makes of a task document's text, computed before the edit is carried out. */
module GateText {
  import opened Wrappers
  import opened Text
  import ChatText

  // ---- replacing text ----

  /** The places of a text, from the left and without overlap. */
  function Places(text: string, part: string, i: nat): seq<nat>
    requires part != ""
    decreases |text| - i
  {
    var at := FindFrom(text, part, i);
    if at.None? then [] else [at.value] + Places(text, part, at.value + |part|)
  }

  function Count(text: string, part: string): nat {
    if part == "" then |text| + 1 else |Places(text, part, 0)|
  }

  function ReplaceFirst(text: string, part: string, other: string): string {
    var at := FindFrom(text, part, 0);
    if at.None? then text else text[..at.value] + other + text[at.value + |part|..]
  }

  function ReplaceEvery(text: string, part: string, other: string, i: nat): string
    requires part != "" && i <= |text|
    decreases |text| - i
  {
    var at := FindFrom(text, part, i);
    if at.None? then text[i..] else text[i..at.value] + other + ReplaceEvery(text, part, other, at.value + |part|)
  }

  datatype Edit = Edit(part: string, other: string, every: bool)

  function ApplyEdit(text: string, e: Edit): Result<string, string> {
    if e.part == "" then Err("Edit payload has no nonempty old_string")
    else if Count(text, e.part) == 0 then Err("Edit old_string is not present in task.md")
    else if Count(text, e.part) > 1 && !e.every then Err("Edit old_string is ambiguous")
    else Ok(if e.every then ReplaceEvery(text, e.part, e.other, 0) else ReplaceFirst(text, e.part, e.other))
  }

  function ApplyEdits(text: string, edits: seq<Edit>): Result<string, string> {
    if edits == [] then Ok(text)
    else match ApplyEdits(text, edits[..|edits| - 1])
      case Err(x) => Err(x)
      case Ok(candidate) => ApplyEdit(candidate, edits[|edits| - 1])
  }

  /** Several edits, each on the result of the one before; the first that fails decides. */
  method MultiEdit(text: string, edits: seq<Edit>) returns (r: Result<string, string>)
    ensures edits == [] ==> r.Err?
    ensures edits != [] ==> r == ApplyEdits(text, edits)
  {
    if edits == [] {
      return Err("MultiEdit payload has no edits");
    }
    var candidate := text;
    assert edits[..|edits|] == edits;
    var k := 0;
    while k < |edits|
      invariant k <= |edits| && ApplyEdits(text, edits[..k]) == Ok(candidate)
    {
      assert edits[..k + 1][..k] == edits[..k];
      EditStops(text, edits, k + 1);
      var one := ApplyEdit(candidate, edits[k]);
      if one.Err? {
        return one;
      }
      candidate := one.value;
      k := k + 1;
    }
    r := Ok(candidate);
  }

  lemma {:induction false} EditStops(text: string, edits: seq<Edit>, k: nat)
    requires k <= |edits|
    ensures ApplyEdits(text, edits[..k]).Err? ==> ApplyEdits(text, edits) == ApplyEdits(text, edits[..k])
    decreases |edits| - k
  {
    if k < |edits| {
      assert edits[..k + 1][..k] == edits[..k];
      EditStops(text, edits, k + 1);
    } else {
      assert edits[..k] == edits;
    }
  }

  // ---- patches ----

  function Lines(ls: seq<string>): string {
    if ls == [] then "" else if |ls| == 1 then ls[0] else ls[0] + "\n" + Lines(ls[1..])
  }

  function ReplaceOnce(text: string, olds: seq<string>, news: seq<string>): Result<string, string> {
    var part, other := Lines(olds), Lines(news);
    if FindFrom(text, part, 0).None? then
      if FindFrom(text, part + "\n", 0).None? then Err("apply_patch task hunk does not match task.md")
      else Ok(ReplaceFirst(text, part + "\n", other + "\n"))
    else if Count(text, part) > 1 then Err("apply_patch task hunk is ambiguous")
    else Ok(ReplaceFirst(text, part, other))
  }

  const UPDATE := "*** Update File: "
  const STARS := "*** "
  const HUNK := "@@"

  function Slashes(s: string): string {
    if s == "" then "" else [if s[0] == '\\' then '/' else s[0]] + Slashes(s[1..])
  }

  function NoLeadingSlash(s: string): string {
    if s != "" && s[0] == '/' then NoLeadingSlash(s[1..]) else s
  }

  function NormalPath(s: string): string {
    NoLeadingSlash(Slashes(s))
  }

  predicate SamePath(a: string, b: string) {
    a == b || EndsWith(b, "/" + a) || EndsWith(a, "/" + b)
  }

  function SectionEnd(lines: seq<string>, i: nat): (k: nat)
    requires i <= |lines|
    ensures i <= k <= |lines| && (forall j | i <= j < k :: !(STARS <= lines[j])) && (k < |lines| ==> STARS <= lines[k])
    decreases |lines| - i
  {
    if i == |lines| || STARS <= lines[i] then i else SectionEnd(lines, i + 1)
  }

  /** The hunks of a section; a line that starts with two at-signs only separates them. */
  function Hunks(section: seq<string>, current: seq<string>): seq<seq<string>>
    decreases |section|
  {
    if section == [] then (if current == [] then [] else [current])
    else if HUNK <= section[0] then (if current == [] then [] else [current]) + Hunks(section[1..], [])
    else Hunks(section[1..], current + [section[0]])
  }

  predicate IsOld(line: string) {
    line == "" || line[0] != '+'
  }

  predicate IsNew(line: string) {
    line == "" || line[0] != '-'
  }

  /** Without the sign in front, if there is one. */
  function Unsigned(line: string): string {
    if line != "" && (line[0] == '-' || line[0] == '+' || line[0] == ' ') then line[1..] else line
  }

  function OldLines(hunk: seq<string>): seq<string> {
    if hunk == [] then [] else (if IsOld(hunk[0]) then [Unsigned(hunk[0])] else []) + OldLines(hunk[1..])
  }

  function NewLines(hunk: seq<string>): seq<string> {
    if hunk == [] then [] else (if IsNew(hunk[0]) then [Unsigned(hunk[0])] else []) + NewLines(hunk[1..])
  }

  function ApplyHunks(candidate: string, hunks: seq<seq<string>>): Result<string, string>
    decreases |hunks|
  {
    if hunks == [] then Ok(candidate)
    else if OldLines(hunks[0]) == [] then Err("apply_patch task hunk has no validation context")
    else match ReplaceOnce(candidate, OldLines(hunks[0]), NewLines(hunks[0]))
      case Err(x) => Err(x)
      case Ok(next) => ApplyHunks(next, hunks[1..])
  }

  function ApplyFrom(lines: seq<string>, i: nat, target: string, candidate: string, found: bool): Result<string, string>
    requires i <= |lines|
    decreases |lines| - i
  {
    if i == |lines| then
      if found then Ok(candidate) else Err("apply_patch contains no update for the active task.md")
    else if !(UPDATE <= lines[i]) then ApplyFrom(lines, i + 1, target, candidate, found)
    else
      var k := SectionEnd(lines, i + 1);
      if !SamePath(NormalPath(ChatText.Trim(lines[i][|UPDATE|..])), NormalPath(target))
        then ApplyFrom(lines, k, target, candidate, found)
      else match ApplyHunks(candidate, Hunks(lines[i + 1..k], []))
        case Err(x) => Err(x)
        case Ok(next) => ApplyFrom(lines, k, target, next, true)
  }

  method ReadSection(lines: seq<string>, i: nat) returns (section: seq<string>, k: nat)
    requires i <= |lines|
    ensures k == SectionEnd(lines, i) && section == lines[i..k]
  {
    k, section := i, [];
    while k < |lines| && !(STARS <= lines[k])
      invariant i <= k <= |lines| && section == lines[i..k]
      invariant SectionEnd(lines, k) == SectionEnd(lines, i)
    {
      section := section + [lines[k]];
      k := k + 1;
    }
  }

  method CollectHunks(section: seq<string>) returns (hunks: seq<seq<string>>)
    ensures hunks == Hunks(section, [])
  {
    hunks := [];
    var current: seq<string> := [];
    assert section[0..] == section;
    for i := 0 to |section|
      invariant hunks + Hunks(section[i..], current) == Hunks(section, [])
    {
      assert section[i..][1..] == section[i + 1..];
      if HUNK <= section[i] {
        if current != [] {
          hunks := hunks + [current];
          current := [];
        }
      } else {
        current := current + [section[i]];
      }
    }
    if current != [] {
      hunks := hunks + [current];
    }
  }

  method ApplyAll(before: string, hunks: seq<seq<string>>) returns (r: Result<string, string>)
    ensures r == ApplyHunks(before, hunks)
  {
    var candidate, h := before, 0;
    assert hunks[0..] == hunks;
    while h < |hunks|
      invariant h <= |hunks| && ApplyHunks(candidate, hunks[h..]) == ApplyHunks(before, hunks)
    {
      assert hunks[h..][1..] == hunks[h + 1..];
      if OldLines(hunks[h]) == [] {
        return Err("apply_patch task hunk has no validation context");
      }
      var one := ReplaceOnce(candidate, OldLines(hunks[h]), NewLines(hunks[h]));
      if one.Err? {
        return one;
      }
      candidate := one.value;
      h := h + 1;
    }
    r := Ok(candidate);
  }

  /** The program: an index goes through the patch, and every hunk for the target changes the candidate. */
  method ApplyPatch(original: string, lines: seq<string>, target: string) returns (r: Result<string, string>)
    ensures r == ApplyFrom(lines, 0, target, original, false)
  {
    var candidate, found, i := original, false, 0;
    while i < |lines|
      invariant i <= |lines|
                && ApplyFrom(lines, i, target, candidate, found) == ApplyFrom(lines, 0, target, original, false)
      decreases |lines| - i
    {
      var line := lines[i];
      if !(UPDATE <= line) {
        i := i + 1;
        continue;
      }
      var section, k := ReadSection(lines, i + 1);
      if SamePath(NormalPath(ChatText.Trim(line[|UPDATE|..])), NormalPath(target)) {
        var hunks := CollectHunks(section);
        var applied := ApplyAll(candidate, hunks);
        if applied.Err? {
          return applied;
        }
        candidate, found := applied.value, true;
      }
      i := k;
    }
    r := if found then Ok(candidate) else Err("apply_patch contains no update for the active task.md");
  }

  // ---- what is replaced ----

  lemma FoundIsCut(text: string, part: string, at: nat)
    requires At(text, part, at)
    ensures text == text[..at] + part + text[at + |part|..]
  {}

  /** A hunk replaces its one place and leaves the text before and after as it was. */
  lemma ReplaceOnceReplaces(text: string, olds: seq<string>, news: seq<string>) returns (pre: string, post: string)
    requires ReplaceOnce(text, olds, news).Ok?
    ensures text == pre + Lines(olds) + post && ReplaceOnce(text, olds, news).value == pre + Lines(news) + post
    ensures Count(text, Lines(olds)) == 1
  {
    var part := Lines(olds);
    NewlineIsNoHelp(text, part);
    var at := FindFrom(text, part, 0).value;
    FoundIsCut(text, part, at);
    pre, post := text[..at], text[at + |part|..];
    if part != "" { assert Places(text, part, 0) != []; }
  }

  /** A text without the hunk does not hold it with a newline either, so the second attempt never succeeds. */
  lemma NewlineIsNoHelp(text: string, part: string)
    ensures FindFrom(text, part, 0).None? ==> FindFrom(text, part + "\n", 0).None?
  {
    var at := FindFrom(text, part + "\n", 0);
    if at.Some? {
      assert text[at.value..at.value + |part|] == text[at.value..at.value + |part + "\n"|][..|part|];
      assert At(text, part, at.value);
    }
  }

  /** Pieces of text with a separator between them. */
  function Joined(pieces: seq<string>, separator: string): string {
    if pieces == [] then ""
    else if |pieces| == 1 then pieces[0]
    else pieces[0] + separator + Joined(pieces[1..], separator)
  }

  /**
   The pieces between the places of a part, from the left: the part is found first at the end of each, and not in the
   last.
   */
  ghost predicate Cuts(pieces: seq<string>, part: string) {
    && pieces != [] && !Occurs(pieces[|pieces| - 1], part)
    && forall k | 0 <= k < |pieces| - 1 :: FindFrom(pieces[k] + part, part, 0) == Some(|pieces[k]|)
  }

  lemma LastPiece(text: string, part: string, i: nat)
    requires part != "" && i <= |text| && FindFrom(text, part, i).None?
    ensures !Occurs(text[i..], part)
  {
    var at := FindFrom(text[i..], part, 0);
    if at.Some? {
      assert text[..i] + text[i..] == text;
      AtSuffix(text[..i], text[i..], part, i + at.value);
    }
  }

  lemma PieceBefore(text: string, part: string, i: nat, at: nat)
    requires part != "" && i <= |text| && FindFrom(text, part, i) == Some(at)
    ensures FindFrom(text[i..at] + part, part, 0) == Some(at - i)
  {
    hide FindFrom;
    var piece := text[i..at];
    var s := piece + part;
    var before, after := text[..i], text[at + |part|..];
    assert before + (s + after) == text && s + after == piece + (part + after);
    forall j | 0 <= j <= at - i ensures At(s, part, j) <==> At(text, part, i + j) {
      AtPrefix(s, after, part, j);
      AtSuffix(before, s + after, part, i + j);
    }
    FindIs(s, part, 0, at - i);
  }

  lemma CutsMore(piece: string, rest: seq<string>, part: string)
    requires Cuts(rest, part) && FindFrom(piece + part, part, 0) == Some(|piece|)
    ensures Cuts([piece] + rest, part)
    ensures forall separator :: Joined([piece] + rest, separator) == piece + separator + Joined(rest, separator)
  {
    hide FindFrom;
    var pieces := [piece] + rest;
    assert pieces[1..] == rest;
    forall k | 0 <= k < |pieces| - 1 ensures FindFrom(pieces[k] + part, part, 0) == Some(|pieces[k]|) {
      if k > 0 { assert pieces[k] == rest[k - 1]; }
    }
  }

  lemma {:induction false} CutFrom(text: string, part: string, other: string, i: nat) returns (pieces: seq<string>)
    requires part != "" && i <= |text|
    ensures Cuts(pieces, part) && |pieces| == |Places(text, part, i)| + 1
    ensures text[i..] == Joined(pieces, part) && ReplaceEvery(text, part, other, i) == Joined(pieces, other)
    decreases |text| - i
  {
    hide FindFrom, Cuts, Occurs;
    var at := FindFrom(text, part, i);
    if at.None? {
      pieces := [text[i..]];
      LastPiece(text, part, i);
      OnePiece(text[i..], part);
    } else {
      var rest := CutFrom(text, part, other, at.value + |part|);
      PieceBefore(text, part, i, at.value);
      CutsMore(text[i..at.value], rest, part);
      pieces := [text[i..at.value]] + rest;
      assert text[i..] == text[i..at.value] + part + text[at.value + |part|..];
    }
  }

  lemma OnePiece(piece: string, part: string)
    requires !Occurs(piece, part)
    ensures Cuts([piece], part)
  {}

  /** An edit of every place keeps the pieces between the places and changes nothing but what is between them. */
  lemma EveryPlaceIsReplaced(text: string, e: Edit) returns (pieces: seq<string>)
    requires ApplyEdit(text, e).Ok? && e.every
    ensures Cuts(pieces, e.part) && |pieces| == Count(text, e.part) + 1
    ensures text == Joined(pieces, e.part) && ApplyEdit(text, e).value == Joined(pieces, e.other)
  {
    pieces := CutFrom(text, e.part, e.other, 0);
    assert text[0..] == text;
  }

  /** Nowhere else, not even overlapping the first place. */
  predicate OnlyPlace(text: string, part: string) {
    var at := FindFrom(text, part, 0);
    at.Some? && FindFrom(text, part, at.value + 1).None?
  }

  /** An edit that is accepted as unambiguous has one place, unless another one overlaps it. */
  lemma AcceptedIsOnly(text: string, e: Edit)
    requires ApplyEdit(text, e).Ok? && !e.every
    ensures var at := FindFrom(text, e.part, 0);
            && at.Some? && ApplyEdit(text, e).value == text[..at.value] + e.other + text[at.value + |e.part|..]
            && (OnlyPlace(text, e.part) <==> forall j | at.value < j < at.value + |e.part| :: !At(text, e.part, j))
  {
    var at := FindFrom(text, e.part, 0);
    assert at.Some?;
    assert Places(text, e.part, 0) == [at.value] + Places(text, e.part, at.value + |e.part|);
    assert FindFrom(text, e.part, at.value + |e.part|).None?;
  }

  /** The part can overlap itself: its end is also its beginning. */
  predicate Bordered(part: string) {
    exists d | 0 < d < |part| :: part[d..] == part[..|part| - d]
  }

  lemma OverlapIsBorder(text: string, part: string, at: nat, j: nat)
    requires At(text, part, at) && at < j < at + |part| && At(text, part, j)
    ensures Bordered(part)
  {
    var d := j - at;
    assert part[d..] == text[at..at + |part|][d..] == text[j..at + |part|];
    assert part[..|part| - d] == text[j..j + |part|][..|part| - d] == text[j..at + |part|];
  }

  lemma BorderOverlaps(part: string, other: string, d: nat)
    requires 0 < d < |part| && part[d..] == part[..|part| - d]
    ensures var text := part[..d] + part; ApplyEdit(text, Edit(part, other, false)).Ok? && !OnlyPlace(text, part)
  {
    var text := part[..d] + part;
    assert text[0..|part|] == part[..d] + part[..|part| - d] == part[..d] + part[d..] == part;
    assert text[d..d + |part|] == part;
    assert FindFrom(text, part, 0) == Some(0);
    assert At(text, part, d);
    assert Places(text, part, 0) == [0] + Places(text, part, |part|);
    assert Places(text, part, |part|) == [];
  }

  /** An accepted edit replaces the only place, in every text, exactly when its part cannot overlap itself. */
  lemma AcceptedIsOnlyIff(part: string)
    requires part != ""
    ensures (forall text, other :: ApplyEdit(text, Edit(part, other, false)).Ok? ==> OnlyPlace(text, part)) <==>
            !Bordered(part)
  {
    if !Bordered(part) {
      forall text, other | ApplyEdit(text, Edit(part, other, false)).Ok? ensures OnlyPlace(text, part) {
        var at := FindFrom(text, part, 0);
        AcceptedIsOnly(text, Edit(part, other, false));
        forall j | at.value < j < at.value + |part| ensures !At(text, part, j) {
          if At(text, part, j) { OverlapIsBorder(text, part, at.value, j); }
        }
      }
    } else {
      var d :| 0 < d < |part| && part[d..] == part[..|part| - d];
      BorderOverlaps(part, "", d);
    }
  }

  /** "aaa" holds "aa" twice, but the second place overlaps the first and is not counted. */
  lemma OverlapIsNotCounted()
    ensures ApplyEdit("aaa", Edit("aa", "b", false)) == Ok("ba") && !OnlyPlace("aaa", "aa")
  {
    var text, part := "aaa", "aa";
    assert text[0..2] == part && text[1..3] == part && text[2..] == "a";
    assert FindFrom(text, part, 0) == Some(0) && FindFrom(text, part, 1) == Some(1);
    assert FindFrom(text, part, 2) == None;
    assert Places(text, part, 0) == [0] + Places(text, part, 2);
    assert Places(text, part, 2) == [];
    assert Count(text, part) == 1;
    assert ReplaceFirst(text, part, "b") == "b" + "a";
    assert "b" + "a" == "ba";
  }

  // ---- a patch as it is meant ----

  /** A line without a sign is kept, like one with a blank in front. */
  datatype Change = Keep(line: string) | Bare(line: string) | Drop(line: string) | Put(line: string)

  function Signed(c: Change): string {
    match c
    case Keep(line) => " " + line
    case Bare(line) => line
    case Drop(line) => "-" + line
    case Put(line) => "+" + line
  }

  function SignedAll(changes: seq<Change>): (r: seq<string>)
    ensures |r| == |changes|
  {
    if changes == [] then [] else [Signed(changes[0])] + SignedAll(changes[1..])
  }

  function Before(changes: seq<Change>): seq<string> {
    if changes == [] then [] else (if changes[0].Put? then [] else [changes[0].line]) + Before(changes[1..])
  }

  function Afterwards(changes: seq<Change>): seq<string> {
    if changes == [] then [] else (if changes[0].Drop? then [] else [changes[0].line]) + Afterwards(changes[1..])
  }

  /** A hunk that is not taken for something else, and has a line to be found by. */
  ghost predicate IsHunk(changes: seq<Change>) {
    && Before(changes) != []
    && forall c | c in changes && c.Bare? ::
         !("*** " <= c.line) && !("@@" <= c.line) && (c.line == "" || c.line[0] !in {' ', '-', '+'})
  }

  predicate IsBody(lines: seq<string>) {
    forall l | l in lines :: !(STARS <= l) && !(HUNK <= l)
  }

  lemma {:induction false} SignsAreRead(changes: seq<Change>)
    requires forall c | c in changes && c.Bare? ::
               !("*** " <= c.line) && !("@@" <= c.line) && (c.line == "" || c.line[0] !in {' ', '-', '+'})
    ensures OldLines(SignedAll(changes)) == Before(changes) && NewLines(SignedAll(changes)) == Afterwards(changes)
    ensures IsBody(SignedAll(changes))
  {
    if changes != [] {
      SignsAreRead(changes[1..]);
      var s := Signed(changes[0]);
      if !changes[0].Bare? { assert s[1..] == changes[0].line; }
      assert changes[0] in changes;
      assert SignedAll(changes)[1..] == SignedAll(changes[1..]);
    }
  }

  /** The hunks, each behind a separating line. */
  function Written(hunks: seq<seq<Change>>): seq<string> {
    if hunks == [] then [] else [HUNK] + SignedAll(hunks[0]) + Written(hunks[1..])
  }

  function SignedHunks(hunks: seq<seq<Change>>): seq<seq<string>> {
    if hunks == [] then [] else [SignedAll(hunks[0])] + SignedHunks(hunks[1..])
  }

  /** A hunk ends where the next separating line stands. */
  lemma {:induction false} HunkEnds(lines: seq<string>, rest: seq<string>, current: seq<string>)
    requires IsBody(lines) && lines + current != [] && (rest != [] ==> HUNK <= rest[0])
    ensures Hunks(lines + rest, current) == [current + lines] + Hunks(rest, [])
    decreases |lines|
  {
    if lines == [] {
      assert lines + rest == rest && current + lines == current;
    } else {
      assert lines[0] in lines && forall l | l in lines[1..] :: l in lines;
      assert (lines + rest)[1..] == lines[1..] + rest;
      assert current + lines == (current + [lines[0]]) + lines[1..];
      HunkEnds(lines[1..], rest, current + [lines[0]]);
    }
  }

  lemma {:induction false} HunksAreRead(hunks: seq<seq<Change>>)
    requires forall h | h in hunks :: IsHunk(h)
    ensures Hunks(Written(hunks), []) == SignedHunks(hunks)
    ensures forall l | l in Written(hunks) :: !(STARS <= l)
  {
    if hunks != [] {
      var first, rest := SignedAll(hunks[0]), Written(hunks[1..]);
      assert hunks[0] in hunks;
      HunksAreRead(hunks[1..]);
      SignsAreRead(hunks[0]);
      HunkEnds(first, rest, []);
      assert Written(hunks) == [HUNK] + (first + rest);
      assert [] + first == first;
    }
  }

  /** One replacement after the other, up to the first that is refused. */
  function ReplaceAllOnce(text: string, hunks: seq<seq<Change>>): Result<string, string>
    decreases |hunks|
  {
    if hunks == [] then Ok(text)
    else match ReplaceOnce(text, Before(hunks[0]), Afterwards(hunks[0]))
      case Err(x) => Err(x)
      case Ok(next) => ReplaceAllOnce(next, hunks[1..])
  }

  lemma {:induction false} HunksReplace(text: string, hunks: seq<seq<Change>>)
    requires forall h | h in hunks :: IsHunk(h)
    ensures ApplyHunks(text, SignedHunks(hunks)) == ReplaceAllOnce(text, hunks)
    decreases |hunks|
  {
    if hunks != [] {
      assert hunks[0] in hunks;
      SignsAreRead(hunks[0]);
      assert SignedHunks(hunks)[1..] == SignedHunks(hunks[1..]);
      match ReplaceOnce(text, Before(hunks[0]), Afterwards(hunks[0]))
      case Err(x) =>
      case Ok(next) => HunksReplace(next, hunks[1..]);
    }
  }

  lemma {:induction false} EndsThere(lines: seq<string>, i: nat)
    requires i <= |lines| && forall j | i <= j < |lines| :: !(STARS <= lines[j])
    ensures SectionEnd(lines, i) == |lines|
    decreases |lines| - i
  {
    if i < |lines| { EndsThere(lines, i + 1); }
  }

  lemma SectionIsApplied(original: string, body: seq<string>, path: string, target: string)
    requires SamePath(NormalPath(ChatText.Trim(path)), NormalPath(target)) && forall l | l in body :: !(STARS <= l)
    ensures ApplyFrom([UPDATE + path] + body, 0, target, original, false) == ApplyHunks(original, Hunks(body, []))
  {
    var lines := [UPDATE + path] + body;
    forall j | 1 <= j < |lines| ensures !(STARS <= lines[j]) { assert lines[j] == body[j - 1] && lines[j] in body; }
    EndsThere(lines, 1);
    assert lines[1..|lines|] == body && lines[0][|UPDATE|..] == path;
  }

  /** A patch for the target carries out its hunks one after the other: each replaces its old lines by its new ones. */
  lemma PatchIsReplacement(original: string, hunks: seq<seq<Change>>, path: string, target: string)
    requires (forall h | h in hunks :: IsHunk(h)) && SamePath(NormalPath(ChatText.Trim(path)), NormalPath(target))
    ensures ApplyFrom([UPDATE + path] + Written(hunks), 0, target, original, false) == ReplaceAllOnce(original, hunks)
  {
    HunksAreRead(hunks);
    SectionIsApplied(original, Written(hunks), path, target);
    HunksReplace(original, hunks);
  }

  /**
   A hunk is carried out exactly when it has an old line and its old lines stand in one place, counted without overlap.
   */
  lemma HunkIff(text: string, hunk: seq<string>)
    ensures ApplyHunks(text, [hunk]).Ok? <==> OldLines(hunk) != [] && Count(text, Lines(OldLines(hunk))) == 1
  {
    var part := Lines(OldLines(hunk));
    NewlineIsNoHelp(text, part);
    assert [hunk][1..] == [];
    if part != "" { assert Places(text, part, 0) == [] <==> FindFrom(text, part, 0).None?; }
  }

  // ---- which files a patch is for ----

  /** One path is the other, or ends in it behind a slash. */
  lemma SamePathIff(a: string, b: string)
    ensures SamePath(a, b) <==> a == b || (exists d :: b == d + "/" + a) || (exists d :: a == d + "/" + b)
  {
    EndIs(b, "/" + a);
    EndIs(a, "/" + b);
    if EndsWith(b, "/" + a) { assert b == b[..|b| - |"/" + a|] + "/" + a; }
    if EndsWith(a, "/" + b) { assert a == a[..|a| - |"/" + b|] + "/" + b; }
    if d :| b == d + "/" + a { assert b == d + ("/" + a); }
    if d :| a == d + "/" + b { assert a == d + ("/" + b); }
  }

  lemma EndIs(s: string, end: string)
    ensures EndsWith(s, end) <==> exists d :: s == d + end
  {
    if EndsWith(s, end) { assert s == s[..|s| - |end|] + end; }
  }

  /** Backslashes count as slashes, and slashes in front do not count. */
  lemma {:induction false} NormalPathIs(s: string)
    ensures |Slashes(s)| == |s| && forall i | 0 <= i < |s| :: Slashes(s)[i] == if s[i] == '\\' then '/' else s[i]
    ensures NormalPath(s) == "" || NormalPath(s)[0] != '/'
    ensures |NormalPath(s)| <= |s| && NormalPath(s) == Slashes(s)[|s| - |NormalPath(s)|..]
    ensures forall i | 0 <= i < |s| - |NormalPath(s)| :: s[i] in {'/', '\\'}
  {
    SlashesAre(s);
    LeadingSlashes(Slashes(s));
  }

  lemma {:induction false} SlashesAre(s: string)
    ensures |Slashes(s)| == |s| && forall i | 0 <= i < |s| :: Slashes(s)[i] == if s[i] == '\\' then '/' else s[i]
  {
    if s != "" { SlashesAre(s[1..]); }
  }

  lemma {:induction false} LeadingSlashes(s: string)
    ensures var r := NoLeadingSlash(s);
            && (r == "" || r[0] != '/') && |r| <= |s| && r == s[|s| - |r|..]
            && forall i | 0 <= i < |s| - |r| :: s[i] == '/'
  {
    if s != "" && s[0] == '/' {
      LeadingSlashes(s[1..]);
      var r := NoLeadingSlash(s);
      assert s[1..][|s| - 1 - |r|..] == s[|s| - |r|..];
      forall i | 0 <= i < |s| - |r| ensures s[i] == '/' { if i > 0 { assert s[1..][i - 1] == s[i]; } }
    }
  }
}
