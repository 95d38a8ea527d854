/**
 What the program takes for its own and may write over: a managed file, or a block in a file of the user's, whose marker
 names program, schema and source and has the digest of the text it was written with.
 */
module Ownership {
  import opened Wrappers
  import opened Text
  import opened JsonValues
  import ManagedFile
  import SharedBlock

  /** The marker says that the program wrote this for this source. */
  predicate Claims(marker: Option<Json>, source: string, hash: string) {
    marker.Some? && marker.value.Obj?
    && var f := marker.value.fields;
       && "managed_by" in f && f["managed_by"] == Str("playbook-harness") && "schema" in f && f["schema"] == Num(2)
       && "source" in f && f["source"] == Str(source) && "source_hash" in f && f["source_hash"] == Str(hash)
  }

  // ---- managed files ----

  predicate Around(style: ManagedFile.Style, prefix: string, suffix: string) {
    match style
    case Slash => prefix == "// playbook-managed: " && suffix == ""
    case Hash => prefix == "# playbook-managed: " && suffix == ""
    case Markdown => prefix == "<!-- playbook-managed: " && suffix == " -->"
    case Frontmatter => prefix == "<!-- playbook-managed: " && suffix == " -->"
    case Document => false
    case Unknown(_) => false
  }

  /** The marker line stands behind a front matter, in the style that has one, else at the beginning. */
  ghost predicate LineAt(text: string, style: ManagedFile.Style, at: nat) {
    if style.Frontmatter? && "---\n" <= text then
      at >= 9 && At(text, "\n---\n", at - 5) && forall j | 4 <= j < at - 5 :: !At(text, "\n---\n", j)
    else at == 0
  }

  /** The text is a marker line, between what stands before and after it. */
  ghost predicate HasLine(text: string, style: ManagedFile.Style, before: string, encoded: string, rest: string,
                          prefix: string, suffix: string) {
    && Around(style, prefix, suffix) && LineAt(text, style, |before|) && Without(encoded, '\n')
    && text == before + (prefix + encoded + suffix) + "\n" + rest
  }

  /** The file carries the program's marker for this source, and what else is in it is what the marker was made for. */
  ghost predicate Owned(c: Codec, text: string, source: string, style: ManagedFile.Style) {
    if style.Document? then
      text != "" && c.parse(text).Some? && c.parse(text).value.Obj?
      && var fields := c.parse(text).value.fields;
         "_playbook_harness" in fields
         && Claims(Some(fields["_playbook_harness"]), source, c.valueDigest(Obj(fields - {"_playbook_harness"})))
    else
      exists before, encoded, rest, prefix, suffix :: HasLine(text, style, before, encoded, rest, prefix, suffix)
        && Claims(c.parse(encoded), source, c.digest(before + rest))
  }

  /** The file carries no marker. */
  ghost predicate Unmarked(c: Codec, text: string, style: ManagedFile.Style) {
    || text == ""
    || (if style.Document? then
          c.parse(text).Some? && c.parse(text).value.Obj?
          && var fields := c.parse(text).value.fields;
             "_playbook_harness" in fields ==> fields["_playbook_harness"] == Null
        else
          exists at: nat, prefix, suffix :: Around(style, prefix, suffix) && LineAt(text, style, at) && at <= |text|
            && !At(text, prefix, at))
  }

  /**
   A marker can be put on it: the style is known, a JSON source is an object without one, a front matter has an end.
   */
  ghost predicate Renderable(c: Codec, m: ManagedFile.Managed) {
    match m.style
    case Unknown(_) => false
    case Document =>
      c.parse(m.body).Some? && c.parse(m.body).value.Obj? && "_playbook_harness" !in c.parse(m.body).value.fields
    case Frontmatter => "---\n" <= m.body ==> exists i: nat :: 4 <= i && At(m.body, "\n---\n", i)
    case _ => true
  }

  lemma RendersIff(c: Codec, m: ManagedFile.Managed)
    ensures ManagedFile.Render(c, m).Ok? <==> Renderable(c, m)
  {
    if m.style.Frontmatter? && "---\n" <= m.body {
      var closing := FindFrom(m.body, "\n---\n", 4);
      assert closing.Some? ==> At(m.body, "\n---\n", closing.value);
    }
  }

  lemma AroundIs(style: ManagedFile.Style, prefix: string, suffix: string)
    ensures Around(style, prefix, suffix) <==> ManagedFile.Wrapper(style) == Some((prefix, suffix))
  {}

  /** Where the program looks for the marker line. */
  function Start(text: string, style: ManagedFile.Style): (r: Option<nat>)
    ensures r.Some? ==> LineAt(text, style, r.value) && r.value <= |text|
    ensures forall at: nat | LineAt(text, style, at) :: r == Some(at)
  {
    if style.Frontmatter? && "---\n" <= text then
      match FindFrom(text, "\n---\n", 4)
      case None => None
      case Some(closing) => Some(closing + 5)
    else Some(0)
  }

  lemma ParseIs(c: Codec, text: string, style: ManagedFile.Style)
    requires text != "" && !style.Document?
    ensures ManagedFile.Parse(c, text, style)
         == match Start(text, style)
            case None => Err("managed Markdown frontmatter is malformed")
            case Some(at) => ManagedFile.ParseLine(c, text, at, style)
  {}

  /** What a marker line that is read needs to be. */
  lemma LineAccepted(c: Codec, text: string, at: nat, style: ManagedFile.Style)
    requires c.Valid() && at <= |text| && ManagedFile.Wrapper(style).Some?
    requires ManagedFile.ParseLine(c, text, at, style).Ok? && ManagedFile.ParseLine(c, text, at, style).value.Some?
    ensures FindFrom(text, "\n", at).Some? && at <= FindFrom(text, "\n", at).value <= |text|
    ensures var (prefix, suffix) := ManagedFile.Wrapper(style).value;
            var end := FindFrom(text, "\n", at).value;
            var line := text[at..end];
            && prefix <= line && EndsWith(line, suffix) && |prefix| + |suffix| <= |line|
            && var (metadata, body) := ManagedFile.ParseLine(c, text, at, style).value.value;
               c.parse(line[|prefix|..|line| - |suffix|]) == Some(metadata)
               && end < |text| && body == text[..at] + text[end + 1..]
  {
    hide FindFrom, At, EndsWith, ManagedFile.Wrapper;
    var end := FindFrom(text, "\n", at);
    if end.Some? { AtFits(text, "\n", end.value); }
  }

  lemma AtFits(text: string, part: string, i: nat)
    requires At(text, part, i)
    ensures i + |part| <= |text|
  {}

  /** The marker line that was read, taken apart. */
  lemma LineRead(c: Codec, text: string, at: nat, style: ManagedFile.Style)
      returns (before: string, encoded: string, rest: string)
    requires c.Valid() && at <= |text| && LineAt(text, style, at) && ManagedFile.Wrapper(style).Some?
    requires ManagedFile.ParseLine(c, text, at, style).Ok? && ManagedFile.ParseLine(c, text, at, style).value.Some?
    ensures var (prefix, suffix) := ManagedFile.Wrapper(style).value;
            HasLine(text, style, before, encoded, rest, prefix, suffix)
    ensures var (metadata, body) := ManagedFile.ParseLine(c, text, at, style).value.value;
            c.parse(encoded) == Some(metadata) && body == before + rest
  {
    LineAccepted(c, text, at, style);
    hide FindFrom, ManagedFile.ParseLine, LineAt;
    var (prefix, suffix) := ManagedFile.Wrapper(style).value;
    AroundIs(style, prefix, suffix);
    var end := FindFrom(text, "\n", at).value;
    var line := text[at..end];
    LineIsPlain(text, at, end);
    before, encoded, rest := text[..at], line[|prefix|..|line| - |suffix|], text[end + 1..];
    Unwrapped(line, prefix, suffix);
    TextAround(text, at, end);
  }

  lemma LineIsPlain(text: string, at: nat, end: nat)
    requires FindFrom(text, "\n", at) == Some(end)
    ensures at <= end < |text| && text[end] == '\n' && Without(text[at..end], '\n')
  {
    AtChar(text, "\n", end, 0);
    forall i | 0 <= i < end - at ensures text[at..end][i] != '\n' {
      assert !At(text, "\n", at + i) && text[at + i..at + i + 1] == [text[at + i]];
    }
  }

  lemma Unwrapped(line: string, prefix: string, suffix: string)
    requires prefix <= line && EndsWith(line, suffix) && |prefix| + |suffix| <= |line|
    ensures line == prefix + line[|prefix|..|line| - |suffix|] + suffix
  {}

  lemma TextAround(text: string, at: nat, end: nat)
    requires at <= end < |text| && text[end] == '\n'
    ensures text == text[..at] + text[at..end] + "\n" + text[end + 1..]
  {}

  lemma ReadsLineAt(c: Codec, style: ManagedFile.Style, before: string, encoded: string, rest: string, prefix: string,
                    suffix: string)
    requires ManagedFile.Wrapper(style) == Some((prefix, suffix)) && Without(encoded, '\n')
    requires c.parse(encoded).Some? && c.parse(encoded).value.Obj?
    ensures ManagedFile.ParseLine(c, before + (prefix + encoded + suffix) + "\n" + rest, |before|, style)
         == Ok(Some((c.parse(encoded).value, before + rest)))
  {
    hide FindFrom, At;
    ManagedFile.WrapperIsPlain(style);
    ManagedFile.Unwraps(prefix, encoded, suffix);
    ManagedFile.ReadsLine(before, prefix + encoded + suffix, rest);
  }

  /** A marker line is read as it stands. */
  lemma ReadsMarker(c: Codec, text: string, style: ManagedFile.Style, before: string, encoded: string, rest: string,
                    prefix: string, suffix: string)
    requires HasLine(text, style, before, encoded, rest, prefix, suffix)
    requires c.parse(encoded).Some? && c.parse(encoded).value.Obj?
    ensures ManagedFile.Parse(c, text, style) == Ok(Some((c.parse(encoded).value, before + rest)))
  {
    hide ManagedFile.Parse, ManagedFile.ParseLine, FindFrom;
    AroundIs(style, prefix, suffix);
    ParseIs(c, text, style);
    assert Start(text, style) == Some(|before|);
    ReadsLineAt(c, style, before, encoded, rest, prefix, suffix);
  }

  /** The planner takes a file for its own, unmodified, exactly when it is. */
  lemma AuthenticIff(c: Codec, text: string, source: string, style: ManagedFile.Style)
    requires c.Valid()
    ensures ManagedFile.Authentic(c, text, source, style) <==> Owned(c, text, source, style)
  {
    if style.Document? {
      DocumentIff(c, text, source);
    } else if ManagedFile.Authentic(c, text, source, style) {
      OwnedIfAuthentic(c, text, source, style);
    } else if Owned(c, text, source, style) {
      var before, encoded, rest, prefix, suffix :| HasLine(text, style, before, encoded, rest, prefix, suffix)
        && Claims(c.parse(encoded), source, c.digest(before + rest));
      ReadsMarker(c, text, style, before, encoded, rest, prefix, suffix);
    }
  }

  lemma DocumentIff(c: Codec, text: string, source: string)
    requires c.Valid()
    ensures ManagedFile.Authentic(c, text, source, ManagedFile.Document) <==>
        Owned(c, text, source, ManagedFile.Document)
  {
    if text != "" && c.parse(text).Some? && c.parse(text).value.Obj? {
      var bare := Obj(c.parse(text).value.fields - {ManagedFile.KEY});
      assert c.parse(c.indented(bare) + "\n") == Some(bare);
    }
  }

  lemma OwnedIfAuthentic(c: Codec, text: string, source: string, style: ManagedFile.Style)
    requires c.Valid() && !style.Document? && ManagedFile.Authentic(c, text, source, style)
    ensures Owned(c, text, source, style)
  {
    ParseIs(c, text, style);
    var at := Start(text, style).value;
    var before, encoded, rest := LineRead(c, text, at, style);
    var (prefix, suffix) := ManagedFile.Wrapper(style).value;
    assert HasLine(text, style, before, encoded, rest, prefix, suffix);
    assert Claims(c.parse(encoded), source, c.digest(before + rest));
  }

  /** The planner takes a file for unmarked exactly when it is. */
  lemma UnmarkedIff(c: Codec, text: string, style: ManagedFile.Style)
    ensures ManagedFile.Parse(c, text, style) == Ok(None) <==> Unmarked(c, text, style)
  {
    if text != "" && !style.Document? {
      ParseIs(c, text, style);
      if Start(text, style).Some? && ManagedFile.Wrapper(style).Some? {
        var at := Start(text, style).value;
        var (prefix, suffix) := ManagedFile.Wrapper(style).value;
        AroundIs(style, prefix, suffix);
        PrefixOfLine(c, text, at, style);
        assert Around(style, prefix, suffix) && LineAt(text, style, at);
      }
      if Unmarked(c, text, style) {
        var at: nat, prefix, suffix :| Around(style, prefix, suffix) && LineAt(text, style, at) && at <= |text|
          && !At(text, prefix, at);
        AroundIs(style, prefix, suffix);
      }
    }
  }

  lemma PrefixIs(text: string, prefix: string, at: nat, line: string)
    requires at <= |text| && Without(prefix, '\n')
    requires var end := FindFrom(text, "\n", at); line == if end.Some? then text[at..end.value] else text[at..]
    ensures prefix <= line <==> At(text, prefix, at)
  {
    hide FindFrom;
    var end := FindFrom(text, "\n", at);
    if end.Some? && At(text, prefix, at) && end.value < at + |prefix| {
      AtChar(text, "\n", end.value, 0);
      AtChar(text, prefix, at, end.value - at);
    }
    PrefixOfSlice(text, prefix, at, if end.Some? then end.value else |text|);
  }

  lemma PrefixOfSlice(text: string, prefix: string, at: nat, end: nat)
    requires at <= end <= |text| && (At(text, prefix, at) ==> at + |prefix| <= end)
    ensures prefix <= text[at..end] <==> At(text, prefix, at)
  {
    if |prefix| <= end - at { assert text[at..end][..|prefix|] == text[at..at + |prefix|]; }
  }

  lemma PrefixOfLine(c: Codec, text: string, at: nat, style: ManagedFile.Style)
    requires at <= |text| && ManagedFile.Wrapper(style).Some?
    ensures ManagedFile.ParseLine(c, text, at, style) == Ok(None)
       <==> !At(text, ManagedFile.Wrapper(style).value.0, at)
  {
    hide FindFrom;
    var prefix := ManagedFile.Wrapper(style).value.0;
    ManagedFile.WrapperIsPlain(style);
    var end := FindFrom(text, "\n", at);
    var line := if end.Some? then text[at..end.value] else text[at..];
    PrefixIs(text, prefix, at, line);
  }

  // ---- shared blocks ----

  /** Neither marker of a block is in the text. */
  ghost predicate NoBlock(text: string) {
    forall i: nat :: !At(text, "# >>> playbook-harness managed ", i) && !At(text, "# <<< playbook-harness managed\n", i)
  }

  /** The text has one block, between `pre` and `post`, and it is as the program wrote it for this source. */
  ghost predicate OwnBlock(c: Codec, text: string, source: string, pre: string, encoded: string, body: string,
                           post: string) {
    var opening, closing := "# >>> playbook-harness managed ", "# <<< playbook-harness managed\n";
    && text == pre + (opening + encoded + "\n" + body + closing) + post
    && Without(encoded, '\n') && Claims(c.parse(encoded), source, c.digest(body))
    && (forall i: nat | At(text, opening, i) :: i == |pre|)
    && (forall i: nat | At(text, closing, i) :: i == |pre| + |opening| + |encoded| + 1 + |body|)
  }

  ghost predicate HasOwnBlock(c: Codec, text: string, source: string) {
    exists pre, encoded, body, post :: OwnBlock(c, text, source, pre, encoded, body, post)
  }

  lemma OnceIs(s: string, p: string, k: nat)
    requires At(s, p, k) && forall i: nat | At(s, p, i) :: i == k
    ensures FindFrom(s, p, 0) == Some(k) && SharedBlock.Once(s, p)
  {
    FindIs(s, p, 0, k);
  }

  lemma OnlyOne(s: string, p: string, i: nat)
    requires SharedBlock.Once(s, p) && At(s, p, i)
    ensures i == FindFrom(s, p, 0).value
  {}

  lemma RefusesIff(c: Codec, marker: string, body: string, b: SharedBlock.Block)
    ensures SharedBlock.Refuses(c, marker, body, b).None? <==> Claims(c.parse(marker), b.source, c.digest(body))
  {}

  lemma Placed(pre: string, opening: string, encoded: string, body: string, closing: string, post: string)
    ensures var text := pre + (opening + encoded + "\n" + body + closing) + post;
            var start, lineEnd := |pre|, |pre| + |opening| + |encoded|;
            var stop := lineEnd + 1 + |body|;
            && At(text, opening, start) && At(text, closing, stop)
            && text[..start] == pre && text[stop + |closing|..] == post
            && text[start + |opening|..lineEnd] == encoded && text[lineEnd + 1..stop] == body
  {
    var text := pre + (opening + encoded + "\n" + body + closing) + post;
    var start, lineEnd := |pre|, |pre| + |opening| + |encoded|;
    var stop := lineEnd + 1 + |body|;
    assert text[start..start + |opening|] == opening;
    assert text[stop..stop + |closing|] == closing;
  }

  /** A block of the program's own is replaced, between the same texts. */
  lemma ReplacesOwn(c: Codec, text: string, b: SharedBlock.Block, pre: string, encoded: string, body: string,
                    post: string)
    requires OwnBlock(c, text, b.source, pre, encoded, body, post)
    ensures SharedBlock.Merge(c, text, b) == Ok(pre + SharedBlock.Render(c, b) + post)
  {
    hide FindFrom, At, SharedBlock.Merge, SharedBlock.Once, SharedBlock.Render, SharedBlock.Refuses, Claims;
    var opening, closing := SharedBlock.BEGIN, SharedBlock.END;
    var lineEnd := |pre| + |opening| + |encoded|;
    Placed(pre, opening, encoded, body, closing, post);
    OnceIs(text, opening, |pre|);
    OnceIs(text, closing, lineEnd + 1 + |body|);
    SharedBlock.BeginIsPlain();
    SharedBlock.LineOf(pre, opening, encoded, body, closing, post, text, lineEnd);
    RefusesIff(c, encoded, body, b);
    SharedBlock.MergeAt(c, text, b, |pre|, lineEnd + 1 + |body|, lineEnd, encoded, body, pre, post);
  }

  lemma HasMarker(text: string)
    requires !NoBlock(text)
    ensures Occurs(text, SharedBlock.BEGIN) || Occurs(text, SharedBlock.END)
  {
    var i: nat :| At(text, SharedBlock.BEGIN, i) || At(text, SharedBlock.END, i);
  }

  lemma AcceptedLine(c: Codec, text: string, b: SharedBlock.Block)
    requires SharedBlock.Merge(c, text, b).Ok?
    requires FindFrom(text, SharedBlock.BEGIN, 0).Some? && FindFrom(text, SharedBlock.END, 0).Some?
    ensures var start, stop := FindFrom(text, SharedBlock.BEGIN, 0).value, FindFrom(text, SharedBlock.END, 0).value;
            var lineEnd := FindFrom(text, "\n", start);
            && lineEnd.Some? && start + |SharedBlock.BEGIN| <= lineEnd.value < stop
            && SharedBlock.Refuses(c, text[start + |SharedBlock.BEGIN|..lineEnd.value], text[lineEnd.value + 1..stop],
                b).None?
  {
    hide SharedBlock.Refuses, At, SharedBlock.Render;
    SharedBlock.BeginIsOneLine(text, FindFrom(text, SharedBlock.BEGIN, 0).value);
  }

  lemma AcceptedAt(c: Codec, text: string, b: SharedBlock.Block) returns (start: nat, lineEnd: nat, stop: nat)
    requires SharedBlock.Merge(c, text, b).Ok? && !NoBlock(text)
    ensures SharedBlock.Once(text, SharedBlock.BEGIN) && SharedBlock.Once(text, SharedBlock.END)
    ensures FindFrom(text, SharedBlock.BEGIN, 0) == Some(start) && FindFrom(text, SharedBlock.END, 0) == Some(stop)
    ensures start + |SharedBlock.BEGIN| <= lineEnd < stop && FindFrom(text, "\n", start) == Some(lineEnd)
    ensures At(text, SharedBlock.BEGIN, start) && At(text, SharedBlock.END, stop)
    ensures Claims(c.parse(text[start + |SharedBlock.BEGIN|..lineEnd]), b.source, c.digest(text[lineEnd + 1..stop]))
  {
    hide SharedBlock.Refuses, Claims, SharedBlock.Merge, SharedBlock.Render, SharedBlock.Once, At;
    HasMarker(text);
    SharedBlock.Accepted(c, text, b);
    start, stop := FindFrom(text, SharedBlock.BEGIN, 0).value, FindFrom(text, SharedBlock.END, 0).value;
    AtFits(text, SharedBlock.END, stop);
    AcceptedLine(c, text, b);
    SharedBlock.BeginIsOneLine(text, start);
    lineEnd := FindFrom(text, "\n", start).value;
    RefusesIff(c, text[start + |SharedBlock.BEGIN|..lineEnd], text[lineEnd + 1..stop], b);
  }

  /** A block that is replaced is the program's own. */
  lemma ReplacedIsOwn(c: Codec, text: string, b: SharedBlock.Block)
    requires SharedBlock.Merge(c, text, b).Ok? && !NoBlock(text)
    ensures HasOwnBlock(c, text, b.source)
  {
    hide Claims, FindFrom, SharedBlock.Merge, SharedBlock.Once;
    var opening, closing := SharedBlock.BEGIN, SharedBlock.END;
    var start, lineEnd, stop := AcceptedAt(c, text, b);
    LineIsPlain(text, start, lineEnd);
    var encoded, body := text[start + |opening|..lineEnd], text[lineEnd + 1..stop];
    Parts(text, start, lineEnd, stop, opening, closing);
    forall i: nat | At(text, opening, i) ensures i == start { OnlyOne(text, opening, i); }
    forall i: nat | At(text, closing, i) ensures i == stop { OnlyOne(text, closing, i); }
    forall i | 0 <= i < |encoded| ensures encoded[i] != '\n' {
      assert encoded[i] == text[start..lineEnd][|opening| + i];
    }
    assert OwnBlock(c, text, b.source, text[..start], encoded, body, text[stop + |closing|..]);
  }

  lemma Parts(text: string, start: nat, lineEnd: nat, stop: nat, opening: string, closing: string)
    requires At(text, opening, start) && At(text, closing, stop) && start + |opening| <= lineEnd < stop
    requires text[lineEnd] == '\n'
    ensures text
        == text[..start] + (opening + text[start + |opening|..lineEnd] + "\n" + text[lineEnd + 1..stop] + closing)
                    + text[stop + |closing|..]
  {
    assert text[start..start + |opening|] == opening && text[stop..stop + |closing|] == closing;
    assert text[start..stop + |closing|]
        == opening + text[start + |opening|..lineEnd] + "\n" + text[lineEnd + 1..stop] + closing;
  }

  /**
   A block is put into a text exactly when there is none, or one that the program wrote for this source, untouched.
   */
  lemma MergesIff(c: Codec, text: string, b: SharedBlock.Block)
    ensures SharedBlock.Merge(c, text, b).Ok? <==> NoBlock(text) || HasOwnBlock(c, text, b.source)
  {
    if NoBlock(text) {
      assert FindFrom(text, SharedBlock.BEGIN, 0).None? && FindFrom(text, SharedBlock.END, 0).None?;
    } else if SharedBlock.Merge(c, text, b).Ok? {
      ReplacedIsOwn(c, text, b);
    } else if HasOwnBlock(c, text, b.source) {
      var pre, encoded, body, post :| OwnBlock(c, text, b.source, pre, encoded, body, post);
      ReplacesOwn(c, text, b, pre, encoded, body, post);
    }
  }
}
