/** A block of the program's lines inside a file that belongs to the user. */
module SharedBlock {
  import opened Wrappers
  import opened Text
  import opened JsonValues
  import ManagedFile

  const BEGIN := "# >>> playbook-harness managed "
  const END := "# <<< playbook-harness managed\n"
  const END_LINE := "# <<< playbook-harness managed"

  datatype Block = Block(body: string, source: string)

  function Encoded(c: Codec, b: Block): string {
    c.compact(ManagedFile.Metadata(b.source, c.digest(b.body)))
  }

  function Head(c: Codec, b: Block): string {
    BEGIN + Encoded(c, b) + "\n" + b.body
  }

  function Render(c: Codec, b: Block): string {
    Head(c, b) + END
  }

  /** Exactly one occurrence. */
  predicate Once(s: string, p: string) {
    var first := FindFrom(s, p, 0);
    first.Some? && FindFrom(s, p, first.value + 1).None?
  }

  function Separator(existing: string): string {
    if existing == "" || EndsWith(existing, "\n") then "" else "\n"
  }

  /** Why a block with this marker and body may not be replaced. */
  function Refuses(c: Codec, marker: string, body: string, b: Block): Option<string> {
    match c.parse(marker)
    case None => Some("shared managed block marker is malformed")
    case Some(v) =>
      if !v.Obj? then Some("shared managed block marker is not an object")
      else if !OwnMarker(v, b) then Some("shared managed block ownership mismatch")
      else if Get(v, "source_hash") != Str(c.digest(body)) then Some("shared managed block was locally modified")
      else None
  }

  predicate OwnMarker(marker: Json, b: Block) {
    && Get(marker, "managed_by") == Str(ManagedFile.OWNER)
    && Get(marker, "schema") == Num(ManagedFile.SCHEMA)
    && Get(marker, "source") == Str(b.source)
  }

  lemma BeginIsOneLine(s: string, i: nat)
    requires At(s, BEGIN, i)
    ensures var line := FindFrom(s, "\n", i); line.Some? ==> i + |BEGIN| <= line.value
  {
    var line := FindFrom(s, "\n", i);
    if line.Some? && line.value < i + |BEGIN| {
      AtChar(s, BEGIN, i, line.value - i);
      AtChar(s, "\n", line.value, 0);
    }
  }

  function Merge(c: Codec, existing: string, b: Block): Result<string, string> {
    var start, stop := FindFrom(existing, BEGIN, 0), FindFrom(existing, END, 0);
    if start.None? && stop.None? then Ok(existing + Separator(existing) + Render(c, b))
    else if !Once(existing, BEGIN) || !Once(existing, END) || stop.value <= start.value then
      Err("shared managed block is malformed or duplicated")
    else
      var lineEnd := FindFrom(existing, "\n", start.value);
      BeginIsOneLine(existing, start.value);
      if lineEnd.None? || lineEnd.value >= stop.value then
        Err("shared managed block is malformed")
      else
        var refusal :=
          Refuses(c, existing[start.value + |BEGIN|..lineEnd.value], existing[lineEnd.value + 1..stop.value], b);
        if refusal.Some? then Err(refusal.value)
        else Ok(existing[..start.value] + Render(c, b) + existing[stop.value + |END|..])
  }

  // ---- where the markers can occur ----

  /** The two markers: a hash sign stands only at the front, a newline only at the end. */
  predicate IsMarker(p: string) {
    p == BEGIN || p == END
  }

  lemma MarkerShape(p: string)
    requires IsMarker(p)
    ensures |p| > 0 && p[0] == '#' && (forall k | 0 < k < |p| :: p[k] != '#')
            && (forall k | 0 <= k < |p| - 1 :: p[k] != '\n')
    ensures p == BEGIN ==> p[|p| - 1] != '\n'
  {}

  /** No occurrence reaches over a place where a hash sign follows. */
  lemma CutAtHash(a: string, b: string, p: string, i: nat)
    requires IsMarker(p) && b != "" && b[0] == '#'
    ensures At(a + b, p, i) <==> At(a, p, i) || (|a| <= i && At(b, p, i - |a|))
  {
    MarkerShape(p);
    if i + |p| <= |a| {
      AtPrefix(a, b, p, i);
    } else if |a| <= i {
      AtSuffix(a, b, p, i);
    } else if At(a + b, p, i) {
      AtChar(a + b, p, i, |a| - i);
    }
  }

  /** No occurrence reaches over a newline. */
  lemma CutAtNewline(a: string, b: string, p: string, i: nat)
    requires IsMarker(p) && EndsWith(a, "\n")
    ensures At(a + b, p, i) <==> At(a, p, i) || (|a| <= i && At(b, p, i - |a|))
  {
    MarkerShape(p);
    LastChar(a, "\n");
    if i + |p| <= |a| {
      AtPrefix(a, b, p, i);
    } else if |a| <= i {
      AtSuffix(a, b, p, i);
    } else if At(a + b, p, i) {
      AtChar(a + b, p, i, |a| - 1 - i);
    }
  }

  /** The block's own text holds no marker. */
  predicate Clean(c: Codec, b: Block) {
    !Occurs(Encoded(c, b), BEGIN) && !Occurs(b.body, BEGIN) && !Occurs(b.body, END)
  }

  lemma InLine(encoded: string, p: string, i: nat)
    requires IsMarker(p) && IsBraced(encoded) && !Occurs(encoded, BEGIN)
    ensures At(BEGIN + encoded + "\n", p, i) <==> i == 0 && p == BEGIN
  {
    var line := BEGIN + encoded + "\n";
    MarkerShape(p);
    MarkerShape(BEGIN);
    assert line[..|BEGIN|] == BEGIN;
    if At(line, p, i) {
      AtChar(line, p, i, 0);
      if i == 0 {
        AtChar(line, p, i, 2);
      } else {
        assert i >= |BEGIN|;
        AtChar(line, p, i, |p| - 1);
        AtChar(line, p, i, |p| - 2);
        InEncoded(encoded, p, i);
      }
    }
  }

  lemma InEncoded(encoded: string, p: string, i: nat)
    requires IsMarker(p) && IsBraced(encoded) && !Occurs(encoded, BEGIN) && i >= |BEGIN|
    ensures !At(BEGIN + encoded + "\n", p, i)
  {
    var rest := encoded + "\n";
    assert BEGIN + encoded + "\n" == BEGIN + rest;
    AtSuffix(BEGIN, rest, p, i);
    var j := i - |BEGIN|;
    if At(rest, p, j) {
      MarkerShape(p);
      AtChar(rest, p, j, |p| - 1);
      AtChar(rest, p, j, |p| - 2);
      if p == BEGIN { AtPrefix(encoded, "\n", p, j); }
    }
  }

  lemma InHead(c: Codec, b: Block, p: string, i: nat)
    requires c.Valid() && Clean(c, b) && IsMarker(p)
    ensures At(Head(c, b), p, i) <==> i == 0 && p == BEGIN
  {
    var line := BEGIN + Encoded(c, b) + "\n";
    assert EndsWith(line, "\n");
    CutAtNewline(line, b.body, p, i);
    InLine(Encoded(c, b), p, i);
  }

  lemma AtEnd(post: string, p: string, i: nat)
    requires IsMarker(p)
    ensures At(END + post, p, i) <==> (i == 0 && p == END) || (|END| <= i && At(post, p, i - |END|))
  {
    MarkerShape(p);
    MarkerShape(END);
    if At(END + post, p, i) {
      AtChar(END + post, p, i, 0);
      if i == 0 { AtChar(END + post, p, i, 2); }
    }
    if i == 0 { assert (END + post)[..|END|] == END; }
    if |END| <= i { AtSuffix(END, post, p, i); }
  }

  /** All occurrences of a marker in a text with a clean block. */
  lemma Occurrences(c: Codec, b: Block, pre: string, post: string, p: string, i: nat)
    requires c.Valid() && Clean(c, b) && IsMarker(p)
    ensures var h, e := |pre| + |Head(c, b)|, |pre| + |Head(c, b)| + |END|;
            At(pre + Render(c, b) + post, p, i)
            <==> At(pre, p, i) || (p == BEGIN && i == |pre|) || (p == END && i == h) || (e <= i && At(post, p, i - e))
  {
    hide At, Clean, Encoded, IsMarker;
    var head := Head(c, b);
    assert pre + Render(c, b) + post == pre + (head + (END + post));
    CutAtHash(pre, head + (END + post), p, i);
    if |pre| <= i {
      var j := i - |pre|;
      CutAtHash(head, END + post, p, j);
      InHead(c, b, p, j);
      if |head| <= j { AtEnd(post, p, j - |head|); }
    }
  }

  // ---- merging again ----

  lemma FindsMarkers(c: Codec, b: Block, pre: string, post: string)
    requires c.Valid() && Clean(c, b)
    requires !Occurs(pre, BEGIN) && !Occurs(pre, END) && !Occurs(post, BEGIN) && !Occurs(post, END)
    ensures var s := pre + Render(c, b) + post;
            && FindFrom(s, BEGIN, 0) == Some(|pre|) && Once(s, BEGIN)
            && FindFrom(s, END, 0) == Some(|pre| + |Head(c, b)|) && Once(s, END)
  {
    hide FindFrom, At, Render, Head, Clean;
    var s := pre + Render(c, b) + post;
    forall p, i: nat | IsMarker(p) && At(s, p, i) ensures i == if p == BEGIN then |pre| else |pre| + |Head(c, b)| {
      Occurrences(c, b, pre, post, p, i);
    }
    Occurrences(c, b, pre, post, BEGIN, |pre|);
    Occurrences(c, b, pre, post, END, |pre| + |Head(c, b)|);
    assert IsMarker(BEGIN) && IsMarker(END);
    FindIs(s, BEGIN, 0, |pre|);
    FindIs(s, END, 0, |pre| + |Head(c, b)|);
  }

  lemma EncodedIsLine(c: Codec, b: Block)
    requires c.Valid()
    ensures Without(Encoded(c, b), '\n')
  {
    assert IsBraced(Encoded(c, b));
  }

  lemma MarkerLine(c: Codec, b: Block, pre: string, post: string, s: string, n: nat)
    requires Without(Encoded(c, b), '\n') && n == |pre| + |BEGIN| + |Encoded(c, b)|
    requires s == pre + (BEGIN + Encoded(c, b) + "\n" + b.body + END) + post
    ensures n < |s| && FindFrom(s, "\n", |pre|) == Some(n) && s[|pre| + |BEGIN|..n] == Encoded(c, b)
  {
    BeginIsPlain();
    LineOf(pre, BEGIN, Encoded(c, b), b.body, END, post, s, n);
  }

  lemma LineOf(pre: string, begin: string, encoded: string, body: string, end: string, post: string, s: string, n: nat)
    requires Without(begin, '\n') && Without(encoded, '\n')
    requires s == pre + (begin + encoded + "\n" + body + end) + post && n == |pre| + |begin| + |encoded|
    ensures n < |s| && FindFrom(s, "\n", |pre|) == Some(n) && s[|pre| + |begin|..n] == encoded
  {
    Regroup(pre, begin, encoded, body, end, post, s);
    LineBetween(pre, begin, encoded, body + end + post, s, n);
  }

  lemma BeginIsPlain()
    ensures Without(BEGIN, '\n')
  {}

  lemma LineBetween(pre: string, begin: string, encoded: string, tail: string, s: string, n: nat)
    requires Without(begin, '\n') && Without(encoded, '\n')
    requires s == pre + (begin + encoded) + "\n" + tail && n == |pre| + |begin| + |encoded|
    ensures n < |s| && FindFrom(s, "\n", |pre|) == Some(n) && s[|pre| + |begin|..n] == encoded
  {
    hide FindFrom, At;
    FindsNewline(pre, begin + encoded, tail);
    InsideLine(pre, begin, encoded, "\n", tail);
  }

  lemma InsideLine(pre: string, begin: string, encoded: string, newline: string, tail: string)
    ensures (pre + (begin + encoded) + newline + tail)[|pre| + |begin|..|pre| + |begin| + |encoded|] == encoded
  {
    ManagedFile.Sliced(pre + begin, encoded, newline + tail);
    assert pre + (begin + encoded) + newline + tail == (pre + begin) + encoded + (newline + tail);
  }

  lemma Regroup(pre: string, begin: string, encoded: string, body: string, end: string, post: string, s: string)
    requires s == pre + (begin + encoded + "\n" + body + end) + post
    ensures s == pre + (begin + encoded) + "\n" + (body + end + post)
  {}

  lemma BlockBody(c: Codec, b: Block, pre: string, post: string)
    ensures var s := pre + Render(c, b) + post;
            var n := |pre| + |BEGIN| + |Encoded(c, b)|;
            n + 1 + |b.body| == |pre| + |Head(c, b)| && s[n + 1..n + 1 + |b.body|] == b.body
  {
    var line := BEGIN + Encoded(c, b) + "\n";
    ManagedFile.Sliced(pre + line, b.body, END + post);
    assert pre + Render(c, b) + post == (pre + line) + b.body + (END + post);
  }

  lemma BlockAround(c: Codec, b: Block, pre: string, post: string)
    ensures var s := pre + Render(c, b) + post; s[..|pre|] == pre && s[|pre| + |Head(c, b)| + |END|..] == post
  {
    ManagedFile.Sliced(pre, Render(c, b), post);
  }

  lemma OwnBlockIsAccepted(c: Codec, b: Block, b': Block)
    requires c.Valid() && b'.source == b.source
    ensures Refuses(c, Encoded(c, b), b.body, b').None?
  {
    var marker := ManagedFile.Metadata(b.source, c.digest(b.body));
    assert c.parse(c.compact(marker)) == Some(marker);
  }

  /** A block of the same source is replaced where it stands, whatever version it was. */
  lemma Replaces(c: Codec, b: Block, b': Block, pre: string, post: string)
    requires c.Valid() && Clean(c, b) && b'.source == b.source
    requires !Occurs(pre, BEGIN) && !Occurs(pre, END) && !Occurs(post, BEGIN) && !Occurs(post, END)
    ensures Merge(c, pre + Render(c, b) + post, b') == Ok(pre + Render(c, b') + post)
  {
    ReplacesIn(c, b, b', pre, post, pre + Render(c, b) + post, |pre| + |BEGIN| + |Encoded(c, b)|, |pre| + |Head(c, b)|);
  }

  lemma ReplacesIn(c: Codec, b: Block, b': Block, pre: string, post: string, s: string, lineEnd: nat, stop: nat)
    requires c.Valid() && Clean(c, b) && b'.source == b.source
    requires !Occurs(pre, BEGIN) && !Occurs(pre, END) && !Occurs(post, BEGIN) && !Occurs(post, END)
    requires s == pre + Render(c, b) + post && lineEnd == |pre| + |BEGIN| + |Encoded(c, b)|
             && stop == |pre| + |Head(c, b)|
    ensures Merge(c, s, b') == Ok(pre + Render(c, b') + post)
  {
    hide Merge, FindFrom, At, Refuses, Clean;
    OwnBlockIsAccepted(c, b, b');
    FindsMarkers(c, b, pre, post);
    EncodedIsLine(c, b);
    MarkerLine(c, b, pre, post, s, lineEnd);
    BlockBody(c, b, pre, post);
    BlockAround(c, b, pre, post);
    MergeAt(c, s, b', |pre|, stop, lineEnd, Encoded(c, b), b.body, pre, post);
  }

  /** When the merge replaces a block, said with the places of its parts. */
  lemma MergeAt(c: Codec, s: string, b: Block, start: nat, stop: nat, lineEnd: nat,
                marker: string, body: string, pre: string, post: string)
    requires FindFrom(s, BEGIN, 0) == Some(start) && FindFrom(s, END, 0) == Some(stop)
    requires Once(s, BEGIN) && Once(s, END)
    requires FindFrom(s, "\n", start) == Some(lineEnd) && start + |BEGIN| <= lineEnd < stop
    requires s[start + |BEGIN|..lineEnd] == marker && s[lineEnd + 1..stop] == body
    requires s[..start] == pre && s[stop + |END|..] == post
    requires Refuses(c, marker, body, b).None?
    ensures Merge(c, s, b) == Ok(pre + Render(c, b) + post)
  {
    hide FindFrom, At, Refuses, Render;
  }

  /** A closing marker can end at the separating newline. */
  lemma MarkerAtEnd(existing: string, p: string, i: nat)
    requires IsMarker(p) && At(existing + "\n", p, i) && i + |p| > |existing|
    ensures p == END && EndsWith(existing, END_LINE)
  {
    var s := existing + "\n";
    MarkerShape(p);
    AtChar(s, p, i, |p| - 1);
    assert END == END_LINE + "\n";
    assert s[i..i + |p|][..|p| - 1] == existing[i..];
  }

  lemma EndAppears(existing: string)
    requires EndsWith(existing, END_LINE)
    ensures At(existing + "\n", END, |existing| - |END_LINE|)
  {
    var s, i := existing + "\n", |existing| - |END_LINE|;
    assert END == END_LINE + "\n";
    assert s[i..i + |END|] == existing[i..] + "\n";
  }

  lemma AfterSeparator(existing: string, p: string)
    requires IsMarker(p) && !Occurs(existing, p)
    ensures Occurs(existing + Separator(existing), p)
       <==> p == END && Separator(existing) == "\n" && EndsWith(existing, END_LINE)
  {
    hide FindFrom, At;
    var s := existing + Separator(existing);
    if Separator(existing) == "" {
      assert s == existing;
    } else {
      if Occurs(s, p) {
        var i := FindFrom(s, p, 0).value;
        if i + |p| <= |existing| {
          AtPrefix(existing, "\n", p, i);
        } else {
          MarkerAtEnd(existing, p, i);
        }
      }
      if p == END && EndsWith(existing, END_LINE) { EndAppears(existing); }
    }
  }

  /** The parts of the user's text around an accepted block hold no marker. */
  lemma AroundIsFree(existing: string, start: nat, stop: nat)
    requires FindFrom(existing, BEGIN, 0) == Some(start) && FindFrom(existing, END, 0) == Some(stop)
    requires Once(existing, BEGIN) && Once(existing, END) && start < stop
    ensures var pre, post := existing[..start], existing[stop + |END|..];
            !Occurs(pre, BEGIN) && !Occurs(pre, END) && !Occurs(post, BEGIN) && !Occurs(post, END)
  {
    hide FindFrom;
    var pre, post := existing[..start], existing[stop + |END|..];
    assert pre + existing[start..] == existing;
    assert existing[..stop + |END|] + post == existing;
    forall p, j: nat | IsMarker(p) ensures !At(pre, p, j) && !At(post, p, j) {
      if j + |p| <= |pre| { AtPrefix(pre, existing[start..], p, j); }
      AtSuffix(existing[..stop + |END|], post, p, j + stop + |END|);
    }
    assert IsMarker(BEGIN) && IsMarker(END);
  }

  lemma AcceptedSpan(existing: string, start: nat, stop: nat) returns (former: string)
    requires At(existing, BEGIN, start) && At(existing, END, stop) && start + |BEGIN| <= stop
    ensures existing == existing[..start] + former + existing[stop + |END|..]
    ensures BEGIN <= former && EndsWith(former, END)
  {
    former := existing[start..stop + |END|];
    assert former[..|BEGIN|] == existing[start..start + |BEGIN|];
    assert former[|former| - |END|..] == existing[stop..stop + |END|];
  }

  /** What the merge found out when it replaces a block. */
  lemma Accepted(c: Codec, existing: string, b: Block)
    requires Merge(c, existing, b).Ok? && (Occurs(existing, BEGIN) || Occurs(existing, END))
    ensures Once(existing, BEGIN) && Once(existing, END)
    ensures var start, stop := FindFrom(existing, BEGIN, 0).value, FindFrom(existing, END, 0).value;
            && start + |BEGIN| <= stop
            && Merge(c, existing, b).value == existing[..start] + Render(c, b) + existing[stop + |END|..]
  {
    var start := FindFrom(existing, BEGIN, 0);
    if start.Some? { BeginIsOneLine(existing, start.value); }
  }

  /** Every accepted text ends up with one block, between texts of the user's that are kept to the letter. */
  lemma MergeKeepsUserText(c: Codec, existing: string, b: Block) returns (pre: string, former: string, post: string)
    requires Merge(c, existing, b).Ok?
    ensures Merge(c, existing, b).value == pre + Render(c, b) + post
    ensures former == "" ==>
              pre == existing + Separator(existing) && post == "" && !Occurs(existing, BEGIN) && !Occurs(existing, END)
    ensures former != "" ==>
              && existing == pre + former + post
              && BEGIN <= former && EndsWith(former, END) && Occurs(existing, END)
              && !Occurs(pre, BEGIN) && !Occurs(pre, END) && !Occurs(post, BEGIN) && !Occurs(post, END)
  {
    if Occurs(existing, BEGIN) || Occurs(existing, END) {
      Accepted(c, existing, b);
      var start, stop := FindFrom(existing, BEGIN, 0).value, FindFrom(existing, END, 0).value;
      AroundIsFree(existing, start, stop);
      former := AcceptedSpan(existing, start, stop);
      pre, post := existing[..start], existing[stop + |END|..];
    } else {
      pre, former, post := existing + Separator(existing), "", "";
      assert existing + Separator(existing) + Render(c, b) + "" == existing + Separator(existing) + Render(c, b);
    }
  }

  /** The user's last line is a closing marker that lacks its newline. */
  predicate EndsInBareMarker(existing: string) {
    !Occurs(existing, BEGIN) && !Occurs(existing, END) && EndsWith(existing, END_LINE)
  }

  lemma BareMarkerHasSeparator(existing: string)
    requires EndsWith(existing, END_LINE)
    ensures Separator(existing) == "\n"
  {
    LastChar(existing, END_LINE);
    if EndsWith(existing, "\n") { LastChar(existing, "\n"); }
  }

  /** A merge is idempotent exactly when the text did not end in a closing marker without its newline. */
  lemma MergeIsIdempotent(c: Codec, existing: string, b: Block)
    requires c.Valid() && Clean(c, b) && Merge(c, existing, b).Ok?
    ensures var merged := Merge(c, existing, b).value;
            Merge(c, merged, b) == Ok(merged) <==> !EndsInBareMarker(existing)
  {
    var pre, former, post := MergeKeepsUserText(c, existing, b);
    var merged := Merge(c, existing, b).value;
    if EndsInBareMarker(existing) {
      BareMarkerHasSeparator(existing);
      AfterSeparator(existing, END);
      assert pre == existing + Separator(existing);
      SecondEnd(c, b, pre, post);
    } else {
      if former == "" {
        AfterSeparator(existing, BEGIN);
        AfterSeparator(existing, END);
      }
      Replaces(c, b, b, pre, post);
    }
  }

  lemma SecondEnd(c: Codec, b: Block, pre: string, post: string)
    requires c.Valid() && Clean(c, b) && Occurs(pre, END)
    ensures Merge(c, pre + Render(c, b) + post, b).Err?
  {
    var s := pre + Render(c, b) + post;
    var i := FindFrom(pre, END, 0).value;
    var h := |pre| + |Head(c, b)|;
    Occurrences(c, b, pre, post, END, i);
    Occurrences(c, b, pre, post, END, h);
    assert At(s, END, i) && At(s, END, h) && i < h;
  }

  /** Such texts exist: the closing marker alone is one. */
  lemma BareMarkerText()
    ensures EndsInBareMarker(END_LINE)
  {
    assert END_LINE[0..] == END_LINE;
  }
}
