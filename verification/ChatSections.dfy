/** Dividing a text into sections, each a header with the lines up to the next header. */
module ChatSections {
  import opened Wrappers

  function NextHeader<H>(lines: seq<string>, i: nat, p: string -> Option<H>): (k: nat)
    requires i <= |lines|
    ensures i <= k <= |lines|
    ensures forall j | i <= j < k :: p(lines[j]).None?
    ensures k < |lines| ==> p(lines[k]).Some?
    decreases |lines| - i
  {
    if i == |lines| || p(lines[i]).Some? then i else NextHeader(lines, i + 1, p)
  }

  /** The headers in order, each with the lines up to the next one. */
  function Sections<H>(lines: seq<string>, p: string -> Option<H>): seq<(H, seq<string>)>
    decreases |lines|
  {
    if lines == [] then []
    else if p(lines[0]).None? then Sections(lines[1..], p)
    else
      var k := NextHeader(lines, 1, p);
      [(p(lines[0]).value, lines[1..k])] + Sections(lines[k..], p)
  }

  lemma {:induction false} SkipsTo<H>(lines: seq<string>, i: nat, p: string -> Option<H>)
    requires i <= |lines|
    ensures Sections(lines[i..], p) == Sections(lines[NextHeader(lines, i, p)..], p)
    decreases |lines| - i
  {
    if i < |lines| && p(lines[i]).None? {
      assert lines[i..][1..] == lines[i + 1..];
      SkipsTo(lines, i + 1, p);
    }
  }

  lemma {:induction false} NextInSuffix<H>(lines: seq<string>, i: nat, j: nat, p: string -> Option<H>)
    requires i <= j <= |lines|
    ensures NextHeader(lines[i..], j - i, p) == NextHeader(lines, j, p) - i
    decreases |lines| - j
  {
    if j < |lines| && p(lines[j]).None? { NextInSuffix(lines, i, j + 1, p); }
  }

  lemma SectionAt<H>(lines: seq<string>, i: nat, p: string -> Option<H>)
    requires i < |lines| && p(lines[i]).Some?
    ensures var k := NextHeader(lines, i + 1, p);
            Sections(lines[i..], p) == [(p(lines[i]).value, lines[i + 1..k])] + Sections(lines[k..], p)
  {
    var k := NextHeader(lines, i + 1, p);
    NextInSuffix(lines, i, i + 1, p);
    assert lines[i..][1..k - i] == lines[i + 1..k];
    assert lines[i..][k - i..] == lines[k..];
  }

  ghost predicate NoHeaders<H>(lines: seq<string>, p: string -> Option<H>) {
    forall i | 0 <= i < |lines| :: p(lines[i]).None?
  }

  lemma {:induction false} NextIs<H>(lines: seq<string>, i: nat, k: nat, p: string -> Option<H>)
    requires i <= k <= |lines| && forall j | i <= j < k :: p(lines[j]).None?
    requires k < |lines| ==> p(lines[k]).Some?
    ensures NextHeader(lines, i, p) == k
    decreases k - i
  {
    if i < k { NextIs(lines, i + 1, k, p); }
  }

  lemma {:induction false} SectionsSkip<H>(pre: seq<string>, rest: seq<string>, p: string -> Option<H>)
    requires NoHeaders(pre, p)
    ensures Sections(pre + rest, p) == Sections(rest, p)
  {
    if pre == [] {
      assert pre + rest == rest;
    } else {
      assert (pre + rest)[0] == pre[0] && (pre + rest)[1..] == pre[1..] + rest;
      SectionsSkip(pre[1..], rest, p);
    }
  }

  /** Lines behind the last section become part of it. */
  function Extend<H>(sections: seq<(H, seq<string>)>, more: seq<string>): seq<(H, seq<string>)> {
    if sections == [] then []
    else
      var n := |sections| - 1;
      sections[n := (sections[n].0, sections[n].1 + more)]
  }

  lemma FirstSection<H>(all: seq<string>, tail: seq<string>, rest: seq<string>, p: string -> Option<H>)
    requires all != [] && p(all[0]).Some? && NextHeader(all, 1, p) == 1 + |tail| && all == [all[0]] + tail + rest
    ensures Sections(all, p) == [(p(all[0]).value, tail)] + Sections(rest, p)
  {
    var k := 1 + |tail|;
    assert all[1..k] == tail && all[k..] == rest;
  }

  lemma OneSection<H>(tag: string, h: H, tail: seq<string>, p: string -> Option<H>)
    requires p(tag) == Some(h) && NoHeaders(tail, p)
    ensures Sections([tag] + tail, p) == [(h, tail)]
  {
    var lines := [tag] + tail;
    NextIs(lines, 1, |lines|, p);
    assert lines == [lines[0]] + tail + [];
    FirstSection(lines, tail, [], p);
  }

  lemma NextOverSeparator<H>(lines: seq<string>, sep: seq<string>, rest: seq<string>, p: string -> Option<H>)
    requires lines != [] && NextHeader(lines, 1, p) == |lines| && NoHeaders(sep, p) && rest != [] && p(rest[0]).Some?
    ensures NextHeader(lines + (sep + rest), 1, p) == |lines| + |sep|
  {
    var all, k := lines + (sep + rest), |lines| + |sep|;
    forall j | 1 <= j < k ensures p(all[j]).None? {
      if j < |lines| { assert all[j] == lines[j]; } else { assert all[j] == sep[j - |lines|]; }
    }
    assert all[k] == rest[0];
    NextIs(all, 1, k, p);
  }

  lemma LastSection<H>(lines: seq<string>, sep: seq<string>, tag: string, h: H, tail: seq<string>,
                       p: string -> Option<H>)
    requires lines != [] && p(lines[0]).Some? && NextHeader(lines, 1, p) == |lines|
    requires NoHeaders(sep, p) && p(tag) == Some(h) && NoHeaders(tail, p)
    ensures Sections(lines + (sep + ([tag] + tail)), p) == Extend(Sections(lines, p), sep) + [(h, tail)]
  {
    assert lines == [lines[0]] + lines[1..] + [];
    FirstSection(lines, lines[1..], [], p);
    NextOverSeparator(lines, sep, [tag] + tail, p);
    OneSection(tag, h, tail, p);
    LongerSection(lines, sep, [tag] + tail, p);
  }

  lemma LongerSection<H>(lines: seq<string>, sep: seq<string>, rest: seq<string>, p: string -> Option<H>)
    requires lines != [] && p(lines[0]).Some? && NextHeader(lines + (sep + rest), 1, p) == |lines| + |sep|
    ensures Sections(lines + (sep + rest), p) == [(p(lines[0]).value, lines[1..] + sep)] + Sections(rest, p)
  {
    var all := lines + (sep + rest);
    assert all == [all[0]] + (lines[1..] + sep) + rest;
    FirstSection(all, lines[1..] + sep, rest, p);
  }

  lemma ExtendBehind<H>(first: (H, seq<string>), rest: seq<(H, seq<string>)>, more: seq<string>)
    requires rest != []
    ensures Extend([first] + rest, more) == [first] + Extend(rest, more)
  {}

  /** A block at the end of a text adds its section; the lines before its header go to the section before. */
  lemma {:induction false} SectionsAppend<H>(lines: seq<string>, sep: seq<string>, tag: string, h: H, tail: seq<string>,
                                             p: string -> Option<H>)
    requires NoHeaders(sep, p) && p(tag) == Some(h) && NoHeaders(tail, p)
    ensures Sections(lines + (sep + ([tag] + tail)), p) == Extend(Sections(lines, p), sep) + [(h, tail)]
    decreases |lines|
  {
    var block := sep + ([tag] + tail);
    var all := lines + block;
    if lines == [] {
      assert all == block;
      SectionsSkip(sep, [tag] + tail, p);
      OneSection(tag, h, tail, p);
    } else if p(lines[0]).None? {
      assert all[1..] == lines[1..] + block;
      SectionsAppend(lines[1..], sep, tag, h, tail, p);
    } else {
      var k := NextHeader(lines, 1, p);
      if k == |lines| {
        LastSection(lines, sep, tag, h, tail, p);
      } else {
        NextIs(all, 1, k, p);
        assert all[1..k] == lines[1..k] && all[k..] == lines[k..] + block;
        SectionsAppend(lines[k..], sep, tag, h, tail, p);
        SectionAt(lines, k, p);
        ExtendBehind((p(lines[0]).value, lines[1..k]), Sections(lines[k..], p), sep);
      }
    }
  }
}
