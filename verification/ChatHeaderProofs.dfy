/** A written header line is read back as it was written. */
module ChatHeaderProofs {
  import opened Wrappers
  import opened Text
  import opened ChatText
  import opened Decimal
  import opened SessionTables
  import opened ChatHeader

  /** A visible character that separates nothing. */
  predicate Plain(c: char) {
    !IsSpace(c) && c != ';' && c != '=' && c != '/' && !IsParen(c) && c != '\n' && c != '\r'
  }

  predicate IsPlain(s: string) {
    forall i | 0 <= i < |s| :: Plain(s[i])
  }

  lemma ProviderIsPlain(provider: string)
    requires Canonical(provider) == Some(provider)
    ensures provider != "" && IsPlain(provider)
  {
    if provider == "claude" {
      assert IsPlain("claude");
    } else if provider == "codex" {
      assert IsPlain("codex");
    } else if provider == "antigravity" {
      assert IsPlain("antigravity");
    } else if provider == "pi" {
      assert IsPlain("pi");
    } else {
      assert provider == "omp";
      assert IsPlain("omp");
    }
  }

  lemma NameIsPlain(name: string)
    requires ValidName(name)
    ensures name != "" && name != "-" && IsPlain(name)
  {
    assert name[0] != '-';
  }

  lemma PlainParts(key: Key, event: string)
    requires ValidKey(key) && ValidEvent(event)
    ensures IsPlain(key.provider) && IsPlain(key.sessionId) && IsPlain(event)
    ensures key.provider != "" && key.sessionId != "" && event != ""
  {
    ProviderIsPlain(key.provider);
  }

  lemma TrimVisible(s: string)
    requires s != "" && !IsSpace(s[0]) && !IsSpace(s[|s| - 1])
    ensures Trim(s) == s && Trim(" " + s) == s
  {
    assert (" " + s)[1..] == s;
    EndVisible(s);
  }

  lemma SplitsGroup(first: string, second: string, third: string)
    requires Without(first, ';') && Without(second, ';') && Without(third, ';')
    ensures SplitOn(first + ";" + (second + ";" + third), ';') == [first, second, third]
  {
    SplitFirst(first, ';', second + ";" + third);
    SplitFirst(second, ';', third);
    SplitNone(third, ';');
  }

  /** A field is read back. */
  lemma ReadsField(parts: seq<string>, name: string, value: string)
    requires IsPlain(name) && IsPlain(value) && name != "" && value != ""
    requires parts != [] && parts[|parts| - 1] == name + "=" + value
    ensures Fields(parts) == Fields(parts[..|parts| - 1])[name := value]
  {
    var last := name + "=" + value;
    assert forall j | 0 <= j < |name| :: last[j] == name[j];
    IndexIs(last, '=', 0, |name|);
    assert last[..|name|] == name && last[|name| + 1..] == value;
    TrimVisible(name);
    TrimVisible(value);
  }

  lemma SplitGroup(first: string, second: string, third: string)
    requires Without(first, ';') && Without(second, ';') && Without(third, ';')
    requires Trim(first) == first && Trim(" " + second) == second && Trim(" " + third) == third
    ensures TrimAll(SplitOn(first + ";" + (" " + second + ";" + (" " + third)), ';')) == [first, second, third]
  {
    SplitsGroup(first, " " + second, " " + third);
    ThreeTrimmed(first, " " + second, " " + third);
  }

  lemma ReadsFirst(provider: string, session: string)
    requires IsPlain(provider)
    ensures var first := provider + "/" + session;
            IndexOf(first, '/', 0) == Some(|provider|) && first[..|provider|] == provider
              && first[|provider| + 1..] == session
  {
    var first := provider + "/" + session;
    assert forall j | 0 <= j < |provider| :: first[j] == provider[j];
    IndexIs(first, '/', 0, |provider|);
  }

  lemma ParsesParts(group: string, key: Key, n: string, event: string)
    requires ValidKey(key) && n != "" && IsPlain(n) && ValidEvent(event)
    requires TrimAll(SplitOn(group, ';')) == [key.provider + "/" + key.sessionId, "name=" + n, "event=" + event]
    ensures ParseGroup(group)
         == Some(Meta(Some(key.provider), Some(key.sessionId), if n == "-" then None else Some(n), Some(event)))
  {
    PlainParts(key, event);
    var parts := [key.provider + "/" + key.sessionId, "name=" + n, "event=" + event];
    ReadsFirst(key.provider, key.sessionId);
    FieldsOf(parts[1], parts[2], n, event);
    assert parts[1..] == [parts[1], parts[2]];
  }

  lemma ParsesGroup(key: Key, name: Option<string>, event: string)
    requires ValidKey(key) && (name.Some? ==> ValidName(name.value)) && ValidEvent(event)
    ensures ParseGroup(GroupText(key, name, event))
            == Some(Meta(Some(key.provider), Some(key.sessionId), name, Some(event)))
  {
    hide ParseGroup, SplitOn, TrimAll, Trim;
    PlainParts(key, event);
    if name.Some? { NameIsPlain(name.value); }
    var n := if name.Some? then name.value else "-";
    var first, second, third := key.provider + "/" + key.sessionId, "name=" + n, "event=" + event;
    TrimVisible(first);
    TrimVisible(second);
    TrimVisible(third);
    SplitGroup(first, second, third);
    assert " name=" + n == " " + second && " event=" + event == " " + third;
    ParsesParts(GroupText(key, name, event), key, n, event);
  }

  lemma ThreeTrimmed(a: string, b: string, c: string)
    ensures TrimAll([a, b, c]) == [Trim(a), Trim(b), Trim(c)]
  {
    assert [a, b, c][1..] == [b, c] && [b, c][1..] == [c] && [c][1..] == [];
    assert TrimAll([c]) == [Trim(c)];
    assert TrimAll([b, c]) == [Trim(b), Trim(c)];
  }

  lemma FieldsOf(second: string, third: string, n: string, event: string)
    requires second == "name=" + n && third == "event=" + event
    requires IsPlain(n) && n != "" && IsPlain(event) && event != ""
    ensures Fields([second, third]) == map["name" := n, "event" := event]
  {
    assert [second, third][..1] == [second] && [second][..0] == [];
    assert second == "name" + "=" + n && third == "event" + "=" + event;
    ReadsField([second], "name", n);
    ReadsField([second, third], "event", event);
  }

  lemma {:induction false} FindsParen(s: string, i: nat, k: nat)
    requires i <= k < |s| && IsParen(s[k]) && forall j | i <= j < k :: !IsParen(s[j])
    ensures NextParen(s, i) == Some(k)
    decreases k - i
  {
    if i < k { FindsParen(s, i + 1, k); }
  }

  predicate NoParens(s: string) {
    forall i | 0 <= i < |s| :: !IsParen(s[i])
  }

  lemma GroupIsFlat(key: Key, name: Option<string>, event: string)
    requires ValidKey(key) && (name.Some? ==> ValidName(name.value)) && ValidEvent(event)
    ensures NoParens(GroupText(key, name, event)) && IsLine(GroupText(key, name, event))
  {
    PlainParts(key, event);
    if name.Some? { NameIsPlain(name.value); }
  }

  lemma ReadsGroup(group: string)
    requires NoParens(group) && ParseGroup(group).Some?
    ensures Metadata(" (" + group + ")") == ParseGroup(group).value
  {
    var suffix := " (" + group + ")";
    IndexIs(suffix, '(', 0, 1);
    var rest := suffix[2..];
    assert rest == group + ")";
    FindsParen(rest, 0, |group|);
    assert rest[..|group|] == group;
  }

  /** Provider, session, name and event of a written header are read back; no name is not the name "-". */
  lemma MetadataRoundTrip(key: Key, name: Option<string>, event: string)
    requires ValidKey(key) && (name.Some? ==> ValidName(name.value)) && ValidEvent(event)
    ensures Metadata(Suffix(key, name, event)) == Meta(Some(key.provider), Some(key.sessionId), name, Some(event))
  {
    ParsesGroup(key, name, event);
    GroupIsFlat(key, name, event);
    ReadsGroup(GroupText(key, name, event));
  }

  // ---- the line ----

  lemma ReadsSpeaker(h: Header, suffix: string)
    requires Without(suffix, '\r')
    ensures ParseSpeaker(h, " `HOST`" + suffix) == Some(h.(speaker := "HOST", suffix := suffix))
  {
    var s, r := " `HOST`" + suffix, "`HOST`" + suffix;
    assert s[1..] == r && TrimLeft(r) == r && TrimLeft(s) == r;
    IndexIs(r, '`', 1, 5);
    assert r[1..5] == "HOST" && r[6..] == suffix;
  }

  lemma ReadsTime(h: Header, timestamp: string, rest: string)
    requires ValidTime(timestamp)
    ensures ParseTime(h, " [" + timestamp + "]" + rest) == ParseSpeaker(h.(timestamp := timestamp), rest)
  {
    var s, r := " [" + timestamp + "]" + rest, "[" + timestamp + "]" + rest;
    assert s[1..] == r && TrimLeft(r) == r && TrimLeft(s) == r;
    assert forall j | 1 <= j < 1 + |timestamp| :: r[j] == timestamp[j - 1];
    IndexIs(r, ']', 1, 1 + |timestamp|);
    assert r[1..1 + |timestamp|] == timestamp && r[1 + |timestamp| + 1..] == rest;
  }

  lemma ReadsMarker(marker: string, rest: string)
    requires IsMarker(marker)
    ensures ParseHeader("**[" + marker + "]**" + rest) == ParseTime(Header(marker, "", "", ""), rest)
  {
    var line := "**[" + marker + "]**" + rest;
    MarkerChars(marker);
    assert forall j | 3 <= j < 3 + |marker| :: line[j] == marker[j - 3];
    IndexIs(line, ']', 3, 3 + |marker|);
    assert line[3..3 + |marker|] == marker;
    assert line[3 + |marker|..3 + |marker| + 3] == "]**";
    assert line[3 + |marker| + 3..] == rest;
    assert line[..3] == "**[";
  }

  /** A header line is read back as it was written. */
  lemma HeaderRoundTrip(marker: string, timestamp: string, key: Key, name: Option<string>, event: string)
    requires IsMarker(marker) && ValidTime(timestamp)
    requires ValidKey(key) && (name.Some? ==> ValidName(name.value)) && ValidEvent(event)
    ensures ParseHeader(Tag(marker, timestamp, key, name, event))
         == Some(Header(marker, timestamp, "HOST", Suffix(key, name, event)))
  {
    var suffix := Suffix(key, name, event);
    SuffixIsLine(key, name, event);
    ReadsSpeaker(Header(marker, timestamp, "", ""), suffix);
    ReadsTime(Header(marker, "", "", ""), timestamp, " `HOST`" + suffix);
    ReadsMarker(marker, " [" + timestamp + "]" + (" `HOST`" + suffix));
  }

  lemma SuffixIsLine(key: Key, name: Option<string>, event: string)
    requires ValidKey(key) && (name.Some? ==> ValidName(name.value)) && ValidEvent(event)
    ensures IsLine(Suffix(key, name, event))
  {
    GroupIsFlat(key, name, event);
  }
}
