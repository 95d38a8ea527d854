/** The header line of an entry: its marker, time stamp and speaker, and in parentheses whose it is. */
module ChatHeader {
  import opened Wrappers
  import opened Text
  import opened ChatText
  import opened Decimal
  import opened SessionTables

  datatype Header = Header(marker: string, timestamp: string, speaker: string, suffix: string)

  predicate SpeakerChar(c: char) {
    IsAlnum(c) || c == '_' || c == '-'
  }

  predicate IsWord(s: string) {
    s != "" && forall i | 0 <= i < |s| :: SpeakerChar(s[i])
  }

  function ParseSpeaker(h: Header, s: string): Option<Header> {
    if TrimLeft(s) == s || TrimLeft(s) == "" || TrimLeft(s)[0] != '`' then None
    else
      var r := TrimLeft(s);
      match IndexOf(r, '`', 1)
      case None => None
      case Some(e) =>
        if !IsWord(r[1..e]) || !Without(r[e + 1..], '\r') then None
        else Some(h.(speaker := r[1..e], suffix := r[e + 1..]))
  }

  function ParseTime(h: Header, s: string): Option<Header> {
    if TrimLeft(s) == s || TrimLeft(s) == "" || TrimLeft(s)[0] != '[' then None
    else
      var r := TrimLeft(s);
      match IndexOf(r, ']', 1)
      case None => None
      case Some(j) =>
        if j == 1 || !Without(r[1..j], '\r') then None
        else ParseSpeaker(h.(timestamp := r[1..j]), r[j + 1..])
  }

  function ParseHeader(line: string): Option<Header> {
    if !("**[" <= line) then None
    else
      match IndexOf(line, ']', 3)
      case None => None
      case Some(k) =>
        if !IsMarker(line[3..k]) || !At(line, "]**", k) then None
        else ParseTime(Header(line[3..k], "", "", ""), line[k + 3..])
  }

  /** Every header is a tagged line, so a line that is not tagged never starts an entry. */
  lemma HeadersAreTagged(line: string)
    requires ParseHeader(line).Some?
    ensures IsTagged(line)
  {}

  // ---- whose entry it is ----

  datatype Meta = Meta(provider: Option<string>, session: Option<string>, name: Option<string>, event: Option<string>)

  const NOBODY := Meta(None, None, None, None)

  function Canonical(provider: string): Option<string> {
    if provider == "agy" then Some("antigravity")
    else if provider in {"claude", "codex", "antigravity", "pi", "omp"} then Some(provider)
    else None
  }

  predicate ValidSession(s: string) {
    1 <= |s| <= 200 && IsAlnum(s[0]) && forall i | 0 <= i < |s| ::
         IsAlnum(s[i]) || s[i] == '.' || s[i] == '_' || s[i] == '-'
  }

  predicate ValidEvent(s: string) {
    && 1 <= |s| <= 128 && IsAlnum(s[0])
    && forall i | 0 <= i < |s| :: IsAlnum(s[i]) || s[i] == '_' || s[i] == '.' || s[i] == ':' || s[i] == '-'
  }

  function Fields(parts: seq<string>): map<string, string> {
    if parts == [] then map[]
    else
      var last := parts[|parts| - 1];
      var rest := Fields(parts[..|parts| - 1]);
      match IndexOf(last, '=', 0)
      case None => rest
      case Some(e) => rest[Trim(last[..e]) := Trim(last[e + 1..])]
  }

  function TrimAll(parts: seq<string>): seq<string> {
    if parts == [] then [] else [Trim(parts[0])] + TrimAll(parts[1..])
  }

  function Field(fields: map<string, string>, name: string): Option<string> {
    if name in fields then Some(fields[name]) else None
  }

  /** The identity in one group, if it starts with a provider and a session. */
  function ParseGroup(group: string): Option<Meta> {
    var parts := TrimAll(SplitOn(group, ';'));
    if parts == [] then None
    else
      match IndexOf(parts[0], '/', 0)
      case None => None
      case Some(k) =>
        var provider, session := Canonical(parts[0][..k]), parts[0][k + 1..];
        if provider.None? || !ValidSession(session) then None
        else
          var fields := Fields(parts[1..]);
          var name := Field(fields, "name");
          Some(Meta(provider, Some(session), if name == Some("-") then None else name, Field(fields, "event")))
  }

  predicate IsParen(c: char) {
    c == '(' || c == ')'
  }

  function NextParen(s: string, i: nat): (r: Option<nat>)
    ensures r.Some? ==> i <= r.value < |s| && IsParen(s[r.value])
    decreases |s| - i
  {
    if i >= |s| then None else if IsParen(s[i]) then Some(i) else NextParen(s, i + 1)
  }

  /** The first group that carries an identity; legacy notes are passed over. */
  function Metadata(suffix: string): Meta
    decreases |suffix|
  {
    match IndexOf(suffix, '(', 0)
    case None => NOBODY
    case Some(i) =>
      var rest := suffix[i + 1..];
      match NextParen(rest, 0)
      case None => NOBODY
      case Some(j) =>
        if rest[j] == '(' then Metadata(rest[j..])
        else match ParseGroup(rest[..j])
          case Some(meta) => meta
          case None => Metadata(rest[j + 1..])
  }

  // ---- what is written ----

  function GroupText(key: Key, name: Option<string>, event: string): string {
    (key.provider + "/" + key.sessionId) + ";"
      + (" name=" + (if name.Some? then name.value else "-") + ";" + (" event=" + event))
  }

  function Suffix(key: Key, name: Option<string>, event: string): string {
    " (" + GroupText(key, name, event) + ")"
  }

  function Tag(marker: string, timestamp: string, key: Key, name: Option<string>, event: string): string {
    "**[" + marker + "]**" + (" [" + timestamp + "]" + (" `HOST`" + Suffix(key, name, event)))
  }

  predicate ValidKey(key: Key) {
    Canonical(key.provider) == Some(key.provider) && ValidSession(key.sessionId)
  }

  predicate ValidTime(timestamp: string) {
    timestamp != "" && IsLine(timestamp) && Without(timestamp, ']')
  }
}
