/** Whole files that the program owns, recognised by a marker that names the source and covers the body by a digest. */
module ManagedFile {
  import opened Wrappers
  import opened Text
  import opened JsonValues

  datatype Style = Markdown | Frontmatter | Slash | Hash | Document | Unknown(name: string)

  datatype Managed = Managed(body: string, source: string, style: Style)

  const OWNER := "playbook-harness"
  const SCHEMA := 2
  const KEY := "_playbook_harness"
  const FENCE := "---\n"
  const CLOSING := "\n---\n"

  /** What stands around the metadata in a marker line. */
  function Wrapper(style: Style): Option<(string, string)> {
    match style
    case Markdown => Some(("<!-- playbook-managed: ", " -->"))
    case Frontmatter => Some(("<!-- playbook-managed: ", " -->"))
    case Slash => Some(("// playbook-managed: ", ""))
    case Hash => Some(("# playbook-managed: ", ""))
    case Document => None
    case Unknown(_) => None
  }

  function BodyDigest(c: Codec, body: string, style: Style): Result<string, string> {
    if style != Document then Ok(c.digest(body))
    else match c.parse(body)
      case None => Err("managed JSON source is malformed")
      case Some(v) => Ok(c.valueDigest(v))
  }

  function Metadata(source: string, hash: string): Json {
    Obj(map["managed_by" := Str(OWNER), "schema" := Num(SCHEMA), "source" := Str(source), "source_hash" := Str(hash)])
  }

  function Render(c: Codec, m: Managed): Result<string, string> {
    match BodyDigest(c, m.body, m.style)
    case Err(e) => Err(e)
    case Ok(hash) =>
      var metadata := Metadata(m.source, hash);
      if m.style == Document then RenderDocument(c, m.body, metadata)
      else match Wrapper(m.style)
        case None => Err("unknown managed marker style")
        case Some((prefix, suffix)) => RenderText(m, prefix + c.compact(metadata) + suffix)
  }

  function RenderDocument(c: Codec, body: string, metadata: Json): Result<string, string> {
    match c.parse(body)
    case None => Err("managed JSON source is malformed")
    case Some(doc) =>
      if !doc.Obj? || KEY in doc.fields then Err("managed JSON source must be an unmarked object")
      else Ok(c.indented(Obj(doc.fields[KEY := metadata])) + "\n")
  }

  function RenderText(m: Managed, marker: string): Result<string, string> {
    if m.style == Frontmatter && FENCE <= m.body then
      match FindFrom(m.body, CLOSING, 4)
      case None => Err("managed Markdown frontmatter is malformed")
      case Some(closing) =>
        var at := closing + |CLOSING|;
        Ok(m.body[..at] + marker + "\n" + m.body[at..])
    else Ok(marker + "\n" + m.body)
  }

  /** The marker's metadata and the body, or nothing for a file without a marker. */
  function Parse(c: Codec, text: string, style: Style): Result<Option<(Json, string)>, string> {
    if text == "" then Ok(None)
    else if style == Document then ParseDocument(c, text)
    else if style == Frontmatter && FENCE <= text then
      match FindFrom(text, CLOSING, 4)
      case None => Err("managed Markdown frontmatter is malformed")
      case Some(closing) => ParseLine(c, text, closing + |CLOSING|, style)
    else ParseLine(c, text, 0, style)
  }

  function ParseDocument(c: Codec, text: string): Result<Option<(Json, string)>, string> {
    match c.parse(text)
    case None => Err("managed JSON file is malformed")
    case Some(doc) =>
      if !doc.Obj? then Err("managed JSON root is not an object")
      else if Get(doc, KEY) == Null then Ok(None)
      else if !Get(doc, KEY).Obj? then Err("managed JSON marker is malformed")
      else Ok(Some((Get(doc, KEY), c.indented(Obj(doc.fields - {KEY})) + "\n")))
  }

  /** Reads the marker line at `start`. */
  function ParseLine(c: Codec, text: string, start: nat, style: Style): Result<Option<(Json, string)>, string>
    requires start <= |text|
  {
    match Wrapper(style)
    case None => Err("unknown managed marker style")
    case Some((prefix, suffix)) =>
      var end := FindFrom(text, "\n", start);
      var line := if end.Some? then text[start..end.value] else text[start..];
      if !(prefix <= line) then Ok(None)
      else if !EndsWith(line, suffix) then Err("malformed managed-file marker")
      else
        var payload := if |prefix| + |suffix| <= |line| then line[|prefix|..|line| - |suffix|] else "";
        var metadata := c.parse(payload);
        if metadata.None? || end.None? || !metadata.value.Obj? then Err("malformed managed-file marker")
        else Ok(Some((metadata.value, text[..start] + text[end.value + 1..])))
  }

  // ---- parsing undoes rendering ----

  lemma WrapperIsPlain(style: Style)
    requires Wrapper(style).Some?
    ensures var (prefix, suffix) := Wrapper(style).value;
            Without(prefix, '\n') && Without(suffix, '\n') && |prefix| > 0 && prefix[0] != '-'
  {}

  lemma Unwraps(prefix: string, encoded: string, suffix: string)
    ensures var line := prefix + encoded + suffix;
            prefix <= line && EndsWith(line, suffix) && line[|prefix|..|line| - |suffix|] == encoded
  {}

  lemma ReadsLine(before: string, line: string, rest: string)
    requires Without(line, '\n')
    ensures var text := before + line + "\n" + rest;
            && FindFrom(text, "\n", |before|) == Some(|before| + |line|)
            && text[|before|..|before| + |line|] == line
            && text[..|before|] == before && text[|before| + |line| + 1..] == rest
  {
    FindsNewline(before, line, rest);
    Sliced(before, line, "\n" + rest);
    Sliced(before + line, "\n", rest);
    assert before + line + ("\n" + rest) == before + line + "\n" + rest;
  }

  lemma Sliced(a: string, b: string, r: string)
    ensures var s := a + b + r; s[..|a|] == a && s[|a|..|a| + |b|] == b && s[|a| + |b|..] == r
  {}

  lemma ParsesMarkerLine(c: Codec, before: string, metadata: Json, rest: string, style: Style, prefix: string,
                         suffix: string)
    requires c.Valid() && metadata.Obj? && Wrapper(style) == Some((prefix, suffix))
    ensures var text := before + (prefix + c.compact(metadata) + suffix) + "\n" + rest;
            ParseLine(c, text, |before|, style) == Ok(Some((metadata, before + rest)))
  {
    var encoded := c.compact(metadata);
    assert IsBraced(encoded);
    WrapperIsPlain(style);
    Unwraps(prefix, encoded, suffix);
    ReadsLine(before, prefix + encoded + suffix, rest);
  }

  /** Inserting a line after a front matter does not move its end. */
  lemma ClosingStays(body: string, line: string, closing: nat)
    requires FindFrom(body, CLOSING, 4) == Some(closing)
    ensures var at := closing + |CLOSING|; FindFrom(body[..at] + line + body[at..], CLOSING, 4) == Some(closing)
  {
    var at := closing + |CLOSING|;
    var head := body[..at];
    assert head + line + body[at..] == head + (line + body[at..]) && body == head + body[at..];
    forall j | 4 <= j <= closing ensures At(head + line + body[at..], CLOSING, j) <==> At(body, CLOSING, j) {
      AtPrefix(head, line + body[at..], CLOSING, j);
      AtPrefix(head, body[at..], CLOSING, j);
    }
    FindIs(head + line + body[at..], CLOSING, 4, closing);
  }

  lemma ParsesFrontmatter(c: Codec, m: Managed, metadata: Json, prefix: string, suffix: string)
    requires c.Valid() && metadata.Obj? && m.style == Frontmatter && FENCE <= m.body
             && Wrapper(m.style) == Some((prefix, suffix))
    ensures var text := RenderText(m, prefix + c.compact(metadata) + suffix);
            text.Ok? ==> Parse(c, text.value, m.style) == Ok(Some((metadata, m.body)))
  {
    hide FindFrom, ParseLine, Wrapper;
    var marker := prefix + c.compact(metadata) + suffix;
    if RenderText(m, marker).Ok? {
      var closing := FindFrom(m.body, CLOSING, 4).value;
      var at := closing + |CLOSING|;
      var head, tail := m.body[..at], m.body[at..];
      FenceStays(m.body, at, marker + "\n");
      ClosingStays(m.body, marker + "\n", closing);
      assert head + (marker + "\n") + tail == head + marker + "\n" + tail;
      ParsesMarkerLine(c, head, metadata, tail, m.style, prefix, suffix);
      assert head + tail == m.body;
    }
  }

  lemma FenceStays(body: string, at: nat, line: string)
    requires FENCE <= body && 4 <= at <= |body|
    ensures FENCE <= body[..at] + line + body[at..]
  {
    assert (body[..at] + line + body[at..])[..4] == body[..4];
  }

  lemma ParsesPlain(c: Codec, m: Managed, metadata: Json, prefix: string, suffix: string)
    requires c.Valid() && metadata.Obj? && !(m.style == Frontmatter && FENCE <= m.body)
             && Wrapper(m.style) == Some((prefix, suffix))
    ensures var text := RenderText(m, prefix + c.compact(metadata) + suffix);
            text.Ok? ==> Parse(c, text.value, m.style) == Ok(Some((metadata, m.body)))
  {
    hide FindFrom, ParseLine;
    var marker := prefix + c.compact(metadata) + suffix;
    var text := marker + "\n" + m.body;
    ParsesMarkerLine(c, "", metadata, m.body, m.style, prefix, suffix);
    assert "" + marker + "\n" + m.body == text;
    assert "" + m.body == m.body;
    WrapperIsPlain(m.style);
    assert text[0] == prefix[0] && FENCE[0] == '-';
  }

  /**
   In every marker style, parsing a rendered file gives the metadata back, and a body with the same digest: the very
   same body, except that a JSON document is printed anew.
   */
  lemma ParseUndoesRender(c: Codec, m: Managed)
    requires c.Valid() && Render(c, m).Ok?
    ensures var hash := BodyDigest(c, m.body, m.style);
            var parsed := Parse(c, Render(c, m).value, m.style);
            && hash.Ok? && parsed.Ok? && parsed.value.Some?
            && parsed.value.value.0 == Metadata(m.source, hash.value)
            && BodyDigest(c, parsed.value.value.1, m.style) == hash
            && (m.style != Document ==> parsed.value.value.1 == m.body)
  {
    var hash := BodyDigest(c, m.body, m.style);
    var metadata := Metadata(m.source, hash.value);
    if m.style == Document {
      var doc := c.parse(m.body).value;
      var marked := Obj(doc.fields[KEY := metadata]);
      assert c.parse(c.indented(marked) + "\n") == Some(marked);
      assert doc.fields[KEY := metadata] - {KEY} == doc.fields;
      assert c.parse(c.indented(doc) + "\n") == Some(doc);
    } else {
      var (prefix, suffix) := Wrapper(m.style).value;
      if m.style == Frontmatter && FENCE <= m.body {
        ParsesFrontmatter(c, m, metadata, prefix, suffix);
      } else {
        ParsesPlain(c, m, metadata, prefix, suffix);
      }
    }
  }

  /** What the planner accepts as its own, unmodified file. */
  predicate Authentic(c: Codec, text: string, source: string, style: Style) {
    var parsed := Parse(c, text, style);
    && parsed.Ok? && parsed.value.Some?
    && var (metadata, body) := parsed.value.value;
       && Get(metadata, "managed_by") == Str(OWNER) && Get(metadata, "schema") == Num(SCHEMA)
          && Get(metadata, "source") == Str(source)
       && var hash := BodyDigest(c, body, style); hash.Ok? && Get(metadata, "source_hash") == Str(hash.value)
  }

  lemma RenderedIsAuthentic(c: Codec, m: Managed)
    requires c.Valid() && Render(c, m).Ok?
    ensures Authentic(c, Render(c, m).value, m.source, m.style)
  {
    ParseUndoesRender(c, m);
  }

  /**
   A change of the body under an unchanged marker line is noticed: with injective digests, a file that carries the
   marker of `m` is authentic only with the body of `m`.
   */
  lemma OtherBodyIsNoticed(c: Codec, m: Managed, text: string)
    requires c.Valid() && Render(c, m).Ok? && m.style != Document
    requires forall x, y | c.digest(x) == c.digest(y) :: x == y
    requires var parsed := Parse(c, text, m.style);
             parsed.Ok? && parsed.value.Some? && parsed.value.value.0 == Metadata(m.source, c.digest(m.body))
    ensures Authentic(c, text, m.source, m.style) <==> Parse(c, text, m.style) == Parse(c, Render(c, m).value, m.style)
  {
    ParseUndoesRender(c, m);
  }
}
