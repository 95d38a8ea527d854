/**
 JSON values and their text.  An object is a map, so the order of its fields is
 not part of a value; a codec gives the text, and is all that is known about it.
 */
module JsonValues {
  import opened Wrappers
  import opened Text

  datatype Json = Null | Bool(bool) | Num(num: int) | Str(text: string) | Arr(items: seq<Json>) |
    Obj(fields: map<string, Json>)

  /** Compact and indented printing, parsing, and the two digests. */
  datatype Codec = Codec(
    compact: Json -> string,
    indented: Json -> string,
    parse: string -> Option<Json>,
    digest: string -> string,
    valueDigest: Json -> string)
  {
    /**
     A printed object is one line in braces, and what is printed is read back, also after a final newline; no value is
     written as nothing.
     */
    ghost predicate Valid() {
      && parse("") == None
      && (forall v: Json :: v.Obj? ==> IsBraced(compact(v)) && parse(compact(v)) == Some(v))
      && (forall v: Json :: v.Obj? ==> parse(indented(v) + "\n") == Some(v))
    }
  }

  predicate IsBraced(s: string) {
    |s| >= 2 && s[0] == '{' && s[|s| - 1] == '}' && Without(s, '\n')
  }

  /** A field of an object, null when absent. */
  function Get(v: Json, name: string): Json {
    if v.Obj? && name in v.fields then v.fields[name] else Null
  }

  /** The value at the end of a path of field names. */
  function ValueAt(doc: Json, path: seq<string>): Option<Json> {
    if path == [] then Some(doc)
    else if doc.Obj? && path[0] in doc.fields then ValueAt(doc.fields[path[0]], path[1..])
    else None
  }

  /** Neither path lies on the way to the other. */
  predicate Apart(p: seq<string>, q: seq<string>) {
    !(p <= q) && !(q <= p)
  }
}
