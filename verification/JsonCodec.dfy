/**
 A printer and a parser for JSON values, as plain as can be: that one such pair exists is why a codec may be any pair
 that reads back what it prints.
 */
module JsonCodec {
  import opened Wrappers
  import opened Text
  import opened JsonValues

  // ---- printing ----

  function Marks(n: nat): string {
    if n == 0 then "." else "x" + Marks(n - 1)
  }

  function PrintText(s: string): string {
    if s == "" then ";" else "," + Marks(s[0] as nat) + PrintText(s[1..])
  }

  ghost function Print(v: Json): string
    decreases v, 2, 0
  {
    match v
    case Null => "n"
    case Bool(b) => if b then "t" else "f"
    case Num(i) => if i >= 0 then "+" + Marks(i) else "-" + Marks(-i)
    case Str(s) => "s" + PrintText(s)
    case Arr(items) => "[" + PrintItems(v, |items|)
    case Obj(fields) => "{" + PrintFields(v, fields.Keys)
  }

  /** The last `n` elements of a list. */
  ghost function PrintItems(v: Json, n: nat): string
    requires v.Arr? && n <= |v.items|
    decreases v, 1, n
  {
    if n == 0 then "]" else "," + Print(v.items[|v.items| - n]) + PrintItems(v, n - 1)
  }

  ghost function PrintFields(v: Json, keys: set<string>): string
    requires v.Obj? && keys <= v.fields.Keys
    decreases v, 1, |keys|
  {
    if keys == {} then "}"
    else
      var k :| k in keys;
      "s" + PrintText(k) + Print(v.fields[k]) + PrintFields(v, keys - {k})
  }

  // ---- what is printed is never the beginning of something else that is printed ----

  lemma {:induction false} MarksEnd(m: nat, n: nat, x: string, y: string)
    requires Marks(m) + x == Marks(n) + y
    ensures m == n && x == y
  {
    var a, b := Marks(m) + x, Marks(n) + y;
    assert a[0] == Marks(m)[0] && b[0] == Marks(n)[0];
    if m == 0 {
      assert a[1..] == x && b[1..] == y;
    } else {
      assert a[1..] == Marks(m - 1) + x && b[1..] == Marks(n - 1) + y;
      MarksEnd(m - 1, n - 1, x, y);
    }
  }

  lemma {:induction false} TextEnds(s: string, t: string, x: string, y: string)
    requires PrintText(s) + x == PrintText(t) + y
    ensures s == t && x == y
  {
    var a, b := PrintText(s) + x, PrintText(t) + y;
    assert a[0] == PrintText(s)[0] && b[0] == PrintText(t)[0];
    if s == "" {
      assert a[1..] == x && b[1..] == y;
    } else {
      assert a[1..] == Marks(s[0] as nat) + (PrintText(s[1..]) + x);
      assert b[1..] == Marks(t[0] as nat) + (PrintText(t[1..]) + y);
      MarksEnd(s[0] as nat, t[0] as nat, PrintText(s[1..]) + x, PrintText(t[1..]) + y);
      TextEnds(s[1..], t[1..], x, y);
      assert s == [s[0]] + s[1..] && t == [t[0]] + t[1..];
    }
  }

  function Head(v: Json): char {
    match v
    case Null => 'n'
    case Bool(b) => if b then 't' else 'f'
    case Num(i) => if i >= 0 then '+' else '-'
    case Str(_) => 's'
    case Arr(_) => '['
    case Obj(_) => '{'
  }

  function Size(i: int): nat {
    if i >= 0 then i else -i
  }

  ghost function Tail(v: Json): string {
    match v
    case Null => ""
    case Bool(_) => ""
    case Num(i) => Marks(Size(i))
    case Str(s) => PrintText(s)
    case Arr(items) => PrintItems(v, |items|)
    case Obj(fields) => PrintFields(v, fields.Keys)
  }

  lemma PrintSplits(v: Json)
    ensures Print(v) == [Head(v)] + Tail(v)
  {
    hide PrintItems, PrintFields, PrintText, Marks;
    if v.Bool? || v.Null? { assert [Head(v)] + "" == [Head(v)]; }
  }

  lemma TailsMeet(v: Json, w: Json, x: string, y: string)
    requires Print(v) + x == Print(w) + y
    ensures Head(v) == Head(w) && Tail(v) + x == Tail(w) + y
  {
    hide Print, Tail, Head;
    PrintSplits(v);
    PrintSplits(w);
    var a, b := Print(v) + x, Print(w) + y;
    assert a == [Head(v)] + (Tail(v) + x) && b == [Head(w)] + (Tail(w) + y);
    assert a[0] == Head(v) && b[0] == Head(w);
    assert a[1..] == Tail(v) + x && b[1..] == Tail(w) + y;
  }

  lemma {:induction false} PrintEnds(v: Json, w: Json, x: string, y: string)
    requires Print(v) + x == Print(w) + y
    ensures v == w && x == y
    decreases v, 2, 0
  {
    TailsMeet(v, w, x, y);
    hide Print, PrintItems, PrintFields, PrintText, Marks;
    match v {
      case Null => assert "" + x == x && "" + y == y;
      case Bool(_) => assert "" + x == x && "" + y == y;
      case Num(i) => MarksEnd(Size(i), Size(w.num), x, y);
      case Str(s) => TextEnds(s, w.text, x, y);
      case Arr(items) =>
        ItemsEnd(v, w, |items|, |w.items|, x, y);
        assert items[0..] == items && w.items[0..] == w.items;
      case Obj(fields) => FieldsEnd(v, w, fields.Keys, w.fields.Keys, x, y);
    }
  }

  lemma OneItem(v: Json, n: nat, x: string)
    requires v.Arr? && 0 < n <= |v.items|
    ensures PrintItems(v, n) + x == "," + (Print(v.items[|v.items| - n]) + (PrintItems(v, n - 1) + x))
  {}

  lemma {:induction false} ItemsEnd(v: Json, w: Json, m: nat, n: nat, x: string, y: string)
    requires v.Arr? && w.Arr? && m <= |v.items| && n <= |w.items| && PrintItems(v, m) + x == PrintItems(w, n) + y
    ensures m == n && x == y && v.items[|v.items| - m..] == w.items[|w.items| - n..]
    decreases v, 1, m
  {
    hide Print;
    var a, b := PrintItems(v, m) + x, PrintItems(w, n) + y;
    if m > 0 { OneItem(v, m, x); } else { assert a == "]" + x; }
    if n > 0 { OneItem(w, n, y); } else { assert b == "]" + y; }
    assert (m > 0) == (a[0] == ',') && (n > 0) == (b[0] == ',');
    if m == 0 {
      assert a[1..] == x && b[1..] == y;
    } else {
      var c, d := v.items[|v.items| - m], w.items[|w.items| - n];
      var restV, restW := PrintItems(v, m - 1) + x, PrintItems(w, n - 1) + y;
      assert a[1..] == Print(c) + restV && b[1..] == Print(d) + restW;
      PrintEnds(c, d, restV, restW);
      ItemsEnd(v, w, m - 1, n - 1, x, y);
      assert v.items[|v.items| - m..] == [c] + v.items[|v.items| - m + 1..];
      assert w.items[|w.items| - n..] == [d] + w.items[|w.items| - n + 1..];
    }
  }

  lemma OneField(v: Json, keys: set<string>, x: string) returns (k: string)
    requires v.Obj? && keys <= v.fields.Keys && keys != {}
    ensures k in keys
    ensures PrintFields(v, keys) + x == "s" + (PrintText(k) + (Print(v.fields[k]) + (PrintFields(v, keys - {k}) + x)))
  {
    hide Print, PrintText;
    k :| k in keys && PrintFields(v, keys) == "s" + PrintText(k) + Print(v.fields[k]) + PrintFields(v, keys - {k});
  }

  lemma {:induction false} FieldsEnd(v: Json, w: Json, j: set<string>, k: set<string>, x: string, y: string)
    requires v.Obj? && w.Obj? && j <= v.fields.Keys && k <= w.fields.Keys
             && PrintFields(v, j) + x == PrintFields(w, k) + y
    ensures j == k && x == y && forall n | n in j :: v.fields[n] == w.fields[n]
    decreases v, 1, |j|
  {
    hide Print, PrintText;
    var a, b := PrintFields(v, j) + x, PrintFields(w, k) + y;
    if j == {} {
      assert a == "}" + x;
      if k != {} { var _ := OneField(w, k, y); }
      assert a[0] == '}' && b[0] == '}';
      assert b == "}" + y;
      assert a[1..] == x && b[1..] == y;
    } else {
      var m := OneField(v, j, x);
      assert a[0] == 's';
      assert k != {};
      var n := OneField(w, k, y);
      var restV, restW := PrintFields(v, j - {m}) + x, PrintFields(w, k - {n}) + y;
      assert a[1..] == PrintText(m) + (Print(v.fields[m]) + restV)
        && b[1..] == PrintText(n) + (Print(w.fields[n]) + restW);
      TextEnds(m, n, Print(v.fields[m]) + restV, Print(w.fields[n]) + restW);
      PrintEnds(v.fields[m], w.fields[n], restV, restW);
      FieldsEnd(v, w, j - {m}, k - {n}, x, y);
      assert j == (j - {m}) + {m} && k == (k - {n}) + {n};
    }
  }

  lemma FieldsStart(v: Json, keys: set<string>)
    requires v.Obj? && keys <= v.fields.Keys && keys != {}
    ensures PrintFields(v, keys)[0] == 's'
    ensures exists k | k in keys ::
            PrintFields(v, keys) == "s" + PrintText(k) + Print(v.fields[k]) + PrintFields(v, keys - {k})
  {}

  // ---- one line in braces ----

  lemma {:induction false} MarksFlat(n: nat)
    ensures Without(Marks(n), '\n')
  {
    if n > 0 { MarksFlat(n - 1); }
  }

  lemma {:induction false} TextFlat(s: string)
    ensures Without(PrintText(s), '\n')
  {
    if s != "" {
      MarksFlat(s[0] as nat);
      TextFlat(s[1..]);
    }
  }

  lemma {:induction false} PrintFlat(v: Json)
    ensures Without(Print(v), '\n')
    decreases v, 2, 0
  {
    match v
    case Null =>
    case Bool(_) =>
    case Num(i) => MarksFlat(if i >= 0 then i else -i);
    case Str(s) => TextFlat(s);
    case Arr(items) => ItemsFlat(v, |items|);
    case Obj(fields) => FieldsFlat(v, fields.Keys);
  }

  lemma {:induction false} ItemsFlat(v: Json, n: nat)
    requires v.Arr? && n <= |v.items|
    ensures Without(PrintItems(v, n), '\n')
    decreases v, 1, n
  {
    if n > 0 {
      PrintFlat(v.items[|v.items| - n]);
      ItemsFlat(v, n - 1);
    }
  }

  lemma {:induction false} FieldsFlat(v: Json, keys: set<string>)
    requires v.Obj? && keys <= v.fields.Keys
    ensures Without(PrintFields(v, keys), '\n') && PrintFields(v, keys) != ""
    ensures PrintFields(v, keys)[|PrintFields(v, keys)| - 1] == '}'
    decreases v, 1, |keys|
  {
    if keys != {} {
      FieldsStart(v, keys);
      var k :| k in keys
        && PrintFields(v, keys) == "s" + PrintText(k) + Print(v.fields[k]) + PrintFields(v, keys - {k});
      TextFlat(k);
      PrintFlat(v.fields[k]);
      FieldsFlat(v, keys - {k});
    }
  }

  // ---- the codec ----

  /** The value of which this is the print, with or without a newline behind. */
  ghost function ReadBack(s: string): Option<Json> {
    if exists v :: Print(v) == s then (var v :| Print(v) == s; Some(v))
    else if exists v :: Print(v) + "\n" == s then (var v :| Print(v) + "\n" == s; Some(v))
    else None
  }

  lemma ReadsBack(v: Json)
    requires v.Obj?
    ensures IsBraced(Print(v)) && ReadBack(Print(v)) == Some(v) && ReadBack(Print(v) + "\n") == Some(v)
  {
    PrintFlat(v);
    FieldsFlat(v, v.fields.Keys);
    assert Print(v) == "{" + PrintFields(v, v.fields.Keys);
    forall w | Print(w) == Print(v) ensures w == v {
      PrintEnds(w, v, "", "") by { assert Print(w) + "" == Print(v) + ""; }
    }
    forall w | Print(w) + "\n" == Print(v) + "\n" ensures w == v { PrintEnds(w, v, "\n", "\n"); }
    forall w ensures Print(w) != Print(v) + "\n" {
      PrintFlat(w);
      assert (Print(v) + "\n")[|Print(v)|] == '\n';
    }
  }

  lemma NothingReadsBack()
    ensures ReadBack("") == None
  {
    forall v ensures Print(v) != "" && Print(v) + "\n" != "" { PrintFlat(v); }
  }

  /** There is a codec. */
  lemma CodecExists() returns (c: Codec)
    ensures c.Valid()
  {
    c := Codec(v => Print(v), v => Print(v), s => ReadBack(s), s => s, v => Print(v));
    NothingReadsBack();
    forall v: Json | v.Obj?
      ensures IsBraced(c.compact(v)) && c.parse(c.compact(v)) == Some(v) && c.parse(c.indented(v) + "\n") == Some(v) {
      ReadsBack(v);
    }
  }
}
