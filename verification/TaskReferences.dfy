/**
 Before a merge, tasks whose numbers clash with the target's get new numbers, and every text that refers to them is
 rewritten.  A text is taken as its words, the longest runs of letters, digits and underscores, and the characters
 between them; a number counts only when it is written without leading zeros.
 */
module TaskReferences {
  import Decimal

  datatype Token =
    | TaskRef(n: nat)            // the word T7
    | GateRef(n: nat)            // the word G7
    | Number(n: nat)             // the word 7
    | TaskWord(letters: string)  // "task", in any case
    | Word(letters: string)      // any other word
    | Mark(c: char)              // a character between words

  type Words = seq<Token>

  // ---- a text as words ----

  predicate IsWordChar(c: char) {
    'a' <= c <= 'z' || 'A' <= c <= 'Z' || Decimal.IsDigit(c) || c == '_'
  }

  predicate IsNumeral(s: string) {
    Decimal.AllDigits(s) && s == Decimal.Digits(Decimal.Value(s))
  }

  predicate IsTask(s: string) {
    && |s| == 4 && (s[0] == 't' || s[0] == 'T') && (s[1] == 'a' || s[1] == 'A')
    && (s[2] == 's' || s[2] == 'S') && (s[3] == 'k' || s[3] == 'K')
  }

  function Classify(word: string): Token {
    if IsNumeral(word) then Number(Decimal.Value(word))
    else if word != "" && word[0] == 'T' && IsNumeral(word[1..]) then TaskRef(Decimal.Value(word[1..]))
    else if word != "" && word[0] == 'G' && IsNumeral(word[1..]) then GateRef(Decimal.Value(word[1..]))
    else if IsTask(word) then TaskWord(word)
    else Word(word)
  }

  function Spell(t: Token): string {
    match t
    case TaskRef(n) => "T" + Decimal.Digits(n)
    case GateRef(n) => "G" + Decimal.Digits(n)
    case Number(n) => Decimal.Digits(n)
    case TaskWord(letters) => letters
    case Word(letters) => letters
    case Mark(c) => [c]
  }

  function Text(ts: Words): string {
    if ts == [] then "" else Spell(ts[0]) + Text(ts[1..])
  }

  function WordEnd(s: string, i: nat): (e: nat)
    requires i <= |s|
    ensures i <= e <= |s| && (forall j | i <= j < e :: IsWordChar(s[j])) && (e < |s| ==> !IsWordChar(s[e]))
    decreases |s| - i
  {
    if i < |s| && IsWordChar(s[i]) then WordEnd(s, i + 1) else i
  }

  function WordsOf(s: string): Words
    decreases |s|
  {
    if s == "" then []
    else if !IsWordChar(s[0]) then [Mark(s[0])] + WordsOf(s[1..])
    else
      var e := WordEnd(s, 1);
      [Classify(s[..e])] + WordsOf(s[e..])
  }

  // ---- the new numbers ----

  /** The clashing numbers, in ascending order, get the numbers after the target's last. */
  method AssignNumbers(clashes: seq<nat>, target: set<nat>, last: nat) returns (map_: map<nat, nat>)
    requires forall i, j | 0 <= i < j < |clashes| :: clashes[i] < clashes[j]
    requires forall n | n in clashes :: n in target
    requires forall n | n in target :: n <= last
    ensures map_.Keys == set n | n in clashes
    ensures forall i | 0 <= i < |clashes| :: clashes[i] in map_ && map_[clashes[i]] == last + 1 + i
    ensures Fresh(map_) && forall n | n in map_ :: map_[n] !in target
    ensures forall m, n | m in map_ && n in map_ && m < n :: map_[m] < map_[n]
  {
    map_ := map[];
    var next := last + 1;
    for i := 0 to |clashes|
      invariant next == last + 1 + i
      invariant map_.Keys == set n | n in clashes[..i]
      invariant forall j | 0 <= j < i :: clashes[j] in map_ && map_[clashes[j]] == last + 1 + j
      invariant forall n | n in map_ :: n <= last < map_[n] < next
      invariant forall m, n | m in map_ && n in map_ && m < n :: map_[m] < map_[n]
    {
      assert clashes[..i + 1] == clashes[..i] + [clashes[i]];
      assert clashes[i] in clashes && clashes[i] in target;
      forall m | m in map_ ensures m < clashes[i] {
        var j :| 0 <= j < i && clashes[j] == m;
      }
      map_ := map_[clashes[i] := next];
      next := next + 1;
    }
    assert clashes[..|clashes|] == clashes;
  }

  /** No new number is an old one. */
  predicate Fresh(renames: map<nat, nat>) {
    forall n | n in renames :: renames[n] !in renames
  }

  // ---- one number at a time ----

  predicate IsMark(ts: Words, i: int, c: char) {
    0 <= i < |ts| && ts[i] == Mark(c)
  }

  predicate IsTaskWord(ts: Words, i: int) {
    0 <= i < |ts| && ts[i].TaskWord?
  }

  predicate IsNumber(ts: Words, i: int, n: nat) {
    0 <= i < |ts| && ts[i] == Number(n)
  }

  predicate StartsLower(ts: Words, i: int) {
    && 0 <= i < |ts| && (ts[i].TaskWord? || ts[i].Word?)
    && ts[i].letters != "" && 'a' <= ts[i].letters[0] <= 'z'
  }

  predicate AllDigits(ts: Words, i: int) {
    0 <= i < |ts| && (ts[i].Number? || (ts[i].Word? && ts[i].letters != "" && Decimal.AllDigits(ts[i].letters)))
  }

  /** T7. */
  function TaskRule(ts: Words, n: nat, m: nat): (r: Words)
    ensures |r| == |ts|
  {
    seq(|ts|, i requires 0 <= i < |ts| => if ts[i] == TaskRef(n) then TaskRef(m) else ts[i])
  }

  /** "task 7", in any case; what is written is lower case. */
  function WordRule(ts: Words, n: nat, m: nat): (r: Words)
    ensures |r| == |ts|
  {
    seq(|ts|, i requires 0 <= i < |ts| =>
      if ts[i].TaskWord? && IsMark(ts, i + 1, ' ') && IsNumber(ts, i + 2, n) then TaskWord("task")
      else if ts[i] == Number(n) && IsMark(ts, i - 1, ' ') && IsTaskWord(ts, i - 2) then Number(m)
      else ts[i])
  }

  /** "7-slug". */
  function SlugRule(ts: Words, n: nat, m: nat): (r: Words)
    ensures |r| == |ts|
  {
    seq(|ts|, i requires 0 <= i < |ts| =>
      if ts[i] == Number(n) && IsMark(ts, i + 1, '-') && StartsLower(ts, i + 2) then Number(m) else ts[i])
  }

  /** "G7:1". */
  function GateRule(ts: Words, n: nat, m: nat): (r: Words)
    ensures |r| == |ts|
  {
    seq(|ts|, i requires 0 <= i < |ts| =>
      if ts[i] == GateRef(n) && IsMark(ts, i + 1, ':') && AllDigits(ts, i + 2) then GateRef(m) else ts[i])
  }

  function RewriteOne(ts: Words, n: nat, m: nat): (r: Words)
    ensures |r| == |ts|
  {
    GateRule(SlugRule(WordRule(TaskRule(ts, n, m), n, m), n, m), n, m)
  }

  predicate Descending(order: seq<nat>) {
    forall i, j | 0 <= i < j < |order| :: order[i] > order[j]
  }

  /** All numbers one after the other, from the highest. */
  function RewriteAll(ts: Words, order: seq<nat>, renames: map<nat, nat>): (r: Words)
    requires forall n | n in order :: n in renames
    ensures |r| == |ts|
  {
    if order == [] then ts
    else
      var last := order[|order| - 1];
      RewriteOne(RewriteAll(ts, order[..|order| - 1], renames), last, renames[last])
  }

  /** The program: the text is reassigned number by number. */
  method RewriteTaskReferences(ts: Words, order: seq<nat>, renames: map<nat, nat>) returns (r: Words)
    requires forall n | n in order :: n in renames
    ensures r == RewriteAll(ts, order, renames)
  {
    r := ts;
    for k := 0 to |order|
      invariant r == RewriteAll(ts, order[..k], renames)
    {
      assert order[..k + 1][..k] == order[..k];
      var n, m := order[k], renames[order[k]];
      r := TaskRule(r, n, m);
      r := WordRule(r, n, m);
      r := SlugRule(r, n, m);
      r := GateRule(r, n, m);
    }
    assert order[..|order|] == order;
  }

  // ---- all numbers at once ----

  predicate NamesTask(ts: Words, i: int) {
    IsMark(ts, i - 1, ' ') && IsTaskWord(ts, i - 2)
  }

  predicate NamesSlug(ts: Words, i: int) {
    IsMark(ts, i + 1, '-') && StartsLower(ts, i + 2)
  }

  /** What a token becomes when every reference in the original text is replaced at once. */
  function Substituted(ts: Words, i: nat, renames: map<nat, nat>): Token
    requires i < |ts|
  {
    match ts[i]
    case TaskRef(n) => if n in renames then TaskRef(renames[n]) else ts[i]
    case GateRef(n) =>
      if n in renames && IsMark(ts, i + 1, ':') && AllDigits(ts, i + 2) then GateRef(renames[n]) else ts[i]
    case Number(n) => if n in renames && (NamesTask(ts, i) || NamesSlug(ts, i)) then Number(renames[n]) else ts[i]
    case TaskWord(_) =>
      if IsMark(ts, i + 1, ' ') && i + 2 < |ts| && ts[i + 2].Number? && ts[i + 2].n in renames then TaskWord("task")
        else ts[i]
    case Word(_) => ts[i]
    case Mark(_) => ts[i]
  }

  function SubstituteAll(ts: Words, renames: map<nat, nat>): (r: Words)
    ensures |r| == |ts|
  {
    seq(|ts|, i requires 0 <= i < |ts| => Substituted(ts, i, renames))
  }

  /**
   A number in front of "-Task <number>": writing the task reference in lower case makes the word behind the dash look
   like a slug.  It matters for a number that is dealt with afterwards, that is, for the same or a smaller one.
   */
  predicate MadeSlug(ts: Words, i: nat, renames: map<nat, nat>)
    requires i < |ts|
  {
    && ts[i].Number? && ts[i].n in renames && !NamesTask(ts, i)
    && IsMark(ts, i + 1, '-') && i + 4 < |ts| && ts[i + 2].TaskWord? && !StartsLower(ts, i + 2)
    && IsMark(ts, i + 3, ' ') && ts[i + 4].Number? && ts[i + 4].n in renames && ts[i].n <= ts[i + 4].n
  }
}
