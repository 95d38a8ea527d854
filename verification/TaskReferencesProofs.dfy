/** Rewriting number by number is replacing all references at once, but for one kind of place. */
module TaskReferencesProofs {
  import Decimal
  import opened TaskReferences

  // ---- words and text ----

  lemma SpellsWord(word: string)
    ensures Spell(Classify(word)) == word
  {}

  /** Every text is the text of its words. */
  lemma {:induction false} TextOfWords(s: string)
    ensures Text(WordsOf(s)) == s
    decreases |s|
  {
    hide Classify;
    if s != "" {
      if !IsWordChar(s[0]) {
        TextOfWords(s[1..]);
      } else {
        var e := WordEnd(s, 1);
        SpellsWord(s[..e]);
        TextOfWords(s[e..]);
        assert s == s[..e] + s[e..];
      }
    }
  }

  predicate IsWord(s: string) {
    s != "" && forall i | 0 <= i < |s| :: IsWordChar(s[i])
  }

  predicate Proper(t: Token) {
    match t
    case TaskWord(letters) => IsTask(letters)
    case Word(letters) => IsWord(letters) && Classify(letters) == t
    case Mark(c) => !IsWordChar(c)
    case TaskRef(_) => true
    case GateRef(_) => true
    case Number(_) => true
  }

  /** A division into words as a text has it: no two words stand side by side. */
  ghost predicate Divided(ts: Words) {
    && (forall i | 0 <= i < |ts| :: Proper(ts[i]))
    && (forall i | 0 <= i < |ts| - 1 :: ts[i].Mark? || ts[i + 1].Mark?)
  }

  lemma SpelledWord(t: Token)
    requires Proper(t) && !t.Mark?
    ensures IsWord(Spell(t)) && Classify(Spell(t)) == t
  {
    match t {
      case Number(n) => Decimal.ValueOfDigits(n);
      case TaskRef(n) =>
        Decimal.ValueOfDigits(n);
        assert Spell(t)[1..] == Decimal.Digits(n);
      case GateRef(n) =>
        Decimal.ValueOfDigits(n);
        assert Spell(t)[1..] == Decimal.Digits(n);
      case TaskWord(letters) => assert !IsNumeral(letters[1..]) by { assert letters[1..][0] == letters[1]; }
      case Word(_) =>
    }
  }

  lemma {:induction false} WordEndIs(s: string, i: nat, e: nat)
    requires i <= e <= |s| && (forall j | i <= j < e :: IsWordChar(s[j])) && (e < |s| ==> !IsWordChar(s[e]))
    ensures WordEnd(s, i) == e
    decreases e - i
  {
    if i < e { WordEndIs(s, i + 1, e); }
  }

  /** A proper division is the one that the text has, so a rule that keeps it proper can work on words. */
  lemma {:induction false} WordsOfText(ts: Words)
    requires Divided(ts)
    ensures WordsOf(Text(ts)) == ts
  {
    if ts != [] {
      WordsOfText(ts[1..]);
      var rest := Text(ts[1..]);
      assert Proper(ts[0]);
      if ts[0].Mark? {
        assert Text(ts)[1..] == rest;
      } else {
        SpelledWord(ts[0]);
        var s, e := Text(ts), |Spell(ts[0])|;
        assert s[..e] == Spell(ts[0]) && s[e..] == rest;
        assert forall j | 0 <= j < e :: s[j] == s[..e][j];
        if |ts| > 1 {
          assert ts[1].Mark? && Proper(ts[1]);
          assert rest[0] == ts[1].c;
        }
        WordEndIs(s, 1, e);
      }
    }
  }

  lemma {:induction false} WordsAreDivided(s: string)
    ensures Divided(WordsOf(s))
    ensures s != "" ==> WordsOf(s) != [] && (WordsOf(s)[0].Mark? <==> !IsWordChar(s[0]))
    decreases |s|
  {
    if s != "" {
      if !IsWordChar(s[0]) {
        WordsAreDivided(s[1..]);
      } else {
        var e := WordEnd(s, 1);
        WordsAreDivided(s[e..]);
        SpellsWord(s[..e]);
        assert IsWord(s[..e]) by {
          assert forall j | 0 <= j < e :: s[..e][j] == s[j];
        }
        assert Proper(Classify(s[..e]));
      }
    }
  }

  lemma RewrittenIsDivided(ts: Words, n: nat, m: nat)
    requires Divided(ts)
    ensures Divided(TaskRule(ts, n, m)) && Divided(WordRule(ts, n, m)) && Divided(SlugRule(ts, n, m))
            && Divided(GateRule(ts, n, m))
  {
    assert IsTask("task");
  }

  // ---- part of the numbers ----

  predicate Done(n: nat, renames: map<nat, nat>, bound: nat) {
    n in renames && n >= bound
  }

  predicate Lowered(ts: Words, i: nat, renames: map<nat, nat>, bound: nat)
    requires i < |ts|
  {
    ts[i].TaskWord? && IsMark(ts, i + 1, ' ') && i + 2 < |ts| && ts[i + 2].Number? && Done(ts[i + 2].n, renames, bound)
  }

  /** What a token has become when all numbers from `bound` on are dealt with. */
  function Partial(ts: Words, i: nat, renames: map<nat, nat>, bound: nat): Token
    requires i < |ts|
  {
    match ts[i]
    case TaskRef(n) => if Done(n, renames, bound) then TaskRef(renames[n]) else ts[i]
    case GateRef(n) =>
      if Done(n, renames, bound) && IsMark(ts, i + 1, ':') && AllDigits(ts, i + 2) then GateRef(renames[n]) else ts[i]
    case Number(n) =>
      if Done(n, renames, bound) && (NamesTask(ts, i) || NamesSlug(ts, i) || MadeSlug(ts, i, renames))
        then Number(renames[n])
      else ts[i]
    case TaskWord(_) => if Lowered(ts, i, renames, bound) then TaskWord("task") else ts[i]
    case Word(_) => ts[i]
    case Mark(_) => ts[i]
  }

  ghost predicate IsPartial(ts: Words, u: Words, renames: map<nat, nat>, bound: nat) {
    |u| == |ts| && forall i | 0 <= i < |ts| :: u[i] == Partial(ts, i, renames, bound)
  }

  /** What rewriting never changes about a token. */
  predicate SameKind(a: Token, b: Token) {
    match a
    case TaskRef(_) => b.TaskRef?
    case GateRef(_) => b.GateRef?
    case Number(_) => b.Number?
    case TaskWord(_) => b.TaskWord?
    case Word(_) => b == a
    case Mark(_) => b == a
  }

  ghost predicate SameKinds(ts: Words, u: Words) {
    |u| == |ts| && forall i | 0 <= i < |ts| :: SameKind(ts[i], u[i])
  }

  lemma KindsAgree(ts: Words, u: Words, i: int, c: char)
    requires SameKinds(ts, u)
    ensures IsMark(u, i, c) == IsMark(ts, i, c) && IsTaskWord(u, i) == IsTaskWord(ts, i)
            && AllDigits(u, i) == AllDigits(ts, i)
  {
    if 0 <= i < |ts| { assert SameKind(ts[i], u[i]); }
  }

  /** The numbers in between `n` and `bound` are no old numbers. */
  predicate Next(renames: map<nat, nat>, n: nat, bound: nat) {
    n in renames && n < bound && forall k | k in renames :: k <= n || bound <= k
  }

  // ---- one number more ----

  /** A number is still itself before its turn, and no new number looks like it. */
  lemma StillThere(ts: Words, u: Words, renames: map<nat, nat>, n: nat, bound: nat, i: nat)
    requires IsPartial(ts, u, renames, bound) && Next(renames, n, bound) && Fresh(renames) && i < |ts|
    ensures u[i] == Number(n) <==> ts[i] == Number(n)
    ensures u[i] == TaskRef(n) <==> ts[i] == TaskRef(n)
    ensures u[i] == GateRef(n) <==> ts[i] == GateRef(n)
    ensures SameKind(ts[i], u[i])
  {
    assert u[i] == Partial(ts, i, renames, bound);
  }

  /** After the rules for T7 and "task 7". */
  function Halfway(ts: Words, i: nat, renames: map<nat, nat>, n: nat, bound: nat): Token
    requires i < |ts| && n in renames
  {
    match ts[i]
    case TaskRef(_) => Partial(ts, i, renames, n)
    case TaskWord(_) => Partial(ts, i, renames, n)
    case Number(k) => if k == n && NamesTask(ts, i) then Number(renames[n]) else Partial(ts, i, renames, bound)
    case GateRef(_) => Partial(ts, i, renames, bound)
    case Word(_) => ts[i]
    case Mark(_) => ts[i]
  }

  /** After the rule for T7 alone. */
  ghost predicate TasksDone(ts: Words, v: Words, renames: map<nat, nat>, n: nat, bound: nat)
    requires n in renames
  {
    && SameKinds(ts, v)
    && (forall j | 0 <= j < |ts| :: v[j] == Number(n) <==> ts[j] == Number(n))
    && (forall j | 0 <= j < |ts| :: v[j] == Partial(ts, j, renames, if ts[j].TaskRef? then n else bound))
  }

  lemma TasksAt(ts: Words, u: Words, renames: map<nat, nat>, n: nat, bound: nat)
    requires IsPartial(ts, u, renames, bound) && Next(renames, n, bound) && Fresh(renames)
    ensures TasksDone(ts, TaskRule(u, n, renames[n]), renames, n, bound)
  {
    var v := TaskRule(u, n, renames[n]);
    forall j | 0 <= j < |ts|
      ensures SameKind(ts[j], v[j]) && (v[j] == Number(n) <==> ts[j] == Number(n))
      ensures v[j] == Partial(ts, j, renames, if ts[j].TaskRef? then n else bound)
    {
      StillThere(ts, u, renames, n, bound, j);
      assert u[j] == Partial(ts, j, renames, bound);
    }
  }

  lemma WordsAt(ts: Words, v: Words, renames: map<nat, nat>, n: nat, bound: nat, i: nat)
    requires Next(renames, n, bound) && TasksDone(ts, v, renames, n, bound) && i < |ts|
    ensures WordRule(v, n, renames[n])[i] == Halfway(ts, i, renames, n, bound)
  {
    KindsAgree(ts, v, i + 1, ' ');
    KindsAgree(ts, v, i - 1, ' ');
    KindsAgree(ts, v, i - 2, ' ');
    assert i + 2 < |ts| ==> (v[i + 2] == Number(n) <==> ts[i + 2] == Number(n));
    assert v[i] == Number(n) <==> ts[i] == Number(n);
    assert v[i] == Partial(ts, i, renames, if ts[i].TaskRef? then n else bound);
    assert SameKind(ts[i], v[i]);
  }

  lemma SlugsAt(ts: Words, w: Words, renames: map<nat, nat>, n: nat, bound: nat, i: nat)
    requires Next(renames, n, bound) && Fresh(renames) && i < |ts| && |w| == |ts|
    requires forall j | 0 <= j < |ts| :: w[j] == Halfway(ts, j, renames, n, bound)
    ensures var m := renames[n]; GateRule(SlugRule(w, n, m), n, m)[i] == Partial(ts, i, renames, n)
  {
    var m := renames[n];
    assert SameKinds(ts, w);
    var x := SlugRule(w, n, m);
    assert SameKinds(ts, x);
    KindsAgree(ts, w, i + 1, '-');
    KindsAgree(ts, x, i + 1, ':');
    KindsAgree(ts, x, i + 2, ':');
    assert w[i] == Halfway(ts, i, renames, n, bound);
    if i + 2 < |ts| {
      assert w[i + 2] == Halfway(ts, i + 2, renames, n, bound);
    }
  }

  lemma OneMore(ts: Words, u: Words, renames: map<nat, nat>, n: nat, bound: nat)
    requires IsPartial(ts, u, renames, bound) && Next(renames, n, bound) && Fresh(renames)
    ensures IsPartial(ts, RewriteOne(u, n, renames[n]), renames, n)
  {
    var v := TaskRule(u, n, renames[n]);
    var w := WordRule(v, n, renames[n]);
    TasksAt(ts, u, renames, n, bound);
    forall j | 0 <= j < |ts| ensures w[j] == Halfway(ts, j, renames, n, bound) { WordsAt(ts, v, renames, n, bound, j); }
    forall i | 0 <= i < |ts| ensures RewriteOne(u, n, renames[n])[i] == Partial(ts, i, renames, n) {
      SlugsAt(ts, w, renames, n, bound, i);
    }
  }

  // ---- all numbers ----

  /** An order that goes through all old numbers, from the highest to the lowest. */
  ghost predicate IsOrder(order: seq<nat>, renames: map<nat, nat>) {
    Descending(order) && forall n :: n in order <==> n in renames
  }

  lemma NothingDone(ts: Words, renames: map<nat, nat>, bound: nat)
    requires forall n | n in renames :: n < bound
    ensures IsPartial(ts, ts, renames, bound)
  {}

  lemma NextInOrder(order: seq<nat>, renames: map<nat, nat>, k: nat)
    requires IsOrder(order, renames) && 0 < k <= |order|
    ensures Next(renames, order[k - 1], if k == 1 then order[0] + 1 else order[k - 2])
  {
    var n, bound := order[k - 1], if k == 1 then order[0] + 1 else order[k - 2];
    assert n in order;
    forall m | m in renames ensures m <= n || bound <= m {
      var j :| 0 <= j < |order| && order[j] == m;
    }
  }

  /** After `k` numbers of the order, exactly the references to these are rewritten. */
  lemma {:induction false} RewritesPart(ts: Words, order: seq<nat>, renames: map<nat, nat>, k: nat)
    requires IsOrder(order, renames) && Fresh(renames) && 0 < k <= |order|
    ensures IsPartial(ts, RewriteAll(ts, order[..k], renames), renames, order[k - 1])
  {
    hide IsPartial, RewriteOne, Fresh;
    var n := order[k - 1];
    assert order[..k][..k - 1] == order[..k - 1] && order[..k][k - 1] == n;
    assert RewriteAll(ts, order[..k], renames) == RewriteOne(RewriteAll(ts, order[..k - 1], renames), n, renames[n]);
    NextInOrder(order, renames, k);
    if k == 1 {
      assert order[..0] == [] && RewriteAll(ts, order[..0], renames) == ts;
      NothingDone(ts, renames, n + 1);
      OneMore(ts, ts, renames, n, n + 1);
    } else {
      RewritesPart(ts, order, renames, k - 1);
      OneMore(ts, RewriteAll(ts, order[..k - 1], renames), renames, n, order[k - 2]);
    }
  }

  lemma LowerBound(ts: Words, u: Words, renames: map<nat, nat>, least: nat)
    requires IsPartial(ts, u, renames, least) && forall n | n in renames :: least <= n
    ensures IsPartial(ts, u, renames, 0)
  {
    forall i | 0 <= i < |ts| ensures u[i] == Partial(ts, i, renames, 0) {
      assert u[i] == Partial(ts, i, renames, least);
    }
  }

  /** What the rewriting does to each token, said for the original text. */
  lemma RewritesEach(ts: Words, order: seq<nat>, renames: map<nat, nat>)
    requires IsOrder(order, renames) && Fresh(renames)
    ensures IsPartial(ts, RewriteAll(ts, order, renames), renames, 0)
  {
    hide IsPartial, RewriteOne;
    if order == [] {
      assert RewriteAll(ts, order, renames) == ts;
      NothingDone(ts, renames, 0);
    } else {
      RewritesPart(ts, order, renames, |order|);
      assert order[..|order|] == order;
      var least := order[|order| - 1];
      forall n | n in renames ensures least <= n {
        assert n in order;
      }
      LowerBound(ts, RewriteAll(ts, order, renames), renames, least);
    }
  }

  /**
   Rewriting number by number gives the same text as replacing all references at once exactly when no number stands in
   front of a dash and a capitalised "Task" with the same or a larger number.
   */
  lemma RewritingIsSubstitution(ts: Words, order: seq<nat>, renames: map<nat, nat>)
    requires IsOrder(order, renames) && Fresh(renames)
    ensures RewriteAll(ts, order, renames) == SubstituteAll(ts, renames)
       <==> forall i | 0 <= i < |ts| :: !MadeSlug(ts, i, renames)
  {
    RewritesEach(ts, order, renames);
    forall i | 0 <= i < |ts|
      ensures Partial(ts, i, renames, 0) == Substituted(ts, i, renames) <==> !MadeSlug(ts, i, renames)
    {
      if ts[i].Number? && ts[i].n in renames { assert renames[ts[i].n] != ts[i].n; }
    }
  }

  // ---- the same for texts ----

  /** One number rewritten in a text, and all of them, one after the other. */
  function RewriteOneInText(s: string, n: nat, m: nat): string {
    Text(RewriteOne(WordsOf(s), n, m))
  }

  function RewriteText(s: string, order: seq<nat>, renames: map<nat, nat>): string
    requires forall n | n in order :: n in renames
  {
    if order == [] then s
    else
      var last := order[|order| - 1];
      RewriteOneInText(RewriteText(s, order[..|order| - 1], renames), last, renames[last])
  }

  /** All references in a text replaced at once. */
  function SubstituteText(s: string, renames: map<nat, nat>): string {
    Text(SubstituteAll(WordsOf(s), renames))
  }

  lemma OneRewrittenIsDivided(ts: Words, n: nat, m: nat)
    requires Divided(ts)
    ensures Divided(RewriteOne(ts, n, m))
  {
    RewrittenIsDivided(ts, n, m);
    RewrittenIsDivided(TaskRule(ts, n, m), n, m);
    RewrittenIsDivided(WordRule(TaskRule(ts, n, m), n, m), n, m);
    RewrittenIsDivided(SlugRule(WordRule(TaskRule(ts, n, m), n, m), n, m), n, m);
  }

  /** Dividing the text anew before each number makes no difference. */
  lemma {:induction false} RewritesText(s: string, order: seq<nat>, renames: map<nat, nat>)
    requires forall n | n in order :: n in renames
    ensures Divided(RewriteAll(WordsOf(s), order, renames))
    ensures RewriteText(s, order, renames) == Text(RewriteAll(WordsOf(s), order, renames))
  {
    hide RewriteOne, Divided;
    if order == [] {
      WordsAreDivided(s);
      TextOfWords(s);
    } else {
      var rest, last := order[..|order| - 1], order[|order| - 1];
      RewritesText(s, rest, renames);
      var before := RewriteAll(WordsOf(s), rest, renames);
      WordsOfText(before);
      OneRewrittenIsDivided(before, last, renames[last]);
    }
  }

  lemma SubstitutedIsDivided(ts: Words, renames: map<nat, nat>)
    requires Divided(ts)
    ensures Divided(SubstituteAll(ts, renames))
  {
    assert IsTask("task");
  }

  /**
   For texts: rewriting the references of a text number by number gives what replacing them all at once gives exactly
   when no number in it stands in front of a dash and a capitalised "Task" with the same or a larger number.
   */
  lemma RewritingTextIsSubstitution(s: string, order: seq<nat>, renames: map<nat, nat>)
    requires IsOrder(order, renames) && Fresh(renames)
    ensures RewriteText(s, order, renames) == SubstituteText(s, renames)
       <==> var ts := WordsOf(s); forall i | 0 <= i < |ts| :: !MadeSlug(ts, i, renames)
  {
    hide RewriteAll, Divided, MadeSlug;
    var ts := WordsOf(s);
    RewritingIsSubstitution(ts, order, renames);
    RewritesText(s, order, renames);
    WordsAreDivided(s);
    SubstitutedIsDivided(ts, renames);
    WordsOfText(RewriteAll(ts, order, renames));
    WordsOfText(SubstituteAll(ts, renames));
  }

  const FIVE_DASH_TASK_SEVEN := [Number(5), Mark('-'), TaskWord("Task"), Mark(' '), Number(7)]

  /** "5-Task 7": at once, only the 7 is a reference; number by number, the 5 becomes one. */
  lemma CapitalTask()
    ensures var renames := map[5 := 11, 7 := 12];
            && IsOrder([7, 5], renames) && Fresh(renames)
            && RewriteAll(FIVE_DASH_TASK_SEVEN, [7, 5], renames) != SubstituteAll(FIVE_DASH_TASK_SEVEN, renames)
  {
    var renames := map[5 := 11, 7 := 12];
    var ts := FIVE_DASH_TASK_SEVEN;
    assert ts[2] == TaskWord("Task") && "Task"[0] == 'T';
    assert MadeSlug(ts, 0, renames);
    RewritingIsSubstitution(ts, [7, 5], renames);
  }

  /** The word is "task", in any mixture of small and capital letters. */
  lemma IsTaskIff(s: string)
    ensures IsTask(s) <==> |s| == 4 && forall i | 0 <= i < 4 :: s[i] == "task"[i] || s[i] == "TASK"[i]
  {
    if |s| == 4 {
      assert (forall i | 0 <= i < 4 :: s[i] == "task"[i] || s[i] == "TASK"[i])
        <==> forall i | i in {0, 1, 2, 3} :: s[i] == "task"[i] || s[i] == "TASK"[i];
    }
  }
}
