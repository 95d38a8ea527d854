/**
 Before a merge, the messages that are new since the merge base get numbers behind the last one of the target, so that
 the two logs do not use a number twice.
 */
module MessageNumbers {
  import opened Wrappers
  import opened Text
  import opened Decimal
  import opened ChatLog

  // ---- a text as message markers and other characters ----

  datatype Token = Plain(c: char) | Mid(digits: string)

  function Tokens(s: string): seq<Token>
    decreases |s|
  {
    if s == "" then []
    else match MidAt(s, 0)
      case None => [Plain(s[0])] + Tokens(s[1..])
      case Some((n, end)) => [Mid(s[4..end - 3])] + Tokens(s[end..])
  }

  function Spell(t: Token): string {
    match t
    case Plain(c) => [c]
    case Mid(digits) => "**[M" + digits + "]**"
  }

  function Join(ts: seq<Token>): string {
    if ts == [] then "" else Spell(ts[0]) + Join(ts[1..])
  }

  function NumberOf(t: Token): nat {
    if t.Mid? && AllDigits(t.digits) then Value(t.digits) else 0
  }

  /** The numbers of all message markers, in order. */
  function Numbers(ts: seq<Token>): seq<nat> {
    if ts == [] then [] else (if ts[0].Mid? then [NumberOf(ts[0])] else []) + Numbers(ts[1..])
  }

  // ---- moving the numbers ----

  function Moved(n: nat, base: nat, offset: nat): nat {
    if n > base then n + offset else n
  }

  /** The moved number keeps the width it was written with, unless it needs more. */
  function MoveToken(t: Token, base: nat, offset: nat): Token {
    if t.Mid? && NumberOf(t) > base then
      var n := NumberOf(t) + offset;
      Mid(Padded(n, Max(|t.digits|, |Digits(n)|)))
    else t
  }

  function MoveAll(ts: seq<Token>, base: nat, offset: nat): seq<Token> {
    if ts == [] then [] else [MoveToken(ts[0], base, offset)] + MoveAll(ts[1..], base, offset)
  }

  function Above(ns: seq<nat>, base: nat): seq<nat> {
    if ns == [] then [] else (if ns[0] > base then [ns[0]] else []) + Above(ns[1..], base)
  }

  function Smallest(ns: seq<nat>): nat
    requires ns != []
  {
    if |ns| == 1 then ns[0]
    else
      var m := Smallest(ns[1..]);
      if ns[0] < m then ns[0] else m
  }

  lemma {:induction false} SmallestBounds(ns: seq<nat>)
    requires ns != []
    ensures Smallest(ns) in ns && forall n | n in ns :: Smallest(ns) <= n
  {
    if |ns| > 1 {
      SmallestBounds(ns[1..]);
      assert forall n | n in ns :: n == ns[0] || n in ns[1..];
    }
  }

  function Shifted(text: string, base: nat, offset: nat): string {
    Join(MoveAll(Tokens(text), base, offset))
  }

  datatype Prepared = Clean | NotAdvanced | Resequenced(text: string, highest: nat)

  /** What is to be done with the log, given the last numbers of the merge base and of the target. */
  function Prepare(text: string, base: nat, target: nat): Prepared {
    var tokens := Tokens(text);
    var added := Above(Numbers(tokens), base);
    if added == [] then Clean
    else if Smallest(added) > target then Clean
    else if target - base <= 0 then NotAdvanced
    else Resequenced(Shifted(text, base, target - base), Largest(added) + (target - base))
  }

  /** The last message number of a text, as it is taken from the merge base and from the target. */
  function LastMid(text: string): nat {
    Largest(Mids(text, 0))
  }

  lemma {:induction false} DigitsShift(s: string, i: nat, j: nat)
    requires i <= j <= |s|
    ensures DigitsEnd(s[i..], j - i) == DigitsEnd(s, j) - i
    decreases |s| - j
  {
    if j < |s| && IsDigit(s[j]) { DigitsShift(s, i, j + 1); }
  }

  lemma MidShift(s: string, i: nat)
    requires i <= |s|
    ensures match MidAt(s, i) { case None => MidAt(s[i..], 0).None?
            case Some((n, end)) => i <= end && MidAt(s[i..], 0) == Some((n, end - i)) }
  {
    var t := s[i..];
    assert i + 4 <= |s| ==> t[0..4] == s[i..i + 4];
    if At(s, "**[M", i) {
      DigitsShift(s, i, i + 4);
      var e := DigitsEnd(s, i + 4);
      assert t[4..e - i] == s[i + 4..e];
      assert e + 3 <= |s| ==> t[e - i..e - i + 3] == s[e..e + 3];
    }
  }

  /** The numbers of the tokens are those that the log's own scan finds. */
  lemma {:induction false} MidsAreNumbers(s: string, i: nat)
    requires i <= |s|
    ensures Mids(s, i) == Numbers(Tokens(s[i..]))
    decreases |s| - i
  {
    if i < |s| {
      MidShift(s, i);
      match MidAt(s, i) {
        case None =>
          assert s[i..][1..] == s[i + 1..];
          MidsAreNumbers(s, i + 1);
        case Some((n, end)) =>
          FrontMid(s[i..]);
          assert s[i..][end - i..] == s[end..];
          MidsAreNumbers(s, end);
      }
    }
  }

  // ---- reading back what was spelled ----

  lemma PartsOfTag(digits: string, rest: string)
    ensures var s := "**[M" + digits + "]**" + rest; s[4..4 + |digits|] == digits && s[4 + |digits| + 3..] == rest
  {}

  lemma NoBracketInside(s: string, j: nat)
    requires MidAt(s, 0).Some? && 3 <= j < MidAt(s, 0).value.1
    ensures j < |s| && s[j] != '['
  {
    var e := DigitsEnd(s, 4);
    assert s[0..4] == "**[M" && s[e..e + 3] == "]**";
    if j == 3 {
      assert s[3] == s[0..4][3];
    } else if j < e {
      assert IsDigit(s[4..e][j - 4]);
    } else {
      assert s[j] == s[e..e + 3][j - e];
    }
  }

  /** A marker at the front has its one opening bracket at the third place, so it ends before the next bracket. */
  lemma EndsBeforeBracket(s: string, m: nat)
    requires 3 <= m < |s| && s[m] == '[' && MidAt(s, 0).Some?
    ensures MidAt(s, 0).value.1 <= m
  {
    if m < MidAt(s, 0).value.1 { NoBracketInside(s, m); }
  }

  lemma SameFront(s: string, s': string, m: nat)
    requires 3 <= m < |s| && m < |s'| && s[..m] == s'[..m] && s[m] == '[' && s'[m] == '[' && MidAt(s, 0).Some?
    ensures MidAt(s', 0).Some?
  {
    EndsBeforeBracket(s, m);
    var e := DigitsEnd(s, 4);
    assert forall j | 0 <= j < m :: s'[j] == s'[..m][j] && s[j] == s[..m][j];
    forall j | 4 <= j < e ensures IsDigit(s[j]) { assert s[4..e][j - 4] == s[j]; }
    DigitsEndIs(s', 4, e);
    assert s'[0..4] == s[0..4] && s'[e..e + 3] == s[e..e + 3];
  }

  predicate WrittenNumber(t: Token) {
    t.Mid? ==> t.digits != "" && AllDigits(t.digits)
  }

  /** Tokens that are read back as they are: no marker begins at a plain character. */
  ghost predicate Stable(ts: seq<Token>) {
    ts == [] || (WrittenNumber(ts[0]) && (ts[0].Plain? ==> MidAt(Join(ts), 0).None?) && Stable(ts[1..]))
  }

  lemma {:induction false} TokensOfStable(ts: seq<Token>)
    requires Stable(ts)
    ensures Tokens(Join(ts)) == ts
  {
    if ts != [] {
      TokensOfStable(ts[1..]);
      if ts[0].Mid? {
        MidOfTag(ts[0].digits, Join(ts[1..]));
        PartsOfTag(ts[0].digits, Join(ts[1..]));
      } else {
        assert Join(ts)[1..] == Join(ts[1..]);
      }
    }
  }

  lemma FrontMid(s: string)
    requires MidAt(s, 0).Some?
    ensures var end := MidAt(s, 0).value.1;
            7 < end <= |s| && WrittenNumber(Mid(s[4..end - 3])) && Value(s[4..end - 3]) == MidAt(s, 0).value.0
            && s == Spell(Mid(s[4..end - 3])) + s[end..]
  {
    var e := DigitsEnd(s, 4);
    assert s == s[0..4] + s[4..e] + s[e..e + 3] + s[e + 3..];
  }

  lemma {:induction false} JoinOfTokens(s: string)
    ensures Join(Tokens(s)) == s
    decreases |s|
  {
    if s != "" {
      match MidAt(s, 0) {
        case None => JoinOfTokens(s[1..]);
        case Some((n, end)) =>
          FrontMid(s);
          JoinOfTokens(s[end..]);
      }
    }
  }

  lemma {:induction false} TokensAreStable(s: string)
    ensures Stable(Tokens(s))
    decreases |s|
  {
    JoinOfTokens(s);
    if s != "" {
      match MidAt(s, 0) {
        case None => TokensAreStable(s[1..]);
        case Some((n, end)) =>
          FrontMid(s);
          TokensAreStable(s[end..]);
      }
    }
  }

  // ---- moving keeps the division into tokens ----

  function FirstMid(ts: seq<Token>): (k: nat)
    ensures k <= |ts| && (forall i | 0 <= i < k :: ts[i].Plain?) && (k < |ts| ==> ts[k].Mid?)
  {
    if ts == [] || ts[0].Mid? then 0 else 1 + FirstMid(ts[1..])
  }

  lemma MidInFront(digits: string, rest: string)
    ensures var s := "**[M" + digits + "]**" + rest; |s| > 2 && s[0] == '*' && s[1] == '*' && s[2] == '['
  {}

  /** A text that starts with the plain tokens up to the first marker, and then with the marker. */
  ghost predicate Starts(ts: seq<Token>, s: string) {
    var k := FirstMid(ts);
    && |s| >= k
    && (forall i | 0 <= i < k :: s[i] == ts[i].c)
    && (k < |ts| ==> |s| > k + 2 && s[k] == '*' && s[k + 1] == '*' && s[k + 2] == '[')
    && (k == |ts| ==> |s| == k)
  }

  lemma {:induction false} PlainFront(ts: seq<Token>)
    ensures Starts(ts, Join(ts))
  {
    if ts != [] {
      if ts[0].Plain? {
        PlainFront(ts[1..]);
        assert Join(ts) == [ts[0].c] + Join(ts[1..]);
      } else {
        MidInFront(ts[0].digits, Join(ts[1..]));
      }
    }
  }

  lemma {:induction false} MoveAllAt(ts: seq<Token>, base: nat, offset: nat)
    ensures var r := MoveAll(ts, base, offset);
            |r| == |ts| && FirstMid(r) == FirstMid(ts)
              && forall i | 0 <= i < |ts| :: r[i] == MoveToken(ts[i], base, offset)
  {
    if ts != [] { MoveAllAt(ts[1..], base, offset); }
  }

  lemma SamePlainFront(ts: seq<Token>, r: seq<Token>, s: string, s': string)
    requires |r| == |ts| && FirstMid(r) == FirstMid(ts) && forall i | 0 <= i < |ts| && ts[i].Plain? :: r[i] == ts[i]
    requires Starts(ts, s) && Starts(r, s')
    ensures var k := FirstMid(ts);
            if k == |ts| then s' == s
            else |s'| > k + 2 && |s| > k + 2 && s'[..k + 2] == s[..k + 2] && s'[k + 2] == '[' && s[k + 2] == '['
  {
    var k := FirstMid(ts);
    forall i | 0 <= i < k ensures s'[i] == s[i] { assert ts[i].Plain?; }
    if k == |ts| { SameSlice(s', s, k); } else { SameSlice(s', s, k + 2); }
  }

  lemma SameSlice(a: string, b: string, m: nat)
    requires m <= |a| && m <= |b| && forall i | 0 <= i < m :: a[i] == b[i]
    ensures a[..m] == b[..m] && (|a| == m && |b| == m ==> a == b)
  {}

  lemma NoMarkerAppears(ts: seq<Token>, base: nat, offset: nat)
    requires ts != [] && ts[0].Plain? && MidAt(Join(ts), 0).None?
    ensures MidAt(Join(MoveAll(ts, base, offset)), 0).None?
  {
    var r := MoveAll(ts, base, offset);
    MoveAllAt(ts, base, offset);
    PlainFront(ts);
    PlainFront(r);
    SamePlainFront(ts, r, Join(ts), Join(r));
    var k := FirstMid(ts);
    if k < |ts| && MidAt(Join(r), 0).Some? { SameFront(Join(r), Join(ts), k + 2); }
  }

  lemma {:induction false} MovedIsStable(ts: seq<Token>, base: nat, offset: nat)
    requires Stable(ts)
    ensures Stable(MoveAll(ts, base, offset))
  {
    if ts != [] {
      MovedIsStable(ts[1..], base, offset);
      if ts[0].Plain? { NoMarkerAppears(ts, base, offset); }
    }
  }

  /** The shifted text has the same characters around the same markers, and only their numbers are other ones. */
  lemma ReadsBackShifted(text: string, base: nat, offset: nat)
    ensures Tokens(Shifted(text, base, offset)) == MoveAll(Tokens(text), base, offset)
  {
    TokensAreStable(text);
    MovedIsStable(Tokens(text), base, offset);
    TokensOfStable(MoveAll(Tokens(text), base, offset));
  }

  // ---- the numbers afterwards ----

  function MoveNumbers(ns: seq<nat>, base: nat, offset: nat): (r: seq<nat>)
    ensures |r| == |ns|
  {
    seq(|ns|, i requires 0 <= i < |ns| => Moved(ns[i], base, offset))
  }

  lemma {:induction false} NumbersMoved(ts: seq<Token>, base: nat, offset: nat)
    requires forall t | t in ts :: WrittenNumber(t)
    ensures Numbers(MoveAll(ts, base, offset)) == MoveNumbers(Numbers(ts), base, offset)
  {
    if ts != [] {
      NumbersMoved(ts[1..], base, offset);
      var t := ts[0];
      assert WrittenNumber(t);
      if t.Mid? && NumberOf(t) > base {
        ValueOfPadded(NumberOf(t) + offset, Max(|t.digits|, |Digits(NumberOf(t) + offset)|));
      }
      var head := if t.Mid? then [NumberOf(t)] else [];
      assert MoveNumbers(head + Numbers(ts[1..]), base, offset)
          == MoveNumbers(head, base, offset) + MoveNumbers(Numbers(ts[1..]), base, offset);
    }
  }

  lemma {:induction false} StableNumbers(ts: seq<Token>)
    requires Stable(ts)
    ensures forall t | t in ts :: WrittenNumber(t)
  {
    if ts != [] { StableNumbers(ts[1..]); }
  }

  lemma {:induction false} AboveMembers(ns: seq<nat>, base: nat)
    ensures forall n :: n in Above(ns, base) <==> n in ns && n > base
  {
    if ns != [] {
      AboveMembers(ns[1..], base);
      assert forall n :: n in ns <==> n == ns[0] || n in ns[1..];
    }
  }

  /**
   Numbers are moved exactly when a message that is new since the merge base has a number that is not beyond the
   target's last; otherwise nothing is to be done.
   */
  lemma PreparesIff(text: string, base: nat, target: nat)
    ensures Prepare(text, base, target).Resequenced? <==> exists n | n in Mids(text, 0) :: base < n <= target
    ensures !Prepare(text, base, target).Resequenced? ==> Prepare(text, base, target) == Clean
  {
    hide Mids, Tokens, Shifted, Largest;
    var ns := Numbers(Tokens(text));
    MidsOfText(text);
    AboveMembers(ns, base);
    if Above(ns, base) != [] { SmallestBounds(Above(ns, base)); }
  }

  /** The check for a target that has not advanced is never reached. */
  lemma NotAdvancedIsUnreachable(text: string, base: nat, target: nat)
    ensures Prepare(text, base, target) != NotAdvanced
  {
    var ns := Numbers(Tokens(text));
    AboveMembers(ns, base);
    if Above(ns, base) != [] { SmallestBounds(Above(ns, base)); }
  }

  /** The numbers of a shifted text are the moved numbers. */
  lemma ShiftedNumbers(text: string, base: nat, offset: nat)
    ensures Numbers(Tokens(Shifted(text, base, offset))) == MoveNumbers(Numbers(Tokens(text)), base, offset)
  {
    TokensAreStable(text);
    StableNumbers(Tokens(text));
    NumbersMoved(Tokens(text), base, offset);
    ReadsBackShifted(text, base, offset);
  }

  lemma PreparedText(text: string, base: nat, target: nat)
    requires Prepare(text, base, target).Resequenced?
    ensures base < target && Above(Numbers(Tokens(text)), base) != []
    ensures Prepare(text, base, target).text == Shifted(text, base, target - base)
    ensures Prepare(text, base, target).highest == Largest(Above(Numbers(Tokens(text)), base)) + (target - base)
  {}

  /**
   Re-sequencing: the numbers up to the merge base stay, all others end up behind the target's last, by one and the
   same distance, so they stay distinct and in order.
   */
  lemma Resequences(text: string, base: nat, target: nat)
    requires Prepare(text, base, target).Resequenced?
    ensures var before, after := Numbers(Tokens(text)), Numbers(Tokens(Prepare(text, base, target).text));
            && |after| == |before|
            && (forall i | 0 <= i < |before| :: if before[i] > base then after[i] > target
               && after[i] == before[i] + (target - base) else after[i] == before[i])
            && (forall i, j | 0 <= i < |before| && 0 <= j < |before| :: before[i] < before[j] <==> after[i] < after[j])
  {
    hide *;
    PreparedText(text, base, target);
    ShiftedNumbers(text, base, target - base);
    MovedInOrder(Numbers(Tokens(text)), base, target);
  }

  lemma MovedInOrder(before: seq<nat>, base: nat, target: nat)
    requires base < target
    ensures var after := MoveNumbers(before, base, target - base);
            && (forall i | 0 <= i < |before| :: if before[i] > base then after[i] > target
               && after[i] == before[i] + (target - base) else after[i] == before[i])
            && (forall i, j | 0 <= i < |before| && 0 <= j < |before| :: before[i] < before[j] <==> after[i] < after[j])
  {}

  lemma {:induction false} LargestIsIn(ns: seq<nat>)
    requires ns != []
    ensures Largest(ns) in ns
  {
    if |ns| > 1 { LargestIsIn(ns[1..]); }
  }

  lemma HighestMoves(ns: seq<nat>, base: nat, offset: nat)
    requires Above(ns, base) != []
    ensures var top := Largest(Above(ns, base)) + offset;
            top in MoveNumbers(ns, base, offset) && forall n | n in MoveNumbers(ns, base, offset) :: n <= top
  {
    var top := Largest(Above(ns, base));
    AboveMembers(ns, base);
    LargestIsIn(Above(ns, base));
    var i :| 0 <= i < |ns| && ns[i] == top;
    assert MoveNumbers(ns, base, offset)[i] == top + offset;
    forall k | 0 <= k < |ns| ensures Moved(ns[k], base, offset) <= top + offset {
      if ns[k] > base { LargestBounds(Above(ns, base), ns[k]); }
    }
  }

  lemma MidsOfText(text: string)
    ensures Mids(text, 0) == Numbers(Tokens(text))
  {
    MidsAreNumbers(text, 0);
    assert text[0..] == text;
  }

  lemma LargestIs(ns: seq<nat>, top: nat)
    requires top in ns && forall n | n in ns :: n <= top
    ensures Largest(ns) == top
  {
    LargestIsIn(ns);
    LargestBounds(ns, top);
  }

  lemma LastOfShifted(text: string, base: nat, offset: nat)
    requires Above(Numbers(Tokens(text)), base) != []
    ensures LastMid(Shifted(text, base, offset)) == Largest(Above(Numbers(Tokens(text)), base)) + offset
  {
    hide Tokens, Numbers, Mids, Shifted, Above, MoveNumbers, Largest;
    var numbers := Numbers(Tokens(text));
    ShiftedNumbers(text, base, offset);
    HighestMoves(numbers, base, offset);
    LargestIs(MoveNumbers(numbers, base, offset), Largest(Above(numbers, base)) + offset);
    MidsOfText(Shifted(text, base, offset));
  }

  /** The counter that is written is the last number of the new log. */
  lemma CounterIsLast(text: string, base: nat, target: nat)
    requires Prepare(text, base, target).Resequenced?
    ensures LastMid(Prepare(text, base, target).text) == Prepare(text, base, target).highest
  {
    hide *;
    PreparedText(text, base, target);
    LastOfShifted(text, base, target - base);
  }

  /** Moved numbers are beyond the target, or not beyond the base. */
  lemma NoneInBetween(ns: seq<nat>, base: nat, target: nat)
    requires base < target
    ensures AllBeyond(Above(MoveNumbers(ns, base, target - base), base), target)
  {
    var after := MoveNumbers(ns, base, target - base);
    AboveMembers(after, base);
    forall i | 0 <= i < |Above(after, base)| ensures Above(after, base)[i] > target {
      assert Above(after, base)[i] in Above(after, base);
      var k :| 0 <= k < |after| && after[k] == Above(after, base)[i];
      assert after[k] == Moved(ns[k], base, target - base);
    }
  }

  ghost predicate AllBeyond(ns: seq<nat>, target: nat) {
    forall i | 0 <= i < |ns| :: ns[i] > target
  }

  /** Running it again with the same base and target finds nothing to do. */
  lemma PreparedIsClean(text: string, base: nat, target: nat)
    requires Prepare(text, base, target).Resequenced?
    ensures Prepare(Prepare(text, base, target).text, base, target) == Clean
  {
    hide Tokens, Numbers, Shifted, MoveNumbers, Above;
    PreparedText(text, base, target);
    ShiftedNumbers(text, base, target - base);
    var ns := Numbers(Tokens(text));
    NoneInBetween(ns, base, target);
    var added := Above(MoveNumbers(ns, base, target - base), base);
    if added != [] { SmallestBounds(added); }
  }

  // ---- publishing two files ----

  /** Where publishing can fail. */
  datatype Failure = BeforeChat | AfterChat | BeforeCounter | AfterCounter

  class MergeFiles {
    var chat: string
    var counter: Option<string>

    constructor (chat: string, counter: Option<string>)
      ensures this.chat == chat && this.counter == counter
    {
      this.chat, this.counter := chat, counter;
    }

    /** Writes the log and the counter; when a step fails, whatever was written is taken back. */
    method PrepareMerge(base: nat, target: nat, fails: Option<Failure>) returns (done: bool)
      modifies this
      ensures !Prepare(old(chat), base, target).Resequenced? ==> !done && chat == old(chat) && counter == old(counter)
      ensures Prepare(old(chat), base, target).Resequenced? ==>
                && (done <==> fails.None?)
                && chat == (if done then Prepare(old(chat), base, target).text else old(chat))
                && counter
                   == (if done then Some(Digits(Prepare(old(chat), base, target).highest) + "\n") else old(counter))
    {
      var chatBefore, counterBefore := chat, counter;
      var plan := Prepare(chat, base, target);
      if !plan.Resequenced? {
        return false;
      }
      var counterAfter := Some(Digits(plan.highest) + "\n");
      var chatPublished, counterPublished := false, false;
      done := false;
      if fails != Some(BeforeChat) {
        chatPublished := true;
        chat := plan.text;
        if fails != Some(AfterChat) && fails != Some(BeforeCounter) {
          counterPublished := true;
          counter := counterAfter;
          done := fails.None?;
        }
      }
      if !done {
        if chatPublished && chat == plan.text { chat := chatBefore; }
        if counterPublished && counter == counterAfter { counter := counterBefore; }
      }
    }
  }
}
