/** The handles that are offered for restoring sessions, and the resolver that takes them back. */
module Handles {
  import opened Wrappers
  import Decimal

  datatype Session = Session(id: string, lane: Option<string>, task: Option<nat>)

  const SHORTEST := 8

  function Take(s: string, n: nat): string {
    if n < |s| then s[..n] else s
  }

  predicate Ambiguous(sessions: seq<Session>, own: string, n: nat) {
    exists k | 0 <= k < |sessions| :: sessions[k].id != own && Take(own, n) <= sessions[k].id
  }

  /**
   The session's lane name, or the shortest prefix of its id, of at least eight characters, that no other one shares.
   */
  function LengthFrom(sessions: seq<Session>, own: string, n: nat): (r: nat)
    ensures r >= n
    decreases |own| - n
  {
    if n < |own| && Ambiguous(sessions, own, n) then LengthFrom(sessions, own, n + 1) else n
  }

  function Handle(sessions: seq<Session>, s: Session): string {
    if s.lane.Some? && s.lane.value != "" then s.lane.value else Take(s.id, LengthFrom(sessions, s.id, SHORTEST))
  }

  method RestoreHandles(sessions: seq<Session>) returns (handles: seq<string>)
    ensures |handles| == |sessions| && forall i | 0 <= i < |sessions| :: handles[i] == Handle(sessions, sessions[i])
  {
    handles := [];
    for i := 0 to |sessions|
      invariant |handles| == i && forall j | 0 <= j < i :: handles[j] == Handle(sessions, sessions[j])
    {
      var s := sessions[i];
      if s.lane.Some? && s.lane.value != "" {
        handles := handles + [s.lane.value];
      } else {
        var length := SHORTEST;
        while length < |s.id| && Ambiguous(sessions, s.id, length)
          invariant LengthFrom(sessions, s.id, length) == LengthFrom(sessions, s.id, SHORTEST)
          decreases |s.id| - length
        {
          length := length + 1;
        }
        handles := handles + [Take(s.id, length)];
      }
    }
  }

  // ---- the resolver ----

  datatype Pick = Picked(index: nat) | Several(count: nat) | NoTask | Nobody

  function FirstLane(sessions: seq<Session>, name: string, i: nat): (r: Option<nat>)
    requires i <= |sessions|
    ensures r.Some? ==> i <= r.value < |sessions| && sessions[r.value].lane == Some(name)
                        && forall j | i <= j < r.value :: sessions[j].lane != Some(name)
    ensures r.None? ==> forall j | i <= j < |sessions| :: sessions[j].lane != Some(name)
    decreases |sessions| - i
  {
    if i == |sessions| then None else if sessions[i].lane == Some(name) then Some(i)
      else FirstLane(sessions, name, i + 1)
  }

  /** The sessions whose id starts with a text, in order. */
  function Starting(sessions: seq<Session>, prefix: string): (r: seq<nat>)
    ensures forall k: nat :: k in r <==> k < |sessions| && prefix <= sessions[k].id
    ensures forall i, j | 0 <= i < j < |r| :: r[i] < r[j]
  {
    if sessions == [] then []
    else
      var n := |sessions| - 1;
      var front := Starting(sessions[..n], prefix);
      assert forall k | 0 <= k < n :: sessions[..n][k] == sessions[k];
      assert forall i | 0 <= i < |front| :: front[i] in front;
      if prefix <= sessions[n].id then front + [n] else front
  }

  /** T12, t12 or 12. */
  function TaskNumber(selector: string): Option<nat> {
    var digits := if selector != "" && (selector[0] == 'T' || selector[0] == 't') && IsDigits(selector[1..])
      then selector[1..] else selector;
    if IsDigits(digits) then Some(Decimal.Value(digits)) else None
  }

  predicate IsDigits(s: string) {
    s != "" && Decimal.AllDigits(s)
  }

  function FirstTask(sessions: seq<Session>, task: nat, i: nat): Option<nat>
    requires i <= |sessions|
    decreases |sessions| - i
  {
    if i == |sessions| then None else if sessions[i].task == Some(task) then Some(i)
      else FirstTask(sessions, task, i + 1)
  }

  function PickSession(sessions: seq<Session>, selector: string): Pick {
    var lane := FirstLane(sessions, selector, 0);
    var matches := Starting(sessions, selector);
    if lane.Some? then Picked(lane.value)
    else if |matches| == 1 then Picked(matches[0])
    else if |matches| > 1 then Several(|matches|)
    else match TaskNumber(selector)
      case None => Nobody
      case Some(task) =>
        var first := FirstTask(sessions, task, 0);
        if first.Some? then Picked(first.value) else NoTask
  }

  method Select(sessions: seq<Session>, selector: string) returns (p: Pick)
    ensures p == PickSession(sessions, selector)
  {
    for i := 0 to |sessions|
      invariant FirstLane(sessions, selector, i) == FirstLane(sessions, selector, 0)
    {
      if sessions[i].lane == Some(selector) {
        return Picked(i);
      }
    }
    var matches := Starting(sessions, selector);
    if |matches| == 1 {
      return Picked(matches[0]);
    }
    if |matches| > 1 {
      return Several(|matches|);
    }
    var task := TaskNumber(selector);
    if task.None? {
      return Nobody;
    }
    for i := 0 to |sessions|
      invariant FirstTask(sessions, task.value, i) == FirstTask(sessions, task.value, 0)
    {
      if sessions[i].task == task {
        return Picked(i);
      }
    }
    p := NoTask;
  }

  // ---- what is picked ----

  /** The selector is this number, perhaps behind a T, and perhaps with zeros in front. */
  ghost predicate NamesTask(selector: string, task: nat) {
    exists width: nat :: selector in [Decimal.Padded(task, width), "T" + Decimal.Padded(task, width),
                                      "t" + Decimal.Padded(task, width)]
  }

  lemma TaskNumberIs(selector: string)
    ensures TaskNumber(selector).Some? ==> NamesTask(selector, TaskNumber(selector).value)
    ensures forall task: nat :: NamesTask(selector, task) ==> TaskNumber(selector) == Some(task)
  {
    hide Decimal.Padded, Decimal.Value;
    if TaskNumber(selector).Some? { NumberIsNamed(selector); }
    forall task: nat | NamesTask(selector, task) ensures TaskNumber(selector) == Some(task) {
      var width: nat :| selector in [Decimal.Padded(task, width), "T" + Decimal.Padded(task, width),
                                     "t" + Decimal.Padded(task, width)];
      Decimal.ValueOfPadded(task, width);
      NumberOfDigits(Decimal.Padded(task, width));
    }
  }

  lemma NumberIsNamed(selector: string)
    requires TaskNumber(selector).Some?
    ensures NamesTask(selector, TaskNumber(selector).value)
  {
    hide Decimal.Padded, Decimal.Value;
    var lettered := selector != "" && (selector[0] == 'T' || selector[0] == 't') && IsDigits(selector[1..]);
    var digits := if lettered then selector[1..] else selector;
    Decimal.PaddedOfValue(digits);
    if lettered { assert selector == [selector[0]] + digits; }
    assert selector in [digits, "T" + digits, "t" + digits];
  }

  lemma NumberOfDigits(digits: string)
    requires IsDigits(digits)
    ensures TaskNumber(digits) == TaskNumber("T" + digits) == TaskNumber("t" + digits) == Some(Decimal.Value(digits))
  {
    hide Decimal.Value;
    DigitIsNoLetter(digits);
    assert ("T" + digits)[1..] == digits && ("t" + digits)[1..] == digits;
  }

  lemma DigitIsNoLetter(digits: string)
    requires IsDigits(digits)
    ensures digits[0] != 'T' && digits[0] != 't'
  {
    assert Decimal.IsDigit(digits[0]);
  }

  lemma {:induction false} FirstTaskIs(sessions: seq<Session>, task: nat, i: nat)
    requires i <= |sessions|
    ensures var r := FirstTask(sessions, task, i);
            if r.Some? then
              i <= r.value < |sessions| && sessions[r.value].task == Some(task)
              && forall j | i <= j < r.value :: sessions[j].task != Some(task)
            else forall j | i <= j < |sessions| :: sessions[j].task != Some(task)
    decreases |sessions| - i
  {
    if i < |sessions| { FirstTaskIs(sessions, task, i + 1); }
  }

  ghost predicate NoName(sessions: seq<Session>, selector: string) {
    forall k | 0 <= k < |sessions| :: sessions[k].lane != Some(selector)
  }

  ghost predicate NoStart(sessions: seq<Session>, selector: string) {
    forall k | 0 <= k < |sessions| :: !(selector <= sessions[k].id)
  }

  /**
   A selector picks the first session of that name; else the one session whose id starts with it, unless there are
   several; else the first session of the task whose number it is.
   */
  lemma Picks(sessions: seq<Session>, selector: string)
    ensures match PickSession(sessions, selector)
            case Picked(i) =>
              i < |sessions|
              && (|| (sessions[i].lane == Some(selector) && forall k | 0 <= k < i :: sessions[k].lane != Some(selector))
                  || (NoName(sessions, selector) && selector <= sessions[i].id
                      && forall k | 0 <= k < |sessions| && k != i :: !(selector <= sessions[k].id))
                  || (NoName(sessions, selector) && NoStart(sessions, selector)
                      && exists task: nat :: NamesTask(selector, task) && sessions[i].task == Some(task)
                           && forall k | 0 <= k < i :: sessions[k].task != Some(task)))
            case Several(n) =>
              NoName(sessions, selector) && n > 1
              && n == |set k: nat | k < |sessions| && selector <= sessions[k].id|
            case NoTask =>
              NoName(sessions, selector) && NoStart(sessions, selector)
              && exists task: nat :: NamesTask(selector, task)
                   && forall k | 0 <= k < |sessions| :: sessions[k].task != Some(task)
            case Nobody =>
              && NoName(sessions, selector) && NoStart(sessions, selector)
              && forall task: nat :: !NamesTask(selector, task)
  {
    hide NamesTask, TaskNumber, FirstTask;
    var matches := Starting(sessions, selector);
    TaskNumberIs(selector);
    Members(sessions, selector);
    if TaskNumber(selector).Some? { FirstTaskIs(sessions, TaskNumber(selector).value, 0); }
    if |matches| >= 1 { assert matches[0] in matches; }
    if |matches| == 1 {
      forall k | 0 <= k < |sessions| && selector <= sessions[k].id ensures k == matches[0] { assert k in matches; }
    } else if |matches| == 0 {
      forall k | 0 <= k < |sessions| ensures !(selector <= sessions[k].id) { assert k !in matches; }
    }
  }

  lemma Members(sessions: seq<Session>, prefix: string)
    ensures |Starting(sessions, prefix)| == |set k: nat | k < |sessions| && prefix <= sessions[k].id|
  {
    var r := Starting(sessions, prefix);
    DistinctCount(r);
    assert Indices(r) == (set k: nat | k < |sessions| && prefix <= sessions[k].id);
  }

  ghost function Indices(r: seq<nat>): set<nat> {
    set k | k in r
  }

  lemma {:induction false} DistinctCount(r: seq<nat>)
    requires forall i, j | 0 <= i < j < |r| :: r[i] < r[j]
    ensures |Indices(r)| == |r|
  {
    if r != [] {
      var front, last := r[..|r| - 1], r[|r| - 1];
      DistinctCount(front);
      OneMoreIndex(front, last);
      assert r == front + [last];
    }
  }

  lemma OneMoreIndex(front: seq<nat>, last: nat)
    requires forall i | 0 <= i < |front| :: front[i] < last
    ensures |Indices(front + [last])| == |Indices(front)| + 1
  {
    assert Indices(front + [last]) == Indices(front) + {last};
  }

  // ---- handles resolve back ----

  lemma {:induction false} LengthIsShortest(sessions: seq<Session>, own: string, n: nat)
    ensures var r := LengthFrom(sessions, own, n);
            && (forall k | n <= k < r :: Ambiguous(sessions, own, k))
            && (r < |own| ==> !Ambiguous(sessions, own, r))
            && (r > n ==> r <= |own|)
    decreases |own| - n
  {
    if n < |own| && Ambiguous(sessions, own, n) { LengthIsShortest(sessions, own, n + 1); }
  }

  /**
   An unnamed session's handle starts its id; it is unambiguous or the whole id; and every shorter start of at
   least eight characters belongs to another session as well.
   */
  lemma HandleIsShortest(sessions: seq<Session>, s: Session)
    requires s.lane.None?
    ensures var h := Handle(sessions, s);
            && h <= s.id
            && (h == s.id
                || (|h| >= 8
                    && forall k | 0 <= k < |sessions| && sessions[k].id != s.id :: !(h <= sessions[k].id)))
            && forall k | 8 <= k < |h| :: Ambiguous(sessions, s.id, k)
  {
    LengthIsShortest(sessions, s.id, SHORTEST);
  }

  lemma OnlyOne(sessions: seq<Session>, prefix: string, i: nat)
    requires i < |sessions| && prefix <= sessions[i].id
    ensures (forall k | 0 <= k < |sessions| && k != i :: !(prefix <= sessions[k].id)) ==>
            Starting(sessions, prefix) == [i]
    ensures (exists k | 0 <= k < |sessions| && k != i :: prefix <= sessions[k].id) ==> |Starting(sessions, prefix)| > 1
  {
    var r := Starting(sessions, prefix);
    assert i in r;
    if forall k | 0 <= k < |sessions| && k != i :: !(prefix <= sessions[k].id) {
      if |r| > 1 { assert r[0] in r && r[1] in r && r[0] < r[1]; }
    } else {
      var k :| 0 <= k < |sessions| && k != i && prefix <= sessions[k].id;
      assert k in r;
    }
  }

  /** No other session's id starts with this one's. */
  predicate NotAPrefix(sessions: seq<Session>, i: nat)
    requires i < |sessions|
  {
    forall k | 0 <= k < |sessions| && k != i :: !(sessions[i].id <= sessions[k].id)
  }

  /**
   An unnamed session's handle picks this session exactly when no lane bears the handle as its name and no other id
   starts with this session's whole id.
   */
  lemma HandleResolvesBack(sessions: seq<Session>, i: nat)
    requires i < |sessions| && sessions[i].lane.None?
    ensures var h := Handle(sessions, sessions[i]);
            PickSession(sessions, h) == Picked(i)
            <==> NotAPrefix(sessions, i) && forall k | 0 <= k < |sessions| :: sessions[k].lane != Some(h)
  {
    var s := sessions[i];
    var h := Handle(sessions, s);
    HandleIsShortest(sessions, s);
    OnlyOne(sessions, h, i);
    if NotAPrefix(sessions, i) {
      forall k | 0 <= k < |sessions| && k != i ensures !(h <= sessions[k].id) {
        assert sessions[k].id != s.id;
      }
    } else {
      var k :| 0 <= k < |sessions| && k != i && s.id <= sessions[k].id;
      assert h <= sessions[k].id;
    }
  }

  /** A named session's handle picks the first session of that name. */
  lemma NameResolvesBack(sessions: seq<Session>, i: nat)
    requires i < |sessions| && sessions[i].lane.Some? && sessions[i].lane.value != ""
    ensures PickSession(sessions, Handle(sessions, sessions[i])) == Picked(i)
       <==> forall k | 0 <= k < i :: sessions[k].lane != sessions[i].lane
  {}

  /** With prefix-free ids and distinct names that are no handles, every handle picks its own session. */
  lemma AllResolveBack(sessions: seq<Session>, i: nat)
    requires i < |sessions|
    requires forall j | 0 <= j < |sessions| :: NotAPrefix(sessions, j) && sessions[j].lane != Some("")
    requires forall j, k | 0 <= j < k < |sessions| && sessions[j].lane.Some? :: sessions[j].lane != sessions[k].lane
    requires forall j, k | 0 <= j < |sessions| && 0 <= k < |sessions| && sessions[j].lane.None? ::
               sessions[k].lane != Some(Handle(sessions, sessions[j]))
    ensures PickSession(sessions, Handle(sessions, sessions[i])) == Picked(i)
  {
    if sessions[i].lane.None? { HandleResolvesBack(sessions, i); } else { NameResolvesBack(sessions, i); }
  }
}
