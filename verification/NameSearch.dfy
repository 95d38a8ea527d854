/**
 The search for a free session name: the wanted name, or the wanted name with
 -2, -3, ... until one is not taken by a live lane, a launch or a running
 session.
 */
module NameSearch {
  import opened Wrappers
  import opened Decimal
  import opened SessionTables
  import opened SessionStore
  import opened SessionInvariants

  /** The word that selects every session, and therefore names none. */
  const RESTORE_ALL := "all"

  /** Everything before position `n`, which counts from the end when it is negative. */
  function Before(s: string, n: int): string {
    if n >= |s| then s else if n >= 0 then s[..n] else if |s| + n >= 0 then s[..|s| + n] else ""
  }

  function Suffix(attempt: nat): string {
    if attempt <= 1 then "" else "-" + Digits(attempt)
  }

  function Candidate(base: string, attempt: nat): string {
    Before(base, 64 - |Suffix(attempt)|) + Suffix(attempt)
  }

  lemma SameTail(x: string, y: string, d: string, e: string)
    requires AllDigits(d) && AllDigits(e) && x + "-" + d == y + "-" + e
    ensures d == e
  {
    var whole := x + "-" + d;
    assert whole[|x|] == '-' && forall i | |x| < i < |whole| :: IsDigit(whole[i]);
    assert whole == y + "-" + e;
    assert whole[|y|] == '-' && forall i | |y| < i < |whole| :: IsDigit(whole[i]);
    assert |x| == |y|;
    assert d == whole[|x| + 1..] && e == whole[|y| + 1..];
  }

  /** From the second attempt on, the candidates are pairwise distinct, also where they are cut to fit. */
  lemma CandidatesDistinct(base: string, i: nat, j: nat)
    requires 2 <= i && 2 <= j && Candidate(base, i) == Candidate(base, j)
    ensures i == j
  {
    var x, y := Before(base, 64 - |Suffix(i)|), Before(base, 64 - |Suffix(j)|);
    assert Candidate(base, i) == x + "-" + Digits(i) && Candidate(base, j) == y + "-" + Digits(j);
    SameTail(x, y, Digits(i), Digits(j));
    DigitsInjective(i, j);
  }

  lemma SuffixIsName(attempt: nat)
    ensures forall i | 0 <= i < |Suffix(attempt)| :: IsNameChar(Suffix(attempt)[i])
  {
    if attempt > 1 {
      forall i | 0 <= i < |Suffix(attempt)| ensures IsNameChar(Suffix(attempt)[i]) {
        if i > 0 { assert Suffix(attempt)[i] == Digits(attempt)[i - 1]; }
      }
    }
  }

  lemma LongNumber(base: string, attempt: nat)
    requires attempt >= PowerOfTen(62)
    ensures !ValidName(Candidate(base, attempt))
  {
    DigitsLong(attempt, 62);
    DigitsLong(attempt, 1);
    assert PowerOfTen(62) > 1;
    var head, suffix := Before(base, 64 - |Suffix(attempt)|), Suffix(attempt);
    assert |suffix| >= 64 && suffix[0] == '-';
    if |suffix| == 64 {
      assert head == "" && Candidate(base, attempt)[0] == suffix[0];
    }
  }

  /** A candidate is a valid name of at most 64 characters exactly when its number has less than 63 digits. */
  lemma CandidateValid(base: string, attempt: nat)
    requires ValidName(base)
    ensures ValidName(Candidate(base, attempt)) <==> attempt < PowerOfTen(62)
  {
    if attempt < PowerOfTen(62) { ShortNumber(base, attempt); } else { LongNumber(base, attempt); }
  }

  lemma ShortNumber(base: string, attempt: nat)
    requires ValidName(base) && attempt < PowerOfTen(62)
    ensures ValidName(Candidate(base, attempt))
  {
    DigitsShort(attempt, 62);
    SuffixIsName(attempt);
    var head := Before(base, 64 - |Suffix(attempt)|);
    assert |head| >= 1 && head[0] == base[0];
    forall i | 0 <= i < |head + Suffix(attempt)| ensures IsNameChar((head + Suffix(attempt))[i]) {
      if i < |head| { assert head[i] == base[i]; }
    }
  }

  function OtherNames(t: Tables, key: Key): set<string> {
    set other | other in t.records && other != key && t.records[other].state != Tombstoned
      && t.records[other].name.Some? ::
      t.records[other].name.value
  }

  /** A candidate is skipped when it is held, reserved for the program, or held by a running session. */
  predicate Skipped(t: Tables, key: Key, running: set<Key> -> bool, name: string) {
    name in HeldNames(t, key) || name == RESTORE_ALL
    || (Holders(t, key, name) != {} && running(Holders(t, key, name)))
  }

  lemma SkippedIsTaken(t: Tables, key: Key, running: set<Key> -> bool, name: string)
    requires Skipped(t, key, running, name)
    ensures name in HeldNames(t, key) + {RESTORE_ALL} + OtherNames(t, key)
  {
    if name !in HeldNames(t, key) && name != RESTORE_ALL {
      var other :| other in Holders(t, key, name);
      assert t.records[other].name.value in OtherNames(t, key);
    }
  }

  ghost function Tried(base: string, attempt: nat): set<string> {
    set k | 2 <= k < attempt :: Candidate(base, k)
  }

  lemma {:induction false} TriedSize(base: string, attempt: nat)
    requires attempt >= 2
    ensures |Tried(base, attempt)| == attempt - 2
  {
    if attempt == 2 {
      assert Tried(base, 2) == {};
    } else {
      TriedSize(base, attempt - 1);
      assert Tried(base, attempt) == Tried(base, attempt - 1) + {Candidate(base, attempt - 1)};
      if Candidate(base, attempt - 1) in Tried(base, attempt - 1) {
        var k :| 2 <= k < attempt - 1 && Candidate(base, k) == Candidate(base, attempt - 1);
        CandidatesDistinct(base, k, attempt - 1);
      }
    }
  }

  lemma SubsetSize<T>(a: set<T>, b: set<T>)
    requires a <= b
    ensures |a| <= |b|
  {
    assert b == a + (b - a);
  }

  /** There are fewer skipped candidates than taken names. */
  lemma AttemptsBounded(t: Tables, key: Key, running: set<Key> -> bool, base: string, attempt: nat)
    requires forall k | 2 <= k < attempt :: Skipped(t, key, running, Candidate(base, k))
    ensures attempt <= |HeldNames(t, key)| + |OtherNames(t, key)| + 3
  {
    if attempt >= 2 {
      var taken := HeldNames(t, key) + {RESTORE_ALL} + OtherNames(t, key);
      forall name | name in Tried(base, attempt) ensures name in taken {
        var k :| 2 <= k < attempt && name == Candidate(base, k);
        SkippedIsTaken(t, key, running, name);
      }
      TriedSize(base, attempt);
      SubsetSize(Tried(base, attempt), taken);
      UnionSize(HeldNames(t, key) + {RESTORE_ALL}, OtherNames(t, key));
      UnionSize(HeldNames(t, key), {RESTORE_ALL});
    }
  }

  lemma UnionSize<T>(a: set<T>, b: set<T>)
    ensures |a + b| <= |a| + |b|
  {
    assert |a + b| == |a| + |b| - |a * b|;
  }

  /** `key` is the one live holder of the name it took, and nobody else gained a name. */
  lemma TakenByOne(t: Tables, key: Key, name: string, ownLane: Option<BodyId>)
    requires key in t.records && t.records[key].state != Tombstoned
    ensures var t' := TakeName(t, key, name, ownLane);
            && (forall k :: Holds(t'.records, k, name) <==> k == key)
            && (forall k, n | k != key && Holds(t'.records, k, n) :: Holds(t.records, k, n))
            && (forall k, n | k != key && n != name && Holds(t.records, k, n) :: Holds(t'.records, k, n))
  {
  }

  predicate IsOwnLane(t: Tables, key: Key, body: Option<BodyId>) {
    if body.Some? then body.value in t.lanes && t.lanes[body.value].state != Destroyed
      && t.lanes[body.value].bound == Some(key)
    else forall b | b in t.lanes :: t.lanes[b].state == Destroyed || t.lanes[b].bound != Some(key)
  }

  /** One pass over the lanes: the names of other live lanes, and a live lane of `key` if there is one. */
  method SurveyLanes(store: Store, key: Key) returns (held: set<string>, ownLane: Option<BodyId>)
    ensures held == set body | body in store.lanes && OtherLane(store.lanes[body], key)
            && store.lanes[body].name.Some? ::
                      store.lanes[body].name.value
    ensures IsOwnLane(store.Contents(), key, ownLane)
  {
    held, ownLane := {}, None;
    var left := store.lanes.Keys;
    while left != {}
      invariant left <= store.lanes.Keys
      invariant held == set body | body in store.lanes && body !in left && OtherLane(store.lanes[body], key)
                          && store.lanes[body].name.Some? :: store.lanes[body].name.value
      invariant ownLane.Some? ==> IsOwnLane(store.Contents(), key, ownLane)
      invariant ownLane.None? ==>
                  forall b | b in store.lanes && b !in left :: store.lanes[b].state == Destroyed
                    || store.lanes[b].bound != Some(key)
      decreases left
    {
      var body :| body in left;
      var lane := store.lanes[body];
      if lane.state != Destroyed {
        if lane.bound == Some(key) {
          ownLane := Some(body);
        } else if lane.name.Some? {
          held := held + {lane.name.value};
        }
      }
      left := left - {body};
    }
  }

  method AddLaunchNames(store: Store, lanesHeld: set<string>) returns (held: set<string>)
    ensures held == lanesHeld + set token | token in store.launches && store.launches[token].name.Some? ::
            store.launches[token].name.value
  {
    held := lanesHeld;
    var left := store.launches.Keys;
    while left != {}
      invariant left <= store.launches.Keys
      invariant held == lanesHeld + set token | token in store.launches && token !in left
                && store.launches[token].name.Some? ::
                          store.launches[token].name.value
      decreases left
    {
      var token :| token in left;
      if store.launches[token].name.Some? { held := held + {store.launches[token].name.value}; }
      left := left - {token};
    }
  }

  method ClearHolders(store: Store, holders: set<Key>)
    requires holders <= store.records.Keys
    modifies store`records
    ensures store.Contents() == Unnamed(old(store.Contents()), holders)
  {
    var left := holders;
    while left != {}
      invariant left <= holders
      invariant store.Contents() == Unnamed(old(store.Contents()), holders - left)
      decreases left
    {
      var holder :| holder in left;
      store.records := store.records[holder := store.records[holder].(name := None)];
      left := left - {holder};
    }
  }

  /** The former holders give the name up, and the conversation and its own lane take it. */
  method TakeFreeName(store: Store, key: Key, name: string, holders: set<Key>, ownLane: Option<BodyId>)
    requires key in store.records && holders == Holders(store.Contents(), key, name)
    requires ownLane.Some? ==> ownLane.value in store.lanes
    modifies store
    ensures store.Contents() == TakeName(old(store.Contents()), key, name, ownLane)
  {
    ClearHolders(store, holders);
    store.records := store.records[key := store.records[key].(name := Some(name))];
    if ownLane.Some? {
      store.lanes := store.lanes[ownLane.value := store.lanes[ownLane.value].(name := Some(name))];
    }
  }

  datatype Answer = Keeps(name: string) | Takes(name: string, attempt: nat, ownLane: Option<BodyId>) |
    Refuses(why: Refusal)

  /** What the search looks for: the first candidate that is the own name or is not skipped. */
  ghost predicate FirstFree(t: Tables, key: Key, running: set<Key> -> bool, base: string, name: string, attempt: nat)
    requires key in t.records
  {
    && attempt >= 1 && name == Candidate(base, attempt)
    && (Some(name) == t.records[key].name || !Skipped(t, key, running, name))
    && forall k | 1 <= k < attempt ::
         Skipped(t, key, running, Candidate(base, k)) && Some(Candidate(base, k)) != t.records[key].name
  }

  /** More names than the search can meet. */
  function Bound(t: Tables, key: Key): nat {
    |HeldNames(t, key)| + |OtherNames(t, key)| + 3
  }

  /** The search comes to `name`, soon enough for it to be a valid name. */
  ghost predicate Finds(t: Tables, key: Key, running: set<Key> -> bool, wanted: string, name: string, attempt: nat)
    requires key in t.records
  {
    && FirstFree(t, key, running, wanted, name, attempt) && attempt <= Bound(t, key)
    && (Bound(t, key) < PowerOfTen(62) ==> ValidName(name))
  }

  ghost predicate Answers(t: Tables, key: Key, running: set<Key> -> bool, wanted: string, keepExisting: bool,
                          answer: Answer)
    requires key in t.records
  {
    var own := t.records[key];
    if !ValidName(wanted) then answer == Refuses(BadName)
    else if keepExisting && own.name.Some? then answer == Keeps(own.name.value)
    else if own.state == Tombstoned then answer == Refuses(RecordDestroyed)
    else match answer
      case Refuses(_) => false
      case Keeps(name) => own.name == Some(name) && exists attempt :: Finds(t, key, running, wanted, name, attempt)
      case Takes(name, attempt, ownLane) =>
        own.name != Some(name) && Finds(t, key, running, wanted, name, attempt) && IsOwnLane(t, key, ownLane)
  }

  /** Give `key` the wanted name, or the first numbered variant that is free; a name that it has already stays. */
  method ClaimSessionName(store: Store, key: Key, wanted: string, keepExisting: bool, running: set<Key> -> bool)
    returns (answer: Answer)
    requires key in store.records
    modifies store
    ensures Answers(old(store.Contents()), key, running, wanted, keepExisting, answer)
    ensures store.Contents()
         == if answer.Takes? then TakeName(old(store.Contents()), key, answer.name, answer.ownLane)
           else old(store.Contents())
  {
    hide TakeName, Candidate, PowerOfTen;
    ghost var t := store.Contents();
    if !ValidName(wanted) { return Refuses(BadName); }
    var own := store.records[key];
    if keepExisting && own.name.Some? { return Keeps(own.name.value); }
    if own.state == Tombstoned { return Refuses(RecordDestroyed); }
    var lanesHeld, ownLane := SurveyLanes(store, key);
    var held := AddLaunchNames(store, lanesHeld);
    assert held == HeldNames(t, key);
    var attempt := 1;
    while true
      invariant attempt >= 1 && store.Contents() == t
      invariant forall k | 1 <= k < attempt ::
          Skipped(t, key, running, Candidate(wanted, k)) && Some(Candidate(wanted, k)) != own.name
      decreases Bound(t, key) - attempt
    {
      AttemptsBounded(t, key, running, wanted, attempt);
      CandidateValid(wanted, attempt);
      var name := Candidate(wanted, attempt);
      if own.name == Some(name) {
        assert Finds(t, key, running, wanted, name, attempt);
        return Keeps(name);
      }
      var holders := set other | other in store.records && other != key && Holds(store.records, other, name);
      assert holders == Holders(t, key, name);
      if name in held || name == RESTORE_ALL || (holders != {} && running(holders)) {
        assert Skipped(t, key, running, name);
        AttemptsBounded(t, key, running, wanted, attempt + 1);
        attempt := attempt + 1;
      } else {
        TakeFreeName(store, key, name, holders, ownLane);
        return Takes(name, attempt, ownLane);
      }
    }
  }

  // ---- names that others hold ----

  predicate LaneHolds(t: Tables, key: Key, name: string) {
    exists body | body in t.lanes ::
      t.lanes[body].state != Destroyed && t.lanes[body].bound != Some(key) && t.lanes[body].name == Some(name)
  }

  /** Another live lane bears the name, or a launch that is not for this conversation does. */
  predicate HeldByOther(t: Tables, key: Key, name: string) {
    LaneHolds(t, key, name)
    || exists token | token in t.launches :: t.launches[token].name == Some(name) && !MayHold(t.launches[token], key)
  }

  lemma HeldIsSkipped(t: Tables, key: Key, name: string)
    requires HeldByOther(t, key, name)
    ensures name in HeldNames(t, key)
  {}

  /**
   A name is passed over exactly when another live lane or any launch has it, when it is the word for all sessions, or
   when the live conversations that have it run.
   */
  lemma SkippedIff(t: Tables, key: Key, running: set<Key> -> bool, name: string)
    ensures var holders := set k | k in t.records && k != key && t.records[k].state != Tombstoned
                                   && t.records[k].name == Some(name);
            Skipped(t, key, running, name)
            <==> LaneHolds(t, key, name) || (exists token | token in t.launches :: t.launches[token].name == Some(name))
                 || name == "all" || (holders != {} && running(holders))
  {
    assert Holders(t, key, name) == set k | k in t.records && k != key && t.records[k].state != Tombstoned
                                            && t.records[k].name == Some(name);
  }

  /** There is one answer. */
  lemma FindsOne(t: Tables, key: Key, running: set<Key> -> bool, wanted: string, a: string, i: nat, b: string, j: nat)
    requires key in t.records
    requires FirstFree(t, key, running, wanted, a, i) && FirstFree(t, key, running, wanted, b, j)
    ensures i == j && a == b
  {}

  /**
   The name that a conversation gets is free of others exactly unless the conversation bore it before, with another
   lane or launch, and keeps it: because it keeps any name, or because the search comes to it.
   */
  lemma AnswerIsHeldIff(t: Tables, key: Key, running: set<Key> -> bool, wanted: string, keepExisting: bool,
                        answer: Answer)
    requires key in t.records && Answers(t, key, running, wanted, keepExisting, answer) && !answer.Refuses?
    ensures HeldByOther(t, key, answer.name) <==>
              && t.records[key].name.Some? && HeldByOther(t, key, t.records[key].name.value)
              && (keepExisting
                 || exists attempt :: FirstFree(t, key, running, wanted, t.records[key].name.value, attempt))
  {
    hide Candidate, Skipped, PowerOfTen, HeldNames, HeldByOther, ValidName;
    var own := t.records[key].name;
    if answer.Takes? {
      TakenIsFree(t, key, running, wanted, answer.name, answer.attempt);
      if own.Some? && exists attempt :: FirstFree(t, key, running, wanted, own.value, attempt) {
        var attempt :| FirstFree(t, key, running, wanted, own.value, attempt);
        FindsOne(t, key, running, wanted, own.value, attempt, answer.name, answer.attempt);
      }
    } else if !keepExisting {
      var attempt :| Finds(t, key, running, wanted, answer.name, attempt);
    }
  }

  lemma TakenIsFree(t: Tables, key: Key, running: set<Key> -> bool, wanted: string, name: string, attempt: nat)
    requires key in t.records && FirstFree(t, key, running, wanted, name, attempt) && t.records[key].name != Some(name)
    ensures !HeldByOther(t, key, name)
  {
    if HeldByOther(t, key, name) { HeldIsSkipped(t, key, name); }
  }

  /** With a new name, the conversation's own live lane is called by it, if it has one, and no other lane is. */
  lemma OnlyOwnLaneIsRenamed(t: Tables, key: Key, running: set<Key> -> bool, wanted: string, keepExisting: bool,
                             answer: Answer)
    requires key in t.records && Answers(t, key, running, wanted, keepExisting, answer) && answer.Takes?
    ensures var lanes, lanes' := t.lanes, TakeName(t, key, answer.name, answer.ownLane).lanes;
            && lanes'.Keys == lanes.Keys
            && (forall b | b in lanes :: lanes'[b] != lanes[b] ==>
                  lanes[b].bound == Some(key) && lanes[b].state != Destroyed
                  && lanes'[b] == lanes[b].(name := Some(answer.name)))
            && ((exists b | b in lanes :: lanes[b].bound == Some(key) && lanes[b].state != Destroyed) ==>
                  exists b | b in lanes :: lanes[b].bound == Some(key) && lanes'[b].name == Some(answer.name))
  {
    hide Finds, Holders;
  }

  /** In a consistent store, what bears the name of a live conversation besides it is a lane. */
  lemma OnlyLanesShare(t: Tables, key: Key, name: string)
    requires Consistent(t) && Holds(t.records, key, name)
    ensures HeldByOther(t, key, name) <==> LaneHolds(t, key, name)
  {}

  /**
   A lane is created under the name of a conversation, since only lanes are asked for it; the store is as it should be.
   The conversation then keeps the name, whoever runs: it and another live lane bear the same one.
   */
  lemma SharedNameIsKept(t: Tables, key: Key, name: string, body: BodyId, project: string, cwd: string, at: int,
                         running: set<Key> -> bool, keepExisting: bool, answer: Answer)
    requires Consistent(t) && Holds(t.records, key, name) && ValidName(name)
    requires body !in t.lanes
    requires forall b | b in t.lanes :: t.lanes[b].state == Destroyed || t.lanes[b].name != Some(name)
    ensures CreateLane(t, body, Some(name), project, cwd, at).outcome == Done
    ensures var t' := CreateLane(t, body, Some(name), project, cwd, at).tables;
            && Consistent(t') && key in t'.records && HeldByOther(t', key, name)
            && (Answers(t', key, running, name, keepExisting, answer) ==> answer == Keeps(name))
  {
    var t' := CreateLane(t, body, Some(name), project, cwd, at).tables;
    StepKeeps(t, OpCreateLane(body, Some(name), project, cwd, at));
    assert t'.lanes[body].name == Some(name) && OtherLane(t'.lanes[body], key);
    assert LaneHolds(t', key, name);
    assert Candidate(name, 1) == name;
    assert FirstFree(t', key, running, name, name, 1);
    if Answers(t', key, running, name, keepExisting, answer) && answer.Takes? {
      FindsOne(t', key, running, name, name, 1, answer.name, answer.attempt);
    }
  }

  /** There is such a store. */
  lemma NamesAreShared(key: Key)
    ensures var t := Tables(map[key := BlankRecord(0).(state := Stopped, name := Some("monitor"))], map[], map[]);
            Consistent(t) && Holds(t.records, key, "monitor") && ValidName("monitor")
  {}
}
