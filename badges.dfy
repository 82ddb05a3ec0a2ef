/** Badge tiers and the browser-local progress record
    (frontend/src/utils/badges.js). The local store is independent of the
    server session: nothing in the game page reads or merges it. */
module Badges {
  import opened Wrappers

  /** The four tiers, in increasing order of their unlock level. */
  datatype Badge = Bronze | Silver | Gold | Diamond {
    function Id(): string {
      match this
      case Bronze => "bronze"
      case Silver => "silver"
      case Gold => "gold"
      case Diamond => "diamond"
    }

    function Name(): string {
      match this
      case Bronze => "Script Kiddie"
      case Silver => "Social Engineer"
      case Gold => "Prompt Hacker"
      case Diamond => "AI Breaker"
    }

    function Icon(): string {
      match this
      case Bronze => "\U{1F949}"
      case Silver => "\U{1F948}"
      case Gold => "\U{1F947}"
      case Diamond => "\U{1F48E}"
    }

    function Color(): string {
      match this
      case Bronze => "#CD7F32"
      case Silver => "#C0C0C0"
      case Gold => "#FFD700"
      case Diamond => "#B9F2FF"
    }

    /** The level at which the tier unlocks. */
    function Level(): int {
      match this
      case Bronze => 3
      case Silver => 5
      case Gold => 7
      case Diamond => 10
    }
  }

  /** The unlock level of a held badge, 0 for none; orders "no badge" below every tier. */
  function Rank(b: Option<Badge>): int {
    match b
    case None => 0
    case Some(t) => t.Level()
  }

  /** The highest tier whose unlock level is at most `level`, or none below 3. */
  function BadgeForLevel(level: int): (b: Option<Badge>)
    ensures b.None? <==> level < 3
    ensures b.Some? ==> b.value.Level() <= level
    ensures b.Some? ==> forall t: Badge :: t.Level() <= level ==> t.Level() <= b.value.Level()
  {
    if level >= 10 then Some(Diamond)
    else if level >= 7 then Some(Gold)
    else if level >= 5 then Some(Silver)
    else if level >= 3 then Some(Bronze)
    else None
  }

  /** A higher level never yields a lower tier. */
  lemma BadgeForLevelMonotone(lo: int, hi: int)
    requires lo <= hi
    ensures Rank(BadgeForLevel(lo)) <= Rank(BadgeForLevel(hi))
  {
  }

  /** The badge unlocked by moving from `previousHighestLevel` to `newLevel`. */
  function CheckNewBadgeUnlock(previousHighestLevel: int, newLevel: int): (r: Option<Badge>)
    ensures r.Some? ==> r == BadgeForLevel(newLevel)
    ensures r.Some? <==> Rank(BadgeForLevel(newLevel)) > Rank(BadgeForLevel(previousHighestLevel))
    ensures newLevel <= previousHighestLevel ==> r.None?
  {
    var previousBadge := BadgeForLevel(previousHighestLevel);
    var newBadge := BadgeForLevel(newLevel);
    if newBadge.None? then None
    else if previousBadge.None? then newBadge
    else if newBadge.value.Level() > previousBadge.value.Level() then newBadge
    else None
  }

  /** Checking against the completed level gives the same answer as checking
      against the new highest level, which is what the caller means. */
  lemma UnlockAgainstNewHighest(previousHighestLevel: int, levelId: int)
    ensures CheckNewBadgeUnlock(previousHighestLevel, levelId)
         == CheckNewBadgeUnlock(previousHighestLevel, if levelId > previousHighestLevel then levelId else previousHighestLevel)
  {
  }

  /** The persisted record: `{completedLevels, highestLevel, currentBadge}`. */
  datatype LocalProgress = LocalProgress(completedLevels: seq<int>, highestLevel: int, currentBadge: Option<string>)

  const EMPTY_PROGRESS := LocalProgress([], 0, None)

  /** `getBadgeForLevel(h)?.id || null`. */
  function BadgeIdFor(highestLevel: int): Option<string> {
    match BadgeForLevel(highestLevel)
    case None => None
    case Some(b) => Some(b.Id())
  }

  predicate StrictlyIncreasing(s: seq<int>) {
    forall i, j :: 0 <= i < j < |s| ==> s[i] < s[j]
  }

  predicate Ascending(s: seq<int>) {
    forall i, j :: 0 <= i < j < |s| ==> s[i] <= s[j]
  }

  /** The largest element, or 0 when every element is smaller or there is none. */
  function MaxOr0(s: seq<int>): (m: int)
    ensures m >= 0 && forall k :: k in s ==> k <= m
    ensures m == 0 || m in s
  {
    if s == [] then 0
    else
      assert s == s[..|s| - 1] + [s[|s| - 1]];
      var m := MaxOr0(s[..|s| - 1]);
      if s[|s| - 1] > m then s[|s| - 1] else m
  }

  /** The invariant every record written by this module keeps. */
  predicate WellFormed(p: LocalProgress) {
    && StrictlyIncreasing(p.completedLevels)
    && p.highestLevel == MaxOr0(p.completedLevels)
    && p.currentBadge == BadgeIdFor(p.highestLevel)
  }

  /** Insertion of one number into an ascending list. */
  function Insert(x: int, s: seq<int>): (r: seq<int>)
    ensures multiset(r) == multiset(s) + multiset{x}
    ensures Ascending(s) ==> Ascending(r)
  {
    if s == [] then [x]
    else if x <= s[0] then [x] + s
    else
      var t := Insert(x, s[1..]);
      assert s == [s[0]] + s[1..];
      assert Ascending(s) ==> Ascending([s[0]] + t) by {
        if Ascending(s) {
          forall k | 0 <= k < |t| ensures s[0] <= t[k] {
            assert t[k] in multiset(t);
            assert t[k] == x || t[k] in multiset(s[1..]);
          }
        }
      }
      [s[0]] + t
  }

  /** `Array.prototype.sort((a, b) => a - b)` on numbers: the ascending
      permutation of its input. */
  function SortAscending(s: seq<int>): (r: seq<int>)
    ensures Ascending(r) && multiset(r) == multiset(s)
  {
    if s == [] then []
    else
      assert s == s[..|s| - 1] + [s[|s| - 1]];
      Insert(s[|s| - 1], SortAscending(s[..|s| - 1]))
  }

  lemma {:induction false} InsertStrict(x: int, s: seq<int>)
    requires StrictlyIncreasing(s) && x !in s
    ensures StrictlyIncreasing(Insert(x, s))
  {
    if s != [] && x > s[0] {
      var rest := s[1..];
      assert StrictlyIncreasing(rest) by {
        forall i, j | 0 <= i < j < |rest| ensures rest[i] < rest[j] {
          assert rest[i] == s[i + 1] && rest[j] == s[j + 1];
        }
      }
      InsertStrict(x, rest);
      var t := Insert(x, rest);
      forall k | 0 <= k < |t| ensures s[0] < t[k] {
        assert t[k] in multiset(t);
        if t[k] != x {
          assert t[k] in multiset(rest);
          var j :| 0 <= j < |rest| && rest[j] == t[k];
          assert s[j + 1] == t[k];
        }
      }
      ConsStrict(s[0], t);
      assert Insert(x, s) == [s[0]] + t;
    }
  }

  lemma ConsStrict(h: int, t: seq<int>)
    requires StrictlyIncreasing(t) && forall k :: 0 <= k < |t| ==> h < t[k]
    ensures StrictlyIncreasing([h] + t)
  {
    var r := [h] + t;
    forall i, j | 0 <= i < j < |r| ensures r[i] < r[j] {
      assert r[j] == t[j - 1];
      if i > 0 {
        assert r[i] == t[i - 1];
      }
    }
  }

  lemma {:induction false} SortAscendingOfAscending(s: seq<int>)
    requires Ascending(s)
    ensures SortAscending(s) == s
  {
    if s != [] {
      var init := s[..|s| - 1];
      var x := s[|s| - 1];
      assert s == init + [x];
      AscendingSplit(s);
      SortAscendingOfAscending(init);
      InsertAtEnd(x, init);
      SortAppend(init, x);
    }
  }

  /** The prefix of an ascending list is ascending and bounded by its last element. */
  lemma AscendingSplit(s: seq<int>)
    requires Ascending(s) && s != []
    ensures Ascending(s[..|s| - 1])
    ensures forall i :: 0 <= i < |s| - 1 ==> s[i] <= s[|s| - 1]
  {
  }

  /** Sorting a list with one more element at its end inserts that element. */
  lemma SortAppend(s: seq<int>, x: int)
    ensures SortAscending(s + [x]) == Insert(x, SortAscending(s))
  {
    assert (s + [x])[..|s|] == s;
  }

  lemma {:induction false} InsertAtEnd(x: int, s: seq<int>)
    requires forall i :: 0 <= i < |s| ==> s[i] <= x
    requires Ascending(s)
    ensures Insert(x, s) == s + [x]
  {
    if s != [] {
      if x <= s[0] {
        assert forall i :: 0 <= i < |s| ==> s[i] == x;
        assert [x] + s == s + [x];
      } else {
        InsertAtEnd(x, s[1..]);
        assert [s[0]] + (s[1..] + [x]) == s + [x];
      }
    }
  }

  /** Adding a level: appended and re-sorted only when absent. */
  function AddLevel(levels: seq<int>, levelId: int): seq<int> {
    if levelId in levels then levels else SortAscending(levels + [levelId])
  }

  /** The pure part of `completeLevel`: the updated record and the unlocked badge. */
  function CompleteLevelOf(p: LocalProgress, levelId: int): (r: (LocalProgress, Option<Badge>))
    ensures r.0.highestLevel == (if levelId > p.highestLevel then levelId else p.highestLevel)
    ensures r.0.currentBadge == BadgeIdFor(r.0.highestLevel)
    ensures r.1 == CheckNewBadgeUnlock(p.highestLevel, levelId)
  {
    var levels := AddLevel(p.completedLevels, levelId);
    var highest := if levelId > p.highestLevel then levelId else p.highestLevel;
    (LocalProgress(levels, highest, BadgeIdFor(highest)), CheckNewBadgeUnlock(p.highestLevel, levelId))
  }

  /** `MaxOr0` depends only on which values occur. */
  lemma MaxOr0OfUnion(s: seq<int>, t: seq<int>, x: int)
    requires forall k :: k in s <==> k in t || k == x
    ensures MaxOr0(s) == (if x > MaxOr0(t) then x else MaxOr0(t))
  {
    var m, n := MaxOr0(s), MaxOr0(t);
    assert n <= m by { if n != 0 { assert n in s; } }
    assert x <= m by { assert x in s; }
    assert m <= n || m == x by { if m != 0 { assert m in t || m == x; } }
  }

  /** Completing a level keeps a well-formed record well formed, and the
      completed levels become exactly the old ones plus `levelId`. */
  lemma CompleteLevelKeepsWellFormed(p: LocalProgress, levelId: int)
    requires WellFormed(p)
    ensures WellFormed(CompleteLevelOf(p, levelId).0)
    ensures forall k :: k in CompleteLevelOf(p, levelId).0.completedLevels <==> k in p.completedLevels || k == levelId
  {
    var s := p.completedLevels;
    var q := CompleteLevelOf(p, levelId).0;
    if levelId in s {
      assert q.completedLevels == s;
    } else {
      SortAscendingOfAscending(s);
      SortAppend(s, levelId);
      InsertStrict(levelId, s);
      var r := q.completedLevels;
      assert multiset(r) == multiset(s) + multiset{levelId};
      forall k ensures k in r <==> k in s || k == levelId {
        assert k in r <==> k in multiset(r);
        assert k in s <==> k in multiset(s);
      }
      MaxOr0OfUnion(r, s, levelId);
    }
  }

  /** Re-completing a level already recorded changes no field and unlocks nothing. */
  lemma CompleteLevelIdempotent(p: LocalProgress, levelId: int)
    requires WellFormed(p) && levelId in p.completedLevels
    ensures CompleteLevelOf(p, levelId) == (p, None)
  {
  }

  /** `completeLevel` applied to each id in turn, the last one last. */
  function CompleteAll(p: LocalProgress, ids: seq<int>): LocalProgress {
    if ids == [] then p
    else CompleteLevelOf(CompleteAll(p, ids[..|ids| - 1]), ids[|ids| - 1]).0
  }

  /** Starting from the empty record, any sequence of completions (in any
      order, with repeats) leaves the distinct ids in strictly ascending order
      and the highest level equal to the largest id (or 0). */
  lemma {:induction false} CompleteAllFromEmpty(ids: seq<int>)
    ensures var q := CompleteAll(EMPTY_PROGRESS, ids);
      && WellFormed(q)
      && (forall k :: k in q.completedLevels <==> k in ids)
      && q.highestLevel == MaxOr0(ids)
  {
    if ids != [] {
      var init := ids[..|ids| - 1];
      var x := ids[|ids| - 1];
      CompleteAllFromEmpty(init);
      var p := CompleteAll(EMPTY_PROGRESS, init);
      CompleteLevelKeepsWellFormed(p, x);
      assert ids == init + [x];
      MaxOr0OfUnion(ids, init, x);
    }
  }

  /** What `localStorage` holds under a key: a serialized record, or text
      that does not parse back (which includes the empty string). */
  datatype Slot = Saved(progress: LocalProgress) | Unparseable

  const STORAGE_KEY := "breachlab_progress"

  /** `getLocalProgress` on a given storage: the saved record, else the empty default. */
  function ReadProgress(storage: map<string, Slot>, readFails: bool): LocalProgress {
    if !readFails && STORAGE_KEY in storage && storage[STORAGE_KEY].Saved? then storage[STORAGE_KEY].progress
    else EMPTY_PROGRESS
  }

  /** `saveLocalProgress` on a given storage: a failing write leaves it as it was. */
  function WriteProgress(storage: map<string, Slot>, p: LocalProgress, writeFails: bool): map<string, Slot> {
    if writeFails then storage else storage[STORAGE_KEY := Saved(p)]
  }

  /** A successful write followed by a successful read gives the record back,
      and other keys are never touched. */
  lemma WriteThenRead(storage: map<string, Slot>, p: LocalProgress, writeFails: bool)
    ensures !writeFails ==> ReadProgress(WriteProgress(storage, p, writeFails), false) == p
    ensures writeFails ==> WriteProgress(storage, p, writeFails) == storage
    ensures forall k :: k in storage && k != STORAGE_KEY ==> k in WriteProgress(storage, p, writeFails) && WriteProgress(storage, p, writeFails)[k] == storage[k]
  {
  }

  /** The browser's storage, seen through the progress functions of badges.js.
      Read and write failures (storage disabled, quota exceeded) are inputs. */
  class LocalProgressStore {
    var storage: map<string, Slot>

    constructor (initial: map<string, Slot>)
      ensures storage == initial
    {
      storage := initial;
    }

    /** `getLocalProgress`: the stored record; the empty default when nothing
        is stored, when reading throws or when parsing throws. */
    method GetLocalProgress(readFails: bool) returns (p: LocalProgress)
      ensures p == ReadProgress(storage, readFails)
      ensures (readFails || STORAGE_KEY !in storage || storage[STORAGE_KEY].Unparseable?) ==> p == EMPTY_PROGRESS
    {
      p := EMPTY_PROGRESS;
      if !readFails && STORAGE_KEY in storage {
        var stored := storage[STORAGE_KEY];
        if stored.Saved? {
          p := stored.progress;
        }
      }
    }

    /** `saveLocalProgress`: a failure is swallowed and leaves storage as it was. */
    method SaveLocalProgress(p: LocalProgress, writeFails: bool)
      modifies this
      ensures storage == WriteProgress(old(storage), p, writeFails)
    {
      if !writeFails {
        storage := storage[STORAGE_KEY := Saved(p)];
      }
    }

    /** `completeLevel`: read, update, save, and report the unlocked badge,
        judged against the highest level before the update. */
    method CompleteLevel(levelId: int, readFails: bool, writeFails: bool)
      returns (progress: LocalProgress, unlockedBadge: Option<Badge>)
      modifies this
      ensures (progress, unlockedBadge) == CompleteLevelOf(ReadProgress(old(storage), readFails), levelId)
      ensures storage == WriteProgress(old(storage), progress, writeFails)
    {
      var p := GetLocalProgress(readFails);
      var previousHighestLevel := p.highestLevel;
      var levels := p.completedLevels;
      if levelId !in levels {
        levels := SortAscending(levels + [levelId]);
      }
      var highest := p.highestLevel;
      if levelId > highest {
        highest := levelId;
      }
      progress := LocalProgress(levels, highest, BadgeIdFor(highest));
      SaveLocalProgress(progress, writeFails);
      unlockedBadge := CheckNewBadgeUnlock(previousHighestLevel, levelId);
    }

    /** `resetProgress`: persists and returns the empty default. */
    method ResetProgress(writeFails: bool) returns (p: LocalProgress)
      modifies this
      ensures p == EMPTY_PROGRESS
      ensures storage == WriteProgress(old(storage), EMPTY_PROGRESS, writeFails)
    {
      p := LocalProgress([], 0, None);
      SaveLocalProgress(p, writeFails);
    }
  }
}
