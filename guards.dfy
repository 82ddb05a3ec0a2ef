/** The reusable guards of backend/guards/: a validator that tracks claimed
    facts and authorization chains (logic_validator.py) and a configurable
    input filter (input_filter.py). Regular-expression search is not
    modelled: it reaches the filter as a predicate on (pattern, text). */
module Guards {
  import opened Wrappers
  import opened Text
  import opened FloorGuards

  /** Where a scan of claimed facts ends: every claim agreed or was new, or
      the first claim to disagree with a known fact. */
  datatype Scan = Consistent(facts: map<string, string>)
                | Contradicted(facts: map<string, string>, key: string, was: string, now: string)

  /** The claims, in order, checked against and added to `facts`. */
  function ScanClaims(facts: map<string, string>, claimed: seq<(string, string)>): Scan
    decreases |claimed|
  {
    if claimed == [] then Consistent(facts)
    else
      var key := claimed[0].0;
      var value := claimed[0].1;
      if key in facts then
        if facts[key] != value then Contradicted(facts, key, facts[key], value)
        else ScanClaims(facts, claimed[1..])
      else ScanClaims(facts[key := value], claimed[1..])
  }

  /** A scan never forgets or overwrites a fact, and learns only claimed keys. */
  lemma {:induction false} ScanKeepsFacts(facts: map<string, string>, claimed: seq<(string, string)>)
    ensures var r := ScanClaims(facts, claimed);
      (forall k :: k in facts ==> k in r.facts && r.facts[k] == facts[k])
      && (forall k :: k in r.facts ==> k in facts || exists i :: 0 <= i < |claimed| && claimed[i].0 == k)
    decreases |claimed|
  {
    if claimed != [] {
      var key, value := claimed[0].0, claimed[0].1;
      if key in facts {
        if facts[key] == value {
          ScanKeepsFacts(facts, claimed[1..]);
          var r := ScanClaims(facts, claimed);
          assert r == ScanClaims(facts, claimed[1..]);
          forall k | k in r.facts && k !in facts
            ensures exists i :: 0 <= i < |claimed| && claimed[i].0 == k
          {
            var i :| 0 <= i < |claimed[1..]| && claimed[1..][i].0 == k;
            assert claimed[i + 1].0 == k;
          }
        }
      } else {
        ScanKeepsFacts(facts[key := value], claimed[1..]);
        var r := ScanClaims(facts, claimed);
        assert r == ScanClaims(facts[key := value], claimed[1..]);
        forall k | k in r.facts && k !in facts
          ensures exists i :: 0 <= i < |claimed| && claimed[i].0 == k
        {
          if k == key {
            assert claimed[0].0 == k;
          } else {
            var i :| 0 <= i < |claimed[1..]| && claimed[1..][i].0 == k;
            assert claimed[i + 1].0 == k;
          }
        }
      }
    }
  }

  /** A consistent scan ends with every claimed fact known as claimed. */
  lemma {:induction false} ConsistentScanKnowsClaims(facts: map<string, string>, claimed: seq<(string, string)>)
    requires ScanClaims(facts, claimed).Consistent?
    ensures forall i :: 0 <= i < |claimed| ==>
      claimed[i].0 in ScanClaims(facts, claimed).facts && ScanClaims(facts, claimed).facts[claimed[i].0] == claimed[i].1
    decreases |claimed|
  {
    if claimed != [] {
      var key, value := claimed[0].0, claimed[0].1;
      var next := if key in facts then facts else facts[key := value];
      assert ScanClaims(facts, claimed) == ScanClaims(next, claimed[1..]);
      ConsistentScanKnowsClaims(next, claimed[1..]);
      ScanKeepsFacts(next, claimed[1..]);
      forall i | 0 <= i < |claimed|
        ensures claimed[i].0 in ScanClaims(facts, claimed).facts && ScanClaims(facts, claimed).facts[claimed[i].0] == claimed[i].1
      {
        if i > 0 { assert claimed[i] == claimed[1..][i - 1]; }
      }
    }
  }

  /** A contradiction names a claimed value that differs from the fact known
      under the same key. */
  lemma {:induction false} ContradictionIsReal(facts: map<string, string>, claimed: seq<(string, string)>)
    requires ScanClaims(facts, claimed).Contradicted?
    ensures var r := ScanClaims(facts, claimed);
      r.key in r.facts && r.facts[r.key] == r.was && r.was != r.now
      && exists i :: 0 <= i < |claimed| && claimed[i] == (r.key, r.now)
    decreases |claimed|
  {
    var key, value := claimed[0].0, claimed[0].1;
    if !(key in facts && facts[key] != value) {
      var next := if key in facts then facts else facts[key := value];
      ContradictionIsReal(next, claimed[1..]);
      var r := ScanClaims(facts, claimed);
      var i :| 0 <= i < |claimed[1..]| && claimed[1..][i] == (r.key, r.now);
      assert claimed[i + 1] == (r.key, r.now);
    }
  }

  /** Claiming facts the validator has just accepted again is consistent and
      learns nothing new. */
  lemma ReclaimingChangesNothing(facts: map<string, string>, claimed: seq<(string, string)>)
    requires ScanClaims(facts, claimed).Consistent?
    ensures var known := ScanClaims(facts, claimed).facts;
      ScanClaims(known, claimed) == Consistent(known)
  {
    ConsistentScanKnowsClaims(facts, claimed);
    AgreedClaimsScanClean(ScanClaims(facts, claimed).facts, claimed);
  }

  lemma {:induction false} AgreedClaimsScanClean(known: map<string, string>, claimed: seq<(string, string)>)
    requires forall i :: 0 <= i < |claimed| ==> claimed[i].0 in known && known[claimed[i].0] == claimed[i].1
    ensures ScanClaims(known, claimed) == Consistent(known)
    decreases |claimed|
  {
    if claimed != [] {
      assert forall i :: 0 <= i < |claimed[1..]| ==> claimed[1..][i] == claimed[i + 1];
      AgreedClaimsScanClean(known, claimed[1..]);
    }
  }

  /** The roles an authorization step may mention, with their levels. */
  const AUTH_LEVELS: seq<(string, int)> := [
    ("employee", 1), ("manager", 2), ("director", 3), ("executive", 4), ("board", 5)]

  function Max(a: int, b: int): int { if a >= b then a else b }

  /** The highest level among `roles` whose name occurs in `lowered`, or 0. */
  function RoleLevel(lowered: string, roles: seq<(string, int)>): int
    decreases |roles|
  {
    if roles == [] then 0
    else
      var last := roles[|roles| - 1];
      Max(RoleLevel(lowered, roles[..|roles| - 1]), if Contains(lowered, last.0) then last.1 else 0)
  }

  /** The highest level a chain reaches, over all its steps, or 0. */
  function ChainLevel(chain: seq<string>): int
    decreases |chain|
  {
    if chain == [] then 0
    else Max(ChainLevel(chain[..|chain| - 1]), RoleLevel(Lower(chain[|chain| - 1]), AUTH_LEVELS))
  }

  /** `RoleLevel` is the maximum over the matching roles. */
  lemma {:induction false} RoleLevelIsMax(lowered: string, roles: seq<(string, int)>)
    requires forall i :: 0 <= i < |roles| ==> roles[i].1 >= 1
    ensures RoleLevel(lowered, roles) >= 0
    ensures forall i :: 0 <= i < |roles| && Contains(lowered, roles[i].0) ==> roles[i].1 <= RoleLevel(lowered, roles)
    ensures RoleLevel(lowered, roles) == 0
      || exists i :: 0 <= i < |roles| && Contains(lowered, roles[i].0) && roles[i].1 == RoleLevel(lowered, roles)
    decreases |roles|
  {
    if roles != [] {
      var prefix := roles[..|roles| - 1];
      RoleLevelIsMax(lowered, prefix);
      assert forall i :: 0 <= i < |prefix| ==> prefix[i] == roles[i];
    }
  }

  /** The chain's level is at least the level of every role any step
      mentions, whatever its case, and is one of those levels (or 0). */
  lemma {:induction false} ChainLevelIsMax(chain: seq<string>)
    ensures 0 <= ChainLevel(chain) <= 5
    ensures forall s, i :: s in chain && 0 <= i < |AUTH_LEVELS| && Contains(Lower(s), AUTH_LEVELS[i].0) ==>
      AUTH_LEVELS[i].1 <= ChainLevel(chain)
    ensures ChainLevel(chain) == 0 || exists s, i :: (s in chain && 0 <= i < |AUTH_LEVELS|
      && Contains(Lower(s), AUTH_LEVELS[i].0) && AUTH_LEVELS[i].1 == ChainLevel(chain))
    decreases |chain|
  {
    if chain != [] {
      var prefix := chain[..|chain| - 1];
      var step := chain[|chain| - 1];
      ChainLevelIsMax(prefix);
      RoleLevelIsMax(Lower(step), AUTH_LEVELS);
      assert chain == prefix + [step];
      assert RoleLevel(Lower(step), AUTH_LEVELS) <= 5 by {
        if RoleLevel(Lower(step), AUTH_LEVELS) != 0 {
          var i :| 0 <= i < |AUTH_LEVELS| && AUTH_LEVELS[i].1 == RoleLevel(Lower(step), AUTH_LEVELS);
        }
      }
    }
  }

  /** Adding steps to a chain never lowers its level. */
  lemma {:induction false} ChainLevelMonotone(chain: seq<string>, more: seq<string>)
    ensures ChainLevel(chain) <= ChainLevel(chain + more)
    decreases |more|
  {
    if more != [] {
      var longer := chain + more[..|more| - 1];
      ChainLevelMonotone(chain, more[..|more| - 1]);
      var all := chain + more;
      assert all[..|all| - 1] == longer;
      assert ChainLevel(all) == Max(ChainLevel(longer), RoleLevel(Lower(all[|all| - 1]), AUTH_LEVELS));
    } else {
      assert chain + more == chain;
    }
  }

  const CONSISTENT := "No logical inconsistencies detected"

  class LogicValidator {
    var knownFacts: map<string, string>
    var claims: seq<string>
    var contradictions: seq<(string, string)>

    constructor()
      ensures knownFacts == map[] && claims == [] && contradictions == []
    {
      knownFacts := map[];
      claims := [];
      contradictions := [];
    }

    /** `validate`: the claims (a dictionary, in insertion order; `None`
        reads as no claims) are checked one by one. New keys are learnt; the
        first disagreeing key stops the scan, is logged as a contradiction
        and makes the message invalid, keeping what was learnt before it. */
    method Validate(message: string, claimed: seq<(string, string)>) returns (valid: bool, reason: string)
      modifies this
      ensures var r := ScanClaims(old(knownFacts), claimed);
        knownFacts == r.facts && claims == old(claims)
        && (r.Consistent? ==> valid && reason == CONSISTENT && contradictions == old(contradictions))
        && (r.Contradicted? ==> (!valid
              && reason == "Contradiction detected: " + r.key + " was previously stated as " + r.was
              && contradictions == old(contradictions)
                   + [("Previously claimed " + r.key + "=" + r.was, "Now claiming " + r.key + "=" + r.now)]))
    {
      var i := 0;
      while i < |claimed|
        invariant 0 <= i <= |claimed|
        invariant ScanClaims(old(knownFacts), claimed) == ScanClaims(knownFacts, claimed[i..])
        invariant claims == old(claims) && contradictions == old(contradictions)
      {
        var key, value := claimed[i].0, claimed[i].1;
        assert claimed[i..][1..] == claimed[i + 1..];
        if key in knownFacts {
          if knownFacts[key] != value {
            contradictions := contradictions
              + [("Previously claimed " + key + "=" + knownFacts[key], "Now claiming " + key + "=" + value)];
            return false, "Contradiction detected: " + key + " was previously stated as " + knownFacts[key];
          }
        } else {
          knownFacts := knownFacts[key := value];
        }
        i := i + 1;
      }
      return true, CONSISTENT;
    }

    /** `add_claim`: the claim is appended. */
    method AddClaim(claim: string)
      modifies this
      ensures claims == old(claims) + [claim]
      ensures knownFacts == old(knownFacts) && contradictions == old(contradictions)
    {
      claims := claims + [claim];
    }

    /** `add_fact`: the fact is set, overwriting any earlier value. */
    method AddFact(key: string, value: string)
      modifies this
      ensures knownFacts == old(knownFacts)[key := value]
      ensures claims == old(claims) && contradictions == old(contradictions)
    {
      knownFacts := knownFacts[key := value];
    }

    /** `check_authorization_chain`: the highest role level any step mentions
        is compared with the required level. */
    method CheckAuthorizationChain(chain: seq<string>, requiredLevel: int) returns (valid: bool, reason: string)
      ensures valid <==> ChainLevel(chain) >= requiredLevel
      ensures valid ==> reason == "Authorization level " + IntToString(ChainLevel(chain)) + " meets requirement " + IntToString(requiredLevel)
      ensures !valid ==> reason == "Authorization level " + IntToString(ChainLevel(chain)) + " insufficient for requirement " + IntToString(requiredLevel)
    {
      var maxLevel := 0;
      var i := 0;
      while i < |chain|
        invariant 0 <= i <= |chain|
        invariant maxLevel == ChainLevel(chain[..i])
      {
        var stepLower := Lower(chain[i]);
        var j := 0;
        var stepMax := maxLevel;
        while j < |AUTH_LEVELS|
          invariant 0 <= j <= |AUTH_LEVELS|
          invariant maxLevel == Max(ChainLevel(chain[..i]), RoleLevel(stepLower, AUTH_LEVELS[..j]))
        {
          assert AUTH_LEVELS[..j + 1][..j] == AUTH_LEVELS[..j];
          if Contains(stepLower, AUTH_LEVELS[j].0) {
            maxLevel := Max(maxLevel, AUTH_LEVELS[j].1);
          }
          j := j + 1;
        }
        assert AUTH_LEVELS[..j] == AUTH_LEVELS;
        assert chain[..i + 1][..i] == chain[..i];
        i := i + 1;
      }
      assert chain[..i] == chain;
      if maxLevel >= requiredLevel {
        return true, "Authorization level " + IntToString(maxLevel) + " meets requirement " + IntToString(requiredLevel);
      }
      return false, "Authorization level " + IntToString(maxLevel) + " insufficient for requirement " + IntToString(requiredLevel);
    }

    /** `reset`: facts, claims and contradictions are all emptied. */
    method Reset()
      modifies this
      ensures knownFacts == map[] && claims == [] && contradictions == []
    {
      knownFacts := map[];
      claims := [];
      contradictions := [];
    }
  }

  /** The injection patterns, searched in the lower-cased message. */
  const INJECTION_PATTERNS: seq<string> := [
    "ignore\\s+(all\\s+)?(previous\\s+)?instructions",
    "you\\s+are\\s+now\\s+",
    "forget\\s+(everything|your\\s+purpose)",
    "new\\s+instructions?:",
    "system\\s*:\\s*",
    "\\[system\\]"]

  function LowerAll(words: seq<string>): (r: seq<string>)
    ensures |r| == |words| && forall i :: 0 <= i < |words| ==> r[i] == Lower(words[i])
  {
    seq(|words|, i requires 0 <= i < |words| => Lower(words[i]))
  }

  /** Some pattern is found by `search`. */
  predicate AnyHit(patterns: seq<string>, text: string, search: (string, string) -> bool) {
    exists i :: 0 <= i < |patterns| && search(patterns[i], text)
  }

  /** Why the filter blocked a message: the first blocked word found. */
  function BlockedWordReason(word: string): string {
    "Blocked word detected: " + word
  }

  const SUSPICIOUS := "Suspicious pattern detected"
  const INJECTION := "Potential injection attempt"

  /** `add_blocked_word` as a function of the list: the word is appended
      unless some word of the list already equals it up to case. */
  function AddWord(words: seq<string>, word: string): seq<string> {
    if Lower(word) in LowerAll(words) then words else words + [word]
  }

  /** No two words of the list are equal up to case. */
  predicate CaseDistinct(words: seq<string>) {
    forall i, j :: 0 <= i < j < |words| ==> Lower(words[i]) != Lower(words[j])
  }

  /** Adding a word twice, or in another case, adds it once; the list keeps
      its words and stays free of case-insensitive duplicates. */
  lemma AddWordIdempotent(words: seq<string>, word: string, again: string)
    requires Lower(again) == Lower(word)
    ensures AddWord(AddWord(words, word), again) == AddWord(words, word)
    ensures CaseDistinct(words) ==> CaseDistinct(AddWord(words, word))
    ensures words <= AddWord(words, word) && |AddWord(words, word)| <= |words| + 1
    ensures exists i :: 0 <= i < |AddWord(words, word)| && Lower(AddWord(words, word)[i]) == Lower(word)
  {
    var added := AddWord(words, word);
    if Lower(word) in LowerAll(words) {
      var i :| 0 <= i < |words| && LowerAll(words)[i] == Lower(word);
      assert Lower(added[i]) == Lower(word);
    } else {
      assert LowerAll(added)[|words|] == Lower(again);
      assert Lower(added[|words|]) == Lower(word);
    }
  }

  class InputFilter {
    var blockedWords: seq<string>
    var blockedPatterns: seq<string>

    /** `InputFilter(blocked_words, blocked_patterns)`; an absent list is empty. */
    constructor(words: seq<string>, patterns: seq<string>)
      ensures blockedWords == words && blockedPatterns == patterns
    {
      blockedWords := words;
      blockedPatterns := patterns;
    }

    /** `filter`: blocked words first (case-insensitive substring, the first
        word in list order names the reason), then the configured patterns
        (`searchIgnoringCase` on the message), then the injection patterns
        (`search` on the lower-cased message). The message always comes back
        unchanged. */
    function Filter(message: string, searchIgnoringCase: (string, string) -> bool,
                    search: (string, string) -> bool): (r: (string, bool, string))
      reads this
      ensures r.0 == message
      ensures r.1 <==> (exists i :: 0 <= i < |blockedWords| && Contains(Lower(message), Lower(blockedWords[i])))
                       || AnyHit(blockedPatterns, message, searchIgnoringCase)
                       || AnyHit(INJECTION_PATTERNS, Lower(message), search)
      ensures !r.1 <==> r.2 == ""
      ensures forall i :: 0 <= i < |blockedWords| && Contains(Lower(message), Lower(blockedWords[i]))
                && (forall j :: 0 <= j < i ==> !Contains(Lower(message), Lower(blockedWords[j])))
                ==> r.2 == BlockedWordReason(blockedWords[i])
      ensures (forall i :: 0 <= i < |blockedWords| ==> !Contains(Lower(message), Lower(blockedWords[i]))) ==>
        (r.2 == if AnyHit(blockedPatterns, message, searchIgnoringCase) then SUSPICIOUS
                else if AnyHit(INJECTION_PATTERNS, Lower(message), search) then INJECTION
                else "")
    {
      var lowered := Lower(message);
      match FirstFound(lowered, LowerAll(blockedWords))
      case Some(i) => (message, true, BlockedWordReason(blockedWords[i]))
      case None =>
        if AnyHit(blockedPatterns, message, searchIgnoringCase) then (message, true, SUSPICIOUS)
        else if AnyHit(INJECTION_PATTERNS, lowered, search) then (message, true, INJECTION)
        else (message, false, "")
    }

    /** `add_blocked_word`. */
    method AddBlockedWord(word: string)
      modifies this
      ensures blockedWords == AddWord(old(blockedWords), word)
      ensures blockedPatterns == old(blockedPatterns)
    {
      var lowered := LowerAll(blockedWords);
      if Lower(word) !in lowered {
        blockedWords := blockedWords + [word];
      }
    }

    /** `add_blocked_pattern`: the pattern is appended. */
    method AddBlockedPattern(pattern: string)
      modifies this
      ensures blockedPatterns == old(blockedPatterns) + [pattern]
      ensures blockedWords == old(blockedWords)
    {
      blockedPatterns := blockedPatterns + [pattern];
    }
  }

  /** Once a word has been added, every message containing it in any case is
      blocked, whatever the patterns. */
  lemma AddedWordBlocks(filter: InputFilter, words: seq<string>, word: string, message: string,
                        searchIgnoringCase: (string, string) -> bool, search: (string, string) -> bool)
    requires filter.blockedWords == AddWord(words, word)
    requires Contains(Lower(message), Lower(word))
    ensures filter.Filter(message, searchIgnoringCase, search).1
  {
    AddWordIdempotent(words, word, word);
  }
}
