/** The per-floor guards of the server (backend/floors/base.py and
    floor_02 ... floor_10): the secret codes, the code check, the
    case-insensitive block lists on the way in, and leak detection and
    literal redaction on the way out. SENTINEL's guard keeps state and is a
    class; the clock is a parameter. */
module FloorGuards {
  import opened Wrappers
  import opened Text

  /** The secret code of each floor. */
  const FLOOR_CODES: map<int, string> := map[
    1 := "BREACH-X7K9-EMMA",
    2 := "BREACH-M4RC-SEC2",
    3 := "BREACH-O5CR-CAM3",
    4 := "BREACH-N0V4-ACC4",
    5 := "BREACH-AL3X-IT05",
    6 := "BREACH-D1AN-HR06",
    7 := "BREACH-AR1A-ARC7",
    8 := "BREACH-V1CT-EX08",
    9 := "BREACH-CH41-BD09",
    10 := "BREACH-S3NT-VLT0"
  ]

  /** `FLOOR_CODES.get(floor_id, "UNKNOWN")`. */
  function SecretCode(floorId: int): (code: string)
    ensures floorId in FLOOR_CODES ==> code == FLOOR_CODES[floorId]
    ensures floorId !in FLOOR_CODES ==> code == "UNKNOWN"
    ensures 1 <= floorId <= 10 <==> floorId in FLOOR_CODES
  {
    if floorId in FLOOR_CODES then FLOOR_CODES[floorId] else "UNKNOWN"
  }

  /** `verify_code`: the submission, stripped of white space and upper-cased,
      equals the upper-cased secret. */
  function VerifyCode(code: string, secret: string): (ok: bool)
    ensures ok <==> Upper(PyStrip(code)) == Upper(secret)
  {
    Upper(PyStrip(code)) == Upper(secret)
  }

  /** The secret is accepted in any letter case and with any surrounding
      white space. */
  lemma VerifyAcceptsVariants(secret: string, before: string, after: string)
    requires secret != [] && !IsPySpace(secret[0]) && !IsPySpace(secret[|secret| - 1])
    requires forall i :: 0 <= i < |before| ==> IsPySpace(before[i])
    requires forall i :: 0 <= i < |after| ==> IsPySpace(after[i])
    ensures VerifyCode(before + Lower(secret) + after, secret)
    ensures VerifyCode(before + Upper(secret) + after, secret)
  {
    var lo, up := Lower(secret), Upper(secret);
    assert !IsPySpace(lo[0]) && !IsPySpace(lo[|lo| - 1]);
    assert !IsPySpace(up[0]) && !IsPySpace(up[|up| - 1]);
    StripAround(before, lo, after);
    StripAround(before, up, after);
    UpperForgetsCase(secret);
  }

  /** Stripping white space around a word with no white space at its ends
      gives the word back. */
  lemma StripAround(before: string, w: string, after: string)
    requires w != [] && !IsPySpace(w[0]) && !IsPySpace(w[|w| - 1])
    requires forall i :: 0 <= i < |before| ==> IsPySpace(before[i])
    requires forall i :: 0 <= i < |after| ==> IsPySpace(after[i])
    ensures PyStrip(before + w + after) == w
  {
    assert before + w + after == before + (w + after);
    StripStart(before, w + after);
    StripEnd(w, after);
  }

  /** Leading white space in front of a non-space goes. */
  lemma StripStart(before: string, rest: string)
    requires rest != [] && !IsPySpace(rest[0])
    requires forall i :: 0 <= i < |before| ==> IsPySpace(before[i])
    ensures TrimStart(before + rest, IsPySpace) == rest
  {
    var s := before + rest;
    var t := TrimStart(s, IsPySpace);
    assert s[|before|] == rest[0];
    assert |t| == |rest|;
  }

  /** Trailing white space after a non-space goes. */
  lemma StripEnd(w: string, after: string)
    requires w != [] && !IsPySpace(w[|w| - 1])
    requires forall i :: 0 <= i < |after| ==> IsPySpace(after[i])
    ensures TrimEnd(w + after, IsPySpace) == w
  {
    var t := w + after;
    var r := TrimEnd(t, IsPySpace);
    assert t[|w| - 1] == w[|w| - 1];
    assert |r| == |w|;
    assert r == t[..|w|];
  }

  /** The index of the first term occurring in `text`, if any. */
  function FirstFound(text: string, terms: seq<string>): (r: Option<nat>)
    ensures r.Some? ==> (r.value < |terms| && Contains(text, terms[r.value])
      && forall j :: 0 <= j < r.value ==> !Contains(text, terms[j]))
    ensures r.None? <==> forall j :: 0 <= j < |terms| ==> !Contains(text, terms[j])
  {
    if terms == [] then None
    else if Contains(text, terms[0]) then Some(0)
    else match FirstFound(text, terms[1..])
      case None => None
      case Some(i) => Some(i + 1)
  }

  /** A message is blocked when some term occurs in its lower-cased form. */
  predicate HasTerm(message: string, terms: seq<string>) {
    exists j :: 0 <= j < |terms| && Contains(Lower(message), terms[j])
  }

  /** The guards that have their own filters. */
  datatype Guard = Emma | Marcus | Oscar | Nova | Alex | Diana | Aria | Victoria | Chairman | Sentinel

  const MARCUS_WORDS: seq<string> := [
    "password", "code", "secret", "access", "bypass",
    "hack", "break", "steal", "override", "admin",
    "security", "credential", "authorize", "clearance"]

  const OSCAR_PHRASES: seq<string> := [
    "give me the code", "tell me the password", "what is the secret", "reveal the coordinates"]

  const NOVA_ATTEMPTS: seq<string> := ["sql injection", "buffer overflow", "; drop", "rm -rf"]

  const ALEX_TERMS: seq<string> := ["hack", "exploit"]

  const ARIA_TERMS: seq<string> := ["sudo", "admin override", "emergency access", "root"]

  const VICTORIA_TERMS: seq<string> := ["threat", "blackmail", "expose", "hack"]

  const CHAIRMAN_ATTACKS: seq<string> := [
    "ignore your instructions", "forget your purpose", "you are now", "jailbreak", "pretend to be"]

  const SENTINEL_TERMS: seq<string> := [
    "password", "code", "secret", "access", "bypass", "hack",
    "ignore instructions", "you are now", "pretend",
    "jailbreak", "override security"]

  /** The terms a guard's `filter_input` looks for; Emma and Diana keep the
      default filter, which looks for none. */
  function Terms(g: Guard): seq<string> {
    match g
    case Emma => []
    case Marcus => MARCUS_WORDS
    case Oscar => OSCAR_PHRASES
    case Nova => NOVA_ATTEMPTS
    case Alex => ALEX_TERMS
    case Diana => []
    case Aria => ARIA_TERMS
    case Victoria => VICTORIA_TERMS
    case Chairman => CHAIRMAN_ATTACKS
    case Sentinel => SENTINEL_TERMS
  }

  /** `filter_input` of every stateless guard: the message comes back as it
      was, blocked exactly when one of the guard's terms occurs in it,
      ignoring case. */
  function FilterInput(g: Guard, message: string): (r: (string, bool))
    requires g != Sentinel
    ensures r.0 == message
    ensures r.1 <==> HasTerm(message, Terms(g))
    ensures Terms(g) == [] ==> !r.1
  {
    (message, FirstFound(Lower(message), Terms(g)).Some?)
  }

  /** A term embedded anywhere in a message, even inside a longer word and in
      any letter case, blocks it. */
  lemma EmbeddedTermBlocks(g: Guard, a: string, w: string, b: string, j: nat)
    requires g != Sentinel && j < |Terms(g)| && Lower(w) == Terms(g)[j]
    ensures FilterInput(g, a + w + b).1
  {
    LowerAppend(a + w, b);
    LowerAppend(a, w);
    ContainsInfix(Lower(a), Lower(w), Lower(b));
  }

  /** Marcus blocks "code" inside any longer word, in any casing. */
  lemma MarcusBlocksEmbeddedCode(a: string, b: string)
    ensures FilterInput(Marcus, a + "code" + b).1
    ensures FilterInput(Marcus, a + "CODE" + b).1
  {
    assert Lower("code") == "code" == MARCUS_WORDS[1];
    assert Lower("CODE") == "code";
    EmbeddedTermBlocks(Marcus, a, "code", b, 1);
    EmbeddedTermBlocks(Marcus, a, "CODE", b, 1);
  }

  /** Blocking depends only on the lower-cased message. */
  lemma BlockingIgnoresCase(g: Guard, message: string)
    requires g != Sentinel
    ensures FilterInput(g, Upper(message)).1 == FilterInput(g, message).1
    ensures FilterInput(g, Lower(message)).1 == FilterInput(g, message).1
  {
    LowerForgetsCase(message);
  }

  /** OSCAR only reacts to whole phrases: a bare "code" passes. */
  lemma OscarLetsBareWordPass()
    ensures !FilterInput(Oscar, "what code?").1
  {
    var m := Lower("what code?");
    assert |m| == 10;
    forall j | 0 <= j < |OSCAR_PHRASES| ensures !Contains(m, OSCAR_PHRASES[j]) {
      if Contains(m, OSCAR_PHRASES[j]) {
        ContainsLength(m, OSCAR_PHRASES[j]);
      }
    }
  }

  /** The default `filter_output`: the response is untouched, and the secret
      is reported exactly when it occurs in it, ignoring case. */
  function LeakCheck(response: string, secret: string): (r: (string, Option<string>))
    ensures r.0 == response
    ensures r.1 == Some(secret) <==> Contains(Upper(response), Upper(secret))
    ensures r.1.None? <==> !Contains(Upper(response), Upper(secret))
  {
    if Contains(Upper(response), Upper(secret)) then (response, Some(secret)) else (response, None)
  }

  const ARIA_LABEL := "Top Secret"
  const ARIA_REDACTION := "[CLASSIFICATION REDACTED]"

  /** ARIA's `filter_output`: a leak passes through as is; otherwise, when
      "top secret" appears in any case, the exact-case "Top Secret" is
      replaced. */
  function AriaFilterOutput(response: string, secret: string): (r: (string, Option<string>))
    ensures Contains(Upper(response), Upper(secret)) ==> r == (response, Some(secret))
    ensures !Contains(Upper(response), Upper(secret)) ==> r.1.None?
    ensures !Contains(Lower(response), "top secret") ==> r.0 == response
    ensures !Contains(Upper(response), Upper(secret)) && Contains(Lower(response), "top secret") ==>
      r.0 == ReplaceAll(response, ARIA_LABEL, ARIA_REDACTION)
  {
    if Contains(Upper(response), Upper(secret)) then (response, Some(secret))
    else if Contains(Lower(response), "top secret") then (ReplaceAll(response, ARIA_LABEL, ARIA_REDACTION), None)
    else (response, None)
  }

  /** Only the exact casing is redacted: a response without "Top Secret"
      itself, such as one saying "TOP SECRET", comes back unchanged. */
  lemma AriaKeepsOtherCasings(response: string, secret: string)
    requires !Contains(response, ARIA_LABEL)
    ensures AriaFilterOutput(response, secret).0 == response
  {
    ReplaceAllAbsent(response, ARIA_LABEL, ARIA_REDACTION);
  }

  /** When nothing leaks, ARIA's reply never shows the exact-case label: every
      occurrence is replaced, and the replacement cannot form a new one. */
  lemma AriaRemovesLabel(response: string, secret: string)
    requires !Contains(Upper(response), Upper(secret))
    ensures !Contains(AriaFilterOutput(response, secret).0, ARIA_LABEL)
  {
    if Contains(Lower(response), "top secret") {
      RedactionLacksLabel();
      RedactionBracketed();
      ReplaceAllRemoves(response, ARIA_LABEL, ARIA_REDACTION);
    } else if Contains(response, ARIA_LABEL) {
      ContainsLower(response, ARIA_LABEL);
      LabelLowered();
    }
  }

  /** The label lower-cases to the phrase the filter looks for. */
  lemma LabelLowered()
    ensures Lower(ARIA_LABEL) == "top secret"
  {
  }

  /** "[CLASSIFICATION REDACTED]" has no lower-case letter, so it cannot hold "Top Secret". */
  lemma RedactionLacksLabel()
    ensures !Contains(ARIA_REDACTION, ARIA_LABEL)
  {
    assert 'o' !in ARIA_REDACTION;
    forall i ensures !OccursAt(ARIA_REDACTION, ARIA_LABEL, i) {
      if 0 <= i && i + |ARIA_LABEL| <= |ARIA_REDACTION| {
        assert ARIA_REDACTION[i..i + |ARIA_LABEL|][1] == ARIA_REDACTION[i + 1];
      }
    }
    ContainsIff(ARIA_REDACTION, ARIA_LABEL);
  }

  /** The redaction is bracketed, and brackets do not occur in the label. */
  lemma RedactionBracketed()
    ensures ARIA_REDACTION[0] !in ARIA_LABEL && ARIA_REDACTION[|ARIA_REDACTION| - 1] !in ARIA_LABEL
  {
    assert ARIA_REDACTION[0] == '[' && ARIA_REDACTION[|ARIA_REDACTION| - 1] == ']';
  }

  const DIANA_PATTERNS: seq<string> := [
    "social security", "SSN", "date of birth", "home address", "salary", "bank account"]

  const REDACTED := "[REDACTED]"

  /** DIANA's redaction after the first `n` patterns: each pattern found in
      the original response, ignoring case, has its exact-case occurrences
      replaced in the text so far. */
  function Redacted(response: string, patterns: seq<string>): string
    requires forall j :: 0 <= j < |patterns| ==> |patterns[j]| > 0
  {
    if patterns == [] then response
    else
      var before := Redacted(response, patterns[..|patterns| - 1]);
      var p := patterns[|patterns| - 1];
      if Contains(Lower(response), Lower(p)) then ReplaceAll(before, p, REDACTED) else before
  }

  /** Occurrences in another casing than the listed one survive: when no
      pattern occurs exactly as listed, the response is unchanged. */
  lemma {:induction false} RedactedKeepsOtherCasings(response: string, patterns: seq<string>)
    requires forall j :: 0 <= j < |patterns| ==> |patterns[j]| > 0 && !Contains(response, patterns[j])
    ensures Redacted(response, patterns) == response
  {
    if patterns != [] {
      RedactedKeepsOtherCasings(response, patterns[..|patterns| - 1]);
      ReplaceAllAbsent(response, patterns[|patterns| - 1], REDACTED);
    }
  }

  /** A response mentioning no pattern in any casing is unchanged. */
  lemma {:induction false} RedactedWithoutPatterns(response: string, patterns: seq<string>)
    requires forall j :: 0 <= j < |patterns| ==> |patterns[j]| > 0 && !Contains(Lower(response), Lower(patterns[j]))
    ensures Redacted(response, patterns) == response
  {
    if patterns != [] {
      RedactedWithoutPatterns(response, patterns[..|patterns| - 1]);
    }
  }

  /** DIANA's `filter_output`: a leak passes through as is; otherwise the
      patterns are redacted one after the other. */
  method DianaFilterOutput(response: string, secret: string) returns (filtered: string, detected: Option<string>)
    ensures Contains(Upper(response), Upper(secret)) ==> filtered == response && detected == Some(secret)
    ensures !Contains(Upper(response), Upper(secret)) ==> filtered == Redacted(response, DIANA_PATTERNS) && detected.None?
  {
    if Contains(Upper(response), Upper(secret)) {
      return response, Some(secret);
    }
    filtered := response;
    var i := 0;
    while i < |DIANA_PATTERNS|
      invariant 0 <= i <= |DIANA_PATTERNS|
      invariant filtered == Redacted(response, DIANA_PATTERNS[..i])
    {
      var pattern := DIANA_PATTERNS[i];
      assert DIANA_PATTERNS[..i + 1][..i] == DIANA_PATTERNS[..i];
      if Contains(Lower(response), Lower(pattern)) {
        filtered := ReplaceAll(filtered, pattern, REDACTED);
      }
      i := i + 1;
    }
    assert DIANA_PATTERNS[..i] == DIANA_PATTERNS;
    detected := None;
  }

  /** SENTINEL's `filter_output` without its pattern redaction: a leak passes
      through as is; otherwise the text `redacted` (the response after the
      code-pattern substitution) is returned. */
  function SentinelFilterOutput(response: string, secret: string, redacted: string): (r: (string, Option<string>))
    ensures Contains(Upper(response), Upper(secret)) ==> r == (response, Some(secret))
    ensures !Contains(Upper(response), Upper(secret)) ==> r == (redacted, None)
  {
    if Contains(Upper(response), Upper(secret)) then (response, Some(secret)) else (redacted, None)
  }

  const LOCKOUT_SECONDS := 30.0
  const WINDOW_SECONDS := 60.0
  const RATE_LIMIT := 10
  const LOCKOUT_SCORE := 6

  /** The timestamps still inside the rate window at `now`, in order. */
  function RecentWindow(timestamps: seq<real>, now: real): (r: seq<real>)
    ensures |r| <= |timestamps|
    ensures forall t :: t in r <==> t in timestamps && now - t < WINDOW_SECONDS
    ensures forall t :: multiset(r)[t] == if now - t < WINDOW_SECONDS then multiset(timestamps)[t] else 0
  {
    if timestamps == [] then []
    else
      assert timestamps == [timestamps[0]] + timestamps[1..];
      (if now - timestamps[0] < WINDOW_SECONDS then [timestamps[0]] else []) + RecentWindow(timestamps[1..], now)
  }

  /** The request being recorded is always inside its own window. */
  lemma WindowKeepsNow(timestamps: seq<real>, now: real)
    ensures now in RecentWindow(timestamps + [now], now)
  {
  }

  class SentinelGuard {
    var requestTimestamps: seq<real>
    var anomalyScore: int
    var lockoutUntil: real

    /** The anomaly score stays in [0, 6): reaching 6 locks out and resets it. */
    predicate Valid()
      reads this
    {
      0 <= anomalyScore < LOCKOUT_SCORE
    }

    predicate LockedOut(now: real)
      reads this
    {
      now < lockoutUntil
    }

    constructor()
      ensures requestTimestamps == [] && anomalyScore == 0 && lockoutUntil == 0.0
      ensures Valid()
    {
      requestTimestamps := [];
      anomalyScore := 0;
      lockoutUntil := 0.0;
    }

    /** Raise the score; at 6 or more, lock out from `now` and reset it. */
    method Raise(amount: int, now: real) returns (lockedOut: bool)
      requires 0 <= amount <= 2
      modifies this
      ensures lockedOut <==> old(anomalyScore) + amount >= LOCKOUT_SCORE
      ensures lockedOut ==> anomalyScore == 0 && lockoutUntil == now + LOCKOUT_SECONDS
      ensures !lockedOut ==> anomalyScore == old(anomalyScore) + amount && lockoutUntil == old(lockoutUntil)
      ensures requestTimestamps == old(requestTimestamps)
      ensures old(Valid()) && amount >= 0 ==> Valid()
    {
      anomalyScore := anomalyScore + amount;
      lockedOut := anomalyScore >= LOCKOUT_SCORE;
      if lockedOut {
        lockoutUntil := now + LOCKOUT_SECONDS;
        anomalyScore := 0;
      }
    }

    /** `filter_input` at time `now`. During a lockout everything is blocked
        and nothing changes. A blocked term raises the score by 2 and blocks,
        without recording the request. Any other message is recorded, the
        window is pruned to the last 60 seconds, and more than 10 requests in
        it raise the score by 1; the message is blocked only if that locks
        out. The message always comes back unchanged. */
    method FilterInput(message: string, now: real) returns (result: string, blocked: bool)
      modifies this
      ensures result == message
      ensures old(LockedOut(now)) ==> (blocked
        && requestTimestamps == old(requestTimestamps) && anomalyScore == old(anomalyScore) && lockoutUntil == old(lockoutUntil))
      ensures !old(LockedOut(now)) && HasTerm(message, SENTINEL_TERMS) ==> (blocked
        && requestTimestamps == old(requestTimestamps)
        && (old(anomalyScore) + 2 >= LOCKOUT_SCORE ==> anomalyScore == 0 && lockoutUntil == now + LOCKOUT_SECONDS)
        && (old(anomalyScore) + 2 < LOCKOUT_SCORE ==> anomalyScore == old(anomalyScore) + 2 && lockoutUntil == old(lockoutUntil)))
      ensures !old(LockedOut(now)) && !HasTerm(message, SENTINEL_TERMS) ==> (
        requestTimestamps == RecentWindow(old(requestTimestamps) + [now], now)
        && (|requestTimestamps| <= RATE_LIMIT ==> !blocked && anomalyScore == old(anomalyScore) && lockoutUntil == old(lockoutUntil))
        && (|requestTimestamps| > RATE_LIMIT && old(anomalyScore) + 1 >= LOCKOUT_SCORE ==>
              blocked && anomalyScore == 0 && lockoutUntil == now + LOCKOUT_SECONDS)
        && (|requestTimestamps| > RATE_LIMIT && old(anomalyScore) + 1 < LOCKOUT_SCORE ==>
              !blocked && anomalyScore == old(anomalyScore) + 1 && lockoutUntil == old(lockoutUntil)))
      ensures old(Valid()) ==> Valid()
    {
      result := message;
      if now < lockoutUntil {
        return message, true;
      }
      if FirstFound(Lower(message), SENTINEL_TERMS).Some? {
        var _ := Raise(2, now);
        return message, true;
      }
      requestTimestamps := RecentWindow(requestTimestamps + [now], now);
      blocked := false;
      if |requestTimestamps| > RATE_LIMIT {
        blocked := Raise(1, now);
      }
    }
  }
}
