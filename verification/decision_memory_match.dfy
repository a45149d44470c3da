/** Scoring remembered decisions against a message, and the one-pass choice of the best. Scores are exact reals;
    text is ASCII. */
module DecisionMemoryMatch {
  import opened Common
  import opened DecisionMemoryStore

  // ---------------------------------------------------------------- text

  function LowerChar(c: char): char {
    if 'A' <= c <= 'Z' then (c as int - 'A' as int + 'a' as int) as char else c
  }

  function Lower(s: string): string {
    seq(|s|, i requires 0 <= i < |s| => LowerChar(s[i]))
  }

  predicate IsSpace(c: char) { c == ' ' || '\t' <= c <= '\r' || '\U{1c}' <= c <= '\U{1f}' }

  function StripLeft(s: string): string {
    if s != "" && IsSpace(s[0]) then StripLeft(s[1..]) else s
  }

  function StripRight(s: string): string {
    if s != "" && IsSpace(s[|s| - 1]) then StripRight(s[..|s| - 1]) else s
  }

  function Strip(s: string): string { StripRight(StripLeft(s)) }

  predicate IsWordChar(c: char) { 'a' <= c <= 'z' || 'A' <= c <= 'Z' || '0' <= c <= '9' }

  function WordLength(s: string): (n: nat)
    ensures n <= |s|
  {
    if s != "" && IsWordChar(s[0]) then 1 + WordLength(s[1..]) else 0
  }

  /** Maximal runs of letters and digits. */
  function Tokens(s: string): seq<string>
    decreases |s|
  {
    if s == "" then []
    else if WordLength(s) == 0 then Tokens(s[1..])
    else [s[..WordLength(s)]] + Tokens(s[WordLength(s)..])
  }

  function JoinWords(words: seq<string>): string {
    if words == [] then "" else if |words| == 1 then words[0] else words[0] + " " + JoinWords(words[1..])
  }

  function Take(s: string, n: nat): string { if |s| <= n then s else s[..n] }

  function NormalizeSubject(s: string): string { Take(JoinWords(Tokens(Lower(s))), 500) }

  function TokenSet(s: string): set<string> { set w | w in Tokens(Lower(s)) }

  function Similarity(left: string, right: string): real {
    var l, r := TokenSet(left), TokenSet(right);
    if l == {} || r == {} then 0.0
    else
      NonemptyUnion(l, r);
      |l * r| as real / |l + r| as real
  }

  lemma NonemptyUnion(l: set<string>, r: set<string>)
    requires l != {}
    ensures |l + r| > 0
  {
    var x :| x in l;
    assert x in l + r;
  }

  // ---------------------------------------------------------------- candidates

  datatype Email = Email(sender: string, domain: string, subject: string, thread: Option<string>)

  datatype Candidate = Candidate(
    id: nat, sender: Option<string>, domain: Option<string>, subject: Option<string>, thread: Option<string>,
    decision: Decision, source: Source, trust: real, enabled: bool, ageDays: Option<nat>)
  {
    /** Construction refuses any other trust score. */
    predicate Valid() { 0.0 <= trust <= 1.0 }
  }

  datatype Config = Config(direct: real, hint: real, decayDays: nat) {
    predicate Valid() { 0.0 <= hint <= direct <= 1.0 && decayDays > 0 }
  }

  datatype Reason =
    | ThreadExact
    | SenderAndSubject
    | SenderAndSimilarSubject
    | DomainAndSubject
    | DomainAndSimilarSubject
    | SenderOnly
    | DomainAndWeakSubject
  {
    function Base(): real {
      match this
      case ThreadExact => 1.0
      case SenderAndSubject => 0.97
      case SenderAndSimilarSubject => 0.91
      case DomainAndSubject => 0.89
      case DomainAndSimilarSubject => 0.82
      case SenderOnly => 0.72
      case DomainAndWeakSubject => 0.69
    }

    predicate Decays() { SenderOnly? || DomainAndWeakSubject? || DomainAndSimilarSubject? }
  }

  datatype Match = Match(candidate: Candidate, confidence: real, canBypass: bool, reason: Reason)

  function OrEmpty(s: Option<string>): string { if s.Some? then s.value else "" }

  predicate SenderExact(e: Email, c: Candidate) {
    var own := Lower(Strip(OrEmpty(c.sender)));
    own != "" && own == Lower(Strip(e.sender))
  }

  predicate DomainExact(e: Email, c: Candidate) {
    var own := Lower(Strip(OrEmpty(c.domain)));
    own != "" && own == Lower(Strip(e.domain))
  }

  predicate SameThread(e: Email, c: Candidate) {
    OrEmpty(c.thread) != "" && OrEmpty(e.thread) != "" && Strip(OrEmpty(c.thread)) == Strip(OrEmpty(e.thread))
  }

  predicate SubjectExact(e: Email, c: Candidate) {
    var pattern := NormalizeSubject(OrEmpty(c.subject));
    pattern != "" && pattern == NormalizeSubject(e.subject)
  }

  function SubjectSimilarity(e: Email, c: Candidate): real {
    var pattern := NormalizeSubject(OrEmpty(c.subject));
    if pattern != "" then Similarity(NormalizeSubject(e.subject), pattern) else 0.0
  }

  function Classify(thread: bool, sender: bool, domain: bool, subject: bool, similarity: real): Option<Reason> {
    if thread then Some(ThreadExact)
    else if sender && subject then Some(SenderAndSubject)
    else if sender && similarity >= 0.80 then Some(SenderAndSimilarSubject)
    else if domain && subject then Some(DomainAndSubject)
    else if domain && similarity >= 0.85 then Some(DomainAndSimilarSubject)
    else if sender then Some(SenderOnly)
    else if domain && similarity >= 0.65 then Some(DomainAndWeakSubject)
    else None
  }

  function ReasonFor(e: Email, c: Candidate): Option<Reason> {
    Classify(SameThread(e, c), SenderExact(e, c), DomainExact(e, c), SubjectExact(e, c), SubjectSimilarity(e, c))
  }

  function Periods(config: Config, days: nat): real
    requires config.Valid()
  {
    days as real / config.decayDays as real
  }

  function Decay(config: Config, ageDays: Option<nat>): real
    requires config.Valid()
  {
    match ageDays
    case None => 0.85
    case Some(days) =>
      if days <= config.decayDays then 1.0
      else
        var decayed := 1.0 - 0.15 * Periods(config, days);
        if decayed < 0.50 then 0.50 else decayed
  }

  function Clamp(x: real): real { if x < 0.0 then 0.0 else if x > 1.0 then 1.0 else x }

  function Factor(config: Config, c: Candidate, reason: Reason): real
    requires config.Valid()
  {
    if reason.Decays() then Decay(config, c.ageDays) else 1.0
  }

  function Weigh(base: real, trust: real, factor: real): real { base * trust * factor }

  function Confidence(config: Config, c: Candidate, reason: Reason): real
    requires config.Valid()
  {
    Clamp(Weigh(reason.Base(), c.trust, Factor(config, c, reason)))
  }

  function MatchFor(config: Config, c: Candidate, reason: Option<Reason>): Option<Match>
    requires config.Valid()
  {
    match reason
    case None => None
    case Some(r) =>
      var confidence := Confidence(config, c, r);
      Some(Match(c, confidence, c.source.Trusted() && confidence >= config.direct, r))
  }

  function Score(config: Config, e: Email, c: Candidate): Option<Match>
    requires config.Valid()
  {
    MatchFor(config, c, ReasonFor(e, c))
  }

  function Rank(s: Source): nat {
    match s
    case AiObserved => 0
    case HumanConfirmed => 1
    case HumanCorrected => 2
  }

  // ---------------------------------------------------------------- decay and direct reuse

  lemma ScaleUp(x: real, y: real, d: real)
    requires x < y && d > 0.0
    ensures x * d < y * d
  {
  }

  /** Comparing quotients by cross-multiplying. */
  lemma Quotients(a: real, b: real, c: real, d: real)
    requires b > 0.0 && d > 0.0 && a * d <= c * b
    ensures a / b <= c / d
  {
    var x, y := a / b, c / d;
    assert x * b == a && y * d == c;
    assert x * (b * d) == a * d && y * (b * d) == c * b;
    if x > y { ScaleUp(y, x, b * d); }
  }

  lemma RatioMonotone(a: nat, b: nat, d: nat)
    requires a <= b && d > 0
    ensures a as real / d as real <= b as real / d as real
  {
    if a < b { ScaleUp(a as real, b as real, d as real); }
    Quotients(a as real, d as real, b as real, d as real);
  }

  lemma ScaleNoLess(x: real, y: real, d: real)
    requires x <= y && d > 0.0
    ensures x * d <= y * d
  {
  }

  lemma TenThirds(a: real, d: real)
    requires d > 0.0
    ensures a / d >= 10.0 / 3.0 <==> 3.0 * a >= 10.0 * d
  {
    var p := a / d;
    assert p * d == a;
    if p >= 10.0 / 3.0 {
      ScaleNoLess(10.0 / 3.0, p, d);
    } else {
      ScaleUp(p, 10.0 / 3.0, d);
    }
    assert (10.0 / 3.0) * d * 3.0 == 10.0 * d;
  }

  lemma PeriodsGrow(config: Config, young: nat, aged: nat)
    requires config.Valid() && young <= aged
    ensures 0.0 <= Periods(config, young) <= Periods(config, aged)
    ensures Periods(config, aged) >= 10.0 / 3.0 <==> 3 * aged >= 10 * config.decayDays
  {
    RatioMonotone(young, aged, config.decayDays);
    RatioMonotone(0, young, config.decayDays);
    TenThirds(aged as real, config.decayDays as real);
  }

  /** Decay stays between one half and one, never grows with age, and reaches one half at ten thirds of the
      decay period. */
  lemma DecayBounds(config: Config, young: nat, aged: nat)
    requires config.Valid() && young <= aged
    ensures 0.5 <= Decay(config, Some(aged)) <= Decay(config, Some(young)) <= 1.0
    ensures 0.5 <= Decay(config, None) <= 1.0
    ensures aged > config.decayDays ==> (Decay(config, Some(aged)) == 0.5 <==> 3 * aged >= 10 * config.decayDays)
  {
    PeriodsGrow(config, young, aged);
  }

  lemma FactorBounds(config: Config, c: Candidate, reason: Reason)
    requires config.Valid()
    ensures 0.0 <= Factor(config, c, reason) <= 1.0
    ensures !reason.Decays() ==> Factor(config, c, reason) == 1.0
  {
    if c.ageDays.Some? { DecayBounds(config, 0, c.ageDays.value); } else { DecayBounds(config, 0, 0); }
  }

  lemma Shrink(x: real, y: real)
    requires 0.0 <= x && 0.0 <= y <= 1.0
    ensures 0.0 <= x * y <= x
  {
  }

  lemma WeighBounds(base: real, trust: real, factor: real)
    requires 0.0 <= base <= 1.0 && 0.0 <= trust <= 1.0 && 0.0 <= factor <= 1.0
    ensures 0.0 <= Clamp(Weigh(base, trust, factor)) == Weigh(base, trust, factor) <= base
    ensures Weigh(base, trust, factor) <= trust
  {
    Shrink(trust, base);
    Shrink(base, trust);
    Shrink(base * trust, factor);
  }

  /** No confidence exceeds the reason's own score or the trust of the entry; clamping never acts. */
  lemma ConfidenceBounds(config: Config, c: Candidate, reason: Reason)
    requires config.Valid() && c.Valid()
    ensures 0.0 <= Confidence(config, c, reason) <= reason.Base()
    ensures Confidence(config, c, reason) <= c.trust
    ensures Confidence(config, c, reason) == Weigh(reason.Base(), c.trust, Factor(config, c, reason))
  {
    FactorBounds(config, c, reason);
    WeighBounds(reason.Base(), c.trust, Factor(config, c, reason));
  }

  lemma DirectReuseOf(config: Config, c: Candidate, thread: bool, sender: bool, domain: bool, subject: bool, similarity: real)
    requires config.Valid() && config.direct > 0.91 && c.Valid()
    ensures var m := MatchFor(config, c, Classify(thread, sender, domain, subject, similarity));
      m.Some? && m.value.canBypass
      <==> (c.source.Trusted()
            && (if thread then c.trust >= config.direct else sender && subject && 0.97 * c.trust >= config.direct))
  {
    var reason := Classify(thread, sender, domain, subject, similarity);
    if reason.Some? {
      ConfidenceBounds(config, c, reason.value);
      FactorBounds(config, c, reason.value);
    }
  }

  /** With a reuse threshold above 0.91 a decision is reused directly exactly when a human gave it and the thread
      is the same, or the sender and the subject are, with trust enough to clear the threshold. */
  lemma DirectReuseIff(config: Config, e: Email, c: Candidate)
    requires config.Valid() && config.direct > 0.91 && c.Valid()
    ensures Score(config, e, c).Some? && Score(config, e, c).value.canBypass
       <==> (c.source.Trusted()
             && (if SameThread(e, c) then c.trust >= config.direct
                 else SenderExact(e, c) && SubjectExact(e, c) && 0.97 * c.trust >= config.direct))
  {
    DirectReuseOf(config, c, SameThread(e, c), SenderExact(e, c), DomainExact(e, c), SubjectExact(e, c), SubjectSimilarity(e, c));
  }

  // ---------------------------------------------------------------- the choice

  /** The match a candidate offers, if it may be chosen. */
  function Offer(config: Config, e: Email, c: Candidate): Option<Match>
    requires config.Valid()
  {
    var scored := Score(config, e, c);
    if c.enabled && scored.Some? && scored.value.confidence >= config.hint then scored else None
  }

  /** Lexicographic: confidence, then source rank. */
  predicate Above(m: Match, n: Match) {
    m.confidence > n.confidence
    || (m.confidence == n.confidence && Rank(m.candidate.source) > Rank(n.candidate.source))
  }

  /** Offer `i` is `best`: nothing is above it, and everything before it is below. */
  ghost predicate IsBestAt(offers: seq<Option<Match>>, best: Option<Match>, i: nat)
    requires best.Some? && i < |offers|
  {
    offers[i] == best && forall j :: 0 <= j < |offers| && offers[j].Some? ==>
      if j < i then Above(best.value, offers[j].value) else !Above(offers[j].value, best.value)
  }

  ghost predicate BestSoFar(offers: seq<Option<Match>>, best: Option<Match>, at: nat) {
    if best.None? then forall j :: 0 <= j < |offers| ==> offers[j].None? else at < |offers| && IsBestAt(offers, best, at)
  }

  lemma BestExtends(offers: seq<Option<Match>>, best: Option<Match>, at: nat, x: Option<Match>)
    requires BestSoFar(offers, best, at)
    ensures if x.Some? && (best.None? || Above(x.value, best.value)) then BestSoFar(offers + [x], x, |offers|)
            else BestSoFar(offers + [x], best, at)
  {
    if x.Some? && best.Some? && Above(x.value, best.value) {
      forall j | 0 <= j < |offers| && offers[j].Some? ensures Above(x.value, offers[j].value) {
        assert if j < at then Above(best.value, offers[j].value) else !Above(offers[j].value, best.value);
      }
    }
  }

  /** The first of the maximal offers, or none if there is no offer. */
  ghost predicate IsFirstBest(offers: seq<Option<Match>>, best: Option<Match>) {
    if best.None? then forall i :: 0 <= i < |offers| ==> offers[i].None?
    else exists i :: 0 <= i < |offers| && IsBestAt(offers, best, i)
  }

  lemma BestInTheEnd(offers: seq<Option<Match>>, best: Option<Match>, at: nat)
    requires BestSoFar(offers, best, at)
    ensures IsFirstBest(offers, best)
  {
  }

  ghost function Offers(config: Config, e: Email, cs: seq<Candidate>): (offers: seq<Option<Match>>)
    requires config.Valid()
    ensures |offers| == |cs|
  {
    if cs == [] then [] else Offers(config, e, cs[..|cs| - 1]) + [Offer(config, e, cs[|cs| - 1])]
  }

  /** Offer by offer. */
  lemma {:induction false} OfferAt(config: Config, e: Email, cs: seq<Candidate>, i: nat)
    requires config.Valid() && i < |cs|
    ensures Offers(config, e, cs)[i] == Offer(config, e, cs[i])
    decreases |cs|
  {
    if i < |cs| - 1 { OfferAt(config, e, cs[..|cs| - 1], i); }
  }

  method Consider(config: Config, e: Email, c: Candidate) returns (offer: Option<Match>)
    requires config.Valid()
    ensures offer == Offer(config, e, c)
  {
    if !c.enabled { return None; }
    var scored := Score(config, e, c);
    if scored.None? || scored.value.confidence < config.hint { return None; }
    return scored;
  }

  method Replaces(scored: Match, best: Option<Match>) returns (better: bool)
    ensures better <==> best.None? || Above(scored, best.value)
  {
    if best.None? || scored.confidence > best.value.confidence { return true; }
    better := scored.confidence == best.value.confidence
              && Rank(scored.candidate.source) > Rank(best.value.candidate.source);
  }

  /** One turn of the loop: the offer of one candidate against the best so far. */
  method Compare(best: Option<Match>, scored: Option<Match>, k: nat, ghost offers: seq<Option<Match>>, ghost at: nat)
    returns (kept: Option<Match>, ghost keptAt: nat)
    requires k == |offers| && BestSoFar(offers, best, at)
    ensures BestSoFar(offers + [scored], kept, keptAt)
  {
    kept, keptAt := best, at;
    BestExtends(offers, best, at, scored);
    if scored.Some? {
      var better := Replaces(scored.value, best);
      if better { kept, keptAt := scored, k; }
    }
  }

  method FindMatch(config: Config, e: Email, cs: seq<Candidate>) returns (best: Option<Match>)
    requires config.Valid()
    ensures IsFirstBest(Offers(config, e, cs), best)
  {
    best := None;
    ghost var at: nat := 0;
    for k := 0 to |cs|
      invariant BestSoFar(Offers(config, e, cs[..k]), best, at)
    {
      assert cs[..k + 1][..k] == cs[..k];
      var scored := Consider(config, e, cs[k]);
      best, at := Compare(best, scored, k, Offers(config, e, cs[..k]), at);
    }
    assert cs[..|cs|] == cs;
    BestInTheEnd(Offers(config, e, cs), best, at);
  }

  /** The choice is determined. */
  lemma FirstBestUnique(offers: seq<Option<Match>>, a: Option<Match>, b: Option<Match>)
    requires IsFirstBest(offers, a) && IsFirstBest(offers, b)
    ensures a == b
  {
  }

  lemma NotBelow(xs: seq<Option<Match>>, ys: seq<Option<Match>>, a: Option<Match>, b: Option<Match>)
    requires IsFirstBest(xs, a) && IsFirstBest(ys, b) && forall x <- xs :: x in ys
    ensures a.Some? ==> b.Some? && !Above(a.value, b.value)
  {
    if a.Some? {
      assert a in ys;
      var j :| 0 <= j < |ys| && ys[j] == a;
    }
  }

  /** Confidence and source rank of the choice do not depend on the order of the candidates, nor on repeats. */
  lemma OrderDoesNotMatter(
    config: Config, e: Email, cs: seq<Candidate>, ds: seq<Candidate>, a: Option<Match>, b: Option<Match>)
    requires config.Valid() && IsFirstBest(Offers(config, e, cs), a) && IsFirstBest(Offers(config, e, ds), b)
    requires forall c :: c in cs <==> c in ds
    ensures a.Some? <==> b.Some?
    ensures a.Some? ==> a.value.confidence == b.value.confidence
                        && Rank(a.value.candidate.source) == Rank(b.value.candidate.source)
  {
    SameOffers(config, e, cs, ds);
    SameOffers(config, e, ds, cs);
    NotBelow(Offers(config, e, cs), Offers(config, e, ds), a, b);
    NotBelow(Offers(config, e, ds), Offers(config, e, cs), b, a);
  }

  lemma SameOffers(config: Config, e: Email, cs: seq<Candidate>, ds: seq<Candidate>)
    requires config.Valid() && forall c <- cs :: c in ds
    ensures forall x <- Offers(config, e, cs) :: x in Offers(config, e, ds)
  {
    forall x <- Offers(config, e, cs) ensures x in Offers(config, e, ds) {
      var i :| 0 <= i < |cs| && Offers(config, e, cs)[i] == x;
      OfferAt(config, e, cs, i);
      assert cs[i] in ds;
      var j :| 0 <= j < |ds| && ds[j] == cs[i];
      OfferAt(config, e, ds, j);
    }
  }

  // ---------------------------------------------------------------- reuse of stored decisions

  function ToCandidate(id: nat, entry: Entry, ageDays: Option<nat>): Candidate {
    Candidate(id, entry.key.sender, entry.key.domain, entry.key.subject, entry.key.thread,
      entry.decision, entry.source, entry.trust, entry.enabled, ageDays)
  }

  /** Candidates read from the store for one account. */
  ghost predicate ReadFrom(entries: Entries, account: string, cs: seq<Candidate>) {
    forall c <- cs ::
      c.id in entries && entries[c.id].account == account && c == ToCandidate(c.id, entries[c.id], c.ageDays)
  }

  /** Whatever the calls before it, a direct reuse repeats the latest human decision recorded for this account
      and the matched identity. */
  lemma ReuseRepeatsLatestDecision(
    config: Config, e: Email, calls: seq<Call>, account: string, cs: seq<Candidate>, best: Option<Match>)
    requires config.Valid() && ReadFrom(Exec(map[], calls), account, cs)
    requires IsFirstBest(Offers(config, e, cs), best) && best.Some? && best.value.canBypass
    ensures var c := best.value.candidate;
      var identity := (account, Key(c.sender, c.domain, c.subject, c.thread));
      && identity in Recorded(map[], map[], calls) && Recorded(map[], map[], calls)[identity] == c.decision
  {
    EntriesFollowLatestDecision(map[], map[], calls);
    var c := best.value.candidate;
    var i :| 0 <= i < |cs| && Offers(config, e, cs)[i] == best;
    OfferAt(config, e, cs, i);
    assert cs[i] == c && c in cs;
    assert Exec(map[], calls)[c.id].Authoritative();
  }

  // ---------------------------------------------------------------- cleaning a stored key

  function CleanLimited(value: Option<string>, limit: nat): Option<string> {
    var cleaned := Strip(OrEmpty(value));
    if cleaned == "" then None else Some(Take(cleaned, limit))
  }

  predicate Trimmed(s: string) { s != "" ==> !IsSpace(s[0]) && !IsSpace(s[|s| - 1]) }

  lemma {:induction false} StripLeftTrims(s: string)
    ensures StripLeft(s) != "" ==> !IsSpace(StripLeft(s)[0])
  {
    if s != "" && IsSpace(s[0]) { StripLeftTrims(s[1..]); }
  }

  lemma {:induction false} StripRightTrims(s: string)
    ensures StripRight(s) <= s
    ensures StripRight(s) != "" ==> !IsSpace(StripRight(s)[|StripRight(s)| - 1])
    ensures s != "" && !IsSpace(s[0]) ==> StripRight(s) != ""
  {
    if s != "" && IsSpace(s[|s| - 1]) { StripRightTrims(s[..|s| - 1]); }
  }

  lemma StripTrims(s: string)
    ensures Trimmed(Strip(s))
  {
    StripLeftTrims(s);
    StripRightTrims(StripLeft(s));
  }

  /** Cleaning a cleaned key again changes it exactly when the cut fell just after white space: writing an
      entry's own key back then gives it another identity. */
  lemma CleanTwice(value: Option<string>, limit: nat)
    requires limit > 0
    ensures var once, cleaned := CleanLimited(value, limit), Strip(OrEmpty(value));
      CleanLimited(once, limit) != once <==> |cleaned| > limit && IsSpace(cleaned[limit - 1])
  {
    var cleaned := Strip(OrEmpty(value));
    StripTrims(OrEmpty(value));
    var once := Take(cleaned, limit);
    if once != "" { StripRightTrims(once); }
  }
}
