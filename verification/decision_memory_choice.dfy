/** What decides between remembered decisions, said of evidence, trust, age and source. */
module DecisionMemoryChoice {
  import opened Common
  import opened DecisionMemoryStore
  import opened DecisionMemoryMatch

  // ---------------------------------------------------------------- among equals

  /** No offer is more confident than the choice, and among the equally confident a corrected decision goes before a
      confirmed one, and both before an observed one. */
  lemma CorrectedFirst(config: Config, e: Email, cs: seq<Candidate>, best: Option<Match>, i: nat)
    requires config.Valid() && IsFirstBest(Offers(config, e, cs), best) && i < |cs| && Offer(config, e, cs[i]).Some?
    ensures best.Some?
    ensures var other, chosen := Offer(config, e, cs[i]).value, best.value;
      && other.confidence <= chosen.confidence
      && (other.confidence == chosen.confidence ==>
            && (cs[i].source == HumanCorrected ==> chosen.candidate.source == HumanCorrected)
            && (cs[i].source == HumanConfirmed ==> chosen.candidate.source != AiObserved))
  {
    OfferAt(config, e, cs, i);
    assert Offers(config, e, cs)[i].value.candidate == cs[i];
  }

  /** This candidate gave the match, and none before it is as confident and from the same source. */
  ghost predicate FirstOfItsKind(config: Config, e: Email, cs: seq<Candidate>, m: Match, i: nat)
    requires config.Valid() && i < |cs|
  {
    && cs[i] == m.candidate
    && forall j :: 0 <= j < i && Offer(config, e, cs[j]).Some? ==>
         Offer(config, e, cs[j]).value.confidence < m.confidence || cs[j].source != m.candidate.source
  }

  /** And among those equal in both the choice is the first given. */
  lemma EarliestAmongEquals(config: Config, e: Email, cs: seq<Candidate>, best: Option<Match>)
    requires config.Valid() && IsFirstBest(Offers(config, e, cs), best) && best.Some?
    ensures exists i :: 0 <= i < |cs| && FirstOfItsKind(config, e, cs, best.value, i)
  {
    var offers := Offers(config, e, cs);
    var i :| 0 <= i < |offers| && IsBestAt(offers, best, i);
    OfferAt(config, e, cs, i);
    forall j | 0 <= j < i && Offer(config, e, cs[j]).Some?
      ensures Offer(config, e, cs[j]).value.confidence < best.value.confidence || cs[j].source != best.value.candidate.source
    {
      OfferAt(config, e, cs, j);
      assert Offer(config, e, cs[j]).value.candidate == cs[j];
    }
    assert FirstOfItsKind(config, e, cs, best.value, i);
  }

  // ---------------------------------------------------------------- when a decision is a hint

  predicate Fresh(config: Config, c: Candidate) { c.ageDays.Some? && c.ageDays.value <= config.decayDays }

  predicate Old(config: Config, c: Candidate) { c.ageDays.Some? && 3 * c.ageDays.value >= 10 * config.decayDays }

  lemma OldFactor(config: Config, c: Candidate)
    requires config.Valid() && (Old(config, c) || Fresh(config, c) || c.ageDays.None?)
    ensures Decay(config, c.ageDays) == if c.ageDays.None? then 0.85 else if Fresh(config, c) then 1.0 else 0.5
  {
    if c.ageDays.Some? { DecayBounds(config, c.ageDays.value, c.ageDays.value); }
  }

  /** The match offered under each kind of evidence. */
  lemma OfferedConfidence(config: Config, e: Email, c: Candidate)
    requires config.Valid() && c.Valid() && c.enabled && ReasonFor(e, c).Some?
    ensures Offer(config, e, c).Some?
       <==> Weigh(ReasonFor(e, c).value.Base(), c.trust, Factor(config, c, ReasonFor(e, c).value)) >= config.hint
  {
    ConfidenceBounds(config, c, ReasonFor(e, c).value);
  }

  /** With the shipped hint threshold, a fully trusted enabled decision is offered: while fresh, for the same thread or
      sender, or for the same domain with a similar subject; of unknown age, only with the subject similar or equal; and
      in the end only for the thread, the sender with a similar subject, or the domain with an equal one. */
  lemma HintIff(config: Config, e: Email, c: Candidate)
    requires config.Valid() && config.hint == 0.68 && c.enabled && c.trust == 1.0
    ensures Fresh(config, c) ==>
      (Offer(config, e, c).Some? <==>
         SameThread(e, c) || SenderExact(e, c)
         || (DomainExact(e, c) && (SubjectExact(e, c) || SubjectSimilarity(e, c) >= 0.65)))
    ensures c.ageDays.None? ==>
      (Offer(config, e, c).Some? <==>
         SameThread(e, c) || (SenderExact(e, c) && (SubjectExact(e, c) || SubjectSimilarity(e, c) >= 0.80))
         || (DomainExact(e, c) && (SubjectExact(e, c) || SubjectSimilarity(e, c) >= 0.85)))
    ensures Old(config, c) && !Fresh(config, c) ==>
      (Offer(config, e, c).Some? <==>
         SameThread(e, c) || (SenderExact(e, c) && (SubjectExact(e, c) || SubjectSimilarity(e, c) >= 0.80))
         || (DomainExact(e, c) && SubjectExact(e, c)))
  {
    if ReasonFor(e, c).Some? { OfferedConfidence(config, e, c); }
    if Old(config, c) || Fresh(config, c) || c.ageDays.None? {
      OldFactor(config, c);
      HintCases(config, c, SameThread(e, c), SenderExact(e, c), DomainExact(e, c), SubjectExact(e, c), SubjectSimilarity(e, c));
    }
  }

  /** The same, of the findings alone. */
  lemma HintCases(config: Config, c: Candidate, thread: bool, sender: bool, domain: bool, subject: bool, similarity: real)
    requires config.Valid() && config.hint == 0.68 && c.trust == 1.0
    requires Decay(config, c.ageDays) == if c.ageDays.None? then 0.85 else if Fresh(config, c) then 1.0 else 0.5
    ensures var reason := Classify(thread, sender, domain, subject, similarity);
      var hinted := reason.Some? && Weigh(reason.value.Base(), c.trust, Factor(config, c, reason.value)) >= 0.68;
      if Fresh(config, c) then hinted <==> thread || sender || (domain && (subject || similarity >= 0.65))
      else if c.ageDays.None? then
        hinted <==> thread || (sender && (subject || similarity >= 0.80)) || (domain && (subject || similarity >= 0.85))
      else hinted <==> thread || (sender && (subject || similarity >= 0.80)) || (domain && subject)
  {
  }

  // ---------------------------------------------------------------- stronger evidence

  lemma ScaleStrictly(x: real, y: real, t: real)
    requires x < y && t > 0.0
    ensures x * t < y * t
  {
  }

  /** What is found about a candidate. */
  datatype Findings = Findings(thread: bool, sender: bool, domain: bool, subject: bool, similarity: real) {
    predicate SenderAlike() { sender && (subject || similarity >= 0.80) }

    predicate DomainAlike() { domain && (subject || similarity >= 0.85) }

    /** The thread, then the sender with the subject, then with a similar one, then the domain with the subject, then
        with a similar one, then the sender alone. */
    predicate Stronger(other: Findings) {
      && !other.thread
      && (|| thread
          || (sender && subject && !(other.sender && other.subject))
          || (!other.SenderAlike()
              && (|| SenderAlike()
                  || (domain && subject && !(other.domain && other.subject))
                  || (!other.DomainAlike() && (DomainAlike() || (sender && !other.sender))))))
    }

    function Reason(): Option<Reason> { Classify(thread, sender, domain, subject, similarity) }
  }

  function FindingsOf(e: Email, c: Candidate): Findings {
    Findings(SameThread(e, c), SenderExact(e, c), DomainExact(e, c), SubjectExact(e, c), SubjectSimilarity(e, c))
  }

  lemma StrongerBase(f: Findings, g: Findings)
    requires f.Stronger(g) && f.Reason().Some? && g.Reason().Some?
    ensures g.Reason().value.Base() < f.Reason().value.Base()
  {
  }

  lemma WeighFresh(base: real, trust: real)
    ensures Weigh(base, trust, 1.0) == base * trust
  {
  }

  lemma FreshConfidence(config: Config, c: Candidate, reason: Reason)
    requires config.Valid() && c.Valid() && Fresh(config, c)
    ensures Confidence(config, c, reason) == reason.Base() * c.trust
  {
    OldFactor(config, c);
    ConfidenceBounds(config, c, reason);
    WeighFresh(reason.Base(), c.trust);
  }

  lemma FreshOrder(config: Config, c: Candidate, d: Candidate, r: Reason, q: Reason)
    requires config.Valid() && c.Valid() && d.Valid() && c.trust == d.trust > 0.0 && Fresh(config, c) && Fresh(config, d)
    requires q.Base() < r.Base()
    ensures Confidence(config, d, q) < Confidence(config, c, r)
  {
    FreshConfidence(config, c, r);
    FreshConfidence(config, d, q);
    ScaleStrictly(q.Base(), r.Base(), c.trust);
  }

  lemma ScoreIsConfidence(config: Config, e: Email, c: Candidate)
    requires config.Valid() && Score(config, e, c).Some?
    ensures FindingsOf(e, c).Reason().Some?
    ensures Score(config, e, c).value.confidence == Confidence(config, c, FindingsOf(e, c).Reason().value)
  {
  }

  /** Of two fresh decisions of equal trust the one with the stronger evidence is the more confident. */
  lemma StrongerEvidence(config: Config, e: Email, c: Candidate, d: Candidate)
    requires config.Valid() && c.Valid() && d.Valid() && c.trust == d.trust > 0.0 && Fresh(config, c) && Fresh(config, d)
    requires Score(config, e, c).Some? && Score(config, e, d).Some? && FindingsOf(e, c).Stronger(FindingsOf(e, d))
    ensures Score(config, e, c).value.confidence > Score(config, e, d).value.confidence
  {
    ScoreIsConfidence(config, e, c);
    ScoreIsConfidence(config, e, d);
    StrongerBase(FindingsOf(e, c), FindingsOf(e, d));
    FreshOrder(config, c, d, FindingsOf(e, c).Reason().value, FindingsOf(e, d).Reason().value);
  }

  // ---------------------------------------------------------------- similarity

  /** Similarity is symmetric, lies between nothing and one, and is one exactly for the same nonempty words. */
  lemma SimilarityIsFair(left: string, right: string)
    ensures Similarity(left, right) == Similarity(right, left) && 0.0 <= Similarity(left, right) <= 1.0
    ensures Similarity(left, right) == 1.0 <==> TokenSet(left) == TokenSet(right) != {}
    ensures Similarity(left, right) == 0.0 <==> TokenSet(left) !! TokenSet(right)
  {
    var l, r := TokenSet(left), TokenSet(right);
    assert l * r == r * l && l + r == r + l;
    if l != {} && r != {} {
      NonemptyUnion(l, r);
      SharedCard(l, r);
      RatioBounds(|l * r|, |l + r|);
    }
  }

  lemma SharedCard(l: set<string>, r: set<string>)
    ensures |l * r| <= |l + r| && (|l * r| == |l + r| <==> l == r)
    ensures |l * r| == 0 <==> l !! r
  {
    var rest := (l + r) - (l * r);
    assert l + r == l * r + rest;
    assert |l + r| == |l * r| + |rest|;
    assert rest == {} <==> l == r;
  }

  lemma RatioBounds(a: nat, b: nat)
    requires a <= b && b > 0
    ensures 0.0 <= a as real / b as real <= 1.0
    ensures (a as real / b as real == 1.0 <==> a == b) && (a as real / b as real == 0.0 <==> a == 0)
  {
    var q := a as real / b as real;
    assert q * b as real == a as real;
  }
}
