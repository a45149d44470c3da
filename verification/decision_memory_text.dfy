/** The text comparisons behind matching: which senders and which subjects count as the same. */
module DecisionMemoryText {
  import opened Common
  import opened DecisionMemoryStore
  import opened DecisionMemoryMatch

  // ---------------------------------------------------------------- case and white space

  predicate SameLetter(a: char, b: char) {
    a == b || ('A' <= a <= 'Z' && b as int == a as int + 32) || ('A' <= b <= 'Z' && a as int == b as int + 32)
  }

  /** The same text but for upper and lower case. */
  ghost predicate SameText(a: string, b: string) {
    |a| == |b| && forall i :: 0 <= i < |a| ==> SameLetter(a[i], b[i])
  }

  lemma LowerIsCaseless(a: string, b: string)
    ensures Lower(a) == Lower(b) <==> SameText(a, b)
  {
    if Lower(a) == Lower(b) {
      forall i | 0 <= i < |a| ensures SameLetter(a[i], b[i]) { assert Lower(a)[i] == Lower(b)[i]; }
    }
  }

  ghost predicate AllSpace(s: string) { forall c <- s :: IsSpace(c) }

  /** `t` is `s` without the white space around it. */
  ghost predicate IsTrimmed(s: string, t: string) {
    Trimmed(t) && exists i, j :: 0 <= i <= j <= |s| && s[i..j] == t && AllSpace(s[..i]) && AllSpace(s[j..])
  }

  lemma {:induction false} StripLeftCuts(s: string) returns (i: nat)
    ensures i <= |s| && StripLeft(s) == s[i..] && AllSpace(s[..i])
    decreases |s|
  {
    if s != "" && IsSpace(s[0]) {
      var k := StripLeftCuts(s[1..]);
      i := k + 1;
      assert s[..i] == [s[0]] + s[1..][..k] && s[1..][k..] == s[i..];
    } else {
      i := 0;
    }
  }

  lemma {:induction false} StripRightCuts(s: string) returns (j: nat)
    ensures j <= |s| && StripRight(s) == s[..j] && AllSpace(s[j..])
    decreases |s|
  {
    if s != "" && IsSpace(s[|s| - 1]) {
      j := StripRightCuts(s[..|s| - 1]);
      assert s[j..] == s[..|s| - 1][j..] + [s[|s| - 1]] && s[..|s| - 1][..j] == s[..j];
    } else {
      j := |s|;
    }
  }

  lemma StripTrimsAround(s: string)
    ensures IsTrimmed(s, Strip(s))
  {
    StripTrims(s);
    var i := StripLeftCuts(s);
    var j := StripRightCuts(s[i..]);
    assert s[i..][..j] == s[i..i + j] && s[i..][j..] == s[i + j..];
  }

  /** A decision is for the sender exactly if it names one and, trimmed and but for case, the message's is the same; and
      likewise for the domain. A thread must be named by both and, trimmed, be equal. */
  lemma SameParties(e: Email, c: Candidate)
    ensures SenderExact(e, c) <==> c.sender.Some? && Strip(c.sender.value) != "" && SameText(Strip(c.sender.value), Strip(e.sender))
    ensures DomainExact(e, c) <==> c.domain.Some? && Strip(c.domain.value) != "" && SameText(Strip(c.domain.value), Strip(e.domain))
    ensures SameThread(e, c) <==>
      c.thread.Some? && e.thread.Some? && c.thread.value != "" && e.thread.value != "" && Strip(c.thread.value) == Strip(e.thread.value)
  {
    LowerIsCaseless(Strip(OrEmpty(c.sender)), Strip(e.sender));
    LowerIsCaseless(Strip(OrEmpty(c.domain)), Strip(e.domain));
    assert Lower(Strip(OrEmpty(c.sender))) == "" <==> Strip(OrEmpty(c.sender)) == "";
    assert Lower(Strip(OrEmpty(c.domain))) == "" <==> Strip(OrEmpty(c.domain)) == "";
    assert Strip("") == "";
  }

  // ---------------------------------------------------------------- words

  predicate IsWord(w: string) { w != "" && forall c <- w :: IsWordChar(c) }

  lemma {:induction false} WordLengthOfWord(w: string)
    requires forall c <- w :: IsWordChar(c)
    ensures WordLength(w) == |w|
    decreases |w|
  {
    if w != "" {
      assert w[0] in w;
      WordLengthOfWord(w[1..]);
    }
  }

  lemma {:induction false} WordEnds(a: string, separator: char, b: string)
    requires !IsWordChar(separator)
    ensures WordLength(a + [separator] + b) == WordLength(a)
    decreases |a|
  {
    var all := a + [separator] + b;
    if a != "" && IsWordChar(a[0]) {
      assert all[1..] == a[1..] + [separator] + b;
      WordEnds(a[1..], separator, b);
    } else if a == "" {
      assert all[0] == separator;
    }
  }

  /** A word is its own only token. */
  lemma TokensOfWord(w: string)
    requires IsWord(w)
    ensures Tokens(w) == [w]
  {
    WordLengthOfWord(w);
    assert w[..|w|] == w && w[|w|..] == "";
  }

  /** Any other character separates tokens and belongs to none. */
  lemma {:induction false} TokensSplit(a: string, separator: char, b: string)
    requires !IsWordChar(separator)
    ensures Tokens(a + [separator] + b) == Tokens(a) + Tokens(b)
    decreases |a|
  {
    var all, n := a + [separator] + b, WordLength(a);
    WordEnds(a, separator, b);
    if a == "" {
      assert all[1..] == b;
    } else if n == 0 {
      assert all[1..] == a[1..] + [separator] + b;
      TokensSplit(a[1..], separator, b);
    } else {
      assert all[..n] == a[..n] && all[n..] == a[n..] + [separator] + b;
      TokensSplit(a[n..], separator, b);
    }
  }

  lemma {:induction false} WordPrefix(s: string)
    ensures forall i :: 0 <= i < WordLength(s) ==> IsWordChar(s[i])
    decreases |s|
  {
    if s != "" && IsWordChar(s[0]) {
      WordPrefix(s[1..]);
      forall i | 0 < i < WordLength(s) ensures IsWordChar(s[i]) { assert s[i] == s[1..][i - 1]; }
    }
  }

  lemma {:induction false} TokensAreWords(s: string)
    ensures forall w <- Tokens(s) :: IsWord(w)
    decreases |s|
  {
    if s != "" {
      WordPrefix(s);
      TokensAreWords(if WordLength(s) == 0 then s[1..] else s[WordLength(s)..]);
    }
  }

  /** Joining words and taking them apart again gives the words. */
  lemma {:induction false} JoinedAndTaken(words: seq<string>)
    requires forall w <- words :: IsWord(w)
    ensures Tokens(JoinWords(words)) == words
    decreases |words|
  {
    if |words| == 1 {
      TokensOfWord(words[0]);
    } else if |words| > 1 {
      assert words[0] in words;
      TokensOfWord(words[0]);
      JoinedAndTaken(words[1..]);
      assert JoinWords(words) == words[0] + [' '] + JoinWords(words[1..]);
      TokensSplit(words[0], ' ', JoinWords(words[1..]));
    }
  }

  predicate Short(subject: string) { |JoinWords(Tokens(Lower(subject)))| <= 500 }

  /** Subjects not cut at 500 characters are the same exactly if they have the same words in the same order, whatever
      their case, punctuation and spacing; a subject without words matches none. */
  lemma SameSubjectIff(e: Email, c: Candidate)
    requires Short(OrEmpty(c.subject)) && Short(e.subject)
    ensures SubjectExact(e, c)
       <==> Tokens(Lower(OrEmpty(c.subject))) == Tokens(Lower(e.subject)) && Tokens(Lower(e.subject)) != []
  {
    var p, q := Tokens(Lower(OrEmpty(c.subject))), Tokens(Lower(e.subject));
    TokensAreWords(Lower(OrEmpty(c.subject)));
    TokensAreWords(Lower(e.subject));
    JoinedAndTaken(p);
    JoinedAndTaken(q);
    assert Tokens("") == [];
  }

  lemma LowerTwice(s: string)
    ensures Lower(Lower(s)) == Lower(s)
  {
  }

  lemma {:induction false} LowerJoin(words: seq<string>)
    requires forall w <- words :: Lower(w) == w
    ensures Lower(JoinWords(words)) == JoinWords(words)
    decreases |words|
  {
    if |words| == 1 {
      assert words[0] in words;
    } else if |words| > 1 {
      assert words[0] in words;
      LowerJoin(words[1..]);
      LowerConcat(words[0], " " + JoinWords(words[1..]));
      LowerConcat(" ", JoinWords(words[1..]));
      assert Lower(" ") == " ";
    }
  }

  lemma LowerConcat(a: string, b: string)
    ensures Lower(a + b) == Lower(a) + Lower(b)
  {
  }

  lemma {:induction false} TokensStayLower(s: string)
    requires Lower(s) == s
    ensures forall w <- Tokens(s) :: Lower(w) == w
    decreases |s|
  {
    if s != "" {
      var n := if WordLength(s) == 0 then 1 else WordLength(s);
      LowerParts(s, n);
      TokensStayLower(s[n..]);
    }
  }

  lemma LowerParts(s: string, n: nat)
    requires Lower(s) == s && n <= |s|
    ensures Lower(s[..n]) == s[..n] && Lower(s[n..]) == s[n..]
  {
    assert s == s[..n] + s[n..];
    LowerConcat(s[..n], s[n..]);
    assert |Lower(s[..n])| == n;
    assert Lower(s)[..n] == Lower(s[..n]) && Lower(s)[n..] == Lower(s[n..]);
  }

  /** Normalising a normalised subject changes nothing, unless it was cut. */
  lemma NormalizedOnce(subject: string)
    requires Short(subject)
    ensures NormalizeSubject(NormalizeSubject(subject)) == NormalizeSubject(subject)
  {
    var words := Tokens(Lower(subject));
    LowerTwice(subject);
    TokensStayLower(Lower(subject));
    LowerJoin(words);
    TokensAreWords(Lower(subject));
    JoinedAndTaken(words);
  }

  /** A normalised subject has at most 500 characters, and all of them unless it was cut there. */
  lemma NormalizedLength(subject: string)
    ensures |NormalizeSubject(subject)| <= 500 && NormalizeSubject(subject) <= JoinWords(Tokens(Lower(subject)))
    ensures |NormalizeSubject(subject)| < 500 ==> NormalizeSubject(subject) == JoinWords(Tokens(Lower(subject)))
  {
  }

  /** The words of a normalised subject are those of the subject. */
  lemma NormalizedWords(subject: string)
    requires Short(subject)
    ensures TokenSet(NormalizeSubject(subject)) == TokenSet(subject)
    ensures NormalizeSubject(subject) == "" <==> TokenSet(subject) == {}
  {
    var words := Tokens(Lower(subject));
    TokensAreWords(Lower(subject));
    JoinedAndTaken(words);
    TokensStayLowerOf(subject);
    assert words != [] ==> words[0] in TokenSet(subject);
    assert Tokens("") == [];
  }

  lemma TokensStayLowerOf(subject: string)
    ensures Lower(JoinWords(Tokens(Lower(subject)))) == JoinWords(Tokens(Lower(subject)))
  {
    LowerTwice(subject);
    TokensStayLower(Lower(subject));
    LowerJoin(Tokens(Lower(subject)));
  }

  /** The similarity of two subjects is the share of their words that both have: none without any words. */
  lemma SharedWords(e: Email, c: Candidate)
    requires Short(OrEmpty(c.subject)) && Short(e.subject)
    ensures var mine, theirs := TokenSet(e.subject), TokenSet(OrEmpty(c.subject));
      if mine == {} || theirs == {} then SubjectSimilarity(e, c) == 0.0
      else |mine + theirs| > 0 && SubjectSimilarity(e, c) == |mine * theirs| as real / |mine + theirs| as real
  {
    NormalizedWords(e.subject);
    NormalizedWords(OrEmpty(c.subject));
    var mine, theirs := TokenSet(e.subject), TokenSet(OrEmpty(c.subject));
    if mine != {} { NonemptyUnion(mine, theirs); }
  }

  const SMALL_LETTERS: string := "abcdefghijklmnopqrstuvwxyz"
  const LARGE_LETTERS: string := "ABCDEFGHIJKLMNOPQRSTUVWXYZ"
  const DIGITS: string := "0123456789"
  const SPACE_CHARACTERS: string := " \t\n\U{0b}\U{0c}\r\U{1c}\U{1d}\U{1e}\U{1f}"

  /** The ASCII letters and digits make words; white space is what trimming removes. */
  lemma Characters(c: char)
    ensures IsWordChar(c) <==> c in SMALL_LETTERS || c in LARGE_LETTERS || c in DIGITS
    ensures IsSpace(c) <==> c in SPACE_CHARACTERS
  {
  }

  // ---------------------------------------------------------------- stored keys

  lemma {:induction false} StripOfSpace(s: string)
    requires AllSpace(s)
    ensures StripLeft(s) == ""
    decreases |s|
  {
    if s != "" {
      assert s[0] in s;
      StripOfSpace(s[1..]);
    }
  }

  lemma EmptyStrip(s: string)
    requires Strip(s) == ""
    ensures AllSpace(s)
  {
    StripTrimsAround(s);
    var i, j :| 0 <= i <= j <= |s| && s[i..j] == Strip(s) && AllSpace(s[..i]) && AllSpace(s[j..]);
    assert i == j && s == s[..i] + s[i..];
    assert forall c <- s :: c in s[..i] || c in s[i..];
  }

  /** A stored key is missing exactly if it was blank, and is else the trimmed text up to the limit. */
  lemma KeyMissingIffBlank(value: Option<string>, limit: nat)
    ensures CleanLimited(value, limit).None? <==> AllSpace(OrEmpty(value))
    ensures CleanLimited(value, limit).Some? ==>
      var key := CleanLimited(value, limit).value;
      |key| <= limit && key <= Strip(OrEmpty(value)) && (|key| < limit ==> key == Strip(OrEmpty(value)))
  {
    var s := OrEmpty(value);
    if AllSpace(s) { StripOfSpace(s); }
    if Strip(s) == "" { EmptyStrip(s); }
  }
}
