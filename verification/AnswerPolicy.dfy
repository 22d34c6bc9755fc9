/** The rule that decides whether a session's answers may be shown as an RGB sequence. */
module AnswerPolicy {
  import opened Wrappers

  const MAX_SEQUENCE_ITEMS := 1000

  const LETTERS: set<string> := {"A", "B", "C", "D", "E"}

  datatype Candidate = Candidate(number: int, answer: Option<string>, validated: bool, status: string)

  datatype Reason =
    | CountOutOfRange
    | NumberDuplicate
    | SequenceGap
    | QuestionFailed
    | AnswerNotValidated
    | InvalidAlternative

  predicate CountInRange(expected: int, maxItems: int) {
    1 <= expected <= if maxItems < MAX_SEQUENCE_ITEMS then maxItems else MAX_SEQUENCE_ITEMS
  }

  predicate Publishable(c: Candidate) {
    c.status != "FAILED" && c.validated && c.answer.Some? && c.answer.value in LETTERS
  }

  /** Why one candidate is refused, most serious defect first. */
  function Defect(c: Candidate): Reason
    requires !Publishable(c)
  {
    if c.status == "FAILED" then QuestionFailed
    else if !c.validated then AnswerNotValidated
    else InvalidAlternative
  }

  // ---------- The specification: a function of the multiset of candidates ----------

  ghost predicate NumbersDistinct(cs: multiset<Candidate>) {
    && (forall c | c in cs :: cs[c] == 1)
    && forall c, d | c in cs && d in cs && c.number == d.number :: c == d
  }

  ghost predicate HasNumber(cs: multiset<Candidate>, k: int) {
    exists c :: c in cs && c.number == k
  }

  ghost predicate CoversExactly(cs: multiset<Candidate>, expected: int) {
    forall k :: HasNumber(cs, k) <==> 1 <= k <= expected
  }

  ghost predicate Complete(cs: multiset<Candidate>, expected: int) {
    NumbersDistinct(cs) && CoversExactly(cs, expected)
  }

  ghost function At(cs: multiset<Candidate>, k: int): (c: Candidate)
    requires HasNumber(cs, k)
    ensures c in cs && c.number == k
  {
    var c :| c in cs && c.number == k;
    c
  }

  /** The letters of questions from..expected, or the defect of the first unpublishable one. */
  ghost function Letters(cs: multiset<Candidate>, from: int, expected: int): Result<string, Reason>
    requires CoversExactly(cs, expected) && 1 <= from
    decreases expected - from
  {
    if from > expected then Ok("")
    else
      var c := At(cs, from);
      if !Publishable(c) then Err(Defect(c))
      else
        Prefixed(c.answer.value, Letters(cs, from + 1, expected))
  }

  ghost function Verdict(expected: int, cs: multiset<Candidate>, maxItems: int): Result<string, Reason> {
    if !CountInRange(expected, maxItems) then Err(CountOutOfRange)
    else if !NumbersDistinct(cs) then Err(NumberDuplicate)
    else if !CoversExactly(cs, expected) then Err(SequenceGap)
    else Letters(cs, 1, expected)
  }

  // ---------- The validator ----------

  /** The set(range(1, n + 1)) of the source. */
  function ExpectedNumbers(n: nat): (numbers: set<int>)
    ensures forall k :: k in numbers <==> 1 <= k <= n
  {
    if n == 0 then {} else ExpectedNumbers(n - 1) + {n}
  }

  method ValidateCompleteAnswerSet(expected: int, candidates: seq<Candidate>, maxItems: int)
    returns (r: Result<string, Reason>)
    ensures r == Verdict(expected, multiset(candidates), maxItems)
  {
    if !CountInRange(expected, maxItems) {
      return Err(CountOutOfRange);
    }
    var indexed := IndexByNumber(candidates);
    if indexed.None? {
      return Err(NumberDuplicate);
    }
    if indexed.value.Keys != ExpectedNumbers(expected) {
      assert exists k :: HasNumber(multiset(candidates), k) != (1 <= k <= expected) by {
        var k :| k in indexed.value.Keys <==> k !in ExpectedNumbers(expected);
        assert HasNumber(multiset(candidates), k) != (1 <= k <= expected);
      }
      return Err(SequenceGap);
    }
    r := CollectLetters(expected, indexed.value, multiset(candidates));
  }

  /** The first loop: the dictionary by_number, or None at the first repeated number. */
  method IndexByNumber(candidates: seq<Candidate>) returns (r: Option<map<int, Candidate>>)
    ensures r.Some? <==> NumbersDistinct(multiset(candidates))
    ensures r.Some? ==> forall k :: k in r.value <==> HasNumber(multiset(candidates), k)
    ensures r.Some? ==> forall k :: k in r.value ==> r.value[k] == At(multiset(candidates), k)
  {
    var byNumber: map<int, Candidate> := map[];
    for i := 0 to |candidates|
      invariant forall j :: 0 <= j < i ==> candidates[j].number in byNumber
      invariant forall k :: k in byNumber ==> byNumber[k] in candidates[..i] && byNumber[k].number == k
      invariant DistinctPrefix(candidates, i)
    {
      var number := candidates[i].number;
      if number in byNumber {
        var j :| 0 <= j < i && candidates[j] == byNumber[number];
        RepeatedNumber(candidates, j, i);
        return None;
      }
      byNumber := byNumber[number := candidates[i]];
    }
    DistinctSequence(candidates);
    IndexIsAt(candidates, byNumber);
    return Some(byNumber);
  }

  lemma IndexIsAt(candidates: seq<Candidate>, byNumber: map<int, Candidate>)
    requires NumbersDistinct(multiset(candidates))
    requires forall j :: 0 <= j < |candidates| ==> candidates[j].number in byNumber
    requires forall k :: k in byNumber ==> byNumber[k] in candidates && byNumber[k].number == k
    ensures forall k :: k in byNumber <==> HasNumber(multiset(candidates), k)
    ensures forall k :: k in byNumber ==> byNumber[k] == At(multiset(candidates), k)
  {
    var cs := multiset(candidates);
    forall k | k in byNumber
      ensures HasNumber(cs, k) && byNumber[k] == At(cs, k)
    {
      assert byNumber[k] in cs;
    }
    forall k | HasNumber(cs, k)
      ensures k in byNumber
    {
      assert At(cs, k) in candidates;
    }
  }

  /** The second loop: letters in question order, stopping at the first defect. */
  method CollectLetters(expected: int, byNumber: map<int, Candidate>, ghost cs: multiset<Candidate>)
    returns (r: Result<string, Reason>)
    requires 1 <= expected && CoversExactly(cs, expected)
    requires forall k :: k in byNumber <==> 1 <= k <= expected
    requires forall k :: k in byNumber ==> HasNumber(cs, k) && byNumber[k] == At(cs, k)
    ensures r == Letters(cs, 1, expected)
  {
    var answers := "";
    assert forall rest: string :: answers + rest == rest;
    for number := 1 to expected + 1
      invariant Letters(cs, 1, expected) == Prefixed(answers, Letters(cs, number, expected))
    {
      var candidate := byNumber[number];
      if candidate.status == "FAILED" {
        return Err(QuestionFailed);
      }
      if !candidate.validated {
        return Err(AnswerNotValidated);
      }
      if candidate.answer.None? || candidate.answer.value !in LETTERS {
        return Err(InvalidAlternative);
      }
      PrefixedTwice(answers, candidate.answer.value, Letters(cs, number + 1, expected));
      answers := answers + candidate.answer.value;
    }
    assert answers + "" == answers;
    return Ok(answers);
  }

  ghost function Prefixed(head: string, tail: Result<string, Reason>): Result<string, Reason> {
    match tail
    case Ok(rest) => Ok(head + rest)
    case Err(reason) => Err(reason)
  }

  lemma PrefixedTwice(first: string, second: string, tail: Result<string, Reason>)
    ensures Prefixed(first, Prefixed(second, tail)) == Prefixed(first + second, tail)
  {
    if tail.Ok? {
      assert first + (second + tail.value) == (first + second) + tail.value;
    }
  }

  predicate DistinctPrefix(s: seq<Candidate>, n: nat)
    requires n <= |s|
  {
    forall i, j :: 0 <= i < j < n ==> s[i].number != s[j].number
  }

  lemma RepeatedNumber(s: seq<Candidate>, i: nat, j: nat)
    requires i < j < |s| && s[i].number == s[j].number
    ensures !NumbersDistinct(multiset(s))
  {
    assert s[i] in multiset(s) && s[j] in multiset(s);
    assert s == s[..j] + s[j..];
    assert multiset(s)[s[i]] == multiset(s[..j])[s[i]] + multiset(s[j..])[s[i]];
    assert s[i] in s[..j] && s[j] == s[j..][0];
  }

  lemma {:induction false} DistinctSequence(s: seq<Candidate>)
    requires DistinctPrefix(s, |s|)
    ensures NumbersDistinct(multiset(s))
  {
    if s != [] {
      var init, last := s[..|s| - 1], s[|s| - 1];
      assert s == init + [last];
      DistinctSequence(init);
      forall c | c in multiset(s)
        ensures multiset(s)[c] == 1
      {
        if c in init {
          assert c in multiset(init);
        }
      }
      forall c, d | c in multiset(s) && d in multiset(s) && c.number == d.number
        ensures c == d
      {
        assert c in s && d in s;
      }
    }
  }

  // ---------- What the verdict means ----------

  /** Every candidate of a complete set is the one found at its number. */
  lemma AtIsUnique(cs: multiset<Candidate>, c: Candidate)
    requires NumbersDistinct(cs) && c in cs
    ensures HasNumber(cs, c.number) && At(cs, c.number) == c
  {
  }

  lemma {:induction false} LettersMeaning(cs: multiset<Candidate>, from: int, expected: int)
    requires CoversExactly(cs, expected) && 1 <= from <= expected + 1
    ensures Letters(cs, from, expected).Ok? <==> forall k :: from <= k <= expected ==> Publishable(At(cs, k))
    ensures Letters(cs, from, expected).Ok? ==>
      && |Letters(cs, from, expected).value| == expected - from + 1
      && forall k :: from <= k <= expected ==> [Letters(cs, from, expected).value[k - from]] == At(cs, k).answer.value
    ensures Letters(cs, from, expected).Err? ==> exists k ::
      && from <= k <= expected && !Publishable(At(cs, k))
      && Letters(cs, from, expected).error == Defect(At(cs, k))
      && forall j :: from <= j < k ==> Publishable(At(cs, j))
    decreases expected - from
  {
    if from <= expected {
      LettersMeaning(cs, from + 1, expected);
      var c := At(cs, from);
      if !Publishable(c) {
        assert Letters(cs, from, expected) == Err(Defect(At(cs, from)));
      } else if Letters(cs, from + 1, expected).Err? {
        var k :| from + 1 <= k <= expected && !Publishable(At(cs, k))
          && Letters(cs, from + 1, expected).error == Defect(At(cs, k))
          && forall j :: from + 1 <= j < k ==> Publishable(At(cs, j));
        assert forall j :: from <= j < k ==> Publishable(At(cs, j));
      } else {
        assert |c.answer.value| == 1;
      }
    }
  }

  /** A string is returned exactly for one publishable candidate per number 1..expected. */
  lemma AcceptedExactly(expected: int, cs: multiset<Candidate>, maxItems: int)
    ensures Verdict(expected, cs, maxItems).Ok? <==>
      && CountInRange(expected, maxItems)
      && Complete(cs, expected)
      && forall c | c in cs :: Publishable(c)
  {
    if CountInRange(expected, maxItems) && Complete(cs, expected) {
      LettersMeaning(cs, 1, expected);
      forall c | c in cs
        ensures 1 <= c.number <= expected && At(cs, c.number) == c
      {
        AtIsUnique(cs, c);
        assert HasNumber(cs, c.number);
      }
      forall k | 1 <= k <= expected
        ensures HasNumber(cs, k) && At(cs, k) in cs
      {
      }
    }
  }

  /** Position i of an accepted string holds the answer to question i + 1, one letter each. */
  lemma AcceptedLetters(expected: int, cs: multiset<Candidate>, maxItems: int, c: Candidate)
    requires Verdict(expected, cs, maxItems).Ok? && c in cs
    ensures |Verdict(expected, cs, maxItems).value| == expected
    ensures 1 <= c.number <= expected
    ensures Some([Verdict(expected, cs, maxItems).value[c.number - 1]]) == c.answer
  {
    AcceptedExactly(expected, cs, maxItems);
    AtIsUnique(cs, c);
    assert HasNumber(cs, c.number);
    LettersMeaning(cs, 1, expected);
  }

  /** An accepted string has the form the wire schema demands of answers. */
  lemma AcceptedForm(expected: int, cs: multiset<Candidate>, maxItems: int)
    requires Verdict(expected, cs, maxItems).Ok?
    ensures var answers := Verdict(expected, cs, maxItems).value;
      1 <= |answers| <= MAX_SEQUENCE_ITEMS && forall i :: 0 <= i < |answers| ==> 'A' <= answers[i] <= 'E'
  {
    LettersMeaning(cs, 1, expected);
    var answers := Verdict(expected, cs, maxItems).value;
    forall i | 0 <= i < |answers|
      ensures 'A' <= answers[i] <= 'E'
    {
      assert [answers[i]] == At(cs, i + 1).answer.value;
    }
  }

  /** Once the set is complete, the reason is the defect of the lowest unpublishable question. */
  lemma RefusalReason(expected: int, cs: multiset<Candidate>, maxItems: int, c: Candidate)
    requires CountInRange(expected, maxItems) && Complete(cs, expected)
    requires c in cs && !Publishable(c)
    requires forall d | d in cs && d.number < c.number :: Publishable(d)
    ensures Verdict(expected, cs, maxItems) == Err(Defect(c))
  {
    LettersMeaning(cs, 1, expected);
    AtIsUnique(cs, c);
    assert HasNumber(cs, c.number);
    var k :| 1 <= k <= expected && !Publishable(At(cs, k))
      && Letters(cs, 1, expected).error == Defect(At(cs, k))
      && forall j :: 1 <= j < k ==> Publishable(At(cs, j));
    assert At(cs, k) in cs;
  }

  /** No question number stands twice. */
  ghost predicate Unrepeated(cs: multiset<Candidate>) {
    forall c | c in cs :: cs[c] == 1 && forall d | d in cs && d != c :: d.number != c.number
  }

  /** Exactly the numbers 1 to n stand. */
  ghost predicate OneTo(cs: multiset<Candidate>, n: int) {
    && (forall c | c in cs :: 1 <= c.number <= n)
    && forall k :: 1 <= k <= n ==> HasNumber(cs, k)
  }

  /** When each reason is given: range, repetition, gap, and then what is wrong with the first bad candidate. */
  lemma VerdictMeaning(expected: int, cs: multiset<Candidate>, maxItems: int)
    ensures var v := Verdict(expected, cs, maxItems);
      var inRange := expected >= 1 && expected <= 1000 && expected <= maxItems;
      && (v == Err(CountOutOfRange) <==> !inRange)
      && (v == Err(NumberDuplicate) <==> inRange && !Unrepeated(cs))
      && (v == Err(SequenceGap) <==> inRange && Unrepeated(cs) && !OneTo(cs, expected))
      && (v.Ok? <==>
            && inRange && Unrepeated(cs) && OneTo(cs, expected)
            && forall c | c in cs ::
                 c.status != "FAILED" && c.validated && c.answer in {Some("A"), Some("B"), Some("C"), Some("D"), Some("E")})
  {
    AcceptedExactly(expected, cs, maxItems);
    CoverMeaning(cs, expected);
    hide Letters;
    forall c | c in cs
      ensures Publishable(c) <==>
        c.status != "FAILED" && c.validated && c.answer in {Some("A"), Some("B"), Some("C"), Some("D"), Some("E")}
    {
      PublishableMeaning(c);
    }
    if CountInRange(expected, maxItems) && Complete(cs, expected) {
      LettersMeaning(cs, 1, expected);
    }
  }

  lemma PublishableMeaning(c: Candidate)
    ensures Publishable(c) <==>
      c.status != "FAILED" && c.validated && c.answer in {Some("A"), Some("B"), Some("C"), Some("D"), Some("E")}
    ensures !Publishable(c) ==>
      Defect(c) == if c.status == "FAILED" then QuestionFailed else if !c.validated then AnswerNotValidated else InvalidAlternative
  {
  }

  lemma CoverMeaning(cs: multiset<Candidate>, expected: int)
    ensures NumbersDistinct(cs) <==> Unrepeated(cs)
    ensures CoversExactly(cs, expected) <==> OneTo(cs, expected)
  {
    forall c | c in cs
      ensures HasNumber(cs, c.number)
    {
    }
  }
}
