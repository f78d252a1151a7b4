/** The server's mood fusion: a vote among the text mood (counted twice) and
    the face and voice labels, decided the way Python's
    `Counter(votes).most_common(1)` decides it. */
module MoodFusion {
  import opened Values

  const Neutral: string := "neutral"
  /** The label the page shows for a channel that is off. */
  const Placeholder: string := "..."

  function Occurrences(votes: seq<string>, x: string): nat {
    multiset(votes)[x]
  }

  /** Position of the first occurrence of `x` in `votes`. */
  function FirstIndex(votes: seq<string>, x: string): (i: nat)
    requires x in votes
    ensures i < |votes| && votes[i] == x
    ensures forall j :: 0 <= j < i ==> votes[j] != x
  {
    if votes[0] == x then 0 else 1 + FirstIndex(votes[1..], x)
  }

  /** Appending a vote moves no earlier first occurrence, and a new vote
      first occurs at the end. */
  lemma FirstIndexAppend(init: seq<string>, last: string, x: string)
    requires x in init + [last]
    ensures x in init ==> FirstIndex(init + [last], x) == FirstIndex(init, x)
    ensures x !in init ==> FirstIndex(init + [last], x) == |init|
  {
    var votes := init + [last];
    var i := FirstIndex(votes, x);
    if x in init {
      var k := FirstIndex(init, x);
      assert votes[k] == x;
      assert i <= k;
      assert init[i] == x;
    } else {
      assert forall j :: 0 <= j < |init| ==> votes[j] != x;
    }
  }

  /** The distinct votes in order of first appearance: the key order of
      `Counter(votes)`, whose dictionary remembers insertion order. */
  function Keys(votes: seq<string>): (keys: seq<string>)
    ensures forall x :: x in keys <==> x in votes
    ensures forall i, j :: 0 <= i < j < |keys| ==> keys[i] != keys[j]
    ensures forall i, j :: 0 <= i < j < |keys| ==> FirstIndex(votes, keys[i]) < FirstIndex(votes, keys[j])
    ensures |votes| > 0 ==> |keys| > 0 && keys[0] == votes[0]
  {
    if |votes| == 0 then []
    else
      var init := votes[..|votes| - 1];
      var last := votes[|votes| - 1];
      assert votes == init + [last];
      var earlier := Keys(init);
      var keys := if last in earlier then earlier else earlier + [last];
      assert forall i, j :: 0 <= i < j < |keys| ==> FirstIndex(votes, keys[i]) < FirstIndex(votes, keys[j]) by {
        forall i, j | 0 <= i < j < |keys|
          ensures FirstIndex(votes, keys[i]) < FirstIndex(votes, keys[j])
        {
          FirstIndexAppend(init, last, keys[i]);
          FirstIndexAppend(init, last, keys[j]);
        }
      }
      keys
  }

  /** Position of the first of `keys` whose count in `votes` is maximal:
      Python's `max` keeps the first of equally large candidates. */
  function FirstMaxIndex(keys: seq<string>, votes: seq<string>): (i: nat)
    requires |keys| > 0
    ensures i < |keys|
    ensures forall j :: 0 <= j < |keys| ==> Occurrences(votes, keys[j]) <= Occurrences(votes, keys[i])
    ensures forall j :: 0 <= j < i ==> Occurrences(votes, keys[j]) < Occurrences(votes, keys[i])
  {
    if |keys| == 1 then 0
    else
      var rest := FirstMaxIndex(keys[1..], votes);
      if Occurrences(votes, keys[0]) >= Occurrences(votes, keys[rest + 1]) then 0 else rest + 1
  }

  /** The first maximal key also appears in `votes` before every other key
      with the same count. */
  lemma FirstMaxAppearsFirst(votes: seq<string>)
    requires |votes| > 0
    ensures var keys := Keys(votes);
            var top := keys[FirstMaxIndex(keys, votes)];
            forall x :: x in votes && Occurrences(votes, x) == Occurrences(votes, top) ==>
              FirstIndex(votes, top) <= FirstIndex(votes, x)
  {
    var keys := Keys(votes);
    var i := FirstMaxIndex(keys, votes);
    forall x | x in votes && Occurrences(votes, x) == Occurrences(votes, keys[i])
      ensures FirstIndex(votes, keys[i]) <= FirstIndex(votes, x)
    {
      assert x in keys;
      var k :| 0 <= k < |keys| && keys[k] == x;
      assert k >= i;
      if k > i {
        assert FirstIndex(votes, keys[i]) < FirstIndex(votes, keys[k]);
      }
    }
  }

  /** `Counter(votes).most_common(1)[0][0]`: a most frequent vote, and of
      equally frequent votes the one that first appears earliest. */
  function MostCommon(votes: seq<string>): (top: string)
    requires |votes| > 0
    ensures top in votes
    ensures forall x :: x in votes ==> Occurrences(votes, x) <= Occurrences(votes, top)
    ensures forall x :: x in votes && Occurrences(votes, x) == Occurrences(votes, top) ==>
              FirstIndex(votes, top) <= FirstIndex(votes, x)
    ensures (forall x :: x in votes ==> Occurrences(votes, x) <= Occurrences(votes, votes[0])) ==> top == votes[0]
  {
    var keys := Keys(votes);
    var i := FirstMaxIndex(keys, votes);
    assert forall x :: x in votes ==> exists j :: 0 <= j < |keys| && keys[j] == x;
    FirstMaxAppearsFirst(votes);
    keys[i]
  }

  /** A ballot where "a" and "b" tie, "a" appearing first, and "c", cast
      once, comes first of all. */
  const TiedBallot: seq<string> := ["c", "a", "b", "b", "a"]

  lemma TiedBallotCounts()
    ensures Occurrences(TiedBallot, "a") == 2 && Occurrences(TiedBallot, "b") == 2
    ensures Occurrences(TiedBallot, "c") == 1
    ensures forall x :: x in TiedBallot ==> x == "a" || x == "b" || x == "c"
  {
    assert multiset(TiedBallot) == multiset{"c", "a", "b", "b", "a"};
  }

  lemma TiedBallotFirstIndices()
    ensures FirstIndex(TiedBallot, "a") == 1 && FirstIndex(TiedBallot, "b") == 2
  {
    assert TiedBallot[0] != "a" && TiedBallot[1] == "a";
    assert TiedBallot[0] != "b" && TiedBallot[1] != "b" && TiedBallot[2] == "b";
  }

  /** The tie goes to "a", which appears before "b"; "c" comes first but
      has fewer votes. */
  lemma TieGoesToFirstAppearance()
    ensures MostCommon(TiedBallot) == "a"
  {
    var top := MostCommon(TiedBallot);
    TiedBallotCounts();
    TiedBallotFirstIndices();
    assert "a" in TiedBallot by {
      assert TiedBallot[1] == "a";
    }
  }

  /** A face or voice label takes part in the vote: present, not empty, and
      neither "neutral" nor the off-placeholder "...". */
  predicate Votes(signal: Option<string>) {
    Truthy(signal) && signal.value != Neutral && signal.value != Placeholder
  }

  /** The ballot in insertion order: the text mood twice, then the face
      label, then the voice label, each only when it takes part. */
  function Ballot(textMood: Option<string>, faceMood: Option<string>, voiceMood: Option<string>): seq<string> {
    (if Truthy(textMood) then [textMood.value, textMood.value] else [])
    + (if Votes(faceMood) then [faceMood.value] else [])
    + (if Votes(voiceMood) then [voiceMood.value] else [])
  }

  /** A vote cast twice first cannot be outvoted by at most two others. */
  lemma DoubledFirstVoteWins(t: string, rest: seq<string>)
    requires |rest| <= 2
    ensures MostCommon([t, t] + rest) == t
  {
    var ballot := [t, t] + rest;
    assert ballot[0] == t;
    assert Occurrences(ballot, t) >= 2;
    forall x | x in ballot && x != t
      ensures Occurrences(ballot, x) <= Occurrences(ballot, t)
    {
      assert Occurrences(ballot, x) == multiset(rest)[x];
      assert multiset(rest)[x] <= |rest|;
    }
  }

  /** The text mood, counted twice and inserted first, cannot be outvoted
      by the at most two other labels. */
  lemma TextOutvotesLabels(textMood: Option<string>, faceMood: Option<string>, voiceMood: Option<string>)
    requires Truthy(textMood)
    ensures MostCommon(Ballot(textMood, faceMood, voiceMood)) == textMood.value
  {
    var t := textMood.value;
    var rest := (if Votes(faceMood) then [faceMood.value] else []) + (if Votes(voiceMood) then [voiceMood.value] else []);
    assert Ballot(textMood, faceMood, voiceMood) == [t, t] + rest;
    DoubledFirstVoteWins(t, rest);
  }

  /** `fuse_moods`: "neutral" when nothing takes part in the vote, the text
      mood whenever there is one, and otherwise one of the voting labels. */
  function FuseMoods(textMood: Option<string>, faceMood: Option<string>, voiceMood: Option<string>): (mood: string)
    ensures !Truthy(textMood) && !Votes(faceMood) && !Votes(voiceMood) ==> mood == Neutral
    ensures Truthy(textMood) ==> mood == textMood.value
    ensures mood == Neutral || (Truthy(textMood) && mood == textMood.value)
            || (Votes(faceMood) && mood == faceMood.value) || (Votes(voiceMood) && mood == voiceMood.value)
  {
    var ballot := Ballot(textMood, faceMood, voiceMood);
    if |ballot| == 0 then Neutral
    else if Truthy(textMood) then
      TextOutvotesLabels(textMood, faceMood, voiceMood);
      MostCommon(ballot)
    else
      MostCommon(ballot)
  }

  /** A face or voice label that does not take part in the vote could as
      well be missing. */
  lemma NonVotingLabelsIgnored(textMood: Option<string>, faceMood: Option<string>, voiceMood: Option<string>)
    ensures !Votes(faceMood) ==> FuseMoods(textMood, faceMood, voiceMood) == FuseMoods(textMood, None, voiceMood)
    ensures !Votes(voiceMood) ==> FuseMoods(textMood, faceMood, voiceMood) == FuseMoods(textMood, faceMood, None)
  {
  }

  /** Without a text mood, a single voting label decides the mood. */
  lemma LoneLabelWins(textMood: Option<string>, faceMood: Option<string>, voiceMood: Option<string>)
    requires !Truthy(textMood)
    ensures Votes(faceMood) && !Votes(voiceMood) ==> FuseMoods(textMood, faceMood, voiceMood) == faceMood.value
    ensures !Votes(faceMood) && Votes(voiceMood) ==> FuseMoods(textMood, faceMood, voiceMood) == voiceMood.value
  {
  }

  /** Without a text mood, two voting labels resolve to the face label: they
      agree, or they tie one vote each and the face label was inserted first. */
  lemma FaceWinsTie(textMood: Option<string>, faceMood: Option<string>, voiceMood: Option<string>)
    requires !Truthy(textMood) && Votes(faceMood) && Votes(voiceMood)
    ensures FuseMoods(textMood, faceMood, voiceMood) == faceMood.value
  {
    var ballot := Ballot(textMood, faceMood, voiceMood);
    assert ballot == [faceMood.value, voiceMood.value];
    if faceMood.value != voiceMood.value {
      assert Occurrences(ballot, faceMood.value) == 1;
      assert Occurrences(ballot, voiceMood.value) == 1;
    }
  }
}
