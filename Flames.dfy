/** The FLAMES name game of the browser page. The two input boxes are read by
    the caller and passed in; the text the page writes into its result
    element comes out, `None` when nothing is written. */
module Flames {
  import opened Wrappers
  import opened JsBuiltins

  const Letters: seq<char> := ['F', 'L', 'A', 'M', 'E', 'S']

  const Words: set<string> := {"Friends", "Love", "Affection", "Marriage", "Enemy", "Siblings"}

  /** One turn of the cancel loop for the character `c`: when `c` occurs in
      the current second name, the first name becomes the second name with
      one `c` removed, and the second name becomes that with another `c`
      removed. The old first name is discarded. */
  function CancelStep(names: (string, string), c: char): (r: (string, string))
    ensures c !in names.1 ==> r == names
    ensures c in names.1 ==>
              && |r.0| == |names.1| - 1
              && multiset(r.0) == multiset(names.1) - multiset{c}
              && multiset(r.1) == multiset(r.0) - multiset{c}
    ensures c in names.1 ==> RemovesFirst(names.1, c, r.0) && RemovesFirst(r.0, c, r.1)
  {
    if c in names.1 then
      var name1 := ReplaceFirst(names.1, c);
      var name2 := ReplaceFirst(name1, c);
      assert multiset(name2) == multiset(name1) - multiset{c} by {
        if c !in name1 {
          assert multiset(name1)[c] == 0;
        }
      }
      (name1, name2)
    else names
  }

  /** The names after the cancel loop has visited the characters `chars`, in
      order, starting from `name1` and `name2`. */
  function Cancel(chars: string, name1: string, name2: string): (string, string)
    decreases |chars|
  {
    if chars == [] then (name1, name2)
    else CancelStep(Cancel(chars[..|chars| - 1], name1, name2), chars[|chars| - 1])
  }

  /** A step that fires overwrites the first name: what it was does not matter. */
  lemma CancelStepDiscardsName1(name1: string, other: string, name2: string, c: char)
    requires c in name2
    ensures CancelStep((name1, name2), c) == CancelStep((other, name2), c)
  {
  }

  /** `for (let char of name1)`: the loop walks the first name as it was on
      entry, even though the body reassigns `name1`. */
  method CancelLetters(name1: string, name2: string) returns (n1: string, n2: string)
    ensures (n1, n2) == Cancel(name1, name1, name2)
  {
    n1, n2 := name1, name2;
    var k := 0;
    while k < |name1|
      invariant 0 <= k <= |name1|
      invariant (n1, n2) == Cancel(name1[..k], name1, name2)
    {
      var c := name1[k];
      assert name1[..k + 1][..k] == name1[..k];
      if c in n2 {
        n1 := ReplaceFirst(n2, c);
        n2 := ReplaceFirst(n1, c);
      }
      k := k + 1;
    }
    assert name1[..k] == name1;
  }

  /** The letter left when, starting from `index`, the elimination loop
      repeatedly moves `totalLength - 1` places (JavaScript `%`) and splices
      out the letter there. */
  function Survivor(flames: seq<char>, index: int, totalLength: int): (r: char)
    requires |flames| >= 1
    ensures r in flames
    decreases |flames|
  {
    if |flames| == 1 then flames[0]
    else
      var i := JsRem(index + totalLength - 1, |flames|);
      Survivor(SpliceOne(flames, i), i, totalLength)
  }

  /** Every round's index lies strictly between -length and length, even when
      it is negative, so the splice removes exactly one letter and keeps the
      others in order. */
  lemma RoundRemovesOneLetter(flames: seq<char>, index: int, totalLength: int)
    requires |flames| > 1
    ensures var i := JsRem(index + totalLength - 1, |flames|);
            && -|flames| < i < |flames|
            && var k := SpliceStart(|flames|, i);
               && k < |flames|
               && SpliceOne(flames, i) == flames[..k] + flames[k + 1..]
  {
    var i := JsRem(index + totalLength - 1, |flames|);
    var r := SpliceOne(flames, i);
    var k := SpliceStart(|flames|, i);
    assert r == r[..k] + r[k..];
  }

  /** The elimination loop over the array `['F','L','A','M','E','S']`. */
  method Eliminate(totalLength: int) returns (letter: char, ghost rounds: nat)
    ensures letter == Survivor(Letters, 0, totalLength)
    ensures letter in Letters
    ensures rounds == 5
  {
    var flames := Letters;
    var index := 0;
    rounds := 0;
    while |flames| > 1
      invariant 1 <= |flames| && |flames| + rounds == 6
      invariant Survivor(flames, index, totalLength) == Survivor(Letters, 0, totalLength)
      decreases |flames|
    {
      index := JsRem(index + totalLength - 1, |flames|);
      flames := SpliceOne(flames, index);
      rounds := rounds + 1;
    }
    letter := flames[0];
  }

  /** The `switch` on the surviving letter; any other letter leaves ''. */
  function Word(letter: char): (w: string)
    ensures letter in Letters ==> w in Words && w[0] == letter
    ensures letter !in Letters ==> w == ""
  {
    match letter
    case 'F' => "Friends"
    case 'L' => "Love"
    case 'A' => "Affection"
    case 'M' => "Marriage"
    case 'E' => "Enemy"
    case 'S' => "Siblings"
    case _ => ""
  }

  /** `totalLength`: the combined length of the names the cancel loop leaves. */
  function TotalLength(name1: string, name2: string): int {
    var names := Cancel(name1, name1, name2);
    |names.0| + |names.1|
  }

  /** The word the game picks for two names. */
  function FlamesWord(name1: string, name2: string): string {
    Word(Survivor(Letters, 0, TotalLength(name1, name2)))
  }

  /** The game always picks one of the six words. */
  lemma FlamesWordIsOneOfSix(name1: string, name2: string)
    ensures FlamesWord(name1, name2) in Words
  {
  }

  /** `calculateFrames`. */
  method CalculateFrames(name1: string, name2: string) returns (result: Option<string>)
    ensures result == None <==> name1 == "" || name2 == ""
    ensures result.Some? ==>
              result.value == name1 + " and " + name2 + " are " + FlamesWord(name1, name2) + "."
  {
    if name1 == "" || name2 == "" {
      return None;
    }
    var n1, n2 := CancelLetters(name1, name2);
    var totalLength := |n1| + |n2|;
    assert totalLength == TotalLength(name1, name2);
    var letter, _ := Eliminate(totalLength);
    var resultText := Word(letter);
    result := Some(name1 + " and " + name2 + " are " + resultText + ".");
  }

  /** When the names cancel out completely the first index is -1, and the
      splice counts it from the end: S is removed first. */
  lemma ZeroLengthRemovesLastLetterFirst()
    ensures JsRem(0 + 0 - 1, |Letters|) == -1
    ensures SpliceOne(Letters, -1) == ['F', 'L', 'A', 'M', 'E']
  {
    assert SpliceStart(6, -1) == 5;
  }

  /** Two identical one-letter names cancel each other out completely. */
  lemma IdenticalOneLetterNames(c: char)
    ensures TotalLength([c], [c]) == 0
  {
    assert [c][..0] == [];
    assert ReplaceFirst([c], c) == [];
    assert Cancel([c], [c], [c]) == ([], []);
  }
}
