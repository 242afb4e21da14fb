/** Roman numerals for `lowerRoman`/`upperRoman` list markers: the greedy
    subtractive encoding over a fixed value table, valid for 1..3999. */
module Roman {

  /** The value table and its numerals, largest first. */
  const Values: seq<int> := [1000, 900, 500, 400, 100, 90, 50, 40, 10, 9, 5, 4, 1]
  const Numerals: seq<string> := ["M", "CM", "D", "CD", "C", "XC", "L", "XL", "X", "IX", "V", "IV", "I"]

  /** The greedy encoding of `n` using table entries `i` and later: take the
      entry as often as it fits, then move on to the next one. */
  function Greedy(n: nat, i: nat): string
    requires i <= |Values|
    decreases |Values| - i, n
  {
    if i == |Values| then ""
    else if n >= Values[i] then Numerals[i] + Greedy(n - Values[i], i)
    else Greedy(n, i + 1)
  }

  /** What `toRoman(num)` returns: empty outside 1..3999. */
  function RomanOf(num: int): string {
    if num < 1 || num > 3999 then "" else Greedy(num, 0)
  }

  /** `toRoman`: for each table entry, append its numeral while it still fits. */
  method ToRoman(num: int) returns (s: string)
    ensures s == RomanOf(num)
  {
    if num < 1 || num > 3999 {
      return "";
    }
    s := "";
    var number: nat := num;
    for i := 0 to |Values|
      invariant s + Greedy(number, i) == Greedy(num, 0)
    {
      while number >= Values[i]
        invariant s + Greedy(number, i) == Greedy(num, 0)
      {
        GreedyTakes(s, number, i);
        s := s + Numerals[i];
        number := number - Values[i];
      }
    }
    assert s + "" == s;
  }

  /** One more numeral of entry `i` moves from the encoding to the output. */
  lemma GreedyTakes(s: string, n: nat, i: nat)
    requires i < |Values| && n >= Values[i]
    ensures s + Greedy(n, i) == (s + Numerals[i]) + Greedy(n - Values[i], i)
  {
    assert Greedy(n, i) == Numerals[i] + Greedy(n - Values[i], i);
  }

  /** The value of one Roman letter (0 for any other character). */
  function LetterValue(c: char): nat {
    match c
    case 'M' => 1000
    case 'D' => 500
    case 'C' => 100
    case 'L' => 50
    case 'X' => 10
    case 'V' => 5
    case 'I' => 1
    case _ => 0
  }

  /** The classical reading of a Roman numeral, independent of the table: a
      letter followed by a larger one is subtracted from it as a pair, every
      other letter is added. */
  function Decode(s: string): int {
    if s == [] then 0
    else if |s| >= 2 && LetterValue(s[0]) < LetterValue(s[1]) then
      LetterValue(s[1]) - LetterValue(s[0]) + Decode(s[2..])
    else LetterValue(s[0]) + Decode(s[1..])
  }

  /** The largest letter value a greedy encoding from entry `i` can start with. */
  const HeadBound: seq<int> := [1000, 500, 500, 100, 100, 50, 50, 10, 10, 5, 5, 1, 1]

  lemma {:induction false} GreedyHead(n: nat, i: nat)
    requires i <= |Values|
    ensures Greedy(n, i) != [] ==> i < |Values| && LetterValue(Greedy(n, i)[0]) <= HeadBound[i]
    decreases |Values| - i, n
  {
    if i < |Values| {
      if n >= Values[i] {
        assert Greedy(n, i)[0] == Numerals[i][0];
        assert LetterValue(Numerals[i][0]) <= HeadBound[i] by {
          TableFacts(i);
        }
      } else if Greedy(n, i + 1) != [] {
        GreedyHead(n, i + 1);
        TableFacts(i);
      }
    }
  }

  /** Facts about one table entry, checked entry by entry. */
  lemma TableFacts(i: nat)
    requires i < |Values|
    ensures 1 <= |Numerals[i]| <= 2
    ensures |Numerals[i]| == 1 ==> LetterValue(Numerals[i][0]) == Values[i] == HeadBound[i]
    ensures |Numerals[i]| == 2 ==>
              LetterValue(Numerals[i][0]) < LetterValue(Numerals[i][1]) &&
              LetterValue(Numerals[i][1]) - LetterValue(Numerals[i][0]) == Values[i]
    ensures LetterValue(Numerals[i][0]) <= HeadBound[i]
    ensures i + 1 < |Values| ==> HeadBound[i + 1] <= HeadBound[i]
    ensures forall c :: c in Numerals[i] ==> c in "MDCLXVI"
    ensures Values[i] >= 1
  {
    if i == 0 {} else if i == 1 {} else if i == 2 {} else if i == 3 {} else if i == 4 {}
    else if i == 5 {} else if i == 6 {} else if i == 7 {} else if i == 8 {} else if i == 9 {}
    else if i == 10 {} else if i == 11 {} else {}
  }

  /** Reading back a greedy encoding gives the number encoded. */
  lemma {:induction false} DecodeGreedy(n: nat, i: nat)
    requires i <= |Values|
    requires i < |Values| || n == 0
    ensures Decode(Greedy(n, i)) == n
    decreases |Values| - i, n
  {
    if i < |Values| {
      TableFacts(i);
      if n >= Values[i] {
        var rest := Greedy(n - Values[i], i);
        DecodeGreedy(n - Values[i], i);
        var s := Numerals[i] + rest;
        if |Numerals[i]| == 2 {
          assert s[2..] == rest;
        } else {
          assert s[1..] == rest;
          GreedyHead(n - Values[i], i);
          assert rest != [] ==> s[1] == rest[0];
        }
      } else {
        assert i + 1 < |Values| || n == 0 by {
          if i + 1 == |Values| { assert Values[i] == 1; }
        }
        DecodeGreedy(n, i + 1);
      }
    }
  }

  /** `toRoman` is the inverse of Roman-numeral reading on 1..3999: every
      number in range is encoded and reads back as itself. */
  lemma RomanRoundTrip(n: int)
    requires 1 <= n <= 3999
    ensures RomanOf(n) != []
    ensures Decode(RomanOf(n)) == n
  {
    DecodeGreedy(n, 0);
  }

  lemma {:induction false} GreedyLetters(n: nat, i: nat)
    requires i <= |Values|
    ensures forall c :: c in Greedy(n, i) ==> c in "MDCLXVI"
    decreases |Values| - i, n
  {
    if i < |Values| {
      TableFacts(i);
      if n >= Values[i] {
        GreedyLetters(n - Values[i], i);
      } else {
        GreedyLetters(n, i + 1);
      }
    }
  }

  /** `toRoman` writes only the seven letters M, D, C, L, X, V and I, and writes
      nothing outside 1..3999. */
  lemma RomanLetters(num: int)
    ensures forall c :: c in RomanOf(num) ==> c in "MDCLXVI"
    ensures RomanOf(num) == [] <==> num < 1 || num > 3999
  {
    if 1 <= num <= 3999 {
      GreedyLetters(num, 0);
      RomanRoundTrip(num);
    }
  }

  /** Worked examples: 4, 1999, and the values just outside the range. */
  lemma RomanExamples()
    ensures RomanOf(4) == "IV"
    ensures RomanOf(1999) == "MCMXCIX"
    ensures RomanOf(0) == "" && RomanOf(4000) == ""
  {
    assert Greedy(4, 0) == "IV" by {
      assert Greedy(4, 11) == "IV" + Greedy(0, 11);
    }
    assert Greedy(1999, 0) == "MCMXCIX" by {
      assert Greedy(9, 5) == "IX";
      assert Greedy(99, 1) == "XC" + Greedy(9, 5);
      assert Greedy(999, 0) == "CM" + Greedy(99, 1);
      assert Greedy(1999, 0) == "M" + Greedy(999, 0);
    }
  }
}
