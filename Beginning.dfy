/** The loop-and-accumulator exercises of the beginner script. JavaScript
    numbers are modelled as mathematical integers. */
module Beginning {
  import opened JsBuiltins

  // Challenges 5, 6 and 7: fixed accumulator loops.

  function Factorial(n: nat): nat {
    if n == 0 then 1 else n * Factorial(n - 1)
  }

  /** 1 + 2 + ... + 10. */
  method SumOneToTen() returns (result: int)
    ensures result == 55
  {
    result := 0;
    var i := 1;
    while i < 11
      invariant 1 <= i <= 11
      invariant 2 * result == i * (i - 1)
    {
      result := result + i;
      i := i + 1;
    }
  }

  /** 10! */
  method FactorialOfTen() returns (result: int)
    ensures result == Factorial(10) == 3628800
  {
    result := 1;
    var i := 1;
    while i < 11
      invariant 1 <= i <= 11
      invariant result == Factorial(i - 1)
    {
      result := result * i;
      i := i + 1;
    }
  }

  /** The odd numbers 11, 13, ..., 29 added up. */
  method OddSumElevenToTwentyNine() returns (result: int)
    ensures result == 200
  {
    result := 0;
    var i := 11;
    while i < 30
      invariant 11 <= i <= 31 && i % 2 == 1
      invariant 4 * result == (i - 11) * (i + 9)
    {
      result := result + i;
      i := i + 2;
    }
  }

  // Challenge 10: summ.

  /** The sum of a sequence, added from the left. */
  function Sum(s: seq<int>): int {
    if s == [] then 0 else Sum(s[..|s| - 1]) + s[|s| - 1]
  }

  /** The sum distributes over concatenation. */
  lemma {:induction false} SumConcat(a: seq<int>, b: seq<int>)
    ensures Sum(a + b) == Sum(a) + Sum(b)
  {
    if b != [] {
      assert (a + b)[..|a + b| - 1] == a + b[..|b| - 1];
      SumConcat(a, b[..|b| - 1]);
    } else {
      assert a + b == a;
    }
  }

  method Summ(myarr: seq<int>) returns (result: int)
    ensures result == Sum(myarr)
  {
    result := 0;
    var i := 0;
    while i < |myarr|
      invariant 0 <= i <= |myarr|
      invariant result == Sum(myarr[..i])
    {
      assert myarr[..i + 1][..i] == myarr[..i];
      result := result + myarr[i];
      i := i + 1;
    }
    assert myarr[..i] == myarr;
  }

  // Challenge 12: getPo.

  /** The elements greater than 0, in their original order. */
  function Positives(s: seq<int>): (r: seq<int>)
    ensures |r| <= |s|
    ensures forall x :: x in r <==> x in s && x > 0
    ensures forall x :: multiset(r)[x] == if x > 0 then multiset(s)[x] else 0
  {
    if s == [] then []
    else
      var last := s[|s| - 1];
      assert s == s[..|s| - 1] + [last];
      Positives(s[..|s| - 1]) + (if last > 0 then [last] else [])
  }

  /** Filtering distributes over concatenation: kept elements stay in order. */
  lemma {:induction false} PositivesConcat(a: seq<int>, b: seq<int>)
    ensures Positives(a + b) == Positives(a) + Positives(b)
  {
    if b != [] {
      assert (a + b)[..|a + b| - 1] == a + b[..|b| - 1];
      PositivesConcat(a, b[..|b| - 1]);
    } else {
      assert a + b == a;
    }
  }

  method GetPo(myarr: seq<int>) returns (newArr: seq<int>)
    ensures newArr == Positives(myarr)
  {
    newArr := [];
    var i := 0;
    while i < |myarr|
      invariant 0 <= i <= |myarr|
      invariant newArr == Positives(myarr[..i])
    {
      assert myarr[..i + 1][..i] == myarr[..i];
      if myarr[i] > 0 {
        newArr := newArr + [myarr[i]];
      }
      i := i + 1;
    }
    assert myarr[..i] == myarr;
  }

  // Challenge 13: maxNum.

  /** `myarr[0]` starts the running maximum, so an empty array gives `undefined`. */
  method MaxNum(myarr: seq<int>) returns (result: Value)
    ensures myarr == [] ==> result == Undefined
    ensures myarr != [] ==> result.Num? && result.n in myarr
    ensures myarr != [] ==> forall x :: x in myarr ==> x <= result.n
  {
    result := if 0 < |myarr| then Num(myarr[0]) else Undefined;
    var i := 0;
    while i < |myarr|
      invariant 0 <= i <= |myarr|
      invariant myarr == [] ==> result == Undefined
      invariant myarr != [] ==> result.Num? && result.n in myarr
      invariant myarr != [] ==> forall j :: 0 <= j < i ==> myarr[j] <= result.n
    {
      if myarr[i] > result.n {
        result := Num(myarr[i]);
      }
      i := i + 1;
    }
  }

  // Challenges 16 and 28: isPrime and sumPrime.

  /** What `isPrime` tests: no `d` with 2 <= d < n divides `n`. It holds of
      every `n` below 3 that has no such `d`, so of 1, 0 and negatives too. */
  ghost predicate NoDivisorBelow(n: int) {
    forall d :: 2 <= d < n ==> n % d != 0
  }

  predicate IsFactorisation(n: int, a: int, b: int) {
    2 <= a && 2 <= b && a * b == n
  }

  method IsPrime(num: int) returns (b: bool)
    ensures b <==> NoDivisorBelow(num)
  {
    var i := 2;
    while i < num
      invariant 2 <= i
      invariant forall d :: 2 <= d < i && d < num ==> num % d != 0
    {
      if num % i == 0 {
        return false;
      }
      i := i + 1;
    }
    return true;
  }

  /** For n >= 2 the test means what primality means: no product of two
      factors both at least 2 equals n. */
  lemma NoDivisorMeansNoFactorisation(n: int)
    requires n >= 2
    ensures NoDivisorBelow(n) <==> forall a, b :: !IsFactorisation(n, a, b)
  {
    if NoDivisorBelow(n) {
      forall a, b ensures !IsFactorisation(n, a, b) {
        if IsFactorisation(n, a, b) {
          FactorIsDivisor(n, a, b);
        }
      }
    } else {
      var d :| 2 <= d < n && n % d == 0;
      DivisorGivesFactorisation(n, d);
    }
  }

  lemma FactorIsDivisor(n: int, a: int, b: int)
    requires IsFactorisation(n, a, b)
    ensures 2 <= a < n && n % a == 0
  {
    assert a * b >= a * 2;
    MultipleMod(a, b);
  }

  lemma DivisorGivesFactorisation(n: int, d: int)
    requires 2 <= d < n && n % d == 0
    ensures IsFactorisation(n, d, n / d)
  {
    var q := n / d;
    assert n == d * q;
  }

  lemma MultipleMod(a: int, b: int)
    requires a > 0
    ensures (a * b) % a == 0
  {
    var n := a * b;
    var q, r := n / a, n % a;
    assert n == a * q + r && 0 <= r < a;
    var e := b - q;
    assert a * e == r;
  }

  /** What `sumPrime(n)` adds: every j in 1..n that passes `isPrime`. */
  ghost function PrimeSum(n: int): int
    decreases n
  {
    if n < 1 then 0 else PrimeSum(n - 1) + (if NoDivisorBelow(n) then n else 0)
  }

  /** The sum of the primes in 1..n. */
  ghost function TruePrimeSum(n: int): int
    decreases n
  {
    if n < 2 then 0 else TruePrimeSum(n - 1) + (if NoDivisorBelow(n) then n else 0)
  }

  /** `sumPrime` counts 1 as a prime: it exceeds the sum of primes by one. */
  lemma {:induction false} PrimeSumCountsOne(n: int)
    requires n >= 1
    ensures PrimeSum(n) == TruePrimeSum(n) + 1
    decreases n
  {
    if n > 1 {
      PrimeSumCountsOne(n - 1);
    } else {
      assert NoDivisorBelow(1);
    }
  }

  method SumPrime(numm: int) returns (result: int)
    ensures result == PrimeSum(numm)
  {
    result := 0;
    var j := 1;
    while j <= numm
      invariant 1 <= j <= if numm >= 0 then numm + 1 else 1
      invariant result == PrimeSum(j - 1)
    {
      var p := IsPrime(j);
      if p {
        result := result + j;
      }
      j := j + 1;
    }
    assert numm < 1 ==> PrimeSum(numm) == 0;
  }

  // Challenge 17: sumPo.

  /** The sum of the decimal digits of `n`. */
  function DigitSum(n: nat): nat {
    if n == 0 then 0 else n % 10 + DigitSum(n / 10)
  }

  /** Casting out nines: a number and its digit sum agree modulo 9. */
  lemma {:induction false} DigitSumModNine(n: nat)
    ensures (n - DigitSum(n)) % 9 == 0
  {
    if n > 0 {
      var q := n / 10;
      DigitSumModNine(q);
      var m := (q - DigitSum(q)) / 9;
      assert q - DigitSum(q) == 9 * m;
      assert n == 10 * q + n % 10;
      assert DigitSum(n) == n % 10 + DigitSum(q);
      assert n - DigitSum(n) == 9 * (q + m);
      MultipleMod(9, q + m);
    }
  }

  /** The digit sum never exceeds the number. */
  lemma {:induction false} DigitSumAtMost(n: nat)
    ensures DigitSum(n) <= n
  {
    if n > 0 {
      DigitSumAtMost(n / 10);
    }
  }

  /** `num % 10` and `parseInt(num / 10)` agree with Euclidean division for
      the positive values the loop sees, as long as `num / 10` stays below
      10^21, where JavaScript starts printing it in exponent notation. */
  method SumPo(num: int) returns (result: int)
    ensures num > 0 ==> result == DigitSum(num)
    ensures num <= 0 ==> result == 0
  {
    result := 0;
    var n := num;
    while n > 0
      invariant num > 0 ==> 0 <= n && result + DigitSum(n) == DigitSum(num)
      invariant num <= 0 ==> n == num && result == 0
    {
      result := result + n % 10;
      n := n / 10;
    }
  }

  // Challenges 20 and 21: rotateArray, declared twice.

  /** The array after `a.shift()` then `a.push(...)` of the shifted value. */
  function RotatedLeft(s: seq<Value>): (r: seq<Value>)
    ensures s == [] ==> r == [Undefined]
    ensures s != [] ==> |r| == |s| && multiset(r) == multiset(s)
    ensures s != [] ==> r[|r| - 1] == s[0] && r[..|r| - 1] == s[1..]
  {
    if s == [] then [Undefined]
    else
      assert s == [s[0]] + s[1..];
      s[1..] + [s[0]]
  }

  /** The array after `a.pop()` then `a.unshift(...)` of the popped value. */
  function RotatedRight(s: seq<Value>): (r: seq<Value>)
    ensures s == [] ==> r == [Undefined]
    ensures s != [] ==> |r| == |s| && multiset(r) == multiset(s)
    ensures s != [] ==> r[0] == s[|s| - 1] && r[1..] == s[..|s| - 1]
  {
    if s == [] then [Undefined]
    else
      assert s == s[..|s| - 1] + [s[|s| - 1]];
      [s[|s| - 1]] + s[..|s| - 1]
  }

  /** On a non-empty array each rotation undoes the other. */
  lemma RotationsUndoEachOther(s: seq<Value>)
    requires s != []
    ensures RotatedRight(RotatedLeft(s)) == s
    ensures RotatedLeft(RotatedRight(s)) == s
  {
    assert [s[0]] + s[1..] == s;
    assert s[..|s| - 1] + [s[|s| - 1]] == s;
  }

  /** On the empty array neither rotation is undone: both yield [undefined]. */
  lemma RotationsGrowEmpty()
    ensures RotatedRight(RotatedLeft([])) == [Undefined]
    ensures RotatedLeft(RotatedRight([])) == [Undefined]
  {
  }

  /** The first `rotateArray`: left by one, in place, returning its argument. */
  method RotateLeft(myArr: JsArray) returns (r: JsArray)
    modifies myArr
    ensures r == myArr && myArr.elems == RotatedLeft(old(myArr.elems))
  {
    var shifted := myArr.Shift();
    myArr.Push(shifted);
    return myArr;
  }

  /** The second `rotateArray`: right by one, in place, returning its
      argument. Function declarations are hoisted and the later one wins, so
      this is the binding every call of `rotateArray` in the script reaches. */
  method RotateArray(myArr: JsArray) returns (r: JsArray)
    modifies myArr
    ensures r == myArr && myArr.elems == RotatedRight(old(myArr.elems))
  {
    var popped := myArr.Pop();
    myArr.Unshift(popped);
    return myArr;
  }

  /** The demo call after the first declaration reaches the right rotation:
      `shown` is the array the call returns and logs. */
  method RotateDemo() returns (shown: seq<Value>)
    ensures shown == [Num(40), Num(10), Num(20), Num(30)]
  {
    var a := new JsArray([Num(10), Num(20), Num(30), Num(40)]);
    var r := RotateArray(a);
    shown := r.elems;
  }

  // Challenges 22, 23, 24: reverseArray, reverseStr, mergeArr.

  /** `myArr.reverse()`: in place, returning its argument. */
  method ReverseArray(myArr: JsArray) returns (r: JsArray)
    modifies myArr
    ensures r == myArr && myArr.elems == Reversed(old(myArr.elems))
  {
    myArr.Reverse();
    return myArr;
  }

  /** `mystr.split("").reverse().join("")`. */
  function ReverseStr(mystr: string): (r: string)
    ensures |r| == |mystr|
    ensures forall i :: 0 <= i < |mystr| ==> r[i] == mystr[|mystr| - 1 - i]
  {
    Reversed(mystr)
  }

  /** Reversing a string twice gives it back. */
  lemma ReverseStrTwice(mystr: string)
    ensures ReverseStr(ReverseStr(mystr)) == mystr
  {
    ReversedTwice(mystr);
  }

  /** `arr1.concat(arr2)`. */
  function MergeArr<T>(arr1: seq<T>, arr2: seq<T>): (r: seq<T>)
    ensures |r| == |arr1| + |arr2|
    ensures r[..|arr1|] == arr1 && r[|arr1|..] == arr2
  {
    arr1 + arr2
  }

  // Challenge 35: csvToArray.

  /** The trimmed text split into rows at newlines, each row into cells at ';'. */
  function CsvToArray(text: string): (rows: seq<seq<string>>)
    ensures |rows| >= 1
    ensures forall i :: 0 <= i < |rows| ==> |rows[i]| >= 1
    ensures forall i, j :: 0 <= i < |rows| && 0 <= j < |rows[i]| ==> ';' !in rows[i][j]
    ensures forall i, j :: 0 <= i < |rows| && 0 <= j < |rows[i]| ==> '\n' !in rows[i][j]
  {
    var lines := Split(Trim(text), '\n');
    seq(|lines|, i requires 0 <= i < |lines| => Split(lines[i], ';'))
  }

  /** Cells joined with ';', rows joined with newlines. */
  function CsvText(rows: seq<seq<string>>): string {
    Join(seq(|rows|, i requires 0 <= i < |rows| => Join(rows[i], ';')), '\n')
  }

  /** Rejoining the cells reconstructs the trimmed text. */
  lemma CsvRoundTrip(text: string)
    ensures CsvText(CsvToArray(text)) == Trim(text)
  {
    var lines := Split(Trim(text), '\n');
    var rows := CsvToArray(text);
    var joined := seq(|rows|, i requires 0 <= i < |rows| => Join(rows[i], ';'));
    forall i | 0 <= i < |lines| ensures joined[i] == lines[i] {
      JoinSplit(lines[i], ';');
    }
    assert joined == lines;
    JoinSplit(Trim(text), '\n');
  }
}
