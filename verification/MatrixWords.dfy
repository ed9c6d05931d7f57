/** What a word of the build matrix means, spelled out by its characters, and that the reader agrees. */
module MatrixWords {
  import opened PyText
  import opened MatrixReader

  /** A word that stands for itself: no keyword, not between quotes, and not all digits. */
  predicate IsPlain(word: string) {
    && word != "true" && word != "false" && word != "null" && word != "~"
    && !(|word| >= 2 && word[0] == word[|word| - 1] && (word[0] == '\'' || word[0] == '"'))
    && (word == [] || exists i :: 0 <= i < |word| && !('0' <= word[i] <= '9'))
  }

  /** The meanings of a word, spelled out. A number may have zeros in front. */
  ghost predicate Means(word: string, v: Scalar) {
    match v
    case Flag(b) => word == if b then "true" else "false"
    case Null => word == "null" || word == "~"
    case Number(n) => exists k: nat :: word == Zeros(k) + Decimal(n)
    case Text(s) => word == "'" + s + "'" || word == "\"" + s + "\"" || (IsPlain(word) && word == s)
  }

  function Zeros(k: nat): string {
    seq(k, _ => '0')
  }

  /** `parse_scalar` gives a word the one meaning it has. */
  lemma ScalarMeans(word: string, v: Scalar)
    requires Trimmed(word)
    ensures ParseScalar(word) == v <==> Means(word, v)
  {
    StripTrimmed(word);
    match v
    case Flag(b) =>
    case Null =>
    case Number(n) => NumberMeans(word, n);
    case Text(s) => TextMeans(word, s);
  }

  lemma TextMeans(word: string, s: string)
    requires Trimmed(word)
    ensures ParseScalar(word) == Text(s) <==> Means(word, Text(s))
  {
    StripTrimmed(word);
    hide TrimLeft, TrimRight, Decimal, ParseDecimal;
    if Quoted(word) {
      assert word == [word[0]] + word[1..|word| - 1] + [word[0]];
      var single, double := "'" + s + "'", "\"" + s + "\"";
      assert single[1..|single| - 1] == s && double[1..|double| - 1] == s;
    }
  }

  lemma NumberMeans(word: string, n: nat)
    requires Trimmed(word)
    ensures ParseScalar(word) == Number(n) <==> Means(word, Number(n))
  {
    StripTrimmed(word);
    hide TrimLeft, TrimRight, Decimal, ParseDecimal;
    if ParseScalar(word) == Number(n) {
      var k := ZerosInFront(word);
    }
    forall k: nat | word == Zeros(k) + Decimal(n)
      ensures ParseScalar(word) == Number(n)
    {
      ZerosCountNothing(k, Decimal(n));
      DecimalRoundTrip(n);
      assert IsDigit(word[0]);
    }
  }

  lemma {:induction false} ZerosCountNothing(k: nat, s: string)
    requires AllDigits(s)
    ensures AllDigits(Zeros(k) + s) && ParseDecimal(Zeros(k) + s) == ParseDecimal(s)
    decreases |s|, k
  {
    var t := Zeros(k) + s;
    if s != [] {
      assert t[..|t| - 1] == Zeros(k) + s[..|s| - 1];
      ZerosCountNothing(k, s[..|s| - 1]);
    } else if k > 0 {
      assert t[..|t| - 1] == Zeros(k - 1) + s;
      ZerosCountNothing(k - 1, s);
    }
  }

  lemma {:induction false} ZerosInFront(word: string) returns (k: nat)
    requires word != [] && AllDigits(word)
    ensures word == Zeros(k) + Decimal(ParseDecimal(word))
  {
    var front, last := word[..|word| - 1], word[|word| - 1];
    assert word == front + [last];
    if front == [] {
      k := 0;
    } else {
      k := ZerosInFront(front);
      if ParseDecimal(front) == 0 {
        k := k + 1;
        assert Decimal(0) == "0" && Zeros(k) == Zeros(k - 1) + "0";
      }
    }
  }
}
