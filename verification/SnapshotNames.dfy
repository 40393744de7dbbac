/**
  Names of dump files: numbers padded with zeros to eight digits. They are compared as strings, both to find
  the last number in a directory and to read the files in order.
 */
module SnapshotNames {
  import opened Options

  // ----- strings in order -----

  /** Strict order of strings, character by character. */
  predicate Before(a: string, b: string) {
    b != "" && (a == "" || a[0] < b[0] || (a[0] == b[0] && Before(a[1..], b[1..])))
  }

  lemma {:induction false} BeforeIsTotal(a: string, b: string)
    ensures a == b || Before(a, b) || Before(b, a)
  {
    if a != "" && b != "" && a[0] == b[0] {
      BeforeIsTotal(a[1..], b[1..]);
      assert a == [a[0]] + a[1..] && b == [b[0]] + b[1..];
    }
  }

  lemma {:induction false} BeforeIsStrict(a: string, b: string)
    ensures !(Before(a, b) && Before(b, a)) && !Before(a, a)
  {
    if a != "" {
      BeforeIsStrict(a[1..], if b == "" then "" else b[1..]);
    }
  }

  lemma {:induction false} BeforeIsTransitive(a: string, b: string, c: string)
    requires Before(a, b) && Before(b, c)
    ensures Before(a, c)
  {
    if a != "" && a[0] == b[0] == c[0] {
      BeforeIsTransitive(a[1..], b[1..], c[1..]);
    }
  }

  lemma {:induction false} FirstDifference(a: string, b: string, i: nat)
    requires i < |a| && i < |b| && a[i] < b[i] && forall j: nat :: j < i ==> a[j] == b[j]
    ensures Before(a, b)
  {
    if i > 0 {
      FirstDifference(a[1..], b[1..], i - 1);
    }
  }

  lemma {:induction false} SameSuffix(a: string, b: string, s: string)
    requires |a| == |b|
    ensures Before(a + s, b + s) <==> Before(a, b)
  {
    if a == "" {
      BeforeIsStrict(s, s);
      assert a + s == s == b + s;
    } else {
      assert (a + s)[1..] == a[1..] + s && (b + s)[1..] == b[1..] + s;
      SameSuffix(a[1..], b[1..], s);
    }
  }

  lemma {:induction false} LastCharacter(a: string, b: string, x: char, y: char)
    requires |a| == |b|
    ensures Before(a + [x], b + [y]) <==> Before(a, b) || (a == b && x < y)
  {
    if a != "" {
      assert (a + [x])[1..] == a[1..] + [x] && (b + [y])[1..] == b[1..] + [y];
      LastCharacter(a[1..], b[1..], x, y);
      assert a == [a[0]] + a[1..] && b == [b[0]] + b[1..];
    }
  }

  // ----- numbers in decimal -----

  function Digit(d: nat): char
    requires d < 10
  {
    '0' + d as char
  }

  predicate AllDigits(s: string) {
    forall i: nat :: i < |s| ==> '0' <= s[i] <= '9'
  }

  function Digits(n: nat): string {
    if n < 10 then [Digit(n)] else Digits(n / 10) + [Digit(n % 10)]
  }

  function Value(s: string): nat
    requires AllDigits(s)
  {
    if s == "" then 0 else 10 * Value(s[..|s| - 1]) + (s[|s| - 1] as nat - '0' as nat)
  }

  function Pad(s: string, width: nat): string
    decreases width - |s|
  {
    if |s| >= width then s else Pad("0" + s, width)
  }

  const WIDTH: nat := 8

  function Name(n: nat): string {
    Pad(Digits(n), WIDTH) + ".json"
  }

  predicate IsDump(name: string) {
    |name| >= 5 && name[|name| - 5..] == ".json"
  }

  /** What `int` makes of the stem of a file name. */
  function Number(name: string): Option<nat>
    requires IsDump(name)
  {
    var stem := name[..|name| - 5];
    if stem != "" && AllDigits(stem) then Some(Value(stem)) else None
  }

  function Pow10(k: nat): nat {
    if k == 0 then 1 else 10 * Pow10(k - 1)
  }

  lemma {:induction false} DigitsAreRight(n: nat)
    ensures Digits(n) != "" && AllDigits(Digits(n)) && Value(Digits(n)) == n
  {
    if n >= 10 {
      DigitsAreRight(n / 10);
      var front, d := Digits(n / 10), Digit(n % 10);
      assert (front + [d])[..|front|] == front;
    }
  }

  lemma {:induction false} LeadingZero(s: string)
    requires AllDigits(s)
    ensures AllDigits("0" + s) && Value("0" + s) == Value(s)
  {
    if s != "" {
      LeadingZero(s[..|s| - 1]);
      assert ("0" + s)[..|s|] == "0" + s[..|s| - 1];
    } else {
      assert "0"[..0] == "" && "0" + s == "0";
    }
  }

  lemma {:induction false} PadKeepsValue(s: string, width: nat)
    requires AllDigits(s)
    ensures var p := Pad(s, width);
            AllDigits(p) && Value(p) == Value(s) && |p| == if |s| >= width then |s| else width
    decreases width - |s|
  {
    if |s| < width {
      LeadingZero(s);
      PadKeepsValue("0" + s, width);
    }
  }

  lemma {:induction false} LengthOfDigits(n: nat, k: nat)
    requires k >= 1
    ensures |Digits(n)| <= k <==> n < Pow10(k)
  {
    if n >= 10 {
      if k == 1 {
        DigitsAreRight(n / 10);
        assert Pow10(1) == 10;
      } else {
        LengthOfDigits(n / 10, k - 1);
      }
    } else {
      assert Pow10(k) >= 10 by { PowGrows(k); }
    }
  }

  lemma {:induction false} PowGrows(k: nat)
    ensures Pow10(k) >= 1 && (k >= 1 ==> Pow10(k) >= 10)
  {
    if k > 0 {
      PowGrows(k - 1);
    }
  }

  /** For digits of one length, order as strings is order as numbers. */
  lemma {:induction false} OrderOfDigits(a: string, b: string)
    requires |a| == |b| && AllDigits(a) && AllDigits(b)
    ensures Before(a, b) <==> Value(a) < Value(b)
    ensures a == b <==> Value(a) == Value(b)
  {
    if a != "" {
      var n := |a| - 1;
      OrderOfDigits(a[..n], b[..n]);
      LastCharacter(a[..n], b[..n], a[n], b[n]);
      assert a == a[..n] + [a[n]] && b == b[..n] + [b[n]];
    }
  }

  // ----- file names -----

  lemma NameIsNumbered(n: nat)
    ensures IsDump(Name(n)) && Number(Name(n)) == Some(n)
  {
    DigitsAreRight(n);
    PadKeepsValue(Digits(n), WIDTH);
    assert Name(n)[..|Name(n)| - 5] == Pad(Digits(n), WIDTH);
    assert Name(n)[|Name(n)| - 5..] == ".json";
  }

  lemma NamesDiffer(m: nat, n: nat)
    requires Name(m) == Name(n)
    ensures m == n
  {
    NameIsNumbered(m);
    NameIsNumbered(n);
  }

  /** Padded numbers of one length are in order. */
  lemma SameLengthInOrder(m: nat, n: nat)
    requires |Name(m)| == |Name(n)|
    ensures Before(Name(m), Name(n)) <==> m < n
  {
    var a, b := Pad(Digits(m), WIDTH), Pad(Digits(n), WIDTH);
    DigitsAreRight(m);
    DigitsAreRight(n);
    PadKeepsValue(Digits(m), WIDTH);
    PadKeepsValue(Digits(n), WIDTH);
    SameSuffix(a, b, ".json");
    OrderOfDigits(a, b);
  }

  const TOO_MANY: nat := 100_000_000

  lemma LengthOfName(n: nat)
    ensures |Name(n)| == (if n < TOO_MANY then WIDTH else |Digits(n)|) + 5
    ensures n >= TOO_MANY <==> |Digits(n)| > WIDTH
  {
    assert Pow10(4) == 10000 && Pow10(WIDTH) == TOO_MANY;
    LengthOfDigits(n, WIDTH);
    DigitsAreRight(n);
    PadKeepsValue(Digits(n), WIDTH);
  }

  /** Below 10^8 the order of names is the order of numbers. */
  lemma NamesInOrder(m: nat, n: nat)
    requires m < TOO_MANY && n < TOO_MANY
    ensures Before(Name(m), Name(n)) <==> m < n
  {
    LengthOfName(m);
    LengthOfName(n);
    SameLengthInOrder(m, n);
  }

  predicate NinesButLast(n: nat) {
    forall i: nat :: i < |Digits(n)| - 1 ==> Digits(n)[i] == '9'
  }

  /** The name of `n` comes last among those of the numbers from 1 to `n`. */
  ghost predicate ComesLast(n: nat) {
    forall m: nat :: 1 <= m < n ==> Before(Name(m), Name(n))
  }

  function Nines(k: nat): string {
    seq(k, i => '9')
  }

  lemma {:induction false} AllNines(k: nat)
    requires k >= 1
    ensures Pow10(k) >= 10 && Digits(Pow10(k) - 1) == Nines(k)
  {
    PowGrows(k);
    if k > 1 {
      AllNines(k - 1);
      assert (Pow10(k) - 1) / 10 == Pow10(k - 1) - 1 && (Pow10(k) - 1) % 10 == 9;
      assert Nines(k) == Nines(k - 1) + ['9'];
    } else {
      assert Pow10(1) == 10;
      assert Nines(1) == "9";
    }
  }

  lemma LongerThanNines(n: nat)
    requires n >= TOO_MANY && !NinesButLast(n)
    ensures !ComesLast(n)
  {
    var length := |Digits(n)|;
    LengthOfName(n);
    DigitsAreRight(n);
    AllNines(length - 1);
    LengthOfDigits(n, length - 1);
    var m := Pow10(length - 1) - 1;
    assert Name(m) == Nines(length - 1) + ".json" && Name(n) == Digits(n) + ".json";
    var i: nat :| i < length - 1 && Digits(n)[i] != '9';
    i := FirstNotNine(Digits(n), i);
    FirstDifference(Name(n), Name(m), i);
    BeforeIsStrict(Name(m), Name(n));
    assert 1 <= m < n;
  }

  lemma {:induction false} FirstNotNine(s: string, i: nat) returns (j: nat)
    requires i < |s| && AllDigits(s) && s[i] != '9'
    ensures j <= i && s[j] < '9' && forall k: nat :: k < j ==> s[k] == '9'
    decreases i
  {
    if k: nat :| k < i && s[k] != '9' {
      j := FirstNotNine(s, k);
    } else {
      j := i;
    }
  }

  lemma NinesComeLast(m: nat, n: nat)
    requires m < n && n >= TOO_MANY && NinesButLast(n)
    ensures Before(Name(m), Name(n))
  {
    var a, b := Pad(Digits(m), WIDTH), Digits(n);
    LengthOfName(m);
    LengthOfName(n);
    DigitsAreRight(m);
    DigitsAreRight(n);
    PadKeepsValue(Digits(m), WIDTH);
    LengthOfDigits(n, |b|);
    LengthOfDigits(m, |b|);
    assert Name(m) == a + ".json" && Name(n) == b + ".json";
    if |a| == |b| {
      SameLengthInOrder(m, n);
    } else if i: nat :| i < |a| && a[i] != '9' {
      var j := FirstNotNine(a, i);
      FirstDifference(Name(m), Name(n), j);
    } else {
      FirstDifference(Name(m), Name(n), |a|);
    }
  }

  /** The last number has the last name exactly below 10^8, or if all its digits but the last are nines. */
  lemma ComesLastIff(n: nat)
    ensures ComesLast(n) <==> n < TOO_MANY || NinesButLast(n)
  {
    if n < TOO_MANY {
      forall m: nat | 1 <= m < n ensures Before(Name(m), Name(n)) {
        NamesInOrder(m, n);
      }
    } else if NinesButLast(n) {
      forall m: nat | 1 <= m < n ensures Before(Name(m), Name(n)) {
        NinesComeLast(m, n);
      }
    } else {
      LongerThanNines(n);
    }
  }
}
