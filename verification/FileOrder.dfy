/**
 Segment files are listed by sorting their names, which carry the segment id padded with
 zeros (coordinator/src/main.rs to width 4, cluster/src/main.rs to width 3).
 */
module FileOrder {
  import opened Common
  import opened Collections

  function DigitChar(d: nat): char
    requires d < 10
  {
    '0' + d as char
  }

  function Digits(n: nat): (s: string)
    ensures |s| >= 1
  {
    if n < 10 then [DigitChar(n)] else Digits(n / 10) + [DigitChar(n % 10)]
  }

  /** At least `width` digits. */
  function Padded(n: nat, width: nat): string {
    var s := Digits(n);
    if |s| >= width then s else Repeat('0', width - |s|) + s
  }

  function Name(prefix: string, n: nat, width: nat): string { prefix + Padded(n, width) + ".ts" }

  function Pow10(k: nat): (p: nat)
    ensures p >= 1
  {
    if k == 0 then 1 else 10 * Pow10(k - 1)
  }

  /** The order in which names are sorted: character by character, a prefix first. */
  predicate Before(a: string, b: string) {
    if a == [] then true
    else if b == [] then false
    else a[0] < b[0] || (a[0] == b[0] && Before(a[1..], b[1..]))
  }

  function ByName(): (string, string) -> bool { (a: string, b: string) => Before(a, b) }

  /** The finished pre-splits, in whatever order they finished, sorted; or the first failure. */
  method PresplitPaths(results: seq<Result<string, string>>) returns (r: Result<seq<string>, string>, ghost finished: seq<string>)
    ensures r.Ok? <==> forall i :: 0 <= i < |results| ==> results[i].Ok?
    ensures r.Ok? ==> |finished| == |results| && forall i :: 0 <= i < |results| ==> results[i] == Ok(finished[i])
    ensures r.Ok? ==> r.value == Sort(finished, ByName())
    ensures r.Err? ==> |finished| < |results| && results[|finished|] == Err(r.error)
    ensures r.Err? ==> forall j :: 0 <= j < |finished| ==> results[j].Ok?
  {
    var paths, k := [], 0;
    while k < |results|
      invariant 0 <= k <= |results| && |paths| == k
      invariant forall i :: 0 <= i < k ==> results[i] == Ok(paths[i])
    {
      if results[k].Err? {
        return Err(results[k].error), paths;
      }
      paths := paths + [results[k].value];
      k := k + 1;
    }
    return Ok(Sort(paths, ByName())), paths;
  }

  // ----- the order of names is a total order -----

  lemma {:induction false} BeforeTotal(a: string, b: string)
    ensures Before(a, b) || Before(b, a)
    ensures Before(a, b) && Before(b, a) ==> a == b
  {
    if a != [] && b != [] && a[0] == b[0] {
      BeforeTotal(a[1..], b[1..]);
      assert a == [a[0]] + a[1..] && b == [b[0]] + b[1..];
    }
  }

  lemma {:induction false} BeforeTransitive(a: string, b: string, c: string)
    requires Before(a, b) && Before(b, c)
    ensures Before(a, c)
  {
    if a != [] && a[0] == b[0] == c[0] {
      BeforeTransitive(a[1..], b[1..], c[1..]);
    }
  }

  lemma NameOrder()
    ensures IsOrdering(ByName()) && forall x, y :: ByName()(x, y) && ByName()(y, x) ==> x == y
  {
    forall x: string, y: string
      ensures ByName()(x, y) || ByName()(y, x)
      ensures ByName()(x, y) && ByName()(y, x) ==> x == y
    {
      BeforeTotal(x, y);
    }
    forall x: string, y: string, z: string | ByName()(x, y) && ByName()(y, z)
      ensures ByName()(x, z)
    {
      BeforeTransitive(x, y, z);
    }
  }

  lemma {:induction false} BeforePrefixed(p: string, a: string, b: string)
    ensures Before(p + a, p + b) <==> Before(a, b)
  {
    if p == [] {
      assert p + a == a && p + b == b;
    } else {
      BeforePrefixed(p[1..], a, b);
      assert (p + a)[1..] == p[1..] + a && (p + b)[1..] == p[1..] + b;
    }
  }

  /** Different strings of the same length keep their order when both are extended. */
  lemma {:induction false} BeforeExtended(a: string, b: string, s: string, t: string)
    requires |a| == |b| && a != b
    ensures Before(a + s, b + t) <==> Before(a, b)
  {
    assert a == [a[0]] + a[1..] && b == [b[0]] + b[1..];
    assert (a + s)[1..] == a[1..] + s && (b + t)[1..] == b[1..] + t;
    if a[0] == b[0] {
      BeforeExtended(a[1..], b[1..], s, t);
    }
  }

  // ----- padded numbers -----

  /** The last `k` digits of `n`. */
  function Fixed(n: nat, k: nat): (s: string)
    ensures |s| == k
  {
    if k == 0 then "" else Fixed(n / 10, k - 1) + [DigitChar(n % 10)]
  }

  lemma {:induction false} FixedZero(k: nat)
    ensures Fixed(0, k) == Repeat('0', k)
  {
    if k > 0 {
      FixedZero(k - 1);
      RepeatBack(k - 1);
    }
  }

  lemma {:induction false} RepeatBack(k: nat)
    ensures Repeat('0', k + 1) == Repeat('0', k) + ['0']
  {
    if k > 0 {
      RepeatBack(k - 1);
      assert ['0'] + (Repeat('0', k - 1) + ['0']) == (['0'] + Repeat('0', k - 1)) + ['0'];
    }
  }

  /** A number that fits is written with exactly `k` digits. */
  lemma {:induction false} PaddedIsFixed(n: nat, k: nat)
    requires n < Pow10(k) && k >= 1
    ensures |Digits(n)| <= k && Padded(n, k) == Fixed(n, k)
  {
    if n < 10 {
      FixedZero(k - 1);
      assert Fixed(n, k) == Fixed(0, k - 1) + [DigitChar(n)];
      assert k == 1 ==> Repeat('0', 0) + Digits(n) == Digits(n);
    } else {
      PaddedIsFixed(n / 10, k - 1);
      var zeros := Repeat('0', k - |Digits(n)|);
      assert zeros + (Digits(n / 10) + [DigitChar(n % 10)]) == (zeros + Digits(n / 10)) + [DigitChar(n % 10)];
      assert |Digits(n)| == k ==> zeros == "";
    }
  }

  lemma {:induction false} FixedOrder(i: nat, j: nat, k: nat)
    requires i < j < Pow10(k)
    ensures Before(Fixed(i, k), Fixed(j, k)) && Fixed(i, k) != Fixed(j, k)
  {
    var x, y := [DigitChar(i % 10)], [DigitChar(j % 10)];
    if i / 10 < j / 10 {
      FixedOrder(i / 10, j / 10, k - 1);
      BeforeExtended(Fixed(i / 10, k - 1), Fixed(j / 10, k - 1), x, y);
      assert Fixed(i, k)[..k - 1] == Fixed(i / 10, k - 1) && Fixed(j, k)[..k - 1] == Fixed(j / 10, k - 1);
    } else {
      BeforePrefixed(Fixed(i / 10, k - 1), x, y);
      assert Fixed(i, k)[k - 1] != Fixed(j, k)[k - 1];
    }
  }

  lemma NamesInOrder(prefix: string, i: nat, j: nat, width: nat)
    requires i < j < Pow10(width) && width >= 1
    ensures Before(Name(prefix, i, width), Name(prefix, j, width))
  {
    PaddedIsFixed(i, width);
    PaddedIsFixed(j, width);
    FixedOrder(i, j, width);
    BeforeExtended(Fixed(i, width), Fixed(j, width), ".ts", ".ts");
    BeforePrefixed(prefix, Fixed(i, width) + ".ts", Fixed(j, width) + ".ts");
    assert Name(prefix, i, width) == prefix + (Fixed(i, width) + ".ts");
    assert Name(prefix, j, width) == prefix + (Fixed(j, width) + ".ts");
  }

  // ----- beyond the width -----

  /** Ten to the k: a one and k zeros. */
  lemma {:induction false} PowerDigits(k: nat)
    ensures Digits(Pow10(k))[0] == '1' && |Digits(Pow10(k))| == k + 1
  {
    if k > 0 {
      PowerDigits(k - 1);
      var p := Pow10(k - 1);
      assert 10 * p / 10 == p && 10 * p >= 10;
      assert Digits(10 * p) == Digits(p) + [DigitChar(10 * p % 10)];
    }
  }

  /** The number before it: k nines. */
  lemma {:induction false} NinesDigits(k: nat)
    requires k >= 1
    ensures Digits(Pow10(k) - 1)[0] == '9' && |Digits(Pow10(k) - 1)| == k
  {
    if k > 1 {
      NinesDigits(k - 1);
      var p := Pow10(k - 1);
      assert p >= 10 && (10 * p - 1) / 10 == p - 1;
      assert Digits(10 * p - 1) == Digits(p - 1) + [DigitChar((10 * p - 1) % 10)];
    } else {
      assert Pow10(1) == 10 * Pow10(0) == 10;
    }
  }

  /** The first number that is too wide sorts before the one it follows. */
  lemma OverflowSortsEarly(prefix: string, width: nat)
    requires width >= 1
    ensures !Before(Name(prefix, Pow10(width) - 1, width), Name(prefix, Pow10(width), width))
  {
    PowerDigits(width);
    NinesDigits(width);
    var low, high := Padded(Pow10(width) - 1, width) + ".ts", Padded(Pow10(width), width) + ".ts";
    assert low[0] == '9' && high[0] == '1';
    BeforePrefixed(prefix, low, high);
    assert Name(prefix, Pow10(width) - 1, width) == prefix + low && Name(prefix, Pow10(width), width) == prefix + high;
  }

  // ----- main result -----

  function Names(prefix: string, n: nat, width: nat): (names: seq<string>)
    ensures |names| == n && forall i :: 0 <= i < n ==> names[i] == Name(prefix, i, width)
  {
    seq(n, i requires 0 <= i < n => Name(prefix, i, width))
  }

  /**
   However the splits finish, sorting their names puts segment i at position i, exactly when
   the number of segments does not exceed ten to the width.
   */
  lemma FileOrderIsSegmentOrder(prefix: string, n: nat, width: nat, paths: seq<string>)
    requires width >= 1 && multiset(paths) == multiset(Names(prefix, n, width))
    ensures Sort(paths, ByName()) == Names(prefix, n, width) <==> n <= Pow10(width)
  {
    var names := Names(prefix, n, width);
    NameOrder();
    SortCorrect(paths, ByName());
    if n <= Pow10(width) {
      forall i, j | 0 <= i < j < n
        ensures ByName()(names[i], names[j])
      {
        NamesInOrder(prefix, i, j, width);
      }
      SortedUnique(Sort(paths, ByName()), names, ByName());
    } else {
      OverflowSortsEarly(prefix, width);
      assert !ByName()(names[Pow10(width) - 1], names[Pow10(width)]);
    }
  }
}
