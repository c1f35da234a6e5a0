/** Shared vocabulary: optional values standing for NaN, error results standing for
    raised exceptions, Python's integer conversions and slice bounds, substring search,
    and the NaN-ignoring folds numpy offers (nanmin, nanmax, nansum). */
module Common {

  /** `None` stands for NaN / no-data wherever a sample can be missing. */
  datatype Option<+T> = None | Some(value: T)

  /** The exceptions the modelled code raises, by the Python class it raises. */
  datatype Error =
    | ValueError(msg: string)
    | KeyError(key: string)
    | IndexError
    | TypeError
    | ZeroDivisionError
    | AssertionError(msg: string)
    | UnboundLocalError(name: string)
    | AttributeError(attr: string)
  /** An exception raised inside a library call (OpenCV, scipy, numpy), named by the call. */
  | ForeignError(call: string)

  datatype Result<+T> = Ok(value: T) | Err(error: Error)

  /** An argument that the source accepts either as one value or as a list of values. */
  datatype ScalarOrList<+T> = Scalar(item: T) | List(items: seq<T>)

  /** The list a ScalarOrList argument stands for (`[x]` for a scalar). */
  function AsList<T>(a: ScalarOrList<T>): (r: seq<T>)
    ensures a.Scalar? ==> r == [a.item]
    ensures a.List? ==> r == a.items
  {
    match a
    case Scalar(x) => [x]
    case List(xs) => xs
  }

  /** `random.choice` on a list argument, with the draw passed in as an index;
      a scalar argument is used as it is. An empty list raises IndexError. */
  function Choose<T>(a: ScalarOrList<T>, draw: nat): (r: Result<T>)
    ensures a.Scalar? ==> r == Ok(a.item)
    ensures a.List? && |a.items| == 0 ==> r == Err(IndexError)
    ensures a.List? && |a.items| > 0 ==> r.Ok? && r.value in a.items
  {
    match a
    case Scalar(x) => Ok(x)
    case List(xs) => if |xs| == 0 then Err(IndexError) else Ok(xs[draw % |xs|])
  }

  // ---------------------------------------------------------------------------
  // Numbers

  /** Python's `int(x)` on a float: truncation toward zero. */
  function Trunc(x: real): (r: int)
    ensures x >= 0.0 ==> r as real <= x < r as real + 1.0
    ensures x < 0.0 ==> r as real - 1.0 < x <= r as real
    ensures 0 <= r || x < 0.0
  {
    if x >= 0.0 then x.Floor else -((-x).Floor)
  }

  lemma TruncMonotone(x: real, y: real)
    requires x <= y
    ensures Trunc(x) <= Trunc(y)
  {
  }

  /** `int(n * f)` lies in [0, n] for a fraction f in [0, 1]. */
  lemma TruncScaledWithin(n: nat, f: real)
    requires 0.0 <= f <= 1.0
    ensures 0 <= Trunc(n as real * f) <= n
  {
    var p := n as real * f;
    var rest := n as real * (1.0 - f);
    NonNegativeProduct(n as real, f);
    NonNegativeProduct(n as real, 1.0 - f);
    assert p + rest == n as real;
    TruncMonotone(p, n as real);
    TruncMonotone(0.0, p);
    assert Trunc(n as real) == n;
  }

  lemma NonNegativeProduct(x: real, y: real)
    requires 0.0 <= x && 0.0 <= y
    ensures 0.0 <= x * y
  {
  }

  /** Clamp into [lo, hi] the way numpy's `clip` and torch's `clamp` do: when
      lo > hi every value becomes hi. */
  function Clamp(v: real, lo: real, hi: real): (r: real)
    ensures lo <= hi ==> lo <= r <= hi
    ensures lo <= v <= hi ==> r == v
    ensures r == hi || r == v || r == lo
  {
    if v < lo then (if lo <= hi then lo else hi) else if v > hi then hi else v
  }

  function IClamp(v: int, lo: int, hi: int): (r: int)
    requires lo <= hi
    ensures lo <= r <= hi
    ensures lo <= v <= hi ==> r == v
  {
    if v < lo then lo else if v > hi then hi else v
  }

  /** Python's floor division `a // b`. */
  function FloorDiv(a: int, b: int): int
    requires b != 0
  {
    if b > 0 then a / b else (-a) / (-b)
  }

  function Max(a: int, b: int): int { if a >= b then a else b }
  function Min(a: int, b: int): int { if a <= b then a else b }
  function RMin(a: real, b: real): real { if a <= b then a else b }
  function RMax(a: real, b: real): real { if a >= b then a else b }

  /** Python's `abs` on integers. */
  function Abs(a: int): nat { if a < 0 then -a else a }

  /** numpy's `round` (half to even) on a non-negative real. */
  function RoundHalfEven(x: real): (r: int)
    requires x >= 0.0
    ensures r >= 0
    ensures x - 0.5 <= r as real <= x + 0.5
  {
    var f := x.Floor;
    var frac := x - f as real;
    if frac < 0.5 then f
    else if frac > 0.5 then f + 1
    else if f % 2 == 0 then f else f + 1
  }

  // ---------------------------------------------------------------------------
  // Python slices

  /** The index Python uses for a slice bound `a` on a sequence of length n:
      negative bounds count from the end, and the result is clamped into [0, n]. */
  function SliceBound(a: int, n: nat): (r: nat)
    ensures r <= n
    ensures 0 <= a <= n ==> r == a
    ensures a > n ==> r == n
    ensures a < 0 && 0 <= a + n ==> r == a + n
    ensures a + n < 0 ==> r == 0
  {
    if a < 0 then (if a + n < 0 then 0 else a + n) else if a > n then n else a
  }

  /** `s[a:b]` with Python's rules for out-of-range and negative bounds. */
  function PySlice<T>(s: seq<T>, a: int, b: int): (r: seq<T>)
    ensures var lo, hi := SliceBound(a, |s|), SliceBound(b, |s|);
            if lo <= hi then r == s[lo..hi] else r == []
  {
    var lo, hi := SliceBound(a, |s|), SliceBound(b, |s|);
    if lo <= hi then s[lo..hi] else []
  }

  /** `image[r0:r1, c0:c1]` with numpy's slicing rules. */
  function Crop<T>(image: seq<seq<T>>, r0: int, r1: int, c0: int, c1: int): seq<seq<T>>
  {
    var rows := PySlice(image, r0, r1);
    seq(|rows|, k requires 0 <= k < |rows| => PySlice(rows[k], c0, c1))
  }

  /** A rectangular image of the given size. */
  predicate IsGrid<T>(g: seq<seq<T>>, rows: int, cols: int)
  {
    |g| == rows && forall r :: 0 <= r < |g| ==> |g[r]| == cols
  }

  /** A crop inside the image has the crop's size. */
  lemma CropShape<T>(g: seq<seq<T>>, rows: nat, cols: nat, r0: int, r1: int, c0: int, c1: int)
    requires IsGrid(g, rows, cols)
    requires 0 <= r0 <= r1 <= rows && 0 <= c0 <= c1 <= cols
    ensures IsGrid(Crop(g, r0, r1, c0, c1), r1 - r0, c1 - c0)
  {
  }

  /** Whether index k is selected by the slice `[a:b]` of a length-n sequence. */
  predicate InSlice(k: int, a: int, b: int, n: nat)
  {
    SliceBound(a, n) <= k < SliceBound(b, n)
  }

  /** A position as Python and numpy read it: negative positions count from the end. */
  function Position(i: int, n: nat): int
  {
    if i < 0 then i + n else i
  }

  /** The concatenation of a list of lists, in order (`pd.concat`, `sum(lists, [])`). */
  function Flatten<T>(parts: seq<seq<T>>): seq<T>
  {
    if |parts| == 0 then [] else Flatten(parts[..|parts| - 1]) + parts[|parts| - 1]
  }

  lemma {:induction false} FlattenCons<T>(a: seq<T>, rest: seq<seq<T>>)
    ensures Flatten([a] + rest) == a + Flatten(rest)
    decreases |rest|
  {
    if |rest| == 0 {
      assert [a] + rest == [a];
      assert [a][..0] == [];
    } else {
      var front := rest[..|rest| - 1];
      assert ([a] + rest)[..|rest|] == [a] + front;
      FlattenCons(a, front);
    }
  }

  // ---------------------------------------------------------------------------
  // Strings

  /** Python's `p in s` for strings. */
  predicate Contains(s: string, p: string)
    decreases |s|
  {
    p <= s || (|s| > 0 && Contains(s[1..], p))
  }

  /** The substring definition `Contains` implements. */
  ghost predicate HasSubstringAt(s: string, p: string, i: int)
  {
    0 <= i && i + |p| <= |s| && s[i..i + |p|] == p
  }

  lemma {:induction false} ContainsIsSubstring(s: string, p: string)
    ensures Contains(s, p) <==> exists i :: HasSubstringAt(s, p, i)
  {
    if Contains(s, p) {
      var i := ContainsWitness(s, p);
    }
    if i :| HasSubstringAt(s, p, i) {
      SubstringAtContains(s, p, i);
    }
  }

  lemma {:induction false} ContainsWitness(s: string, p: string) returns (i: nat)
    requires Contains(s, p)
    ensures HasSubstringAt(s, p, i)
    decreases |s|
  {
    if p <= s {
      i := 0;
    } else {
      var k := ContainsWitness(s[1..], p);
      assert s[1..][k..k + |p|] == s[k + 1..k + 1 + |p|];
      i := k + 1;
    }
  }

  lemma {:induction false} SubstringAtContains(s: string, p: string, i: int)
    requires HasSubstringAt(s, p, i)
    ensures Contains(s, p)
    decreases i
  {
    if i == 0 {
      assert s[..|p|] == p;
    } else {
      assert s[1..][i - 1..i - 1 + |p|] == s[i..i + |p|];
      SubstringAtContains(s[1..], p, i - 1);
    }
  }

  /** Python's `s.endswith(p)`. */
  predicate EndsWith(s: string, p: string)
  {
    |p| <= |s| && s[|s| - |p|..] == p
  }

  /** Python's `s.index(p)`: the first position of p in s (p must occur). */
  function IndexOf(s: string, p: string): (r: nat)
    requires Contains(s, p)
    ensures r + |p| <= |s| && s[r..r + |p|] == p
    ensures forall j :: 0 <= j < r ==> !(p <= s[j..])
    decreases |s|
  {
    if p <= s then 0
    else
      var k := IndexOf(s[1..], p);
      assert forall j :: 1 <= j < k + 1 ==> s[j..] == s[1..][j - 1..];
      k + 1
  }

  function DigitChar(d: nat): char
    requires d < 10
  {
    "0123456789"[d]
  }

  /** Decimal text of a natural number, as `str(n)`. */
  function NatToString(n: nat): (r: string)
    ensures |r| > 0
    ensures forall c :: c in r ==> c in "0123456789"
    decreases n
  {
    if n < 10 then [DigitChar(n)] else NatToString(n / 10) + [DigitChar(n % 10)]
  }

  /** Decimal text of an integer, as `str(i)` / `'{}'.format(i)`. */
  function IntToString(i: int): (r: string)
    ensures |r| > 0
    ensures '_' !in r
  {
    if i < 0 then "-" + NatToString(-i) else NatToString(i)
  }

  lemma {:induction false} NatToStringInjective(a: nat, b: nat)
    requires NatToString(a) == NatToString(b)
    ensures a == b
    decreases a
  {
    var sa, sb := NatToString(a), NatToString(b);
    if a < 10 && b < 10 {
      assert DigitChar(a) == sa[0] == DigitChar(b);
      DigitCharInjective(a, b);
    } else if a < 10 {
      LengthAtLeastTwo(b);
    } else if b < 10 {
      LengthAtLeastTwo(a);
    } else {
      assert sa[|sa| - 1] == DigitChar(a % 10) && sb[|sb| - 1] == DigitChar(b % 10);
      DigitCharInjective(a % 10, b % 10);
      assert sa[..|sa| - 1] == NatToString(a / 10);
      assert sb[..|sb| - 1] == NatToString(b / 10);
      NatToStringInjective(a / 10, b / 10);
      assert a == 10 * (a / 10) + a % 10;
      assert b == 10 * (b / 10) + b % 10;
    }
  }

  lemma DigitCharInjective(x: nat, y: nat)
    requires x < 10 && y < 10 && DigitChar(x) == DigitChar(y)
    ensures x == y
  {
  }

  lemma DigitsNoMinus(n: nat)
    ensures NatToString(n)[0] != '-'
  {
    assert NatToString(n)[0] in NatToString(n);
  }

  lemma LengthAtLeastTwo(n: nat)
    requires n >= 10
    ensures |NatToString(n)| >= 2
  {
  }

  lemma IntToStringInjective(a: int, b: int)
    requires IntToString(a) == IntToString(b)
    ensures a == b
  {
    var sa, sb := IntToString(a), IntToString(b);
    if a < 0 && b < 0 {
      assert sa[1..] == NatToString(-a) && sb[1..] == NatToString(-b);
      NatToStringInjective(-a, -b);
    } else if a < 0 {
      DigitsNoMinus(b);
    } else if b < 0 {
      DigitsNoMinus(a);
    } else {
      NatToStringInjective(a, b);
    }
  }

  // ---------------------------------------------------------------------------
  // NaN-ignoring folds over samples

  /** Number of samples that are not NaN (`np.sum(~np.isnan(a))`). */
  function CountValid(s: seq<Option<real>>): (r: nat)
    ensures r <= |s|
  {
    if |s| == 0 then 0 else CountValid(s[..|s| - 1]) + (if s[|s| - 1].Some? then 1 else 0)
  }

  /** `np.nansum`: the sum of the samples that are not NaN (0 when all are NaN). */
  function NanSum(s: seq<Option<real>>): real
  {
    if |s| == 0 then 0.0
    else NanSum(s[..|s| - 1]) + (match s[|s| - 1] case Some(v) => v case None => 0.0)
  }

  /** `np.nanmin`: None when every sample is NaN. On an empty sequence numpy raises instead
      (EmptyReduction); every caller checks for that case first. */
  function NanMin(s: seq<Option<real>>): (r: Option<real>)
    ensures r.None? <==> forall i :: 0 <= i < |s| ==> s[i].None?
    ensures r.Some? ==> (exists i :: 0 <= i < |s| && s[i] == r)
    ensures r.Some? ==> forall i :: 0 <= i < |s| && s[i].Some? ==> r.value <= s[i].value
  {
    if |s| == 0 then None
    else
      var m := NanMin(s[..|s| - 1]);
      var last := s[|s| - 1];
      assert forall i :: 0 <= i < |s| - 1 ==> s[..|s| - 1][i] == s[i];
      match last
      case None => m
      case Some(v) =>
        match m
        case None => Some(v)
        case Some(w) => if v < w then Some(v) else Some(w)
  }

  /** `np.nanmin` or `np.nanmax` of an empty array. */
  function EmptyReduction(op: string): Error
  {
    ValueError("zero-size array to reduction operation " + op + " which has no identity")
  }

  /** `np.nanmax`: None when every sample is NaN. On an empty sequence numpy raises instead
      (EmptyReduction); every caller checks for that case first. */
  function NanMax(s: seq<Option<real>>): (r: Option<real>)
    ensures r.None? <==> forall i :: 0 <= i < |s| ==> s[i].None?
    ensures r.Some? ==> (exists i :: 0 <= i < |s| && s[i] == r)
    ensures r.Some? ==> forall i :: 0 <= i < |s| && s[i].Some? ==> s[i].value <= r.value
  {
    if |s| == 0 then None
    else
      var m := NanMax(s[..|s| - 1]);
      var last := s[|s| - 1];
      assert forall i :: 0 <= i < |s| - 1 ==> s[..|s| - 1][i] == s[i];
      match last
      case None => m
      case Some(v) =>
        match m
        case None => Some(v)
        case Some(w) => if v > w then Some(v) else Some(w)
  }
}
