/** The file-name and band-name handling of utils/drone_data.py: selecting image files by
    band name (filter_list, _solve_red_edge_order), extracting the variable names of a
    vegetation-index expression and substituting them (calculate_vi_fromxarray), and the
    DroneData methods that check which bands to export and build the output file names.
    Raster reads and writes and the eval of the expression are not modelled; a dataset is
    its list of variable names and its `count` attribute. */
module DroneData {
  import opened Common

  // ---------------------------------------------------------------------------
  // filter_list

  /** The position of the first pattern in pats that s contains; |pats| when none does. */
  function FirstMatch(s: string, pats: seq<string>): (k: nat)
    ensures k <= |pats|
    ensures k < |pats| ==> Contains(s, pats[k])
    ensures forall j :: 0 <= j < k ==> !Contains(s, pats[j])
  {
    if |pats| == 0 then 0
    else if Contains(s, pats[0]) then 0
    else
      var k := FirstMatch(s, pats[1..]);
      assert forall j :: 1 <= j < k + 1 ==> pats[j] == pats[1..][j - 1];
      1 + k
  }

  lemma MatchesSome(s: string, pats: seq<string>)
    ensures FirstMatch(s, pats) < |pats| <==> exists p :: p in pats && Contains(s, p)
  {
    if p :| p in pats && Contains(s, p) {
      var j :| 0 <= j < |pats| && pats[j] == p;
      assert FirstMatch(s, pats) <= j;
    }
  }

  /** The position of the first occurrence of x in s. */
  function FirstPos<T(==)>(s: seq<T>, x: T): (k: nat)
    requires x in s
    ensures k < |s| && s[k] == x
    ensures forall j :: 0 <= j < k ==> s[j] != x
  {
    if s[0] == x then 0
    else
      var k := FirstPos(s[1..], x);
      assert forall j :: 1 <= j < k + 1 ==> s[j] == s[1..][j - 1];
      1 + k
  }

  /** filter_list's order: by the first pattern matched, then by first position in list1. */
  predicate Before(a: string, b: string, list1: seq<string>, list2: seq<string>)
    requires a in list1 && b in list1
  {
    || FirstMatch(a, list2) < FirstMatch(b, list2)
    || (FirstMatch(a, list2) == FirstMatch(b, list2) && FirstPos(list1, a) < FirstPos(list1, b))
  }

  /** r holds, each once, the elements of list1 whose first matched pattern comes before
      position i, and those matching pattern i first that occur first before position j. */
  ghost predicate Collected(r: seq<string>, list1: seq<string>, list2: seq<string>, i: int, j: int)
  {
    forall e :: e in r <==> e in list1 && (FirstMatch(e, list2) < i || (FirstMatch(e, list2) == i && FirstPos(list1, e) < j))
  }

  /** r is in filter_list's order. */
  predicate InFilterOrder(r: seq<string>, list1: seq<string>, list2: seq<string>)
  {
    forall a, b :: 0 <= a < b < |r| ==> r[a] in list1 && r[b] in list1 && Before(r[a], r[b], list1, list2)
  }

  /** One pass of filter_list's inner loop: the elements of list1 containing pattern i that
      are not yet collected, appended in list1 order. */
  method CollectPattern(list1: seq<string>, list2: seq<string>, i: nat, r0: seq<string>) returns (r: seq<string>)
    requires i < |list2|
    requires Collected(r0, list1, list2, i, 0) && InFilterOrder(r0, list1, list2)
    ensures Collected(r, list1, list2, i + 1, 0) && InFilterOrder(r, list1, list2)
  {
    r := r0;
    for j := 0 to |list1|
      invariant Collected(r, list1, list2, i, j) && InFilterOrder(r, list1, list2)
    {
      var e := list1[j];
      if Contains(e, list2[i]) && e !in r {
        assert FirstMatch(e, list2) == i && FirstPos(list1, e) == j;
        r := r + [e];
      }
    }
  }

  /** filter_list(list1, list2): the elements of list1 that contain some entry of list2,
      each once, ordered by the first entry of list2 they contain and then by their first
      position in list1. */
  method FilterList(list1: seq<string>, list2: seq<string>) returns (r: seq<string>)
    ensures forall e :: e in r <==> e in list1 && exists p :: p in list2 && Contains(e, p)
    ensures forall a, b :: 0 <= a < b < |r| ==> r[a] in list1 && r[b] in list1 && Before(r[a], r[b], list1, list2)
    ensures forall a, b :: 0 <= a < b < |r| ==> r[a] != r[b]
  {
    r := [];
    for i := 0 to |list2|
      invariant Collected(r, list1, list2, i, 0) && InFilterOrder(r, list1, list2)
    {
      r := CollectPattern(list1, list2, i, r);
    }
    forall e | e in list1
      ensures FirstMatch(e, list2) < |list2| <==> exists p :: p in list2 && Contains(e, p)
    {
      MatchesSome(e, list2);
    }
  }

  // ---------------------------------------------------------------------------
  // _solve_red_edge_order

  /** Whether a path is taken for a band: it contains the band name, and for band "red" it
      does not also mention "edge". */
  predicate Selects(band: string, src: string)
  {
    Contains(src, band) && (band == "red" ==> !Contains(src, "edge"))
  }

  /** The paths selected for one band, in path order. */
  function Picks(band: string, paths: seq<string>): (r: seq<string>)
    ensures forall e :: e in r <==> e in paths && Selects(band, e)
  {
    if |paths| == 0 then []
    else
      var last := paths[|paths| - 1];
      assert paths == paths[..|paths| - 1] + [last];
      Picks(band, paths[..|paths| - 1]) + (if Selects(band, last) then [last] else [])
  }

  /** The paths selected for each band in turn, band after band. */
  function PicksAll(bands: seq<string>, paths: seq<string>): seq<string>
  {
    if |bands| == 0 then [] else PicksAll(bands[..|bands| - 1], paths) + Picks(bands[|bands| - 1], paths)
  }

  lemma {:induction false} PicksAllMembers(bands: seq<string>, paths: seq<string>)
    ensures forall e :: e in PicksAll(bands, paths) <==> e in paths && exists b :: b in bands && Selects(b, e)
  {
    if |bands| > 0 {
      var init, last := bands[..|bands| - 1], bands[|bands| - 1];
      PicksAllMembers(init, paths);
      assert bands == init + [last];
      forall e | e in paths && (exists b :: b in bands && Selects(b, e))
        ensures e in PicksAll(bands, paths)
      {
        var b :| b in bands && Selects(b, e);
        if b != last {
          assert b in init;
        }
      }
    }
  }

  /** Every path in ordered is one of the paths and selected for one of the bands. */
  predicate Explained(ordered: seq<string>, listpaths: seq<string>, bands: seq<string>)
  {
    forall e :: e in ordered ==> e in listpaths && exists b :: b in bands && Selects(b, e)
  }

  predicate NoPathIsBand(listpaths: seq<string>, bands: seq<string>)
  {
    forall b :: b in bands ==> b !in listpaths
  }

  /** The inner loop of _solve_red_edge_order for one band. */
  method OrderForBand(listpaths: seq<string>, bands: seq<string>, i: nat, ordered0: seq<string>)
    returns (ordered: seq<string>)
    requires i < |bands|
    requires Explained(ordered0, listpaths, bands)
    ensures Explained(ordered, listpaths, bands)
    ensures NoPathIsBand(listpaths, bands) ==> ordered == ordered0 + Picks(bands[i], listpaths)
  {
    var band := bands[i];
    ordered := ordered0;
    for j := 0 to |listpaths|
      invariant Explained(ordered, listpaths, bands)
      invariant NoPathIsBand(listpaths, bands) ==> ordered == ordered0 + Picks(band, listpaths[..j])
    {
      var src := listpaths[j];
      assert listpaths[..j + 1] == listpaths[..j] + [src];
      if Contains(src, band) && band !in ordered {
        if Contains(src, "red") && "red" == band {
          if !Contains(src, "edge") {
            assert Selects(band, src);
            ordered := ordered + [src];
          }
        } else {
          assert Selects(band, src);
          ordered := ordered + [src];
        }
      } else if NoPathIsBand(listpaths, bands) {
        assert band !in ordered;
      }
    }
    assert listpaths[..|listpaths|] == listpaths;
  }

  /** _solve_red_edge_order(listpaths, bands): for each band, the paths containing its name,
      where band "red" skips paths that also mention "edge". Every path taken contains a
      band and is not a red-edge path taken for "red"; when no path is itself a band name
      (so the `band not in ordered` test never fires), the result is exactly the
      per-band selections concatenated. */
  method SolveRedEdgeOrder(listpaths: seq<string>, bands: seq<string>) returns (ordered: seq<string>)
    ensures forall e :: e in ordered ==> e in listpaths && exists b :: b in bands && Selects(b, e)
    ensures NoPathIsBand(listpaths, bands) ==> ordered == PicksAll(bands, listpaths)
  {
    ordered := [];
    for i := 0 to |bands|
      invariant Explained(ordered, listpaths, bands)
      invariant NoPathIsBand(listpaths, bands) ==> ordered == PicksAll(bands[..i], listpaths)
    {
      assert bands[..i + 1][..i] == bands[..i];
      ordered := OrderForBand(listpaths, bands, i, ordered);
    }
    assert bands[..|bands|] == bands;
  }

  // ---------------------------------------------------------------------------
  // Variable names of a vegetation-index expression (calculate_vi_fromxarray)

  /** The characters turned into '-' before splitting: `* - + / ) ( [ ]`, space, and then
      every decimal digit. */
  predicate IsSeparator(c: char)
  {
    c in "*-+/)( []" || '0' <= c <= '9'
  }

  /** `s.replace(c, d)` for a single character c. */
  function ReplaceChar(s: string, c: char, d: char): (r: string)
    ensures |r| == |s| && forall k :: 0 <= k < |s| ==> r[k] == (if s[k] == c then d else s[k])
  {
    seq(|s|, k requires 0 <= k < |s| => if s[k] == c then d else s[k])
  }

  /** The expression with every separator character turned into '-'. */
  function Masked(s: string): string
  {
    seq(|s|, k requires 0 <= k < |s| => if IsSeparator(s[k]) then '-' else s[k])
  }

  /** The two rewriting steps of calculate_vi_fromxarray: each symbol replaced by '-' in
      turn, then `re.sub('\d', '-', test)`. */
  method MaskSeparators(expression: string) returns (test: string)
    ensures test == Masked(expression)
  {
    var symbols := "*-+/)( []";
    test := expression;
    for i := 0 to |symbols|
      invariant |test| == |expression|
      invariant forall k :: 0 <= k < |test| ==> test[k] == (if expression[k] in symbols[..i] then '-' else expression[k])
    {
      assert symbols[..i + 1] == symbols[..i] + [symbols[i]];
      test := ReplaceChar(test, symbols[i], '-');
    }
    assert symbols[..|symbols|] == symbols;
    test := seq(|test|, k requires 0 <= k < |test| => if '0' <= test[k] <= '9' then '-' else test[k]);
  }

  /** `s.split(sep)`: the pieces between separators, empty pieces included. */
  function Split(s: string, sep: char): (r: seq<string>)
    ensures |r| > 0
    decreases |s|
  {
    if |s| == 0 then [""]
    else
      var rest := Split(s[1..], sep);
      if s[0] == sep then [""] + rest else [[s[0]] + rest[0]] + rest[1..]
  }

  /** `sep.join(ps)`. */
  function Join(ps: seq<string>, sep: char): string
  {
    if |ps| == 0 then "" else if |ps| == 1 then ps[0] else ps[0] + [sep] + Join(ps[1..], sep)
  }

  /** Joining the pieces of a split with the separator gives the string back. */
  lemma {:induction false} SplitJoin(s: string, sep: char)
    ensures Join(Split(s, sep), sep) == s
    decreases |s|
  {
    if |s| > 0 {
      var rest := Split(s[1..], sep);
      SplitJoin(s[1..], sep);
      if s[0] == sep {
        assert ([""] + rest)[1..] == rest;
      } else if |rest| > 1 {
        assert ([[s[0]] + rest[0]] + rest[1..])[1..] == rest[1..];
        assert Join(rest, sep) == rest[0] + [sep] + Join(rest[1..], sep);
      }
    }
  }

  /** Python's `<` on strings: lexicographic order of code points, a proper prefix first. */
  predicate LexLess(a: string, b: string)
    decreases |a|
  {
    if |a| == 0 then |b| > 0
    else |b| > 0 && (a[0] < b[0] || (a[0] == b[0] && LexLess(a[1..], b[1..])))
  }

  lemma {:induction false} LexIrreflexive(a: string)
    ensures !LexLess(a, a)
    decreases |a|
  {
    if |a| > 0 {
      LexIrreflexive(a[1..]);
    }
  }

  lemma {:induction false} LexTotal(a: string, b: string)
    requires a != b
    ensures LexLess(a, b) || LexLess(b, a)
    decreases |a|
  {
    if |a| > 0 && |b| > 0 && a[0] == b[0] {
      assert a == [a[0]] + a[1..] && b == [b[0]] + b[1..];
      LexTotal(a[1..], b[1..]);
    }
  }

  lemma {:induction false} LexTransitive(a: string, b: string, c: string)
    requires LexLess(a, b) && LexLess(b, c)
    ensures LexLess(a, c)
    decreases |a|
  {
    if |a| > 0 && a[0] == b[0] && b[0] == c[0] {
      LexTransitive(a[1..], b[1..], c[1..]);
    }
  }

  /** Strictly increasing: sorted and without repeats. */
  predicate StrictlySorted(s: seq<string>)
  {
    forall a, b :: 0 <= a < b < |s| ==> LexLess(s[a], s[b])
  }

  /** x placed into a strictly increasing list, unless already there. */
  function Insert(x: string, s: seq<string>): (r: seq<string>)
    requires StrictlySorted(s)
    ensures StrictlySorted(r)
    ensures forall y :: y in r <==> y == x || y in s
  {
    if |s| == 0 then [x]
    else if x == s[0] then s
    else if LexLess(x, s[0]) then
      assert forall b :: 0 < b < |s| ==> LexLess(x, s[b]) by {
        forall b | 0 < b < |s| {
          LexTransitive(x, s[0], s[b]);
        }
      }
      [x] + s
    else
      LexTotal(x, s[0]);
      var r := [s[0]] + Insert(x, s[1..]);
      assert forall b :: 0 < b < |r| ==> r[b] in Insert(x, s[1..]);
      r
  }

  /** `np.unique(xs)`: the distinct values, in increasing order. */
  function Unique(xs: seq<string>): (r: seq<string>)
    ensures StrictlySorted(r)
    ensures forall y :: y in r <==> y in xs
  {
    if |xs| == 0 then []
    else
      assert xs == xs[..|xs| - 1] + [xs[|xs| - 1]];
      Insert(xs[|xs| - 1], Unique(xs[..|xs| - 1]))
  }

  /** `[i for i in ps if i != '']`. */
  function NonEmpty(ps: seq<string>): (r: seq<string>)
    ensures forall y :: y in r <==> y in ps && y != ""
  {
    if |ps| == 0 then [] else (if ps[0] == "" then [] else [ps[0]]) + NonEmpty(ps[1..])
  }

  lemma {:induction false} NonEmptyKeepsOrder(ps: seq<string>)
    requires StrictlySorted(ps)
    ensures StrictlySorted(NonEmpty(ps))
  {
    if |ps| > 0 {
      NonEmptyKeepsOrder(ps[1..]);
      var rest := NonEmpty(ps[1..]);
      forall y | y in rest
        ensures LexLess(ps[0], y)
      {
        var b :| 1 <= b < |ps| && ps[b] == y;
      }
    }
  }

  /** The variable names calculate_vi_fromxarray reads from an expression. */
  function VarNames(expression: string): seq<string>
  {
    NonEmpty(Unique(Split(Masked(expression), '-')))
  }

  /** A piece of an expression: a maximal run of name characters, or one separator. */
  datatype Piece = Name(text: string) | Sep(c: char) | Ref(index: nat)

  /** The expression cut into names and separators. */
  function Tokenize(s: string): (r: seq<Piece>)
    ensures forall p :: p in r ==> !p.Ref? && (p.Name? ==> |p.text| > 0)
    decreases |s|
  {
    if |s| == 0 then []
    else
      var rest := Tokenize(s[1..]);
      if IsSeparator(s[0]) then [Sep(s[0])] + rest
      else if |rest| > 0 && rest[0].Name? then [Name([s[0]] + rest[0].text)] + rest[1..]
      else [Name([s[0]])] + rest
  }

  /** The name texts among the pieces, in order. */
  function NameTexts(ps: seq<Piece>): seq<string>
  {
    if |ps| == 0 then [] else (if ps[0].Name? then [ps[0].text] else []) + NameTexts(ps[1..])
  }

  /** The pieces written back as text; `Ref(k)` is written `listvar[k]`. */
  function Render(ps: seq<Piece>): string
  {
    if |ps| == 0 then ""
    else
      (match ps[0]
       case Name(t) => t
       case Sep(c) => [c]
       case Ref(k) => "listvar[" + NatToString(k) + "]") + Render(ps[1..])
  }

  lemma {:induction false} TokenizeRoundTrip(s: string)
    ensures Render(Tokenize(s)) == s
    decreases |s|
  {
    if |s| > 0 {
      TokenizeRoundTrip(s[1..]);
      var rest := Tokenize(s[1..]);
      if !IsSeparator(s[0]) && |rest| > 0 && rest[0].Name? {
        assert ([Name([s[0]] + rest[0].text)] + rest[1..])[1..] == rest[1..];
        assert Render(rest) == rest[0].text + Render(rest[1..]);
      } else {
        assert ([Tokenize(s)[0]] + rest)[1..] == rest;
      }
    }
  }

  lemma MaskedCons(s: string)
    requires |s| > 0
    ensures Masked(s) == [if IsSeparator(s[0]) then '-' else s[0]] + Masked(s[1..])
  {
  }

  lemma NonEmptyCons(x: string, ps: seq<string>)
    ensures NonEmpty([x] + ps) == (if x == "" then [] else [x]) + NonEmpty(ps)
  {
    assert ([x] + ps)[1..] == ps;
  }

  lemma NameTextsCons(p: Piece, ps: seq<Piece>)
    ensures NameTexts([p] + ps) == (if p.Name? then [p.text] else []) + NameTexts(ps)
  {
    assert ([p] + ps)[1..] == ps;
  }

  /** One step of the split: a separator starts a new piece, any other character joins the
      first piece. */
  lemma SplitMaskedCons(s: string)
    requires |s| > 0
    ensures var p' := Split(Masked(s[1..]), '-');
      Split(Masked(s), '-') == if IsSeparator(s[0]) then [""] + p' else [[s[0]] + p'[0]] + p'[1..]
  {
    MaskedCons(s);
    var m := if IsSeparator(s[0]) then '-' else s[0];
    assert ([m] + Masked(s[1..]))[1..] == Masked(s[1..]);
  }

  /** A name character in front of a name piece extends that piece on both sides. */
  lemma NameRunCase(c: char, p': seq<string>, t': seq<Piece>)
    requires |p'| > 0 && |t'| > 0 && t'[0].Name? && p'[0] == t'[0].text != ""
    requires NonEmpty(p') == NameTexts(t')
    ensures NonEmpty([[c] + p'[0]] + p'[1..]) == NameTexts([Name([c] + t'[0].text)] + t'[1..])
  {
    assert p' == [p'[0]] + p'[1..] && t' == [t'[0]] + t'[1..];
    NonEmptyCons(p'[0], p'[1..]);
    NameTextsCons(t'[0], t'[1..]);
    var a, b := NonEmpty(p'[1..]), NameTexts(t'[1..]);
    assert [p'[0]] + a == [p'[0]] + b;
    assert a == ([p'[0]] + a)[1..] && b == ([p'[0]] + b)[1..];
    NonEmptyCons([c] + p'[0], p'[1..]);
    NameTextsCons(Name([c] + t'[0].text), t'[1..]);
  }

  /** A name character in front of anything else starts a new one-character name. */
  lemma NameStartCase(c: char, p': seq<string>, t': seq<Piece>)
    requires |p'| > 0 && p'[0] == ""
    requires NonEmpty(p') == NameTexts(t')
    ensures NonEmpty([[c] + p'[0]] + p'[1..]) == NameTexts([Name([c])] + t')
  {
    assert p' == [""] + p'[1..] && [c] + p'[0] == [c];
    NonEmptyCons("", p'[1..]);
    NonEmptyCons([c], p'[1..]);
    NameTextsCons(Name([c]), t');
  }

  /** The names split out of the masked expression are exactly the name pieces of the
      expression, in order. */
  lemma {:induction false} SplitMatchesTokens(s: string)
    ensures var (t, p) := (Tokenize(s), Split(Masked(s), '-'));
      && NonEmpty(p) == NameTexts(t)
      && p[0] == (if |t| > 0 && t[0].Name? then t[0].text else "")
    decreases |s|
  {
    if |s| > 0 {
      SplitMatchesTokens(s[1..]);
      SplitMaskedCons(s);
      var t', p' := Tokenize(s[1..]), Split(Masked(s[1..]), '-');
      if IsSeparator(s[0]) {
        NonEmptyCons("", p');
        NameTextsCons(Sep(s[0]), t');
      } else if |t'| > 0 && t'[0].Name? {
        assert t'[0] in t';
        NameRunCase(s[0], p', t');
      } else {
        NameStartCase(s[0], p', t');
      }
    }
  }

  lemma {:induction false} NameTextsMembers(ps: seq<Piece>)
    ensures forall t :: t in NameTexts(ps) <==> Name(t) in ps
  {
    if |ps| > 0 {
      NameTextsMembers(ps[1..]);
      assert ps == [ps[0]] + ps[1..];
    }
  }

  /** The names read from an expression are its name pieces, each once and in increasing
      order; none is empty and none contains a separator. */
  lemma VarNamesAreTokens(expression: string)
    ensures StrictlySorted(VarNames(expression))
    ensures forall n :: n in VarNames(expression) <==> Name(n) in Tokenize(expression)
    ensures forall n :: n in VarNames(expression) ==> n != "" && forall c :: c in n ==> !IsSeparator(c)
  {
    var p := Split(Masked(expression), '-');
    NonEmptyKeepsOrder(Unique(p));
    SplitMatchesTokens(expression);
    NameTextsMembers(Tokenize(expression));
    assert forall n :: n in NonEmpty(Unique(p)) <==> n in NonEmpty(p);
    forall n | Name(n) in Tokenize(expression)
      ensures forall c :: c in n ==> !IsSeparator(c)
    {
      NamesHaveNoSeparator(expression, n);
    }
  }

  lemma {:induction false} NamesHaveNoSeparator(s: string, n: string)
    requires Name(n) in Tokenize(s)
    ensures forall c :: c in n ==> !IsSeparator(c)
    decreases |s|
  {
    var rest := Tokenize(s[1..]);
    if IsSeparator(s[0]) {
      assert Name(n) in rest;
      NamesHaveNoSeparator(s[1..], n);
    } else if |rest| > 0 && rest[0].Name? {
      if n == [s[0]] + rest[0].text {
        NamesHaveNoSeparator(s[1..], rest[0].text);
      } else {
        assert Name(n) in rest[1..];
        NamesHaveNoSeparator(s[1..], n);
      }
    } else if n != [s[0]] {
      assert Name(n) in rest;
      NamesHaveNoSeparator(s[1..], n);
    }
  }

  // ---------------------------------------------------------------------------
  // Substituting the names

  /** `'listvar[{}]'.format(k)`. */
  function RefText(k: nat): string
  {
    "listvar[" + NatToString(k) + "]"
  }

  /** `s.replace(pat, rep)`: every non-overlapping occurrence of pat, left to right. */
  function ReplaceAll(s: string, pat: string, rep: string): string
    requires |pat| > 0
    decreases |s|
  {
    if |s| < |pat| then s
    else if pat <= s then rep + ReplaceAll(s[|pat|..], pat, rep)
    else [s[0]] + ReplaceAll(s[1..], pat, rep)
  }

  /** The expression after the first n textual replacements of calculate_vi_fromxarray. */
  function ReplaceEach(expression: string, names: seq<string>, n: nat): string
    requires n <= |names| && forall k :: 0 <= k < |names| ==> names[k] != ""
  {
    if n == 0 then expression else ReplaceAll(ReplaceEach(expression, names, n - 1), names[n - 1], RefText(n - 1))
  }

  /** The textual substitution as written: for each name in turn, ValueError when it is not
      a variable, otherwise every occurrence replaced by `listvar[i]`. */
  method ReplaceNamesAsWritten(expression: string, names: seq<string>, variables: seq<string>)
    returns (r: Result<string>)
    requires forall k :: 0 <= k < |names| ==> names[k] != ""
    ensures r.Err? <==> FirstMissing(names, variables) < |names|
    ensures r.Err? ==> r.error == ValueError("there is not a variable named as " + names[FirstMissing(names, variables)])
    ensures r.Ok? ==> r.value == ReplaceEach(expression, names, |names|)
  {
    var e := expression;
    for i := 0 to |names|
      invariant e == ReplaceEach(expression, names, i)
      invariant forall j :: 0 <= j < i ==> names[j] in variables
    {
      if names[i] in variables {
        e := ReplaceAll(e, names[i], RefText(i));
      } else {
        assert FirstMissing(names, variables) == i;
        return Err(ValueError("there is not a variable named as " + names[i]));
      }
    }
    r := Ok(e);
  }

  /** Each name piece replaced by the reference to its position among the names. */
  function Substituted(ps: seq<Piece>, names: seq<string>): (r: seq<Piece>)
    requires forall p :: p in ps && p.Name? ==> p.text in names
    ensures |r| == |ps|
  {
    if |ps| == 0 then []
    else
      (if ps[0].Name? then [Ref(FirstPos(names, ps[0].text))] else [ps[0]]) + Substituted(ps[1..], names)
  }

  /** Each reference read back as the name it stands for. */
  function Restored(ps: seq<Piece>, names: seq<string>): seq<Piece>
    requires forall p :: p in ps && p.Ref? ==> p.index < |names|
  {
    if |ps| == 0 then []
    else (if ps[0].Ref? then [Name(names[ps[0].index])] else [ps[0]]) + Restored(ps[1..], names)
  }

  /** Every reference the substitution makes points at one of the names. */
  lemma {:induction false} SubstitutedRefsInRange(ps: seq<Piece>, names: seq<string>)
    requires forall p :: p in ps ==> !p.Ref? && (p.Name? ==> p.text in names)
    ensures forall p :: p in Substituted(ps, names) && p.Ref? ==> p.index < |names|
  {
    if |ps| > 0 {
      var s := Substituted(ps, names);
      var tail := Substituted(ps[1..], names);
      SubstitutedRefsInRange(ps[1..], names);
      assert s == [s[0]] + tail;
      assert forall p :: p in s ==> p == s[0] || p in tail;
    }
  }

  lemma {:induction false} SubstitutedRestores(ps: seq<Piece>, names: seq<string>)
    requires forall p :: p in ps ==> !p.Ref? && (p.Name? ==> p.text in names)
    ensures forall p :: p in Substituted(ps, names) && p.Ref? ==> p.index < |names|
    ensures Restored(Substituted(ps, names), names) == ps
  {
    SubstitutedRefsInRange(ps, names);
    if |ps| > 0 {
      var s := Substituted(ps, names);
      var tail := Substituted(ps[1..], names);
      SubstitutedRestores(ps[1..], names);
      assert s[1..] == tail;
      RestoredHead(ps[0], s, names);
      assert ps == [ps[0]] + ps[1..];
    }
  }

  lemma RestoredHead(p: Piece, s: seq<Piece>, names: seq<string>)
    requires !p.Ref? && (p.Name? ==> p.text in names) && |s| > 0
    requires s[0] == (if p.Name? then Ref(FirstPos(names, p.text)) else p)
    requires forall q :: q in s && q.Ref? ==> q.index < |names|
    ensures Restored(s, names) == [p] + Restored(s[1..], names)
  {
  }

  /** The substitution as evidently intended: each whole name token replaced by the
      reference to its own position among the names. */
  function SubstituteTokens(expression: string, names: seq<string>): (r: string)
    requires forall n :: Name(n) in Tokenize(expression) ==> n in names
    ensures forall p :: p in Substituted(Tokenize(expression), names) && p.Ref? ==> p.index < |names|
    ensures r == Render(Substituted(Tokenize(expression), names))
    ensures Render(Restored(Substituted(Tokenize(expression), names), names)) == expression
  {
    SubstituteTokensRoundTrip(expression, names);
    Render(Substituted(Tokenize(expression), names))
  }

  /** Reading every reference of the substituted expression back as its name gives the
      expression again: no name is ever rewritten inside another. */
  lemma SubstituteTokensRoundTrip(expression: string, names: seq<string>)
    requires forall n :: Name(n) in Tokenize(expression) ==> n in names
    ensures forall p :: p in Substituted(Tokenize(expression), names) && p.Ref? ==> p.index < |names|
    ensures Render(Restored(Substituted(Tokenize(expression), names), names)) == expression
  {
    SubstitutedRestores(Tokenize(expression), names);
    TokenizeRoundTrip(expression);
  }

  // ---------------------------------------------------------------------------
  // Worked example: the expression `red_edge - red` over the variables red and red_edge.
  // The lemmas from here to ExampleSubstitutedPieces only unfold this one example, in
  // steps small enough for the solver: general facts about Split, Tokenize, Unique and
  // ReplaceAll on symbolic strings first, then the literal steps of the example. Its
  // results are ExampleNames, ExampleAsWritten and ExampleSubstituted.

  lemma {:induction false} SplitRun(a: string, t: string, sep: char)
    requires sep !in a
    ensures Split(a + t, sep) == [a + Split(t, sep)[0]] + Split(t, sep)[1..]
  {
    var st := Split(t, sep);
    if |a| > 0 {
      assert (a + t)[0] == a[0] && (a + t)[1..] == a[1..] + t;
      assert a[0] != sep && sep !in a[1..];
      SplitRun(a[1..], t, sep);
      var rest := Split(a[1..] + t, sep);
      assert rest[0] == a[1..] + st[0] && rest[1..] == st[1..];
      assert Split(a + t, sep) == [[a[0]] + rest[0]] + rest[1..];
      assert [a[0]] + (a[1..] + st[0]) == a + st[0];
    } else {
      assert a + t == t && "" + st[0] == st[0];
      assert [st[0]] + st[1..] == st;
    }
  }

  lemma SplitSep(t: string, sep: char)
    ensures Split([sep] + t, sep) == [""] + Split(t, sep)
  {
    assert ([sep] + t)[1..] == t;
  }

  lemma {:induction false} TokenizeRun(a: string, t: string)
    requires |a| > 0 && forall c :: c in a ==> !IsSeparator(c)
    requires |t| == 0 || IsSeparator(t[0])
    ensures Tokenize(a + t) == [Name(a)] + Tokenize(t)
  {
    assert (a + t)[1..] == a[1..] + t;
    if |a| > 1 {
      TokenizeRun(a[1..], t);
      assert [a[0]] + a[1..] == a;
    } else {
      assert a[1..] + t == t;
      assert a == [a[0]];
    }
  }

  lemma TokenizeSep(c: char, t: string)
    requires IsSeparator(c)
    ensures Tokenize([c] + t) == [Sep(c)] + Tokenize(t)
  {
    assert ([c] + t)[1..] == t;
  }

  lemma ExampleMasked()
    ensures Masked("red_edge - red") == "red_edge" + ("-" + ("-" + ("-" + "red")))
  {
    assert Masked("red_edge - red") == "red_edge---red";
    assert "red_edge---red" == "red_edge" + ("-" + ("-" + ("-" + "red")));
  }

  lemma SplitTail()
    ensures Split("-" + ("-" + ("-" + "red")), '-') == ["", "", "", "red"]
  {
    SplitRun("red", "", '-');
    assert "red" + "" == "red";
    assert Split("red", '-') == ["red"];
    SplitSep("red", '-');
    assert "-" + "red" == ['-'] + "red";
    SplitSep("-" + "red", '-');
    assert "-" + ("-" + "red") == ['-'] + ("-" + "red");
    SplitSep("-" + ("-" + "red"), '-');
    assert "-" + ("-" + ("-" + "red")) == ['-'] + ("-" + ("-" + "red"));
  }

  lemma ExampleSplit()
    ensures Split(Masked("red_edge - red"), '-') == ["red_edge", "", "", "red"]
  {
    ExampleMasked();
    SplitMaskedExample();
  }

  lemma SplitMaskedExample()
    ensures Split("red_edge" + ("-" + ("-" + ("-" + "red"))), '-') == ["red_edge", "", "", "red"]
  {
    var t := "-" + ("-" + ("-" + "red"));
    SplitTail();
    NoDash();
    SplitRun("red_edge", t, '-');
    var st := Split(t, '-');
    assert st[0] == "" && st[1..] == ["", "", "red"];
    assert "red_edge" + st[0] == "red_edge";
  }

  lemma NoDash()
    ensures '-' !in "red_edge"
  {
  }

  lemma {:induction false} UniqueSnoc(xs: seq<string>, x: string)
    ensures Unique(xs + [x]) == Insert(x, Unique(xs))
  {
    assert (xs + [x])[..|xs|] == xs;
  }

  /** A name sorts before any longer name it begins. */
  lemma {:induction false} PrefixLess(a: string, x: string)
    requires |x| > 0
    ensures LexLess(a, a + x)
    decreases |a|
  {
    if |a| > 0 {
      assert (a + x)[0] == a[0] && (a + x)[1..] == a[1..] + x;
      PrefixLess(a[1..], x);
    } else {
      assert a + x == x;
    }
  }

  lemma UniqueOne(b: string)
    ensures Unique([b]) == [b]
  {
    UniqueSnoc([], b);
    assert [] + [b] == [b];
  }

  lemma UniqueTwo(b: string)
    requires b != ""
    ensures Unique([b, ""]) == ["", b]
  {
    UniqueOne(b);
    UniqueSnoc([b], "");
    assert [b] + [""] == [b, ""];
    assert LexLess("", b);
  }

  lemma UniqueThree(b: string)
    requires b != ""
    ensures Unique([b, "", ""]) == ["", b]
  {
    UniqueTwo(b);
    UniqueSnoc([b, ""], "");
    assert [b, ""] + [""] == [b, "", ""];
  }

  /** The pieces of `b - a`, made unique: the empty piece first, then the two names. */
  lemma UniqueOfPieces(a: string, b: string)
    requires a != "" && LexLess(a, b)
    ensures Unique([b, "", "", a]) == ["", a, b]
  {
    LexIrreflexive(a);
    UniqueThree(b);
    UniqueSnoc([b, "", ""], a);
    assert [b, "", ""] + [a] == [b, "", "", a];
    assert Insert(a, [b]) == [a, b];
    assert ["", b][1..] == [b];
  }

  lemma NonEmptyOfThree(a: string, b: string)
    requires a != "" && b != ""
    ensures NonEmpty(["", a, b]) == [a, b]
  {
    NonEmptyCons("", [a, b]);
    NonEmptyCons(a, [b]);
    NonEmptyCons(b, []);
    assert [""] + [a, b] == ["", a, b] && [a] + [b] == [a, b] && [b] + [] == [b];
  }

  lemma ExampleNames()
    ensures VarNames("red_edge - red") == ["red", "red_edge"]
  {
    ExampleSplit();
    ExampleNamesOrdered();
    UniqueOfPieces("red", "red_edge");
    NonEmptyOfThree("red", "red_edge");
  }

  lemma ExampleNamesOrdered()
    ensures LexLess("red", "red_edge")
  {
    PrefixLess("red", "_edge");
    assert "red" + "_edge" == "red_edge";
  }

  lemma {:induction false} ReplaceAllSkips(u: string, t: string, pat: string, rep: string)
    requires |pat| > 0 && pat[0] !in u
    ensures ReplaceAll(u + t, pat, rep) == u + ReplaceAll(t, pat, rep)
  {
    if |u| > 0 {
      assert (u + t)[0] == u[0] && (u + t)[1..] == u[1..] + t;
      assert !(pat <= u + t);
      ReplaceAllSkips(u[1..], t, pat, rep);
      assert [u[0]] + (u[1..] + ReplaceAll(t, pat, rep)) == u + ReplaceAll(t, pat, rep);
    } else {
      assert u + t == t;
    }
  }

  lemma ReplaceAllMatches(pat: string, t: string, rep: string)
    requires |pat| > 0
    ensures ReplaceAll(pat + t, pat, rep) == rep + ReplaceAll(t, pat, rep)
  {
    assert pat <= pat + t;
    assert (pat + t)[|pat|..] == t;
  }

  lemma ReplaceAllNoMatchHere(c: char, t: string, pat: string, rep: string)
    requires |pat| > 1 && |t| > 0 && t[0] != pat[1]
    ensures ReplaceAll([c] + t, pat, rep) == [c] + ReplaceAll(t, pat, rep)
  {
    assert ([c] + t)[1] == t[0];
    assert ([c] + t)[1..] == t;
  }

  /** A name that occurs at both ends, with no occurrence of its first character between,
      is replaced at both ends. */
  lemma ReplaceBothEnds(a: string, u: string, rep: string)
    requires |a| > 0 && a[0] !in u
    ensures ReplaceAll(a + (u + a), a, rep) == rep + (u + rep)
  {
    assert ReplaceAll("", a, rep) == "";
    ReplaceAllMatches(a, "", rep);
    assert a + "" == a && rep + "" == rep;
    ReplaceAllSkips(u, a, a, rep);
    ReplaceAllMatches(a, u + a, rep);
  }

  /** A reference text `v + [c] + w` holds no match of pat when pat's first character occurs
      in it only as c, and c is not followed by pat's second character. */
  lemma ReplaceSkipsReference(v: string, c: char, w: string, t: string, pat: string, rep: string)
    requires |pat| > 1 && pat[0] !in v && pat[0] !in w && |w| > 0 && w[0] != pat[1]
    ensures ReplaceAll(v + ([c] + w) + t, pat, rep) == v + ([c] + w) + ReplaceAll(t, pat, rep)
  {
    assert v + ([c] + w) + t == v + ([c] + (w + t));
    ReplaceAllSkips(w, t, pat, rep);
    assert (w + t)[0] == w[0];
    ReplaceAllNoMatchHere(c, w + t, pat, rep);
    ReplaceAllSkips(v, [c] + (w + t), pat, rep);
  }

  /** The second pass: nothing left to replace in `r + u + r` when r is such a reference. */
  lemma ReplaceSkipsBoth(v: string, c: char, w: string, u: string, pat: string, rep: string)
    requires |pat| > 1 && pat[0] !in v && pat[0] !in w && |w| > 0 && w[0] != pat[1] && pat[0] !in u
    ensures var r := v + ([c] + w); ReplaceAll(r + (u + r), pat, rep) == r + (u + r)
  {
    var r := v + ([c] + w);
    ReplaceSkipsReference(v, c, w, "", pat, rep);
    assert ReplaceAll("", pat, rep) == "" && r + "" == r;
    ReplaceAllSkips(u, r, pat, rep);
    ReplaceSkipsReference(v, c, w, u + r, pat, rep);
  }

  lemma ReplaceEachTwo(e: string, a: string, b: string)
    requires a != "" && b != ""
    ensures ReplaceEach(e, [a, b], 2) == ReplaceAll(ReplaceAll(e, a, RefText(0)), b, RefText(1))
  {
    assert ReplaceEach(e, [a, b], 1) == ReplaceAll(e, a, RefText(0));
  }

  lemma RefZero()
    ensures RefText(0) == "listva" + (['r'] + "[0]")
  {
    assert NatToString(0) == "0";
  }

  lemma ExampleExpression()
    ensures "red_edge - red" == "red" + ("_edge - " + "red")
  {
  }

  lemma ExampleOutput()
    ensures var r := "listva" + (['r'] + "[0]"); r + ("_edge - " + r) == "listvar[0]_edge - listvar[0]"
  {
  }

  /** calculate_vi_fromxarray as written, on variables `red` and `red_edge` and the
      expression `red_edge - red`: the first replacement rewrites the `red` inside
      `red_edge`, so `red_edge` is never replaced and `_edge` is left dangling. */
  lemma ExampleAsWritten()
    ensures ReplaceEach("red_edge - red", ["red", "red_edge"], 2) == "listvar[0]_edge - listvar[0]"
  {
    ReplaceEachTwo("red_edge - red", "red", "red_edge");
    ExampleExpression();
    ReplaceBothEnds("red", "_edge - ", RefText(0));
    RefZero();
    ReplaceSkipsBoth("listva", 'r', "[0]", "_edge - ", "red_edge", RefText(1));
    ExampleOutput();
  }

  lemma TokenizeName(b: string)
    requires |b| > 0 && forall c :: c in b ==> !IsSeparator(c)
    ensures Tokenize(b) == [Name(b)]
  {
    TokenizeRun(b, "");
    assert b + "" == b;
  }

  lemma TokenizeSeps(c1: char, c2: char, c3: char, b: string)
    requires IsSeparator(c1) && IsSeparator(c2) && IsSeparator(c3)
    ensures Tokenize([c1] + ([c2] + ([c3] + b))) == [Sep(c1), Sep(c2), Sep(c3)] + Tokenize(b)
  {
    TokenizeSep(c3, b);
    TokenizeSep(c2, [c3] + b);
    TokenizeSep(c1, [c2] + ([c3] + b));
  }

  lemma SubstitutedBinary(a: string, c1: char, c2: char, c3: char, b: string, names: seq<string>)
    requires a in names && b in names
    ensures Substituted([Name(a), Sep(c1), Sep(c2), Sep(c3), Name(b)], names)
         == [Ref(FirstPos(names, a)), Sep(c1), Sep(c2), Sep(c3), Ref(FirstPos(names, b))]
  {
    var i, j := FirstPos(names, a), FirstPos(names, b);
    assert [Name(b)][1..] == [];
    assert Substituted([Name(b)], names) == [Ref(j)];
    assert [Sep(c3), Name(b)][1..] == [Name(b)];
    assert Substituted([Sep(c3), Name(b)], names) == [Sep(c3), Ref(j)];
    assert [Sep(c2), Sep(c3), Name(b)][1..] == [Sep(c3), Name(b)];
    assert Substituted([Sep(c2), Sep(c3), Name(b)], names) == [Sep(c2), Sep(c3), Ref(j)];
    assert [Sep(c1), Sep(c2), Sep(c3), Name(b)][1..] == [Sep(c2), Sep(c3), Name(b)];
    assert Substituted([Sep(c1), Sep(c2), Sep(c3), Name(b)], names) == [Sep(c1), Sep(c2), Sep(c3), Ref(j)];
    assert [Name(a), Sep(c1), Sep(c2), Sep(c3), Name(b)][1..] == [Sep(c1), Sep(c2), Sep(c3), Name(b)];
  }

  lemma RenderBinary(i: nat, c1: char, c2: char, c3: char, j: nat)
    ensures Render([Ref(i), Sep(c1), Sep(c2), Sep(c3), Ref(j)]) == RefText(i) + ([c1] + ([c2] + ([c3] + RefText(j))))
  {
    assert [Ref(j)][1..] == [];
    assert Render([Ref(j)]) == RefText(j) + "" == RefText(j);
    assert [Sep(c3), Ref(j)][1..] == [Ref(j)];
    assert Render([Sep(c3), Ref(j)]) == [c3] + RefText(j);
    assert [Sep(c2), Sep(c3), Ref(j)][1..] == [Sep(c3), Ref(j)];
    assert Render([Sep(c2), Sep(c3), Ref(j)]) == [c2] + ([c3] + RefText(j));
    assert [Sep(c1), Sep(c2), Sep(c3), Ref(j)][1..] == [Sep(c2), Sep(c3), Ref(j)];
    assert Render([Sep(c1), Sep(c2), Sep(c3), Ref(j)]) == [c1] + ([c2] + ([c3] + RefText(j)));
    assert [Ref(i), Sep(c1), Sep(c2), Sep(c3), Ref(j)][1..] == [Sep(c1), Sep(c2), Sep(c3), Ref(j)];
  }

  lemma ConsFour<T>(x: T, a: T, b: T, c: T, d: T)
    ensures [x] + [a, b, c, d] == [x, a, b, c, d]
  {
  }

  lemma ExampleExpressionPieces()
    ensures "red_edge - red" == "red_edge" + " - red"
    ensures " - red" == [' '] + (['-'] + ([' '] + "red"))
  {
  }

  lemma ExampleNamesPlain()
    ensures forall c :: c in "red_edge" ==> !IsSeparator(c)
    ensures forall c :: c in "red" ==> !IsSeparator(c)
  {
  }

  lemma ExampleTokensTail()
    ensures Tokenize(" - red") == [Sep(' '), Sep('-'), Sep(' '), Name("red")]
  {
    ExampleExpressionPieces();
    ExampleNamesPlain();
    TokenizeSeps(' ', '-', ' ', "red");
    TokenizeName("red");
  }

  lemma ExampleTokens()
    ensures Tokenize("red_edge - red") == [Name("red_edge"), Sep(' '), Sep('-'), Sep(' '), Name("red")]
  {
    ExampleExpressionPieces();
    ExampleNamesPlain();
    TokenizeRun("red_edge", " - red");
    ExampleTokensTail();
    ConsFour(Name("red_edge"), Sep(' '), Sep('-'), Sep(' '), Name("red"));
  }

  lemma ExampleIntendedOutput()
    ensures RefText(1) + ([' '] + (['-'] + ([' '] + RefText(0)))) == "listvar[1] - listvar[0]"
  {
    assert NatToString(0) == "0" && NatToString(1) == "1";
  }

  /** The substitution as intended, on the same variables and expression, refers to
      `red_edge` and `red` by their own positions. */
  lemma ExampleSubstituted()
    ensures (forall n :: Name(n) in Tokenize("red_edge - red") ==> n in ["red", "red_edge"])
      && SubstituteTokens("red_edge - red", ["red", "red_edge"]) == "listvar[1] - listvar[0]"
  {
    ExampleTokens();
    ExampleSubstitutedPieces();
    RenderBinary(1, ' ', '-', ' ', 0);
    ExampleIntendedOutput();
  }

  lemma ExampleSubstitutedPieces()
    ensures Substituted([Name("red_edge"), Sep(' '), Sep('-'), Sep(' '), Name("red")], ["red", "red_edge"])
         == [Ref(1), Sep(' '), Sep('-'), Sep(' '), Ref(0)]
  {
    var names := ["red", "red_edge"];
    assert FirstPos(names, "red_edge") == 1 && FirstPos(names, "red") == 0;
    SubstitutedBinary("red_edge", ' ', '-', ' ', "red", names);
  }

  // ---------------------------------------------------------------------------
  // calculate_vi_fromxarray

  /** A dataset as these operations see it: its variable names, in order, its `count`
      attribute (the number of layers its raster metadata records), and whether its
      attributes hold a `nodata` entry. */
  datatype Dataset = Dataset(vars: seq<string>, count: int, hasNodata: bool)

  /** What calculate_vi_fromxarray makes of a dataset: it is returned unchanged because the
      index exists already, or a variable is added whose values come from evaluating
      `formula` over the listed variables. */
  datatype ViOutcome = Unchanged | Added(ds: Dataset, formula: string)

  /** The position of the first name that is not a variable; |names| when all are. */
  function FirstMissing(names: seq<string>, vars: seq<string>): (k: nat)
    ensures k <= |names|
    ensures k < |names| ==> names[k] !in vars
    ensures forall j :: 0 <= j < k ==> names[j] in vars
  {
    if |names| == 0 then 0
    else if names[0] !in vars then 0
    else
      var k := FirstMissing(names[1..], vars);
      assert forall j :: 1 <= j < k + 1 ==> names[j] == names[1..][j - 1];
      1 + k
  }

  /** The expression with each name token replaced by the reference to its position among
      the names read from the expression. */
  function SubstituteNames(expression: string): (r: string)
    ensures forall n :: Name(n) in Tokenize(expression) ==> n in VarNames(expression)
    ensures forall p :: p in Substituted(Tokenize(expression), VarNames(expression)) && p.Ref? ==>
      p.index < |VarNames(expression)| && Name(VarNames(expression)[p.index]) in Tokenize(expression)
    ensures r == Render(Substituted(Tokenize(expression), VarNames(expression)))
    ensures Render(Restored(Substituted(Tokenize(expression), VarNames(expression)), VarNames(expression))) == expression
  {
    VarNamesAreTokens(expression);
    SubstituteTokens(expression, VarNames(expression))
  }

  /** The substitution step of calculate_vi_fromxarray as evidently intended: ValueError for
      the first name (in increasing order) that is not a variable, otherwise each name token
      replaced by its reference. */
  method ReplaceNames(expression: string, names: seq<string>, variables: seq<string>) returns (r: Result<string>)
    ensures r.Err? <==> FirstMissing(names, variables) < |names|
    ensures r.Err? ==> r.error == ValueError("there is not a variable named as " + names[FirstMissing(names, variables)])
    ensures r.Ok? ==> r.value == SubstituteNames(expression)
  {
    for i := 0 to |names|
      invariant forall j :: 0 <= j < i ==> names[j] in variables
    {
      if names[i] !in variables {
        assert FirstMissing(names, variables) == i;
        return Err(ValueError("there is not a variable named as " + names[i]));
      }
    }
    r := Ok(SubstituteNames(expression));
  }

  /** The formula calculate_vi_fromxarray hands to eval, as written: each name, in
      increasing order, replaced textually by `listvar[i]` wherever it occurs. */
  function ViFormulaAsWritten(expression: string): (r: string)
    ensures VarNames(expression) == [] ==> r == expression
  {
    VarNamesAreTokens(expression);
    var names := VarNames(expression);
    assert forall k :: 0 <= k < |names| ==> names[k] in names;
    ReplaceEach(expression, names, |names|)
  }

  /** calculate_vi_fromxarray: read the `nodata` attribute (KeyError when there is none),
      read the names from the expression, check that each is a variable, and add the index
      under `label` (by default `vi`) unless `vi` exists. A missing expression fails on its
      first `replace` call. The merged dataset keeps the attributes of the input. An added index records the
      formula handed to `eval`; evaluating it is not modelled, so a formula that is not
      valid Python, on which the call raises SyntaxError, is recorded all the same. */
  function ViResult(ds: Dataset, vi: string, expression: Option<string>, labelName: Option<string>): (r: Result<ViOutcome>)
    ensures !ds.hasNodata ==> r == Err(KeyError("nodata"))
    ensures ds.hasNodata && expression.None? ==> r == Err(AttributeError("replace"))
    ensures r.Ok? && r.value.Unchanged? ==> vi in ds.vars
    ensures r.Ok? && r.value.Added? ==>
      expression.Some? && r.value.ds.hasNodata && r.value.formula == ViFormulaAsWritten(expression.value)
  {
    if !ds.hasNodata then Err(KeyError("nodata"))
    else if expression.None? then Err(AttributeError("replace"))
    else
      var names := VarNames(expression.value);
      var k := FirstMissing(names, ds.vars);
      if k < |names| then Err(ValueError("there is not a variable named as " + names[k]))
      else if vi in ds.vars then Ok(Unchanged)
      else
        var name := if labelName.Some? then labelName.value else vi;
        if name in ds.vars then Err(ForeignError("xarray.merge"))
        else
          var vars := ds.vars + [name];
          Ok(Added(ds.(vars := vars, count := |vars|), ViFormulaAsWritten(expression.value)))
  }

  /** calculate_vi_fromxarray as evidently intended: the same outcome, except that an added
      index records the token-wise substitution as the formula handed to `eval`. */
  function ViResultIntended(ds: Dataset, vi: string, expression: Option<string>, labelName: Option<string>): (r: Result<ViOutcome>)
    ensures r.Ok? <==> ViResult(ds, vi, expression, labelName).Ok?
    ensures !(r.Ok? && r.value.Added?) ==> r == ViResult(ds, vi, expression, labelName)
    ensures r.Ok? && r.value.Added? ==>
      (&& expression.Some?
       && ViResult(ds, vi, expression, labelName) == Ok(Added(r.value.ds, ViFormulaAsWritten(expression.value)))
       && r.value.formula == SubstituteNames(expression.value))
  {
    var r := ViResult(ds, vi, expression, labelName);
    if r.Ok? && r.value.Added? && expression.Some? then Ok(Added(r.value.ds, SubstituteNames(expression.value)))
    else r
  }

  method CalculateViFromXarray(ds: Dataset, vi: string, expression: Option<string>, labelName: Option<string>)
    returns (r: Result<ViOutcome>)
    ensures r == ViResult(ds, vi, expression, labelName)
  {
    if !ds.hasNodata {
      return Err(KeyError("nodata"));
    }
    if expression.None? {
      return Err(AttributeError("replace"));
    }
    var test := MaskSeparators(expression.value);
    var names := NonEmpty(Unique(Split(test, '-')));
    assert forall k :: 0 <= k < |names| ==> names[k] in names;
    var e := ReplaceNamesAsWritten(expression.value, names, ds.vars);
    if e.Err? {
      return Err(e.error);
    }
    if vi in ds.vars {
      return Ok(Unchanged);
    }
    var name := if labelName.Some? then labelName.value else vi;
    if name in ds.vars {
      return Err(ForeignError("xarray.merge"));
    }
    var vars := ds.vars + [name];
    r := Ok(Added(ds.(vars := vars, count := |vars|), e.value));
  }

  /** A name token of the expression that is not a variable of the dataset raises
      ValueError, naming the least such name; no other case raises ValueError. */
  lemma ViRejectsUnknownNames(ds: Dataset, vi: string, e: string, labelName: Option<string>)
    requires ds.hasNodata
    ensures var r := ViResult(ds, vi, Some(e), labelName);
      && ((r.Err? && r.error.ValueError?) <==> exists n :: Name(n) in Tokenize(e) && n !in ds.vars)
      && (r.Err? && r.error.ValueError? ==> exists n :: (Name(n) in Tokenize(e) && n !in ds.vars
            && r.error == ValueError("there is not a variable named as " + n)
            && forall m :: Name(m) in Tokenize(e) && LexLess(m, n) ==> m in ds.vars))
  {
    VarNamesAreTokens(e);
    var names := VarNames(e);
    var k := FirstMissing(names, ds.vars);
    if k < |names| {
      forall m | Name(m) in Tokenize(e) && LexLess(m, names[k])
        ensures m in ds.vars
      {
        FirstMissingIsLeast(names, ds.vars, m);
      }
    }
  }

  /** In sorted names, every name before the first missing one is a variable. */
  lemma FirstMissingIsLeast(names: seq<string>, vars: seq<string>, m: string)
    requires StrictlySorted(names) && FirstMissing(names, vars) < |names|
    requires m in names && LexLess(m, names[FirstMissing(names, vars)])
    ensures m in vars
  {
    var k := FirstMissing(names, vars);
    var j :| 0 <= j < |names| && names[j] == m;
    if j >= k {
      if j > k {
        LexTransitive(names[k], m, names[k]);
      }
      LexIrreflexive(names[k]);
    }
  }

  /** With every name a variable, an index that exists already leaves the dataset as it is. */
  lemma ViExistingIsUnchanged(ds: Dataset, vi: string, e: string, labelName: Option<string>)
    requires ds.hasNodata && vi in ds.vars
    ensures ViResult(ds, vi, Some(e), labelName).Ok? <==> forall n :: Name(n) in Tokenize(e) ==> n in ds.vars
    ensures ViResult(ds, vi, Some(e), labelName).Ok? ==> ViResult(ds, vi, Some(e), labelName).value == Unchanged
  {
    VarNamesAreTokens(e);
    var names := VarNames(e);
    if FirstMissing(names, ds.vars) < |names| {
      assert names[FirstMissing(names, ds.vars)] in names;
    } else {
      forall n | Name(n) in Tokenize(e)
        ensures n in ds.vars
      {
        var j :| 0 <= j < |names| && names[j] == n;
      }
    }
  }

  /** A new index is appended as the last variable, and `count` then equals the number of
      variables. */
  lemma ViAddsOneVariable(ds: Dataset, vi: string, e: Option<string>, labelName: Option<string>)
    requires ViResult(ds, vi, e, labelName).Ok? && ViResult(ds, vi, e, labelName).value.Added?
    ensures var d := ViResult(ds, vi, e, labelName).value.ds;
      && vi !in ds.vars
      && d.vars == ds.vars + [if labelName.Some? then labelName.value else vi]
      && d.count == |d.vars| == |ds.vars| + 1
      && d.hasNodata
      && forall v :: v in ds.vars ==> v in d.vars
  {
  }

  /** With the intended substitution, every reference in the formula handed to eval is to a
      variable of the dataset, and reading each reference back as its name gives the
      expression. */
  lemma ViFormulaRefersToVariables(ds: Dataset, vi: string, e: string, labelName: Option<string>)
    requires ViResultIntended(ds, vi, Some(e), labelName).Ok? && ViResultIntended(ds, vi, Some(e), labelName).value.Added?
    ensures forall n :: Name(n) in Tokenize(e) ==> n in VarNames(e)
    ensures var names := VarNames(e);
      var ps := Substituted(Tokenize(e), names);
      && Render(ps) == ViResultIntended(ds, vi, Some(e), labelName).value.formula
      && (forall p :: p in ps && p.Ref? ==> p.index < |names| && names[p.index] in ds.vars)
      && Render(Restored(ps, names)) == e
  {
    VarNamesAreTokens(e);
    var names := VarNames(e);
    SubstituteTokensRoundTrip(e, names);
    assert FirstMissing(names, ds.vars) == |names|;
  }

  /** With the variables `red` and `red_edge`, a new index `red_edge - red` is handed to
      eval as `listvar[0]_edge - listvar[0]`, which is not valid Python, so the call raises
      SyntaxError there (the model records the formula and stops before eval); the intended
      substitution hands it `listvar[1] - listvar[0]`. */
  lemma ViRedEdgeExample(ds: Dataset, vi: string)
    requires ds.hasNodata && ds.vars == ["red", "red_edge"] && vi !in ds.vars
    ensures ViResult(ds, vi, Some("red_edge - red"), None)
            == Ok(Added(Dataset(ds.vars + [vi], 3, true), "listvar[0]_edge - listvar[0]"))
    ensures ViResultIntended(ds, vi, Some("red_edge - red"), None)
            == Ok(Added(Dataset(ds.vars + [vi], 3, true), "listvar[1] - listvar[0]"))
  {
    ExampleNames();
    ExampleViFormulas();
    ViResultAdded(ds, vi, "red_edge - red");
  }

  /** With every name a variable and a new index, the index is added; the two
      substitutions differ only in the formula. */
  lemma ViResultAdded(ds: Dataset, vi: string, e: string)
    requires ds.hasNodata && vi !in ds.vars && forall n :: n in VarNames(e) ==> n in ds.vars
    ensures ViResult(ds, vi, Some(e), None) == Ok(Added(Dataset(ds.vars + [vi], |ds.vars| + 1, true), ViFormulaAsWritten(e)))
    ensures ViResultIntended(ds, vi, Some(e), None) == Ok(Added(Dataset(ds.vars + [vi], |ds.vars| + 1, true), SubstituteNames(e)))
  {
    ViResultAddsIndex(ds, vi, e);
    var grown := Dataset(ds.vars + [vi], |ds.vars| + 1, true);
    assert ViResultIntended(ds, vi, Some(e), None) == Ok(Added(grown, SubstituteNames(e)));
  }

  lemma ViResultAddsIndex(ds: Dataset, vi: string, e: string)
    requires ds.hasNodata && vi !in ds.vars && forall n :: n in VarNames(e) ==> n in ds.vars
    ensures ViResult(ds, vi, Some(e), None) == Ok(Added(Dataset(ds.vars + [vi], |ds.vars| + 1, true), ViFormulaAsWritten(e)))
  {
    var names := VarNames(e);
    assert forall i :: 0 <= i < |names| ==> names[i] in ds.vars;
    assert FirstMissing(names, ds.vars) == |names|;
  }

  lemma ExampleViFormulas()
    ensures ViFormulaAsWritten("red_edge - red") == "listvar[0]_edge - listvar[0]"
    ensures SubstituteNames("red_edge - red") == "listvar[1] - listvar[0]"
  {
    ExampleNames();
    ExampleAsWritten();
    ExampleSubstituted();
  }

  // ---------------------------------------------------------------------------
  // Bands to export and output file names

  /** `[i for i in bands if i in vars]`. */
  function KeepExisting(bands: seq<string>, vars: seq<string>): (r: seq<string>)
    ensures forall x :: x in r <==> x in bands && x in vars
    ensures forall x :: x in vars ==> multiset(r)[x] == multiset(bands)[x]
    ensures forall x :: x !in vars ==> multiset(r)[x] == 0
  {
    if |bands| == 0 then []
    else
      assert bands == [bands[0]] + bands[1..];
      (if bands[0] in vars then [bands[0]] else []) + KeepExisting(bands[1..], vars)
  }

  /** r is obtained from s by deleting elements: its elements keep their relative order. */
  predicate SubsequenceOf(r: seq<string>, s: seq<string>)
    decreases |s|
  {
    if |s| == 0 then |r| == 0
    else (|r| > 0 && r[0] == s[0] && SubsequenceOf(r[1..], s[1..])) || SubsequenceOf(r, s[1..])
  }

  lemma {:induction false} KeepExistingKeepsOrder(bands: seq<string>, vars: seq<string>)
    ensures SubsequenceOf(KeepExisting(bands, vars), bands)
  {
    if |bands| > 0 {
      KeepExistingKeepsOrder(bands[1..], vars);
      var rest := KeepExisting(bands[1..], vars);
      if bands[0] in vars {
        assert ([bands[0]] + rest)[1..] == rest;
      } else {
        assert [] + rest == rest;
      }
    }
  }

  /** Every band already a variable is kept as it is. */
  lemma {:induction false} KeepExistingAll(bands: seq<string>, vars: seq<string>)
    requires forall x :: x in bands ==> x in vars
    ensures KeepExisting(bands, vars) == bands
  {
    if |bands| > 0 {
      KeepExistingAll(bands[1..], vars);
      assert bands[0] in bands;
      assert [bands[0]] + bands[1..] == bands;
    }
  }

  lemma KeepExistingOne(b: string, vars: seq<string>)
    ensures KeepExisting([b], vars) == if b in vars then [b] else []
  {
    assert [b][1..] == [];
  }

  /** The band list a `varnames` argument names before filtering: 'all' for every variable,
      a single name wrapped in a list, a list as given. */
  function Requested(bands: ScalarOrList<string>, vars: seq<string>): seq<string>
  {
    match bands
    case Scalar(b) => if b == "all" then vars else [b]
    case List(bs) => bs
  }

  /** The part of the file name to_tiff keeps, as written: when the name ends in "tif", up
      to one character before the FIRST occurrence of "tif"; otherwise all of it. */
  function ExportStemAsWritten(filename: string): (r: string)
    ensures r <= filename
    ensures !EndsWith(filename, "tif") ==> r == filename
  {
    if EndsWith(filename, "tif") then
      SubstringAtContains(filename, "tif", |filename| - 3);
      PySlice(filename, 0, IndexOf(filename, "tif") - 1)
    else
      PySlice(filename, 0, |filename| + 1 - 1)
  }

  /** The stem as evidently intended: the name without its trailing "tif" and the
      character before it (the dot of ".tif"). */
  function ExportStem(filename: string): (r: string)
    ensures r <= filename
    ensures EndsWith(filename, ".tif") ==> filename == r + ".tif"
  {
    if EndsWith(filename, "tif") then PySlice(filename, 0, |filename| - 4) else filename
  }

  /** The stem of `stem.tif` is stem, whatever stem is. */
  lemma ExportStemRoundTrip(stem: string)
    ensures ExportStem(stem + ".tif") == stem
  {
    var f := stem + ".tif";
    assert f[|f| - 3..] == "tif";
    assert f[..|stem|] == stem;
  }

  /** A name without "tif" in it is kept whole. */
  lemma ExportStemKeepsOtherNames(filename: string)
    requires !EndsWith(filename, "tif")
    ensures ExportStem(filename) == ExportStemAsWritten(filename) == filename
  {
  }

  lemma ExampleMotif()
    ensures "motif.tif" == "mo" + "tif" + ".tif"
    ensures "motif.tif"[6..] == "tif"
    ensures "motif.tif"[1..] == "otif.tif" && "motif.tif"[2..] == "tif.tif"
  {
  }

  lemma ExampleMotifPrefixes()
    ensures "tif" <= "tif.tif" && !("tif" <= "motif.tif") && !("tif" <= "otif.tif")
  {
    assert "tif.tif"[..3] == "tif";
    assert "motif.tif"[0] == 'm' && "otif.tif"[0] == 'o' && "tif"[0] == 't';
  }

  /** The first "tif" in `motif.tif` is inside the stem, so to_tiff as written names its
      outputs `m_<band>.tif`. */
  lemma ExportStemAsWrittenCutsStem()
    ensures ExportStemAsWritten("motif.tif") == "m"
    ensures ExportStem("motif.tif") == "motif"
  {
    ExampleMotif();
    ExampleMotifPrefixes();
    var f := "motif.tif";
    SubstringAtContains(f, "tif", 6);
    assert Contains(f[1..], "tif") by {
      assert f[1..][1..] == f[2..];
    }
    assert IndexOf(f[1..], "tif") == 1 by {
      assert f[1..][1..] == f[2..];
    }
    assert IndexOf(f, "tif") == 2;
    assert f[0..1] == "m";
    ExportStemRoundTrip("motif");
    assert "motif" + ".tif" == f;
  }

  /** Where the name holds no "tif" but its trailing one, the stem as written is the
      intended one. */
  lemma ExportStemAgrees(filename: string)
    requires EndsWith(filename, "tif")
    requires forall j :: 0 <= j < |filename| - 3 ==> !("tif" <= filename[j..])
    ensures ExportStemAsWritten(filename) == ExportStem(filename)
  {
    SubstringAtContains(filename, "tif", |filename| - 3);
    var k := IndexOf(filename, "tif");
    assert "tif" <= filename[|filename| - 3..];
    assert "tif" <= filename[k..] by {
      assert filename[k..][..3] == filename[k..k + 3];
    }
  }

  /** The file to_tiff writes for one band, named after the stem as written. */
  function BandFile(filename: string, band: string): (r: string)
    ensures ExportStemAsWritten(filename) + "_" <= r
    ensures EndsWith(r, "_" + band + ".tif")
  {
    ExportStemAsWritten(filename) + "_" + band + ".tif"
  }

  /** For `motif.tif` the band files are named `m_<band>.tif`. */
  lemma BandFileCutsStem(band: string)
    ensures BandFile("motif.tif", band) == "m_" + band + ".tif"
  {
    ExportStemAsWrittenCutsStem();
  }

  /** The loop of to_tiff: one file per band, in band order. */
  method WriteBands(filename: string, bands: seq<string>) returns (files: seq<string>)
    ensures |files| == |bands| && forall i :: 0 <= i < |files| ==> files[i] == BandFile(filename, bands[i])
  {
    files := [];
    for i := 0 to |bands|
      invariant |files| == i
      invariant forall j :: 0 <= j < i ==> files[j] == BandFile(filename, bands[j])
    {
      files := files + [BandFile(filename, bands[i])];
    }
  }

  /** Different bands go to different files. */
  lemma BandFilesDistinct(filename: string, a: string, b: string)
    requires a != b
    ensures BandFile(filename, a) != BandFile(filename, b)
  {
    var p := ExportStemAsWritten(filename) + "_";
    var fa, fb := BandFile(filename, a), BandFile(filename, b);
    assert fa == p + a + ".tif" && fb == p + b + ".tif";
    if |a| == |b| {
      assert fa[|p|..|p| + |a|] == a;
      assert fb[|p|..|p| + |b|] == b;
    } else {
      assert |fa| != |fb|;
    }
  }

  /** Appending a band appends its part of the name. */
  lemma {:induction false} JoinedSuffixSnoc(bands: seq<string>, b: string)
    ensures JoinedSuffix(bands + [b]) == JoinedSuffix(bands) + "_" + b
  {
    if |bands| == 0 {
      assert [] + [b] == [b] && [b][1..] == [];
    } else {
      assert (bands + [b])[1..] == bands[1..] + [b];
      JoinedSuffixSnoc(bands[1..], b);
    }
  }

  /** `"".join("_" + v for v in bands)`. */
  function JoinedSuffix(bands: seq<string>): string
  {
    if |bands| == 0 then "" else "_" + bands[0] + JoinedSuffix(bands[1..])
  }

  /** multiband_totiff's loop: `fname = fname + "_" + varname` for each band. */
  method NameSuffix(bands: seq<string>) returns (fname: string)
    ensures fname == JoinedSuffix(bands)
  {
    fname := "";
    for i := 0 to |bands|
      invariant fname == JoinedSuffix(bands[..i])
    {
      assert bands[..i + 1] == bands[..i] + [bands[i]];
      JoinedSuffixSnoc(bands[..i], bands[i]);
      fname := fname + "_" + bands[i];
    }
    assert bands[..|bands|] == bands;
  }

  /** The DroneData object as far as exporting and index calculation go: its dataset. */
  class DroneData {
    var data: Dataset

    /** The dataset read from the band files: tif_toxarray always records a `nodata`
        attribute, whatever the files' own no-data value. */
    constructor (data0: Dataset)
      ensures data == data0.(hasNodata := true)
    {
      data := data0.(hasNodata := true);
    }

    /** `variable_names`: the dataset's variables. */
    function VariableNames(): seq<string>
      reads this
    {
      data.vars
    }

    /** `_checkbandstoexport`: the requested bands that are variables, in the order asked. */
    function CheckBandsToExport(bands: ScalarOrList<string>): (r: seq<string>)
      reads this
      ensures forall x :: x in r <==> x in Requested(bands, data.vars) && x in data.vars
      ensures SubsequenceOf(r, Requested(bands, data.vars))
      ensures bands == Scalar("all") ==> r == data.vars
      ensures bands.Scalar? && bands.item != "all" ==> r == if bands.item in data.vars then [bands.item] else []
    {
      var req := Requested(bands, data.vars);
      KeepExistingKeepsOrder(req, data.vars);
      KeepExistingAll(data.vars, data.vars);
      KeepExistingOne(if bands.Scalar? then bands.item else "", data.vars);
      KeepExisting(req, data.vars)
    }

    /** `calculate_vi`: 'ndvi' uses its own formula (and needs 'nir'); any other index needs
        an expression. The dataset is then replaced by what calculate_vi_fromxarray gives. */
    method CalculateVi(vi: string, expression: Option<string>, labelName: Option<string>)
      returns (err: Option<Error>)
      modifies this
      ensures var r := ViStep(old(data), vi, expression, labelName);
        && (r.Err? ==> err == Some(r.error) && data == old(data))
        && (r.Ok? ==> err.None? && data == (if r.value.Added? then r.value.ds else old(data)))
      ensures old(data).hasNodata ==> data.hasNodata
    {
      var e := ViExpression(data.vars, vi, expression);
      if e.Err? {
        return Some(e.error);
      }
      var r := CalculateViFromXarray(data, vi, Some(e.value), labelName);
      if r.Err? {
        return Some(r.error);
      }
      if r.value.Added? {
        data := r.value.ds;
      }
      err := None;
    }

    /** `to_tiff`: one file per exported band; none when no requested band exists. */
    method ToTiff(filename: string, varnames: ScalarOrList<string>) returns (files: seq<string>)
      ensures var bands := CheckBandsToExport(varnames);
        && |files| == |bands|
        && forall i :: 0 <= i < |files| ==> files[i] == BandFile(filename, bands[i])
    {
      var bands := CheckBandsToExport(varnames);
      files := WriteBands(filename, bands);
    }

    /** `multiband_totiff`: with more than one band, one file holding them all, named after
        them and after the stem as written. `metadata` is the dataset's own attribute dictionary, so setting its `count`
        changes the dataset. */
    method MultibandToTiff(filename: string, varnames: ScalarOrList<string>) returns (file: Option<string>)
      modifies this
      ensures var bands := old(CheckBandsToExport(varnames));
        && (|bands| > 1 ==> file == Some(ExportStemAsWritten(filename) + JoinedSuffix(bands) + ".tif")
                            && data == old(data).(count := |bands|))
        && (|bands| <= 1 ==> file.None? && data == old(data))
    {
      var bands := CheckBandsToExport(varnames);
      if |bands| > 1 {
        var fname := NameSuffix(bands);
        data := data.(count := |bands|);
        file := Some(ExportStemAsWritten(filename) + fname + ".tif");
      } else {
        file := None;
      }
    }
  }

  const NdviFormula: string := "(nir - red) / (nir + red)"

  /** The expression calculate_vi passes on. */
  function ViExpression(vars: seq<string>, vi: string, expression: Option<string>): Result<string>
  {
    if vi == "ndvi" then
      if "nir" in vars then Ok(NdviFormula)
      else Err(ValueError("It was not possible to calculate ndvi as default, please provide equation"))
    else if expression.None? then Err(ValueError("please provide a equation to calculate this index: " + vi))
    else Ok(expression.value)
  }

  /** calculate_vi on a dataset. */
  function ViStep(ds: Dataset, vi: string, expression: Option<string>, labelName: Option<string>): Result<ViOutcome>
  {
    var e := ViExpression(ds.vars, vi, expression);
    if e.Err? then Err(e.error) else ViResult(ds, vi, Some(e.value), labelName)
  }
}
