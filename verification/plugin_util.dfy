/** Plugin version comparison.

    A version string is split at every '.', each piece is trimmed of white
    space, and each piece is read as a 32-bit integer, a piece that does not
    parse counting as 0.  Two versions are compared component by component
    over the length of the shorter one; the first component that differs
    decides. */
module PluginUtil {
  import opened Basics

  // ---------------------------------------------------------------------
  // Splitting

  /** The pieces of `s` between its '.' characters, empty pieces included;
      a string with n dots has n + 1 pieces. */
  function Split(s: string): (r: seq<string>)
    ensures |r| >= 1
    decreases |s|
  {
    if |s| == 0 then [""]
    else
      var rest := Split(s[1..]);
      if s[0] == '.' then [""] + rest
      else [[s[0]] + rest[0]] + rest[1..]
  }

  /** The pieces joined back with '.' between them. */
  function Join(pieces: seq<string>): string
    requires |pieces| >= 1
    decreases |pieces|
  {
    if |pieces| == 1 then pieces[0] else pieces[0] + "." + Join(pieces[1..])
  }

  predicate NoSeparator(p: string) {
    forall i :: 0 <= i < |p| ==> p[i] != '.'
  }

  /** Joining the pieces gives back the string. */
  lemma {:induction false} JoinSplit(s: string)
    ensures Join(Split(s)) == s
    decreases |s|
  {
    if |s| > 0 {
      var rest := Split(s[1..]);
      JoinSplit(s[1..]);
      if s[0] == '.' {
        assert Split(s) == [""] + rest;
        assert Join(Split(s)) == "" + "." + Join(rest);
        assert s == [s[0]] + s[1..];
      } else {
        var head := [s[0]] + rest[0];
        assert Split(s) == [head] + rest[1..];
        if |rest| == 1 {
          assert Join(Split(s)) == head;
        } else {
          assert Join(Split(s)) == head + "." + Join(rest[1..]);
          assert Join(rest) == rest[0] + "." + Join(rest[1..]);
        }
        assert s == [s[0]] + s[1..];
      }
    }
  }

  /** No piece of a split holds a '.'. */
  lemma {:induction false} SplitPiecesHaveNoSeparator(s: string)
    ensures forall i :: 0 <= i < |Split(s)| ==> NoSeparator(Split(s)[i])
    decreases |s|
  {
    if |s| > 0 {
      var rest := Split(s[1..]);
      SplitPiecesHaveNoSeparator(s[1..]);
      if s[0] == '.' {
        assert Split(s) == [""] + rest;
      } else {
        var head := [s[0]] + rest[0];
        assert Split(s) == [head] + rest[1..];
        forall i | 0 <= i < |Split(s)|
          ensures NoSeparator(Split(s)[i])
        {
          if i > 0 {
            assert Split(s)[i] == rest[i];
          }
        }
      }
    }
  }

  /** Splitting pieces that hold no '.' after joining them gives the pieces back. */
  lemma {:induction false} SplitJoin(pieces: seq<string>)
    requires |pieces| >= 1
    requires forall i :: 0 <= i < |pieces| ==> NoSeparator(pieces[i])
    ensures Split(Join(pieces)) == pieces
    decreases |pieces|, |pieces[0]|
  {
    var p := pieces[0];
    if |p| == 0 {
      if |pieces| > 1 {
        SplitJoin(pieces[1..]);
        assert Join(pieces) == "." + Join(pieces[1..]);
        assert Join(pieces)[1..] == Join(pieces[1..]);
        assert pieces == [""] + pieces[1..];
      }
    } else {
      var shorter := [p[1..]] + pieces[1..];
      DropFirstCharKeepsNoSeparator(pieces);
      SplitJoin(shorter);
      JoinDropFirstChar(pieces);
      var j := Join(pieces);
      assert j[0] == p[0] && j[1..] == Join(shorter);
      assert p[0] != '.';
      assert [p[0]] + p[1..] == p;
    }
  }

  /** Dropping the first character of the first piece keeps every piece free of '.'. */
  lemma DropFirstCharKeepsNoSeparator(pieces: seq<string>)
    requires |pieces| >= 1 && |pieces[0]| >= 1
    requires forall i :: 0 <= i < |pieces| ==> NoSeparator(pieces[i])
    ensures forall i :: 0 <= i < |[pieces[0][1..]] + pieces[1..]| ==> NoSeparator(([pieces[0][1..]] + pieces[1..])[i])
  {
    var p := pieces[0];
    var shorter := [p[1..]] + pieces[1..];
    forall i | 0 <= i < |shorter|
      ensures NoSeparator(shorter[i])
    {
      if i == 0 {
        assert forall k :: 0 <= k < |p[1..]| ==> p[1..][k] == p[k + 1];
      } else {
        assert shorter[i] == pieces[i];
      }
    }
  }

  /** The joined string starts with the first piece's first character,
      followed by the join with that character dropped. */
  lemma JoinDropFirstChar(pieces: seq<string>)
    requires |pieces| >= 1 && |pieces[0]| >= 1
    ensures Join(pieces) == [pieces[0][0]] + Join([pieces[0][1..]] + pieces[1..])
  {
    var p := pieces[0];
    var shorter := [p[1..]] + pieces[1..];
    assert p == [p[0]] + p[1..];
    if |pieces| > 1 {
      var rest := Join(pieces[1..]);
      assert shorter[1..] == pieces[1..];
      assert Join(shorter) == p[1..] + "." + rest;
      calc {
        Join(pieces);
        p + "." + rest;
        ([p[0]] + p[1..]) + "." + rest;
        [p[0]] + (p[1..] + "." + rest);
      }
    }
  }

  /** A string that extends `a` by a '.' and more has the pieces of `a`
      followed by the pieces of the rest. */
  lemma {:induction false} SplitAppend(a: string, t: string)
    ensures Split(a + "." + t) == Split(a) + Split(t)
    decreases |a|
  {
    var s := a + "." + t;
    if |a| == 0 {
      assert s == "." + t;
      assert s[1..] == t;
    } else {
      assert s[0] == a[0];
      assert s[1..] == a[1..] + "." + t;
      SplitAppend(a[1..], t);
    }
  }

  // ---------------------------------------------------------------------
  // Trimming

  /** Unicode white space as .NET's Char.IsWhiteSpace knows it. */
  predicate IsWhiteSpace(c: char) {
    var n := c as int;
    || 0x09 <= n <= 0x0D || n == 0x20 || n == 0x85 || n == 0xA0 || n == 0x1680
    || 0x2000 <= n <= 0x200A || n == 0x2028 || n == 0x2029 || n == 0x202F
    || n == 0x205F || n == 0x3000
  }

  /** The number of white-space characters `s` starts with. */
  function LeadingWhiteSpace(s: string): (n: nat)
    ensures n <= |s|
    ensures forall i :: 0 <= i < n ==> IsWhiteSpace(s[i])
    ensures n < |s| ==> !IsWhiteSpace(s[n])
    decreases |s|
  {
    if |s| == 0 || !IsWhiteSpace(s[0]) then 0 else 1 + LeadingWhiteSpace(s[1..])
  }

  /** The number of white-space characters `s` ends with. */
  function TrailingWhiteSpace(s: string): (n: nat)
    ensures n <= |s|
    ensures forall i :: |s| - n <= i < |s| ==> IsWhiteSpace(s[i])
    ensures n < |s| ==> !IsWhiteSpace(s[|s| - n - 1])
    decreases |s|
  {
    if |s| == 0 || !IsWhiteSpace(s[|s| - 1]) then 0 else 1 + TrailingWhiteSpace(s[..|s| - 1])
  }

  /** `s` without white space at either end: the slice after the leading
      white space, with only white space after it. */
  function Trim(s: string): (r: string)
    ensures |r| <= |s|
    ensures |r| == 0 || (!IsWhiteSpace(r[0]) && !IsWhiteSpace(r[|r| - 1]))
    ensures LeadingWhiteSpace(s) + |r| <= |s| && r == s[LeadingWhiteSpace(s)..LeadingWhiteSpace(s) + |r|]
    ensures forall i :: LeadingWhiteSpace(s) + |r| <= i < |s| ==> IsWhiteSpace(s[i])
  {
    var t := s[LeadingWhiteSpace(s)..];
    t[..|t| - TrailingWhiteSpace(t)]
  }

  /** Trimming keeps a slice of `s` and drops only white space around it;
      it gives the empty string exactly for an all-white `s`. */
  lemma TrimDropsOnlyWhiteSpace(s: string)
    ensures var a := LeadingWhiteSpace(s);
            && a + |Trim(s)| <= |s|
            && Trim(s) == s[a..a + |Trim(s)|]
            && (forall i :: 0 <= i < a ==> IsWhiteSpace(s[i]))
            && (forall i :: a + |Trim(s)| <= i < |s| ==> IsWhiteSpace(s[i]))
    ensures |Trim(s)| == 0 <==> forall i :: 0 <= i < |s| ==> IsWhiteSpace(s[i])
  {
    var a := LeadingWhiteSpace(s);
    var t := s[a..];
    var b := TrailingWhiteSpace(t);
    assert Trim(s) == t[..|t| - b];
    forall i | a + |Trim(s)| <= i < |s|
      ensures IsWhiteSpace(s[i])
    {
      assert s[i] == t[i - a];
    }
  }

  /** A string without white space at its ends is its own trim; in
      particular trimming twice changes nothing. */
  lemma TrimOfTrimmed(s: string)
    requires |s| == 0 || (!IsWhiteSpace(s[0]) && !IsWhiteSpace(s[|s| - 1]))
    ensures Trim(s) == s
    ensures Trim(Trim(s)) == Trim(s)
  {
    assert LeadingWhiteSpace(s) == 0;
    assert s[0..] == s;
    assert TrailingWhiteSpace(s) == 0;
  }

  // ---------------------------------------------------------------------
  // Parsing

  const Int32Min: int := -0x8000_0000
  const Int32Max: int := 0x7FFF_FFFF

  predicate IsDigit(c: char) {
    '0' <= c <= '9'
  }

  predicate AllDigits(s: string) {
    forall i :: 0 <= i < |s| ==> IsDigit(s[i])
  }

  /** The value of a string of decimal digits, most significant first. */
  function DigitsValue(ds: string): (n: nat)
    requires AllDigits(ds)
    decreases |ds|
  {
    if |ds| == 0 then 0
    else DigitsValue(ds[..|ds| - 1]) * 10 + (ds[|ds| - 1] as int - '0' as int)
  }

  /** `int.TryParse` on a trimmed piece: an optional '+' or '-', then one or
      more ASCII digits, with the value inside the 32-bit range. */
  function ParseInt(s: string): (r: Option<int>)
    ensures r.Some? ==> Int32Min <= r.value <= Int32Max
    ensures r.Some? ==> AllDigits(s) || (|s| >= 2 && (s[0] == '+' || s[0] == '-') && AllDigits(s[1..]))
    ensures r.Some? && |s| >= 1 && s[0] == '-' ==> r.value <= 0
    ensures r.Some? ==> |s| >= 1 && r.value == (if s[0] == '-' then -(DigitsValue(s[1..]) as int)
                                                else if s[0] == '+' then DigitsValue(s[1..])
                                                else DigitsValue(s))
    ensures |s| >= 1 && AllDigits(s) && DigitsValue(s) <= Int32Max ==> r == Some(DigitsValue(s))
    ensures (|s| >= 2 && s[0] == '+' && AllDigits(s[1..]) && DigitsValue(s[1..]) <= Int32Max) ==>
              r == Some(DigitsValue(s[1..]))
    ensures (|s| >= 2 && s[0] == '-' && AllDigits(s[1..]) && DigitsValue(s[1..]) <= -Int32Min) ==>
              r == Some(-(DigitsValue(s[1..]) as int))
  {
    var neg := |s| > 0 && s[0] == '-';
    var digits := if |s| > 0 && (s[0] == '-' || s[0] == '+') then s[1..] else s;
    if |digits| == 0 || !AllDigits(digits) then None
    else
      var v := if neg then -(DigitsValue(digits) as int) else DigitsValue(digits) as int;
      if Int32Min <= v <= Int32Max then Some(v) else None
  }

  /** The decimal digits of `n`, without leading zeros. */
  function NatToString(n: nat): (s: string)
    ensures |s| >= 1 && AllDigits(s)
    ensures |s| > 1 ==> s[0] != '0'
    decreases n
  {
    var d := ['0' + ((n % 10) as char)];
    if n < 10 then d else NatToString(n / 10) + d
  }

  /** Reading the digits of `n` back gives `n`. */
  lemma {:induction false} DigitsValueOfNatToString(n: nat)
    ensures DigitsValue(NatToString(n)) == n
    decreases n
  {
    var s := NatToString(n);
    if n >= 10 {
      DigitsValueOfNatToString(n / 10);
      assert s[..|s| - 1] == NatToString(n / 10);
    }
  }

  /** Every number in the 32-bit range reads back from its decimal text,
      with a '-' in front for negative numbers. */
  lemma ParseIntRoundTrip(n: int)
    requires Int32Min <= n <= Int32Max
    ensures n >= 0 ==> ParseInt(NatToString(n)) == Some(n)
    ensures n < 0 ==> ParseInt("-" + NatToString(-n)) == Some(n)
  {
    if n >= 0 {
      DigitsValueOfNatToString(n);
    } else {
      var s := "-" + NatToString(-n);
      DigitsValueOfNatToString(-n);
      assert s[1..] == NatToString(-n);
    }
  }

  // ---------------------------------------------------------------------
  // Comparison

  /** `f` applied to every element, in order. */
  function MapAll<A, B>(f: A -> B, s: seq<A>): (r: seq<B>)
    ensures |r| == |s|
    decreases |s|
  {
    if |s| == 0 then [] else [f(s[0])] + MapAll(f, s[1..])
  }

  lemma {:induction false} MapAllAt<A, B>(f: A -> B, s: seq<A>, i: int)
    requires 0 <= i < |s|
    ensures MapAll(f, s)[i] == f(s[i])
    decreases i
  {
    if i > 0 {
      MapAllAt(f, s[1..], i - 1);
      assert s[1..][i - 1] == s[i];
    }
  }

  /** The trimmed pieces of a version string. */
  function Pieces(v: string): (p: seq<string>)
    ensures |p| == |Split(v)|
  {
    MapAll(Trim, Split(v))
  }

  /** The numeric value of a trimmed piece; pieces that do not parse count as 0. */
  function ComponentValue(piece: string): (r: int)
    ensures Int32Min <= r <= Int32Max
  {
    ParseInt(piece).GetOr(0)
  }

  /** A piece that is a 32-bit decimal, with or without a sign, counts
      as its value; a piece that is not a signed decimal counts as 0. */
  lemma ComponentValueOfDecimal(piece: string)
    ensures |piece| >= 1 && AllDigits(piece) && DigitsValue(piece) <= Int32Max ==>
              ComponentValue(piece) == DigitsValue(piece)
    ensures (|piece| >= 2 && piece[0] == '+' && AllDigits(piece[1..]) && DigitsValue(piece[1..]) <= Int32Max) ==>
              ComponentValue(piece) == DigitsValue(piece[1..])
    ensures (|piece| >= 2 && piece[0] == '-' && AllDigits(piece[1..]) && DigitsValue(piece[1..]) <= -Int32Min) ==>
              ComponentValue(piece) == -(DigitsValue(piece[1..]) as int)
    ensures !AllDigits(piece) && !(|piece| >= 2 && (piece[0] == '+' || piece[0] == '-') && AllDigits(piece[1..])) ==>
              ComponentValue(piece) == 0
    ensures |piece| == 0 ==> ComponentValue(piece) == 0
    ensures |piece| >= 1 && AllDigits(piece) && DigitsValue(piece) > Int32Max ==> ComponentValue(piece) == 0
  {
  }

  /** The numeric components of a version string. */
  function Components(v: string): (c: seq<int>)
    ensures |c| == |Split(v)|
  {
    MapAll(ComponentValue, Pieces(v))
  }

  /** `int.CompareTo`: the sign of a - b. */
  function CompareInt(a: int, b: int): (r: int)
    ensures r == -1 <==> a < b
    ensures r == 0 <==> a == b
    ensures r == 1 <==> a > b
  {
    if a < b then -1 else if a == b then 0 else 1
  }

  /** Reference comparison of two component sequences over the length of the
      shorter one: equal heads are skipped, the first differing pair decides. */
  function CompareComponents(xs: seq<int>, ys: seq<int>): (r: int)
    ensures -1 <= r <= 1
    decreases |xs|
  {
    if |xs| == 0 || |ys| == 0 then 0
    else if xs[0] == ys[0] then CompareComponents(xs[1..], ys[1..])
    else CompareInt(xs[0], ys[0])
  }

  /** The comparison of two version strings. */
  function VersionCompare(v1: string, v2: string): (r: int)
    ensures -1 <= r <= 1
  {
    CompareComponents(Components(v1), Components(v2))
  }

  function Min(a: int, b: int): int {
    if a <= b then a else b
  }

  /** Index `k` is the first place, within the shorter length, where the two sequences differ. */
  predicate FirstDifference(xs: seq<int>, ys: seq<int>, k: int) {
    && 0 <= k < Min(|xs|, |ys|)
    && xs[k] != ys[k]
    && forall j :: 0 <= j < k ==> xs[j] == ys[j]
  }

  /** The first difference decides the comparison. */
  lemma {:induction false} FirstDifferenceDecides(xs: seq<int>, ys: seq<int>, k: int)
    requires FirstDifference(xs, ys, k)
    ensures CompareComponents(xs, ys) == CompareInt(xs[k], ys[k])
    decreases k
  {
    if k > 0 {
      assert xs[0] == ys[0];
      FirstDifferenceDecides(xs[1..], ys[1..], k - 1);
    }
  }

  /** Sequences that agree over the shorter length compare equal. */
  lemma {:induction false} AgreeingPrefixCompareEqual(xs: seq<int>, ys: seq<int>)
    requires forall j :: 0 <= j < Min(|xs|, |ys|) ==> xs[j] == ys[j]
    ensures CompareComponents(xs, ys) == 0
    decreases |xs|
  {
    if |xs| > 0 && |ys| > 0 {
      assert xs[0] == ys[0];
      AgreeingPrefixCompareEqual(xs[1..], ys[1..]);
    }
  }

  /** The comparison is 0 exactly when no difference lies within the shorter length. */
  lemma CompareZeroIffNoDifference(xs: seq<int>, ys: seq<int>)
    ensures CompareComponents(xs, ys) == 0 <==> forall j :: 0 <= j < Min(|xs|, |ys|) ==> xs[j] == ys[j]
  {
    if forall j :: 0 <= j < Min(|xs|, |ys|) ==> xs[j] == ys[j] {
      AgreeingPrefixCompareEqual(xs, ys);
    } else {
      var k := FirstDiffIndex(xs, ys);
      FirstDifferenceDecides(xs, ys, k);
    }
  }

  /** Where two sequences disagree within the shorter length, a first difference exists. */
  function FirstDiffIndex(xs: seq<int>, ys: seq<int>): (k: int)
    requires exists j :: 0 <= j < Min(|xs|, |ys|) && xs[j] != ys[j]
    ensures FirstDifference(xs, ys, k)
    decreases |xs|
  {
    if xs[0] != ys[0] then 0
    else
      assert exists j :: 0 <= j < Min(|xs[1..]|, |ys[1..]|) && xs[1..][j] != ys[1..][j] by {
        var j :| 0 <= j < Min(|xs|, |ys|) && xs[j] != ys[j];
        assert j > 0 && xs[1..][j - 1] != ys[1..][j - 1];
      }
      1 + FirstDiffIndex(xs[1..], ys[1..])
  }

  /** The comparison loop over the trimmed pieces of both versions. */
  method ComparePieces(v1Split: seq<string>, v2Split: seq<string>) returns (r: int)
    ensures r == CompareComponents(MapAll(ComponentValue, v1Split), MapAll(ComponentValue, v2Split))
    ensures r == 0 <==> forall j :: 0 <= j < Min(|v1Split|, |v2Split|) ==>
                          MapAll(ComponentValue, v1Split)[j] == MapAll(ComponentValue, v2Split)[j]
    ensures r != 0 ==> exists k :: FirstDifference(MapAll(ComponentValue, v1Split), MapAll(ComponentValue, v2Split), k)
                                   && r == CompareInt(MapAll(ComponentValue, v1Split)[k], MapAll(ComponentValue, v2Split)[k])
  {
    ghost var xs, ys := MapAll(ComponentValue, v1Split), MapAll(ComponentValue, v2Split);
    var len := if |v1Split| <= |v2Split| then |v1Split| else |v2Split|;
    var i := 0;
    while i < len
      invariant 0 <= i <= len
      invariant forall j :: 0 <= j < i ==> xs[j] == ys[j]
    {
      var comp1 := if i < |v1Split| then ComponentValue(v1Split[i]) else 0;
      var comp2 := if i < |v2Split| then ComponentValue(v2Split[i]) else 0;
      MapAllAt(ComponentValue, v1Split, i);
      MapAllAt(ComponentValue, v2Split, i);
      if comp1 == comp2 {
        i := i + 1;
        continue;
      }
      assert FirstDifference(xs, ys, i);
      FirstDifferenceDecides(xs, ys, i);
      return CompareInt(comp1, comp2);
    }
    AgreeingPrefixCompareEqual(xs, ys);
    return 0;
  }

  /** Compares two plugin version strings. */
  method ComparePluginVersion(v1: string, v2: string) returns (r: int)
    ensures r == VersionCompare(v1, v2)
  {
    r := ComparePieces(Pieces(v1), Pieces(v2));
  }

  /** Every version equals itself. */
  lemma {:induction false} CompareComponentsReflexive(xs: seq<int>)
    ensures CompareComponents(xs, xs) == 0
    decreases |xs|
  {
    if |xs| > 0 {
      CompareComponentsReflexive(xs[1..]);
    }
  }

  /** Swapping the arguments negates the result. */
  lemma {:induction false} CompareComponentsAntisymmetric(xs: seq<int>, ys: seq<int>)
    ensures CompareComponents(xs, ys) == -CompareComponents(ys, xs)
    decreases |xs|
  {
    if |xs| > 0 && |ys| > 0 && xs[0] == ys[0] {
      CompareComponentsAntisymmetric(xs[1..], ys[1..]);
    }
  }

  lemma VersionCompareReflexive(v: string)
    ensures VersionCompare(v, v) == 0
  {
    CompareComponentsReflexive(Components(v));
  }

  lemma VersionCompareAntisymmetric(v1: string, v2: string)
    ensures VersionCompare(v1, v2) == -VersionCompare(v2, v1)
  {
    CompareComponentsAntisymmetric(Components(v1), Components(v2));
  }

  /** A version compares equal to every extension of it by further
      components: "1.2" and "1.2.5" are the same version here. */
  lemma VersionEqualsItsExtensions(v: string, more: string)
    ensures VersionCompare(v, v + "." + more) == 0
    ensures VersionCompare(v + "." + more, v) == 0
  {
    var w := v + "." + more;
    var xs, ys := Components(v), Components(w);
    SplitAppend(v, more);
    forall j | 0 <= j < |xs|
      ensures ys[j] == xs[j]
    {
      assert Split(w)[j] == Split(v)[j];
      MapAllAt(Trim, Split(v), j);
      MapAllAt(Trim, Split(w), j);
      MapAllAt(ComponentValue, Pieces(v), j);
      MapAllAt(ComponentValue, Pieces(w), j);
    }
    AgreeingPrefixCompareEqual(xs, ys);
    AgreeingPrefixCompareEqual(ys, xs);
  }

  /** A piece with no '.' and no white space at its ends: what a version
      string's piece looks like after trimming. */
  predicate Plain(p: string) {
    NoSeparator(p) && (|p| == 0 || (!IsWhiteSpace(p[0]) && !IsWhiteSpace(p[|p| - 1])))
  }

  lemma {:induction false} MapAllAppend<A, B>(f: A -> B, s: seq<A>, t: seq<A>)
    ensures MapAll(f, s + t) == MapAll(f, s) + MapAll(f, t)
    decreases |s|
  {
    if |s| > 0 {
      assert (s + t)[1..] == s[1..] + t;
      MapAllAppend(f, s[1..], t);
    } else {
      assert s + t == t;
    }
  }

  /** Appending a plain piece appends its value to the components. */
  lemma AppendComponent(v: string, b: string)
    requires Plain(b)
    ensures Components(v + "." + b) == Components(v) + [ComponentValue(b)]
  {
    SplitAppend(v, b);
    SplitJoin([b]);
    assert Split(b) == [b];
    TrimOfTrimmed(b);
    MapAllAppend(Trim, Split(v), [b]);
    assert MapAll(Trim, [b]) == [Trim(b)];
    MapAllAppend(ComponentValue, Pieces(v), [b]);
    assert MapAll(ComponentValue, [b]) == [ComponentValue(b)];
  }

  /** A piece that is not a number counts as 0: "1.x" is the same version
      as "1.0", whatever comes before the last piece. */
  lemma NonNumericCountsAsZero(v: string, p: string, zero: string)
    requires Plain(p) && Plain(zero)
    requires ParseInt(p).None? && ParseInt(zero) == Some(0)
    ensures VersionCompare(v + "." + p, v + "." + zero) == 0
  {
    AppendComponent(v, p);
    AppendComponent(v, zero);
    var xs := Components(v + "." + p);
    var ys := Components(v + "." + zero);
    assert xs == ys;
    CompareComponentsReflexive(xs);
  }

  /** Because extensions compare equal, "equal" is not transitive: "1.1"
      and "1.2" both equal "1" but differ from each other. */
  lemma EqualityIsNotTransitive(v: string, b: string, c: string)
    requires Plain(b) && Plain(c)
    requires ComponentValue(b) < ComponentValue(c)
    ensures VersionCompare(v + "." + b, v) == 0 && VersionCompare(v, v + "." + c) == 0
    ensures VersionCompare(v + "." + b, v + "." + c) == -1
  {
    VersionEqualsItsExtensions(v, b);
    VersionEqualsItsExtensions(v, c);
    AppendComponent(v, b);
    AppendComponent(v, c);
    var xs := Components(v + "." + b);
    var ys := Components(v + "." + c);
    var n := |Components(v)|;
    assert FirstDifference(xs, ys, n);
    FirstDifferenceDecides(xs, ys, n);
  }
}
