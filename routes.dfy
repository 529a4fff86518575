/**
 * Navigation routes (`Screen.*.createRoute`, MainActivity.kt lines 122-130) and the
 * decoding of the layer id argument on the question destination (line 183:
 * `getString("layerId")?.toIntOrNull() ?: 0`).
 */
module Routes {
  import opened Options
  import opened Model

  /**
   * `Screen.LayersSelection.createRoute(topicId)`: the destination's fixed prefix, then
   * the topic id as the last segment.
   */
  function LayersSelectionRoute(topicId: string): (r: string)
    ensures |r| == |"layers_selection/"| + |topicId|
    ensures r[..|"layers_selection/"|] == "layers_selection/"
    ensures r[|"layers_selection/"|..] == topicId
  {
    "layers_selection/" + topicId
  }

  /**
   * `Screen.Question.createRoute(topicId, layerId)`: the topic id and the printed layer
   * id as two segments after the prefix; the last segment parses back to `layerId`.
   */
  function QuestionRoute(topicId: string, layerId: int32): (r: string)
    ensures |"question/" + topicId + "/"| < |r|
    ensures r == "question/" + topicId + "/" + r[|"question/" + topicId + "/"|..]
    ensures ToIntOrNull(r[|"question/" + topicId + "/"|..]) == Some(layerId)
  {
    var prefix := "question/" + topicId + "/";
    var r := prefix + IntToString(layerId);
    assert r[|prefix|..] == IntToString(layerId);
    LayerIdRoundTrip(layerId);
    r
  }

  predicate IsDigit(c: char) {
    '0' <= c <= '9'
  }

  predicate AllDigits(s: string) {
    forall k :: 0 <= k < |s| ==> IsDigit(s[k])
  }

  /** Decimal digits of `n`, most significant first, no leading zeros. */
  function NatToDigits(n: nat): (s: string)
    ensures 1 <= |s| && AllDigits(s)
    ensures |s| > 1 ==> s[0] != '0'
  {
    if n < 10 then [(n + '0' as int) as char]
    else NatToDigits(n / 10) + [(n % 10 + '0' as int) as char]
  }

  /** The value of a string of decimal digits (the empty string has value 0). */
  function DigitsValue(s: string): nat
    requires AllDigits(s)
  {
    if s == [] then 0
    else DigitsValue(s[..|s| - 1]) * 10 + (s[|s| - 1] as int - '0' as int)
  }

  /** String interpolation of an `Int`: a minus sign for negatives, then the digits. */
  function IntToString(n: int32): (s: string)
    ensures 1 <= |s| && (s[0] == '-' || IsDigit(s[0]))
    ensures forall k :: 1 <= k < |s| ==> IsDigit(s[k])
  {
    if n < 0 then "-" + NatToDigits(-(n as int)) else NatToDigits(n as int)
  }

  /** `s` without one leading `-` or `+`. */
  function Magnitude(s: string): (m: string)
    ensures |m| <= |s| && m == s[|s| - |m|..]
  {
    if s != [] && (s[0] == '-' || s[0] == '+') then s[1..] else s
  }

  /**
   * `String.toIntOrNull()` for ASCII digits: an optional leading `-` or `+`, then at
   * least one digit and nothing else, and a value within the range of `Int`. It
   * succeeds exactly on such strings, with the signed value of the digits.
   */
  function ToIntOrNull(s: string): (r: Option<int32>)
    ensures r.Some? ==> Magnitude(s) != [] && AllDigits(Magnitude(s)) &&
                        r.value as int == (if s[0] == '-' then -1 else 1) * DigitsValue(Magnitude(s))
    ensures Magnitude(s) != [] && AllDigits(Magnitude(s)) &&
            -0x8000_0000 <= (if s[0] == '-' then -1 else 1) * DigitsValue(Magnitude(s)) < 0x8000_0000
            ==> r.Some?
  {
    var digits := Magnitude(s);
    if digits == [] || !AllDigits(digits) then None
    else
      var v: int := if s[0] == '-' then 0 - DigitsValue(digits) as int else DigitsValue(digits);
      if -0x8000_0000 <= v < 0x8000_0000 then Some(v as int32) else None
  }

  /** The question screen's layer id: the parsed argument, or 0 when missing or malformed. */
  function LayerIdArgument(arg: Option<string>): (id: int32)
    ensures arg.None? ==> id == 0
    ensures arg.Some? && ToIntOrNull(arg.value).None? ==> id == 0
    ensures arg.Some? && ToIntOrNull(arg.value).Some? ==> id == ToIntOrNull(arg.value).value
  {
    match arg
    case None => 0
    case Some(s) => ToIntOrNull(s).GetOr(0)
  }

  lemma {:induction false} DigitsValueOfNatToDigits(n: nat)
    ensures DigitsValue(NatToDigits(n)) == n
  {
    var s := NatToDigits(n);
    if n >= 10 {
      DigitsValueOfNatToDigits(n / 10);
      assert s[..|s| - 1] == NatToDigits(n / 10);
    }
  }

  /** A `-` followed by digits whose negated value fits in `Int` parses to that value. */
  lemma ParseNegative(m: string, n: int32)
    requires m != [] && AllDigits(m) && DigitsValue(m) == -(n as int)
    ensures ToIntOrNull("-" + m) == Some(n)
  {
    var s := "-" + m;
    assert s[0] == '-';
    assert Magnitude(s) == m;
  }

  /** A negative layer id is printed as `-` and its magnitude's digits, and parsed back. */
  lemma NegativeRoundTrip(layerId: int32)
    requires layerId < 0
    ensures ToIntOrNull(IntToString(layerId)) == Some(layerId)
  {
    DigitsValueOfNatToDigits(-(layerId as int));
    ParseNegative(NatToDigits(-(layerId as int)), layerId);
  }

  /** Unsigned digits whose value fits in `Int` parse to that value. */
  lemma ParseUnsigned(s: string, n: int32)
    requires s != [] && AllDigits(s) && DigitsValue(s) == n as int
    ensures ToIntOrNull(s) == Some(n)
  {
    assert IsDigit(s[0]);
    assert Magnitude(s) == s;
  }

  /** A non-negative layer id is printed as bare digits, and parsed back. */
  lemma NonNegativeRoundTrip(layerId: int32)
    requires 0 <= layerId
    ensures ToIntOrNull(IntToString(layerId)) == Some(layerId)
  {
    DigitsValueOfNatToDigits(layerId as int);
    ParseUnsigned(NatToDigits(layerId as int), layerId);
  }

  /** Parsing what the route builder printed gives back the layer id. */
  lemma LayerIdRoundTrip(layerId: int32)
    ensures ToIntOrNull(IntToString(layerId)) == Some(layerId)
    ensures LayerIdArgument(Some(IntToString(layerId))) == layerId
  {
    if layerId < 0 {
      NegativeRoundTrip(layerId);
    } else {
      NonNegativeRoundTrip(layerId);
    }
  }

  /** The position of the first `/` in `s`. */
  function FirstSlash(s: string): (k: nat)
    requires '/' in s
    ensures k < |s| && s[k] == '/' && '/' !in s[..k]
  {
    if s[0] == '/' then 0
    else
      var k := FirstSlash(s[1..]);
      assert s[..k + 1] == [s[0]] + s[1..][..k];
      k + 1
  }

  lemma {:induction false} FirstSlashAfterSegment(a: string, b: string)
    requires '/' !in a
    ensures FirstSlash(a + "/" + b) == |a|
  {
    if a != [] {
      assert (a + "/" + b)[1..] == a[1..] + "/" + b;
      FirstSlashAfterSegment(a[1..], b);
    }
  }

  /** A segment with no `/` in it ends where the first `/` is. */
  lemma SplitAtFirstSlash(a1: string, b1: string, a2: string, b2: string)
    requires '/' !in a1 && '/' !in a2
    requires a1 + "/" + b1 == a2 + "/" + b2
    ensures a1 == a2 && b1 == b2
  {
    var s := a1 + "/" + b1;
    FirstSlashAfterSegment(a1, b1);
    FirstSlashAfterSegment(a2, b2);
    assert a1 == s[..|a1|] == a2;
    assert b1 == s[|a1| + 1..] == b2;
  }

  /** Dropping a prefix `p` from `p + a + "/" + u` leaves `a + "/" + u`. */
  lemma SkipPrefix(p: string, a: string, u: string)
    ensures (p + a + "/" + u)[|p|..] == a + "/" + u
  {
    assert p + a + "/" + u == p + (a + "/" + u);
  }

  /** A slash-free topic id and a layer id are recovered from the question route. */
  lemma QuestionRouteInjective(t1: string, l1: int32, t2: string, l2: int32)
    requires '/' !in t1 && '/' !in t2
    requires QuestionRoute(t1, l1) == QuestionRoute(t2, l2)
    ensures t1 == t2 && l1 == l2
  {
    var prefix := "question/";
    var r1, r2 := QuestionRoute(t1, l1), QuestionRoute(t2, l2);
    var u1, u2 := r1[|prefix + t1 + "/"|..], r2[|prefix + t2 + "/"|..];
    SkipPrefix(prefix, t1, u1);
    SkipPrefix(prefix, t2, u2);
    SplitAtFirstSlash(t1, u1, t2, u2);
  }

  /** Distinct layer ids print differently. */
  lemma IntToStringInjective(l1: int32, l2: int32)
    requires IntToString(l1) == IntToString(l2)
    ensures l1 == l2
  {
    LayerIdRoundTrip(l1);
    LayerIdRoundTrip(l2);
  }

  /** Distinct topics get distinct layer-selection routes. */
  lemma LayersSelectionRouteInjective(t1: string, t2: string)
    requires LayersSelectionRoute(t1) == LayersSelectionRoute(t2)
    ensures t1 == t2
  {
    var prefix := "layers_selection/";
    assert t1 == LayersSelectionRoute(t1)[|prefix|..];
  }
}
