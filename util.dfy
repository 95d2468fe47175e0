/**
 * The helpers of src/util.js: wrapping an angle into (-pi, pi] and comparing
 * two topic lists by their channels.
 */
module Util {
  import opened JsNumber

  /**
   * `normalizeAngle`: shift by pi, take JavaScript's `%` by 2 pi (the
   * remainder keeps the dividend's sign), and shift back, moving a remainder
   * of 0 or below up by pi instead of down. `pi` stands for `Math.PI`.
   */
  function NormalizeAngle(angle: real, pi: real): real
    requires 0.0 < pi
  {
    var result := Rem(angle + pi, 2.0 * pi);
    if result <= 0.0 then result + pi else result - pi
  }

  /** The result lies in (-pi, pi]. */
  lemma NormalizeAngleRange(angle: real, pi: real)
    requires 0.0 < pi
    ensures -pi < NormalizeAngle(angle, pi) <= pi
  {
    var result := Rem(angle + pi, 2.0 * pi);
    assert 0.0 <= angle + pi ==> 0.0 <= result < 2.0 * pi;
    assert angle + pi < 0.0 ==> -2.0 * pi < result <= 0.0;
  }

  /** The number of whole turns `normalizeAngle` adds. */
  function Turns(angle: real, pi: real): int
    requires 0.0 < pi
  {
    var k := Trunc((angle + pi) / (2.0 * pi));
    if Rem(angle + pi, 2.0 * pi) <= 0.0 then 1 - k else -k
  }

  /** The result differs from the input by a whole number of turns. */
  lemma NormalizeAngleTurns(angle: real, pi: real)
    requires 0.0 < pi
    ensures NormalizeAngle(angle, pi) == angle + Turns(angle, pi) as real * (2.0 * pi)
  {
    var k := Trunc((angle + pi) / (2.0 * pi));
    var result := Rem(angle + pi, 2.0 * pi);
    assert result == angle + pi - k as real * (2.0 * pi);
    if result <= 0.0 {
      calc {
        result + pi;
        angle + 2.0 * pi - k as real * (2.0 * pi);
        { OneMinusTimes(k, 2.0 * pi); }
        angle + (1 - k) as real * (2.0 * pi);
      }
    } else {
      calc {
        result - pi;
        angle - k as real * (2.0 * pi);
        { NegTimes(k, 2.0 * pi); }
        angle + (-k) as real * (2.0 * pi);
      }
    }
  }

  lemma OneMinusTimes(k: int, b: real)
    ensures b - k as real * b == (1 - k) as real * b
  {
  }

  lemma NegTimes(k: int, b: real)
    ensures -(k as real * b) == (-k) as real * b
  {
  }

  /** Angles already in (-pi, pi] are left as they are. */
  lemma NormalizeAngleFixed(angle: real, pi: real)
    requires 0.0 < pi && -pi < angle <= pi
    ensures NormalizeAngle(angle, pi) == angle
  {
    var a := angle + pi;
    var b := 2.0 * pi;
    if a < b {
      assert 0.0 <= a / b < 1.0 by {
        FractionBelowOne(a, b);
      }
      assert Trunc(a / b) == 0;
      assert Rem(a, b) == a;
    } else {
      assert a / b == 1.0;
      assert Trunc(a / b) == 1;
      assert Rem(a, b) == 0.0;
    }
  }

  lemma FractionBelowOne(a: real, b: real)
    requires 0.0 <= a < b
    ensures 0.0 <= a / b < 1.0
  {
  }

  /** Normalising twice is normalising once. */
  lemma NormalizeAngleIdempotent(angle: real, pi: real)
    requires 0.0 < pi
    ensures NormalizeAngle(NormalizeAngle(angle, pi), pi) == NormalizeAngle(angle, pi)
  {
    NormalizeAngleRange(angle, pi);
    NormalizeAngleFixed(NormalizeAngle(angle, pi), pi);
  }

  /**
   * An operand of `isDeepEqual`: `null`, `undefined`, or an array of topics
   * given by its identity (`ref`) and the `channel` of each item. Two
   * operands with the same `ref` are one array and so carry the same
   * channels; the lemmas below do not rely on that and hold for any pair.
   */
  datatype Operand = Null | Undefined | Topics(ref: nat, channels: seq<string>)

  /** `===`: the same primitive, or the same array object. */
  predicate StrictEquals(a: Operand, b: Operand) {
    match (a, b)
    case (Null, Null) => true
    case (Undefined, Undefined) => true
    case (Topics(r, _), Topics(s, _)) => r == s
    case _ => false
  }

  /** `ys.includes(x)`. */
  function Includes(ys: seq<string>, x: string): (b: bool)
    ensures b <==> x in ys
  {
    if ys == [] then false else ys[0] == x || Includes(ys[1..], x)
  }

  /** The `for ... of` loop: every key of `xs` is included in `ys`, scanning left to right. */
  function AllIncluded(xs: seq<string>, ys: seq<string>): bool {
    if xs == [] then true else Includes(ys, xs[0]) && AllIncluded(xs[1..], ys)
  }

  /**
   * `isDeepEqual`: identical operands are equal; a missing operand, or a
   * length mismatch, is not; otherwise every channel of each list must occur
   * in the other.
   */
  function IsDeepEqual(data1: Operand, data2: Operand): bool {
    if StrictEquals(data1, data2) then true
    else if !data1.Topics? || !data2.Topics? then false
    else if |data1.channels| != |data2.channels| then false
    else AllIncluded(data1.channels, data2.channels) && AllIncluded(data2.channels, data1.channels)
  }

  /** The scan succeeds exactly when every element of `xs` is in `ys`. */
  lemma {:induction false} AllIncludedIsSubset(xs: seq<string>, ys: seq<string>)
    ensures AllIncluded(xs, ys) <==> (forall x | x in xs :: x in ys)
    decreases |xs|
  {
    if xs != [] {
      AllIncludedIsSubset(xs[1..], ys);
      assert forall x | x in xs :: x == xs[0] || x in xs[1..];
    }
  }

  function Elements(s: seq<string>): set<string> {
    set x | x in s
  }

  /** Every operand equals itself. */
  lemma IsDeepEqualReflexive(d: Operand)
    ensures IsDeepEqual(d, d)
  {
  }

  /** A missing operand equals only the identical missing value. */
  lemma IsDeepEqualMissing(data1: Operand, data2: Operand)
    requires !data1.Topics? || !data2.Topics?
    ensures IsDeepEqual(data1, data2) <==> data1 == data2
  {
  }

  /** Two distinct arrays of different lengths are never equal. */
  lemma IsDeepEqualLengths(data1: Operand, data2: Operand)
    requires data1.Topics? && data2.Topics? && data1.ref != data2.ref
    requires |data1.channels| != |data2.channels|
    ensures !IsDeepEqual(data1, data2)
  {
  }

  /**
   * Two distinct arrays of the same length are equal exactly when they hold
   * the same set of channels; repetitions are not counted.
   */
  lemma IsDeepEqualSets(data1: Operand, data2: Operand)
    requires data1.Topics? && data2.Topics? && data1.ref != data2.ref
    requires |data1.channels| == |data2.channels|
    ensures IsDeepEqual(data1, data2) <==> Elements(data1.channels) == Elements(data2.channels)
  {
    AllIncludedIsSubset(data1.channels, data2.channels);
    AllIncludedIsSubset(data2.channels, data1.channels);
    if Elements(data1.channels) == Elements(data2.channels) {
      forall x | x in data1.channels
        ensures x in data2.channels
      {
        assert x in Elements(data1.channels);
      }
      forall x | x in data2.channels
        ensures x in data1.channels
      {
        assert x in Elements(data2.channels);
      }
    }
  }

  /** The comparison does not depend on the order of its operands. */
  lemma IsDeepEqualSymmetric(data1: Operand, data2: Operand)
    ensures IsDeepEqual(data1, data2) == IsDeepEqual(data2, data1)
  {
  }

  /** `[a, a, b]` and `[a, b, b]` compare equal although their multisets differ. */
  lemma IsDeepEqualIgnoresMultiplicity()
    ensures IsDeepEqual(Topics(1, ["a", "a", "b"]), Topics(2, ["a", "b", "b"]))
    ensures multiset(["a", "a", "b"]) != multiset(["a", "b", "b"])
  {
    IsDeepEqualSets(Topics(1, ["a", "a", "b"]), Topics(2, ["a", "b", "b"]));
    assert Elements(["a", "a", "b"]) == {"a", "b"};
    assert Elements(["a", "b", "b"]) == {"a", "b"};
    assert multiset(["a", "a", "b"])["a"] == 2;
  }
}
