/**
 * The weather panel's wind label: the wind direction in degrees is rounded
 * to the nearest multiple of 45 and named by the compass point of that
 * bucket.
 */
module WeatherInfo {
  import opened Wrappers
  import opened JsText

  function Pow10(n: nat): (r: nat)
    ensures r >= 1
  {
    if n == 0 then 1 else 10 * Pow10(n - 1)
  }

  /** `Number(s)` for a decimal numeral: an optional sign, digits, and an
    * optional '.' followed by digits, with at least one digit in all;
    * `None` (NaN) for every other string. */
  function DecimalNumeral(s: string): (r: Option<real>)
    ensures IntegerNumeral(s).Some? ==> r == Some(IntegerNumeral(s).value as real)
  {
    var signed := |s| > 0 && (s[0] == '-' || s[0] == '+');
    var negative := signed && s[0] == '-';
    var rest := if signed then s[1..] else s;
    var n := DigitPrefixLength(rest);
    var whole := rest[..n];
    var tail := rest[n..];
    AllDigitsPrefix(rest);
    if tail == [] then
      if n == 0 then None
      else
        var v := DigitsValue(whole) as real;
        Some(if negative then -v else v)
    else if tail[0] != '.' || !AllDigits(tail[1..]) || (n == 0 && |tail| == 1) then None
    else
      var v := DigitsValue(whole) as real + DigitsValue(tail[1..]) as real / Pow10(|tail| - 1) as real;
      Some(if negative then -v else v)
  }

  lemma AllDigitsPrefix(s: string)
    ensures AllDigits(s) ==> DigitPrefixLength(s) == |s| && s[..DigitPrefixLength(s)] == s
  {
    if AllDigits(s) {
      DigitPrefixOfDigits(s);
      assert s[..|s|] == s;
    }
  }

  /** `Math.round`: the nearest integer, a half rounded up. */
  function Round(x: real): (k: int)
    ensures k as real - 0.5 <= x < k as real + 0.5
  {
    (x + 0.5).Floor
  }

  /** `Math.round((degrees / 360) * 8) * 45`. */
  function Bucket(degrees: real): int {
    Round((degrees / 360.0) * 8.0) * 45
  }

  /** The compass points in the order of the switch's cases, 45 degrees apart from north. */
  const CompassPoints: seq<string> := ["N", "NE", "E", "SE", "S", "SW", "W", "NW"]

  /** `windDirectionText`'s switch on the bucket label `${bucket}°`. */
  function CompassPoint(bucket: int): (r: string)
    ensures (0 <= bucket <= 315 && bucket % 45 == 0) ==> r == CompassPoints[bucket / 45]
    ensures !(0 <= bucket <= 315 && bucket % 45 == 0) ==> r == "N/A"
  {
    match bucket
    case 0 => "N"
    case 45 => "NE"
    case 90 => "E"
    case 135 => "SE"
    case 180 => "S"
    case 225 => "SW"
    case 270 => "W"
    case 315 => "NW"
    case _ => "N/A"
  }

  /** The label under the wind speed: "N/A" without a (truthy) direction or
    * when the direction is not a number, otherwise its bucket's compass point. */
  function WindDirectionText(windDirection: Option<string>): (r: string)
    ensures (windDirection.None? || windDirection.value == "") ==> r == "N/A"
    ensures r == "N/A" || r in CompassPoints
  {
    if windDirection.None? || windDirection.value == "" then "N/A"
    else
      match DecimalNumeral(windDirection.value)
      case None => "N/A"
      case Some(degrees) => CompassPoint(Bucket(degrees))
  }

  /** For whole degrees the bucket is the nearest multiple of 45, and there
    * is never a tie between two of them. */
  lemma IntegerBucket(d: int)
    ensures Bucket(d as real) % 45 == 0
    ensures -45 < 2 * (d - Bucket(d as real)) < 45
  {
    var x := (d as real / 360.0) * 8.0;
    assert x == d as real / 45.0;
    var k := Round(x);
    assert 45.0 * k as real - 22.5 <= d as real < 45.0 * k as real + 22.5;
    assert -45 <= 2 * (d - 45 * k) < 45;
    assert 2 * (d - 45 * k) != -45;
  }

  /** Directions given as whole degrees from 0 to 337 name the compass point
    * nearest to them. */
  lemma IntegerDirection(d: nat)
    requires d <= 337
    ensures (var b := Bucket(d as real);
             0 <= b <= 315 && WindDirectionText(Some(NatToString(d))) == CompassPoints[b / 45])
  {
    IntegerBucket(d);
    BucketRange(d, Bucket(d as real));
    WholeDegrees(d);
  }

  /** Directions from 338 to 360 degrees round to 360, which the switch has
    * no case for: they show "N/A" rather than "N". */
  lemma NorthOfNorthWestIsUnnamed(d: nat)
    requires 338 <= d <= 360
    ensures Bucket(d as real) == 360
    ensures WindDirectionText(Some(NatToString(d))) == "N/A"
  {
    IntegerBucket(d);
    BucketRange(d, Bucket(d as real));
    WholeDegrees(d);
  }

  /** "0" is a truthy string: due north is named "N", unlike an empty direction. */
  lemma ZeroIsNorth()
    ensures WindDirectionText(Some("0")) == "N"
    ensures WindDirectionText(Some("")) == "N/A"
  {
    IntegerNumeralOf(0);
    assert NatToString(0) == "0";
    IntegerBucket(0);
  }

  lemma IntegerNumeralOf(d: nat)
    ensures NatToString(d) != ""
    ensures DecimalNumeral(NatToString(d)) == Some(d as real)
  {
    var s := NatToString(d);
    assert s[0] != '-' && s[0] != '+' by {
      assert IsDigit(s[0]);
    }
  }

  /** The label with the bucket taken modulo 360, so that 360 degrees is north again. */
  function WindDirectionTextWrapped(windDirection: Option<string>): (r: string)
    ensures (windDirection.None? || windDirection.value == "") ==> r == "N/A"
    ensures r == "N/A" || r in CompassPoints
  {
    if windDirection.None? || windDirection.value == "" then "N/A"
    else
      match DecimalNumeral(windDirection.value)
      case None => "N/A"
      case Some(degrees) => CompassPoint(Bucket(degrees) % 360)
  }

  /** With the wrap-around every whole direction in [0, 360] is named, by
    * the point nearest to it on the circle. */
  lemma WrappedNamesEveryDirection(d: nat)
    requires d <= 360
    ensures (var b := Bucket(d as real);
             var r := WindDirectionTextWrapped(Some(NatToString(d)));
             r != "N/A" && r == CompassPoints[(b % 360) / 45] && -45 < 2 * (d - b) < 45)
    ensures 338 <= d ==> WindDirectionTextWrapped(Some(NatToString(d))) == "N"
  {
    IntegerBucket(d);
    BucketRange(d, Bucket(d as real));
    WholeDegrees(d);
  }

  /** The labels of a whole number of degrees written out. */
  lemma WholeDegrees(d: nat)
    ensures WindDirectionText(Some(NatToString(d))) == CompassPoint(Bucket(d as real))
    ensures WindDirectionTextWrapped(Some(NatToString(d))) == CompassPoint(Bucket(d as real) % 360)
  {
    IntegerNumeralOf(d);
  }

  lemma BucketRange(d: nat, b: int)
    requires d <= 360 && b % 45 == 0 && -45 < 2 * (d - b) < 45
    ensures 0 <= b <= 360
    ensures 338 <= d ==> b == 360
    ensures d <= 337 ==> b <= 315
    ensures 0 <= b % 360 <= 315 && (b % 360) % 45 == 0
    ensures 338 <= d ==> b % 360 == 0
  {
  }
}
