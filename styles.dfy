/**
 * The voice-style resolver of `TTSKoko::mix_styles`. A style name is either one voice
 * of the table, or a blend `name.w+name.w+...` in which every voice's first style row is
 * scaled by `w * 0.1` and the rows are summed.
 *
 * Samples and weights are real numbers; a weight is read from a string of decimal digits.
 */
module Styles {
  import opened Outcomes
  import opened Text

  /** The width of a style vector. */
  const STYLE_WIDTH: nat := 256
  /** The number of style vectors a voice holds. */
  const VOICE_LENGTH: nat := 511

  /** One style vector: 256 reals (Rust: `[f32; 256]`). */
  type Row = r: seq<real> | |r| == STYLE_WIDTH witness seq(256, _ => 0.0)

  /** The all-zero style vector. */
  const ZERO_ROW: Row := seq(256, _ => 0.0)

  /** A voice: 511 matrices of one style vector each (Rust: `[[[f32; 256]; 1]; 511]`). */
  type Voice = v: seq<seq<Row>> | |v| == VOICE_LENGTH && forall i :: 0 <= i < |v| ==> |v[i]| == 1
    witness seq(511, _ => [ZERO_ROW])

  /** The loaded voices, by name. */
  type StyleTable = map<string, Voice>

  /** The style matrix handed to the model: one row of 256 reals. */
  type StyleMatrix = seq<seq<real>>

  datatype StyleError = UnknownStyle(name: string) {
    /** The error text of the single-name lookup. */
    function Message(): string {
      "can not found from styles_map: " + name
    }
  }

  // ---------------------------------------------------------------------------
  // Weights
  // ---------------------------------------------------------------------------

  predicate IsDigit(c: char) {
    '0' <= c <= '9'
  }

  predicate AllDigits(s: string) {
    forall i :: 0 <= i < |s| ==> IsDigit(s[i])
  }

  /** The number a string of decimal digits denotes, most significant digit first. */
  function DigitsValue(s: string): nat
    requires AllDigits(s)
  {
    if s == [] then 0
    else DigitsValue(s[..|s| - 1]) * 10 + (s[|s| - 1] - '0') as nat
  }

  /** A weight as the model reads it: a non-empty string of decimal digits, or nothing. */
  function ParseWeight(s: string): (r: Option<nat>)
    ensures r.Some? <==> s != [] && AllDigits(s)
  {
    if s != [] && AllDigits(s) then Some(DigitsValue(s)) else None
  }

  /** The decimal digits of `n`, as Rust's `to_string` writes them. */
  function Decimal(n: nat): (r: string)
    ensures r != [] && AllDigits(r)
  {
    var d := [('0' as int + n % 10) as char];
    if n < 10 then d else Decimal(n / 10) + d
  }

  /** Reading back the decimal digits of a number gives that number. */
  lemma {:induction false} ParseDecimal(n: nat)
    ensures ParseWeight(Decimal(n)) == Some(n)
  {
    var s := Decimal(n);
    var d := [('0' as int + n % 10) as char];
    assert (d[0] - '0') as nat == n % 10;
    assert s[|s| - 1] == d[0];
    if n >= 10 {
      ParseDecimal(n / 10);
      assert s[..|s| - 1] == Decimal(n / 10);
      assert DigitsValue(s) == (n / 10) * 10 + n % 10;
    } else {
      assert s[..|s| - 1] == [];
      assert DigitsValue(s) == n % 10;
    }
  }

  // ---------------------------------------------------------------------------
  // Segments and the blend
  // ---------------------------------------------------------------------------

  /**
   * What one `+`-separated segment adds to the blend: the name before its first `.` and
   * the weight after it times 0.1, or nothing when there is no `.` or no readable weight.
   */
  function SegmentPortion(segment: string): seq<(string, real)> {
    match SplitOnce(segment, '.')
    case None => []
    case Some((name, portion)) =>
      match ParseWeight(portion)
      case None => []
      case Some(n) => [(name, n as real * 0.1)]
  }

  /** The names and portions of all segments, in order (`style_names` zipped with `style_portions`). */
  function Portions(segments: seq<string>): seq<(string, real)> {
    if segments == [] then []
    else Portions(segments[..|segments| - 1]) + SegmentPortion(segments[|segments| - 1])
  }

  /** What one named portion adds at position `j`: nothing when the name is not a voice. */
  function Contribution(table: StyleTable, part: (string, real), j: nat): real
    requires j < STYLE_WIDTH
  {
    if part.0 in table then table[part.0][0][0][j] * part.1 else 0.0
  }

  /** The blended value at position `j`: the sum of the contributions of all portions. */
  function Blend(table: StyleTable, parts: seq<(string, real)>, j: nat): real
    requires j < STYLE_WIDTH
  {
    if parts == [] then 0.0
    else Blend(table, parts[..|parts| - 1], j) + Contribution(table, parts[|parts| - 1], j)
  }

  /** The blended style row of a `+`-separated style name. */
  function BlendedRow(table: StyleTable, styleName: string): (r: seq<real>)
    ensures |r| == STYLE_WIDTH
  {
    var parts := Portions(Split(styleName, OneOf({'+'})));
    seq(STYLE_WIDTH, j requires 0 <= j < STYLE_WIDTH => Blend(table, parts, j))
  }

  /** What `mix_styles` returns for a style name. */
  function Mix(table: StyleTable, styleName: string): Result<StyleMatrix, StyleError> {
    if '+' !in styleName then
      if styleName in table then Ok([table[styleName][0][0]]) else Err(UnknownStyle(styleName))
    else
      Ok([BlendedRow(table, styleName)])
  }

  // ---------------------------------------------------------------------------
  // Properties
  // ---------------------------------------------------------------------------

  /**
   * A segment `name.digits`, where the name has no `.` and the digits read as weight `n`,
   * adds that name with portion `n * 0.1` (`Decimal(n)` is such a digit string, by `ParseDecimal`).
   */
  lemma SegmentWithWeight(name: string, digits: string, n: nat)
    requires '.' !in name && ParseWeight(digits) == Some(n)
    ensures SegmentPortion(name + "." + digits) == [(name, n as real * 0.1)]
  {
    SplitOnceAtFirst(name, '.', digits);
  }

  /** The portions of two lists of segments are the portions of each, in order. */
  lemma {:induction false} PortionsAppend(a: seq<string>, b: seq<string>)
    ensures Portions(a + b) == Portions(a) + Portions(b)
  {
    if b != [] {
      var b' := b[..|b| - 1];
      PortionsAppend(a, b');
      assert (a + b)[..|a + b| - 1] == a + b';
      assert (a + b)[|a + b| - 1] == b[|b| - 1];
    } else {
      assert a + b == a;
    }
  }

  /** The blend of two lists of portions is the sum of their blends. */
  lemma {:induction false} BlendAppend(table: StyleTable, a: seq<(string, real)>, b: seq<(string, real)>, j: nat)
    requires j < STYLE_WIDTH
    ensures Blend(table, a + b, j) == Blend(table, a, j) + Blend(table, b, j)
  {
    if b != [] {
      var b' := b[..|b| - 1];
      BlendAppend(table, a, b', j);
      assert (a + b)[..|a + b| - 1] == a + b';
      assert (a + b)[|a + b| - 1] == b[|b| - 1];
    } else {
      assert a + b == a;
    }
  }

  /** The order of the portions does not matter. */
  lemma BlendCommutes(table: StyleTable, a: seq<(string, real)>, b: seq<(string, real)>, j: nat)
    requires j < STYLE_WIDTH
    ensures Blend(table, a + b, j) == Blend(table, b + a, j)
  {
    BlendAppend(table, a, b, j);
    BlendAppend(table, b, a, j);
  }

  /**
   * A segment without a `.`, with an unreadable weight, or naming an unknown voice changes
   * nothing in the blend and causes no error.
   */
  lemma IgnoredSegment(table: StyleTable, segments: seq<string>, segment: string, j: nat)
    requires j < STYLE_WIDTH
    requires match SplitOnce(segment, '.')
      case None => true
      case Some((name, portion)) => ParseWeight(portion).None? || name !in table
    ensures Blend(table, Portions(segments + [segment]), j) == Blend(table, Portions(segments), j)
  {
    PortionsSnoc(segments, segment);
    BlendAppend(table, Portions(segments), SegmentPortion(segment), j);
  }

  /**
   * A segment that reads as a known voice with portion `w` adds that voice's first style
   * row scaled by `w`; with `SegmentWithWeight`, a segment `name.digits` adds it scaled by
   * `digits * 0.1`.
   */
  lemma KnownSegment(table: StyleTable, segments: seq<string>, segment: string, name: string, w: real, j: nat)
    requires j < STYLE_WIDTH && name in table && SegmentPortion(segment) == [(name, w)]
    ensures Blend(table, Portions(segments + [segment]), j) ==
      Blend(table, Portions(segments), j) + table[name][0][0][j] * w
  {
    var before := Portions(segments);
    PortionsSnoc(segments, segment);
    BlendSnoc(table, before, (name, w), j);
    KnownContribution(table, name, w, j);
  }

  /** A known voice contributes its first style row scaled by the portion. */
  lemma KnownContribution(table: StyleTable, name: string, w: real, j: nat)
    requires j < STYLE_WIDTH && name in table
    ensures Contribution(table, (name, w), j) == table[name][0][0][j] * w
  {
  }

  /** One more portion at the end adds its contribution. */
  lemma BlendSnoc(table: StyleTable, parts: seq<(string, real)>, part: (string, real), j: nat)
    requires j < STYLE_WIDTH
    ensures Blend(table, parts + [part], j) == Blend(table, parts, j) + Contribution(table, part, j)
  {
    var all := parts + [part];
    assert all[..|all| - 1] == parts;
  }

  /** The portions of a list with one more segment at the end. */
  lemma PortionsSnoc(segments: seq<string>, segment: string)
    ensures Portions(segments + [segment]) == Portions(segments) + SegmentPortion(segment)
  {
    assert (segments + [segment])[..|segments|] == segments;
  }

  // ---------------------------------------------------------------------------
  // The resolver
  // ---------------------------------------------------------------------------

  /**
   * `mix_styles`: the lookup of a single name, or the blend of a `+`-separated list built
   * in a 256-wide buffer.
   */
  method MixStyles(table: StyleTable, styleName: string) returns (r: Result<StyleMatrix, StyleError>)
    ensures r == Mix(table, styleName)
    ensures '+' !in styleName && styleName in table ==> r == Ok([table[styleName][0][0]])
    ensures '+' !in styleName && styleName !in table ==> r == Err(UnknownStyle(styleName))
    ensures '+' in styleName ==> r.Ok? && |r.value| == 1 && |r.value[0]| == STYLE_WIDTH
  {
    if '+' !in styleName {
      if styleName in table {
        r := Ok([table[styleName][0][0]]);
      } else {
        r := Err(UnknownStyle(styleName));
      }
      return;
    }
    var styles := Split(styleName, OneOf({'+'}));
    var parts := CollectPortions(styles);
    var row := BlendRows(table, parts);
    assert row == BlendedRow(table, styleName);
    r := Ok([row]);
  }

  /** The blend loop: the weighted sum of the named voices' first rows, built in a buffer. */
  method BlendRows(table: StyleTable, parts: seq<(string, real)>) returns (row: seq<real>)
    ensures |row| == STYLE_WIDTH
    ensures forall j :: 0 <= j < STYLE_WIDTH ==> row[j] == Blend(table, parts, j)
  {
    var blended := new real[STYLE_WIDTH](_ => 0.0);
    for k := 0 to |parts|
      invariant forall j :: 0 <= j < STYLE_WIDTH ==> blended[j] == Blend(table, parts[..k], j)
    {
      assert parts[..k + 1][..k] == parts[..k];
      var (name, portion) := parts[k];
      if name in table {
        AddScaled(blended, table[name][0][0], portion);
      }
    }
    assert parts[..|parts|] == parts;
    row := blended[..];
  }

  /** `blended[j] += style_slice[j] * portion` for every position `j`. */
  method AddScaled(blended: array<real>, slice: Row, portion: real)
    requires blended.Length == STYLE_WIDTH
    modifies blended
    ensures forall j :: 0 <= j < STYLE_WIDTH ==> blended[j] == old(blended[j]) + slice[j] * portion
  {
    for j := 0 to STYLE_WIDTH
      invariant forall i :: 0 <= i < j ==> blended[i] == old(blended[i]) + slice[i] * portion
      invariant forall i :: j <= i < STYLE_WIDTH ==> blended[i] == old(blended[i])
    {
      blended[j] := blended[j] + slice[j] * portion;
    }
  }

  /** The segment loop: the name and portion of every segment with a readable weight. */
  method CollectPortions(styles: seq<string>) returns (parts: seq<(string, real)>)
    ensures parts == Portions(styles)
  {
    parts := [];
    for i := 0 to |styles|
      invariant parts == Portions(styles[..i])
    {
      assert styles[..i + 1][..i] == styles[..i];
      match SplitOnce(styles[i], '.') {
        case Some((name, portion)) =>
          match ParseWeight(portion) {
            case Some(n) =>
              parts := parts + [(name, n as real * 0.1)];
            case None =>
          }
        case None =>
      }
    }
    assert styles[..|styles|] == styles;
  }
}
