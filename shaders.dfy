/**
 * The shader sources of the two reduction stages.
 *
 * Each shader is handed to the driver as a list of strings: two generated
 * `#define` lines (the factor and the axis), the shared varying
 * declarations, for the vertex shader the generated `kDimension` constant,
 * and the vertex or fragment program body. The constant program texts are
 * kept symbolic; what the model keeps of them is the way their
 * `#if FACTOR > 2 / 4 / 8` nesting unrolls the sampling loop.
 */
module Shaders {
  import Factor

  datatype Option<T> = None | Some(value: T)

  datatype Orientation = Horizontal | Vertical

  /** One string of the list passed to glShaderSource. */
  datatype SourcePart =
    | Generated(text: string)   // text built at run time
    | CommonShaderSource        // kCommonShaderSource: the varying declarations
    | VertexShaderSource        // kVertexShaderSource: the texel coordinates
    | FragmentShaderSource      // kFragmentShaderSource: the box filter

  // ---------------------------------------------------------------------
  // Decimal text, as std::ostringstream writes an unsigned number

  predicate IsDigit(c: char) {
    '0' <= c <= '9'
  }

  predicate AllDigits(s: string) {
    forall i :: 0 <= i < |s| ==> IsDigit(s[i])
  }

  function DigitChar(d: nat): (c: char)
    requires d < 10
    ensures IsDigit(c) && c as int - '0' as int == d
  {
    ('0' as int + d) as char
  }

  /** The shortest decimal spelling of `n`. */
  function Decimal(n: nat): (s: string)
    ensures |s| >= 1 && AllDigits(s)
    ensures |s| > 1 ==> s[0] != '0'
    decreases n
  {
    if n < 10 then [DigitChar(n)] else Decimal(n / 10) + [DigitChar(n % 10)]
  }

  /** The number a string of digits denotes. */
  function ParseDecimal(s: string): nat
    requires AllDigits(s)
  {
    if s == [] then 0
    else ParseDecimal(s[..|s| - 1]) * 10 + (s[|s| - 1] as int - '0' as int)
  }

  lemma {:induction false} DecimalRoundTrip(n: nat)
    ensures ParseDecimal(Decimal(n)) == n
    decreases n
  {
    var s := Decimal(n);
    if n >= 10 {
      assert s[..|s| - 1] == Decimal(n / 10);
      DecimalRoundTrip(n / 10);
    }
  }

  // ---------------------------------------------------------------------
  // The generated lines

  const FactorPrefix: string := "#define FACTOR "
  const HorizontalDefine: string := "#define HORIZONTAL\n"
  const VerticalDefine: string := "#define VERTICAL\n"

  /** "#define FACTOR <factor>\n" (TextureResize.cpp, setupFramebuffers). */
  function FactorDefine(factor: nat): string {
    FactorPrefix + Decimal(factor) + "\n"
  }

  /** The define that selects a stage's axis. */
  function OrientationDefine(o: Orientation): string {
    match o
    case Horizontal => HorizontalDefine
    case Vertical => VerticalDefine
  }

  /** "const vec2 kDimension = vec2(<width>, <height>);\n" (attachShaders). */
  function DimensionConst(width: nat, height: nat): string {
    "const vec2 kDimension = vec2(" + Decimal(width) + ", " + Decimal(height) + ");\n"
  }

  /** The strings of the vertex shader, in the order attachShaders passes them. */
  function VertexShaderParts(factorDefine: string, dimensionDefine: string, width: nat, height: nat): seq<SourcePart> {
    [Generated(factorDefine), Generated(dimensionDefine), CommonShaderSource,
     Generated(DimensionConst(width, height)), VertexShaderSource]
  }

  /** The strings of the fragment shader, in the order attachShaders passes them. */
  function FragmentShaderParts(factorDefine: string, dimensionDefine: string): seq<SourcePart> {
    [Generated(factorDefine), Generated(dimensionDefine), CommonShaderSource, FragmentShaderSource]
  }

  // ---------------------------------------------------------------------
  // What the preprocessor reads from the generated lines

  /** The value of a "#define FACTOR <digits>\n" line, if `line` is one. */
  function ParseFactorDefine(line: string): Option<nat> {
    var p := |FactorPrefix|;
    if |line| >= p + 2 && line[..p] == FactorPrefix && line[|line| - 1] == '\n'
       && AllDigits(line[p..|line| - 1])
    then Some(ParseDecimal(line[p..|line| - 1]))
    else None
  }

  lemma FactorDefineRoundTrip(factor: nat)
    ensures ParseFactorDefine(FactorDefine(factor)) == Some(factor)
  {
    var d := Decimal(factor);
    var line := FactorDefine(factor);
    var p := |FactorPrefix|;
    assert line[..p] == FactorPrefix;
    assert line[p..|line| - 1] == d;
    DecimalRoundTrip(factor);
  }

  /** The FACTOR the first factor define among `parts` sets, if any. */
  function DefinedFactor(parts: seq<SourcePart>): Option<nat> {
    if parts == [] then None
    else if parts[0].Generated? && ParseFactorDefine(parts[0].text).Some? then ParseFactorDefine(parts[0].text)
    else DefinedFactor(parts[1..])
  }

  predicate Defines(parts: seq<SourcePart>, line: string) {
    Generated(line) in parts
  }

  // ---------------------------------------------------------------------
  // The unrolled sampling

  /**
   * A piece of program text whose output lines depend on FACTOR: plain
   * lines, and lines guarded by `#if FACTOR > bound ... #endif`.
   */
  datatype Unroll<T> =
    | Done
    | Emit(items: seq<T>, rest: Unroll<T>)
    | IfFactorAbove(bound: nat, body: Unroll<T>)

  /** The lines that survive preprocessing with FACTOR defined as `factor`. */
  function Expand<T>(u: Unroll<T>, factor: nat): seq<T> {
    match u
    case Done => []
    case Emit(items, rest) => items + Expand(rest, factor)
    case IfFactorAbove(bound, body) => if factor > bound then Expand(body, factor) else []
  }

  /** The nesting the three programs share: 2 lines, then 2, 4 and 8 more behind FACTOR > 2, > 4, > 8. */
  function Ladder<T>(first: seq<T>, above2: seq<T>, above4: seq<T>, above8: seq<T>): Unroll<T> {
    Emit(first, IfFactorAbove(2, Emit(above2, IfFactorAbove(4, Emit(above4, IfFactorAbove(8, Emit(above8, Done)))))))
  }

  /** The indices lo, lo + 1, ..., hi - 1. */
  function Span(lo: nat, hi: nat): (s: seq<nat>)
    requires lo <= hi
    ensures |s| == hi - lo && forall k :: 0 <= k < |s| ==> s[k] == lo + k
  {
    seq(hi - lo, k => lo + k)
  }

  /** kCommonShaderSource: the varyings vUV00 .. vUV15 that are declared. */
  const DeclaredVaryings: Unroll<nat> := Ladder(Span(0, 2), Span(2, 4), Span(4, 8), Span(8, 16))

  /** kFragmentShaderSource: the varyings whose texels are read and summed. */
  const ReadVaryings: Unroll<nat> := Ladder(Span(0, 2), Span(2, 4), Span(4, 8), Span(8, 16))

  /** `vUV<varying> = uv + vec2(dx / kDimension.x, dy / kDimension.y)`. */
  datatype Offset = Offset(varying: nat, dx: nat, dy: nat)

  /** The assignments to vUV<lo> .. vUV<hi-1>, each `i` texels along the axis. */
  function Along(horizontal: bool, lo: nat, hi: nat): (s: seq<Offset>)
    requires lo <= hi
    ensures |s| == hi - lo
  {
    seq(hi - lo, (k: nat) => if horizontal then Offset(lo + k, lo + k, 0) else Offset(lo + k, 0, lo + k))
  }

  /** kVertexShaderSource: vUV00 = uv, then the #ifdef HORIZONTAL / #else branches. */
  function AssignedVaryings(horizontal: bool): Unroll<Offset> {
    Emit([Offset(0, 0, 0)], Ladder(Along(horizontal, 1, 2), Along(horizontal, 2, 4),
                                   Along(horizontal, 4, 8), Along(horizontal, 8, 16)))
  }

  /** What the preprocessor keeps of the ladder for a FACTOR of `factor`. */
  lemma LadderExpand<T>(first: seq<T>, above2: seq<T>, above4: seq<T>, above8: seq<T>, factor: nat)
    ensures Expand(Ladder(first, above2, above4, above8), factor)
         == first + if factor > 2 then above2 + if factor > 4 then above4 + if factor > 8 then above8 else []
                                                                  else []
                    else []
  {
    var l8 := Emit(above8, Done);
    var l4 := Emit(above4, IfFactorAbove(8, l8));
    var l2 := Emit(above2, IfFactorAbove(4, l4));
    assert Expand(l8, factor) == above8 + Expand(Done, factor);
    assert Expand(l4, factor) == above4 + Expand(IfFactorAbove(8, l8), factor);
    assert Expand(l2, factor) == above2 + Expand(IfFactorAbove(4, l4), factor);
    assert Expand(Ladder(first, above2, above4, above8), factor) == first + Expand(IfFactorAbove(2, l2), factor);
  }

  /** The number of samples the nesting yields for a FACTOR of `factor`. */
  function SampleCount(factor: nat): nat {
    2 + (if factor > 2 then 2 else 0) + (if factor > 4 then 4 else 0) + (if factor > 8 then 8 else 0)
  }

  lemma UnrolledCount(factor: nat)
    ensures |Expand(DeclaredVaryings, factor)| == SampleCount(factor)
    ensures |Expand(ReadVaryings, factor)| == SampleCount(factor)
    ensures |Expand(AssignedVaryings(true), factor)| == SampleCount(factor)
    ensures |Expand(AssignedVaryings(false), factor)| == SampleCount(factor)
  {
    LadderExpand(Span(0, 2), Span(2, 4), Span(4, 8), Span(8, 16), factor);
    LadderExpand(Along(true, 1, 2), Along(true, 2, 4), Along(true, 4, 8), Along(true, 8, 16), factor);
    LadderExpand(Along(false, 1, 2), Along(false, 2, 4), Along(false, 4, 8), Along(false, 8, 16), factor);
  }

  /**
   * The unrolled loop has exactly FACTOR samples, matching the division by
   * FACTOR, precisely for the factors the selection produces.
   */
  lemma SampleCountMatchesDivisor(factor: nat)
    ensures SampleCount(factor) == factor <==> Factor.IsFactor(factor) && factor >= 2
  {
  }

  lemma SpanAppend(lo: nat, mid: nat, hi: nat)
    requires lo <= mid <= hi
    ensures Span(lo, mid) + Span(mid, hi) == Span(lo, hi)
  {
  }

  lemma AlongAppend(horizontal: bool, lo: nat, mid: nat, hi: nat)
    requires lo <= mid <= hi
    ensures Along(horizontal, lo, mid) + Along(horizontal, mid, hi) == Along(horizontal, lo, hi)
  {
    var a, b, c := Along(horizontal, lo, mid), Along(horizontal, mid, hi), Along(horizontal, lo, hi);
    assert forall k :: 0 <= k < |c| ==> (a + b)[k] == c[k] by {
      forall k | 0 <= k < |c| ensures (a + b)[k] == c[k] {
        if k < |a| { assert (a + b)[k] == a[k]; } else { assert (a + b)[k] == b[k - |a|]; }
      }
    }
  }

  /**
   * For each factor the selection produces, the unrolled shaders declare,
   * assign and read exactly the varyings 0 .. factor - 1, and varying i sits
   * i texels from the first along the stage's axis.
   */
  lemma {:induction false} UnrolledSamples(factor: nat, horizontal: bool)
    requires Factor.IsFactor(factor) && factor >= 2
    ensures Expand(DeclaredVaryings, factor) == Span(0, factor)
    ensures Expand(ReadVaryings, factor) == Span(0, factor)
    ensures Expand(AssignedVaryings(horizontal), factor) == Along(horizontal, 0, factor)
  {
    SpanAppend(0, 2, 4);
    SpanAppend(0, 4, 8);
    SpanAppend(0, 8, 16);
    assert [Offset(0, 0, 0)] == Along(horizontal, 0, 1);
    AlongAppend(horizontal, 0, 1, 2);
    AlongAppend(horizontal, 0, 2, 4);
    AlongAppend(horizontal, 0, 4, 8);
    AlongAppend(horizontal, 0, 8, 16);
    LadderExpand(Span(0, 2), Span(2, 4), Span(4, 8), Span(8, 16), factor);
    LadderExpand(Along(horizontal, 1, 2), Along(horizontal, 2, 4), Along(horizontal, 4, 8),
                 Along(horizontal, 8, 16), factor);
    var ladder := Ladder(Along(horizontal, 1, 2), Along(horizontal, 2, 4), Along(horizontal, 4, 8),
                         Along(horizontal, 8, 16));
    assert Expand(AssignedVaryings(horizontal), factor) == [Offset(0, 0, 0)] + Expand(ladder, factor);
  }

  // ---------------------------------------------------------------------
  // What a shader built from a list of strings samples

  /** The varyings the shader declares. */
  function Declared(parts: seq<SourcePart>): seq<nat> {
    match DefinedFactor(parts)
    case Some(f) => if CommonShaderSource in parts then Expand(DeclaredVaryings, f) else []
    case None => []
  }

  /** The texel offsets the vertex shader computes; the axis is x exactly when HORIZONTAL is defined. */
  function Assigned(parts: seq<SourcePart>): seq<Offset> {
    match DefinedFactor(parts)
    case Some(f) =>
      if VertexShaderSource in parts then Expand(AssignedVaryings(Defines(parts, HorizontalDefine)), f) else []
    case None => []
  }

  /** The varyings the fragment shader reads and sums. */
  function Read(parts: seq<SourcePart>): seq<nat> {
    match DefinedFactor(parts)
    case Some(f) => if FragmentShaderSource in parts then Expand(ReadVaryings, f) else []
    case None => []
  }

  /** The divisor of `sum /= float(FACTOR)`. */
  function Divisor(parts: seq<SourcePart>): Option<nat> {
    if FragmentShaderSource in parts then DefinedFactor(parts) else None
  }

  lemma GeneratedLinesDiffer(factor: nat, width: nat, height: nat)
    ensures FactorDefine(factor) != HorizontalDefine
    ensures DimensionConst(width, height) != HorizontalDefine
    ensures VerticalDefine != HorizontalDefine
  {
    assert FactorDefine(factor)[8] == 'F';
    assert DimensionConst(width, height)[0] == 'c';
    assert VerticalDefine[8] == 'V';
  }

  /**
   * The shaders attachShaders builds for a stage with the factor define of
   * `factor` and the stage's axis define: both see FACTOR == factor and
   * declare varyings 0 .. factor - 1; the vertex shader offsets varying i by
   * i texels along the stage's axis; the fragment shader reads each varying
   * once and divides by factor.
   */
  lemma {:induction false} StageShaders(factor: nat, o: Orientation, width: nat, height: nat)
    requires Factor.IsFactor(factor) && factor >= 2
    ensures DefinedFactor(VertexShaderParts(FactorDefine(factor), OrientationDefine(o), width, height)) == Some(factor)
    ensures DefinedFactor(FragmentShaderParts(FactorDefine(factor), OrientationDefine(o))) == Some(factor)
    ensures Declared(VertexShaderParts(FactorDefine(factor), OrientationDefine(o), width, height)) == Span(0, factor)
    ensures Declared(FragmentShaderParts(FactorDefine(factor), OrientationDefine(o))) == Span(0, factor)
    ensures Assigned(VertexShaderParts(FactorDefine(factor), OrientationDefine(o), width, height))
         == Along(o == Horizontal, 0, factor)
    ensures Read(FragmentShaderParts(FactorDefine(factor), OrientationDefine(o))) == Span(0, factor)
    ensures Divisor(FragmentShaderParts(FactorDefine(factor), OrientationDefine(o))) == Some(factor)
  {
    var v := VertexShaderParts(FactorDefine(factor), OrientationDefine(o), width, height);
    var f := FragmentShaderParts(FactorDefine(factor), OrientationDefine(o));
    FactorDefineRoundTrip(factor);
    GeneratedLinesDiffer(factor, width, height);
    assert v[4] == VertexShaderSource && v[2] == CommonShaderSource;
    assert f[3] == FragmentShaderSource && f[2] == CommonShaderSource;
    assert Defines(v, HorizontalDefine) == (o == Horizontal);
    UnrolledSamples(factor, o == Horizontal);
  }
}
