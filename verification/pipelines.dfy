/**
 * Pipeline I/O fields (raven_api/common/models/pipelines.py): the stored
 * value with its default fallback, the per-kind validators that guard the
 * value setter, and the colour field's channel decoding.
 */
module PipelineFields {

  import opened Wrappers
  import opened PyValues

  /** One entry of `SelectField.options`: a string, or a `{label, value}` dict whose keys are optional. */
  datatype SelectOption = PlainOption(text: string) | DictOption(labelText: Option<string>, optValue: Option<string>)

  /**
   * The field subclasses and their settings. `PipelineField` itself and
   * `SwitchField` keep the base validator.
   */
  datatype FieldKind =
    | BaseKind
    | StringKind(multiline: bool, maxLength: Option<int>)
    | NumberKind(decimals: bool, negatives: bool, min: Option<real>, max: Option<real>)
    | SwitchKind
    | SelectKind(options: seq<SelectOption>, multiple: bool)
    | ListKind(suggestions: Option<seq<string>>, maxLength: Option<int>)
    | ColorKind(alpha: bool)

  datatype PipelineField = PipelineField(key: string, labelText: string, kind: FieldKind, val: PyValue, defaultValue: PyValue)

  /** The `value` getter: the stored value, or the default while nothing is stored. */
  function Value(f: PipelineField): (r: PyValue)
    ensures !f.val.PyNone? ==> r == f.val
    ensures f.val.PyNone? ==> r == f.defaultValue
  {
    if f.val.PyNone? then f.defaultValue else f.val
  }

  /** `StringField.validate`; `len(None)` raises once a maximum length is set. */
  function ValidateString(maxLength: Option<int>, v: PyValue): (r: Result<bool, PyError>)
    ensures v.PyStr? ==> r == Ok(maxLength.None? || |v.s| <= maxLength.value)
    ensures v.PyNone? ==> r == (if maxLength.None? then Ok(true) else Err(TypeError))
    ensures !v.PyStr? && !v.PyNone? ==> r == Ok(false)
  {
    if !(v.PyStr? || v.PyNone?) then Ok(false)
    else if maxLength.None? then Ok(true)
    else if v.PyNone? then Err(TypeError)
    else Ok(|v.s| <= maxLength.value)
  }

  /** Whether `int(value) != value` fails, i.e. the number has no fractional part. */
  predicate Integral(v: PyValue)
    requires v.PyInt? || v.PyFloat?
  {
    v.PyInt? || v.f == v.f.Floor as real
  }

  /** `NumberField.validate`, written with the source's early returns. */
  function ValidateNumber(decimals: bool, negatives: bool, min: Option<real>, max: Option<real>, v: PyValue): bool
  {
    if !(v.PyInt? || v.PyFloat?) then false
    else if !Integral(v) && !decimals then false
    else if NumberOf(v) < 0.0 && !negatives then false
    else if max.Some? && NumberOf(v) > max.value then false
    else if min.Some? && NumberOf(v) < min.value then false
    else true
  }

  /** `i["value"] if isinstance(i, dict) else i` over the options; a dict without `"value"` raises. */
  function OptionValues(options: seq<SelectOption>): (r: Result<seq<string>, PyError>)
    ensures r.Ok? <==> forall i | 0 <= i < |options| :: !(options[i].DictOption? && options[i].optValue.None?)
    ensures r.Ok? ==> |r.value| == |options|
    ensures r.Ok? ==> forall i | 0 <= i < |options| ::
      r.value[i] == (if options[i].PlainOption? then options[i].text else options[i].optValue.value)
    ensures r.Err? ==> r.error == KeyError("value")
  {
    if |options| == 0 then Ok([])
    else
      var o := options[0];
      if o.DictOption? && o.optValue.None? then Err(KeyError("value"))
      else
        var head := if o.PlainOption? then o.text else o.optValue.value;
        match OptionValues(options[1..])
        case Err(e) => Err(e)
        case Ok(rest) => Ok([head] + rest)
  }

  function AsPyStrs(xs: seq<string>): (r: seq<PyValue>)
    ensures |r| == |xs| && forall i | 0 <= i < |xs| :: r[i] == PyStr(xs[i])
  {
    seq(|xs|, i requires 0 <= i < |xs| => PyStr(xs[i]))
  }

  /** `SelectField.validate`. */
  function ValidateSelect(options: seq<SelectOption>, multiple: bool, v: PyValue): Result<bool, PyError>
  {
    if v.PyList? && !multiple then Ok(false)
    else match OptionValues(options)
      case Err(e) => Err(e)
      case Ok(opts) =>
        if v.PyList? then Ok(AllPyIn(v.items, AsPyStrs(opts)))
        else Ok(PyIn(v, AsPyStrs(opts)))
  }

  /** `ListField.validate`. */
  function ValidateList(maxLength: Option<int>, v: PyValue): bool
  {
    if v.PyNone? then true
    else if v.PyList? then maxLength.None? || |v.items| <= maxLength.value
    else false
  }

  const HexDigits: string := "0123456789abcdef"

  /**
   * The colour pattern `^#[a-f0-9]{6}$` (or `{8}` with alpha) matched
   * against the whole value, as `ColorField.validate` evidently intends.
   */
  predicate ColorText(alpha: bool, s: string)
  {
    |s| == (if alpha then 9 else 7) && s[0] == '#' && forall i | 1 <= i < |s| :: IsLowerHex(s[i])
  }

  /** The class `[a-f0-9]`. */
  predicate IsLowerHex(c: char)
  {
    '0' <= c <= '9' || 'a' <= c <= 'f'
  }

  /** The intended `ColorField.validate`: None, or a string in the colour pattern. */
  function ValidateColor(alpha: bool, v: PyValue): (r: Result<bool, PyError>)
    ensures r.Ok?
    ensures r.value <==> v.PyNone? || (v.PyStr? && ColorText(alpha, v.s))
  {
    if v.PyNone? then Ok(true)
    else Ok(v.PyStr? && ColorText(alpha, v.s))
  }

  /**
   * `ColorField.validate` as written: `re.fullmatch` is called with the
   * pattern only, so every value other than None raises a TypeError.
   */
  function ValidateColorAsWritten(alpha: bool, v: PyValue): (r: Result<bool, PyError>)
    ensures r.Ok? <==> v.PyNone?
    ensures r.Err? ==> r.error == TypeError
  {
    if v.PyNone? then Ok(true)
    else Err(TypeError)
  }

  /** The written validator rejects, by raising, a colour the pattern accepts. */
  lemma ColorAsWrittenRaisesOnValidColor()
    ensures ValidateColor(false, PyStr("#00ff00")) == Ok(true)
    ensures ValidateColorAsWritten(false, PyStr("#00ff00")) == Err(TypeError)
  {
    assert ColorText(false, "#00ff00");
  }

  /** `self.validate(value)` dispatched on the field's class (colour uses the intended pattern check). */
  function Validate(kind: FieldKind, v: PyValue): Result<bool, PyError>
  {
    match kind
    case BaseKind => Ok(true)
    case SwitchKind => Ok(true)
    case StringKind(_, maxLength) => ValidateString(maxLength, v)
    case NumberKind(decimals, negatives, min, max) => Ok(ValidateNumber(decimals, negatives, min, max, v))
    case SelectKind(options, multiple) => ValidateSelect(options, multiple, v)
    case ListKind(_, maxLength) => Ok(ValidateList(maxLength, v))
    case ColorKind(alpha) => ValidateColor(alpha, v)
  }

  /** The `value` setter: store the value if it validates, None if not; an exception propagates. */
  function SetValue(f: PipelineField, v: PyValue): (r: Result<PipelineField, PyError>)
    ensures r.Err? <==> Validate(f.kind, v).Err?
    ensures r.Ok? ==> r.value.(val := f.val) == f
  {
    match Validate(f.kind, v)
    case Err(e) => Err(e)
    case Ok(valid) => Ok(f.(val := if valid then v else PyNone))
  }

  /** Reading back after the setter: the new value if it validated, otherwise the default. */
  lemma ReadAfterSet(f: PipelineField, v: PyValue)
    requires Validate(f.kind, v).Ok?
    ensures SetValue(f, v).Ok?
    ensures Value(SetValue(f, v).value) ==
      if Validate(f.kind, v).value && !v.PyNone? then v else f.defaultValue
  {
  }

  /** `self.validate(value)` as written: a colour field calls the written `ColorField.validate`. */
  function ValidateAsWritten(kind: FieldKind, v: PyValue): Result<bool, PyError>
  {
    match kind
    case ColorKind(alpha) => ValidateColorAsWritten(alpha, v)
    case _ => Validate(kind, v)
  }

  /** The `value` setter as written, with the written colour check. */
  function SetValueAsWritten(f: PipelineField, v: PyValue): (r: Result<PipelineField, PyError>)
    ensures r.Err? <==> ValidateAsWritten(f.kind, v).Err?
    ensures r.Ok? ==> r.value.(val := f.val) == f
  {
    match ValidateAsWritten(f.kind, v)
    case Err(e) => Err(e)
    case Ok(valid) => Ok(f.(val := if valid then v else PyNone))
  }

  /**
   * The written setter agrees with the intended one on every field except
   * colour fields, where it raises TypeError for anything but None.
   */
  lemma SetterAsWrittenDiffersOnColours(f: PipelineField, v: PyValue)
    ensures SetValueAsWritten(f, v) ==
      if f.kind.ColorKind? && !v.PyNone? then Err(TypeError) else SetValue(f, v)
  {
  }

  /** A colour field set to `#00ff00` raises as written, and stores the colour as intended. */
  lemma SetColorAsWrittenRaises(f: PipelineField)
    requires f.kind == ColorKind(false)
    ensures SetValueAsWritten(f, PyStr("#00ff00")) == Err(TypeError)
    ensures SetValue(f, PyStr("#00ff00")) == Ok(f.(val := PyStr("#00ff00")))
  {
    ColorAsWrittenRaisesOnValidColor();
  }

  /** Setting None always clears the stored value when it validates, so the default shows. */
  lemma SetNoneShowsDefault(f: PipelineField)
    requires Validate(f.kind, PyNone).Ok?
    ensures Value(SetValue(f, PyNone).value) == f.defaultValue
  {
  }

  /** The number validator accepts exactly the int/float values within the field's settings. */
  lemma NumberValidIff(decimals: bool, negatives: bool, min: Option<real>, max: Option<real>, v: PyValue)
    ensures ValidateNumber(decimals, negatives, min, max, v) <==>
      && TypeOf(v) in {TInt, TFloat}
      && (decimals || Integral(v))
      && (negatives || NumberOf(v) >= 0.0)
      && (max.None? || NumberOf(v) <= max.value)
      && (min.None? || min.value <= NumberOf(v))
  {
  }

  /** `bool` is a subclass of `int`, but `type(value) in [int, float]` rejects it, and None too. */
  lemma NumberRejectsBoolAndNone(decimals: bool, negatives: bool, min: Option<real>, max: Option<real>, b: bool)
    ensures !ValidateNumber(decimals, negatives, min, max, PyBool(b))
    ensures !ValidateNumber(decimals, negatives, min, max, PyNone)
    ensures ValidateNumber(true, true, None, None, PyInt(if b then 1 else 0))
  {
  }

  /** With decimals off, 2.5 is rejected while 2.0 (a float) is accepted. */
  lemma NumberDecimals()
    ensures !ValidateNumber(false, true, None, None, PyFloat(2.5))
    ensures ValidateNumber(false, true, None, None, PyFloat(2.0))
  {
  }

  /** The select validator once the option values are known: only text (a `str` or a `StrEnum`
      member) naming one of the option values passes, element by element for a list. */
  lemma SelectValidIff(options: seq<SelectOption>, multiple: bool, v: PyValue)
    requires OptionValues(options).Ok?
    ensures ValidateSelect(options, multiple, v).Ok?
    ensures var opts := OptionValues(options).value;
      ValidateSelect(options, multiple, v).value <==>
        if v.PyList? then multiple && forall i | 0 <= i < |v.items| :: IsText(v.items[i]) && TextOf(v.items[i]) in opts
        else IsText(v) && TextOf(v) in opts
  {
    if v.PyList? {
      if multiple {
        AllInOptionValues(v.items, OptionValues(options).value);
      }
    } else {
      InOptionValues(v, OptionValues(options).value);
    }
  }

  /** Every item is among the options as Python strings iff each is text naming an option value. */
  lemma AllInOptionValues(items: seq<PyValue>, opts: seq<string>)
    ensures AllPyIn(items, AsPyStrs(opts)) <==>
      forall i | 0 <= i < |items| :: IsText(items[i]) && TextOf(items[i]) in opts
  {
    if AllPyIn(items, AsPyStrs(opts)) {
      forall i | 0 <= i < |items|
        ensures IsText(items[i]) && TextOf(items[i]) in opts
      {
        InOptionValues(items[i], opts);
      }
    }
    if forall i | 0 <= i < |items| :: IsText(items[i]) && TextOf(items[i]) in opts {
      forall i | 0 <= i < |items|
        ensures PyIn(items[i], AsPyStrs(opts))
      {
        InOptionValues(items[i], opts);
      }
    }
  }

  /** A value is among the options as Python strings iff it is text naming an option value. */
  lemma InOptionValues(x: PyValue, opts: seq<string>)
    ensures PyIn(x, AsPyStrs(opts)) <==> IsText(x) && TextOf(x) in opts
  {
    var ps := AsPyStrs(opts);
    if PyIn(x, ps) {
      var j :| 0 <= j < |ps| && PyEq(x, ps[j]);
      assert ps[j] == PyStr(opts[j]);
    }
    if IsText(x) && TextOf(x) in opts {
      var j :| 0 <= j < |opts| && opts[j] == TextOf(x);
      assert PyEq(x, ps[j]);
    }
  }

  /** A value equal to a dict option's `value` validates; its label does not. */
  lemma SelectMatchesDictValue(lbl: string, val: string)
    requires lbl != val
    ensures ValidateSelect([DictOption(Some(lbl), Some(val))], false, PyStr(val)) == Ok(true)
    ensures ValidateSelect([DictOption(Some(lbl), Some(val))], false, PyStr(lbl)) == Ok(false)
  {
    assert AsPyStrs([val])[0] == PyStr(val);
  }

  /** A list needs `multiple`, checked before the options, so a bad option list cannot raise then. */
  lemma SelectListNeedsMultiple(options: seq<SelectOption>, xs: seq<PyValue>)
    ensures ValidateSelect(options, false, PyList(xs)) == Ok(false)
  {
  }

  /** The list validator: None, or a list within the maximum length. */
  lemma ListValidIff(maxLength: Option<int>, v: PyValue)
    ensures ValidateList(maxLength, v) <==>
      v.PyNone? || (v.PyList? && (maxLength.None? || |v.items| <= maxLength.value))
  {
  }

  // ---- Colour channels (`ColorField.rgb`) ----

  predicate IsPyWhitespace(c: char)
  {
    c == ' ' || '\t' <= c <= '\r' || '\U{1c}' <= c <= '\U{1f}'
  }

  predicate IsHexDigit(c: char)
  {
    '0' <= c <= '9' || 'a' <= c <= 'f' || 'A' <= c <= 'F'
  }

  function HexValue(c: char): (n: nat)
    requires IsHexDigit(c)
    ensures n < 16
  {
    if '0' <= c <= '9' then c as int - '0' as int
    else if 'a' <= c <= 'f' then c as int - 'a' as int + 10
    else c as int - 'A' as int + 10
  }

  /**
   * `int(p, 16)` for a two-character `p`: two digits; one digit with
   * surrounding whitespace; or a sign and one digit. Everything else
   * (including the bare prefix `0x`) raises a ValueError.
   */
  function ParseHex2(p: string): (r: Result<int, PyError>)
    requires |p| == 2
    ensures r.Ok? ==> -15 <= r.value <= 255
    ensures IsHexDigit(p[0]) && IsHexDigit(p[1]) ==> r == Ok(16 * HexValue(p[0]) + HexValue(p[1]))
    ensures !IsHexDigit(p[0]) && !IsHexDigit(p[1]) ==> r == Err(ValueError)
  {
    if IsHexDigit(p[0]) && IsHexDigit(p[1]) then Ok(16 * HexValue(p[0]) + HexValue(p[1]))
    else if IsHexDigit(p[0]) && IsPyWhitespace(p[1]) then Ok(HexValue(p[0]))
    else if IsPyWhitespace(p[0]) && IsHexDigit(p[1]) then Ok(HexValue(p[1]))
    else if p[0] == '+' && IsHexDigit(p[1]) then Ok(HexValue(p[1]))
    else if p[0] == '-' && IsHexDigit(p[1]) then Ok(0 - HexValue(p[1]) as int)
    else Err(ValueError)
  }

  /** Python's `s[a:b]` for `0 <= a <= b`: indices past the end are clamped. */
  function Slice(s: string, a: nat, b: nat): (r: string)
    requires a <= b
    ensures |r| <= b - a
    ensures b <= |s| ==> r == s[a..b]
  {
    if |s| <= a then "" else if |s| <= b then s[a..] else s[a..b]
  }

  /** One channel: a two-character slice is parsed, anything shorter counts as 0. */
  function Channel(p: string): Result<int, PyError>
  {
    if |p| == 2 then ParseHex2(p) else Ok(0)
  }

  /**
   * `ColorField.rgb`: the channels of `value` (None gives zeros). With
   * alpha the fourth channel is returned as its parsed byte.
   */
  function Rgb(f: PipelineField): (r: Result<seq<int>, PyError>)
    requires f.kind.ColorKind?
    requires Value(f).PyNone? || Value(f).PyStr?
    ensures r.Ok? ==> |r.value| == (if f.kind.alpha then 4 else 3)
    ensures Value(f).PyNone? ==> r.Ok? && forall i | 0 <= i < |r.value| :: r.value[i] == 0
  {
    var n: nat := if f.kind.alpha then 4 else 3;
    var v := Value(f);
    if v.PyNone? then Ok(seq(n, _ => 0))
    else Channels(v.s, n)
  }

  /** Channels `0..n` of `s`, each from the slice `s[2k+1 : 2k+3]`; the first error wins. */
  function Channels(s: string, n: nat): (r: Result<seq<int>, PyError>)
    ensures r.Ok? ==> |r.value| == n
    ensures r.Ok? ==> forall k | 0 <= k < n :: Channel(Slice(s, 2 * k + 1, 2 * k + 3)) == Ok(r.value[k])
    decreases n
  {
    if n == 0 then Ok([])
    else match Channels(s, n - 1)
      case Err(e) => Err(e)
      case Ok(front) =>
        match Channel(Slice(s, 2 * (n - 1) + 1, 2 * (n - 1) + 3))
        case Err(e) => Err(e)
        case Ok(c) => Ok(front + [c])
  }

  /** Lower-case two-digit hex of a byte: the inverse of parsing one channel. */
  function Hex2(n: nat): (r: string)
    requires n < 256
    ensures |r| == 2 && IsLowerHex(r[0]) && IsLowerHex(r[1])
  {
    [HexDigits[n / 16], HexDigits[n % 16]]
  }

  lemma HexValueOfDigit(i: nat)
    requires i < 16
    ensures IsHexDigit(HexDigits[i]) && HexValue(HexDigits[i]) == i
  {
  }

  lemma DigitIsHexDigits(c: char)
    requires IsLowerHex(c)
    ensures IsHexDigit(c) && HexDigits[HexValue(c)] == c
  {
  }

  lemma DivMod16(a: nat, b: nat)
    requires a < 16 && b < 16
    ensures (16 * a + b) / 16 == a && (16 * a + b) % 16 == b
  {
  }

  /** A pattern-valid pair of digits parses to a byte whose hex is the pair itself. */
  lemma ChannelRoundTrip(p: string)
    requires |p| == 2 && IsLowerHex(p[0]) && IsLowerHex(p[1])
    ensures ParseHex2(p).Ok? && 0 <= ParseHex2(p).value < 256
    ensures Hex2(ParseHex2(p).value) == p
  {
    DigitIsHexDigits(p[0]);
    DigitIsHexDigits(p[1]);
    var a, b := HexValue(p[0]), HexValue(p[1]);
    assert ParseHex2(p) == Ok(16 * a + b);
    DivMod16(a, b);
    assert Hex2(16 * a + b) == [HexDigits[a], HexDigits[b]] == [p[0], p[1]];
    assert p == [p[0], p[1]];
  }

  /** The two characters of channel `k`: `s[2k+1 : 2k+3]`. */
  function PairAt(s: string, k: nat): (r: string)
    requires 2 * k + 3 <= |s|
    ensures |r| == 2 && r[0] == s[2 * k + 1] && r[1] == s[2 * k + 2]
  {
    s[2 * k + 1..2 * k + 3]
  }

  /** When the first `n` two-character slices are pattern-valid digit pairs, the channels parse. */
  lemma {:induction false} ChannelsOfHex(s: string, n: nat)
    requires 2 * n + 1 <= |s|
    requires forall i | 1 <= i < 2 * n + 1 :: IsLowerHex(s[i])
    ensures Channels(s, n).Ok?
  {
    if n > 0 {
      ChannelsOfHex(s, n - 1);
      var p := PairAt(s, n - 1);
      ChannelRoundTrip(p);
      ChannelsSnoc(s, n, Channels(s, n - 1).value, p);
    }
  }

  /** Channel `n - 1` is parsed from its pair and appended behind the earlier ones. */
  lemma ChannelsSnoc(s: string, n: nat, front: seq<int>, p: string)
    requires n > 0 && 2 * n + 1 <= |s| && p == PairAt(s, n - 1)
    requires Channels(s, n - 1) == Ok(front) && ParseHex2(p).Ok?
    ensures Channels(s, n) == Ok(front + [ParseHex2(p).value])
  {
    assert Slice(s, 2 * (n - 1) + 1, 2 * (n - 1) + 3) == p;
  }

  /** A parsed channel whose pair is pattern-valid is a byte that prints back as the pair. */
  lemma ChannelPrintsBack(s: string, n: nat, k: nat)
    requires Channels(s, n).Ok? && k < n && 2 * n + 1 <= |s|
    requires forall i | 1 <= i < 2 * n + 1 :: IsLowerHex(s[i])
    ensures 0 <= Channels(s, n).value[k] < 256 && Hex2(Channels(s, n).value[k]) == PairAt(s, k)
  {
    var p := PairAt(s, k);
    assert IsLowerHex(s[2 * k + 1]) && IsLowerHex(s[2 * k + 2]);
    ChannelRoundTrip(p);
    assert Slice(s, 2 * k + 1, 2 * k + 3) == p;
  }

  /** A `#rrggbb` text parses to three bytes that print back as the text. */
  lemma ColorChannels(s: string)
    requires ColorText(false, s)
    ensures Channels(s, 3).Ok?
    ensures var c := Channels(s, 3).value;
      && (forall i | 0 <= i < 3 :: 0 <= c[i] <= 255)
      && "#" + Hex2(c[0]) + Hex2(c[1]) + Hex2(c[2]) == s
  {
    ChannelsOfHex(s, 3);
    ChannelPrintsBack(s, 3, 0);
    ChannelPrintsBack(s, 3, 1);
    ChannelPrintsBack(s, 3, 2);
    SevenSlices(s);
  }

  lemma SevenSlices(s: string)
    requires |s| == 7 && s[0] == '#'
    ensures s == "#" + PairAt(s, 0) + PairAt(s, 1) + PairAt(s, 2)
  {
  }

  /**
   * For a colour accepted by the intended validator (no alpha), `rgb` is
   * three bytes in 0..255, and writing them back as `#rrggbb` gives the
   * stored value.
   */
  lemma RgbOfValidColor(f: PipelineField)
    requires f.kind == ColorKind(false)
    requires Value(f).PyStr? && ValidateColor(false, Value(f)) == Ok(true)
    ensures Rgb(f).Ok?
    ensures forall i | 0 <= i < 3 :: 0 <= Rgb(f).value[i] <= 255
    ensures var c := Rgb(f).value; "#" + Hex2(c[0]) + Hex2(c[1]) + Hex2(c[2]) == Value(f).s
  {
    ColorChannels(Value(f).s);
  }

  /** Channel parsing keeps Python's `int(p, 16)` quirks: `"+f"` gives 15 and `"-f"` gives -15. */
  lemma ChannelQuirks()
    ensures Channel("+f") == Ok(15) && Channel("-f") == Ok(-15)
    ensures Channel("0x") == Err(ValueError) && Channel(" f") == Ok(15)
    ensures Channel("f") == Ok(0)
  {
  }
}
