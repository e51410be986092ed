/**
  Colour arguments of `build_markers_ini.py`: `color_arg` strips the text,
  upgrades `#RRGGBB` to an opaque `0xFFRRGGBB`, accepts eight hex digits with
  or without a lower-case `0x`, and normalises the digits to upper case.
 */
module MarkerColor {
  import opened Wrappers

  /** The characters Python's `str.strip()` removes (`str.isspace()`). */
  predicate IsPySpace(c: char) {
    || c == ' ' || ('\t' <= c <= '\r') || ('\U{1C}' <= c <= '\U{1F}')
    || c == '\U{85}' || c == '\U{A0}' || c == '\U{1680}' || ('\U{2000}' <= c <= '\U{200A}')
    || c == '\U{2028}' || c == '\U{2029}' || c == '\U{202F}' || c == '\U{205F}' || c == '\U{3000}'
  }

  /** The first index at or after `i` that is not whitespace, or `|s|`. */
  function SkipSpaces(s: string, i: nat): (n: nat)
    requires i <= |s|
    ensures i <= n <= |s|
    ensures forall k :: i <= k < n ==> IsPySpace(s[k])
    ensures n < |s| ==> !IsPySpace(s[n])
    decreases |s| - i
  {
    if i < |s| && IsPySpace(s[i]) then SkipSpaces(s, i + 1) else i
  }

  /** The end of `s[lo..j]` once the whitespace before `j` is cut, never below `lo`. */
  function TrimSpaces(s: string, lo: nat, j: nat): (n: nat)
    requires lo <= j <= |s|
    ensures lo <= n <= j
    ensures forall k :: n <= k < j ==> IsPySpace(s[k])
    ensures n > lo ==> !IsPySpace(s[n - 1])
  {
    if j > lo && IsPySpace(s[j - 1]) then TrimSpaces(s, lo, j - 1) else j
  }

  /**
    Where `s.strip()` cuts: all whitespace before the first bound and from the
    second on, and the kept part neither starts nor ends with whitespace.
   */
  function StripBounds(s: string): (b: (nat, nat))
    ensures b.0 <= b.1 <= |s|
    ensures forall k :: 0 <= k < b.0 ==> IsPySpace(s[k])
    ensures forall k :: b.1 <= k < |s| ==> IsPySpace(s[k])
    ensures b.0 < b.1 ==> !IsPySpace(s[b.0]) && !IsPySpace(s[b.1 - 1])
  {
    var i := SkipSpaces(s, 0);
    (i, TrimSpaces(s, i, |s|))
  }

  /** `s.strip()` */
  function Strip(s: string): (r: string)
    ensures |r| <= |s|
    ensures |r| > 0 ==> !IsPySpace(r[0]) && !IsPySpace(r[|r| - 1])
  {
    var b := StripBounds(s);
    s[b.0..b.1]
  }

  /** A string with nothing to strip is its own strip. */
  lemma StripUnchanged(s: string)
    requires |s| > 0 ==> !IsPySpace(s[0]) && !IsPySpace(s[|s| - 1])
    ensures Strip(s) == s
  {
    assert SkipSpaces(s, 0) == 0;
    assert TrimSpaces(s, 0, |s|) == |s|;
  }

  /** Stripping twice strips nothing more. */
  lemma StripIdempotent(s: string)
    ensures Strip(Strip(s)) == Strip(s)
  {
    StripUnchanged(Strip(s));
  }

  /** `[0-9A-Fa-f]` */
  predicate IsHexDigit(c: char) {
    ('0' <= c <= '9') || ('a' <= c <= 'f') || ('A' <= c <= 'F')
  }

  predicate IsUpperHexDigit(c: char) {
    ('0' <= c <= '9') || ('A' <= c <= 'F')
  }

  predicate AllHex(s: string) {
    forall k :: 0 <= k < |s| ==> IsHexDigit(s[k])
  }

  /** `str.upper()` on one hex digit. */
  function UpperDigit(c: char): (r: char)
    requires IsHexDigit(c)
    ensures IsUpperHexDigit(r)
    ensures IsUpperHexDigit(c) ==> r == c
  {
    if 'a' <= c <= 'f' then (c as int - 'a' as int + 'A' as int) as char else c
  }

  /** `str.upper()` on a string of hex digits. */
  function Upper(s: string): (r: string)
    requires AllHex(s)
    ensures |r| == |s|
    ensures forall k :: 0 <= k < |s| ==> r[k] == UpperDigit(s[k])
  {
    seq(|s|, k requires 0 <= k < |s| => UpperDigit(s[k]))
  }

  /** What `color_arg` returns: `0x` followed by eight upper-case hex digits. */
  predicate IsNormalColor(v: string) {
    && |v| == 10 && v[..2] == "0x"
    && forall k :: 2 <= k < 10 ==> IsUpperHexDigit(v[k])
  }

  /**
    `HEX8_RE.match(s).group(2)` for `^(0x)?([0-9A-Fa-f]{8})$`: the eight digits,
    tried first after a `0x` and then from the start. The pattern's `$` also
    matches before a final newline, which a stripped string never has.
   */
  function MatchHex8(s: string): Option<string> {
    if |s| == 10 && s[..2] == "0x" && AllHex(s[2..]) then Some(s[2..])
    else if |s| == 8 && AllHex(s) then Some(s)
    else None
  }

  /** The `argparse.ArgumentTypeError`s `color_arg` raises, with the stripped text. */
  datatype ColorError = InvalidHashColor(text: string) | InvalidColor(text: string)

  /** `color_arg(s)` */
  function ColorArg(s: string): (r: Result<string, ColorError>)
    ensures r.Success? ==> IsNormalColor(r.value)
    // `#RRGGBB` becomes opaque `0xFFRRGGBB`, and nothing else that starts with `#` is accepted
    ensures var t := Strip(s); |t| > 0 && t[0] == '#' ==>
      && (r.Success? <==> |t| == 7 && AllHex(t[1..]))
      && (r.Success? ==> r.value == "0xFF" + Upper(t[1..]))
    // otherwise eight hex digits, optionally after a lower-case `0x`
    ensures var t := Strip(s); (|t| == 0 || t[0] != '#') ==>
      && (r.Success? <==> (|t| == 8 && AllHex(t)) || (|t| == 10 && t[..2] == "0x" && AllHex(t[2..])))
      && (r.Success? ==> r.value == "0x" + Upper(t[|t| - 8..]))
    ensures r.Failure? ==> r.error.text == Strip(s)
  {
    var t := Strip(s);
    if |t| > 0 && t[0] == '#' then HashColor(t) else PlainColor(t)
  }

  /** `0x` and eight upper-case digits is a normal colour. */
  lemma NormalColorOf(digits: string)
    requires |digits| == 8 && forall k :: 0 <= k < 8 ==> IsUpperHexDigit(digits[k])
    ensures IsNormalColor("0x" + digits)
  {
    var v := "0x" + digits;
    assert v[..2] == "0x";
    forall k | 2 <= k < 10 ensures IsUpperHexDigit(v[k]) {
      assert v[k] == digits[k - 2];
    }
  }

  /** The `#RRGGBB` branch of `color_arg`, on the stripped text `t`. */
  function HashColor(t: string): (r: Result<string, ColorError>)
    requires |t| > 0 && t[0] == '#'
    ensures r.Success? <==> |t| == 7 && AllHex(t[1..])
    ensures r.Success? ==> r.value == "0xFF" + Upper(t[1..]) && IsNormalColor(r.value)
    ensures r.Failure? ==> r.error == InvalidHashColor(t)
  {
    var rgb := t[1..];
    if |rgb| != 6 || !AllHex(rgb) then Failure(InvalidHashColor(t))
    else
      var u := Upper(rgb);
      assert "0xFF" + u == "0x" + ("FF" + u);
      NormalColorOf("FF" + u);
      Success("0xFF" + u)
  }

  /** The other branch: eight hex digits, optionally after a lower-case `0x`. */
  function PlainColor(t: string): (r: Result<string, ColorError>)
    ensures r.Success? <==> (|t| == 8 && AllHex(t)) || (|t| == 10 && t[..2] == "0x" && AllHex(t[2..]))
    ensures r.Success? ==> r.value == "0x" + Upper(t[|t| - 8..]) && IsNormalColor(r.value)
    ensures r.Failure? ==> r.error == InvalidColor(t)
  {
    match MatchHex8(t)
    case Some(digits) =>
      assert digits == t[|t| - 8..];
      NormalColorOf(Upper(digits));
      Success("0x" + Upper(digits))
    case None => Failure(InvalidColor(t))
  }

  /** The normal colours are exactly the strings `color_arg` returns unchanged. */
  lemma NormalColorsAreFixedPoints(v: string)
    ensures ColorArg(v) == Success(v) <==> IsNormalColor(v)
  {
    if IsNormalColor(v) {
      StripUnchanged(v);
      assert AllHex(v[2..]);
      assert Upper(v[2..]) == v[2..];
      assert v == "0x" + v[2..];
    }
  }

  /** Normalising a colour a second time changes nothing. */
  lemma ColorArgIdempotent(s: string)
    requires ColorArg(s).Success?
    ensures ColorArg(ColorArg(s).value) == ColorArg(s)
  {
    NormalColorsAreFixedPoints(ColorArg(s).value);
  }

  /** The digits' case does not matter: eight hex digits give the same colour in either case. */
  lemma ColorArgIgnoresCase(h: string)
    requires |h| == 8 && AllHex(h)
    ensures ColorArg(h) == ColorArg(Upper(h)) == Success("0x" + Upper(h))
  {
    var u := Upper(h);
    StripUnchanged(h);
    StripUnchanged(u);
    assert AllHex(u);
    assert Upper(u) == u;
  }
}
