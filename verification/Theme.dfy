/**
 The text colour placed on an accent (internal/theme/theme.go, `onAccent`), over exact reals: the
 choice always has a contrast of at least 4.45 to 1.  The power 2.4 is given by its defining
 equation, y^5 = x^12.
 */
module Theme {

  function Pow(x: real, n: nat): real {
    if n == 0 then 1.0 else x * Pow(x, n - 1)
  }

  /** `y` is x to the power 2.4. */
  predicate IsPow24(x: real, y: real) {
    y >= 0.0 && Pow(y, 5) == Pow(x, 12)
  }

  /** `y` is the linear value of an sRGB channel given as 0 to 255. */
  predicate IsChannel(value: int, y: real) {
    var v := value as real / 255.0;
    if v <= 0.03928 then y == v / 12.92 else IsPow24((v + 0.055) / 1.055, y)
  }

  function Luminance(r: real, g: real, b: real): real {
    0.2126 * r + 0.7152 * g + 0.0722 * b
  }

  function Contrast(a: real, b: real): real
    requires a >= 0.0 && b >= 0.0
  {
    var lighter, darker := if a >= b then a else b, if a >= b then b else a;
    (lighter + 0.05) / (darker + 0.05)
  }

  datatype TextColour = NearBlack | White

  /** `accent` and `nearBlack` are luminances; white has luminance `white`. */
  function OnAccent(accent: real, nearBlack: real, white: real): TextColour
    requires accent >= 0.0 && nearBlack >= 0.0 && white >= 0.0
  {
    if Contrast(accent, nearBlack) >= Contrast(accent, white) then NearBlack else White
  }

  lemma {:induction false} PowGrows(a: real, b: real, n: nat)
    requires 0.0 <= a <= b
    ensures 0.0 <= Pow(a, n) <= Pow(b, n)
    ensures a < b && n > 0 ==> Pow(a, n) < Pow(b, n)
  {
    if n > 0 {
      PowGrows(a, b, n - 1);
      var p, q := Pow(a, n - 1), Pow(b, n - 1);
      ProductGrows(a, b, p, q);
      if a < b {
        PowPositive(b, n - 1);
        StrictProduct(a, b, p, q);
      }
    }
  }

  lemma ProductGrows(a: real, b: real, p: real, q: real)
    requires 0.0 <= a <= b && 0.0 <= p <= q
    ensures 0.0 <= a * p <= b * q
  {
    assert a * p <= b * p;
    assert b * p <= b * q;
  }

  lemma StrictProduct(a: real, b: real, p: real, q: real)
    requires 0.0 <= a < b && 0.0 <= p <= q && q > 0.0
    ensures a * p < b * q
  {
    assert a * p <= a * q;
    assert a * q < b * q;
  }

  lemma {:induction false} PowPositive(b: real, n: nat)
    requires b > 0.0
    ensures Pow(b, n) > 0.0
  {
    if n > 0 {
      PowPositive(b, n - 1);
    }
  }

  lemma {:induction false} PowOne(n: nat)
    ensures Pow(1.0, n) == 1.0
  {
    if n > 0 {
      PowOne(n - 1);
    }
  }

  lemma ChannelRange(value: int, y: real)
    requires 0 <= value <= 255 && IsChannel(value, y)
    ensures 0.0 <= y <= 1.0
    ensures value == 255 ==> y == 1.0
  {
    hide Pow;
    var v := value as real / 255.0;
    if v > 0.03928 {
      var x := (v + 0.055) / 1.055;
      assert 0.0 <= x <= 1.0;
      PowGrows(x, 1.0, 12);
      PowOne(12);
      PowOne(5);
      if y > 1.0 {
        PowGrows(1.0, y, 5);
      }
      if value == 255 && y < 1.0 {
        assert x == 1.0;
        PowGrows(y, 1.0, 5);
      }
    }
  }

  lemma LuminanceRange(r: real, g: real, b: real)
    requires 0.0 <= r <= 1.0 && 0.0 <= g <= 1.0 && 0.0 <= b <= 1.0
    ensures 0.0 <= Luminance(r, g, b) <= 1.0
  {
  }

  /** 0x14 is the one near-black channel above the linear range; a rational bound on its power is enough. */
  lemma NearBlackBlue(y: real)
    requires IsChannel(0x14, y)
    ensures 0.0 <= y <= 0.0085
  {
    var x := (20.0 / 255.0 + 0.055) / 1.055;
    assert x <= 0.1265;
    assert Pow(0.1265, 12) <= Pow(0.0085, 5) by {
      PowLiterals();
    }
    hide Pow;
    PowGrows(x, 0.1265, 12);
    if y > 0.0085 {
      PowGrows(0.0085, y, 5);
    }
  }

  lemma PowLiterals()
    ensures Pow(0.1265, 12) <= Pow(0.0085, 5)
  {
    var c := 0.1265 * 0.1265 * 0.1265 * 0.1265;
    PowFour(0.1265, 8);
    PowFour(0.1265, 4);
    PowFour(0.1265, 0);
    PowFour(0.0085, 1);
    assert Pow(0.0085, 1) == 0.0085;
    hide Pow;
    assert Pow(0.1265, 4) == c;
    assert Pow(0.1265, 8) == c * c;
    assert Pow(0.1265, 12) == c * (c * c);
  }

  lemma PowFour(x: real, n: nat)
    ensures Pow(x, n + 4) == x * x * x * x * Pow(x, n)
    ensures Pow(x, 0) == 1.0
  {
    assert Pow(x, n + 2) == x * (x * Pow(x, n));
    assert Pow(x, n + 4) == x * (x * Pow(x, n + 2));
  }

  lemma NearBlackLuminance(r: real, g: real, b: real)
    requires IsChannel(0x0a, r) && IsChannel(0x08, g) && IsChannel(0x14, b)
    ensures 0.0 <= Luminance(r, g, b) <= 0.003
  {
    NearBlackBlue(b);
    assert r == 10.0 / 255.0 / 12.92;
    assert g == 8.0 / 255.0 / 12.92;
  }

  lemma QuotientAtLeast(a: real, d: real, k: real)
    requires d > 0.0 && a >= k * d
    ensures a / d >= k
  {
  }

  /** The two candidate contrasts cannot both be small, because their product is fixed. */
  lemma OneContrastIsLarge(accent: real, nearBlack: real)
    requires 0.0 <= accent <= 1.0 && 0.0 <= nearBlack <= 0.003
    ensures Contrast(accent, nearBlack) >= 4.45 || Contrast(accent, 1.0) >= 4.45
  {
    var a, d := accent + 0.05, nearBlack + 0.05;
    assert Contrast(accent, 1.0) == 1.05 / a;
    if 4.45 * a <= 1.05 {
      QuotientAtLeast(1.05, a, 4.45);
    } else {
      assert a >= 4.45 * d;
      QuotientAtLeast(a, d, 4.45);
      assert accent >= nearBlack;
    }
  }

  /** For every accent, the chosen text colour is the better of the two and has contrast at least 4.45. */
  lemma ChosenTextIsLegible(red: int, green: int, blue: int, r: real, g: real, b: real,
                            kr: real, kg: real, kb: real, w: real)
    requires 0 <= red <= 255 && 0 <= green <= 255 && 0 <= blue <= 255
    requires IsChannel(red, r) && IsChannel(green, g) && IsChannel(blue, b)
    requires IsChannel(0x0a, kr) && IsChannel(0x08, kg) && IsChannel(0x14, kb) && IsChannel(0xff, w)
    ensures
      var accent, nearBlack, white := Luminance(r, g, b), Luminance(kr, kg, kb), Luminance(w, w, w);
      && accent >= 0.0 && nearBlack >= 0.0 && white >= 0.0
      && var chosen := if OnAccent(accent, nearBlack, white) == NearBlack then nearBlack else white;
      && Contrast(accent, chosen) >= 4.45
      && Contrast(accent, chosen) >= Contrast(accent, nearBlack) && Contrast(accent, chosen) >= Contrast(accent, white)
  {
    ChannelRange(red, r);
    ChannelRange(green, g);
    ChannelRange(blue, b);
    ChannelRange(0xff, w);
    NearBlackLuminance(kr, kg, kb);
    LuminanceRange(r, g, b);
    assert Luminance(w, w, w) == 1.0;
    hide Luminance, IsChannel, Contrast;
    OneContrastIsLarge(Luminance(r, g, b), Luminance(kr, kg, kb));
  }
}
