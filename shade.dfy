/** `escurecer_cor`: the darker shade of a `#rrggbb` colour that the
    dashboard buttons use for their hover state. */
module Shade {
  import opened Text

  const Step: nat := 30

  /** Six hexadecimal digits, the only text the three int(..., 16) calls accept here. */
  predicate IsHexColor(c: string)
  {
    |c| == 6 && forall i :: 0 <= i < 6 ==> IsHexDigit(c[i])
  }

  /** The value of channel k (0 = red, 1 = green, 2 = blue) of six hex digits. */
  function Channel(c: string, k: nat): (v: nat)
    requires IsHexColor(c) && k < 3
    ensures v < 256
  {
    HexPair(c[2 * k..2 * k + 2])
  }

  function Darker(v: nat): (w: nat)
    requires v < 256
    ensures w < 256
  {
    if v >= Step then v - Step else 0
  }

  /** f'{r:02x}{g:02x}{b:02x}': six lower-case digits whose channels read back as r, g, b. */
  function Format(r: nat, g: nat, b: nat): (s: string)
    requires r < 256 && g < 256 && b < 256
    ensures IsHexColor(s) && IsLower(s)
    ensures Channel(s, 0) == r && Channel(s, 1) == g && Channel(s, 2) == b
  {
    var x, y, z := Hex2(r), Hex2(g), Hex2(b);
    var s := x + y + z;
    assert s[0..2] == x && s[2..4] == y && s[4..6] == z;
    assert forall i :: 0 <= i < 6 ==> s[i] in {x[0], x[1], y[0], y[1], z[0], z[1]};
    s
  }

  /** `#` and the six digits of a colour darkened channel by channel. */
  function Shaded(c: string): (r: string)
    requires IsHexColor(c)
    ensures |r| == 7 && r[0] == '#' && IsHexColor(r[1..]) && IsLower(r[1..])
    ensures Channel(r[1..], 0) == Darker(Channel(c, 0))
    ensures Channel(r[1..], 1) == Darker(Channel(c, 1))
    ensures Channel(r[1..], 2) == Darker(Channel(c, 2))
  {
    var hex := Format(Darker(Channel(c, 0)), Darker(Channel(c, 1)), Darker(Channel(c, 2)));
    assert ("#" + hex)[1..] == hex;
    "#" + hex
  }

  /** Darkens a colour by 30 on each channel, stopping at 0. Any number of
      leading '#' is dropped first; text that is not six hex digits after
      that comes back as it is, without its '#'. */
  function Darken(cor: string): (r: string)
    ensures IsHexColor(DropLeading(cor, '#')) ==>
      |r| == 7 && r[0] == '#' && IsHexColor(r[1..]) && IsLower(r[1..])
      && forall k :: 0 <= k < 3 ==>
           Channel(r[1..], k) == Darker(Channel(DropLeading(cor, '#'), k))
    ensures !IsHexColor(DropLeading(cor, '#')) ==> r == DropLeading(cor, '#')
  {
    var c := DropLeading(cor, '#');
    if IsHexColor(c) then
      var r := Shaded(c);
      assert forall k :: 0 <= k < 3 ==> Channel(r[1..], k) == Darker(Channel(c, k)) by {
        forall k | 0 <= k < 3 ensures Channel(r[1..], k) == Darker(Channel(c, k)) {
          assert k == 0 || k == 1 || k == 2;
        }
      }
      r
    else
      c
  }

  /** A colour whose every channel is at most 30 darkens to black. */
  lemma DarkColorsReachBlack(cor: string)
    requires IsHexColor(DropLeading(cor, '#'))
    requires forall k :: 0 <= k < 3 ==> Channel(DropLeading(cor, '#'), k) <= Step
    ensures Darken(cor) == "#000000"
  {
    var c := DropLeading(cor, '#');
    assert Darker(Channel(c, 0)) == 0 && Darker(Channel(c, 1)) == 0 && Darker(Channel(c, 2)) == 0;
    assert Format(0, 0, 0) == "000000";
  }

  /** Darkening again darkens further until the channel is 0: the shade of a
      shade is the colour darkened by 60. */
  lemma DarkenTwice(cor: string)
    requires IsHexColor(DropLeading(cor, '#'))
    ensures IsHexColor(DropLeading(Darken(cor), '#'))
    ensures forall k :: 0 <= k < 3 ==>
      Channel(DropLeading(Darken(Darken(cor)), '#'), k)
        == Darker(Darker(Channel(DropLeading(cor, '#'), k)))
  {
    var r := Darken(cor);
    var h := r[1..];
    assert IsHexDigit(h[0]);
    assert DropLeading(h, '#') == h;
    assert DropLeading(r, '#') == h;
    var c, c2 := DropLeading(cor, '#'), DropLeading(Darken(r), '#');
    assert forall k :: 0 <= k < 3 ==> Channel(h, k) == Darker(Channel(c, k));
    assert forall k :: 0 <= k < 3 ==> Channel(c2, k) == Darker(Channel(h, k));
  }
}
