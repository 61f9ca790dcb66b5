/** The tinting pass over a heraldry texture: slot classification, the intensity
    pre-pass, and the in-place pixel loop, with the colour products of Doubles. */
module Recolour {
  import opened Doubles
  import opened Options
  import opened TintCache

  const MAX_B_ALPHA_THRESHOLD: int := 128

  datatype Pixel = Pixel(r: nat, g: nat, b: nat, a: nat)

  function Or(first: Option<Rgb>, second: Option<Rgb>): Option<Rgb> {
    if first.Some? then first else second
  }

  function Preferred(r: nat, g: nat, b: nat, slots: Slots): Option<Rgb> {
    if r > 0 && r == g && g == b then slots.color3
    else if r > 0 && g > 0 && b == 0 then slots.color2
    else if r > 0 && g == 0 && b == 0 then slots.color1
    else if b > 0 && r == 0 then slots.color3
    else if r >= g && r >= b then slots.color1
    else if g >= r && g >= b then slots.color2
    else slots.color3
  }

  function PickSlot(r: nat, g: nat, b: nat, slots: Slots): Option<Rgb> {
    if r == 0 && g == 0 && b == 0 then None
    else Or(Preferred(r, g, b, slots), Or(slots.color1, Or(slots.color2, slots.color3)))
  }

  function EmblemSlots(slots: Slots): Slots {
    Slots(slots.color2, slots.color3, slots.color1)
  }

  // A Uint8ClampedArray stores at most 255.
  function Clamp(v: nat): nat {
    if v > 255 then 255 else v
  }

  predicate Dimmed(p: Pixel, maxB: nat) {
    p.r == 0 && p.b > 0 && maxB > 0 && p.b < maxB
  }

  function Tint(p: Pixel, slots: Slots, maxB: nat): Pixel {
    if p.a == 0 then p
    else
      match PickSlot(p.r, p.g, p.b, slots)
      case None => p.(a := 0)
      case Some(c) =>
        if Dimmed(p, maxB) then
          Pixel(Clamp(Scaled(c.r, p.b, maxB)), Clamp(Scaled(c.g, p.b, maxB)), Clamp(Scaled(c.b, p.b, maxB)), p.a)
        else Pixel(Clamp(c.r), Clamp(c.g), Clamp(c.b), p.a)
  }

  // ---- The image as bytes ----

  function PixelAt(data: seq<nat>, i: nat): Pixel
    requires i + 3 < |data|
  {
    Pixel(data[i], data[i + 1], data[i + 2], data[i + 3])
  }

  function Channel(p: Pixel, k: nat): nat
    requires k < 4
  {
    match k case 0 => p.r case 1 => p.g case 2 => p.b case _ => p.a
  }

  // The pure per-pixel map: each whole pixel from the original image alone; bytes
  // past the last whole pixel stay.
  function Tinted(data: seq<nat>, slots: Slots, maxB: nat): (r: seq<nat>)
    ensures |r| == |data|
  {
    seq(|data|, k requires 0 <= k < |data| =>
      if k - k % 4 + 3 < |data| then Channel(Tint(PixelAt(data, k - k % 4), slots, maxB), k % 4) else data[k])
  }

  lemma TintedAt(data: seq<nat>, slots: Slots, maxB: nat, i: nat)
    requires i % 4 == 0
    ensures i + 3 < |data| ==> PixelAt(Tinted(data, slots, maxB), i) == Tint(PixelAt(data, i), slots, maxB)
    ensures i + 3 >= |data| ==> forall k | i <= k < |data| :: Tinted(data, slots, maxB)[k] == data[k]
  {
    hide Tint;
  }

  predicate Counts(p: Pixel) {
    p.a >= MAX_B_ALPHA_THRESHOLD && p.r == 0
  }

  // The largest blue of an opaque enough pixel without red, or zero.
  ghost predicate IsMaxBOnly(data: seq<nat>, m: nat) {
    && (forall i: nat | i % 4 == 0 && i + 3 < |data| && Counts(PixelAt(data, i)) :: PixelAt(data, i).b <= m)
    && (m > 0 ==> exists i: nat :: i % 4 == 0 && i + 3 < |data| && Counts(PixelAt(data, i)) && PixelAt(data, i).b == m)
  }

  method ComputeMaxBOnly(data: array<nat>) returns (maxBOnly: nat)
    ensures IsMaxBOnly(data[..], maxBOnly)
  {
    maxBOnly := 0;
    ghost var s := data[..];
    var i := 0;
    while i < data.Length
      invariant i % 4 == 0
      invariant forall j: nat | j % 4 == 0 && j < i && j + 3 < |s| && Counts(PixelAt(s, j)) :: PixelAt(s, j).b <= maxBOnly
      invariant maxBOnly > 0 ==>
        exists j: nat :: j % 4 == 0 && j + 3 < |s| && Counts(PixelAt(s, j)) && PixelAt(s, j).b == maxBOnly
    {
      // Reading past the end gives undefined, which the code takes as zero.
      var alpha := if i + 3 < data.Length then data[i + 3] else 0;
      if alpha >= MAX_B_ALPHA_THRESHOLD && data[i] == 0 && data[i + 2] > maxBOnly {
        maxBOnly := data[i + 2];
        assert Counts(PixelAt(s, i)) && PixelAt(s, i).b == maxBOnly;
      }
      i := i + 4;
    }
  }

  lemma MaxBOnlyUnique(data: seq<nat>, m: nat, n: nat)
    requires IsMaxBOnly(data, m) && IsMaxBOnly(data, n)
    ensures m == n
  {
  }

  // What becomes of a pixel: a transparent one stays, one without a slot turns
  // transparent, one without red that is less blue than the bluest is dimmed, and any
  // other takes the slot's colour as it is. Alpha is kept.
  predicate Becomes(p: Pixel, q: Pixel, slots: Slots, maxB: nat) {
    var slot := PickSlot(p.r, p.g, p.b, slots);
    if p.a == 0 then q == p
    else if slot.None? then q == Pixel(p.r, p.g, p.b, 0)
    else if p.r == 0 && 0 < p.b < maxB then
      q == Pixel(Scaled(slot.value.r, p.b, maxB), Scaled(slot.value.g, p.b, maxB), Scaled(slot.value.b, p.b, maxB), p.a)
    else q == Pixel(slot.value.r, slot.value.g, slot.value.b, p.a)
  }

  // Every whole pixel becomes what it should, and bytes past the last stay.
  ghost predicate Recoloured(before: seq<nat>, after: seq<nat>, slots: Slots, maxB: nat) {
    && |after| == |before|
    && (forall i: nat | i % 4 == 0 && i + 3 < |before| :: Becomes(PixelAt(before, i), PixelAt(after, i), slots, maxB))
    && (forall k | |before| - |before| % 4 <= k < |before| :: after[k] == before[k])
  }

  ghost predicate AreBytes(data: seq<nat>) {
    forall k | 0 <= k < |data| :: data[k] <= 255
  }

  lemma TintBecomes(p: Pixel, slots: Slots, maxB: nat)
    requires IsPalette(slots) && maxB <= 255
    ensures Becomes(p, Tint(p, slots, maxB), slots, maxB)
  {
    hide Scaled, PickSlot, IsPalette;
    PickedIsColour(p.r, p.g, p.b, slots);
    var slot := PickSlot(p.r, p.g, p.b, slots);
    if slot.Some? && p.r == 0 && 0 < p.b < maxB {
      ScaledIsDimmer(slot.value.r, p.b, maxB);
      ScaledIsDimmer(slot.value.g, p.b, maxB);
      ScaledIsDimmer(slot.value.b, p.b, maxB);
    }
  }

  lemma TintedIsRecoloured(data: seq<nat>, slots: Slots, maxB: nat)
    requires IsPalette(slots) && AreBytes(data) && IsMaxBOnly(data, maxB)
    ensures Recoloured(data, Tinted(data, slots, maxB), slots, maxB)
  {
    hide Tinted, Tint, Becomes, IsPalette;
    assert maxB <= 255;
    forall i: nat | i % 4 == 0 && i + 3 < |data|
      ensures Becomes(PixelAt(data, i), PixelAt(Tinted(data, slots, maxB), i), slots, maxB)
    {
      TintedAt(data, slots, maxB, i);
      TintBecomes(PixelAt(data, i), slots, maxB);
    }
    TintedAt(data, slots, maxB, |data| - |data| % 4);
  }

  // What the pass leaves of an image, and, for bytes and colours in bytes, what that means
  // of each pixel.
  ghost predicate IsPass(before: seq<nat>, after: seq<nat>, slots: Slots, maxB: nat) {
    && IsMaxBOnly(before, maxB) && after == Tinted(before, slots, maxB)
    && (IsPalette(slots) && AreBytes(before) ==> Recoloured(before, after, slots, maxB))
  }

  // The pixel loop, in place.
  method RecolourPixels(data: array<nat>, slots: Slots)
    modifies data
    ensures exists maxB :: IsPass(old(data[..]), data[..], slots, maxB)
  {
    hide Tinted, PickSlot, Scaled, Clamp, IsMaxBOnly, IsPalette, AreBytes, Recoloured;
    ghost var s := data[..];
    var maxBOnly := ComputeMaxBOnly(data);
    ghost var want := Tinted(s, slots, maxBOnly);
    var i := 0;
    while i < data.Length
      invariant i % 4 == 0
      invariant forall k | 0 <= k < i && k < data.Length :: data[k] == want[k]
      invariant forall k | i <= k < data.Length :: data[k] == s[k]
    {
      TintedAt(s, slots, maxBOnly, i);
      if i + 3 < data.Length && data[i + 3] != 0 {
        var p := Pixel(data[i], data[i + 1], data[i + 2], data[i + 3]);
        var slot := PickSlot(p.r, p.g, p.b, slots);
        if slot.Some? {
          var c := slot.value;
          if Dimmed(p, maxBOnly) {
            c := Rgb(Scaled(c.r, p.b, maxBOnly), Scaled(c.g, p.b, maxBOnly), Scaled(c.b, p.b, maxBOnly));
          }
          data[i] := Clamp(c.r);
          data[i + 1] := Clamp(c.g);
          data[i + 2] := Clamp(c.b);
          data[i + 3] := p.a;
        } else {
          data[i + 3] := 0;
        }
      }
      i := i + 4;
    }
    assert data[..] == want;
    if IsPalette(slots) && AreBytes(s) {
      TintedIsRecoloured(s, slots, maxBOnly);
    }
    assert IsPass(s, data[..], slots, maxBOnly);
  }

  // ---- What the map promises ----

  // The documented exception: no slot exactly for a black pixel or when the coat of
  // arms gives no colour at all.
  lemma NoSlotIff(r: nat, g: nat, b: nat, slots: Slots)
    ensures PickSlot(r, g, b, slots).None? <==> (r == 0 && g == 0 && b == 0) || slots == Slots(None, None, None)
  {
  }

  // With all three colours given, the slot each kind of pixel takes: grey the third, red
  // and green the second, red the first, blue without red the third; of the mixed rest
  // the first if red is greatest, else the second if green is, else the third.
  lemma WhichSlot(r: nat, g: nat, b: nat, color1: Rgb, color2: Rgb, color3: Rgb)
    requires !(r == 0 && g == 0 && b == 0)
    ensures var slot := PickSlot(r, g, b, Slots(Some(color1), Some(color2), Some(color3)));
      && (r == g == b ==> slot == Some(color3))
      && (r > 0 && g > 0 && b == 0 ==> slot == Some(color2))
      && (r > 0 && g == 0 && b == 0 ==> slot == Some(color1))
      && (r == 0 && b > 0 ==> slot == Some(color3))
      && (r == 0 && g > 0 && b == 0 ==> slot == Some(color2))
      && (r > 0 && b > 0 && !(r == g == b) ==>
            slot == Some(if r >= g && r >= b then color1 else if g >= b then color2 else color3))
  {
  }

  // A pixel whose own slot is not given takes the first that is.
  lemma MissingSlot(r: nat, g: nat, b: nat, slots: Slots, color1: Rgb, color2: Rgb, color3: Rgb)
    requires !(r == 0 && g == 0 && b == 0)
    requires color1 != color2 && color2 != color3 && color1 != color3
    ensures var own := PickSlot(r, g, b, Slots(Some(color1), Some(color2), Some(color3)));
      var slot := PickSlot(r, g, b, slots);
      && (own == Some(color1) && slots.color1.Some? ==> slot == slots.color1)
      && (own == Some(color2) && slots.color2.Some? ==> slot == slots.color2)
      && (own == Some(color3) && slots.color3.Some? ==> slot == slots.color3)
      && ((own == Some(color1) && slots.color1.None?) || (own == Some(color2) && slots.color2.None?)
          || (own == Some(color3) && slots.color3.None?) ==>
            slot == if slots.color1.Some? then slots.color1
                    else if slots.color2.Some? then slots.color2 else slots.color3)
  {
  }

  lemma AlphaKeptOrCleared(p: Pixel, slots: Slots, maxB: nat)
    ensures Tint(p, slots, maxB).a == p.a || Tint(p, slots, maxB).a == 0
    ensures p.a == 0 ==> Tint(p, slots, maxB) == p
    ensures p.a > 0 ==> (Tint(p, slots, maxB).a == 0 <==> PickSlot(p.r, p.g, p.b, slots).None?)
  {
  }

  // Slot colours as the source declares them: three bytes each.
  predicate IsColour(c: Option<Rgb>) {
    c.Some? ==> c.value.r <= 255 && c.value.g <= 255 && c.value.b <= 255
  }

  predicate IsPalette(slots: Slots) {
    IsColour(slots.color1) && IsColour(slots.color2) && IsColour(slots.color3)
  }

  lemma PickedIsColour(r: nat, g: nat, b: nat, slots: Slots)
    requires IsPalette(slots)
    ensures IsColour(PickSlot(r, g, b, slots))
  {
  }

  lemma BluePick(g: nat, b: nat, g': nat, b': nat, slots: Slots)
    requires b > 0 && b' > 0
    ensures PickSlot(0, g, b, slots) == PickSlot(0, g', b', slots)
  {
  }

  lemma ScaledIsDimmer(c: nat, b: nat, m: nat)
    requires 0 < b < m <= 255 && c <= 255
    ensures Scaled(c, b, m) <= c
  {
    hide Scaled;
    var r := Scaled(c, b, m);
    ScaledIsNearest(c, b, m);
    if r > c {
      LessTimes(c, r, m);
      AtMostTimes(c + 1, r, m);
      assert (c + 1) * m == c * m + m;
      MulAtMost(c, b, m);
    }
  }

  // The bluer pixel comes out at least as bright, however ties fall.
  lemma ScaledMonotone(c: nat, b: nat, b': nat, m: nat)
    requires 0 < b <= b' < m <= 255 && c <= 255
    ensures Scaled(c, b, m) <= Scaled(c, b', m)
  {
    hide Scaled;
    var r, r' := Scaled(c, b, m), Scaled(c, b', m);
    ScaledIsNearest(c, b, m);
    ScaledIsNearest(c, b', m);
    if r > r' {
      AtMostTimes(r' + 1, r, m);
      assert (r' + 1) * m == r' * m + m;
      assert c * b' == c * b + c * (b' - b);
      if c == 0 {
        ScaledIsDimmer(c, b, m);
      } else {
        MulAtMost(c, 1, b' - b);
      }
    }
  }

  // Dimming never brightens: every channel stays within the slot's colour.
  lemma NeverBrighter(p: Pixel, slots: Slots, maxB: nat)
    requires p.a > 0 && maxB <= 255 && IsPalette(slots) && PickSlot(p.r, p.g, p.b, slots).Some?
    ensures
      var c, t := PickSlot(p.r, p.g, p.b, slots).value, Tint(p, slots, maxB);
      t.r <= c.r && t.g <= c.g && t.b <= c.b
  {
    hide Scaled, PickSlot, IsPalette;
    PickedIsColour(p.r, p.g, p.b, slots);
    var c := PickSlot(p.r, p.g, p.b, slots).value;
    if Dimmed(p, maxB) {
      ScaledIsDimmer(c.r, p.b, maxB);
      ScaledIsDimmer(c.g, p.b, maxB);
      ScaledIsDimmer(c.b, p.b, maxB);
    }
  }

  // Engraving detail survives: of two pixels without red, the bluer comes out at
  // least as bright, and one at the maximum at full brightness.
  lemma BlueIsMonotone(p: Pixel, q: Pixel, slots: Slots, maxB: nat)
    requires p.r == 0 && q.r == 0 && 0 < p.b <= q.b && p.a > 0 && q.a > 0 && maxB <= 255
    requires IsPalette(slots) && slots != Slots(None, None, None)
    ensures
      var s, t := Tint(p, slots, maxB), Tint(q, slots, maxB);
      s.r <= t.r && s.g <= t.g && s.b <= t.b
    ensures q.b >= maxB ==>
      var c := PickSlot(q.r, q.g, q.b, slots).value;
      Tint(q, slots, maxB) == Pixel(c.r, c.g, c.b, q.a)
  {
    hide Scaled, PickSlot, IsPalette;
    NoSlotIff(p.r, p.g, p.b, slots);
    PickedIsColour(p.r, p.g, p.b, slots);
    BluePick(p.g, p.b, q.g, q.b, slots);
    var c := PickSlot(p.r, p.g, p.b, slots).value;
    if Dimmed(p, maxB) {
      ScaledIsDimmer(c.r, p.b, maxB);
      ScaledIsDimmer(c.g, p.b, maxB);
      ScaledIsDimmer(c.b, p.b, maxB);
      if q.b < maxB {
        ScaledMonotone(c.r, p.b, q.b, maxB);
        ScaledMonotone(c.g, p.b, q.b, maxB);
        ScaledMonotone(c.b, p.b, q.b, maxB);
      }
    }
  }

  // An emblem is drawn in blue, red and red-plus-green; rotated slots put color1,
  // color2 and color3 there in that order.
  lemma EmblemPrimaryIsColor1(slots: Slots, n: nat)
    requires slots.color1.Some? && slots.color2.Some? && slots.color3.Some? && n > 0
    ensures PickSlot(0, 0, n, EmblemSlots(slots)) == slots.color1
    ensures PickSlot(n, 0, 0, EmblemSlots(slots)) == slots.color2
    ensures PickSlot(n, n, 0, EmblemSlots(slots)) == slots.color3
  {
  }
}
