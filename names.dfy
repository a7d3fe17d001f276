/** Frame file names: Python's `f"{i:04d}"` and the paths built from it
    (src/nuscenes_gs/nerfstudio_export.py, src/nuscenes_gs/depth.py). */
module Names {

  predicate IsDigit(c: char) {
    '0' <= c <= '9'
  }

  function DigitChar(d: nat): (c: char)
    requires d < 10
    ensures IsDigit(c) && DigitValue(c) == d
  {
    "0123456789"[d]
  }

  function DigitValue(c: char): nat
    requires IsDigit(c)
  {
    (c as int - '0' as int) as nat
  }

  /** Decimal digits of n, most significant first, without leading zeros ("0" for zero). */
  function Digits(n: nat): (s: string)
    ensures 1 <= |s|
    ensures forall i :: 0 <= i < |s| ==> IsDigit(s[i])
    ensures n < 10 ==> |s| == 1
    ensures n < 100 ==> |s| <= 2
    ensures n < 1000 ==> |s| <= 3
    ensures n < 10000 ==> |s| <= 4
    ensures n >= 10 ==> |s| >= 2
    ensures n >= 100 ==> |s| >= 3
    ensures n >= 1000 ==> |s| >= 4
  {
    if n < 10 then [DigitChar(n)] else Digits(n / 10) + [DigitChar(n % 10)]
  }

  /** The value of a string of decimal digits; leading zeros contribute nothing. */
  function ParseDecimal(s: string): nat
    requires forall i :: 0 <= i < |s| ==> IsDigit(s[i])
  {
    if |s| == 0 then 0 else 10 * ParseDecimal(s[..|s| - 1]) + DigitValue(s[|s| - 1])
  }

  function Zeros(k: nat): (s: string)
    ensures |s| == k && forall i :: 0 <= i < k ==> s[i] == '0'
  {
    if k == 0 then "" else Zeros(k - 1) + "0"
  }

  /** `f"{i:04d}"` for a frame index: the decimal digits, left-padded with zeros to width 4. */
  function Pad4(n: nat): (s: string)
    ensures |s| >= 4
    ensures n < 10000 ==> |s| == 4
    ensures n >= 10000 ==> s == Digits(n)
    ensures forall i :: 0 <= i < |s| ==> IsDigit(s[i])
  {
    var d := Digits(n);
    if |d| >= 4 then d else Zeros(4 - |d|) + d
  }

  /** Reading the digits back gives the number. */
  lemma {:induction false} ParseDigits(n: nat)
    ensures ParseDecimal(Digits(n)) == n
    decreases n
  {
    if n >= 10 {
      var s := Digits(n);
      assert s[..|s| - 1] == Digits(n / 10);
      ParseDigits(n / 10);
    }
  }

  /** Leading zeros do not change the value. */
  lemma {:induction false} ParseLeadingZeros(k: nat, s: string)
    requires forall i :: 0 <= i < |s| ==> IsDigit(s[i])
    ensures forall i :: 0 <= i < |Zeros(k) + s| ==> IsDigit((Zeros(k) + s)[i])
    ensures ParseDecimal(Zeros(k) + s) == ParseDecimal(s)
    decreases |s|
  {
    var t := Zeros(k) + s;
    if |s| == 0 {
      assert t == Zeros(k);
      ParseZeros(k);
    } else {
      assert t[..|t| - 1] == Zeros(k) + s[..|s| - 1];
      ParseLeadingZeros(k, s[..|s| - 1]);
    }
  }

  lemma {:induction false} ParseZeros(k: nat)
    ensures ParseDecimal(Zeros(k)) == 0
  {
    if k > 0 {
      assert Zeros(k)[..k - 1] == Zeros(k - 1);
      ParseZeros(k - 1);
    }
  }

  /** The padded name reads back as the index it was made from. */
  lemma {:induction false} ParsePad4(n: nat)
    ensures ParseDecimal(Pad4(n)) == n
  {
    var d := Digits(n);
    ParseDigits(n);
    if |d| < 4 {
      ParseLeadingZeros(4 - |d|, d);
    }
  }

  /** Distinct frame indices get distinct padded names. */
  lemma Pad4Injective(a: nat, b: nat)
    ensures Pad4(a) == Pad4(b) <==> a == b
  {
    if Pad4(a) == Pad4(b) {
      ParsePad4(a);
      ParsePad4(b);
    }
  }

  /** `images/NNNN.jpg`, the name a frame's image is copied to. */
  function ImagePath(i: nat): string {
    "images/" + Pad4(i) + ".jpg"
  }

  /** `masks/NNNN.png`, the mask a masked export points each frame at. */
  function MaskPath(i: nat): string {
    "masks/" + Pad4(i) + ".png"
  }

  /** `depth/NNNN.png`, relative to the output directory. */
  function DepthPath(i: nat): string {
    "depth/" + Pad4(i) + ".png"
  }

  /** The padded index is the part between a fixed prefix and a fixed suffix. */
  lemma Infix(prefix: string, body: string, suffix: string)
    ensures var s := prefix + body + suffix; s[|prefix|..|s| - |suffix|] == body
  {
  }

  /** Image, mask and depth names are injective in the frame index, and an image and a mask
      name never coincide. */
  lemma {:induction false} PathsInjective(a: nat, b: nat)
    ensures ImagePath(a) == ImagePath(b) <==> a == b
    ensures MaskPath(a) == MaskPath(b) <==> a == b
    ensures DepthPath(a) == DepthPath(b) <==> a == b
    ensures ImagePath(a) != MaskPath(b)
  {
    Infix("images/", Pad4(a), ".jpg");
    Infix("images/", Pad4(b), ".jpg");
    Infix("masks/", Pad4(a), ".png");
    Infix("masks/", Pad4(b), ".png");
    Infix("depth/", Pad4(a), ".png");
    Infix("depth/", Pad4(b), ".png");
    Pad4Injective(a, b);
    assert ImagePath(a)[0] == 'i' && MaskPath(b)[0] == 'm';
  }
}
