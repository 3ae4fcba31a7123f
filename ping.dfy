/**
 * The ping descriptions the webhook receives, `Coords: X: <x>, Y: <y>, Z: <z>`,
 * and the round trip from three integers through such a description and back
 * through the extractor.
 */
module Ping {
  import opened Wrappers
  import opened Decimal
  import opened Extractor

  /** The text of a ping description, with the three numbers already spelled. */
  function Layout(tx: string, ty: string, tz: string): string {
    "Coords: X: " + tx + ", Y: " + ty + ", Z: " + tz
  }

  /** The description the pings carry, as in `Coords: X: -187677, Y: -47, Z: 159415`. */
  function Description(x: int, y: int, z: int): string {
    Layout(IntToString(x), IntToString(y), IntToString(z))
  }

  /** Where the labels of a layout stand. */
  function LayoutMatch(tx: string, ty: string): Match {
    Match(8, 13 + |tx|, 18 + |tx| + |ty|)
  }

  lemma LayoutSpelledX(tx: string, ty: string, tz: string)
    ensures SpelledAt(Layout(tx, ty, tz), 8, X, tx)
  {
    var s := Layout(tx, ty, tz);
    assert s[..11] == "Coords: X: ";
    assert s[8] == s[..11][8] && s[9] == s[..11][9] && s[10] == s[..11][10];
    assert s[11..11 + |tx|] == tx;
    assert s[11 + |tx|] == ',';
  }

  lemma LayoutSpelledY(tx: string, ty: string, tz: string)
    ensures SpelledAt(Layout(tx, ty, tz), 13 + |tx|, Y, ty)
  {
    var s := Layout(tx, ty, tz);
    var pre := "Coords: X: " + tx + ", ";
    assert s == pre + ("Y: " + ty + ", Z: " + tz);
    var p := |pre|;
    assert s[p] == 'Y' && s[p + 1] == ':' && s[p + 2] == ' ';
    assert s[p + 3..p + 3 + |ty|] == ty;
    assert s[p + 3 + |ty|] == ',';
  }

  lemma LayoutSpelledZ(tx: string, ty: string, tz: string)
    ensures SpelledAt(Layout(tx, ty, tz), 18 + |tx| + |ty|, Z, tz)
  {
    var s := Layout(tx, ty, tz);
    var pre := "Coords: X: " + tx + ", Y: " + ty + ", ";
    assert s == pre + ("Z: " + tz);
    var p := |pre|;
    assert s[p] == 'Z' && s[p + 1] == ':' && s[p + 2] == ' ';
    assert s[p + 3..] == tz;
  }

  /** Between two fields of a layout stands ", ", on the same line. */
  lemma LayoutGaps(tx: string, ty: string, tz: string)
    ensures var s := Layout(tx, ty, tz);
      SameLine(s, 11 + |tx|, 13 + |tx|) && SameLine(s, 16 + |tx| + |ty|, 18 + |tx| + |ty|)
  {
    var s := Layout(tx, ty, tz);
    var preY := "Coords: X: " + tx + ", ";
    var preZ := preY + "Y: " + ty + ", ";
    assert s == preZ + ("Z: " + tz);
    assert s[|preY| - 2] == ',' && s[|preY| - 1] == ' ';
    assert s[|preZ| - 2] == ',' && s[|preZ| - 1] == ' ';
  }

  predicate IsAxisLetter(c: char) {
    c == 'X' || c == 'Y' || c == 'Z' || c == 'x' || c == 'y' || c == 'z'
  }

  predicate NoAxisLetter(t: string) {
    forall i :: 0 <= i < |t| ==> !IsAxisLetter(t[i])
  }

  /** In a layout whose numbers hold no letter, only the three labels hold an axis letter. */
  lemma LayoutLetters(tx: string, ty: string, tz: string, i: nat)
    requires NoAxisLetter(tx) && NoAxisLetter(ty) && NoAxisLetter(tz)
    ensures var s, m := Layout(tx, ty, tz), LayoutMatch(tx, ty);
      i < |s| && IsAxisLetter(s[i]) ==> i == m.px || i == m.py || i == m.pz
  {
    var s := Layout(tx, ty, tz);
    var ex, ey := 11 + |tx|, 16 + |tx| + |ty|;
    if i < 11 {
      assert s[i] == "Coords: X: "[i];
    } else if i < ex {
      assert s[i] == tx[i - 11];
    } else if i < ex + 5 {
      assert s[i] == ", Y: "[i - ex];
    } else if i < ey {
      assert s[i] == ty[i - ex - 5];
    } else if i < ey + 5 {
      assert s[i] == ", Z: "[i - ey];
    } else if i < |s| {
      assert s[i] == tz[i - ey - 5];
    }
  }

  /** Label letters of the three axes, in a layout whose numbers hold no letter, stand only at its labels. */
  lemma LayoutLabelsOnly(tx: string, ty: string, tz: string, m': Match)
    requires NoAxisLetter(tx) && NoAxisLetter(ty) && NoAxisLetter(tz)
    requires LabelLetters(Layout(tx, ty, tz), m')
    ensures m' == LayoutMatch(tx, ty)
  {
    LayoutSpelledX(tx, ty, tz);
    LayoutSpelledY(tx, ty, tz);
    LayoutSpelledZ(tx, ty, tz);
    LayoutLetters(tx, ty, tz, m'.px);
    LayoutLetters(tx, ty, tz, m'.py);
    LayoutLetters(tx, ty, tz, m'.pz);
  }

  /** A spelled integer holds no axis letter. */
  lemma SpelledNoAxisLetter(n: int)
    ensures NoAxisLetter(IntToString(n))
  {
    var t := IntToString(n);
    forall i | 0 <= i < |t| ensures !IsAxisLetter(t[i]) {
      assert IsDigit(t[i]) || t[i] == '-';
    }
  }

  /** The labels of a description form a match that reads the three integers. */
  lemma DescriptionMatch(x: int, y: int, z: int)
    ensures var tx, ty := IntToString(x), IntToString(y);
      IsMatch(Description(x, y, z), LayoutMatch(tx, ty)) &&
      Values(Description(x, y, z), LayoutMatch(tx, ty)) == (x, y, z)
  {
    var tx, ty, tz := IntToString(x), IntToString(y), IntToString(z);
    LayoutSpelledX(tx, ty, tz);
    LayoutSpelledY(tx, ty, tz);
    LayoutSpelledZ(tx, ty, tz);
    LayoutGaps(tx, ty, tz);
    SpelledMatch(Layout(tx, ty, tz), LayoutMatch(tx, ty), x, y, z);
  }

  /** In a description, axis letters stand only at its three labels. */
  lemma DescriptionLabelsOnly(x: int, y: int, z: int)
    ensures var tx, ty := IntToString(x), IntToString(y);
      forall m' :: LabelLetters(Description(x, y, z), m') ==> m' == LayoutMatch(tx, ty)
  {
    var tx, ty, tz := IntToString(x), IntToString(y), IntToString(z);
    SpelledNoAxisLetter(x);
    SpelledNoAxisLetter(y);
    SpelledNoAxisLetter(z);
    forall m' | LabelLetters(Layout(tx, ty, tz), m') ensures m' == LayoutMatch(tx, ty) {
      LayoutLabelsOnly(tx, ty, tz, m');
    }
  }

  /** Extraction recovers the three integers of every well-formed ping description. */
  lemma ExtractDescription(x: int, y: int, z: int)
    ensures Extract(Description(x, y, z)) == Some((x, y, z))
  {
    var m := LayoutMatch(IntToString(x), IntToString(y));
    DescriptionMatch(x, y, z);
    DescriptionLabelsOnly(x, y, z);
    ExtractOnlyMatch(Description(x, y, z), m);
  }

  lemma SampleX()
    ensures IntToString(-187677) == "-187677"
  {
    assert NatToString(1876) == "1876";
  }

  lemma SampleY()
    ensures IntToString(-47) == "-47"
  {
  }

  lemma SampleZ()
    ensures IntToString(159415) == "159415"
  {
    assert NatToString(1594) == "1594";
  }

  /** The spelling of a sample ping. */
  lemma SampleDescription()
    ensures Description(-187677, -47, 159415) == "Coords: X: -187677, Y: -47, Z: 159415"
  {
    SampleX();
    SampleY();
    SampleZ();
  }

  /** A sample ping reads back as (-187677, -47, 159415). */
  lemma ExtractSamplePing()
    ensures Extract("Coords: X: -187677, Y: -47, Z: 159415") == Some((-187677, -47, 159415))
  {
    SampleDescription();
    ExtractDescription(-187677, -47, 159415);
  }
}
