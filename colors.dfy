/**
 * Turning the `color_scale` option into the list of colours handed to the colour
 * scale: fall back to the declared default when the option is empty, split on
 * commas, trim each piece, and reverse the list in place when `reverse_colors` is on.
 */
module Colors {
  import opened Text
  import Settings

  /**
   * `config.color_scale || this.options.color_scale.default`: an empty option falls
   * back to the declared default.
   */
  function ColorSource(colorScale: string, declaredDefault: string): (source: string)
    ensures colorScale != [] ==> source == colorScale
    ensures source == colorScale || source == declaredDefault
    ensures source == [] <==> colorScale == [] && declaredDefault == []
  {
    if colorScale != [] then colorScale else declaredDefault
  }

  /** `pieces.map(color => color.trim())`: one trimmed, no longer piece per piece. */
  function TrimAll(pieces: seq<string>): (trimmed: seq<string>)
    ensures |trimmed| == |pieces|
    ensures forall k :: 0 <= k < |trimmed| ==> IsTrimmed(trimmed[k])
  {
    seq(|pieces|, k requires 0 <= k < |pieces| => Trim(pieces[k]))
  }

  /**
   * The colour list the scale is built from, given the option text after the fallback:
   * one colour per comma-separated piece, none holding a comma or surrounding whitespace.
   */
  function ColorList(source: string, reverse: bool): (colors: seq<string>)
    ensures |colors| == |Split(source, ',')|
    ensures forall k :: 0 <= k < |colors| ==> IsTrimmed(colors[k])
  {
    var colors := TrimAll(Split(source, ','));
    if reverse then Reverse(colors) else colors
  }

  /** `colors.reverse()`: reverses the array in place. */
  method ReverseInPlace(a: array<string>)
    modifies a
    ensures a[..] == Reverse(old(a[..]))
  {
    var lo, hi := 0, a.Length;
    while lo + 1 < hi
      invariant 0 <= lo <= hi <= a.Length && lo + hi == a.Length
      invariant forall k :: 0 <= k < lo ==> a[k] == old(a[a.Length - 1 - k])
      invariant forall k :: hi <= k < a.Length ==> a[k] == old(a[a.Length - 1 - k])
      invariant forall k :: lo <= k < hi ==> a[k] == old(a[k])
    {
      a[lo], a[hi - 1] := a[hi - 1], a[lo];
      lo, hi := lo + 1, hi - 1;
    }
  }

  /** The array `map` allocates for the trimmed pieces. */
  method NewColorArray(pieces: seq<string>) returns (a: array<string>)
    ensures fresh(a) && a[..] == pieces
  {
    a := new string[|pieces|];
    forall k | 0 <= k < a.Length {
      a[k] := pieces[k];
    }
  }

  /** The colour parsing of `updateAsync`: falls back, splits, trims each piece, and reverses the array when asked. */
  method ParseColors(colorScale: string, declaredDefault: string, reverse: bool) returns (colors: seq<string>)
    ensures colors == ColorList(ColorSource(colorScale, declaredDefault), reverse)
  {
    var a := NewColorArray(TrimAll(Split(ColorSource(colorScale, declaredDefault), ',')));
    if reverse {
      ReverseInPlace(a);
    }
    colors := a[..];
  }

  /** One colour per comma-separated piece: the count is the number of commas plus one. */
  lemma ColorCount(source: string, reverse: bool)
    ensures |ColorList(source, reverse)| == Count(source, ',') + 1
  {
  }

  /**
   * Each colour is the trimmed text between two commas: no colour holds a comma or
   * starts or ends with whitespace, and in the unreversed list colour `k` is piece `k`
   * of the option with the surrounding whitespace removed.
   */
  lemma ColorsAreTrimmedPieces(source: string, k: nat)
    requires k < |ColorList(source, false)|
    ensures var piece := Split(source, ',')[k];
      var color := ColorList(source, false)[k];
      && ',' !in color && IsTrimmed(color)
      && (exists i, j :: 0 <= i <= j <= |piece| && color == piece[i..j]
            && AllTrimmable(piece[..i]) && AllTrimmable(piece[j..]))
  {
    assert ColorList(source, false) == TrimAll(Split(source, ','));
    assert TrimAll(Split(source, ','))[k] == Trim(Split(source, ',')[k]);
    TrimmedPiece(Split(source, ',')[k]);
  }

  /** Trimming a comma-free piece leaves a comma-free slice of it between two whitespace runs. */
  lemma TrimmedPiece(piece: string)
    requires ',' !in piece
    ensures ',' !in Trim(piece) && IsTrimmed(Trim(piece))
    ensures exists i, j :: 0 <= i <= j <= |piece| && Trim(piece) == piece[i..j]
                           && AllTrimmable(piece[..i]) && AllTrimmable(piece[j..])
  {
    TrimIsInfix(piece);
  }

  /** With `reverse_colors` the list is the exact reverse of the unreversed one, so first and last swap. */
  lemma ReversedColors(source: string)
    ensures var plain := ColorList(source, false);
      var reversed := ColorList(source, true);
      |reversed| == |plain|
      && (forall k :: 0 <= k < |plain| ==> reversed[k] == plain[|plain| - 1 - k])
      && Reverse(reversed) == plain
  {
  }

  /** An empty option yields the three default colours, in order or reversed. */
  lemma DefaultColors()
    ensures ColorList(Settings.DefaultColorScale, false) == ["#EB8230", "#EB8C00", "#FFB600"]
    ensures ColorList(Settings.DefaultColorScale, true) == ["#FFB600", "#EB8C00", "#EB8230"]
  {
    assert Settings.DefaultColorScale == "#EB8230" + ", " + "#EB8C00" + ", " + "#FFB600";
    ThreeColors("#EB8230", "#EB8C00", "#FFB600");
  }

  predicate CleanColor(s: string) {
    s != [] && ',' !in s && !IsTrimmable(s[0]) && !IsTrimmable(s[|s| - 1])
  }

  /** Three clean colours written with a comma and a space between them parse back to themselves. */
  lemma ThreeColors(a: string, b: string, c: string)
    requires CleanColor(a) && CleanColor(b) && CleanColor(c)
    ensures ColorList(a + ", " + b + ", " + c, false) == [a, b, c]
    ensures ColorList(a + ", " + b + ", " + c, true) == [c, b, a]
  {
    var source := a + ", " + b + ", " + c;
    TrimThree(a, b, c);
    var colors := TrimAll(Split(source, ','));
    assert ColorList(source, false) == colors;
    assert ColorList(source, true) == Reverse(colors);
    assert Reverse(colors) == [c, b, a];
  }

  lemma TrimThree(a: string, b: string, c: string)
    requires CleanColor(a) && CleanColor(b) && CleanColor(c)
    ensures TrimAll(Split(a + ", " + b + ", " + c, ',')) == [a, b, c]
  {
    var pieces := [a, " " + b, " " + c];
    SplitThree(a, b, c);
    TrimAllOfThree(pieces);
    TrimClean(a);
    TrimOneSpace(b);
    TrimOneSpace(c);
  }

  lemma TrimAllOfThree(pieces: seq<string>)
    requires |pieces| == 3
    ensures TrimAll(pieces) == [Trim(pieces[0]), Trim(pieces[1]), Trim(pieces[2])]
  {
  }

  lemma SplitThree(a: string, b: string, c: string)
    requires CleanColor(a) && CleanColor(b) && CleanColor(c)
    ensures Split(a + ", " + b + ", " + c, ',') == [a, " " + b, " " + c]
  {
    var pieces := [a, " " + b, " " + c];
    var tail := [" " + b, " " + c];
    assert Join(tail, ',') == " " + b + ", " + c by {
      assert tail[1..] == [" " + c];
      assert [','] + " " + c == ", " + c;
    }
    assert pieces[1..] == tail;
    assert Join(pieces, ',') == a + ", " + b + ", " + c by {
      assert a + [','] + (" " + b + ", " + c) == a + ", " + b + ", " + c;
    }
    assert ',' !in " " + b && ',' !in " " + c;
    SplitJoin(pieces, ',');
  }

  /** A piece with no whitespace at either end is left as it is. */
  lemma TrimClean(s: string)
    requires s != [] && !IsTrimmable(s[0]) && !IsTrimmable(s[|s| - 1])
    ensures Trim(s) == s
  {
  }

  /** A clean piece after one space loses the space. */
  lemma TrimOneSpace(s: string)
    requires s != [] && !IsTrimmable(s[0]) && !IsTrimmable(s[|s| - 1])
    ensures Trim(" " + s) == s
  {
    assert (" " + s)[1..] == s;
  }

}
