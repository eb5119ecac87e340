/** Truncating text to a number of terminal cells, with an ellipsis.

    Text is valid UTF-8 without NUL, as a sequence of code points; cutting at a
    byte between two code points is cutting the sequence. Which code points are
    wide, of zero width, or spaces is part of each.
 */
module Utf8Text {
  import opened Wrappers

  datatype Glyph = Glyph(code: nat, wide: bool, zeroWidth: bool, space: bool)

  type Text = seq<Glyph>

  const SOFT_HYPHEN := 0xAD

  function Cells(c: Glyph): nat {
    if c.wide then 2 else if !c.zeroWidth && c.code != SOFT_HYPHEN then 1 else 0
  }

  /** The width of the first `k` code points. */
  function WidthTo(s: Text, k: nat): nat
    requires k <= |s|
  {
    if k == 0 then 0 else WidthTo(s, k - 1) + Cells(s[k - 1])
  }

  function Width(s: Text): nat {
    WidthTo(s, |s|)
  }

  /** A wide character takes two cells, a combining one and the soft hyphen U+00AD none, any other one. */
  lemma GlyphWidth(c: Glyph)
    ensures Width([c]) == if c.wide then 2 else if c.zeroWidth || c.code == 0xAD then 0 else 1
  {
    assert WidthTo([c], 0) == 0;
  }

  lemma {:induction false} WidthOfPrefix(s: Text, r: Text, k: nat)
    requires r <= s && k <= |r|
    ensures WidthTo(r, k) == WidthTo(s, k)
    decreases k
  {
    if k == 0 {
    } else {
      WidthOfPrefix(s, r, k - 1);
    }
  }

  lemma {:induction false} WidthAppend(a: Text, b: Text, k: nat)
    requires k <= |b|
    ensures WidthTo(a + b, |a| + k) == Width(a) + WidthTo(b, k)
    decreases k
  {
    if k == 0 {
      WidthOfPrefix(a + b, a, |a|);
    } else {
      WidthAppend(a, b, k - 1);
    }
  }

  lemma {:induction false} WidthGrows(s: Text, j: nat, k: nat)
    requires j <= k <= |s|
    ensures WidthTo(s, j) <= WidthTo(s, k)
    decreases k - j
  {
    if j == k {
    } else {
      WidthGrows(s, j, k - 1);
    }
  }

  // --- where a text may be cut -------------------------------------------------------------------------

  /** The first `k` code points end in a non-space and fit the limit. */
  predicate Fits(s: Text, limit: nat, k: nat) {
    0 < k <= |s| && !s[k - 1].space && WidthTo(s, k) <= limit
  }

  /** The greatest `k` up to `n` that fits, or 0. */
  function LastFit(s: Text, limit: nat, n: nat): (k: nat)
    ensures k <= n && (k > 0 ==> Fits(s, limit, k))
    ensures forall j: nat :: k < j <= n ==> !Fits(s, limit, j)
  {
    if n == 0 then 0 else if Fits(s, limit, n) then n else LastFit(s, limit, n - 1)
  }

  predicate SomeFits(s: Text, limit: nat) {
    LastFit(s, limit, |s|) > 0
  }

  /** The longest prefix that ends in a non-space and fits; all of the text when there is none. */
  function Cut(s: Text, limit: nat): Text {
    if SomeFits(s, limit) then s[..LastFit(s, limit, |s|)] else s
  }

  // --- measuring and truncating ----------------------------------------------------------------------------

  /** Measures the text, and with a limit cuts it. After the last code point the end position is null, so
      a text whose last code point fits is not cut. */
  method MeasureAndTruncate(s: Text, width: Option<nat>) returns (r: Text, total: nat)
    ensures total == Width(s)
    ensures r == if width.Some? then Cut(s, width.value) else s
  {
    total := 0;
    var end: Option<nat> := None;
    for i := 0 to |s|
      invariant total == WidthTo(s, i)
      invariant width.None? ==> end.None?
      invariant width.Some? && !(i > 0 && i == |s| && Fits(s, width.value, i)) ==>
        end == (var k := LastFit(s, width.value, i); if k == 0 then None else Some(k))
      invariant width.Some? && i > 0 && i == |s| && Fits(s, width.value, i) ==> end.None?
    {
      var c := s[i];
      total := total + Cells(c);
      var data := if i + 1 == |s| then None else Some(i + 1);
      if width.Some? && total <= width.value && !c.space {
        end := data;
      }
    }
    r := match end case Some(k) => s[..k] case None => s;
  }

  method Utf8Width(s: Text) returns (w: nat)
    ensures w == Width(s)
  {
    var unused;
    unused, w := MeasureAndTruncate(s, None);
  }

  /** Truncation without passes: too wide a text is cut once, to leave room for the ellipsis, if it can be. */
  function Truncated(s: Text, ellipsis: Text, maxLen: nat): Text {
    if maxLen == 0 then []
    else if Width(s) <= maxLen then Cut(s, maxLen)
    else if maxLen < Width(ellipsis) then []
    else if SomeFits(s, maxLen - Width(ellipsis)) then Cut(s, maxLen - Width(ellipsis)) + ellipsis
    else Cut(s, maxLen) + ellipsis
  }

  method Utf8Truncate(s0: Text, ellipsis: Text, maxLen: nat) returns (s: Text)
    ensures s == Truncated(s0, ellipsis, maxLen)
  {
    if maxLen == 0 {
      return [];
    }
    var len;
    s, len := MeasureAndTruncate(s0, Some(maxLen));
    if len > maxLen {
      var ellipsisLen := Utf8Width(ellipsis);
      if maxLen >= ellipsisLen {
        if ellipsisLen != 0 {
          var unused;
          s, unused := MeasureAndTruncate(s, Some(maxLen - ellipsisLen));
          CutTwice(s0, maxLen, maxLen - ellipsisLen);
        }
        s := s + ellipsis;
      } else {
        s := [];
      }
    }
  }

  /** Cutting to a limit and then to a smaller one is cutting to the smaller one, if that is possible at
      all; otherwise the second pass changes nothing. */
  lemma CutTwice(s: Text, large: nat, small: nat)
    requires small <= large
    ensures Cut(Cut(s, large), small) == if SomeFits(s, small) then Cut(s, small) else Cut(s, large)
  {
    var first := Cut(s, large);
    forall k: nat ensures Fits(s, small, k) <==> Fits(first, small, k) {
      if Fits(s, small, k) {
        assert Fits(s, large, k);
        assert k <= |first|;
      }
      if k <= |first| {
        WidthOfPrefix(s, first, k);
      }
    }
    if SomeFits(s, small) {
      assert Fits(first, small, LastFit(s, small, |s|));
    }
    if SomeFits(first, small) {
      assert Fits(s, small, LastFit(first, small, |first|));
    }
  }

  // --- what the result is worth --------------------------------------------------------------------------------

  /** The cut is the longest prefix, and the widest, that ends in a non-space within the limit. */
  lemma CutIsLongest(s: Text, limit: nat, k: nat)
    requires Fits(s, limit, k)
    ensures var r := Cut(s, limit);
      && s[..k] <= r <= s && r != [] && !r[|r| - 1].space
      && WidthTo(s, k) <= Width(r) <= limit
  {
    var n := LastFit(s, limit, |s|);
    WidthGrows(s, k, n);
    WidthOfPrefix(s, s[..n], n);
  }

  lemma CutWidth(s: Text, limit: nat)
    ensures Cut(s, limit) <= s && Width(Cut(s, limit)) <= Width(s)
    ensures var r := Cut(s, limit);
      SomeFits(s, limit) <==> Width(r) <= limit && r != [] && !r[|r| - 1].space
  {
    var r := Cut(s, limit);
    WidthOfPrefix(s, r, |r|);
    WidthGrows(s, |r|, |s|);
  }

  /** Too wide a text, with room for the ellipsis after some non-space: the longest such prefix and the
      ellipsis, within the limit. */
  lemma TruncatedWithEllipsis(s: Text, ellipsis: Text, maxLen: nat, k: nat)
    requires 0 < maxLen < Width(s) && Width(ellipsis) <= maxLen && Fits(s, maxLen - Width(ellipsis), k)
    ensures var cut := Cut(s, maxLen - Width(ellipsis));
      && Truncated(s, ellipsis, maxLen) == cut + ellipsis
      && s[..k] <= cut <= s && !cut[|cut| - 1].space
      && Width(cut + ellipsis) == Width(cut) + Width(ellipsis) <= maxLen
  {
    var cut := Cut(s, maxLen - Width(ellipsis));
    CutIsLongest(s, maxLen - Width(ellipsis), k);
    WidthAppend(cut, ellipsis, |ellipsis|);
  }

  /** Exactly when the result stays within the limit. The case left out is the one the code gets wrong: the
      text is too wide, the ellipsis fits, and yet no non-space ends early enough to leave room for it. */
  lemma WithinLimit(s: Text, ellipsis: Text, maxLen: nat)
    ensures Width(Truncated(s, ellipsis, maxLen)) <= maxLen <==>
            maxLen == 0 || Width(s) <= maxLen || maxLen < Width(ellipsis) || SomeFits(s, maxLen - Width(ellipsis))
  {
    if maxLen == 0 {
    } else if Width(s) <= maxLen {
      CutWidth(s, maxLen);
    } else if Width(ellipsis) <= maxLen {
      var small := maxLen - Width(ellipsis);
      if SomeFits(s, small) {
        TruncatedWithEllipsis(s, ellipsis, maxLen, LastFit(s, small, |s|));
      } else {
        var cut := Cut(s, maxLen);
        WidthAppend(cut, ellipsis, |ellipsis|);
        if SomeFits(s, maxLen) {
          WidthOfPrefix(s, cut, |cut|);
          assert !Fits(s, small, |cut|);
        }
      }
    }
  }

  /** A text that is not too wide loses trailing spaces at most, and all of them unless it is nothing else. */
  lemma FittingTextKeepsItsWords(s: Text, ellipsis: Text, maxLen: nat)
    requires 0 < maxLen && Width(s) <= maxLen
    ensures var r := Truncated(s, ellipsis, maxLen);
      && r <= s && (forall i :: |r| <= i < |s| ==> s[i].space)
      && (r == s || (r != [] && !r[|r| - 1].space))
  {
    CutWidth(s, maxLen);
    var r := Cut(s, maxLen);
    forall i | |r| <= i < |s| ensures s[i].space {
      WidthGrows(s, i + 1, |s|);
      assert !Fits(s, maxLen, i + 1);
    }
  }

  /** Two wide characters against a limit of one: the whole text is kept, and the ellipsis added. */
  lemma EllipsisCanOverflow()
    ensures exists s: Text, ellipsis: Text :: Width(ellipsis) == 1 && Width(Truncated(s, ellipsis, 1)) > 1
  {
    var wide, dots := Glyph(0x3042, true, false, false), Glyph(0x2026, false, false, false);
    var s, ellipsis := [wide, wide], [dots];
    assert WidthTo(ellipsis, 0) == WidthTo(s, 0) == 0;
    assert WidthTo(ellipsis, 1) == 1 && WidthTo(s, 1) == 2 && WidthTo(s, 2) == 4;
    WithinLimit(s, ellipsis, 1);
  }
}
