/**
 * The indicator markup `addDots` inserts into the container: a `shopBullet_dots`
 * block holding one `shopBullet_dot` span per image, the first one active.
 */
module Markup {
  import opened Wrappers

  // ---------------------------------------------------------------------------
  // Decimal numerals, as a template literal writes `${n}` for a non-negative integer

  predicate IsDigits(s: string)
  {
    forall k :: 0 <= k < |s| ==> '0' <= s[k] <= '9'
  }

  function Digit(d: nat): (c: char)
    requires d < 10
    ensures '0' <= c <= '9'
  {
    (d + '0' as int) as char
  }

  function DigitValue(c: char): (d: nat)
    requires '0' <= c <= '9'
    ensures d < 10
  {
    c as int - '0' as int
  }

  /** The shortest decimal numeral of `n`. */
  function DecimalString(n: nat): (s: string)
    ensures |s| > 0 && IsDigits(s)
    ensures s[0] == '0' ==> n == 0
  {
    if n < 10 then [Digit(n)] else DecimalString(n / 10) + [Digit(n % 10)]
  }

  /** The value of a decimal numeral, most significant digit first. */
  function DecimalValue(s: string): nat
    requires IsDigits(s)
  {
    if s == [] then 0 else DecimalValue(s[..|s| - 1]) * 10 + DigitValue(s[|s| - 1])
  }

  /** Reading back the numeral written for `n` gives `n`. */
  lemma {:induction false} DecimalRoundTrip(n: nat)
    ensures DecimalValue(DecimalString(n)) == n
  {
    var s := DecimalString(n);
    if n < 10 {
      assert s[..|s| - 1] == [];
    } else {
      DecimalRoundTrip(n / 10);
      assert s[..|s| - 1] == DecimalString(n / 10);
    }
  }

  // ---------------------------------------------------------------------------
  // One indicator span

  const SpanOpen: string := "<span class=\"shopBullet_dot"
  const ActiveMark: string := " active"
  const IndexAttr: string := "\" data-index=\""
  const SpanClose: string := "\"></span>"

  /** `<span class="shopBullet_dot[ active]" data-index="<index>"></span>` */
  function DotSpan(index: nat, active: bool): string
  {
    SpanOpen + (if active then ActiveMark else "") + IndexAttr + DecimalString(index) + SpanClose
  }

  /** Reads a span back into its `data-index` and whether it carries the `active` class. */
  function ParseSpan(s: string): Option<(nat, bool)>
  {
    if |s| < |SpanOpen| || s[..|SpanOpen|] != SpanOpen then None
    else
      var rest := s[|SpanOpen|..];
      var active := |rest| >= |ActiveMark| && rest[..|ActiveMark|] == ActiveMark;
      var tail := if active then rest[|ActiveMark|..] else rest;
      if |tail| < |IndexAttr| + |SpanClose| || tail[..|IndexAttr|] != IndexAttr
         || tail[|tail| - |SpanClose|..] != SpanClose then None
      else
        var digits := tail[|IndexAttr|..|tail| - |SpanClose|];
        if digits != [] && IsDigits(digits) then Some((DecimalValue(digits), active)) else None
  }

  /** Every span decodes to the index and the activity it was written with. */
  lemma DotSpanParses(index: nat, active: bool)
    ensures ParseSpan(DotSpan(index, active)) == Some((index, active))
  {
    var d := DecimalString(index);
    var mark := if active then ActiveMark else "";
    var s := DotSpan(index, active);
    assert s == SpanOpen + (mark + IndexAttr + d + SpanClose);
    assert s[..|SpanOpen|] == SpanOpen;
    var rest := s[|SpanOpen|..];
    assert rest == mark + (IndexAttr + d + SpanClose);
    if active {
      assert rest[..|ActiveMark|] == ActiveMark;
    } else {
      assert rest[0] == '"';
    }
    var tail := IndexAttr + d + SpanClose;
    assert tail[..|IndexAttr|] == IndexAttr;
    assert tail[|tail| - |SpanClose|..] == SpanClose;
    assert tail[|IndexAttr|..|tail| - |SpanClose|] == d;
    DecimalRoundTrip(index);
  }

  // ---------------------------------------------------------------------------
  // The whole block

  const DotsPrefix: string := "<div class=\"shopBullet_dots\" "
  const StylePrefix: string := "style='--bullet-hover:"
  const CloseTag: string := "</div>"

  /** The `colorVariable` attribute text: empty when no hover colour is configured. */
  function ColorVariable(bulletHover: string): string
  {
    if bulletHover != "" then StylePrefix + bulletHover + "'" else ""
  }

  function OpenTag(bulletHover: string): string
  {
    DotsPrefix + ColorVariable(bulletHover) + ">"
  }

  /** Reads the hover colour back out of an opening tag; `Some("")` means no style attribute. */
  function ParseHover(tag: string): Option<string>
  {
    if |tag| < |DotsPrefix| + 1 || tag[..|DotsPrefix|] != DotsPrefix || tag[|tag| - 1] != '>' then None
    else
      var attr := tag[|DotsPrefix|..|tag| - 1];
      if attr == "" then Some("")
      else if |attr| > |StylePrefix| && attr[..|StylePrefix|] == StylePrefix && attr[|attr| - 1] == '\'' then
        Some(attr[|StylePrefix|..|attr| - 1])
      else None
  }

  /**
   * The opening tag carries the `--bullet-hover` style attribute exactly when a
   * hover colour is configured, and that attribute holds the colour.
   */
  lemma HoverAttribute(bulletHover: string)
    ensures ParseHover(OpenTag(bulletHover)) == Some(bulletHover)
    ensures var tag := OpenTag(bulletHover);
      (|tag| >= |DotsPrefix| + |StylePrefix| &&
       tag[|DotsPrefix|..|DotsPrefix| + |StylePrefix|] == StylePrefix) <==> bulletHover != ""
  {
  }

  /** Concatenation of the parts in order, accumulated left to right as `+=` does. */
  function Concat(parts: seq<string>): string
  {
    if parts == [] then "" else Concat(parts[..|parts| - 1]) + parts[|parts| - 1]
  }

  lemma {:induction false} ConcatCons(head: string, parts: seq<string>)
    ensures Concat([head] + parts) == head + Concat(parts)
    decreases |parts|
  {
    if parts == [] {
      assert ([head] + parts)[..0] == [];
    } else {
      var init := parts[..|parts| - 1];
      assert ([head] + parts)[..|parts|] == [head] + init;
      ConcatCons(head, init);
    }
  }

  /** The spans for `nums` images, in position order: only the first is active. */
  function SpanList(nums: nat): (r: seq<string>)
    ensures |r| == nums
  {
    seq(nums, i requires 0 <= i < nums => DotSpan(i, i == 0))
  }

  /**
   * The markup for `nums` images as a single formula, or `None` when there are no
   * images and nothing is inserted.
   */
  function DotsHtml(nums: nat, bulletHover: string): Option<string>
  {
    if nums == 0 then None else Some(OpenTag(bulletHover) + Concat(SpanList(nums)) + CloseTag)
  }

  /**
   * `addDots`: the markup with its separate one-image and many-image branches and
   * the loop over the positions after the first; it agrees with the uniform formula.
   */
  method AddDots(nums: nat, bulletHover: string) returns (html: Option<string>)
    ensures html == DotsHtml(nums, bulletHover)
  {
    var colorVariable := "";
    if bulletHover != "" {
      colorVariable := StylePrefix + bulletHover + "'";
    }
    var s := DotsPrefix + colorVariable + ">";
    assert s == OpenTag(bulletHover);
    if nums == 0 {
      return None;
    } else if nums == 1 {
      assert SpanList(1) == [DotSpan(0, true)];
      assert SpanList(1)[..0] == [];
      assert Concat(SpanList(1)) == DotSpan(0, true);
      s := s + DotSpan(0, true);
    } else {
      var extraListHtml := "";
      var n := 1;
      while n < nums
        invariant 1 <= n <= nums
        invariant extraListHtml == Concat(SpanList(n)[1..])
      {
        assert SpanList(n + 1)[1..][..n - 1] == SpanList(n)[1..];
        extraListHtml := extraListHtml + DotSpan(n, false);
        n := n + 1;
      }
      assert SpanList(nums) == [DotSpan(0, true)] + SpanList(nums)[1..];
      ConcatCons(DotSpan(0, true), SpanList(nums)[1..]);
      s := s + DotSpan(0, true) + extraListHtml;
      assert s == OpenTag(bulletHover) + Concat(SpanList(nums));
    }
    s := s + CloseTag;
    html := Some(s);
  }

  /**
   * The markup's shape: nothing without images; otherwise the opening tag, one span per
   * image whose `data-index` is its position and which is active only at position 0,
   * and the closing tag.
   */
  lemma DotsHtmlShape(nums: nat, bulletHover: string)
    ensures DotsHtml(nums, bulletHover).None? <==> nums == 0
    ensures nums > 0 ==>
              DotsHtml(nums, bulletHover).value == OpenTag(bulletHover) + Concat(SpanList(nums)) + CloseTag
    ensures forall i :: 0 <= i < nums ==> ParseSpan(SpanList(nums)[i]) == Some((i, i == 0))
  {
    forall i | 0 <= i < nums
      ensures ParseSpan(SpanList(nums)[i]) == Some((i, i == 0))
    {
      DotSpanParses(i, i == 0);
    }
  }
}
