/** `cssGradient`: the Tailwind class list for a linear background gradient. */
module Utils {
  import opened JsString

  const GradientPrefix := "bg-gradient-to-"

  /**
    `bg-gradient-to-<direction> from-<from> to-<to>`; the direction defaults
    to `r` (left to right).
   */
  function CssGradient(from: string, to: string, direction: string := "r"): (r: string)
    ensures |r| == 25 + |direction| + |from| + |to|
    ensures r[..|GradientPrefix|] == GradientPrefix
  {
    GradientPrefix + direction + " from-" + from + " to-" + to
  }

  /**
    When the colours and the direction are single tokens, the result is
    exactly three classes: the direction, the start colour and the end colour.
   */
  lemma GradientClasses(from: string, to: string, direction: string)
    requires ' ' !in from && ' ' !in to && ' ' !in direction
    ensures Split(CssGradient(from, to, direction), ' ') == [GradientPrefix + direction, "from-" + from, "to-" + to]
  {
    var c1, c2, c3 := GradientPrefix + direction, "from-" + from, "to-" + to;
    assert ' ' !in GradientPrefix && ' ' !in "from-" && ' ' !in "to-";
    assert ' ' !in c1 && ' ' !in c2 && ' ' !in c3;
    assert CssGradient(from, to, direction) == c1 + [' '] + (c2 + [' '] + c3);
    SplitWord(c3, ' ');
    SplitAfterWord(c2, ' ', c3);
    SplitAfterWord(c1, ' ', c2 + [' '] + c3);
  }

  /** Without a direction the gradient runs to the right, whatever the colours are. */
  lemma DefaultDirection(from: string, to: string)
    ensures CssGradient(from, to) == CssGradient(from, to, "r")
    ensures Split(CssGradient(from, to), ' ')[0] == "bg-gradient-to-r"
  {
    var rest := "from-" + from + " to-" + to;
    assert ' ' !in "bg-gradient-to-r";
    assert CssGradient(from, to) == "bg-gradient-to-r" + [' '] + rest;
    SplitAfterWord("bg-gradient-to-r", ' ', rest);
  }

  /** Different single-token arguments give different class lists. */
  lemma GradientInjective(from: string, to: string, direction: string, from': string, to': string, direction': string)
    requires ' ' !in from && ' ' !in to && ' ' !in direction
    requires ' ' !in from' && ' ' !in to' && ' ' !in direction'
    requires CssGradient(from, to, direction) == CssGradient(from', to', direction')
    ensures from == from' && to == to' && direction == direction'
  {
    GradientClasses(from, to, direction);
    GradientClasses(from', to', direction');
    var p := GradientPrefix + direction;
    var p' := GradientPrefix + direction';
    assert p[|GradientPrefix|..] == direction && p'[|GradientPrefix|..] == direction';
    var f, f' := "from-" + from, "from-" + from';
    assert f[5..] == from && f'[5..] == from';
    var t, t' := "to-" + to, "to-" + to';
    assert t[3..] == to && t'[3..] == to';
  }
}
