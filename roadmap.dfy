/**
  The roadmap's phase navigator: a cursor `activePhase` over the four fixed
  phases, moved by clicking a node or by the Previous / Next Phase buttons,
  and the views derived from it (progress bar width, node status, disabled
  buttons, node labels).
 */
module Roadmap {
  import opened JsString

  datatype Phase = Phase(id: string, number: nat, title: string, timeline: string, color: string, points: seq<string>)

  const Phases: seq<Phase> := [
    Phase("phase1", 1, "Foundation & Infrastructure Setup", "0-6 months", "from-indigo-500 to-purple-600",
          ["Establish AI research and development frameworks",
           "Build initial service prototypes",
           "Develop partnerships and outreach strategies"]),
    Phase("phase2", 2, "Product & Service Expansion", "6-12 months", "from-blue-500 to-purple-500",
          ["Launch MVP AI solutions",
           "Scale AI automation services",
           "Refine business model based on client feedback"]),
    Phase("phase3", 3, "Market Penetration & Growth", "1-2 years", "from-indigo-600 to-blue-500",
          ["Expand subscription-based AI service offerings",
           "Develop strategic collaborations with enterprises",
           "Invest in AI model improvements and R&D"]),
    Phase("phase4", 4, "Global Scaling & Innovation", "2+ years", "from-purple-600 to-indigo-500",
          ["Position MIT as a global AI automation leader",
           "Launch AI education initiatives to drive adoption",
           "Develop next-gen AI capabilities for cutting-edge solutions"])
  ]

  /** How a phase node is drawn. */
  datatype NodeStatus = Completed | Active | Inactive

  /** The Previous button is disabled on the first phase. */
  predicate PrevDisabled(p: int)
  {
    p == 0
  }

  /** The Next Phase button is disabled on the last phase. */
  predicate NextDisabled(p: int)
  {
    p == |Phases| - 1
  }

  /**
    The two buttons are never disabled together, and on every phase strictly
    between the first and the last both are enabled.
   */
  lemma ButtonsDisabledOnlyAtEnds(p: int)
    requires 0 <= p < |Phases|
    ensures !(PrevDisabled(p) && NextDisabled(p))
    ensures 0 < p < |Phases| - 1 ==> !PrevDisabled(p) && !NextDisabled(p)
  {
  }

  /** `goToNextPhase`: advance unless already on the last phase. */
  function NextPhase(p: int): (q: int)
    requires 0 <= p < |Phases|
    ensures 0 <= q < |Phases|
    ensures q != p <==> !NextDisabled(p)
    ensures q != p ==> q == p + 1
  {
    if p < |Phases| - 1 then p + 1 else p
  }

  /** `goToPrevPhase`: go back unless already on the first phase. */
  function PrevPhase(p: int): (q: int)
    requires 0 <= p < |Phases|
    ensures 0 <= q < |Phases|
    ensures q != p <==> !PrevDisabled(p)
    ensures q != p ==> q == p - 1
  {
    if p > 0 then p - 1 else p
  }

  /** From any phase but the last, Next then Previous comes back. */
  lemma PrevAfterNext(p: int)
    requires 0 <= p < |Phases| - 1
    ensures PrevPhase(NextPhase(p)) == p
  {
  }

  /** From any phase but the first, Previous then Next comes back. */
  lemma NextAfterPrev(p: int)
    requires 0 < p < |Phases|
    ensures NextPhase(PrevPhase(p)) == p
  {
  }

  /** The width of the progress bar, in percent. */
  function ProgressWidth(p: int): int
  {
    (p + 1) * 25
  }

  /** The bar fills a quarter per phase reached: 25 on the first phase, full on the last. */
  lemma ProgressBounds(p: int, q: int)
    requires 0 <= p < |Phases| && 0 <= q < |Phases|
    ensures 25 <= ProgressWidth(p) <= 100
    ensures ProgressWidth(p) == 100 * (p + 1) / |Phases|
    ensures ProgressWidth(p) == 100 <==> NextDisabled(p)
    ensures p < q <==> ProgressWidth(p) < ProgressWidth(q)
  {
  }

  /** Node `i` is completed before the active phase, active on it, inactive after it. */
  function Status(i: int, p: int): NodeStatus
  {
    if i == p then Active else if i < p then Completed else Inactive
  }

  /** A node is highlighted (glowing border, grid, scanner) when its index is at most the active phase. */
  predicate Highlighted(i: int, p: int)
  {
    i <= p
  }

  /** The highlighted nodes are exactly the completed ones and the active one. */
  lemma HighlightedIffReached(i: int, p: int)
    ensures Highlighted(i, p) <==> Status(i, p) != Inactive
  {
  }

  /** Exactly one node, the active phase, is drawn as active. */
  lemma OneActiveNode(p: int)
    requires 0 <= p < |Phases|
    ensures (set i | 0 <= i < |Phases| && Status(i, p) == Active) == {p}
  {
    var s := set i | 0 <= i < |Phases| && Status(i, p) == Active;
    assert p in s;
  }

  /** The indices `0 .. n-1`. */
  function Indices(n: nat): (r: set<int>)
    ensures forall i :: i in r <==> 0 <= i < n
  {
    if n == 0 then {} else Indices(n - 1) + {n - 1}
  }

  /** There are `n` indices below `n`. */
  lemma {:induction false} IndicesSize(n: nat)
    ensures |Indices(n)| == n
  {
    if n > 0 {
      IndicesSize(n - 1);
      assert n - 1 !in Indices(n - 1);
    }
  }

  /** As many nodes are completed as there are phases before the active one. */
  lemma CompletedCount(p: int)
    requires 0 <= p < |Phases|
    ensures |set i | 0 <= i < |Phases| && Status(i, p) == Completed| == p
  {
    assert (set i | 0 <= i < |Phases| && Status(i, p) == Completed) == Indices(p);
    IndicesSize(p);
  }

  /** A node's label: the first two space-separated words of its phase title. */
  function TitleLabel(title: string): (r: string)
    // the label is the start of the title, and the whole title when it has at most two words
    ensures r <= title
    ensures |Split(title, ' ')| <= 2 ==> r == title
  {
    JoinTakePrefix(Split(title, ' '), 2, ' ');
    JoinSplit(title, ' ');
    Join(Take(Split(title, ' '), 2), ' ')
  }

  /** Joining the first `n` pieces gives a prefix of joining them all. */
  lemma {:induction false} JoinTakePrefix(parts: seq<string>, n: nat, sep: char)
    ensures Join(Take(parts, n), sep) <= Join(parts, sep)
  {
    if n > 0 && |parts| > n {
      if n > 1 {
        JoinTakePrefix(parts[1..], n - 1, sep);
        assert Take(parts, n)[1..] == Take(parts[1..], n - 1);
        JoinCons(parts[0], Take(parts[1..], n - 1), sep);
        assert [parts[0]] + Take(parts[1..], n - 1) == Take(parts, n);
        JoinCons(parts[0], parts[1..], sep);
        assert [parts[0]] + parts[1..] == parts;
      } else {
        JoinCons(parts[0], parts[1..], sep);
        assert [parts[0]] + parts[1..] == parts;
      }
    }
  }

  /** When a title has at least three words, its label is its first two words and the space between them. */
  lemma LabelOfTwoWords(w1: string, w2: string, rest: string)
    requires ' ' !in w1 && ' ' !in w2
    ensures TitleLabel(w1 + " " + w2 + " " + rest) == w1 + " " + w2
  {
    SplitAfterWord(w2, ' ', rest);
    assert w1 + " " + w2 + " " + rest == w1 + [' '] + (w2 + [' '] + rest);
    SplitAfterWord(w1, ' ', w2 + [' '] + rest);
    var parts := [w1] + ([w2] + Split(rest, ' '));
    assert Split(w1 + " " + w2 + " " + rest, ' ') == parts;
    assert Take(parts, 2) == [w1, w2];
    assert Join([w1, w2], ' ') == w1 + [' '] + Join([w2], ' ');
    assert " " == [' '];
  }

  /** The four phase titles. */
  lemma PhaseTitles(k: nat)
    requires k < |Phases|
    ensures Phases[k].title == ["Foundation & Infrastructure Setup", "Product & Service Expansion",
                                "Market Penetration & Growth", "Global Scaling & Innovation"][k]
  {
  }

  /** "Foundation & Infrastructure Setup" as its two leading words, a space and the rest. */
  lemma FoundationTitleWords()
    ensures "Foundation & Infrastructure Setup" == "Foundation" + " " + "&" + " " + "Infrastructure Setup"
  {
  }

  /** "Product & Service Expansion" as its two leading words, a space and the rest. */
  lemma ProductTitleWords()
    ensures "Product & Service Expansion" == "Product" + " " + "&" + " " + "Service Expansion"
  {
  }

  /** "Market Penetration & Growth" as its two leading words, a space and the rest. */
  lemma MarketTitleWords()
    ensures "Market Penetration & Growth" == "Market" + " " + "Penetration" + " " + "& Growth"
  {
  }

  /** "Global Scaling & Innovation" as its two leading words, a space and the rest. */
  lemma GlobalTitleWords()
    ensures "Global Scaling & Innovation" == "Global" + " " + "Scaling" + " " + "& Innovation"
  {
  }

  /** The leading words contain no space. */
  lemma LeadingWordsHaveNoSpace()
    ensures ' ' !in "Foundation" && ' ' !in "&" && ' ' !in "Product"
    ensures ' ' !in "Market" && ' ' !in "Penetration" && ' ' !in "Global" && ' ' !in "Scaling"
  {
  }

  /**
    Each phase title starts with two space-free words followed by a space, so
    (by LabelOfTwoWords) the nodes read "Foundation &", "Product &",
    "Market Penetration" and "Global Scaling".
   */
  lemma PhaseTitleWords(k: nat)
    requires k < |Phases|
    ensures var w := [("Foundation", "&", "Infrastructure Setup"), ("Product", "&", "Service Expansion"),
                      ("Market", "Penetration", "& Growth"), ("Global", "Scaling", "& Innovation")][k];
      ' ' !in w.0 && ' ' !in w.1 && Phases[k].title == w.0 + " " + w.1 + " " + w.2
  {
    PhaseTitles(k);
    FoundationTitleWords();
    ProductTitleWords();
    MarketTitleWords();
    GlobalTitleWords();
    LeadingWordsHaveNoSpace();
  }

  /** The label under node `k`: "Foundation &", "Product &", "Market Penetration", "Global Scaling". */
  lemma NodeLabels(k: nat)
    requires k < |Phases|
    ensures var w := [("Foundation", "&"), ("Product", "&"), ("Market", "Penetration"), ("Global", "Scaling")][k];
      TitleLabel(Phases[k].title) == w.0 + " " + w.1
  {
    PhaseTitleWords(k);
    var w := [("Foundation", "&", "Infrastructure Setup"), ("Product", "&", "Service Expansion"),
              ("Market", "Penetration", "& Growth"), ("Global", "Scaling", "& Innovation")][k];
    LabelOfTwoWords(w.0, w.1, w.2);
  }

  /** The component's state: the index of the phase on display. */
  class Navigator {
    var activePhase: int

    ghost predicate Valid()
      reads this
    {
      0 <= activePhase < |Phases|
    }

    /** The roadmap opens on the first phase. */
    constructor ()
      ensures Valid() && activePhase == 0
      ensures PrevDisabled(activePhase) && !NextDisabled(activePhase)
    {
      activePhase := 0;
    }

    /** Clicking node `index` jumps straight to that phase. */
    method HandlePhaseClick(index: int)
      requires 0 <= index < |Phases|
      modifies this
      ensures Valid() && activePhase == index
    {
      activePhase := index;
    }

    /** The Next Phase button. */
    method GoToNextPhase()
      requires Valid()
      modifies this
      ensures Valid() && activePhase == NextPhase(old(activePhase))
      ensures old(activePhase) < |Phases| - 1 ==> activePhase == old(activePhase) + 1
      ensures NextDisabled(old(activePhase)) ==> activePhase == old(activePhase)
    {
      if activePhase < |Phases| - 1 {
        activePhase := activePhase + 1;
      }
    }

    /** The Previous button. */
    method GoToPrevPhase()
      requires Valid()
      modifies this
      ensures Valid() && activePhase == PrevPhase(old(activePhase))
      ensures old(activePhase) > 0 ==> activePhase == old(activePhase) - 1
      ensures PrevDisabled(old(activePhase)) ==> activePhase == old(activePhase)
    {
      if activePhase > 0 {
        activePhase := activePhase - 1;
      }
    }

    /** The phase whose content is shown. */
    function Current(): (ph: Phase)
      reads this
      requires Valid()
      ensures ph in Phases && ph.number == activePhase + 1
    {
      Phases[activePhase]
    }
  }
}
