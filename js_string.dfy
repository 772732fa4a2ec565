/**
  The JavaScript chain the site uses to shorten a title, for a one-character
  separator: `String.prototype.split(sep)`, then `Array.prototype.slice(0, n)`
  and `Array.prototype.join(sep)` on the resulting array of pieces.
 */
module JsString {

  /**
    `s.split(sep)`: the pieces of `s` between occurrences of `sep`. Empty
    pieces are kept, and there is always at least one piece
    (`"".split(" ")` is `[""]`).
   */
  function Split(s: string, sep: char): (parts: seq<string>)
    ensures |parts| >= 1
    ensures forall i :: 0 <= i < |parts| ==> sep !in parts[i]
  {
    SplitFrom(s, sep, "")
  }

  /** Splitting `s` when the piece being scanned already holds `piece`. */
  function SplitFrom(s: string, sep: char, piece: string): (parts: seq<string>)
    requires sep !in piece
    ensures |parts| >= 1
    ensures forall i :: 0 <= i < |parts| ==> sep !in parts[i]
  {
    if |s| == 0 then [piece]
    else if s[0] == sep then [piece] + SplitFrom(s[1..], sep, "")
    else SplitFrom(s[1..], sep, piece + [s[0]])
  }

  /** `parts.join(sep)`: the pieces with `sep` between neighbours (`[].join(" ")` is `""`). */
  function Join(parts: seq<string>, sep: char): (r: string)
    // the joined string starts with the first piece, and holds a separator unless it is one piece
    ensures |parts| >= 1 ==> parts[0] <= r
    ensures |parts| >= 2 ==> sep in r
  {
    if |parts| == 0 then ""
    else if |parts| == 1 then parts[0]
    else parts[0] + [sep] + Join(parts[1..], sep)
  }

  /** `parts.slice(0, n)`: the first `n` pieces, or all of them when there are fewer. */
  function Take(parts: seq<string>, n: nat): (r: seq<string>)
    ensures |r| == if |parts| < n then |parts| else n
    ensures forall i :: 0 <= i < |r| ==> r[i] == parts[i]
  {
    if |parts| <= n then parts else parts[..n]
  }

  /** Joining a list that has more than one piece puts the separator after the first. */
  lemma JoinCons(x: string, rest: seq<string>, sep: char)
    requires |rest| >= 1
    ensures Join([x] + rest, sep) == x + [sep] + Join(rest, sep)
  {
    assert ([x] + rest)[1..] == rest;
  }

  /** Joining the pieces of a split gives back what was scanned. */
  lemma {:induction false} JoinSplitFrom(s: string, sep: char, piece: string)
    requires sep !in piece
    ensures Join(SplitFrom(s, sep, piece), sep) == piece + s
  {
    if |s| > 0 {
      if s[0] == sep {
        var rest := SplitFrom(s[1..], sep, "");
        JoinSplitFrom(s[1..], sep, "");
        JoinCons(piece, rest, sep);
      } else {
        JoinSplitFrom(s[1..], sep, piece + [s[0]]);
      }
      assert s == [s[0]] + s[1..];
    }
  }

  /** Joining the pieces of a split gives back the original string. */
  lemma JoinSplit(s: string, sep: char)
    ensures Join(Split(s, sep), sep) == s
  {
    JoinSplitFrom(s, sep, "");
  }

  /** Scanning a separator-free word extends the current piece by it. */
  lemma {:induction false} SplitFromWord(w: string, sep: char, piece: string, rest: string)
    requires sep !in piece && sep !in w
    ensures SplitFrom(w + rest, sep, piece) == SplitFrom(rest, sep, piece + w)
  {
    if |w| > 0 {
      assert (w + rest)[0] == w[0] && (w + rest)[1..] == w[1..] + rest;
      SplitFromWord(w[1..], sep, piece + [w[0]], rest);
      assert piece + [w[0]] + w[1..] == piece + w;
    } else {
      assert w + rest == rest && piece + w == piece;
    }
  }

  /** A separator-free word followed by the separator splits off as the first piece. */
  lemma SplitAfterWord(w: string, sep: char, rest: string)
    requires sep !in w
    ensures Split(w + [sep] + rest, sep) == [w] + Split(rest, sep)
  {
    SplitFromWord(w, sep, "", [sep] + rest);
    assert w + [sep] + rest == w + ([sep] + rest);
    assert ([sep] + rest)[1..] == rest;
    assert "" + w == w;
  }

  /** A string with no separator in it splits into itself alone. */
  lemma SplitWord(w: string, sep: char)
    requires sep !in w
    ensures Split(w, sep) == [w]
  {
    SplitFromWord(w, sep, "", "");
    assert w + "" == w && "" + w == w;
  }
}
