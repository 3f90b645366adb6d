/**
 * The text normaliser of the `add` command: the argument words are joined
 * with single spaces, then one leading and one trailing quote character
 * (`"` or `'`) are cut off, independently of each other.
 */
module Text {

  /** The two characters the normaliser treats as quotes. */
  predicate IsQuote(c: char)
  {
    c == '"' || c == '\''
  }

  /** The words separated by single spaces; the empty list joins to "". */
  function Join(words: seq<string>): (r: string)
    ensures |words| > 0 ==> words[0] <= r
    ensures |words| > 1 ==> |r| > |words[0]| && r[|words[0]|] == ' '
  {
    if |words| == 0 then ""
    else if |words| == 1 then words[0]
    else words[0] + " " + Join(words[1..])
  }

  /**
   * The inverse of Join: the pieces of `s` between single spaces, as a split
   * on " " gives them (always at least one piece).
   */
  function Split(s: string): (r: seq<string>)
    ensures |r| >= 1
  {
    if |s| == 0 then [""]
    else
      var rest := Split(s[1..]);
      if s[0] == ' ' then [""] + rest else [[s[0]] + rest[0]] + rest[1..]
  }

  /** A word with no space splits to itself, and so does what follows it. */
  lemma {:induction false} SplitWord(w: string, t: string)
    requires ' ' !in w
    ensures Split(w) == [w]
    ensures Split(w + " " + t) == [w] + Split(t)
  {
    if |w| == 0 {
      assert w + " " + t == [' '] + t;
      assert ([' '] + t)[1..] == t;
    } else {
      assert ' ' !in w[1..] by {
        assert forall c :: c in w[1..] ==> c in w;
      }
      SplitWord(w[1..], t);
      assert (w + " " + t)[1..] == w[1..] + " " + t;
      assert [w[0]] + w[1..] == w;
    }
  }

  /** Joining is lossless when no word holds a space: splitting gives the words back. */
  lemma {:induction false} SplitJoin(words: seq<string>)
    requires |words| > 0
    requires forall i :: 0 <= i < |words| ==> ' ' !in words[i]
    ensures Split(Join(words)) == words
  {
    if |words| == 1 {
      SplitWord(words[0], "");
    } else {
      SplitJoin(words[1..]);
      SplitWord(words[0], Join(words[1..]));
      assert [words[0]] + words[1..] == words;
    }
  }

  /** One leading quote cut off, then one trailing quote of what is left. */
  function StripQuotes(s: string): (r: string)
    ensures |r| <= |s| <= |r| + 2
    ensures |s| > 0 && !IsQuote(s[0]) ==> r <= s
    ensures |s| > 0 && !IsQuote(s[|s| - 1]) ==> r == s[|s| - |r|..]
  {
    var t := if |s| > 0 && IsQuote(s[0]) then s[1..] else s;
    if |t| > 0 && IsQuote(t[|t| - 1]) then t[..|t| - 1] else t
  }

  /** Quotes at both ends go, whether or not they match; the interior stays, quotes included. */
  lemma StripBothEnds(open: char, t: string, close: char)
    requires IsQuote(open) && IsQuote(close)
    ensures StripQuotes([open] + t + [close]) == t
  {
    var s := [open] + t + [close];
    assert s[1..] == t + [close];
    assert (t + [close])[..|t|] == t;
  }

  /** Only a leading quote: only it goes. */
  lemma StripLeadingOnly(open: char, t: string)
    requires IsQuote(open)
    requires t == [] || !IsQuote(t[|t| - 1])
    ensures StripQuotes([open] + t) == t
  {
    assert ([open] + t)[1..] == t;
  }

  /** Only a trailing quote: only it goes (a lone quote character leaves ""). */
  lemma StripTrailingOnly(t: string, close: char)
    requires IsQuote(close)
    requires t == [] || !IsQuote(t[0])
    ensures StripQuotes(t + [close]) == t
  {
    if t != [] {
      assert (t + [close])[0] == t[0];
      assert (t + [close])[..|t|] == t;
    }
  }

  /** Text that neither starts nor ends with a quote is left as it is. */
  lemma StripNeither(t: string)
    requires t == [] || (!IsQuote(t[0]) && !IsQuote(t[|t| - 1]))
    ensures StripQuotes(t) == t
  {
  }

  /** At most one quote goes from each end: doubled quotes keep their inner half. */
  lemma StripOnlyOne(q: char, t: string)
    requires IsQuote(q)
    ensures StripQuotes([q, q] + t + [q, q]) == [q] + t + [q]
  {
    assert [q, q] + t + [q, q] == [q] + ([q] + t + [q]) + [q];
    StripBothEnds(q, [q] + t + [q], q);
  }

  /** The text `todo add <words>` stores. */
  function NormalizeText(words: seq<string>): (r: string)
    requires |words| > 0
    ensures |Join(words)| - 2 <= |r| <= |Join(words)|
  {
    StripQuotes(Join(words))
  }

  /** The usual shell case: the quoted words lose only the outer quotes. */
  lemma NormalizeQuotedWords(first: string, middle: seq<string>, last: string, open: char, close: char)
    requires IsQuote(open) && IsQuote(close)
    ensures NormalizeText([[open] + first] + middle + [last + [close]]) == Join([first] + middle + [last])
  {
    var words := [first] + middle + [last];
    var quoted := [[open] + first] + middle + [last + [close]];
    JoinQuoted(words, open, close);
    assert quoted == [[open] + words[0]] + words[1..|words| - 1] + [words[|words| - 1] + [close]];
    StripBothEnds(open, Join(words), close);
  }

  /** Adding a quote to the first and the last word adds it to the joined text. */
  lemma {:induction false} JoinQuoted(words: seq<string>, open: char, close: char)
    requires |words| >= 2
    ensures Join([[open] + words[0]] + words[1..|words| - 1] + [words[|words| - 1] + [close]])
         == [open] + Join(words) + [close]
  {
    var quoted := [[open] + words[0]] + words[1..|words| - 1] + [words[|words| - 1] + [close]];
    assert quoted[1..] == words[1..|words| - 1] + [words[|words| - 1] + [close]];
    JoinCloseLast(words[1..], close);
    assert words[1..][..|words| - 2] == words[1..|words| - 1];
  }

  /** Appending to the last word appends to the joined text. */
  lemma {:induction false} JoinCloseLast(words: seq<string>, close: char)
    requires |words| >= 1
    ensures Join(words[..|words| - 1] + [words[|words| - 1] + [close]]) == Join(words) + [close]
  {
    var closed := words[..|words| - 1] + [words[|words| - 1] + [close]];
    if |words| > 1 {
      assert closed[0] == words[0];
      assert closed[1..] == words[1..][..|words| - 2] + [words[1..][|words| - 2] + [close]];
      JoinCloseLast(words[1..], close);
    }
  }
}
