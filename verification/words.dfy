/** SQL text seen as words separated by single spaces: `Join` glues words the way the
    list handlers glue query fragments, `Split` cuts a text at every space. */
module Words {

  /** A word: text without a space (it may be empty). */
  predicate IsWord(w: string) {
    ' ' !in w
  }

  predicate AllWords(ws: seq<string>) {
    forall i :: 0 <= i < |ws| ==> IsWord(ws[i])
  }

  /** The words separated by single spaces; no words give the empty text. */
  function Join(ws: seq<string>): (s: string)
    decreases |ws|
  {
    if |ws| == 0 then ""
    else if |ws| == 1 then ws[0]
    else Join(ws[..|ws| - 1]) + " " + ws[|ws| - 1]
  }

  /** The text cut at every space; always at least one (possibly empty) word. */
  function Split(s: string): (ws: seq<string>)
    ensures |ws| >= 1
    ensures AllWords(ws)
    decreases |s|
  {
    if |s| == 0 then [""]
    else
      var init := Split(s[..|s| - 1]);
      var c := s[|s| - 1];
      if c == ' ' then init + [""]
      else init[..|init| - 1] + [init[|init| - 1] + [c]]
  }

  /** Number of times `w` occurs in `ws`. */
  function Count(ws: seq<string>, w: string): (n: nat)
    decreases |ws|
  {
    if |ws| == 0 then 0
    else (if ws[0] == w then 1 else 0) + Count(ws[1..], w)
  }

  lemma {:induction false} CountConcat(a: seq<string>, b: seq<string>, w: string)
    ensures Count(a + b, w) == Count(a, w) + Count(b, w)
    decreases |a|
  {
    if |a| > 0 {
      assert (a + b)[1..] == a[1..] + b;
      assert (a + b)[0] == a[0];
      CountConcat(a[1..], b, w);
    } else {
      assert a + b == b;
    }
  }

  lemma {:induction false} SplitWord(w: string)
    requires IsWord(w)
    ensures Split(w) == [w]
    decreases |w|
  {
    if |w| > 0 {
      SplitWord(w[..|w| - 1]);
      assert w == w[..|w| - 1] + [w[|w| - 1]];
    }
  }

  /** Cutting `s + " " + w` yields the words of `s` followed by `w`. */
  lemma {:induction false} SplitAppend(s: string, w: string)
    requires IsWord(w)
    ensures Split(s + " " + w) == Split(s) + [w]
    decreases |w|
  {
    var t := s + " " + w;
    if |w| == 0 {
      assert t[..|t| - 1] == s;
    } else {
      var w' := w[..|w| - 1];
      assert t[..|t| - 1] == s + " " + w';
      SplitAppend(s, w');
      assert w == w' + [w[|w| - 1]];
    }
  }

  /** Join then Split is the identity on a non-empty list of words. */
  lemma {:induction false} SplitJoin(ws: seq<string>)
    requires |ws| >= 1 && AllWords(ws)
    ensures Split(Join(ws)) == ws
    decreases |ws|
  {
    if |ws| == 1 {
      SplitWord(ws[0]);
    } else {
      var init := ws[..|ws| - 1];
      SplitJoin(init);
      SplitAppend(Join(init), ws[|ws| - 1]);
      assert ws == init + [ws[|ws| - 1]];
    }
  }

  /** Joining two non-empty lists puts one space between their texts. */
  lemma {:induction false} JoinConcat(a: seq<string>, b: seq<string>)
    requires |a| >= 1 && |b| >= 1
    ensures Join(a + b) == Join(a) + " " + Join(b)
    decreases |b|
  {
    var ab := a + b;
    assert ab[..|ab| - 1] == a + b[..|b| - 1];
    if |b| > 1 {
      JoinConcat(a, b[..|b| - 1]);
    }
  }

  lemma {:induction false} CountAbsent(ws: seq<string>, w: string)
    requires forall i :: 0 <= i < |ws| ==> ws[i] != w
    ensures Count(ws, w) == 0
    decreases |ws|
  {
    if |ws| > 0 {
      CountAbsent(ws[1..], w);
    }
  }
}
