/** #ZAP and #RESTORE on a program's own labels (engine/oop.go): one comments a
    label out by rewriting its colon, the other brings commented labels back. */
module ZapRestore {
  import opened GameVars
  import opened OopText

  /** A label as OopReadWord delivers it, without a target before it. */
  ghost predicate LabelWord(s: string) {
    s != "RESTART" && forall k :: 0 <= k < |s| ==> Letter(s[k]) || Digit(s[k]) || s[k] == '_'
  }

  function Active(word: string): string { "\r:" + word }
  function Commented(word: string): string { "\r'" + word }
  function CommentedLine(word: string): string { "\r'" + word + "\r" }

  function Zap(t: string, word: string): (r: string)
    ensures |r| == |t|
  {
    var p := FindString(t, Active(word));
    if p < 0 then t else MatchInside(t, Active(word), p); t[p + 1 := '\'']
  }

  lemma MatchInside(t: string, s: string, p: nat)
    requires Match(t, s, p) && |s| >= 2 && s[1] != NUL && UpCase(s[1]) == s[1]
    ensures p + 1 < |t| && UpCase(t[p + 1]) == s[1]
  {
    assert UpCase(s[1]) == UpCase(CharAt(t, p + 1));
  }

  function Quotes(t: string): (r: nat)
    ensures r <= |t|
  {
    if t == "" then 0 else Quotes(t[1..]) + if t[0] == '\'' then 1 else 0
  }

  lemma {:induction false} QuoteRestored(t: string, i: nat)
    requires i < |t| && t[i] == '\''
    ensures Quotes(t[i := ':']) < Quotes(t)
  {
    if i == 0 {
      assert t[0 := ':'][1..] == t[1..];
    } else {
      QuoteRestored(t[1..], i - 1);
      assert t[i := ':'][1..] == t[1..][i - 1 := ':'];
    }
  }

  /** The inner loop of #RESTORE, entered with a commented label found at p. */
  function RestoreFrom(t: string, word: string, p: nat): (r: string)
    requires Match(t, Commented(word), p)
    ensures |r| == |t|
    decreases Quotes(t)
  {
    MatchInside(t, Commented(word), p);
    assert t[p + 1] == '\'' by { QuoteIsQuote(t[p + 1]); }
    QuoteRestored(t, p + 1);
    var u := t[p + 1 := ':'];
    var q := FindString(u, CommentedLine(word));
    if q <= 0 then u else LineIsCommented(u, word, q); RestoreFrom(u, word, q)
  }

  lemma QuoteIsQuote(c: char)
    requires UpCase(c) == '\''
    ensures c == '\''
  {
  }

  lemma LineIsCommented(t: string, word: string, p: nat)
    requires Match(t, CommentedLine(word), p)
    ensures Match(t, Commented(word), p)
  {
    var s, line := Commented(word), CommentedLine(word);
    forall k | 0 <= k < |s|
      ensures UpCase(s[k]) == UpCase(CharAt(t, p + k))
    {
      assert line[k] == s[k];
    }
    assert UpCase(line[|s|]) == UpCase(CharAt(t, p + |s|));
  }

  /** The loop turns quotes at the start of lines into colons, the one at p among them,
      and stops when no commented line that is the label is left behind the first character. */
  lemma {:induction false} RestoreFromUnquotes(t: string, word: string, p: nat)
    requires Match(t, Commented(word), p)
    ensures var u := RestoreFrom(t, word, p);
      && p + 1 < |t| && u[p + 1] == ':' && FindString(u, CommentedLine(word)) <= 0
      && forall i :: 0 <= i < |t| && u[i] != t[i] ==> 0 < i && t[i - 1] == '\r' && t[i] == '\'' && u[i] == ':'
    decreases Quotes(t)
  {
    hide Match, FindString;
    MatchInside(t, Commented(word), p);
    MatchStarts(t, Commented(word), p);
    assert t[p + 1] == '\'' by { QuoteIsQuote(t[p + 1]); }
    QuoteRestored(t, p + 1);
    var u := t[p + 1 := ':'];
    var q := FindString(u, CommentedLine(word));
    if q > 0 {
      LineIsCommented(u, word, q);
      RestoreFromUnquotes(u, word, q);
    }
  }

  lemma MatchStarts(t: string, s: string, p: nat)
    requires Match(t, s, p) && |s| >= 2 && s[0] == '\r' && s[1] != NUL && UpCase(s[1]) == s[1]
    ensures p + 1 < |t| && t[p] == '\r'
  {
    MatchInside(t, s, p);
    assert UpCase(s[0]) == UpCase(CharAt(t, p + 0));
  }

  function Restore(t: string, word: string): (r: string)
    ensures |r| == |t|
  {
    var p := FindString(t, Commented(word));
    if p < 0 then t else RestoreFrom(t, word, p)
  }

  // ---- Rewriting marks touches nothing else ------------------------------

  /** u is t with the colon after each position of Z turned into a quote. */
  ghost predicate Marked(t: string, u: string, Z: set<nat>) {
    && |u| == |t|
    && (forall p :: p in Z ==> p + 1 < |t| && t[p + 1] == ':')
    && (forall i :: 0 <= i < |t| ==> u[i] == if i - 1 in Z then '\'' else t[i])
  }

  predicate Headed(t: string, mark: char, q: nat) {
    CharAt(t, q) == CR && CharAt(t, q + 1) == mark
  }

  predicate RestAt(t: string, rest: string, q: nat) {
    SameAt(t, rest, q + 2) && EndsWord(CharAt(t, q + 2 + |rest|))
  }

  lemma MatchSplits(t: string, mark: char, rest: string, q: nat)
    requires mark == ':' || mark == '\''
    ensures Match(t, [CR, mark] + rest, q) <==> Headed(t, mark, q) && RestAt(t, rest, q)
  {
    var s := [CR, mark] + rest;
    if SameAt(t, s, q) {
      assert UpCase(s[0]) == UpCase(CharAt(t, q + 0)) && UpCase(s[1]) == UpCase(CharAt(t, q + 1));
      forall k | 0 <= k < |rest|
        ensures UpCase(rest[k]) == UpCase(CharAt(t, q + 2 + k))
      {
        assert UpCase(s[k + 2]) == UpCase(CharAt(t, q + (k + 2)));
      }
    }
    if Headed(t, mark, q) && RestAt(t, rest, q) {
      forall k | 0 <= k < |s|
        ensures UpCase(s[k]) == UpCase(CharAt(t, q + k))
      {
        if k >= 2 {
          assert UpCase(rest[k - 2]) == UpCase(CharAt(t, q + 2 + (k - 2)));
        }
      }
    }
  }

  ghost predicate Plain(rest: string) {
    forall k :: 0 <= k < |rest| ==> UpCase(rest[k]) != ':' && UpCase(rest[k]) != '\''
  }

  lemma RestUnmoved(t: string, u: string, Z: set<nat>, rest: string, q: nat)
    requires Marked(t, u, Z) && Plain(rest)
    ensures RestAt(u, rest, q) <==> RestAt(t, rest, q)
  {
    assert forall i :: CharAt(u, i) == CharAt(t, i) || (CharAt(u, i) == '\'' && CharAt(t, i) == ':');
    if RestAt(t, rest, q) {
      assert forall k :: 0 <= k < |rest| ==> UpCase(rest[k]) == UpCase(CharAt(t, q + 2 + k));
    }
    if RestAt(u, rest, q) {
      assert forall k :: 0 <= k < |rest| ==> UpCase(rest[k]) == UpCase(CharAt(u, q + 2 + k));
    }
  }

  /** What marking does to the three kinds of match. */
  lemma MatchesOfMarked(t: string, u: string, Z: set<nat>, rest: string, q: nat)
    requires Marked(t, u, Z) && Plain(rest)
    ensures Match(u, [CR, ':'] + rest, q) <==> Match(t, [CR, ':'] + rest, q) && q !in Z
    ensures Match(u, [CR, '\''] + rest, q) <==>
      Match(t, [CR, '\''] + rest, q) || (Match(t, [CR, ':'] + rest, q) && q in Z)
  {
    MatchSplits(t, ':', rest, q);
    MatchSplits(u, ':', rest, q);
    MatchSplits(t, '\'', rest, q);
    MatchSplits(u, '\'', rest, q);
    RestUnmoved(t, u, Z, rest, q);
    if q in Z {
      assert t[q + 1] == ':' && u[q + 1] == '\'';
    }
    assert CharAt(u, q) == CR <==> CharAt(t, q) == CR;
  }

  // ---- ZAP ---------------------------------------------------------------

  lemma LabelForms(word: string)
    requires LabelWord(word)
    ensures Active(word) == [CR, ':'] + word && Commented(word) == [CR, '\''] + word
    ensures CommentedLine(word) == [CR, '\''] + (word + [CR]) && Plain(word) && Plain(word + [CR])
  {
  }

  ghost predicate IsActive(t: string, word: string, q: nat) { q <= |t| && Match(t, Active(word), q) }
  ghost predicate IsCommented(t: string, word: string, q: nat) { q <= |t| && Match(t, Commented(word), q) }

  /** A label that ends its line, with no letter starting the next one. */
  ghost predicate EndsLine(t: string, word: string, q: nat) { Match(t, [CR, ':'] + (word + [CR]), q) }

  /** Zapping comments out exactly the first active label and leaves every other one as it was. */
  lemma ZapCommentsTheFirst(t: string, word: string)
    requires LabelWord(word)
    ensures var p := FindString(t, Active(word));
      && (p < 0 ==> Zap(t, word) == t)
      && (p >= 0 ==> forall q: nat ::
        && (IsActive(Zap(t, word), word, q) <==> IsActive(t, word, q) && q != p)
        && (IsCommented(Zap(t, word), word, q) <==> IsCommented(t, word, q) || q == p))
  {
    LabelForms(word);
    var p := FindString(t, Active(word));
    if p >= 0 {
      var u := Zap(t, word);
      ActiveMark(t, word, p);
      assert Marked(t, u, {p});
      forall q: nat
        ensures IsActive(u, word, q) <==> IsActive(t, word, q) && q != p
        ensures IsCommented(u, word, q) <==> IsCommented(t, word, q) || q == p
      {
        MatchesOfMarked(t, u, {p}, word, q);
      }
    }
  }

  lemma ActiveMark(t: string, word: string, p: nat)
    requires LabelWord(word) && Match(t, Active(word), p)
    ensures p + 1 < |t| && t[p + 1] == ':'
  {
    LabelForms(word);
    MatchSplits(t, ':', word, p);
  }

  function ZapTimes(t: string, word: string, k: nat): string {
    if k == 0 then t else Zap(ZapTimes(t, word, k - 1), word)
  }

  /** The labels k ZAPs comment out: the first k active ones, or all of them. */
  ghost predicate FirstActive(t: string, word: string, Z: set<nat>, k: nat) {
    && (forall p :: p in Z ==> IsActive(t, word, p))
    && (forall p, q: nat :: p in Z && IsActive(t, word, q) && q < p ==> q in Z)
    && |Z| <= k && (|Z| < k ==> forall q: nat :: IsActive(t, word, q) ==> q in Z)
  }

  lemma {:induction false} ZapTimesMarks(t: string, word: string, k: nat) returns (Z: set<nat>)
    requires LabelWord(word)
    ensures Marked(t, ZapTimes(t, word, k), Z) && FirstActive(t, word, Z, k)
  {
    hide Zap, IsActive, LabelWord;
    if k == 0 {
      Z := {};
    } else {
      var W := ZapTimesMarks(t, word, k - 1);
      Z := ZapOneMore(t, ZapTimes(t, word, k - 1), W, word, k);
    }
  }

  lemma ZapOneMore(t: string, u: string, W: set<nat>, word: string, k: nat) returns (Z: set<nat>)
    requires LabelWord(word) && k >= 1 && Marked(t, u, W) && FirstActive(t, word, W, k - 1)
    ensures Marked(t, Zap(u, word), Z) && FirstActive(t, word, Z, k)
  {
    forall q: nat
      ensures IsActive(u, word, q) <==> IsActive(t, word, q) && q !in W
    {
      ActiveAreUnmarked(t, u, W, word, q);
    }
    var p := FindString(u, Active(word));
    if p < 0 {
      Z := W;
      assert forall q: nat :: !IsActive(u, word, q);
    } else {
      Z := W + {p};
      FirstFound(t, u, W, word, p);
      ZapMarks(t, u, W, word, p);
      hide Zap, IsActive, LabelWord, Marked;
    }
  }

  lemma ActiveAreUnmarked(t: string, u: string, Z: set<nat>, word: string, q: nat)
    requires LabelWord(word) && Marked(t, u, Z)
    ensures IsActive(u, word, q) <==> IsActive(t, word, q) && q !in Z
  {
    LabelForms(word);
    MatchesOfMarked(t, u, Z, word, q);
  }

  lemma ZapMarks(t: string, u: string, W: set<nat>, word: string, p: nat)
    requires LabelWord(word) && Marked(t, u, W) && p == FindString(u, Active(word))
    ensures IsActive(u, word, p) && Marked(t, Zap(u, word), W + {p})
  {
    ActiveMark(u, word, p);
  }

  lemma FirstFound(t: string, u: string, W: set<nat>, word: string, p: nat)
    requires p == FindString(u, Active(word)) && |u| == |t|
    requires forall q: nat :: IsActive(u, word, q) <==> IsActive(t, word, q) && q !in W
    ensures forall q: nat :: IsActive(t, word, q) && q < p ==> q in W
  {
    forall q: nat | IsActive(t, word, q) && q < p
      ensures q in W
    {
      assert !IsActive(u, word, q);
    }
  }

  // ---- RESTORE -----------------------------------------------------------

  /** The commented labels a RESTORE that starts at p leaves commented. */
  ghost function LeftOver(t: string, word: string, Z: set<nat>, p: nat): set<nat> {
    set q | q in Z && q != p && !EndsLine(t, word, q)
  }

  ghost predicate NothingCommented(t: string, word: string) {
    forall q: nat :: !IsCommented(t, word, q)
  }

  /** The matches of a commented label that ends its line, in a marked text. */
  lemma CommentedLines(t: string, u: string, Z: set<nat>, word: string, q: nat)
    requires LabelWord(word) && NothingCommented(t, word) && Marked(t, u, Z) && q <= |t|
    ensures Match(u, CommentedLine(word), q) <==> q in Z && EndsLine(t, word, q)
  {
    LabelForms(word);
    MatchesOfMarked(t, u, Z, word + [CR], q);
    if Match(t, CommentedLine(word), q) {
      LineIsCommented(t, word, q);
      assert IsCommented(t, word, q);
    }
  }

  lemma {:induction false} RestoreLoop(t: string, u: string, Z: set<nat>, word: string, p: nat)
    requires LabelWord(word) && NothingCommented(t, word) && Marked(t, u, Z)
    requires Match(u, Commented(word), p) && p in Z && 0 !in Z - {p}
    ensures Marked(t, RestoreFrom(u, word, p), LeftOver(t, word, Z, p))
    decreases Z
  {
    var v, Y := u[p + 1 := ':'], Z - {p};
    assert Marked(t, v, Y);
    var q := FindString(v, CommentedLine(word));
    forall i: nat | i <= |t|
      ensures Match(v, CommentedLine(word), i) <==> i in Y && EndsLine(t, word, i)
    {
      CommentedLines(t, v, Y, word, i);
    }
    RestoreFromUnfolds(u, word, p);
    hide RestoreFrom, EndsLine, Match, CommentedLine;
    if q <= 0 {
      assert LeftOver(t, word, Z, p) == Y;
    } else {
      LineIsCommented(v, word, q);
      RestoreLoop(t, v, Y, word, q);
      assert LeftOver(t, word, Y, q) == LeftOver(t, word, Z, p);
    }
  }

  lemma RestoreFromUnfolds(t: string, word: string, p: nat)
    requires Match(t, Commented(word), p)
    ensures p + 1 < |t|
    ensures var u := t[p + 1 := ':'];
      var q := FindString(u, CommentedLine(word));
      && (q <= 0 ==> RestoreFrom(t, word, p) == u)
      && (q > 0 ==> Match(u, Commented(word), q) && RestoreFrom(t, word, p) == RestoreFrom(u, word, q))
  {
    MatchInside(t, Commented(word), p);
    var u := t[p + 1 := ':'];
    var q := FindString(u, CommentedLine(word));
    if q > 0 {
      LineIsCommented(u, word, q);
    }
  }

  /** k ZAPs are undone by one RESTORE exactly when every label they commented out,
      but the first, stands alone on its line with no letter starting the next. */
  lemma RestoreUndoesZaps(t: string, word: string, k: nat) returns (Z: set<nat>)
    requires LabelWord(word) && NothingCommented(t, word)
    ensures FirstActive(t, word, Z, k)
    ensures Restore(ZapTimes(t, word, k), word) == t <==> forall p, q :: p in Z && q in Z && p < q ==>
      EndsLine(t, word, q)
  {
    Z := ZapTimesMarks(t, word, k);
    var u := ZapTimes(t, word, k);
    forall q: nat
      ensures IsCommented(u, word, q) <==> q in Z
    {
      assert q in Z ==> IsActive(t, word, q);
      CommentedAreMarked(t, u, Z, word, q);
    }
    var p := FindString(u, Commented(word));
    if p < 0 {
      assert forall q: nat :: !IsCommented(u, word, q);
      assert Z == {};
      assert u == t;
    } else {
      assert IsCommented(u, word, p);
      FirstCommented(u, word, Z, p);
      RestoreLoop(t, u, Z, word, p);
      MarkedIsSame(t, RestoreFrom(u, word, p), LeftOver(t, word, Z, p));
      assert forall q :: q in Z ==> (q == p || p < q);
    }
  }

  lemma CommentedAreMarked(t: string, u: string, Z: set<nat>, word: string, q: nat)
    requires LabelWord(word) && NothingCommented(t, word) && Marked(t, u, Z) && (q in Z ==> IsActive(t, word, q))
    ensures IsCommented(u, word, q) <==> q in Z
  {
    LabelForms(word);
    MatchesOfMarked(t, u, Z, word, q);
    assert !IsCommented(t, word, q);
  }

  lemma FirstCommented(u: string, word: string, Z: set<nat>, p: nat)
    requires p == FindString(u, Commented(word)) && forall q: nat :: IsCommented(u, word, q) <==> q in Z
    ensures forall q :: q in Z ==> p <= q
  {
    forall q | q in Z
      ensures p <= q
    {
      assert IsCommented(u, word, q);
    }
  }

  lemma MarkedIsSame(t: string, u: string, Z: set<nat>)
    requires Marked(t, u, Z)
    ensures u == t <==> Z == {}
  {
    if Z != {} {
      var p :| p in Z;
      assert u[p + 1] != t[p + 1];
    }
  }

  /** One ZAP and one RESTORE give the program back, whatever follows the label. */
  lemma RestoreUndoesZap(t: string, word: string)
    requires LabelWord(word) && NothingCommented(t, word)
    ensures Restore(Zap(t, word), word) == t
  {
    var Z := RestoreUndoesZaps(t, word, 1);
    assert ZapTimes(t, word, 1) == Zap(ZapTimes(t, word, 0), word);
    forall p, q | p in Z && q in Z && p < q
      ensures EndsLine(t, word, q)
    {
      assert {p, q} <= Z;
      SubsetSize({p, q}, Z);
    }
  }

  lemma SubsetSize(A: set<nat>, B: set<nat>)
    requires A <= B
    ensures |A| <= |B|
  {
    assert B == A + (B - A);
  }
}
