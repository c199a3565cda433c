/** What a label is and whom a message reaches, in characters and stat numbers
    (engine/oop.go, OopFindString, OopIterateStat, OopFindLabel and OopSend). */
module LabelLaws {
  import opened GameVars
  import opened OopText
  import opened Oop
  import ZapRestore

  // ---- Labels ------------------------------------------------------------

  /** The same character, capital or small. */
  predicate SameLetter(a: char, b: char) {
    || a == b
    || ('a' <= a <= 'z' && a as int - 32 == b as int)
    || ('a' <= b <= 'z' && b as int - 32 == a as int)
  }

  /** A line that starts with `mark` and the word w: neither a letter nor an underscore follows. */
  predicate LabelAt(t: string, p: int, mark: char, w: string) {
    && 0 <= p && p + 2 + |w| <= |t| && t[p] == '\r' && t[p + 1] == mark
    && (forall k :: 0 <= k < |w| ==> SameLetter(w[k], t[p + 2 + k]))
    && (p + 2 + |w| < |t| ==> var c := t[p + 2 + |w|]; !('A' <= c <= 'Z') && !('a' <= c <= 'z') && c != '_')
  }

  lemma UpCaseIsSameLetter(a: char, b: char)
    ensures UpCase(a) == UpCase(b) <==> SameLetter(a, b)
  {
  }

  lemma MatchIsLabel(t: string, p: nat, mark: char, w: string)
    requires p <= |t| && '\0' !in w && mark in {':', '\''}
    ensures Match(t, ['\r', mark] + w, p) <==> LabelAt(t, p, mark, w)
  {
    var s := ['\r', mark] + w;
    assert EndsWord('\0');
    hide UpCase, SameLetter;
    UpCaseIsSameLetter('\r', CharAt(t, p));
    UpCaseIsSameLetter(mark, CharAt(t, p + 1));
    MarksAreThemselves(CharAt(t, p));
    MarksAreThemselves(CharAt(t, p + 1));
    forall k | 0 <= k < |w|
      ensures UpCase(w[k]) == UpCase(CharAt(t, p + 2 + k)) <==> SameLetter(w[k], CharAt(t, p + 2 + k))
      ensures SameLetter(w[k], CharAt(t, p + 2 + k)) ==> p + 2 + k < |t|
    {
      UpCaseIsSameLetter(w[k], CharAt(t, p + 2 + k));
      NulIsItself(w[k]);
    }
    if Match(t, s, p) {
      assert UpCase(s[0]) == UpCase(CharAt(t, p + 0)) && UpCase(s[1]) == UpCase(CharAt(t, p + 1));
      forall k | 0 <= k < |w|
        ensures SameLetter(w[k], CharAt(t, p + 2 + k))
      {
        assert UpCase(s[k + 2]) == UpCase(CharAt(t, p + (k + 2)));
      }
      assert |w| > 0 ==> SameLetter(w[|w| - 1], CharAt(t, p + 2 + (|w| - 1)));
      Follows(CharAt(t, p + |s|));
    }
    if LabelAt(t, p, mark, w) {
      forall k | 0 <= k < |s|
        ensures UpCase(s[k]) == UpCase(CharAt(t, p + k))
      {
        assert k >= 2 ==> SameLetter(w[k - 2], t[p + 2 + (k - 2)]);
      }
      Follows(CharAt(t, p + |s|));
    }
  }

  lemma MarksAreThemselves(c: char)
    ensures forall mark :: mark in {'\r', ':', '\''} ==> (SameLetter(mark, c) <==> c == mark)
  {
  }

  lemma NulIsItself(c: char)
    ensures SameLetter(c, '\0') <==> c == '\0'
  {
  }

  lemma Follows(c: char)
    ensures EndsWord(c) <==> !('A' <= c <= 'Z') && !('a' <= c <= 'z') && c != '_'
  {
  }

  /** The search finds the first line with the label, and -1 exactly when there is none. */
  lemma FindsFirstLabel(t: string, mark: char, w: string)
    requires '\0' !in w && mark in {':', '\''}
    ensures var r := FindString(t, ['\r', mark] + w);
      && -1 <= r && (r >= 0 ==> LabelAt(t, r, mark, w))
      && forall p :: LabelAt(t, p, mark, w) ==> 0 <= r <= p
  {
    hide Match, LabelAt;
    var r := FindString(t, ['\r', mark] + w);
    if r >= 0 {
      MatchIsLabel(t, r, mark, w);
    }
    forall p | LabelAt(t, p, mark, w)
      ensures 0 <= r <= p
    {
      LabelIsInside(t, p, mark, w);
      MatchIsLabel(t, p, mark, w);
    }
  }

  lemma LabelIsInside(t: string, p: int, mark: char, w: string)
    ensures LabelAt(t, p, mark, w) ==> 0 <= p <= |t|
  {
  }

  /** A zap turns the colon of the first line with that label into a quote, and no more. */
  lemma ZapQuotesTheFirst(t: string, w: string)
    requires ZapRestore.LabelWord(w)
    ensures var u := ZapRestore.Zap(t, w);
      && ((forall p :: !LabelAt(t, p, ':', w)) ==> u == t)
      && forall p :: LabelAt(t, p, ':', w) && (forall q :: LabelAt(t, q, ':', w) ==> p <= q) ==> u == t[p + 1 := '\'']
  {
    hide FindString;
    assert "\r:" + w == ['\r', ':'] + w && '\0' !in w;
    FindsFirstLabel(t, ':', w);
  }

  /** A restore starts with the first line that is such a label quoted; it only turns
      quotes that start a line into colons, and leaves no line quoted that is just the
      label, unless such a line starts the program. */
  lemma RestoreUnquotes(t: string, w: string)
    requires ZapRestore.LabelWord(w)
    ensures (forall p :: !LabelAt(t, p, '\'', w)) ==> ZapRestore.Restore(t, w) == t
    ensures forall p :: LabelAt(t, p, '\'', w) && (forall q :: LabelAt(t, q, '\'', w) ==> p <= q) ==>
      var u := ZapRestore.Restore(t, w);
      && p + 1 < |u| && u[p + 1] == ':'
      && (LabelAt(u, 0, '\'', w + "\r") || forall q :: !LabelAt(u, q, '\'', w + "\r"))
      && forall i :: 0 <= i < |t| && u[i] != t[i] ==> 0 < i && t[i - 1] == '\r' && t[i] == '\'' && u[i] == ':'
  {
    hide FindString, LabelAt, Match;
    assert "\r'" + w == ['\r', '\''] + w && "\r'" + w + "\r" == ['\r', '\''] + (w + "\r") && '\0' !in w;
    FindsFirstLabel(t, '\'', w);
    var p := FindString(t, ['\r', '\''] + w);
    if p >= 0 {
      MatchIsLabel(t, p, '\'', w);
      ZapRestore.RestoreFromUnquotes(t, w, p);
      var u := ZapRestore.RestoreFrom(t, w, p);
      FindsFirstLabel(u, '\'', w + "\r");
      assert FindString(u, ['\r', '\''] + (w + "\r")) <= 0;
    }
  }

  /** A program is as long as its length says; beyond it there is nothing to read. */
  lemma ProgramIsItsLength(s: TStat, k: int)
    requires s.DataLen <= |s.Data|
    ensures CharAt(Text(s), k) == if 0 <= k < s.DataLen then s.Data[k] else '\0'
  {
  }

  // ---- Messages ----------------------------------------------------------

  /** The address in front of a message: a name up to the first colon, or none. */
  predicate Spells(message: string, who: Option<string>, w: string) {
    match who
    case None => message == w && ':' !in w
    case Some(name) => message == name + ":" + w && ':' !in name
  }

  /** Stat i is meant: all but stat 0, all but stat 0 and the sender, the sender, or
      those that call themselves so on their first line. */
  predicate Meant(stats: seq<TStat>, count: int, self: int, who: Option<string>, i: int)
    requires 0 <= i < |stats|
  {
    && 0 < i <= count
    && if who.None? || who.value == "SELF" then i == self
       else if who.value == "ALL" then true
       else if who.value == "OTHERS" then i != self
       else
         && stats[i].DataLen > 0 && stats[i].Data != "" && stats[i].Data[0] == '@'
         && ReadWord(Text(stats[i]), 1).word == who.value
  }

  /** A locked stat (P2) hears nothing, unless the lock is ignored or is the sender's own
      and that is. */
  predicate Open(s: TStat, i: int, m: Mail) {
    s.P2 == 0 || m.ignoreLock || (i == m.self && !m.ignoreSelfLock)
  }

  /** What the message makes of a stat: nothing unless it gets through, else the start
      for RESTART, else the first line with that label, if there is one. */
  ghost predicate Reached(s: TStat, after: TStat, through: bool, w: string) {
    && after == s.(DataPos := after.DataPos)
    && (!through ==> after == s)
    && (through && w == "RESTART" ==> after.DataPos == 0)
    && (through && w != "RESTART" ==>
          if exists p :: LabelAt(Text(s), p, ':', w)
          then LabelAt(Text(s), after.DataPos, ':', w) && forall p :: LabelAt(Text(s), p, ':', w) ==> after.DataPos <= p
          else after == s)
  }

  lemma {:induction false} FirstColon(s: string, c: nat)
    requires c < |s| && s[c] == ':' && ':' !in s[..c]
    ensures ColonAt(s) == c
  {
    if c > 0 {
      assert s[..c][0] == s[0] && s[1..][..c - 1] == s[..c][1..];
      FirstColon(s[1..], c - 1);
    }
  }

  lemma SplitAt(message: string, who: Option<string>, w: string)
    requires Spells(message, who, w)
    ensures Lookup(message) == who && Message(message) == w
  {
    if who.Some? {
      var c := |who.value|;
      assert message[c] == ':' && message[..c] == who.value && message[c + 1..] == w;
      FirstColon(message, c);
    }
  }

  lemma AddressedIsMeant(stats: seq<TStat>, count: int, m: Mail, who: Option<string>, w: string, i: int)
    requires count < |stats| && 0 <= m.self <= count && 0 <= i < |stats| && stats[i].DataLen <= |stats[i].Data|
    requires Spells(m.sendLabel, who, w)
    ensures Addressed(stats, count, m.self, m.sendLabel, i) <==> Meant(stats, count, m.self, who, i)
  {
    SplitAt(m.sendLabel, who, w);
    ProgramIsItsLength(stats[i], 0);
    hide ReadWord, Text, Lookup;
  }

  /** A send moves exactly the stats meant that are open and have the label; in every
      other respect the table stays as it was. */
  lemma MailReaches(stats: seq<TStat>, now: seq<TStat>, count: int, m: Mail, who: Option<string>, w: string, i: int)
    requires DeliveredUpTo(stats, now, count, m, |stats|) && 0 <= m.self && 0 <= i < |stats|
    requires stats[i].DataLen <= |stats[i].Data| && Spells(m.sendLabel, who, w) && '\0' !in w
    ensures Reached(stats[i], now[i], Meant(stats, count, m.self, who, i) && Open(stats[i], i, m), w)
  {
    hide Addressed, Meant, Text, LabelAt, FindString, Spells;
    AddressedIsMeant(stats, count, m, who, w, i);
    SplitAt(m.sendLabel, who, w);
    assert now[i] == Delivered(stats, count, m, i);
    assert LABEL_PREFIX == ['\r', ':'];
    FindsFirstLabel(Text(stats[i]), ':', w);
  }

  /** The sender is told whether its own program went somewhere. */
  lemma SenderIsTold(stats: seq<TStat>, count: int, m: Mail, who: Option<string>, w: string)
    requires count < |stats| && 0 <= m.self <= count && stats[m.self].DataLen <= |stats[m.self].Data|
    requires Spells(m.sendLabel, who, w) && '\0' !in w
    ensures var s := stats[m.self];
      var told := HearsMail(stats, count, m, m.self) && Unlocked(s, m.self, m.self, m.ignoreLock, m.ignoreSelfLock);
      var defined := w == "RESTART" || exists p :: LabelAt(Text(s), p, ':', w);
      told <==> Meant(stats, count, m.self, who, m.self) && Open(s, m.self, m) && defined
  {
    hide Addressed, Meant, Text, LabelAt, FindString, Spells;
    AddressedIsMeant(stats, count, m, who, w, m.self);
    SplitAt(m.sendLabel, who, w);
    assert LABEL_PREFIX == ['\r', ':'];
    FindsFirstLabel(Text(stats[m.self]), ':', w);
  }
}
