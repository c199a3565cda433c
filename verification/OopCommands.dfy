/** The #ZAP and #RESTORE commands in place (engine/oop.go). The search for a target's
    name overwrites OopWord, the label the next round of the command looks for. */
module OopCommands {
  import opened GameVars
  import opened OopText
  import opened ZapRestore
  import opened Oop
  import opened Game

  datatype Command = ZAP | RESTORE

  function Prefix(c: Command): string { if c.ZAP? then "\r:" else "\r'" }

  /** The loop of #RESTORE inside one program: the character after p becomes a colon,
      and then every commented line that is `word` does. */
  function RestoredAt(t: string, p: nat, word: string): (r: string)
    requires p + 1 < |t|
    ensures |r| == |t|
  {
    var u := t[p + 1 := ':'];
    var q := FindString(u, CommentedLine(word));
    if q <= 0 then u else LineIsCommented(u, word, q); RestoreFrom(u, word, q)
  }

  /** What the command does to a stat that hears the label; OopWord then holds `word`.
      None when the program is too short to rewrite its second character. */
  function Edited(c: Command, s: TStat, message: string, word: string): (r: Option<TStat>)
  {
    var p := LabelPos(s, Prefix(c), message);
    if p < 0 then Some(s)
    else if p + 1 >= |s.Data| then None
    else if c.ZAP? then Some(s.(Data := s.Data[p + 1 := '\'']))
    else Some(s.(Data := RestoredAt(s.Data, p, word)))
  }

  predicate Whole(s: TStat) { s.DataLen == |s.Data| }

  ghost predicate AllWhole(stats: seq<TStat>, count: int) {
    count < |stats| && forall i :: 0 <= i <= count ==> Whole(stats[i])
  }

  /** The first stat after `from` that hears the label, or -1. */
  function NextHearer(c: Command, stats: seq<TStat>, count: int, self: int, word: string, from: nat): (r: int)
    requires count < |stats| && self <= count
    ensures r == -1 || (from < r <= count && Hears(stats, count, self, word, Prefix(c), r))
    ensures forall i :: from < i && (r >= 0 ==> i < r) ==> !Hears(stats, count, self, word, Prefix(c), i)
    decreases count - from
  {
    if from >= count then -1
    else if Hears(stats, count, self, word, Prefix(c), from + 1) then from + 1
    else NextHearer(c, stats, count, self, word, from + 1)
  }

  /** The rounds of the command from stat `from` on, with `word` in OopWord. */
  function Rounds(c: Command, stats: seq<TStat>, count: int, self: int, word: string,
          from: nat): (r: Option<seq<TStat>>)
    requires count < |stats| && self <= count
    ensures r.Some? ==> |r.value| == |stats|
    decreases count - from
  {
    var n := NextHearer(c, stats, count, self, word, from);
    if n < 0 then Some(stats)
    else
      var w := WordAfter(word, word);
      match Edited(c, stats[n], Message(word), w)
      case None => None
      case Some(s) => Rounds(c, stats[n := s], count, self, w, n)
  }

  lemma EditKeepsWhole(c: Command, stats: seq<TStat>, count: int, n: int, message: string, word: string)
    requires AllWhole(stats, count) && 0 <= n <= count && Edited(c, stats[n], message, word).Some?
    ensures AllWhole(stats[n := Edited(c, stats[n], message, word).value], count)
  {
    hide LabelPos, RestoredAt, Prefix;
  }

  // ---- In place ----------------------------------------------------------

  lemma WholeIsReadable(e: Engine)
    requires e.Shaped() && AllWhole(e.Stats[..], e.StatCount)
    ensures AllReadable(e)
  {
    forall i | 0 <= i <= e.StatCount
      ensures Readable(e, i)
    {
      assert e.Stats[i] == e.Stats[..][i] && Whole(e.Stats[..][i]);
    }
  }

  /** The next round starts at a stat that hears the label; this is it. */
  method NextRound(e: Engine, c: Command, id: int, from: nat) returns (found: bool, n: nat, pos: int)
    requires e.Shaped() && AllWhole(e.Stats[..], e.StatCount) && 0 <= id <= e.StatCount
    modifies e`OopChar, e`OopWord
    ensures e.StatCount < e.Stats.Length
      && found == (NextHearer(c, e.Stats[..], e.StatCount, id, old(e.OopWord), from) >= 0)
    ensures found ==>
      && n == NextHearer(c, e.Stats[..], e.StatCount, id, old(e.OopWord), from)
      && pos == LabelPos(e.Stats[n], Prefix(c), Message(old(e.OopWord))) >= 0
      && e.OopWord == WordAfter(old(e.OopWord), old(e.OopWord))
  {
    hide Hears, LabelPos, Message;
    WholeIsReadable(e);
    found, n, pos := OopFindLabel(e, id, e.OopWord, from, Prefix(c));
    if found {
      HearerHasLabel(e.Stats[..], e.StatCount, id, old(e.OopWord), Prefix(c), n);
    }
  }

  lemma HearerHasLabel(stats: seq<TStat>, count: int, self: int, word: string, prefix: string, i: int)
    requires count < |stats| && self <= count && Hears(stats, count, self, word, prefix, i)
    ensures 0 < i <= count && LabelPos(stats[i], prefix, Message(word)) >= 0
  {
  }

  /** False when a program is too short for the character the command rewrites. */
  method OopZap(e: Engine, id: int) returns (ok: bool)
    requires e.Shaped() && AllWhole(e.Stats[..], e.StatCount) && 0 <= id <= e.StatCount
    modifies e.Stats, e`OopChar, e`OopWord
    ensures e.StatCount < e.Stats.Length
    ensures var r := Rounds(ZAP, old(e.Stats[..]), e.StatCount, id, old(e.OopWord), 0);
      ok == r.Some? && (ok ==> e.Stats[..] == r.value)
  {
    hide NextHearer, WordAfter, LabelPos, Message;
    ghost var r := Rounds(ZAP, e.Stats[..], e.StatCount, id, e.OopWord, 0);
    var labelStatId: nat := 0;
    ok := true;
    while true
      invariant e.Shaped() && AllWhole(e.Stats[..], e.StatCount) && ok
      invariant Rounds(ZAP, e.Stats[..], e.StatCount, id, e.OopWord, labelStatId) == r
      decreases e.StatCount - labelStatId
    {
      ghost var stats, word := e.Stats[..], e.OopWord;
      var found, n, labelDataPos := NextRound(e, ZAP, id, labelStatId);
      if !found {
        return;
      }
      if labelDataPos + 1 >= |e.Stats[n].Data| {
        return false;
      }
      EditKeepsWhole(ZAP, stats, e.StatCount, n, Message(word), e.OopWord);
      e.Stats[n] := e.Stats[n].(Data := Replace(e.Stats[n].Data, labelDataPos + 2, '\''));
      assert e.Stats[..] == stats[n := Edited(ZAP, stats[n], Message(word), e.OopWord).value];
      labelStatId := n;
    }
  }

  method OopRestore(e: Engine, id: int) returns (ok: bool)
    requires e.Shaped() && AllWhole(e.Stats[..], e.StatCount) && 0 <= id <= e.StatCount
    modifies e.Stats, e`OopChar, e`OopWord
    ensures e.StatCount < e.Stats.Length
    ensures var r := Rounds(RESTORE, old(e.Stats[..]), e.StatCount, id, old(e.OopWord), 0);
      ok == r.Some? && (ok ==> e.Stats[..] == r.value)
  {
    hide NextHearer, WordAfter, LabelPos, Message;
    ghost var r := Rounds(RESTORE, e.Stats[..], e.StatCount, id, e.OopWord, 0);
    var labelStatId: nat := 0;
    ok := true;
    while true
      invariant e.Shaped() && AllWhole(e.Stats[..], e.StatCount) && ok
      invariant Rounds(RESTORE, e.Stats[..], e.StatCount, id, e.OopWord, labelStatId) == r
      decreases e.StatCount - labelStatId
    {
      ghost var stats, word := e.Stats[..], e.OopWord;
      var found, n, labelDataPos := NextRound(e, RESTORE, id, labelStatId);
      if !found {
        return;
      }
      if labelDataPos + 1 >= |e.Stats[n].Data| {
        return false;
      }
      EditKeepsWhole(RESTORE, stats, e.StatCount, n, Message(word), e.OopWord);
      assert Whole(stats[n]);
      RestoreLines(e, n, labelDataPos, stats);
      assert e.Stats[..] == stats[n := Edited(RESTORE, stats[n], Message(word), e.OopWord).value];
      labelStatId := n;
    }
  }

  /** The inner loop of #RESTORE. */
  method RestoreLines(e: Engine, id: int, pos: nat, ghost stats: seq<TStat>)
    requires 0 <= id < e.Stats.Length && e.Stats[..] == stats && Whole(stats[id]) && pos + 1 < |stats[id].Data|
    modifies e.Stats, e`OopChar
    ensures e.Stats[..] == stats[id := stats[id].(Data := RestoredAt(stats[id].Data, pos, e.OopWord))]
  {
    hide RestoreFrom, Match, FindString;
    ghost var whole, word := RestoredAt(stats[id].Data, pos, e.OopWord), e.OopWord;
    var labelDataPos: int := pos;
    ghost var first := true;
    var more := true;
    while more
      invariant e.OopWord == word && |e.Stats[id].Data| == |stats[id].Data|
      invariant e.Stats[..] == stats[id := stats[id].(Data := e.Stats[id].Data)]
      invariant more ==> 0 <= labelDataPos < |e.Stats[id].Data| - 1
      invariant more && !first ==> Match(e.Stats[id].Data, Commented(word), labelDataPos)
      invariant more ==> RestoredAt(e.Stats[id].Data, labelDataPos, word) == whole
      invariant !more ==> e.Stats[id].Data == whole
      decreases more, first, Quotes(e.Stats[id].Data)
    {
      ghost var t, p := e.Stats[id].Data, labelDataPos;
      labelDataPos := RestoreLine(e, id, labelDataPos);
      more := labelDataPos > 0;
      RestoreGoesOn(t, p, word);
      if !first {
        RestoreShrinks(t, word, p);
      }
      first := false;
    }
  }

  /** One line: the character after the position becomes a colon, and the next
      commented line is looked for. */
  method RestoreLine(e: Engine, id: int, pos: nat) returns (next: int)
    requires 0 <= id < e.Stats.Length && e.Stats[id].DataLen == |e.Stats[id].Data| && pos + 1 < |e.Stats[id].Data|
    modifies e.Stats, e`OopChar
    ensures e.Stats[..] == old(e.Stats[..])[id := old(e.Stats[id]).(Data := e.Stats[id].Data)]
    ensures e.Stats[id].Data == old(e.Stats[id].Data)[pos + 1 := ':']
    ensures next == FindString(e.Stats[id].Data, CommentedLine(e.OopWord))
  {
    hide FindString;
    e.Stats[id] := e.Stats[id].(Data := Replace(e.Stats[id].Data, pos + 2, ':'));
    assert Text(e.Stats[id]) == e.Stats[id].Data;
    next := OopFindString(e, id, "\r'" + e.OopWord + "\r");
    assert "\r'" + e.OopWord + "\r" == CommentedLine(e.OopWord);
  }

  lemma RestoreGoesOn(t: string, p: nat, word: string)
    requires p + 1 < |t|
    ensures var u := t[p + 1 := ':'];
      var q := FindString(u, CommentedLine(word));
      if q <= 0 then RestoredAt(t, p, word) == u
      else Match(u, Commented(word), q) && q + 1 < |u| && RestoredAt(t, p, word) == RestoredAt(u, q, word)
  {
    var u := t[p + 1 := ':'];
    var q := FindString(u, CommentedLine(word));
    hide RestoreFrom, FindString, Match;
    if q > 0 {
      LineIsCommented(u, word, q);
      RestoredWhereCommented(u, word, q);
    }
  }

  lemma RestoredWhereCommented(t: string, word: string, p: nat)
    requires Match(t, Commented(word), p)
    ensures p + 1 < |t| && RestoredAt(t, p, word) == RestoreFrom(t, word, p)
  {
    MatchInside(t, Commented(word), p);
    RestoreFromUnfolds(t, word, p);
  }

  lemma RestoreShrinks(t: string, word: string, p: nat)
    requires Match(t, Commented(word), p)
    ensures p + 1 < |t| && Quotes(t[p + 1 := ':']) < Quotes(t)
  {
    MatchInside(t, Commented(word), p);
    QuoteIsQuote(t[p + 1]);
    QuoteRestored(t, p + 1);
  }

  // ---- What the commands do ----------------------------------------------

  lemma LabelInside(c: Command, s: TStat, message: string)
    requires Whole(s) && message != "RESTART"
    ensures LabelPos(s, Prefix(c), message) + 1 < |s.Data| || LabelPos(s, Prefix(c), message) < 0
    ensures Text(s) == s.Data
  {
    var p := LabelPos(s, Prefix(c), message);
    assert Text(s) == s.Data;
    if p >= 0 {
      MatchInside(s.Data, Prefix(c) + message, p);
    }
  }

  /** A command on a label is the rewriting of ZapRestore; only RESTART, which names
      the start of a program, can meet a program too short to rewrite. */
  lemma EditIsZapOrRestore(c: Command, s: TStat, message: string)
    requires Whole(s)
    ensures message != "RESTART" ==>
      Edited(c, s, message, message) ==
        Some(s.(Data := if c.ZAP? then Zap(s.Data, message) else Restore(s.Data, message)))
    ensures message == "RESTART" ==> (Edited(c, s, message, message).None? <==> |s.Data| < 2)
  {
    if message != "RESTART" {
      LabelInside(c, s, message);
      assert Prefix(ZAP) + message == Active(message) && Prefix(RESTORE) + message == Commented(message);
      hide FindString;
      var p := LabelPos(s, Prefix(c), message);
      if p >= 0 && c.RESTORE? {
        RestoredWhereCommented(s.Data, message, p);
      }
    }
  }

  /** Without a target only the program's own label is rewritten. */
  lemma OwnLabelRounds(c: Command, stats: seq<TStat>, count: int, self: int, word: string, from: nat)
    requires 0 < self <= count < |stats| && ColonAt(word) < 0
    ensures Rounds(c, stats, count, self, word, from) ==
      if from >= self then Some(stats)
      else
        match Edited(c, stats[self], word, word)
        case None => None
        case Some(s) => Some(stats[self := s])
  {
    hide FindString, Edited, LabelPos, ColonAt;
    var n := NextHearer(c, stats, count, self, word, from);
    if from < self {
      if LabelPos(stats[self], Prefix(c), word) < 0 {
        assert !Hears(stats, count, self, word, Prefix(c), self);
        NothingToEdit(c, stats[self], word, word);
        assert stats[self := stats[self]] == stats;
      } else {
        assert Hears(stats, count, self, word, Prefix(c), self) && n == self;
        if Edited(c, stats[self], word, word).Some? {
          var u := stats[self := Edited(c, stats[self], word, word).value];
          assert NextHearer(c, u, count, self, word, self) < 0;
        }
      }
    }
  }

  lemma NothingToEdit(c: Command, s: TStat, message: string, word: string)
    requires LabelPos(s, Prefix(c), message) < 0
    ensures Edited(c, s, message, word) == Some(s)
  {
  }

  ghost predicate PredefinedTarget(word: string) {
    Lookup(word).Some? && Predefined(Lookup(word).value)
  }

  /** What the stats hear under ALL, OTHERS and SELF does not depend on one another. */
  lemma HearsAlone(stats: seq<TStat>, count: int, self: int, word: string, prefix: string, n: int, s: TStat, i: int)
    requires count < |stats| && self <= count && 0 <= n < |stats| && i != n && PredefinedTarget(word)
    ensures Hears(stats[n := s], count, self, word, prefix, i) <==> Hears(stats, count, self, word, prefix, i)
  {
    hide LabelPos, ColonAt;
  }

  /** With ALL, OTHERS and SELF every stat that hears the label is rewritten, and no other. */
  lemma {:induction false} PredefinedRounds(c: Command, stats: seq<TStat>, count: int, self: int, word: string,
          from: nat)
    requires count < |stats| && self <= count && PredefinedTarget(word)
    ensures var r := Rounds(c, stats, count, self, word, from);
      && (r.Some? <==> forall i :: from < i <= count && Hears(stats, count, self, word, Prefix(c), i) ==>
           Edited(c, stats[i], Message(word), word).Some?)
      && (r.Some? ==> forall i :: 0 <= i < |stats| ==>
           if from < i <= count && Hears(stats, count, self, word, Prefix(c), i)
           then Some(r.value[i]) == Edited(c, stats[i], Message(word), word) else r.value[i] == stats[i])
    decreases count - from
  {
    hide LabelPos, ColonAt, Edited, Hears, Message;
    var n := NextHearer(c, stats, count, self, word, from);
    assert WordAfter(word, word) == word;
    if n >= 0 && Edited(c, stats[n], Message(word), word).Some? {
      var u := stats[n := Edited(c, stats[n], Message(word), word).value];
      forall i | i != n
        ensures Hears(u, count, self, word, Prefix(c), i) <==> Hears(stats, count, self, word, Prefix(c), i)
      {
        HearsAlone(stats, count, self, word, Prefix(c), n, u[n], i);
      }
      PredefinedRounds(c, u, count, self, word, n);
    }
  }

  /** With an object's name only the first object of that name that has the label is
      rewritten. The next round looks for the name itself as a label, without a target:
      so if that object comes before the sender, the sender's own label of that name is
      rewritten as well. */
  lemma NamedRounds(c: Command, stats: seq<TStat>, count: int, self: int, word: string)
    requires 0 < self <= count < |stats| && Lookup(word).Some? && !Predefined(Lookup(word).value)
    ensures var name, h := Lookup(word).value, NextHearer(c, stats, count, self, word, 0);
      Rounds(c, stats, count, self, word, 0) ==
        if h < 0 then Some(stats)
        else
          match Edited(c, stats[h], Message(word), name)
          case None => None
          case Some(s) =>
            var u := stats[h := s];
            if h >= self then Some(u)
            else
              match Edited(c, u[self], name, name)
              case None => None
              case Some(t) => Some(u[self := t])
  {
    hide LabelPos, Edited, Hears, Message, NextHearer;
    var name, h := Lookup(word).value, NextHearer(c, stats, count, self, word, 0);
    NameHasNoColon(word);
    if h >= 0 && Edited(c, stats[h], Message(word), name).Some? {
      var u := stats[h := Edited(c, stats[h], Message(word), name).value];
      OwnLabelRounds(c, u, count, self, name, h);
    }
  }

  lemma NameHasNoColon(word: string)
    requires Lookup(word).Some?
    ensures ColonAt(Lookup(word).value) < 0
  {
    var name := Lookup(word).value;
    assert forall k :: 0 <= k < |name| ==> name[k] in name;
  }
}
