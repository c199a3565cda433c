/** The interpreter's searches in place (engine/oop.go): reading through the
    engine's OopChar and OopWord, finding strings, and sending labels. */
module Oop {
  import opened GameVars
  import opened OopText
  import opened Game

  ghost predicate Readable(e: Engine, id: int)
    reads e.Stats
  {
    0 <= id < e.Stats.Length && e.Stats[id].DataLen <= |e.Stats[id].Data|
  }

  method OopReadChar(e: Engine, id: int, position: int) returns (p: int)
    requires Readable(e, id)
    modifies e`OopChar
    ensures e.OopChar == CharAt(Text(e.Stats[id]), position) && p == After(Text(e.Stats[id]), position)
  {
    p := position;
    if position >= 0 && position < e.Stats[id].DataLen {
      e.OopChar := e.Stats[id].Data[position];
      p := position + 1;
    } else {
      e.OopChar := NUL;
    }
  }

  lemma WordCharFacts(t: string, q: nat, p: nat)
    requires q <= p <= |t|
    ensures p < |t| && WordChar(UpCase(t[p])) ==>
      WordEnd(t, p) == WordEnd(t, p + 1) && UpCased(t[q..p + 1]) == UpCased(t[q..p]) + [UpCase(t[p])]
    ensures !WordChar(UpCase(CharAt(t, p))) ==> WordEnd(t, p) == p
  {
  }

  method OopReadWord(e: Engine, id: int, position: int) returns (p: int)
    requires Readable(e, id)
    modifies e`OopChar, e`OopWord
    ensures Read(e.OopWord, p) == ReadWord(Text(e.Stats[id]), position)
  {
    ghost var t := Text(e.Stats[id]);
    ghost var q: nat := if 0 <= position <= |t| then SkipSpaces(t, position) else 0;
    e.OopWord := "";
    p := OopReadChar(e, id, position);
    ghost var at := position;
    while e.OopChar == ' '
      invariant e.OopChar == CharAt(t, at) && p == After(t, at) && e.OopWord == ""
      invariant if 0 <= position <= |t| then position <= at <= |t| && SkipSpaces(t, at) == q else at == position
      decreases |t| - at
    {
      at := p;
      p := OopReadChar(e, id, p);
    }
    e.OopChar := UpCase(e.OopChar);
    if e.OopChar < '0' || e.OopChar > '9' {
      ghost var w := at;
      while WordChar(e.OopChar)
        invariant e.OopChar == UpCase(CharAt(t, w)) && p == After(t, w)
        invariant if 0 <= position <= |t|
          then q <= w <= |t| && WordEnd(t, w) == WordEnd(t, q) && e.OopWord == UpCased(t[q..w])
                  else w == position && e.OopWord == ""
        decreases |t| - w
      {
        WordCharFacts(t, q, w);
        e.OopWord := e.OopWord + [e.OopChar];
        w := p;
        p := OopReadChar(e, id, p);
        e.OopChar := UpCase(e.OopChar);
      }
      if 0 <= position <= |t| {
        WordCharFacts(t, q, w);
      }
    }
    if p > 0 {
      p := p - 1;
    }
  }

  /** One position of OopFindString: compare character by character, then look at what follows. */
  method MatchesAt(e: Engine, id: int, s: string, pos: nat) returns (same: bool)
    requires Readable(e, id) && |s| >= 1 && pos <= |Text(e.Stats[id])|
    modifies e`OopChar
    ensures same == Match(Text(e.Stats[id]), s, pos)
  {
    ghost var t := Text(e.Stats[id]);
    var wordPos, cmpPos := 0, pos as int;
    while wordPos < |s|
      invariant 0 <= wordPos <= |s|
      invariant forall k :: 0 <= k < wordPos ==> UpCase(s[k]) == UpCase(CharAt(t, pos + k))
      invariant cmpPos == if pos + wordPos <= |t| then pos + wordPos else |t|
    {
      cmpPos := OopReadChar(e, id, cmpPos);
      if UpCase(s[wordPos]) != UpCase(e.OopChar) {
        assert UpCase(s[wordPos]) != UpCase(CharAt(t, pos + wordPos));
        return false;
      }
      wordPos := wordPos + 1;
    }
    cmpPos := OopReadChar(e, id, cmpPos);
    e.OopChar := UpCase(e.OopChar);
    same := !((e.OopChar >= 'A' && e.OopChar <= 'Z') || e.OopChar == '_');
  }

  method OopFindString(e: Engine, id: int, s: string) returns (r: int)
    requires Readable(e, id) && |s| >= 1 && s[0] == CR
    modifies e`OopChar
    ensures r == FindString(Text(e.Stats[id]), s)
  {
    hide Match;
    ghost var t := Text(e.Stats[id]);
    assert t == "" ==> !Match(t, s, 0) by { NoMatchInNothing(s); }
    var pos := 0;
    while pos <= e.Stats[id].DataLen
      invariant 0 <= pos <= |t| + 1
      invariant FindString(t, s) == FindFrom(t, s, pos)
      decreases |t| + 1 - pos
    {
      var same := MatchesAt(e, id, s, pos);
      if same {
        return pos;
      }
      pos := pos + 1;
    }
    r := -1;
  }

  lemma NoMatchInNothing(s: string)
    requires |s| >= 1 && s[0] == CR
    ensures !Match("", s, 0)
  {
    assert UpCase(s[0]) != UpCase(CharAt("", 0 + 0));
  }

  // ---- Targets -----------------------------------------------------------

  /** The name an object gives itself on its first line. */
  function NameOf(s: TStat): Option<string> {
    if s.Data != "" && CharAt(Text(s), 0) == '@' then Some(ReadWord(Text(s), 1).word) else None
  }

  /** The target words that name no object, and make the search read nothing. */
  predicate Predefined(lookup: string) { lookup == "ALL" || lookup == "OTHERS" || lookup == "SELF" }

  /** The stats a target word addresses, for the stat that sends. */
  predicate Targeted(stats: seq<TStat>, count: int, self: int, lookup: string, i: int)
    requires count < |stats|
  {
    if lookup == "ALL" then 1 <= i <= count
    else if lookup == "OTHERS" then 1 <= i <= count && i != self
    else if lookup == "SELF" then i == self && self > 0
    else 1 <= i <= count && NameOf(stats[i]) == Some(lookup)
  }

  ghost predicate AllReadable(e: Engine)
    reads e, e.Stats
  {
    e.Shaped() && forall i :: 0 <= i <= e.StatCount ==> Readable(e, i)
  }

  method IsNamed(e: Engine, id: int, lookup: string) returns (same: bool)
    requires Readable(e, id)
    modifies e`OopChar, e`OopWord
    ensures same == (NameOf(e.Stats[id]) == Some(lookup)) && (same ==> e.OopWord == lookup)
  {
    hide ReadWord;
    same := false;
    if e.Stats[id].Data != "" {
      var pos := OopReadChar(e, id, 0);
      if e.OopChar == '@' {
        pos := OopReadWord(e, id, pos);
        same := e.OopWord == lookup;
      }
    }
  }

  method OopIterateStat(e: Engine, self: int, iStat: nat, lookup: string) returns (found: bool, next: nat)
    requires AllReadable(e) && 0 <= self <= e.StatCount
    modifies e`OopChar, e`OopWord
    ensures AllReadable(e)
    ensures found ==> iStat < next && Targeted(e.Stats[..], e.StatCount, self, lookup, next)
    ensures Predefined(lookup) ==> e.OopWord == old(e.OopWord)
    ensures found && !Predefined(lookup) ==> e.OopWord == lookup
    ensures forall i :: iStat < i && (found ==> i < next) ==> !Targeted(e.Stats[..], e.StatCount, self, lookup, i)
  {
    hide NameOf;
    next := iStat + 1;
    found := false;
    if lookup == "ALL" {
      found := next <= e.StatCount;
    } else if lookup == "OTHERS" {
      if next <= e.StatCount {
        if next != self {
          found := true;
        } else {
          next := next + 1;
          found := next <= e.StatCount;
        }
      }
    } else if lookup == "SELF" {
      if self > 0 && next <= self {
        next := self;
        found := true;
      }
    } else {
      ghost var stats := e.Stats[..];
      while next <= e.StatCount && !found
        invariant iStat < next && e.Stats[..] == stats && AllReadable(e)
        invariant found ==> Targeted(stats, e.StatCount, self, lookup, next) && e.OopWord == lookup
        invariant forall i :: iStat < i < next ==> !Targeted(stats, e.StatCount, self, lookup, i)
        decreases e.StatCount + 1 - next, !found
      {
        found := IsNamed(e, next, lookup);
        if !found {
          next := next + 1;
        }
      }
    }
  }

  // ---- Labels ------------------------------------------------------------

  function Lookup(sendLabel: string): Option<string> {
    var c := ColonAt(sendLabel);
    if c < 0 then None else Some(sendLabel[..c])
  }

  function Message(sendLabel: string): string {
    var c := ColonAt(sendLabel);
    if c < 0 then sendLabel else sendLabel[c + 1..]
  }

  predicate Addressed(stats: seq<TStat>, count: int, self: int, sendLabel: string, i: int)
    requires count < |stats|
  {
    match Lookup(sendLabel)
    case None => i == self && self > 0
    case Some(lookup) => Targeted(stats, count, self, lookup, i)
  }

  /** What a successful search leaves in OopWord, which held `word` before it: the
      target's name, when it had to be looked for among the programs. */
  function WordAfter(sendLabel: string, word: string): string {
    match Lookup(sendLabel)
    case None => word
    case Some(lookup) => if Predefined(lookup) then word else lookup
  }

  /** Where a program takes a message up: the start for RESTART, else the first such label, or -1. */
  function LabelPos(s: TStat, prefix: string, message: string): (r: int)
    ensures -1 <= r <= |Text(s)|
  {
    if message == "RESTART" then 0 else FindString(Text(s), prefix + message)
  }

  /** A stat that is addressed and defines the label. */
  predicate Hears(stats: seq<TStat>, count: int, self: int, sendLabel: string, prefix: string, i: int)
    requires count < |stats| && self <= count
  {
    Addressed(stats, count, self, sendLabel, i) && 0 <= i && LabelPos(stats[i], prefix, Message(sendLabel)) >= 0
  }

  /** The position of the message in one program, as LabelPos says. */
  method FindMessage(e: Engine, id: int, prefix: string, message: string) returns (pos: int)
    requires Readable(e, id) && |prefix| >= 1 && prefix[0] == CR
    modifies e`OopChar
    ensures pos == LabelPos(e.Stats[id], prefix, message)
  {
    hide FindString;
    if message == "RESTART" {
      pos := 0;
    } else {
      pos := OopFindString(e, id, prefix + message);
    }
  }

  /** The search among the targets of a label: the next that defines the message. */
  method FindTarget(e: Engine, self: int, sendLabel: string, iStat: nat, prefix: string)
    returns (found: bool, next: nat, iDataPos: int)
    requires AllReadable(e) && 0 <= self <= e.StatCount && |prefix| >= 1 && prefix[0] == CR && ColonAt(sendLabel) >= 0
    modifies e`OopChar, e`OopWord
    ensures AllReadable(e) && (found ==> e.OopWord == WordAfter(sendLabel, old(e.OopWord)))
    ensures found ==> iStat < next && Hears(e.Stats[..], e.StatCount, self, sendLabel, prefix, next)
    ensures found ==> iDataPos == LabelPos(e.Stats[next], prefix, Message(sendLabel))
    ensures forall i :: iStat < i && (found ==> i < next) ==>
      !Hears(e.Stats[..], e.StatCount, self, sendLabel, prefix, i)
  {
    hide NameOf, LabelPos, Predefined;
    ghost var stats := e.Stats[..];
    var split := ColonAt(sendLabel);
    var targetLookup, objectMessage := sendLabel[..split], sendLabel[split + 1..];
    found, next := OopIterateStat(e, self, iStat, targetLookup);
    iDataPos := -1;
    while found && iDataPos < 0
      invariant iStat < next || !found
      invariant e.Stats[..] == stats && AllReadable(e)
      invariant found ==> Targeted(stats, e.StatCount, self, targetLookup, next)
      invariant found ==> e.OopWord == WordAfter(sendLabel, old(e.OopWord))
      invariant Predefined(targetLookup) ==> e.OopWord == old(e.OopWord)
      invariant found && iDataPos >= 0 ==> iDataPos == LabelPos(stats[next], prefix, objectMessage)
      invariant forall i :: iStat < i && (found ==> i < next) ==> !Hears(stats, e.StatCount, self, sendLabel, prefix, i)
      decreases found, e.StatCount + 1 - next, iDataPos < 0
    {
      iDataPos := FindMessage(e, next, prefix, objectMessage);
      if iDataPos < 0 {
        assert !Hears(stats, e.StatCount, self, sendLabel, prefix, next);
        found, next := OopIterateStat(e, self, next, targetLookup);
      }
    }
  }

  method OopFindLabel(e: Engine, self: int, sendLabel: string, iStat: nat, prefix: string)
    returns (found: bool, next: nat, iDataPos: int)
    requires AllReadable(e) && 0 <= self <= e.StatCount && |prefix| >= 1 && prefix[0] == CR
    modifies e`OopChar, e`OopWord
    ensures AllReadable(e) && (found ==> e.OopWord == WordAfter(sendLabel, old(e.OopWord)))
    ensures found ==> iStat < next && Hears(e.Stats[..], e.StatCount, self, sendLabel, prefix, next)
    ensures found ==> iDataPos == LabelPos(e.Stats[next], prefix, Message(sendLabel))
    ensures forall i :: iStat < i && (found ==> i < next) ==>
      !Hears(e.Stats[..], e.StatCount, self, sendLabel, prefix, i)
  {
    hide LabelPos;
    if ColonAt(sendLabel) >= 0 {
      found, next, iDataPos := FindTarget(e, self, sendLabel, iStat, prefix);
      return;
    }
    found, next, iDataPos := false, iStat, -1;
    if iStat < self {
      next := self;
      iDataPos := FindMessage(e, next, prefix, sendLabel);
      found := iDataPos >= 0;
    }
  }

  // ---- OopSend -----------------------------------------------------------

  const LABEL_PREFIX := "\r:"

  /** Whether a stat that hears the message may be moved by it. */
  predicate Unlocked(s: TStat, i: int, self: int, ignoreLock: bool, ignoreSelfLock: bool) {
    s.P2 == 0 || ignoreLock || (self == i && !ignoreSelfLock)
  }

  /** The broadcast: every addressed, unlocked stat that defines the label goes to it. */
  function Sent(stats: seq<TStat>, count: int, self: int, sendLabel: string, ignoreLock: bool, ignoreSelfLock: bool,
          i: int): TStat
    requires count < |stats| && self <= count && 0 <= i < |stats|
    requires forall k :: 0 <= k < |stats| ==> |Text(stats[k])| < 0x8000
  {
    if Hears(stats, count, self, sendLabel, LABEL_PREFIX, i) && Unlocked(stats[i], i, self, ignoreLock, ignoreSelfLock)
    then stats[i].(DataPos := LabelPos(stats[i], LABEL_PREFIX, Message(sendLabel)))
    else stats[i]
  }

  lemma TextFits(s: TStat)
    requires s.DataLen <= |s.Data|
    ensures |Text(s)| < 0x8000
  {
  }

  /** Two tables that differ only in data positions hear the same messages. */
  ghost predicate SamePrograms(stats: seq<TStat>, now: seq<TStat>) {
    |now| == |stats| && forall i :: 0 <= i < |stats| ==> now[i] == stats[i].(DataPos := now[i].DataPos)
  }

  lemma HearsTheSame(stats: seq<TStat>, now: seq<TStat>, count: int, self: int, sendLabel: string, prefix: string,
          i: int)
    requires SamePrograms(stats, now) && count < |stats| && self <= count
    ensures Hears(now, count, self, sendLabel, prefix, i) <==> Hears(stats, count, self, sendLabel, prefix, i)
    ensures 0 <= i < |stats| ==>
      LabelPos(now[i], prefix, Message(sendLabel)) == LabelPos(stats[i], prefix, Message(sendLabel))
  {
    if 0 <= i < |stats| {
      assert Text(now[i]) == Text(stats[i]) && NameOf(now[i]) == NameOf(stats[i]);
    }
  }

  /** A message on its way: who sends what, past which locks. */
  datatype Mail = Mail(self: int, sendLabel: string, ignoreLock: bool, ignoreSelfLock: bool)

  function Delivered(stats: seq<TStat>, count: int, m: Mail, i: int): TStat
    requires count < |stats| && m.self <= count && 0 <= i < |stats|
    requires forall k :: 0 <= k < |stats| ==> |Text(stats[k])| < 0x8000
  {
    Sent(stats, count, m.self, m.sendLabel, m.ignoreLock, m.ignoreSelfLock, i)
  }

  /** The message has been delivered to stats up to `upto`, and to no other. */
  ghost predicate DeliveredUpTo(stats: seq<TStat>, now: seq<TStat>, count: int, m: Mail, upto: int) {
    && count < |stats| && m.self <= count && SamePrograms(stats, now)
    && (forall k :: 0 <= k < |stats| ==> |Text(stats[k])| < 0x8000)
    && (forall i :: 0 <= i < |stats| ==> now[i] == if i <= upto then Delivered(stats, count, m, i) else stats[i])
  }

  ghost predicate HearsMail(stats: seq<TStat>, count: int, m: Mail, i: int)
    requires count < |stats| && m.self <= count
  {
    Hears(stats, count, m.self, m.sendLabel, LABEL_PREFIX, i)
  }

  lemma DeliverNext(stats: seq<TStat>, now: seq<TStat>, count: int, m: Mail, upto: int, next: int)
    requires DeliveredUpTo(stats, now, count, m, upto) && 0 <= upto < next && HearsMail(stats, count, m, next)
    requires forall i :: upto < i < next ==> !HearsMail(stats, count, m, i)
    ensures 0 < next <= count && now[next] == stats[next]
    ensures DeliveredUpTo(stats, now[next := Delivered(stats, count, m, next)], count, m, next)
  {
    hide Text, LabelPos, Message, Addressed;
    assert 0 < next <= count by { HearersAreLive(stats, count, m, next); }
    forall i | upto < i < next
      ensures Delivered(stats, count, m, i) == stats[i]
    {
      assert !HearsMail(stats, count, m, i);
    }
  }

  lemma HearersAreLive(stats: seq<TStat>, count: int, m: Mail, i: int)
    requires count < |stats| && m.self <= count && HearsMail(stats, count, m, i)
    ensures 0 < i <= count
  {
  }

  lemma DeliverRest(stats: seq<TStat>, now: seq<TStat>, count: int, m: Mail, upto: int)
    requires DeliveredUpTo(stats, now, count, m, upto) && 0 <= upto
    requires forall i :: upto < i ==> !HearsMail(stats, count, m, i)
    ensures DeliveredUpTo(stats, now, count, m, |stats|)
  {
    hide Text, LabelPos, Message, Addressed;
    assert forall k :: 0 <= k < |stats| ==> |Text(stats[k])| < 0x8000;
    forall i | upto < i < |stats|
      ensures Delivered(stats, count, m, i) == stats[i]
    {
      assert !HearsMail(stats, count, m, i);
    }
  }

  /** OopFindLabel in a table whose data positions have moved since the send began. */
  method FindNextHearer(e: Engine, m: Mail, iStat: nat, ghost stats: seq<TStat>)
      returns (found: bool, next: nat, iDataPos: int)
    requires e.Shaped() && 0 <= m.self <= e.StatCount && SamePrograms(stats, e.Stats[..])
    requires forall i :: 0 <= i < |stats| ==> stats[i].DataLen <= |stats[i].Data|
    modifies e`OopChar, e`OopWord
    ensures e.StatCount < |stats|
    ensures found ==> iStat < next <= e.StatCount && HearsMail(stats, e.StatCount, m, next)
    ensures found ==> iDataPos == LabelPos(stats[next], LABEL_PREFIX, Message(m.sendLabel))
    ensures forall i :: iStat < i && (found ==> i < next) ==> !HearsMail(stats, e.StatCount, m, i)
  {
    hide Hears, LabelPos, Message;
    forall i | 0 <= i <= e.StatCount
      ensures Readable(e, i)
    {
      assert e.Stats[..][i] == stats[i].(DataPos := e.Stats[..][i].DataPos);
    }
    found, next, iDataPos := OopFindLabel(e, m.self, m.sendLabel, iStat, LABEL_PREFIX);
    forall i
      ensures Hears(e.Stats[..], e.StatCount, m.self, m.sendLabel, LABEL_PREFIX, i) <==>
        HearsMail(stats, e.StatCount, m, i)
    {
      HearsTheSame(stats, e.Stats[..], e.StatCount, m.self, m.sendLabel, LABEL_PREFIX, i);
    }
    if found {
      HearersAreLive(stats, e.StatCount, m, next);
      HearsTheSame(stats, e.Stats[..], e.StatCount, m.self, m.sendLabel, LABEL_PREFIX, next);
    }
  }

  method OopSend(e: Engine, statId: int, sendLabel: string, ignoreLock: bool) returns (sent: bool)
    requires e.Shaped() && -e.StatCount <= statId <= e.StatCount
    requires forall i :: 0 <= i < e.Stats.Length ==> e.Stats[i].DataLen <= |e.Stats[i].Data|
    modifies e.Stats, e`OopChar, e`OopWord
    ensures var m := Mail(if statId < 0 then -statId else statId, sendLabel, ignoreLock, statId < 0);
      && DeliveredUpTo(old(e.Stats[..]), e.Stats[..], e.StatCount, m, e.Stats.Length)
      && sent == (HearsMail(old(e.Stats[..]), e.StatCount, m, m.self)
            && Unlocked(old(e.Stats[m.self]), m.self, m.self, ignoreLock, statId < 0))
  {
    var self, ignoreSelfLock := statId, false;
    if statId < 0 {
      self, ignoreSelfLock := -statId, true;
    }
    var m := Mail(self, sendLabel, ignoreLock, ignoreSelfLock);
    ghost var stats := e.Stats[..];
    sent := false;
    var iStat: nat := 0;
    NothingDelivered(stats, e.StatCount, m);
    hide HearsMail, Delivered, DeliveredUpTo, LabelPos, Message;
    while true
      invariant e.Shaped() && SamePrograms(stats, e.Stats[..])
        && DeliveredUpTo(stats, e.Stats[..], e.StatCount, m, iStat)
      invariant sent == (self <= iStat && HearsMail(stats, e.StatCount, m, self)
        && Unlocked(stats[self], self, self, ignoreLock, ignoreSelfLock))
      decreases e.StatCount - iStat
    {
      var found, next, iDataPos := FindNextHearer(e, m, iStat, stats);
      if !found {
        DeliverRest(stats, e.Stats[..], e.StatCount, m, iStat);
        break;
      }
      DeliverNext(stats, e.Stats[..], e.StatCount, m, iStat, next);
      DeliveredStat(stats, e.StatCount, m, next);
      iStat := next;
      if e.Stats[iStat].P2 == 0 || ignoreLock || (self == iStat && !ignoreSelfLock) {
        if iStat == self {
          sent := true;
        }
        ghost var now := e.Stats[..];
        e.Stats[iStat] := e.Stats[iStat].(DataPos := iDataPos);
        assert e.Stats[..] == now[next := Delivered(stats, e.StatCount, m, next)];
      } else {
        assert e.Stats[..] == e.Stats[..][next := Delivered(stats, e.StatCount, m, next)];
      }
      DeliveredSame(stats, e.Stats[..], e.StatCount, m, iStat);
    }
  }

  lemma NothingDelivered(stats: seq<TStat>, count: int, m: Mail)
    requires 0 <= count < |stats| && 0 <= m.self <= count
    requires forall i :: 0 <= i < |stats| ==> stats[i].DataLen <= |stats[i].Data|
    ensures DeliveredUpTo(stats, stats, count, m, 0) && !HearsMail(stats, count, m, 0)
  {
    forall k | 0 <= k < |stats|
      ensures |Text(stats[k])| < 0x8000
    {
      TextFits(stats[k]);
    }
  }

  lemma DeliveredStat(stats: seq<TStat>, count: int, m: Mail, i: int)
    requires count < |stats| && m.self <= count && 0 <= i < |stats| && HearsMail(stats, count, m, i)
    requires forall k :: 0 <= k < |stats| ==> |Text(stats[k])| < 0x8000
    ensures -1 <= LabelPos(stats[i], LABEL_PREFIX, Message(m.sendLabel)) < 0x8000
    ensures Delivered(stats, count, m, i) ==
      if Unlocked(stats[i], i, m.self, m.ignoreLock, m.ignoreSelfLock)
      then stats[i].(DataPos := LabelPos(stats[i], LABEL_PREFIX, Message(m.sendLabel))) else stats[i]
  {
  }

  lemma DeliveredSame(stats: seq<TStat>, now: seq<TStat>, count: int, m: Mail, upto: int)
    requires DeliveredUpTo(stats, now, count, m, upto)
    ensures SamePrograms(stats, now) && forall k :: 0 <= k < |stats| ==> |Text(stats[k])| < 0x8000
  {
  }
}
