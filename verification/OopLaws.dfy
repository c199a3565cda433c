/** Where the run loop goes on after each command (engine/oop.go, OopExecute), told
    of whole runs and of the line ends of the text. */
module OopLaws {
  import opened GameVars
  import opened OopText
  import opened OopReading
  import opened OopRun
  import opened OopEnds

  // ---- Lines -------------------------------------------------------------

  predicate EndsALine(c: char) { c == '\r' || c == '\0' }

  /** q is just past the first line end at or after p, or the end of the text; where
      there is no text to read the position stays. */
  predicate PastLine(t: string, p: int, q: int) {
    if 0 <= p < |t| then
      && p < q <= |t| && (q == |t| || EndsALine(t[q - 1]))
      && forall k :: p <= k < q - 1 ==> !EndsALine(t[k])
    else q == p
  }

  lemma {:induction false} LineEndIsPast(t: string, p: int)
    ensures PastLine(t, p, LineEnd(t, p))
    decreases |t| - p
  {
    if 0 <= p < |t| && !EndsALine(t[p]) {
      LineEndIsPast(t, p + 1);
    }
  }

  lemma {:induction false} OnePastLine(t: string, p: int, q: int)
    requires PastLine(t, p, q)
    ensures q == LineEnd(t, p)
    decreases |t| - p
  {
    if 0 <= p < |t| && !EndsALine(t[p]) {
      OnePastLine(t, p + 1, q);
    }
  }

  // ---- Runs --------------------------------------------------------------

  /** The rest of a run from an instruction at position q, when `ins` commands have run:
      after the 33rd command it is over. */
  function GoesOn(slot: Slot, q: int, ins: nat, stats: nat, rest: seq<Answer>): State {
    if ins >= 33 then Halted else Run(Running(Slot(slot.text, q, slot.loose), ins, ReadInstruction, stats), rest)
  }

  /** The rest of a run from a command at position q on the same line. */
  function Chains(slot: Slot, q: int, ins: nat, stats: nat, rest: seq<Answer>): State {
    Run(Running(Slot(slot.text, q, slot.loose), ins, ReadCommand, stats), rest)
  }

  lemma {:induction false} HaltedForGood(answers: seq<Answer>)
    ensures Run(Halted, answers) == Halted
    decreases |answers|
  {
    if answers != [] {
      HaltedForGood(answers[1..]);
    }
  }

  lemma NextRuns(slot: Slot, q: int, ins: nat, stats: nat, rest: seq<Answer>)
    ensures Run(Next(Slot(slot.text, q, slot.loose), ins, stats), rest) == GoesOn(slot, q, ins, stats, rest)
    ensures Run(Halted, rest) == Halted
  {
    HaltedForGood(rest);
    hide Run;
  }

  lemma OneStep(s: State, a: Answer, rest: seq<Answer>)
    ensures Run(s, [a] + rest) == Run(Step(s, a), rest)
    ensures Run(Halted, rest) == Halted
  {
    hide Step;
    assert ([a] + rest)[1..] == rest;
    HaltedForGood(rest);
  }

  // ---- Instructions ------------------------------------------------------

  /** What the character at the position makes of an instruction; label lines are read
      past first. */
  lemma InstructionGoesOn(s: State, a: Answer, rest: seq<Answer>, q: int)
    requires s.Running? && s.place == ReadInstruction && s.ins <= 32
    ensures var t, p := s.slot.text, s.slot.pos;
      && (!(0 <= p < |t|) || t[p] == '\0' ==> Run(s, [a] + rest) == Halted)
      && (0 <= p < |t| && t[p] == '\r' ==> Run(s, [a] + rest) == GoesOn(s.slot, p + 1, s.ins, s.stats, rest))
      && (0 <= p < |t| && t[p] == '#' ==> Run(s, [a] + rest) == Chains(s.slot, p + 1, s.ins, s.stats, rest))
      && (0 <= p < |t| && t[p] == '/' ==> Run(s, [a] + rest) == Halted)
      && (0 <= p < |t| && t[p] !in {'\0', '\r', '#', '/', '?', ':'} && PastLine(t, p + 1, q) ==>
            Run(s, [a] + rest) == GoesOn(s.slot, q, s.ins, s.stats, rest))
      && (0 <= p < |t| && t[p] == ':' && PastLine(t, p + 1, q) ==>
            Run(s, [a] + rest) == Run(s.(slot := Slot(t, q, s.slot.loose)), [a] + rest))
  {
    hide Run, Step, Next, PastLine;
    var t, p := s.slot.text, s.slot.pos;
    var labeled := s.(slot := Slot(t, q, s.slot.loose));
    OneStep(s, a, rest);
    OneStep(labeled, a, rest);
    if PastLine(t, p + 1, q) {
      OnePastLine(t, p + 1, q);
      NextRuns(s.slot, q, s.ins, s.stats, rest);
      if 0 <= p < |t| && t[p] == ':' {
        LabelStep(s, a, q);
      }
    }
    NextRuns(s.slot, p + 1, s.ins, s.stats, rest);
    if !(0 <= p < |t| && t[p] == ':') {
      InstructionStep(s, a);
    }
  }

  lemma InstructionStep(s: State, a: Answer)
    requires s.Running? && s.place == ReadInstruction
    requires 0 <= s.slot.pos < |s.slot.text| ==> s.slot.text[s.slot.pos] != ':'
    ensures var t, p, n := s.slot.text, s.slot.pos, Step(s, a);
      && (!(0 <= p < |t|) || t[p] == '\0' || t[p] == '/' ==> n == Halted)
      && (0 <= p < |t| && t[p] == '\r' ==> n == Next(Slot(t, p + 1, s.slot.loose), s.ins, s.stats))
      && (0 <= p < |t| && t[p] == '#' ==> n == Running(Slot(t, p + 1, s.slot.loose), s.ins, ReadCommand, s.stats))
      && (0 <= p < |t| && t[p] !in {'\0', '\r', '#', '/', '?'} ==>
            n == Next(Slot(t, LineEnd(t, p + 1), s.slot.loose), s.ins, s.stats))
  {
    hide LineEnd, ParseDirection, ReadWord, Next, ReadCommandStep;
  }

  lemma LabelStep(s: State, a: Answer, q: int)
    requires s.Running? && s.place == ReadInstruction && 0 <= s.slot.pos < |s.slot.text|
    requires s.slot.text[s.slot.pos] == ':' && q == LineEnd(s.slot.text, s.slot.pos + 1)
    ensures Step(s, a) == Step(s.(slot := Slot(s.slot.text, q, s.slot.loose)), a)
  {
    hide LineEnd, ParseDirection, ReadWord, Next, ReadCommandStep;
  }

  // ---- Commands ----------------------------------------------------------

  /** The state is about to read this command word, alone or after a THEN, which leaves
      the reader at w. */
  predicate Reads(s: State, word: string, w: int) {
    && s.Running? && s.place == ReadCommand
    && var r := ReadWord(s.slot.text, s.slot.pos);
      Read(word, w) == if r.word == "THEN" then ReadWord(s.slot.text, r.pos) else r
  }

  lemma ReadsCommand(s: State, word: string, w: int)
    requires Reads(s, word, w)
    ensures s.Running? && CommandWord(s.slot.text, s.slot.pos) == Read(word, w)
  {
    hide ReadWord;
  }

  lemma StepIsOther(s: State, word: string, w: int, a: Answer)
    requires Reads(s, word, w) && word !in {"", "GO", "TRY", "IF", "GIVE", "TAKE"}
    ensures Step(s, a) == OtherStep(s, Read(word, w), a)
  {
    hide CommandWord, OtherStep, GoStep, TryStep, IfStep, CounterStep, ReadWord;
    ReadsCommand(s, word, w);
  }

  /** END finishes the program: the next thing read is nothing. */
  lemma EndFinishes(s: State, w: int, answers: seq<Answer>)
    requires Reads(s, "END", w) && |answers| >= 2
    ensures Run(s, answers) == Halted
  {
    var a, b, rest := answers[0], answers[1], answers[2..];
    assert answers == [a] + ([b] + rest);
    hide CommandWord, Run, Step, OtherStep;
    OneStep(s, a, [b] + rest);
    StepIsOther(s, "END", w, a);
    EndStep(s, w, a);
    ErrorFinishes(Step(s, a), [b] + rest);
  }

  lemma EndStep(s: State, w: int, a: Answer)
    requires s.Running?
    ensures OtherStep(s, Read("END", w), a) == Next(Slot(s.slot.text, -1, s.slot.loose), s.ins + 1, s.stats)
    ensures OtherStep(s, Read("RESTART", w), a) == Next(Slot(s.slot.text, 0, s.slot.loose), s.ins + 1, s.stats)
  {
  }

  /** RESTART takes the program up from its first character, one command poorer. */
  lemma RestartGoesOn(s: State, w: int, a: Answer, rest: seq<Answer>)
    requires Reads(s, "RESTART", w)
    ensures Run(s, [a] + rest) == GoesOn(s.slot, 0, s.ins + 1, s.stats, rest)
  {
    hide CommandWord, Run, Step, OtherStep, Next;
    OneStep(s, a, rest);
    StepIsOther(s, "RESTART", w, a);
    EndStep(s, w, a);
    NextRuns(s.slot, 0, s.ins + 1, s.stats, rest);
  }

  /** The end of the words a command takes before the rest of its line is passed over. */
  function ArgumentsEnd(t: string, word: string, w: int): int {
    if word == "SET" || word == "CLEAR" then ReadWord(t, w).pos
    else if word == "CYCLE" || word == "CHAR" then ReadValue(t, w).1
    else w
  }

  /** These commands take what follows them up to their last argument, and the next
      instruction is read behind that line's end. */
  lemma LineCommandGoesOn(s: State, word: string, w: int, a: Answer, rest: seq<Answer>, q: int)
    requires Reads(s, word, w)
    requires word in {"SET", "CLEAR", "CYCLE", "CHAR", "LOCK", "UNLOCK", "ENDGAME", "PLAY"}
    requires PastLine(s.slot.text, ArgumentsEnd(s.slot.text, word, w), q)
    ensures Run(s, [a] + rest) == GoesOn(s.slot, q, s.ins + 1, s.stats, rest)
  {
    hide CommandWord, Run, Step, OtherStep, Next, PastLine, ReadWord, ReadValue;
    OneStep(s, a, rest);
    StepIsOther(s, word, w, a);
    LineStep(s, word, w, a);
    OnePastLine(s.slot.text, ArgumentsEnd(s.slot.text, word, w), q);
    NextRuns(s.slot, q, s.ins + 1, s.stats, rest);
  }

  lemma LineStep(s: State, word: string, w: int, a: Answer)
    requires s.Running? && word in {"SET", "CLEAR", "CYCLE", "CHAR", "LOCK", "UNLOCK", "ENDGAME", "PLAY"}
    ensures OtherStep(s, Read(word, w), a) ==
      Next(Slot(s.slot.text, LineEnd(s.slot.text, ArgumentsEnd(s.slot.text, word, w)), s.slot.loose), s.ins + 1,
          s.stats)
  {
    hide LineEnd, ReadWord, ReadValue, Next, ParseDirection, ColonAt;
  }

  /** WALK goes on behind its direction's line; without a direction it is an error,
      and the program is finished. */
  lemma WalkGoesOn(s: State, w: int, a: Answer, rest: seq<Answer>, q: int)
    requires Reads(s, "WALK", w)
    ensures var d := ParseDirection(s.slot.text, ReadWord(s.slot.text, w), a.compass, 0);
      && (d.ok && PastLine(s.slot.text, d.pos, q) ==>
            Run(s, [a] + rest) == GoesOn(s.slot, q, s.ins + 1, s.stats, rest))
      && (!d.ok && |rest| >= 1 ==> Run(s, [a] + rest) == Halted)
  {
    hide CommandWord, Run, Step, OtherStep, Next, PastLine, ReadWord, ParseDirection, Failed;
    OneStep(s, a, rest);
    StepIsOther(s, "WALK", w, a);
    WalkStep(s, w, a);
    var d := ParseDirection(s.slot.text, ReadWord(s.slot.text, w), a.compass, 0);
    if d.ok {
      if PastLine(s.slot.text, d.pos, q) {
        OnePastLine(s.slot.text, d.pos, q);
        NextRuns(s.slot, q, s.ins + 1, s.stats, rest);
      }
    } else if |rest| >= 1 {
      FailedFinishes(s.slot, s.ins + 1, a, rest);
    }
  }

  lemma WalkStep(s: State, w: int, a: Answer)
    requires s.Running?
    ensures var d := ParseDirection(s.slot.text, ReadWord(s.slot.text, w), a.compass, 0);
      OtherStep(s, Read("WALK", w), a) ==
        if d.ok then Next(Slot(s.slot.text, LineEnd(s.slot.text, d.pos), s.slot.loose), s.ins + 1, s.stats)
        else Next(Failed(s.slot, a), s.ins + 1, a.stats)
  {
    hide LineEnd, ReadWord, ReadValue, Next, ParseDirection, ColonAt, Failed;
  }

  lemma FailedFinishes(slot: Slot, ins: nat, a: Answer, rest: seq<Answer>)
    requires |rest| >= 1
    ensures Run(Next(Failed(slot, a), ins, a.stats), rest) == Halted
  {
    hide Run;
    ErrorFinishes(Next(Failed(slot, a), ins, a.stats), rest);
  }

  /** Where the position has become -1 there is nothing left to read. */
  lemma ErrorFinishes(s: State, answers: seq<Answer>)
    requires s.Running? ==> s.place == ReadInstruction && s.slot.pos < 0 && s.ins <= 32
    requires !s.Diverged? && |answers| >= 1
    ensures Run(s, answers) == Halted
  {
    assert answers == [answers[0]] + answers[1..];
    if s.Running? {
      InstructionGoesOn(s, answers[0], answers[1..], s.slot.pos);
    } else {
      HaltedForGood(answers);
    }
  }

  /** A command nobody understands, and that no message makes of it, finishes the
      program; one with a target only ends its line. */
  lemma MessageGoesOn(s: State, word: string, w: int, a: Answer, rest: seq<Answer>, q: int)
    requires Reads(s, word, w) && word != ""
    requires word !in {"GO", "TRY", "WALK", "SET", "CLEAR", "IF", "SHOOT", "THROWSTAR", "GIVE", "TAKE", "END",
                       "ENDGAME", "IDLE", "RESTART", "ZAP", "RESTORE", "LOCK", "UNLOCK", "SEND", "BECOME", "PUT",
                       "CHANGE", "PLAY", "CYCLE", "CHAR", "DIE", "BIND"}
    ensures a.sent ==> Run(s, [a] + rest) == GoesOn(s.slot, a.after.pos, s.ins + 1, s.stats, rest)
    ensures !a.sent && ':' in word && PastLine(s.slot.text, w, q) ==>
      Run(s, [a] + rest) == GoesOn(s.slot, q, s.ins + 1, s.stats, rest)
    ensures !a.sent && ':' !in word && |rest| >= 1 ==> Run(s, [a] + rest) == Halted
  {
    hide CommandWord, Run, Step, OtherStep, Next, PastLine, ReadWord, Failed, ColonAt;
    OneStep(s, a, rest);
    StepIsOther(s, word, w, a);
    MessageStep(s, word, w, a);
    NextRuns(s.slot, a.after.pos, s.ins + 1, s.stats, rest);
    if PastLine(s.slot.text, w, q) {
      OnePastLine(s.slot.text, w, q);
      NextRuns(s.slot, q, s.ins + 1, s.stats, rest);
    }
    if |rest| >= 1 {
      FailedFinishes(s.slot, s.ins + 1, a, rest);
    }
  }

  lemma MessageStep(s: State, word: string, w: int, a: Answer)
    requires s.Running?
    requires word !in {"GO", "TRY", "WALK", "SET", "CLEAR", "IF", "SHOOT", "THROWSTAR", "GIVE", "TAKE", "END",
                       "ENDGAME", "IDLE", "RESTART", "ZAP", "RESTORE", "LOCK", "UNLOCK", "SEND", "BECOME", "PUT",
                       "CHANGE", "PLAY", "CYCLE", "CHAR", "DIE", "BIND"}
    ensures OtherStep(s, Read(word, w), a) ==
      if a.sent then Next(Slot(s.slot.text, a.after.pos, s.slot.loose), s.ins + 1, s.stats)
      else if ':' in word then Next(Slot(s.slot.text, LineEnd(s.slot.text, w), s.slot.loose), s.ins + 1, s.stats)
      else Next(Failed(s.slot, a), s.ins + 1, a.stats)
  {
    hide LineEnd, ReadWord, ReadValue, Next, ParseDirection, Failed, ColonAt;
    assert ColonAt(word) >= 0 <==> ':' in word;
  }

  /** SEND to itself goes on at the label; otherwise behind its line. */
  lemma SendGoesOn(s: State, w: int, a: Answer, rest: seq<Answer>, q: int)
    requires Reads(s, "SEND", w)
    ensures a.sent ==> Run(s, [a] + rest) == GoesOn(s.slot, a.after.pos, s.ins + 1, s.stats, rest)
    ensures !a.sent && PastLine(s.slot.text, ReadWord(s.slot.text, w).pos, q) ==>
      Run(s, [a] + rest) == GoesOn(s.slot, q, s.ins + 1, s.stats, rest)
  {
    hide CommandWord, Run, Step, OtherStep, Next, PastLine, ReadWord;
    OneStep(s, a, rest);
    StepIsOther(s, "SEND", w, a);
    SendStep(s, w, a);
    NextRuns(s.slot, a.after.pos, s.ins + 1, s.stats, rest);
    if PastLine(s.slot.text, ReadWord(s.slot.text, w).pos, q) {
      OnePastLine(s.slot.text, ReadWord(s.slot.text, w).pos, q);
      NextRuns(s.slot, q, s.ins + 1, s.stats, rest);
    }
  }

  lemma SendStep(s: State, w: int, a: Answer)
    requires s.Running?
    ensures OtherStep(s, Read("SEND", w), a) ==
      Next(Slot(s.slot.text, if a.sent then a.after.pos else LineEnd(s.slot.text, ReadWord(s.slot.text, w).pos),
                s.slot.loose), s.ins + 1, s.stats)
  {
    hide LineEnd, ReadWord, ReadValue, Next, ParseDirection, ColonAt;
  }

  /** The commands that end the turn whatever happens. */
  lemma TurnEnds(s: State, word: string, w: int, a: Answer, rest: seq<Answer>)
    requires Reads(s, word, w) && word in {"SHOOT", "THROWSTAR", "IDLE", "DIE"}
    ensures Run(s, [a] + rest) == Halted
  {
    hide CommandWord, Run, Step, OtherStep;
    OneStep(s, a, rest);
    StepIsOther(s, word, w, a);
    TurnEndsStep(s, word, w, a);
  }

  lemma TurnEndsStep(s: State, word: string, w: int, a: Answer)
    requires s.Running? && word in {"SHOOT", "THROWSTAR", "IDLE", "DIE"}
    ensures OtherStep(s, Read(word, w), a) == Halted
  {
  }

  /** BECOME with a kind that exists ends the turn; with another it is an error, and the
      position becomes -1. */
  lemma BecomeEnds(s: State, w: int, a: Answer, rest: seq<Answer>)
    requires Reads(s, "BECOME", w)
    ensures a.kind ==> Run(s, [a] + rest) == Halted
    ensures !a.kind && !a.shifted ==> Run(s, [a] + rest) == GoesOn(s.slot, -1, s.ins + 1, a.stats, rest)
  {
    hide CommandWord, Run, Step, OtherStep, Next;
    OneStep(s, a, rest);
    StepIsOther(s, "BECOME", w, a);
    BecomeStep(s, w, a);
    NextRuns(s.slot, -1, s.ins + 1, a.stats, rest);
    HaltedForGood(rest);
  }

  lemma BecomeStep(s: State, w: int, a: Answer)
    requires s.Running?
    ensures a.kind ==> OtherStep(s, Read("BECOME", w), a) == Halted
    ensures !a.kind && !a.shifted ==>
      OtherStep(s, Read("BECOME", w), a) == Next(Slot(s.slot.text, -1, s.slot.loose), s.ins + 1, a.stats)
  {
    hide LineEnd, ReadWord, ReadValue, Next, ParseDirection, ColonAt;
  }

  /** A TRY that moves ends the turn; one that finds its way blocked goes on to the
      command behind its direction. */
  lemma TryGoesOn(s: State, w: int, a: Answer, rest: seq<Answer>)
    requires Reads(s, "TRY", w)
    ensures var d := ParseDirection(s.slot.text, ReadWord(s.slot.text, w), a.compass, 0);
      d.ok && (d.dx != 0 || d.dy != 0) ==>
        && (!a.blocked ==> Run(s, [a] + rest) == Halted)
        && (a.blocked && a.removed == 0 ==>
              Run(s, [a] + rest) == Chains(s.slot, d.pos, s.ins + 1, s.stats, rest))
        && (a.blocked && 0 < a.removed <= s.stats ==>
              Run(s, [a] + rest) == Chains(a.after, a.after.pos, s.ins + 1, s.stats - a.removed, rest))
  {
    hide CommandWord, Run, ReadWord, ParseDirection, Step;
    OneStep(s, a, rest);
    StepIsOwn(s, "TRY", w, a);
  }

  lemma StepIsOwn(s: State, word: string, w: int, a: Answer)
    requires Reads(s, word, w)
    ensures word == "TRY" ==> Step(s, a) == TryStep(s, ReadWord(s.slot.text, w), a)
    ensures word == "IF" ==> Step(s, a) == IfStep(s, ReadWord(s.slot.text, w), a)
    ensures word == "GIVE" || word == "TAKE" ==>
      Step(s, a) == CounterStep(s, word == "GIVE", ReadWord(s.slot.text, w), a)
    ensures word == "" ==> Step(s, a) == s.(slot := s.slot.(pos := w), place := ReadInstruction)
  {
    hide CommandWord, OtherStep, GoStep, TryStep, IfStep, CounterStep, ReadWord;
    ReadsCommand(s, word, w);
  }

  /** IF goes on to the command behind its condition when that holds, else to the next line. */
  lemma IfGoesOn(s: State, w: int, a: Answer, rest: seq<Answer>, q: int)
    requires Reads(s, "IF", w)
    ensures var c := AfterCondition(s.slot.text, ReadWord(s.slot.text, w), a.kind);
      c.Some? ==>
        && (a.holds ==> Run(s, [a] + rest) == Chains(s.slot, c.value, s.ins + 1, s.stats, rest))
        && (!a.holds && PastLine(s.slot.text, c.value, q) ==>
              Run(s, [a] + rest) == GoesOn(s.slot, q, s.ins + 1, s.stats, rest))
  {
    hide CommandWord, Run, ReadWord, AfterCondition, LineEnd, PastLine, Step, Next;
    OneStep(s, a, rest);
    StepIsOwn(s, "IF", w, a);
    var c := AfterCondition(s.slot.text, ReadWord(s.slot.text, w), a.kind);
    if c.Some? && PastLine(s.slot.text, c.value, q) {
      OnePastLine(s.slot.text, c.value, q);
      NextRuns(s.slot, q, s.ins + 1, s.stats, rest);
    }
  }

  /** The words a condition takes: NOT those of another condition, BLOCKED a direction,
      ANY a colour if there is one and a kind, every other word, flags included, none. */
  lemma ConditionTakes(t: string, r: Read, kind: bool)
    ensures r.word == "NOT" ==> AfterCondition(t, r, kind) == AfterCondition(t, ReadWord(t, r.pos), kind)
    ensures r.word !in {"NOT", "BLOCKED", "ANY"} ==> AfterCondition(t, r, kind) == Some(r.pos)
    ensures r.word == "BLOCKED" ==>
      var d := ParseDirection(t, ReadWord(t, r.pos), CALM, 0);
      AfterCondition(t, r, kind) == if d.ok then Some(d.pos) else None
    ensures r.word == "ANY" ==>
      var c := ReadWord(t, r.pos);
      var coloured := c.word in {"BLUE", "GREEN", "CYAN", "RED", "PURPLE", "YELLOW", "WHITE"};
      var last := if coloured then ReadWord(t, c.pos) else c;
      AfterCondition(t, r, kind) == if kind then Some(last.pos) else None
  {
    hide ReadWord, ParseDirection;
  }

  /** A command read where the position has become -1 is none, and there is no instruction either. */
  lemma NothingToRead(s: State, answers: seq<Answer>)
    requires s.Running? && s.slot.pos == -1 && |answers| >= 2
    ensures Run(s, answers) == Halted
  {
    var a, b, rest := answers[0], answers[1], answers[2..];
    assert answers == [a] + ([b] + rest) && ([b] + rest)[1..] == rest;
    hide Run;
    OneStep(s, a, [b] + rest);
    OneStep(Step(s, a), b, rest);
    assert SkipLabels(s.slot.text, -1) == -1;
    assert s.place == ReadCommand ==> CommandWord(s.slot.text, -1) == Read("", -1);
    HaltedForGood([b] + rest);
    HaltedForGood(rest);
  }

  /** An IF without a direction or a kind where it needs one goes on at position -1, with
      a command if it holds and an instruction if not, and finds nothing there. */
  lemma IfErrorFinishes(s: State, w: int, a: Answer, rest: seq<Answer>)
    requires Reads(s, "IF", w) && AfterCondition(s.slot.text, ReadWord(s.slot.text, w), a.kind).None?
    ensures !a.shifted && a.holds ==> Run(s, [a] + rest) == Chains(s.slot, -1, s.ins + 1, a.stats, rest)
    ensures !a.shifted && !a.holds ==> Run(s, [a] + rest) == GoesOn(s.slot, -1, s.ins + 1, a.stats, rest)
    ensures |rest| >= 2 ==> Run(s, [a] + rest) == Halted
  {
    hide CommandWord, Run, ReadWord, AfterCondition, Step, Next, Failed;
    OneStep(s, a, rest);
    StepIsOwn(s, "IF", w, a);
    FailedPosition(s.slot, a);
    NextRuns(s.slot, -1, s.ins + 1, a.stats, rest);
    if |rest| >= 2 && a.holds {
      NothingToRead(Step(s, a), rest);
    } else if |rest| >= 2 {
      FailedFinishes(s.slot, s.ins + 1, a, rest);
    }
  }

  lemma FailedPosition(slot: Slot, a: Answer)
    ensures Failed(slot, a).pos == -1 && (!a.shifted ==> Failed(slot, a) == Slot(slot.text, -1, slot.loose))
  {
  }

  /** So does a TRY without a direction, wherever its push can return: when its way is
      blocked a command is looked for at position -1. */
  lemma TryErrorFinishes(s: State, w: int, a: Answer, rest: seq<Answer>)
    requires Reads(s, "TRY", w)
    requires !ParseDirection(s.slot.text, ReadWord(s.slot.text, w), a.compass, 0).ok && !Failed(s.slot, a).loose
    ensures !a.shifted && a.blocked ==> Run(s, [a] + rest) == Chains(s.slot, -1, s.ins + 1, a.stats, rest)
    ensures !a.blocked || |rest| >= 2 ==> Run(s, [a] + rest) == Halted
  {
    hide CommandWord, Run, ReadWord, ParseDirection, Step, Failed;
    OneStep(s, a, rest);
    StepIsOwn(s, "TRY", w, a);
    FailedPosition(s.slot, a);
    if a.blocked && |rest| >= 2 {
      NothingToRead(Step(s, a), rest);
    }
    HaltedForGood(rest);
  }

  /** TAKE of more than there is, or GIVE past the largest number there is, goes on to
      the command behind the number; otherwise the next line comes. */
  lemma CounterGoesOn(s: State, word: string, w: int, a: Answer, rest: seq<Answer>, q: int)
    requires Reads(s, word, w) && (word == "GIVE" || word == "TAKE") && a.counter >= 0
    requires ReadWord(s.slot.text, w).word in {"HEALTH", "AMMO", "GEMS", "TORCHES", "SCORE", "TIME"}
    ensures var v := ReadValue(s.slot.text, ReadWord(s.slot.text, w).pos);
      var short := v.0 > 0 && if word == "TAKE" then v.0 > a.counter else a.counter + v.0 > 32767;
      && (short ==> Run(s, [a] + rest) == Chains(s.slot, v.1, s.ins + 1, s.stats, rest))
      && (!short && PastLine(s.slot.text, v.1, q) ==>
            Run(s, [a] + rest) == GoesOn(s.slot, q, s.ins + 1, s.stats, rest))
  {
    hide CommandWord, Run, ReadWord, ReadValue, LineEnd, PastLine, Step, Next, Reads;
    ReadsCommand(s, word, w);
    OneStep(s, a, rest);
    StepIsOwn(s, word, w, a);
    var v := ReadValue(s.slot.text, ReadWord(s.slot.text, w).pos);
    if PastLine(s.slot.text, v.1, q) {
      OnePastLine(s.slot.text, v.1, q);
      NextRuns(s.slot, q, s.ins + 1, s.stats, rest);
    }
  }

  /** A line without a command after its '#' is left where the reader stands. */
  lemma NoCommandGoesOn(s: State, w: int, a: Answer, rest: seq<Answer>)
    requires Reads(s, "", w)
    ensures Run(s, [a] + rest) ==
      Run(Running(Slot(s.slot.text, w, s.slot.loose), s.ins, ReadInstruction, s.stats), rest)
  {
    hide CommandWord, Run, Step, ReadWord;
    OneStep(s, a, rest);
    StepIsOwn(s, "", w, a);
  }

  /** GO with a step ends the turn. */
  lemma GoEnds(s: State, w: int, a: Answer, rest: seq<Answer>)
    requires Reads(s, "GO", w)
    ensures var d := ParseDirection(s.slot.text, ReadWord(s.slot.text, w), a.compass, 0);
      d.dx != 0 || d.dy != 0 ==> Run(s, [a] + rest) == Halted
  {
    hide CommandWord, Run, ReadWord, ParseDirection, Step;
    OneStep(s, a, rest);
    GoIsOwn(s, w, a);
  }

  lemma GoIsOwn(s: State, w: int, a: Answer)
    requires Reads(s, "GO", w)
    ensures Step(s, a) == GoStep(s, ReadWord(s.slot.text, w), a)
  {
    hide CommandWord, OtherStep, GoStep, TryStep, IfStep, CounterStep, ReadWord;
    ReadsCommand(s, "GO", w);
  }

  /** ZAP and RESTORE go on behind their line of the rewritten program; BIND, when it
      finds a program, behind the first line of that. */
  lemma RewriteGoesOn(s: State, word: string, w: int, a: Answer, rest: seq<Answer>, q: int)
    requires Reads(s, word, w) && word in {"ZAP", "RESTORE", "BIND"}
    requires PastLine(if word == "BIND" && !a.sent then s.slot.text else a.after.text,
                      if word == "BIND" && a.sent then 0 else ReadWord(s.slot.text, w).pos, q)
    ensures Run(s, [a] + rest) ==
      GoesOn(if word == "BIND" && !a.sent then s.slot else a.after, q, s.ins + 1, s.stats, rest)
  {
    hide CommandWord, Run, Step, OtherStep, Next, PastLine, ReadWord;
    OneStep(s, a, rest);
    StepIsOther(s, word, w, a);
    RewriteStep(s, word, w, a);
    var slot := if word == "BIND" && !a.sent then s.slot else a.after;
    OnePastLine(slot.text, if word == "BIND" && a.sent then 0 else ReadWord(s.slot.text, w).pos, q);
    NextRuns(slot, q, s.ins + 1, s.stats, rest);
  }

  lemma RewriteStep(s: State, word: string, w: int, a: Answer)
    requires s.Running? && word in {"ZAP", "RESTORE", "BIND"}
    ensures var slot := if word == "BIND" && !a.sent then s.slot else a.after;
      var p := if word == "BIND" && a.sent then 0 else ReadWord(s.slot.text, w).pos;
      OtherStep(s, Read(word, w), a) == Next(Slot(slot.text, LineEnd(slot.text, p), slot.loose), s.ins + 1, s.stats)
  {
    hide LineEnd, ReadWord, ReadValue, Next, ParseDirection, ColonAt;
  }

  /** PUT and CHANGE go on with whatever program stands in the slot then, where they leave it. */
  lemma PlacingGoesOn(s: State, word: string, w: int, a: Answer, rest: seq<Answer>)
    requires Reads(s, word, w) && (word == "PUT" || word == "CHANGE")
    ensures Run(s, [a] + rest) == GoesOn(a.after, a.after.pos, s.ins + 1, a.stats, rest)
  {
    hide CommandWord, Run, Step, OtherStep, Next;
    OneStep(s, a, rest);
    StepIsOther(s, word, w, a);
    PlacingStep(s, word, w, a);
    NextRuns(a.after, a.after.pos, s.ins + 1, a.stats, rest);
  }

  lemma PlacingStep(s: State, word: string, w: int, a: Answer)
    requires s.Running? && (word == "PUT" || word == "CHANGE")
    ensures OtherStep(s, Read(word, w), a) ==
      Next(Slot(a.after.text, a.after.pos, a.after.loose), s.ins + 1, a.stats)
  {
    hide LineEnd, ReadWord, ReadValue, Next, ParseDirection, ColonAt;
  }

  // ---- Words, numbers and directions -------------------------------------

  /** Letters of either case, digits, ':' and '_'. */
  predicate InWord(c: char) {
    'A' <= c <= 'Z' || 'a' <= c <= 'z' || '0' <= c <= '9' || c == ':' || c == '_'
  }

  /** The same letter as a capital; anything else as it is. */
  predicate Capital(c: char, up: char) {
    if 'a' <= c <= 'z' then up as int == c as int - 32 else up == c
  }

  lemma {:induction false} SpacesSkipped(t: string, p: nat, q: nat)
    requires p <= q <= |t| && (forall k :: p <= k < q ==> t[k] == ' ') && (q < |t| ==> t[q] != ' ')
    ensures SkipSpaces(t, p) == q
    decreases q - p
  {
    if p < q {
      SpacesSkipped(t, p + 1, q);
    }
  }

  lemma {:induction false} WordPassed(t: string, q: nat, e: nat)
    requires q <= e <= |t| && (forall k :: q <= k < e ==> InWord(t[k])) && (e < |t| ==> !InWord(t[e]))
    ensures WordEnd(t, q) == e
    decreases e - q
  {
    if q < e {
      WordPassed(t, q + 1, e);
    }
  }

  /** Spaces, then a word from q to e that does not start with a digit: the word is read
      in capitals, and the reader stands behind it, or on its last character when the
      text ends there. */
  lemma WordIsRead(t: string, p: nat, q: nat, e: nat)
    requires p <= q < e <= |t| && (forall k :: p <= k < q ==> t[k] == ' ') && !('0' <= t[q] <= '9')
    requires (forall k :: q <= k < e ==> InWord(t[k])) && (e < |t| ==> !InWord(t[e]))
    ensures var r := ReadWord(t, p);
      && |r.word| == e - q && (forall k :: 0 <= k < e - q ==> Capital(t[q + k], r.word[k]))
      && r.pos == if e < |t| then e else e - 1
  {
    SpacesSkipped(t, p, q);
    WordPassed(t, q, e);
    hide SkipSpaces, WordEnd;
    assert WordSpan(t, p) == (q, e);
    assert forall k :: 0 <= k < e - q ==> t[q..e][k] == t[q + k];
  }

  lemma OneDigit(t: string, at: nat, n: nat)
    requires n < 32768 && at < |t| && t[at] == (n % 10 + '0' as int) as char
    ensures Digit(t[at]) && Number(t, at, n / 10) == Number(t, at + 1, n)
  {
    assert n / 10 * 10 + (t[at] as int - '0' as int) == n;
    assert Wrap(n) == n;
  }

  lemma {:induction false} AllDigits(n: nat)
    ensures forall k :: 0 <= k < |Decimal(n)| ==> Digit(Decimal(n)[k])
  {
    if n >= 10 {
      AllDigits(n / 10);
    }
  }

  lemma LastDigit(n: nat)
    ensures |Decimal(n)| >= 1 && Decimal(n)[|Decimal(n)| - 1] == (n % 10 + '0' as int) as char
    ensures n >= 10 ==> Decimal(n)[..|Decimal(n)| - 1] == Decimal(n / 10)
    ensures n < 10 ==> |Decimal(n)| == 1
  {
  }

  lemma {:induction false} DigitsRead(t: string, q: nat, n: nat)
    requires n < 32768 && q + |Decimal(n)| <= |t| && t[q..q + |Decimal(n)|] == Decimal(n)
    ensures Number(t, q, 0) == Number(t, q + |Decimal(n)|, n)
    decreases n
  {
    hide Decimal, Number;
    LastDigit(n);
    var d := Decimal(n);
    var last := q + |d| - 1;
    assert t[last] == t[q..q + |d|][|d| - 1];
    OneDigit(t, last, n);
    if n >= 10 {
      assert t[q..last] == t[q..q + |d|][..|d| - 1];
      DigitsRead(t, q, n / 10);
    }
  }

  lemma {:induction false} DigitsPassed(t: string, q: nat, e: nat)
    requires q <= e <= |t| && (forall k :: q <= k < e ==> Digit(t[k])) && (e < |t| ==> !Digit(t[e]))
    ensures DigitsEnd(t, q) == e
    decreases e - q
  {
    if q < e {
      DigitsPassed(t, q + 1, e);
    }
  }

  /** A number in decimal is read back, and the reader stands behind it. */
  lemma NumberIsRead(t: string, p: nat, q: nat, n: nat)
    requires n < 32768 && p <= q && q + |Decimal(n)| < |t| && t[q..q + |Decimal(n)|] == Decimal(n)
    requires (forall k :: p <= k < q ==> t[k] == ' ') && !('0' <= t[q + |Decimal(n)|] <= '9')
    ensures ReadValue(t, p) == (n, q + |Decimal(n)|)
  {
    var e := q + |Decimal(n)|;
    DigitsRead(t, q, n);
    AllDigits(n);
    LastDigit(n);
    hide Decimal;
    assert forall k :: q <= k < e ==> t[k] == t[q..e][k - q];
    SpacesSkipped(t, p, q);
    DigitsPassed(t, q, e);
    hide SkipSpaces, DigitsEnd;
  }

  /** Where no digit comes after the spaces there is no number: -1, and nothing is taken. */
  lemma NoNumberIsRead(t: string, p: nat, q: nat)
    requires p <= q <= |t| && (forall k :: p <= k < q ==> t[k] == ' ')
    requires q < |t| ==> t[q] != ' ' && !('0' <= t[q] <= '9')
    ensures ReadValue(t, p) == (-1, if q < |t| || q == 0 then q else q - 1)
  {
    SpacesSkipped(t, p, q);
    hide SkipSpaces;
  }

  /** North is up, and the compass turns: CW from north over east, CCW the other way,
      OPP half around, RNDP a quarter one way or the other. */
  lemma CompassTurns(t: string, r: Read, c: Compass, k: nat)
    requires Turn(r.word)
    ensures var d, e := ParseDirection(t, ReadWord(t, r.pos), c, k), ParseDirection(t, r, c, k);
      && e.ok == d.ok && e.pos == d.pos
      && (-32768 < d.dx && -32768 < d.dy ==>
            && (r.word == "CW" ==> e.dx == -d.dy && e.dy == d.dx)
            && (r.word == "CCW" ==> e.dx == d.dy && e.dy == -d.dx)
            && (r.word == "OPP" ==> e.dx == -d.dx && e.dy == -d.dy)
            && (r.word == "RNDP" && d.drawn < |c.dice| && c.dice[d.drawn] == 0 ==> e.dx == -d.dy && e.dy == d.dx)
            && (r.word == "RNDP" && d.drawn < |c.dice| && c.dice[d.drawn] == 1 ==> e.dx == d.dy && e.dy == -d.dx))
      && e.drawn == if r.word == "RNDP" then d.drawn + 1 else d.drawn
  {
    hide ReadWord;
  }

  predicate Steps(d: Dir, dx: int, dy: int) { d.ok && d.dx == dx && d.dy == dy }

  lemma ReadsPlain(t: string, r: Read, c: Compass, k: nat)
    requires !Turn(r.word)
    ensures ParseDirection(t, r, c, k) == Plain(r, c, k)
  {
    hide Plain, ReadWord;
  }

  /** The compass has its names: up, right, down, left and nowhere. */
  lemma CompassNames(t: string, word: string, p: int, c: Compass, k: nat)
    ensures var d := ParseDirection(t, Read(word, p), c, k);
      && (word in {"N", "NORTH"} ==> Steps(d, 0, -1)) && (word in {"E", "EAST"} ==> Steps(d, 1, 0))
      && (word in {"S", "SOUTH"} ==> Steps(d, 0, 1)) && (word in {"W", "WEST"} ==> Steps(d, -1, 0))
      && (word in {"I", "IDLE"} ==> Steps(d, 0, 0))
  {
    if !Turn(word) {
      ReadsPlain(t, Read(word, p), c, k);
    }
    hide ParseDirection;
  }

  /** The others ask the world, and the random ones never stand still: RND draws from
      three and, on the middle one, from two; RNDNS and RNDNE from two. */
  lemma CompassDraws(t: string, word: string, p: int, c: Compass, k: nat)
    ensures var d := ParseDirection(t, Read(word, p), c, k);
      && (word == "FLOW" ==> Steps(d, c.flow.0, c.flow.1)) && (word == "SEEK" ==> Steps(d, c.seek.0, c.seek.1))
      && (word == "RND" ==> d.ok && (d.dx, d.dy) in {(0, -1), (0, 1), (-1, 0), (1, 0)})
      && (word == "RNDNS" ==> d.ok && (d.dx, d.dy) in {(0, -1), (0, 1)})
      && (word == "RNDNE" ==> d.ok && (d.dx, d.dy) in {(0, -1), (1, 0)})
      && (k + 1 < |c.dice| ==> var first, second := c.dice[k], c.dice[k + 1];
            && (word == "RND" && first == 0 ==> d.dx == -1 && d.drawn == k + 1)
            && (word == "RND" && first == 2 ==> d.dx == 1 && d.drawn == k + 1)
            && (word == "RND" && first == 1 && second == 0 ==> d.dy == -1 && d.drawn == k + 2)
            && (word == "RND" && first == 1 && second == 1 ==> d.dy == 1 && d.drawn == k + 2)
            && (word == "RNDNS" && first == 0 ==> d.dy == -1) && (word == "RNDNS" && first == 1 ==> d.dy == 1)
            && (word == "RNDNE" && first == 0 ==> d.dy == -1) && (word == "RNDNE" && first == 1 ==> d.dx == 1))
  {
    if !Turn(word) {
      ReadsPlain(t, Read(word, p), c, k);
    }
    hide ParseDirection;
  }
}
