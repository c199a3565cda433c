/** Which programs end: a measure that every step of a harmless run lowers, and the
    runs of the others, which never halt (engine/oop.go, OopExecute). */
module OopEnds {
  import opened GameVars
  import opened OopText
  import opened OopReading
  import opened OopRun

  // ---- The measure -------------------------------------------------------

  /** Steps that reading alone can still take. */
  function Reading(s: Slot, place: Place): nat {
    match place
    case ReadInstruction => 2 * Rest(s.text, s.pos)
    case ReadCommand => if s.pos >= |s.text| then 3 else 2 * Rest(s.text, s.pos) + 1
  }

  function Budget(ins: nat): nat { if ins <= 33 then 33 - ins else 0 }

  /** An upper bound on the steps left: first the command budget, then the stats a
      push can still remove, then the text. */
  function StepsLeft(s: State): nat {
    match s
    case Halted => 0
    case Diverged => 0
    case Running(slot, ins, place, stats) =>
      if slot.pos < 0 then (if place == ReadCommand then 2 else 1)
      else 3 + Budget(ins) * 10000000 + stats * 65540 + Reading(slot, place)
  }

  const STEP_LIMIT := 340000003

  /** What every step keeps, and what keeps the run from diverging. */
  ghost predicate Good(s: State, shifts: bool) {
    match s
    case Halted => true
    case Diverged => false
    case Running(slot, _, place, stats) =>
      && Fits(slot) && !EndsBare(slot.text) && stats <= MAX_STAT
      && !Hazardous(slot.text, slot.loose, shifts)
      && (place == ReadCommand ==> !HazardFrom(slot.text, slot.pos, slot.loose, shifts))
  }

  lemma ReadingBound(s: Slot, place: Place)
    requires Fits(s)
    ensures Reading(s, place) < 65540 - 3
  {
  }

  /** Spending budget pays for anything the command did to the slot. */
  lemma BudgetPays(s: State, n: State)
    requires s.Running? && s.slot.pos >= 0 && s.ins <= 32
    requires n.Running? ==> n.ins == s.ins + 1 && n.stats <= MAX_STAT && Fits(n.slot)
    ensures StepsLeft(n) < StepsLeft(s)
  {
    if n.Running? {
      ReadingBound(n.slot, n.place);
    }
  }

  /** Past the budget, a removed stat or a shorter text pays. */
  lemma ChainPays(s: State, n: State)
    requires s.Running? && s.slot.pos >= 0 && n.Running? && n.ins >= s.ins
    requires Fits(n.slot)
    requires n.stats < s.stats || (n.stats == s.stats && Reading(n.slot, n.place) < Reading(s.slot, s.place))
    ensures StepsLeft(n) < StepsLeft(s)
  {
    ReadingBound(n.slot, n.place);
    assert Budget(n.ins) <= Budget(s.ins);
    assert n.stats < s.stats ==> n.stats * 65540 + 65540 <= s.stats * 65540;
  }

  /** The program in a slot is the one that was there, or the one the world left. */
  predicate Holds(n: Slot, s: Slot, a: Answer) {
    || (n.text == s.text && n.loose == s.loose)
    || (n.text == a.after.text && n.loose == a.after.loose)
  }

  lemma OtherGoesOn(s: State, r: Read, a: Answer)
    requires s.Running?
    ensures match OtherStep(s, r, a)
      case Halted => true
      case Diverged => false
      case Running(slot, ins, place, stats) =>
        && Holds(slot, s.slot, a) && ins == s.ins + 1 <= 32 && place == ReadInstruction
        && (stats == s.stats || stats == a.stats)
  {
    hide ReadWord, ParseDirection, ReadValue, LineEnd, ColonAt, Ends, Bare;
  }

  lemma OtherSpends(s: State, r: Read, a: Answer, shifts: bool)
    requires s.Running? && Good(s, shifts) && Sane(a, shifts)
    ensures var n := OtherStep(s, r, a);
      Good(n, shifts) && (n.Running? ==> n.ins == s.ins + 1 <= 32)
  {
    hide OtherStep, Hazardous, HazardFrom;
    OtherGoesOn(s, r, a);
  }

  lemma {:induction false} InstructionShrinks(s: State, a: Answer, shifts: bool)
    requires Good(s, shifts) && Sane(a, shifts) && s.Running? && s.place == ReadInstruction
    ensures var n := ReadInstructionStep(s, a);
      Good(n, shifts) && StepsLeft(n) < StepsLeft(s)
  {
    hide ParseDirection, ReadWord, LineEnd, SkipLabels, HazardFrom;
    var n := ReadInstructionStep(s, a);
    if n.Running? && s.slot.pos >= 0 && n.slot.pos >= 0 {
      ChainPays(s, n);
    }
  }

  /** Where there is no text to read, there is no command. */
  lemma NothingThere(t: string, loose: bool, shifts: bool)
    ensures !HazardFrom(t, -1, loose, shifts)
  {
    hide CommandWord, ReadWord;
    CommandAdvances(t, -1);
  }

  /** The chained commands: the one that is read neither diverges nor reaches one that would. */
  lemma {:induction false} ChainStaysGood(s: State, a: Answer, shifts: bool)
    requires Good(s, shifts) && Sane(a, shifts) && s.Running? && s.place == ReadCommand
    ensures Good(ReadCommandStep(s, a), shifts)
  {
    hide CommandWord, ReadWord, ParseDirection, AfterCondition, ReadValue, LineEnd, OtherStep, Hazardous, Counter;
    var t := s.slot.text;
    var r := CommandWord(t, s.slot.pos);
    var w := ReadWord(t, r.pos);
    OtherSpends(s, r, a, shifts);
    TextDecides(t, w, a.compass, 0);
    NothingThere(t, s.slot.loose, shifts);
    NothingThere(a.after.text, a.after.loose, shifts);
    KindOnlyRefuses(t, w, a.kind);
  }

  /** Where the word after ANY names no element, the condition reports an error;
      otherwise the text alone decides where it ends. */
  lemma {:induction false} KindOnlyRefuses(t: string, r: Read, kind: bool)
    ensures AfterCondition(t, r, kind).Some? ==> AfterCondition(t, r, kind) == AfterCondition(t, r, true)
    decreases if r.word == "NOT" then Rest(t, r.pos) + 1 else 0
  {
    hide ReadWord, ParseDirection, AfterTile;
    if r.word == "NOT" {
      ReadWordAdvances(t, r.pos);
      KindOnlyRefuses(t, ReadWord(t, r.pos), kind);
    }
  }

  lemma {:induction false} CommandShrinks(s: State, a: Answer, shifts: bool)
    requires Good(s, shifts) && Sane(a, shifts) && s.Running? && s.place == ReadCommand
    ensures var n := ReadCommandStep(s, a);
      Good(n, shifts) && StepsLeft(n) < StepsLeft(s)
  {
    hide CommandWord, ReadWord, ParseDirection, AfterCondition, ReadValue, LineEnd, OtherStep, HazardFrom, Hazardous;
    var t := s.slot.text;
    var n := ReadCommandStep(s, a);
    var r := CommandWord(t, s.slot.pos);
    ChainStaysGood(s, a, shifts);
    OtherSpends(s, r, a, shifts);
    CommandAdvances(t, s.slot.pos);
    ReadWordAdvances(t, r.pos);
    if n.Running? && s.slot.pos >= 0 && n.slot.pos >= 0 {
      if s.ins <= 32 && r.word != "" {
        BudgetPays(s, n);
      } else {
        ChainPays(s, n);
      }
    }
  }

  lemma StepShrinks(s: State, a: Answer, shifts: bool)
    requires Good(s, shifts) && Sane(a, shifts) && s.Running?
    ensures Good(Step(s, a), shifts) && 0 <= StepsLeft(Step(s, a)) < StepsLeft(s)
  {
    hide ReadInstructionStep, ReadCommandStep, StepsLeft, Good, Sane;
    if s.place == ReadInstruction {
      InstructionShrinks(s, a, shifts);
    } else {
      CommandShrinks(s, a, shifts);
    }
  }

  // ---- Every run ends ----------------------------------------------------

  lemma {:induction false} RunEnds(s: State, answers: seq<Answer>, shifts: bool)
    requires Good(s, shifts) && (forall a :: a in answers ==> Sane(a, shifts))
    requires |answers| >= StepsLeft(s)
    ensures Run(s, answers).Halted?
    decreases |answers|
  {
    hide Step, Sane, HazardFrom, Hazardous;
    if answers == [] {
      return;
    }
    if s.Running? {
      StepShrinks(s, answers[0], shifts);
    }
    assert s.Halted? ==> Step(s, answers[0]) == s by { HaltedStays(s, answers[0]); }
    RunEnds(Step(s, answers[0]), answers[1..], shifts);
  }

  lemma HaltedStays(s: State, a: Answer)
    ensures !s.Running? ==> Step(s, a) == s
  {
  }

  lemma StepsLeftBound(s: State, shifts: bool)
    requires Good(s, shifts)
    ensures StepsLeft(s) <= STEP_LIMIT
  {
    hide HazardFrom, Hazardous;
    if s.Running? {
      ReadingBound(s.slot, s.place);
      assert Budget(s.ins) * 10000000 <= 33 * 10000000;
      assert s.stats * 65540 <= MAX_STAT * 65540;
    }
  }

  // ---- Runs that do not --------------------------------------------------

  /** On a bare '#' the reader takes the character, finds no word, and steps back onto it. */
  lemma {:induction false} BareHashSpins(s: State, answers: seq<Answer>)
    requires s.Running? && EndsBare(s.slot.text) && s.place == ReadInstruction && s.slot.pos == |s.slot.text| - 1
    requires |answers| % 2 == 0
    ensures Run(s, answers) == s
    decreases |answers|
  {
    if answers != [] {
      var t, p := s.slot.text, s.slot.pos;
      assert SkipLabels(t, p) == p;
      var s1 := Step(s, answers[0]);
      assert s1 == s.(slot := s.slot.(pos := |t|), place := ReadCommand);
      assert ReadWord(t, |t|) == Read("", |t| - 1);
      assert Step(s1, answers[1]) == s;
      assert answers[1..][1..] == answers[2..];
      BareHashSpins(s, answers[2..]);
    }
  }

  /** The answer that takes every chain onwards: squares blocked, conditions met,
      counters too low or too high, nobody moved. */
  function Onwards(give: bool, shifted: bool, shifts: bool): Answer {
    var counter: Int16 := if give then 32767 else 0;
    Answer(CALM, true, 0, true, true, counter, false, shifted, Slot("", 0, shifts), 0)
  }

  lemma OnwardsIsSane(give: bool, shifted: bool, shifts: bool)
    requires shifted ==> shifts
    ensures Sane(Onwards(give, shifted, shifts), shifts)
  {
  }

  lemma {:induction false} HazardDiverges(s: State, shifts: bool) returns (answers: seq<Answer>)
    requires s.Running? && s.place == ReadCommand
    requires HazardFrom(s.slot.text, s.slot.pos, s.slot.loose, shifts)
    ensures (forall a :: a in answers ==> Sane(a, shifts)) && Run(s, answers).Diverged?
    decreases Rest(s.slot.text, s.slot.pos)
  {
    hide CommandWord, ReadWord, ParseDirection, AfterCondition, ReadValue, LineEnd, OtherStep, Hazardous, Counter, Sane;
    var t, loose := s.slot.text, s.slot.loose;
    CommandAdvances(t, s.slot.pos);
    var r := CommandWord(t, s.slot.pos);
    ReadWordAdvances(t, r.pos);
    var w := ReadWord(t, r.pos);
    var a := Onwards(r.word == "GIVE", shifts && !loose, shifts);
    OnwardsIsSane(r.word == "GIVE", shifts && !loose, shifts);
    var n := Step(s, a);
    assert Run(s, [a]) == n by { assert [a][1..] == []; }
    if n.Diverged? {
      answers := [a];
    } else {
      var rest := HazardDiverges(n, shifts);
      answers := [a] + rest;
      assert answers[1..] == rest;
    }
  }

  lemma {:induction false} DivergedStays(answers: seq<Answer>)
    ensures Run(Diverged, answers).Diverged?
    decreases |answers|
  {
    if answers != [] {
      DivergedStays(answers[1..]);
    }
  }

  lemma {:induction false} RunInTwo(s: State, first: seq<Answer>, second: seq<Answer>)
    ensures Run(s, first + second) == Run(Run(s, first), second)
    decreases |first|
  {
    hide Step;
    if first == [] {
      assert first + second == second;
    } else {
      assert (first + second)[1..] == first[1..] + second;
      RunInTwo(Step(s, first[0]), first[1..], second);
    }
  }

  // ---- Exactly which programs end ----------------------------------------

  /** Whatever the world answers, from every position of the program. */
  ghost predicate AlwaysEnds(t: string, loose: bool, shifts: bool, limit: nat) {
    forall p: int, stats: nat, answers: seq<Answer> ::
      stats <= MAX_STAT && |answers| >= limit && (forall a :: a in answers ==> Sane(a, shifts)) ==>
        Run(Running(Slot(t, p, loose), 0, ReadInstruction, stats), answers).Halted?
  }

  lemma {:induction false} BareNeverEnds(t: string, loose: bool, shifts: bool, limit: nat)
    requires EndsBare(t)
    ensures !AlwaysEnds(t, loose, shifts, limit)
  {
    var s := Running(Slot(t, |t| - 1, loose), 0, ReadInstruction, 0);
    OnwardsIsSane(false, false, shifts);
    var answers := seq(2 * limit, i => Onwards(false, false, shifts));
    BareHashSpins(s, answers);
  }

  lemma {:induction false} HazardNeverEnds(t: string, loose: bool, shifts: bool, limit: nat)
    requires Hazardous(t, loose, shifts)
    ensures !AlwaysEnds(t, loose, shifts, limit)
  {
    hide HazardFrom, Sane;
    var p :| 0 <= p < |t| && t[p] == '#' && HazardFrom(t, p + 1, loose, shifts);
    var s := Running(Slot(t, p, loose), 0, ReadInstruction, 0);
    var a := Onwards(false, false, shifts);
    OnwardsIsSane(false, false, shifts);
    var n := s.(slot := s.slot.(pos := p + 1), place := ReadCommand);
    assert SkipLabels(t, p) == p && Step(s, a) == n;
    var chain := HazardDiverges(n, shifts);
    var tail := seq(limit, i => a);
    var answers := [a] + (chain + tail);
    assert answers[1..] == chain + tail;
    RunInTwo(n, chain, tail);
    DivergedStays(tail);
    assert Run(s, answers).Diverged?;
  }

  /** Every run of a program ends, within a fixed number of steps, if and only if the
      program neither ends in a bare '#' nor can push its own square. */
  lemma {:induction false} EndsExactly(t: string, loose: bool, shifts: bool)
    requires |t| < 0x8000
    ensures !EndsBare(t) && !Hazardous(t, loose, shifts) ==> AlwaysEnds(t, loose, shifts, STEP_LIMIT)
    ensures EndsBare(t) || Hazardous(t, loose, shifts) ==>
      forall limit: nat :: !AlwaysEnds(t, loose, shifts, limit)
  {
    hide Sane, Hazardous, HazardFrom, Run;
    if EndsBare(t) || Hazardous(t, loose, shifts) {
      forall limit: nat
        ensures !AlwaysEnds(t, loose, shifts, limit)
      {
        if EndsBare(t) {
          BareNeverEnds(t, loose, shifts, limit);
        } else {
          HazardNeverEnds(t, loose, shifts, limit);
        }
      }
    } else {
      forall p: int, stats: nat, answers: seq<Answer> |
        stats <= MAX_STAT && |answers| >= STEP_LIMIT && (forall a :: a in answers ==> Sane(a, shifts))
        ensures Run(Running(Slot(t, p, loose), 0, ReadInstruction, stats), answers).Halted?
      {
        var s := Running(Slot(t, p, loose), 0, ReadInstruction, stats);
        StepsLeftBound(s, shifts);
        RunEnds(s, answers, shifts);
      }
    }
  }

  /** On a tile that is not loose, and where no message brings a loose stat, nothing is hazardous. */
  lemma {:induction false} NoHazardOnFirmTiles(t: string, p: int)
    ensures !HazardFrom(t, p, false, false)
    decreases Rest(t, p)
  {
    hide CommandWord, ReadWord, ParseDirection, AfterCondition, ReadValue, Counter;
    CommandAdvances(t, p);
    var r := CommandWord(t, p);
    ReadWordAdvances(t, r.pos);
    var w := ReadWord(t, r.pos);
    if r.word == "TRY" {
      NoHazardOnFirmTiles(t, ParseDirection(t, w, CALM, 0).pos);
    } else if r.word == "IF" && AfterCondition(t, w, true).Some? {
      NoHazardOnFirmTiles(t, AfterCondition(t, w, true).value);
    } else if r.word == "GIVE" || r.word == "TAKE" {
      NoHazardOnFirmTiles(t, ReadValue(t, w.pos).1);
    }
  }

  /** So an object's program ends unless its last character is a bare '#'. */
  lemma {:induction false} ObjectsEndUnlessBare(t: string)
    requires |t| < 0x8000
    ensures AlwaysEnds(t, false, false, STEP_LIMIT) <==> !EndsBare(t)
  {
    hide HazardFrom, AlwaysEnds;
    EndsExactly(t, false, false);
    forall p | 0 <= p < |t| && t[p] == '#'
      ensures !HazardFrom(t, p + 1, false, false)
    {
      NoHazardOnFirmTiles(t, p + 1);
    }
  }

  /** A scroll that says "#GO I" hangs; so does an object that walks nowhere after an
      error message has moved a scroll into its slot. */
  lemma GoIdleHangs(limit: nat)
    ensures !AlwaysEnds("#GO I", true, false, limit)
    ensures !AlwaysEnds("#GO UP", false, true, limit)
  {
    hide AlwaysEnds;
    HangsAt("#GO I", "I", true, false);
    HangsAt("#GO UP", "UP", false, true);
    HazardNeverEnds("#GO I", true, false, limit);
    HazardNeverEnds("#GO UP", false, true, limit);
  }

  lemma GoIsRead(t: string)
    requires t == "#GO I" || t == "#GO UP"
    ensures CommandWord(t, 1) == Read("GO", 3)
  {
    assert WordEnd(t, 3) == 3 && WordEnd(t, 2) == 3 && WordEnd(t, 1) == 3;
    assert UpCased(t[1..3]) == "GO";
  }

  lemma WordIsRead(t: string, word: string)
    requires (t == "#GO I" && word == "I") || (t == "#GO UP" && word == "UP")
    ensures ReadWord(t, 3).word == word
  {
    assert SkipSpaces(t, 4) == 4 && SkipSpaces(t, 3) == 4;
    assert WordEnd(t, |t|) == |t| && WordEnd(t, 5) == |t| && WordEnd(t, 4) == |t|;
    assert UpCased(t[4..]) == word;
  }

  lemma HangsAt(t: string, word: string, loose: bool, shifts: bool)
    requires (t == "#GO I" && word == "I" && loose) || (t == "#GO UP" && word == "UP" && shifts)
    ensures Hazardous(t, loose, shifts)
  {
    hide ReadWord, CommandWord, AfterCondition, ReadValue, Counter;
    GoIsRead(t);
    WordIsRead(t, word);
    var w := ReadWord(t, 3);
    assert ParseDirection(t, w, CALM, 0) == Plain(w, CALM, 0);
    assert Strands(t, w, loose, shifts);
    assert t[0] == '#' && HazardFrom(t, 1, loose, shifts);
  }
}
