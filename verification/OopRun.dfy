/** The run loop of the interpreter (engine/oop.go, OopExecute): from one visit of
    its two labels, ReadInstruction and ReadCommand, to the next. What the text
    decides is computed exactly; what the world decides is an `Answer`. */
module OopRun {
  import opened GameVars
  import opened OopText
  import opened OopReading

  /** The stat slot the interpreter points into: its program, its data position, and
      whether the tile where its stat stands is loose: not walkable, yet one that a
      push with a zero step takes hold of. Removing a stat below it moves another
      stat into the slot. */
  datatype Slot = Slot(text: string, pos: int, loose: bool)

  datatype Place = ReadInstruction | ReadCommand

  /** A diverged run is inside a push that calls itself with the same arguments. */
  datatype State =
    | Running(slot: Slot, ins: nat, place: Place, stats: nat)
    | Halted
    | Diverged

  /** What the world decides during one step. */
  datatype Answer = Answer(
    compass: Compass,
    blocked: bool,   // TRY: the square ahead is not walkable after the push
    removed: nat,    // TRY: how many stats the push removed
    holds: bool,     // IF: the value of the condition
    kind: bool,      // IF ANY and BECOME: the word names an element
    counter: Int16,  // GIVE and TAKE: the counter named
    sent: bool,      // SEND and words that are no command: the message moved the sender; BIND: a program was found
    shifted: bool,   // OopError: removing the old message moved another stat into the slot
    after: Slot,     // what the slot holds after a command that may replace its program or move its position
    stats: nat)      // and how many stats there are then

  predicate Fits(s: Slot) { |s.text| < 0x8000 }

  /** The program ends in a '#' that nothing follows. */
  predicate EndsBare(t: string) { t != "" && t[|t| - 1] == '#' }

  // ---- Programs that can push their own square ---------------------------

  /** GO or TRY with these words can push the square it stands on: on a loose tile
      when the step is zero, and where the error message can move a loose stat into
      the slot, also when they are no direction. */
  predicate Strands(t: string, w: Read, loose: bool, shifts: bool) {
    var d := ParseDirection(t, w, CALM, 0);
    Still(d) && (loose || (shifts && !d.ok))
  }

  /** The commands chained from p on, each taken when it does not hold the chain up,
      come to such a GO or TRY. */
  predicate HazardFrom(t: string, p: int, loose: bool, shifts: bool)
    decreases Rest(t, p)
  {
    CommandAdvances(t, p);
    var r := CommandWord(t, p);
    ReadWordAdvances(t, r.pos);
    var w := ReadWord(t, r.pos);
    if r.word == "GO" then Strands(t, w, loose, shifts)
    else if r.word == "TRY" then
      var d := ParseDirection(t, w, CALM, 0);
      Strands(t, w, loose, shifts) || (d.ok && HazardFrom(t, d.pos, loose, shifts))
    else if r.word == "IF" then
      var q := AfterCondition(t, w, true);
      q.Some? && HazardFrom(t, q.value, loose, shifts)
    else if r.word == "GIVE" || r.word == "TAKE" then
      Counter(w.word) && ReadValue(t, w.pos).0 > 0 && HazardFrom(t, ReadValue(t, w.pos).1, loose, shifts)
    else false
  }

  /** Some '#' of the program starts such a chain. */
  ghost predicate Hazardous(t: string, loose: bool, shifts: bool) {
    exists p :: 0 <= p < |t| && t[p] == '#' && HazardFrom(t, p + 1, loose, shifts)
  }

  /** Worlds that leave harmless programs harmless: none rewrites the program into one
      that spins or pushes its own square, and the player stands elsewhere. `shifts`
      says that the removal of an old message may move a loose stat into the slot. */
  ghost predicate Sane(a: Answer, shifts: bool) {
    && Fits(a.after) && !EndsBare(a.after.text) && a.stats <= MAX_STAT && a.compass.seek != (0, 0)
    && !Hazardous(a.after.text, a.after.loose, shifts)
    && (a.shifted && !shifts ==> !a.after.loose)
    && (a.removed > 0 ==> !HazardFrom(a.after.text, a.after.pos, a.after.loose, shifts))
  }

  // ---- One step ----------------------------------------------------------

  /** The end of the loop body: on to the next instruction unless too many have run. */
  function Next(slot: Slot, ins: nat, stats: nat): State {
    if ins > 32 then Halted else Running(slot, ins, ReadInstruction, stats)
  }

  /** OopError: the new message replaces the old one, whose removal may move another
      stat into the slot; then the data position of the slot becomes -1. */
  function Failed(s: Slot, a: Answer): Slot {
    if a.shifted then Slot(a.after.text, -1, a.after.loose) else Slot(s.text, -1, s.loose)
  }

  function ReadInstructionStep(s: State, a: Answer): State
    requires s.Running?
  {
    var t, loose := s.slot.text, s.slot.loose;
    var q := SkipLabels(t, s.slot.pos);
    var c, p := CharAt(t, q), After(t, q);
    if c == NUL then Halted
    else if c == '\'' || c == '@' then Next(Slot(t, LineEnd(t, p), loose), s.ins, s.stats)
    else if c == '/' then Halted
    else if c == '?' then
      if ParseDirection(t, ReadWord(t, p), a.compass, 0).ok then Halted else Next(Failed(s.slot, a), s.ins, a.stats)
    else if c == '#' then s.(slot := Slot(t, p, loose), place := ReadCommand)
    else if c == CR then Next(Slot(t, p, loose), s.ins, s.stats)
    else Next(Slot(t, LineEnd(t, p), loose), s.ins, s.stats)
  }

  function ReadCommandStep(s: State, a: Answer): State
    requires s.Running?
  {
    var t := s.slot.text;
    var r := CommandWord(t, s.slot.pos);
    if r.word == "" then s.(slot := s.slot.(pos := r.pos), place := ReadInstruction)
    else if r.word == "GO" then GoStep(s, ReadWord(t, r.pos), a)
    else if r.word == "TRY" then TryStep(s, ReadWord(t, r.pos), a)
    else if r.word == "IF" then IfStep(s, ReadWord(t, r.pos), a)
    else if r.word == "GIVE" || r.word == "TAKE" then
      CounterStep(s, r.word == "GIVE", ReadWord(t, r.pos), a)
    else OtherStep(s, r, a)
  }

  /** The other commands that always end the turn. */
  predicate Ends(word: string) {
    word == "SHOOT" || word == "THROWSTAR" || word == "IDLE" || word == "DIE"
  }

  /** The commands without an argument that go on to the next line. */
  predicate Bare(word: string) {
    word == "LOCK" || word == "UNLOCK" || word == "ENDGAME" || word == "PLAY"
  }

  /** A command without a jump to ReadCommand: what it reads, and where it leaves the slot. */
  function OtherStep(s: State, r: Read, a: Answer): State
    requires s.Running?
  {
    var t, loose, ins := s.slot.text, s.slot.loose, s.ins + 1;
    if Ends(r.word) then Halted
    else if r.word == "END" then Next(Slot(t, -1, loose), ins, s.stats)
    else if r.word == "RESTART" then Next(Slot(t, 0, loose), ins, s.stats)
    else if Bare(r.word) then Next(Slot(t, LineEnd(t, r.pos), loose), ins, s.stats)
    else if r.word == "WALK" then
      var d := ParseDirection(t, ReadWord(t, r.pos), a.compass, 0);
      if d.ok then Next(Slot(t, LineEnd(t, d.pos), loose), ins, s.stats) else Next(Failed(s.slot, a), ins, a.stats)
    else if r.word == "SET" || r.word == "CLEAR" then
      Next(Slot(t, LineEnd(t, ReadWord(t, r.pos).pos), loose), ins, s.stats)
    else if r.word == "CYCLE" || r.word == "CHAR" then
      Next(Slot(t, LineEnd(t, ReadValue(t, r.pos).1), loose), ins, s.stats)
    else if r.word == "BECOME" then
      if a.kind then Halted else Next(Failed(s.slot, a), ins, a.stats)
    else if r.word == "ZAP" || r.word == "RESTORE" then
      Next(a.after.(pos := LineEnd(a.after.text, ReadWord(t, r.pos).pos)), ins, s.stats)
    else if r.word == "BIND" && a.sent then
      Next(a.after.(pos := LineEnd(a.after.text, 0)), ins, s.stats)
    else if r.word == "BIND" then
      Next(Slot(t, LineEnd(t, ReadWord(t, r.pos).pos), loose), ins, s.stats)
    else if r.word == "PUT" || r.word == "CHANGE" then Next(a.after, ins, a.stats)
    else if a.sent then Next(Slot(t, a.after.pos, loose), ins, s.stats)
    else if r.word == "SEND" then Next(Slot(t, LineEnd(t, ReadWord(t, r.pos).pos), loose), ins, s.stats)
    else if ColonAt(r.word) >= 0 then Next(Slot(t, LineEnd(t, r.pos), loose), ins, s.stats)
    else Next(Failed(s.slot, a), ins, a.stats)
  }

  /** GO and TRY do not look whether the step is zero: on a loose tile the push is
      then called on the running stat's own square, and never returns. */
  function GoStep(s: State, r: Read, a: Answer): State
    requires s.Running?
  {
    var d := ParseDirection(s.slot.text, r, a.compass, 0);
    if Still(d) && (if d.ok then s.slot else Failed(s.slot, a)).loose then Diverged else Halted
  }

  function TryStep(s: State, r: Read, a: Answer): State
    requires s.Running?
  {
    var d := ParseDirection(s.slot.text, r, a.compass, 0);
    if Still(d) && (if d.ok then s.slot else Failed(s.slot, a)).loose then Diverged
    else if !a.blocked then Halted
    else if !d.ok then Running(Failed(s.slot, a), s.ins + 1, ReadCommand, a.stats)
    else if a.removed == 0 || s.stats == 0 then
      Running(s.slot.(pos := d.pos), s.ins + 1, ReadCommand, s.stats)
    else
      Running(a.after, s.ins + 1, ReadCommand, if a.removed <= s.stats then s.stats - a.removed else 0)
  }

  function IfStep(s: State, r: Read, a: Answer): State
    requires s.Running?
  {
    var t := s.slot.text;
    match AfterCondition(t, r, a.kind)
    case None =>
      if a.holds then Running(Failed(s.slot, a), s.ins + 1, ReadCommand, a.stats)
      else Next(Failed(s.slot, a), s.ins + 1, a.stats)
    case Some(p) =>
      if a.holds then Running(s.slot.(pos := p), s.ins + 1, ReadCommand, s.stats)
      else Next(s.slot.(pos := LineEnd(t, p)), s.ins + 1, s.stats)
  }

  /** The counter would fall below zero, in 16 bits: giving can overflow too. */
  predicate Short(give: bool, counter: Int16, value: Int16) {
    value > 0 && Wrap(if give then counter + value else counter - value) < 0
  }

  function CounterStep(s: State, give: bool, r: Read, a: Answer): State
    requires s.Running?
  {
    var t := s.slot.text;
    if !Counter(r.word) then Next(s.slot.(pos := LineEnd(t, r.pos)), s.ins + 1, s.stats)
    else
      var v := ReadValue(t, r.pos);
      if Short(give, a.counter, v.0) then Running(s.slot.(pos := v.1), s.ins + 1, ReadCommand, s.stats)
      else Next(s.slot.(pos := LineEnd(t, v.1)), s.ins + 1, s.stats)
  }

  function Step(s: State, a: Answer): State {
    match s
    case Halted => Halted
    case Diverged => Diverged
    case Running(_, _, ReadInstruction, _) => ReadInstructionStep(s, a)
    case Running(_, _, ReadCommand, _) => ReadCommandStep(s, a)
  }

  function Run(s: State, answers: seq<Answer>): State
    decreases |answers|
  {
    if answers == [] then s else Run(Step(s, answers[0]), answers[1..])
  }
}
