/** What the interpreter reads from a program before it acts (engine/oop.go): lines,
    labels, directions, conditions and numbers, as functions of the text and a
    position; and the world's part in a direction, as a `Compass`. */
module OopReading {
  import opened GameVars
  import opened OopText

  /** What a direction word asks the world for: what CalcDirectionSeek gives, the step
      of the running stat, and the other outcomes of Random in the order they are drawn. */
  datatype Compass = Compass(seek: (Int16, Int16), flow: (Int16, Int16), dice: seq<nat>)

  /** The stat neither stands on a player's square nor walks anywhere. */
  const CALM := Compass((1, 0), (0, 0), [])

  /** OopSkipLine and OopReadLineToEnd: just past the line end. */
  function LineEnd(t: string, p: int): (r: int)
    ensures if 0 <= p < |t| then p < r <= |t| else r == p
    decreases |t| - p
  {
    if !(0 <= p < |t|) then p
    else if t[p] == CR || t[p] == NUL then p + 1
    else LineEnd(t, p + 1)
  }

  /** Label lines are skipped before an instruction is read. */
  function SkipLabels(t: string, p: int): (r: int)
    ensures if 0 <= p < |t| then p <= r <= |t| else r == p
    ensures CharAt(t, r) != ':'
    decreases |t| - p
  {
    if 0 <= p < |t| && t[p] == ':' then SkipLabels(t, LineEnd(t, p + 1)) else p
  }

  predicate Turn(word: string) { word == "CW" || word == "CCW" || word == "RNDP" || word == "OPP" }

  /** A word is read forwards: the reader stays inside the text, and moves on
      past every word of two letters or more. */
  lemma ReadWordAdvances(t: string, p: int)
    ensures var r := ReadWord(t, p);
      && (0 <= p < |t| ==> p <= r.pos < |t| && (|r.word| >= 2 ==> p < r.pos))
      && (!(0 <= p < |t|) ==> r.word == "" && r.pos == if p > 0 then p - 1 else p)
  {
  }

  function Rest(t: string, p: int): nat {
    if 0 <= p < |t| then |t| - p else 0
  }

  datatype Dir = Dir(ok: bool, dx: Int16, dy: Int16, pos: int, drawn: nat)

  /** Negation in 16 bits. */
  function Neg(v: Int16): Int16 { if v == -32768 then v else -v }

  function Die(c: Compass, k: nat, sides: nat): nat
    requires sides > 0
  {
    if k < |c.dice| then c.dice[k] % sides else 0
  }

  /** A direction word that takes no other word. */
  function Plain(r: Read, c: Compass, k: nat): Dir {
    if r.word == "N" || r.word == "NORTH" then Dir(true, 0, -1, r.pos, k)
    else if r.word == "S" || r.word == "SOUTH" then Dir(true, 0, 1, r.pos, k)
    else if r.word == "E" || r.word == "EAST" then Dir(true, 1, 0, r.pos, k)
    else if r.word == "W" || r.word == "WEST" then Dir(true, -1, 0, r.pos, k)
    else if r.word == "I" || r.word == "IDLE" then Dir(true, 0, 0, r.pos, k)
    else if r.word == "SEEK" then Dir(true, c.seek.0, c.seek.1, r.pos, k)
    else if r.word == "FLOW" then Dir(true, c.flow.0, c.flow.1, r.pos, k)
    else if r.word == "RND" && Die(c, k, 3) == 1 then Dir(true, 0, Die(c, k + 1, 2) * 2 - 1, r.pos, k + 2)
    else if r.word == "RND" then Dir(true, Die(c, k, 3) - 1, 0, r.pos, k + 1)
    else if r.word == "RNDNS" then Dir(true, 0, Die(c, k, 2) * 2 - 1, r.pos, k + 1)
    else if r.word == "RNDNE" && Die(c, k, 2) == 0 then Dir(true, 0, -1, r.pos, k + 1)
    else if r.word == "RNDNE" then Dir(true, 1, 0, r.pos, k + 1)
    else Dir(false, 0, 0, r.pos, k)
  }

  /** A word that turns the direction after it. */
  function Turned(word: string, d: Dir, c: Compass): Dir {
    if word == "OPP" then d.(dx := Neg(d.dx), dy := Neg(d.dy))
    else if word == "CW" then d.(dx := Neg(d.dy), dy := d.dx)
    else if word == "CCW" then d.(dx := d.dy, dy := Neg(d.dx))
    else if Die(c, d.drawn, 2) == 0 then d.(dx := Neg(d.dy), dy := d.dx, drawn := d.drawn + 1)
    else d.(dx := d.dy, dy := Neg(d.dx), drawn := d.drawn + 1)
  }

  /** OopParseDirection on a word already read: whether it is a direction, the step,
      the position after the words it takes, and the outcomes drawn so far. */
  function ParseDirection(t: string, r: Read, c: Compass, k: nat): (d: Dir)
    ensures 0 <= r.pos < |t| ==> r.pos <= d.pos < |t|
    ensures r.word == "" ==> !d.ok
    ensures !d.ok ==> Still(d)
    decreases if Turn(r.word) then Rest(t, r.pos) + 1 else 0
  {
    if Turn(r.word) then
      ReadWordAdvances(t, r.pos);
      Turned(r.word, ParseDirection(t, ReadWord(t, r.pos), c, k), c)
    else Plain(r, c, k)
  }

  predicate Still(d: Dir) { d.dx == 0 && d.dy == 0 }

  /** The text alone decides whether there is a direction and where it ends; and a
      direction that is still in some world is still in the calm one. */
  lemma {:induction false} TextDecides(t: string, r: Read, c: Compass, k: nat)
    ensures var d, e := ParseDirection(t, r, c, k), ParseDirection(t, r, CALM, 0);
      d.ok == e.ok && d.pos == e.pos && (c.seek != (0, 0) && Still(d) ==> Still(e))
    decreases if Turn(r.word) then Rest(t, r.pos) + 1 else 0
  {
    hide ReadWord;
    if Turn(r.word) {
      ReadWordAdvances(t, r.pos);
      TextDecides(t, ReadWord(t, r.pos), c, k);
    }
  }

  predicate ColorName(word: string) {
    || word == "BLUE" || word == "GREEN" || word == "CYAN" || word == "RED"
    || word == "PURPLE" || word == "YELLOW" || word == "WHITE"
  }

  /** The position OopParseTile leaves: a colour, if there is one, and a kind. */
  function AfterTile(t: string, p: int): (r: int)
    ensures 0 <= p < |t| ==> p <= r < |t|
  {
    ReadWordAdvances(t, p);
    var r := ReadWord(t, p);
    if ColorName(r.word) then ReadWordAdvances(t, r.pos); ReadWord(t, r.pos).pos else r.pos
  }

  /** OopCheckCondition on a word already read: the position it leaves, or None
      when it reports an error. */
  function AfterCondition(t: string, r: Read, kind: bool): (q: Option<int>)
    ensures 0 <= r.pos < |t| && q.Some? ==> r.pos <= q.value < |t|
    decreases if r.word == "NOT" then Rest(t, r.pos) + 1 else 0
  {
    ReadWordAdvances(t, r.pos);
    if r.word == "NOT" then AfterCondition(t, ReadWord(t, r.pos), kind)
    else if r.word == "BLOCKED" then
      var d := ParseDirection(t, ReadWord(t, r.pos), CALM, 0);
      if d.ok then Some(d.pos) else None
    else if r.word == "ANY" then
      if kind then Some(AfterTile(t, r.pos)) else None
    else Some(r.pos)
  }

  predicate Counter(word: string) {
    || word == "HEALTH" || word == "AMMO" || word == "GEMS"
    || word == "TORCHES" || word == "SCORE" || word == "TIME"
  }

  function DigitsEnd(t: string, p: nat): (q: nat)
    requires p <= |t|
    ensures p <= q <= |t|
    decreases |t| - p
  {
    if p < |t| && Digit(t[p]) then DigitsEnd(t, p + 1) else p
  }

  /** The int16 an arithmetic result is stored as. */
  function Wrap(v: int): Int16 { (v + 32768) % 65536 - 32768 }

  /** The digits from q on, appended to a number one by one in 16 bits. */
  function Number(t: string, q: nat, v: Int16): Int16
    requires q <= |t|
    decreases |t| - q
  {
    if q < |t| && Digit(t[q]) then Number(t, q + 1, Wrap(v * 10 + (t[q] as int - '0' as int))) else v
  }

  /** OopReadValue: the number read, -1 where there are no digits, and the position it leaves. */
  function ReadValue(t: string, p: int): (r: (Int16, int))
    ensures 0 <= p < |t| ==> p <= r.1 < |t|
  {
    if p < 0 || p > |t| then (-1, if p > 0 then p - 1 else p)
    else
      var q := SkipSpaces(t, p);
      var e := DigitsEnd(t, q);
      var last := After(t, e);
      (if e > q then Number(t, q, 0) else -1, if last > 0 then last - 1 else last)
  }

  /** The command word, after an optional THEN. */
  function CommandWord(t: string, p: int): Read {
    var r := ReadWord(t, p);
    if r.word == "THEN" then ReadWord(t, r.pos) else r
  }

  lemma CommandAdvances(t: string, p: int)
    ensures var r := CommandWord(t, p);
      && (0 <= p < |t| ==> p <= r.pos < |t| && (|r.word| >= 2 ==> p < r.pos))
      && (p < 0 || p >= |t| ==> r.word == "" && r.pos == if p > 0 then p - 1 else p)
  {
    hide ReadWord;
    ReadWordAdvances(t, p);
    ReadWordAdvances(t, ReadWord(t, p).pos);
  }
}
