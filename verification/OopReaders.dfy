/** The readers of the interpreter in place (engine/oop.go): each walks over the
    program of a stat slot with OopReadChar and OopReadWord, and is proved against
    what OopReading says the text holds. */
module OopReaders {
  import opened GameVars
  import opened OopText
  import opened OopReading
  import opened Oop
  import opened Game

  method OopSkipLine(e: Engine, id: int, position: int) returns (p: int)
    requires Readable(e, id)
    modifies e`OopChar
    ensures p == LineEnd(Text(e.Stats[id]), position)
  {
    ghost var t := Text(e.Stats[id]);
    p := OopReadChar(e, id, position);
    ghost var at := position;
    while e.OopChar != NUL && e.OopChar != CR
      invariant e.OopChar == CharAt(t, at) && p == After(t, at) && LineEnd(t, at) == LineEnd(t, position)
      decreases |t| - at
    {
      at := p;
      p := OopReadChar(e, id, p);
    }
  }

  /** Reads the first character that does not start a label line. */
  method ReadPastLabels(e: Engine, id: int, position: int) returns (p: int)
    requires Readable(e, id)
    modifies e`OopChar
    ensures var q := SkipLabels(Text(e.Stats[id]), position);
      e.OopChar == CharAt(Text(e.Stats[id]), q) && p == After(Text(e.Stats[id]), q)
  {
    ghost var t := Text(e.Stats[id]);
    p := OopReadChar(e, id, position);
    ghost var at := position;
    while e.OopChar == ':'
      invariant e.OopChar == CharAt(t, at) && p == After(t, at) && SkipLabels(t, at) == SkipLabels(t, position)
      decreases |t| - at
    {
      p := OopSkipLine(e, id, p);
      at := p;
      p := OopReadChar(e, id, p);
    }
  }

  /** The world as the running stat finds it: FLOW is its own step. */
  function WorldOf(stat: TStat, c: Compass): Compass { c.(flow := (stat.StepX, stat.StepY)) }

  /** The source passes the two deltas of the inner direction crosswise, and then
      changes the sign of one of them. */
  method OopParseDirection(e: Engine, id: int, position: int, c: Compass, drawn: nat) returns (d: Dir)
    requires Readable(e, id)
    modifies e`OopChar, e`OopWord
    ensures d == ParseDirection(Text(e.Stats[id]), Read(old(e.OopWord), position), WorldOf(e.Stats[id], c), drawn)
    decreases if Turn(e.OopWord) then Rest(Text(e.Stats[id]), position) + 1 else 0
  {
    hide ReadWord, Plain;
    var word := e.OopWord;
    if Turn(word) {
      ReadWordAdvances(Text(e.Stats[id]), position);
      var p := OopReadWord(e, id, position);
      d := OopParseDirection(e, id, p, c, drawn);
      if word == "OPP" {
        d := d.(dx := Neg(d.dx), dy := Neg(d.dy));
      } else {
        d := d.(dx := d.dy, dy := d.dx);
        var first := word == "CW";
        if word == "RNDP" {
          first := Die(c, d.drawn, 2) == 0;
          d := d.(drawn := d.drawn + 1);
        }
        if first {
          d := d.(dx := Neg(d.dx));
        } else {
          d := d.(dy := Neg(d.dy));
        }
      }
    } else {
      d := Plain(Read(word, position), WorldOf(e.Stats[id], c), drawn);
    }
  }

  /** Reads up to the first character that is no space; it stands at `at`. */
  method ReadPastSpaces(e: Engine, id: int, position: int) returns (p: int, ghost at: int)
    requires Readable(e, id)
    modifies e`OopChar
    ensures var t := Text(e.Stats[id]);
      && e.OopChar == CharAt(t, at) && p == After(t, at)
      && at == if 0 <= position <= |t| then SkipSpaces(t, position) else position
  {
    ghost var t := Text(e.Stats[id]);
    p := OopReadChar(e, id, position);
    at := position;
    while e.OopChar == ' '
      invariant e.OopChar == CharAt(t, at) && p == After(t, at)
      invariant if 0 <= position <= |t| then
                  position <= at <= |t| && SkipSpaces(t, at) == SkipSpaces(t, position)
                else at == position
      decreases |t| - at
    {
      at := p;
      p := OopReadChar(e, id, p);
    }
  }

  method OopReadValue(e: Engine, id: int, position: int) returns (value: Int16, p: int)
    requires Readable(e, id)
    modifies e`OopChar
    ensures (value, p) == ReadValue(Text(e.Stats[id]), position)
  {
    hide SkipSpaces;
    ghost var t := Text(e.Stats[id]);
    ghost var at;
    p, at := ReadPastSpaces(e, id, position);
    ghost var q := at;
    var number, sum: Int16 := false, 0;
    while Digit(e.OopChar)
      invariant e.OopChar == CharAt(t, at) && p == After(t, at) && number == (at > q)
      invariant if 0 <= position <= |t| then
                  && 0 <= q <= at <= |t|
                  && DigitsEnd(t, at) == DigitsEnd(t, q) && Number(t, at, sum) == Number(t, q, 0)
                else at == position
      decreases |t| - at
    {
      number, sum := true, Wrap(sum * 10 + (e.OopChar as int - '0' as int));
      at := p;
      p := OopReadChar(e, id, p);
    }
    if p > 0 {
      p := p - 1;
    }
    value := if number then sum else -1;
  }

  method OopParseTile(e: Engine, id: int, position: int) returns (p: int)
    requires Readable(e, id)
    modifies e`OopChar, e`OopWord
    ensures p == AfterTile(Text(e.Stats[id]), position)
  {
    hide ReadWord;
    p := OopReadWord(e, id, position);
    if ColorName(e.OopWord) {
      p := OopReadWord(e, id, p);
    }
  }

  method OopCheckCondition(e: Engine, id: int, position: int, kind: bool, c: Compass)
    returns (p: Option<int>)
    requires Readable(e, id)
    modifies e`OopChar, e`OopWord
    ensures p == AfterCondition(Text(e.Stats[id]), Read(old(e.OopWord), position), kind)
    decreases if e.OopWord == "NOT" then Rest(Text(e.Stats[id]), position) + 1 else 0
  {
    hide ReadWord, ParseDirection, AfterTile;
    if e.OopWord == "NOT" {
      ReadWordAdvances(Text(e.Stats[id]), position);
      var q := OopReadWord(e, id, position);
      p := OopCheckCondition(e, id, q, kind, c);
    } else if e.OopWord == "BLOCKED" {
      var q := OopReadWord(e, id, position);
      TextDecides(Text(e.Stats[id]), Read(e.OopWord, q), WorldOf(e.Stats[id], c), 0);
      var d := OopParseDirection(e, id, q, c, 0);
      p := if d.ok then Some(d.pos) else None;
    } else if e.OopWord == "ANY" {
      var q := OopParseTile(e, id, position);
      p := if kind then Some(q) else None;
    } else {
      p := Some(position);
    }
  }
}
