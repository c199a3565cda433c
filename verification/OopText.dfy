/** Reading a program (engine/oop.go): characters, words and labels, as functions
    of the text and a position, and the searches that walk over them. */
module OopText {
  import opened GameVars

  const NUL := '\0'
  const CR := '\r'

  /** The program the interpreter sees: the first DataLen characters of Data. */
  function Text(s: TStat): string {
    if s.DataLen <= 0 then "" else if s.DataLen <= |s.Data| then s.Data[..s.DataLen] else s.Data
  }

  /** OopReadChar: NUL outside the text, and then the position stays where it is. */
  function CharAt(t: string, p: int): char {
    if 0 <= p < |t| then t[p] else NUL
  }

  function After(t: string, p: int): int {
    if 0 <= p < |t| then p + 1 else p
  }

  function UpCase(c: char): char {
    if 'a' <= c <= 'z' then ((c as int) - 32) as char else c
  }

  predicate Letter(c: char) { 'A' <= c <= 'Z' }
  predicate Digit(c: char) { '0' <= c <= '9' }
  predicate WordChar(c: char) { Letter(c) || c == ':' || Digit(c) || c == '_' }

  // ---- OopReadWord -------------------------------------------------------

  /** The first position from p on that holds no space. */
  function SkipSpaces(t: string, p: nat): (q: nat)
    requires p <= |t|
    ensures p <= q <= |t| && CharAt(t, q) != ' '
    ensures forall k :: p <= k < q ==> t[k] == ' '
    decreases |t| - p
  {
    if p < |t| && t[p] == ' ' then SkipSpaces(t, p + 1) else p
  }

  /** The end of the run of word characters from p on. */
  function WordEnd(t: string, p: nat): (q: nat)
    requires p <= |t|
    ensures p <= q <= |t| && !WordChar(UpCase(CharAt(t, q)))
    ensures forall k :: p <= k < q ==> WordChar(UpCase(t[k]))
    decreases |t| - p
  {
    if p < |t| && WordChar(UpCase(t[p])) then WordEnd(t, p + 1) else p
  }

  function UpCased(s: string): (r: string)
    ensures |r| == |s|
  {
    seq(|s|, i requires 0 <= i < |s| => UpCase(s[i]))
  }

  /** Where the word after p starts and ends: empty when it would start with a digit. */
  function WordSpan(t: string, p: nat): (r: (nat, nat))
    requires p <= |t|
    ensures p <= r.0 <= r.1 <= |t|
  {
    var q := SkipSpaces(t, p);
    (q, if Digit(UpCase(CharAt(t, q))) then q else WordEnd(t, q))
  }

  datatype Read = Read(word: string, pos: int)

  /** OopReadWord: the word, and the position it leaves. The reader always steps
      back one, also when it stood at the end and had not stepped forward. */
  function ReadWord(t: string, p: int): Read {
    if p < 0 || p > |t| then Read("", if p > 0 then p - 1 else p)
    else
      var (q, e) := WordSpan(t, p);
      var last := After(t, e);
      Read(UpCased(t[q..e]), if last > 0 then last - 1 else last)
  }

  // ---- OopFindString -----------------------------------------------------

  predicate EndsWord(c: char) {
    !(Letter(UpCase(c)) || UpCase(c) == '_')
  }

  predicate SameAt(t: string, s: string, pos: nat) {
    forall k :: 0 <= k < |s| ==> UpCase(s[k]) == UpCase(CharAt(t, pos + k))
  }

  /** `s` stands at `pos`, case aside, and what follows does not continue the word.
      The test is made even when `s` itself ends the line. */
  predicate Match(t: string, s: string, pos: nat) {
    SameAt(t, s, pos) && EndsWord(CharAt(t, pos + |s|))
  }

  /** The first match from `pos` on, or -1. */
  function FindFrom(t: string, s: string, pos: nat): (r: int)
    ensures r == -1 || (pos <= r <= |t| && Match(t, s, r))
    ensures forall k :: pos <= k <= |t| && (r == -1 || k < r) ==> !Match(t, s, k)
    decreases |t| + 1 - pos
  {
    if pos > |t| then -1 else if Match(t, s, pos) then pos else FindFrom(t, s, pos + 1)
  }

  function FindString(t: string, s: string): (r: int)
    ensures r == -1 || (0 <= r <= |t| && Match(t, s, r))
    ensures forall k :: 0 <= k <= |t| && (r == -1 || k < r) ==> !Match(t, s, k)
  {
    FindFrom(t, s, 0)
  }

  // ---- Colons in labels --------------------------------------------------

  /** Pos(':', s) - 1: where the first colon is, or -1. */
  function ColonAt(s: string): (r: int)
    ensures r == -1 ==> ':' !in s
    ensures r != -1 ==> 0 <= r < |s| && s[r] == ':' && ':' !in s[..r]
  {
    if s == "" then -1
    else if s[0] == ':' then 0
    else
      var r := ColonAt(s[1..]);
      if r == -1 then -1 else assert s[..r + 1] == [s[0]] + s[1..][..r]; r + 1
  }

  /** Replace(s, index, c) with the 1-based index of the source. */
  function Replace(s: string, index: int, c: char): (r: string)
    requires 1 <= index <= |s|
    ensures r == s[index - 1 := c]
  {
    s[..index - 1] + [c] + s[index..]
  }
}
