/**
 The TOML lexer as a machine on values: a state, a stack of states to return to, the part of the input read and the
 items sent. The functions say what one step of each state does; the lemmas, that every step keeps the machine sound, within the
 token protocol and nearer to its end, and so what whole runs do.
 */
module TomlMachine {
  import opened Bytes
  import Utf8
  import opened TomlStrings
  import opened TomlTokens
  import opened Wrappers

  /** unicode.IsLetter: all that matters is that the end-of-input mark is no letter. */
  type LetterTest = f: int -> bool | !f(0) witness _ => false

  datatype Item = Item(typ: ItemType, val: bytes, line: int)

  /** The state function behind a pending skip. */
  function Target(s: State): State {
    if s.Skip? then s.next else s
  }

  // A state entered with an empty stack; every other state returns to the top of the stack.
  predicate AtTopLevel(s: State) {
    var t := Target(s);
    t.Top? || t.TopEnd? || t.TableStart? || t.TableEnd? || t.ArrayTableEnd?
  }

  predicate InMiddleOfString(s: State) {
    s.Str? || s.MultilineStr?
  }

  /** What a state will do with the stack: nothing, return inside a string, or return elsewhere. */
  datatype Kind = Stays | ReturnsToString | Returns

  function KindOf(s: State): Kind {
    if AtTopLevel(s) then Stays else if InEscape(s) then ReturnsToString else Returns
  }

  /** The stack has a state to return to for every state that will return. */
  predicate Nested(kind: Kind, stack: Stack)
    decreases stack
  {
    match stack
    case NoState => kind == Stays
    case Pushed(top, below) =>
      && kind != Stays
      && !top.Halt? && !top.Skip? && !InEscape(top) && !top.MultilineStrEscape?
      && (kind == ReturnsToString <==> InMiddleOfString(top))
      && Nested(KindOf(top), below)
  }

  /** How many steps a state can cause before it reads more input. */
  function Weight(s: State): nat {
    var t := Target(s);
    (if s.Skip? then 1 else 0) +
    if t.TableStart? then 7
    else if t.Top? || t.InlineTableValue? then 6
    else if t.TableNameStart? || t.KeyStart? || t.ArrayValue? || t.MultilineStrEscape? then 4
    else if t.TableEnd? || t.BareTableName? || t.BareKey? || t.Value? || t.CommentStart? then 2
    else 1
  }

  // The kinds and weights of the states, in groups that go together.

  lemma TopFacts()
    ensures KindOf(Top) == KindOf(TopEnd) == KindOf(TableStart) == KindOf(Skip(Top)) == Stays
    ensures KindOf(CommentStart) == KindOf(KeyStart) == Returns
    ensures Weight(TopEnd) == 1
    ensures Weight(CommentStart) == 2
    ensures Weight(KeyStart) == 4
    ensures Weight(Top) == 6
    ensures Weight(TableStart) == Weight(Skip(Top)) == 7
  {
  }

  lemma HeaderFacts()
    ensures KindOf(TopEnd) == KindOf(TableStart) == KindOf(TableEnd) == KindOf(ArrayTableEnd) == Stays
    ensures KindOf(TableNameStart) == KindOf(BareTableName) == KindOf(TableNameEnd) == KindOf(Value) == Returns
    ensures Weight(TopEnd) == Weight(ArrayTableEnd) == Weight(TableNameEnd) == 1
    ensures Weight(TableEnd) == Weight(BareTableName) == Weight(Value) == 2
    ensures Weight(TableNameStart) == 4
    ensures Weight(TableStart) == 7
  {
  }

  lemma KeyFacts()
    ensures KindOf(KeyStart) == KindOf(BareKey) == KindOf(KeyEnd) == KindOf(Value) == KindOf(Skip(KeyStart)) ==
            KindOf(Skip(Value)) == KindOf(Skip(KeyEnd)) == Returns
    ensures Weight(KeyEnd) == 1
    ensures Weight(BareKey) == Weight(Value) == Weight(Skip(KeyEnd)) == 2
    ensures Weight(Skip(Value)) == 3
    ensures Weight(KeyStart) == 4
    ensures Weight(Skip(KeyStart)) == 5
  {
  }

  lemma ValueFacts()
    ensures KindOf(Value) == KindOf(Skip(Value)) == KindOf(NumberOrDateStart) == KindOf(NumberStart) ==
            KindOf(Bool) == KindOf(ArrayValue) == KindOf(InlineTableValue) == KindOf(Str) == KindOf(MultilineStr) ==
            KindOf(RawStr) == KindOf(MultilineRawStr) == Returns
    ensures Weight(NumberOrDateStart) == Weight(NumberStart) == Weight(Bool) == Weight(Str) == Weight(MultilineStr) ==
            Weight(RawStr) == Weight(MultilineRawStr) == 1
    ensures Weight(Value) == 2
    ensures Weight(Skip(Value)) == 3
    ensures Weight(ArrayValue) == 4
    ensures Weight(InlineTableValue) == 6
  {
  }

  lemma ArrayFacts()
    ensures KindOf(ArrayValue) == KindOf(ArrayValueEnd) == KindOf(ArrayEnd) == KindOf(Value) ==
            KindOf(CommentStart) == KindOf(Skip(ArrayValue)) == KindOf(Skip(ArrayValueEnd)) == Returns
    ensures Weight(ArrayValueEnd) == Weight(ArrayEnd) == 1
    ensures Weight(Value) == Weight(CommentStart) == Weight(Skip(ArrayValueEnd)) == 2
    ensures Weight(ArrayValue) == 4
    ensures Weight(Skip(ArrayValue)) == 5
  {
  }

  lemma InlineTableFacts()
    ensures KindOf(InlineTableValue) == KindOf(InlineTableValueEnd) == KindOf(InlineTableEnd) == KindOf(KeyStart) ==
            KindOf(CommentStart) == KindOf(Skip(InlineTableValue)) == KindOf(Skip(InlineTableValueEnd)) == Returns
    ensures Weight(InlineTableValueEnd) == Weight(InlineTableEnd) == 1
    ensures Weight(CommentStart) == Weight(Skip(InlineTableValueEnd)) == 2
    ensures Weight(KeyStart) == 4
    ensures Weight(InlineTableValue) == 6
    ensures Weight(Skip(InlineTableValue)) == 7
  {
  }

  lemma StringFacts()
    ensures KindOf(StrEscape) == KindOf(ShortUnicodeEscape) == KindOf(LongUnicodeEscape) == ReturnsToString
    ensures KindOf(Str) == KindOf(MultilineStr) == KindOf(RawStr) == KindOf(MultilineRawStr) ==
            KindOf(MultilineStrEscape) == Returns
    ensures Weight(Str) == Weight(MultilineStr) == Weight(RawStr) == Weight(MultilineRawStr) == Weight(StrEscape) ==
            Weight(ShortUnicodeEscape) == Weight(LongUnicodeEscape) == 1
    ensures Weight(MultilineStrEscape) == 4
  {
  }

  lemma NumberFacts()
    ensures KindOf(NumberOrDateStart) == KindOf(NumberOrDate) == KindOf(Datetime) == KindOf(NumberStart) ==
            KindOf(Number) == KindOf(Float) == KindOf(Bool) == Returns
    ensures Weight(NumberOrDateStart) == Weight(NumberOrDate) == Weight(Datetime) == Weight(NumberStart) ==
            Weight(Number) == Weight(Float) == Weight(Bool) == 1
  {
  }

  lemma CommentFacts()
    ensures KindOf(CommentStart) == KindOf(Comment) == Returns
    ensures Weight(Comment) == 1
    ensures Weight(CommentStart) == 2
  {
  }

  lemma SkipFacts(after: State)
    ensures !after.Skip? && !InEscape(after) ==> KindOf(Skip(after)) == KindOf(after) && Weight(Skip(after)) == Weight(after) + 1
  {
  }

  function StackWeight(stack: Stack): nat {
    match stack
    case NoState => 0
    case Pushed(top, below) => Weight(top) + StackWeight(below)
  }

  function Newlines(s: bytes): nat {
    if s == [] then 0 else Newlines(s[..|s| - 1]) + if s[|s| - 1] == LF then 1 else 0
  }

  /** "true" or "false". */
  predicate IsBoolWord(rs: seq<int>) {
    rs == [0x74, 0x72, 0x75, 0x65] || rs == [0x66, 0x61, 0x6C, 0x73, 0x65]
  }

  /** A state inside a single-line basic string, under the given stack. */
  predicate InString(s: State, stack: Stack) {
    s.Str? || (InEscape(s) && stack.Pushed? && stack.top.Str?)
  }

  function ModeOf(s: State): Mode {
    if s.StrEscape? || s.MultilineStrEscape? then Escape
    else if s.ShortUnicodeEscape? then Hex(4)
    else if s.LongUnicodeEscape? then Hex(8)
    else Text
  }

  /** A state inside a basic string over several lines. */
  predicate InMultiline(s: State, stack: Stack) {
    s.MultilineStr? || s.MultilineStrEscape? || (InEscape(s) && stack.Pushed? && stack.top.MultilineStr?)
  }

  /** The stack the lexer will pop when the string is over. */
  function StringStack(s: State, stack: Stack): Stack
    requires InString(s, stack)
  {
    if s.Str? then stack else stack.below
  }

  predicate IsLast(typ: ItemType) {
    typ.ItemError? || typ.ItemBug? || typ.ItemEOF?
  }

  /** What the lexer may have sent while still running. */
  predicate Clean(items: seq<Item>) {
    forall it :: it in items ==>
      && !IsLast(it.typ)
      && (it.typ == ItemString ==> WellEscaped(it.val))
      && (it.typ == ItemMultilineString ==> MultiEscaped(it.val))
  }

  /** Exactly one more item was sent. */
  predicate OneMore(before: seq<Item>, after: seq<Item>) {
    |after| == |before| + 1 && after[..|before|] == before
  }

  /** The type of the item just sent, if one was. */
  function Sent(before: seq<Item>, after: seq<Item>): Option<ItemType> {
    if |after| > |before| then Some(after[|after| - 1].typ) else None
  }

  lemma NothingSent(items: seq<Item>)
    ensures Sent(items, items) == None
  {
  }

  function Types(items: seq<Item>): (ts: seq<ItemType>)
    ensures |ts| == |items| && forall i :: 0 <= i < |ts| ==> ts[i] == items[i].typ
  {
    seq(|items|, i requires 0 <= i < |items| => items[i].typ)
  }

  lemma ConsumeSent(before: seq<Item>, after: seq<Item>)
    requires after == before || OneMore(before, after)
    ensures Consume(Types(after)) == FeedSent(Consume(Types(before)), Sent(before, after))
  {
    hide Feed;
    if after != before {
      assert Types(after)[..|after| - 1] == Types(before);
    }
  }

  /** The last item is the end of the document or an error, and not a fault of the lexer. */
  predicate Finished(items: seq<Item>) {
    && items != []
    && Clean(items[..|items| - 1])
    && (items[|items| - 1].typ.ItemError? || items[|items| - 1].typ.ItemEOF?)
  }

  lemma ItemOf(items: seq<Item>, k: nat)
    requires (Clean(items) || Finished(items)) && k < |items|
    ensures items[k].typ != ItemBug && (items[k].typ == ItemString ==> WellEscaped(items[k].val))
    ensures items[k].typ == ItemMultilineString ==> MultiEscaped(items[k].val)
    ensures Clean(items) ==> !IsLast(items[k].typ)
    ensures Finished(items) ==> (IsLast(items[k].typ) <==> k == |items| - 1)
  {
    hide WellEscaped, MultiEscaped;
    if Finished(items) {
      assert k < |items| - 1 ==> items[k] in items[..|items| - 1];
    }
  }

  lemma {:induction false} NewlinesUntil(s: bytes, p: nat, w: nat)
    requires 1 <= w && p + w <= |s| && forall i :: p < i < p + w ==> s[i] != LF
    ensures Newlines(s[..p + w]) == Newlines(s[..p]) + if s[p] == LF then 1 else 0
    decreases w
  {
    assert s[..p + w][..p + w - 1] == s[..p + w - 1];
    if w > 1 {
      NewlinesUntil(s, p, w - 1);
    }
  }

  function WidthAt(input: bytes, p: nat): (w: nat)
    requires p < |input|
    ensures 1 <= w && p + w <= |input|
    ensures input[p] < 0x80 ==> w == 1
    ensures forall i :: p < i < p + w ==> input[i] >= 0x80
  {
    var d := Utf8.Decode(input[p..]);
    assert forall i :: p < i < p + d.width ==> input[i] == input[p..][i - p];
    d.width
  }

  function RuneAt(input: bytes, p: nat): (r: int)
    requires p < |input|
    ensures input[p] < 0x80 ==> r == input[p]
    ensures input[p] >= 0x80 ==> r >= 0x80
  {
    Utf8.Decode(input[p..]).rune
  }

  /** The line that position p of the input is on. */
  function LineAt(input: bytes, p: nat): int
    requires p <= |input|
  {
    1 + Newlines(input[..p])
  }

  /** The first position from p on with no whitespace. */
  function WhitespaceEnd(input: bytes, p: nat): (q: nat)
    requires p <= |input|
    ensures p <= q <= |input| && (q < |input| ==> !IsWhitespace(input[q]))
    ensures forall i :: p <= i < q ==> IsWhitespace(input[i])
    decreases |input| - p
  {
    if p < |input| && IsWhitespace(input[p]) then WhitespaceEnd(input, p + 1) else p
  }

  /** Up to count hexadecimal digits from p on: whether all are there, and where reading them stops. */
  function HexEnd(input: bytes, p: nat, count: nat): (r: (bool, nat))
    requires p <= |input|
    ensures p <= r.1 <= |input| && (r.0 ==> r.1 == p + count)
    decreases count
  {
    if count == 0 then (true, p)
    else if p == |input| then (false, p)
    else if IsHexDigit(RuneAt(input, p)) then HexEnd(input, p + 1, count - 1)
    else (false, p + WidthAt(input, p))
  }

  /** The letters from p on, and the position of the first rune that is none. */
  function Letters(input: bytes, isLetter: LetterTest, p: nat): (r: (seq<int>, nat))
    requires p <= |input|
    ensures p <= r.1 <= |input| && (r.1 < |input| ==> !isLetter(RuneAt(input, r.1)))
    ensures forall c :: c in r.0 ==> isLetter(c)
    decreases |input| - p
  {
    if p == |input| || !isLetter(RuneAt(input, p)) then ([], p)
    else
      var later := Letters(input, isLetter, p + WidthAt(input, p));
      ([RuneAt(input, p)] + later.0, later.1)
  }

  /** Two more quotes of the same kind follow the one at p. */
  predicate ThreeQuotes(input: bytes, p: nat, quote: int) {
    p + 2 < |input| && input[p + 1] == quote && input[p + 2] == quote
  }

  datatype Machine = Machine(input: bytes, state: State, stack: Stack, start: nat, pos: nat, items: seq<Item>) {
    predicate InBounds() {
      start <= pos <= |input|
    }

    /** The next rune of the input, 0 at its end. */
    function Ahead(): int {
      if pos < |input| then RuneAt(input, pos) else 0
    }

    /** One rune has been read. */
    function Read(): Machine {
      if pos < |input| then this.(pos := pos + WidthAt(input, pos)) else this
    }

    function To(p: nat): Machine {
      this.(pos := p)
    }

    /** What was read since the last item is dropped. */
    function Ignored(): Machine {
      this.(start := pos)
    }

    /** What was read since the last item is sent. */
    function Emitted(typ: ItemType): Machine
      requires InBounds()
    {
      this.(items := items + [Item(typ, input[start..pos], LineAt(input, pos))], start := pos)
    }

    /** An error is sent, and the machine stops. */
    function Failed(): Machine
      requires InBounds()
    {
      this.(items := items + [Item(ItemError, [], LineAt(input, pos))], state := Halt)
    }

    function Goes(s: State): Machine {
      this.(state := s)
    }

    /** State s is next, and then `back`. */
    function Enters(s: State, back: State): Machine {
      this.(state := s, stack := Pushed(back, stack))
    }

    /** The state on top of the stack is next. */
    function Returns(): Machine
      requires InBounds()
    {
      match stack
      case NoState => this.(items := items + [Item(ItemBug, [], LineAt(input, pos))], state := Halt)
      case Pushed(top, below) => this.(state := top, stack := below)
    }

    function Skipped(): Machine
      requires InBounds()
    {
      To(WhitespaceEnd(input, pos)).Ignored()
    }
  }

  // ---------------------------------------------------------------- what each state does

  function TopStep(m: Machine): Machine
    requires m.InBounds()
  {
    var r := m.Ahead();
    if IsBlank(r) then m.Read().Goes(Skip(Top))
    else if r == HASH then m.Read().Enters(CommentStart, Top)
    else if r == LEFT_BRACKET then m.Read().Goes(TableStart)
    else if r == 0 then
      if m.Read().pos > m.start then m.Read().Failed() else m.Read().Emitted(ItemEOF).Goes(Halt)
    else m.Enters(KeyStart, TopEnd)
  }

  function TopEndStep(m: Machine): Machine
    requires m.InBounds()
  {
    var r := m.Ahead();
    if r == HASH then m.Read().Enters(CommentStart, Top)
    else if IsWhitespace(r) then m.Read().Goes(TopEnd)
    else if IsNL(r) then m.Read().Ignored().Goes(Top)
    else if r == 0 then m.Read().Emitted(ItemEOF).Goes(Halt)
    else m.Read().Failed()
  }

  function TableStartStep(m: Machine): Machine
    requires m.InBounds()
  {
    if m.Ahead() == LEFT_BRACKET then m.Read().Emitted(ItemArrayTableStart).Enters(TableNameStart, ArrayTableEnd)
    else m.Emitted(ItemTableStart).Enters(TableNameStart, TableEnd)
  }

  function TableEndStep(m: Machine): Machine
    requires m.InBounds()
  {
    m.Emitted(ItemTableEnd).Goes(TopEnd)
  }

  function ArrayTableEndStep(m: Machine): Machine
    requires m.InBounds()
  {
    if m.Ahead() == RIGHT_BRACKET then m.Read().Emitted(ItemArrayTableEnd).Goes(TopEnd) else m.Read().Failed()
  }

  function TableNameStartStep(m: Machine): Machine
    requires m.InBounds()
  {
    var n := m.Skipped();
    var r := n.Ahead();
    if r == RIGHT_BRACKET || r == 0 || r == DOT then n.Failed()
    else if IsQuote(r) then n.Enters(Value, TableNameEnd)
    else n.Goes(BareTableName)
  }

  function BareTableNameStep(m: Machine): Machine
    requires m.InBounds()
  {
    if IsBareKeyChar(m.Ahead()) then m.Read().Goes(BareTableName) else m.Emitted(ItemText).Goes(TableNameEnd)
  }

  function TableNameEndStep(m: Machine): Machine
    requires m.InBounds()
  {
    var n := m.Skipped();
    var r := n.Ahead();
    if IsWhitespace(r) then n.Read().Goes(TableNameEnd)
    else if r == DOT then n.Read().Ignored().Goes(TableNameStart)
    else if r == RIGHT_BRACKET then n.Read().Returns()
    else n.Read().Failed()
  }

  function KeyStartStep(m: Machine): Machine
    requires m.InBounds()
  {
    var r := m.Ahead();
    if r == EQUALS then m.Failed()
    else if IsBlank(r) then m.Read().Goes(Skip(KeyStart))
    else if IsQuote(r) then m.Ignored().Emitted(ItemKeyStart).Enters(Value, KeyEnd)
    else m.Ignored().Emitted(ItemKeyStart).Goes(BareKey)
  }

  function BareKeyStep(m: Machine): Machine
    requires m.InBounds()
  {
    var r := m.Ahead();
    if IsBareKeyChar(r) then m.Read().Goes(BareKey)
    else if IsWhitespace(r) || r == EQUALS then m.Emitted(ItemText).Goes(KeyEnd)
    else m.Read().Failed()
  }

  function KeyEndStep(m: Machine): Machine
    requires m.InBounds()
  {
    var r := m.Ahead();
    if r == EQUALS then m.Read().Goes(Skip(Value))
    else if IsWhitespace(r) then m.Read().Goes(Skip(KeyEnd))
    else m.Read().Failed()
  }

  /** The string opened by the quote at the machine's position. */
  function StringStep(m: Machine, quote: int): Machine
    requires m.InBounds() && m.pos < |m.input|
  {
    if ThreeQuotes(m.input, m.pos, quote)
    then m.To(m.pos + 3).Ignored().Goes(if quote == QUOTE then MultilineStr else MultilineRawStr)
    else m.To(m.pos + 1).Ignored().Goes(if quote == QUOTE then Str else RawStr)
  }

  function ValueStep(m: Machine, isLetter: LetterTest): Machine
    requires m.InBounds()
  {
    var r := m.Ahead();
    if IsWhitespace(r) then m.Read().Goes(Skip(Value))
    else if IsDigit(r) then m.Goes(NumberOrDateStart)
    else if IsQuote(r) then StringStep(m, r)
    else OtherValueStep(m, isLetter)
  }

  /** A value that is no string and starts with no digit. */
  function OtherValueStep(m: Machine, isLetter: LetterTest): Machine
    requires m.InBounds()
  {
    var r := m.Ahead();
    if r == LEFT_BRACKET then m.Read().Ignored().Emitted(ItemArray).Goes(ArrayValue)
    else if r == LEFT_BRACE then m.Read().Ignored().Emitted(ItemInlineTableStart).Goes(InlineTableValue)
    else if IsSign(r) then m.Read().Goes(NumberStart)
    else if r == DOT || !isLetter(r) then m.Read().Failed()
    else m.Goes(Bool)
  }

  function ArrayValueStep(m: Machine): Machine
    requires m.InBounds()
  {
    var r := m.Ahead();
    if IsBlank(r) then m.Read().Goes(Skip(ArrayValue))
    else if r == HASH then m.Read().Enters(CommentStart, ArrayValue)
    else if r == COMMA then m.Read().Failed()
    else if r == RIGHT_BRACKET then m.Read().Goes(ArrayEnd)
    else m.Enters(Value, ArrayValueEnd)
  }

  function ArrayValueEndStep(m: Machine): Machine
    requires m.InBounds()
  {
    var r := m.Ahead();
    if IsBlank(r) then m.Read().Goes(Skip(ArrayValueEnd))
    else if r == HASH then m.Read().Enters(CommentStart, ArrayValueEnd)
    else if r == COMMA then m.Read().Ignored().Goes(ArrayValue)
    else if r == RIGHT_BRACKET then m.Read().Goes(ArrayEnd)
    else m.Read().Failed()
  }

  function ArrayEndStep(m: Machine): Machine
    requires m.InBounds()
  {
    m.Ignored().Emitted(ItemArrayEnd).Returns()
  }

  function InlineTableValueStep(m: Machine): Machine
    requires m.InBounds()
  {
    var r := m.Ahead();
    if IsWhitespace(r) then m.Read().Goes(Skip(InlineTableValue))
    else if IsNL(r) || r == COMMA then m.Read().Failed()
    else if r == HASH then m.Read().Enters(CommentStart, InlineTableValue)
    else if r == RIGHT_BRACE then m.Read().Goes(InlineTableEnd)
    else m.Enters(KeyStart, InlineTableValueEnd)
  }

  function InlineTableValueEndStep(m: Machine): Machine
    requires m.InBounds()
  {
    var r := m.Ahead();
    if IsWhitespace(r) then m.Read().Goes(Skip(InlineTableValueEnd))
    else if r == HASH then m.Read().Enters(CommentStart, InlineTableValueEnd)
    else if r == COMMA then m.Read().Ignored().Goes(InlineTableValue)
    else if r == RIGHT_BRACE then m.Read().Goes(InlineTableEnd)
    else m.Read().Failed()
  }

  function InlineTableEndStep(m: Machine): Machine
    requires m.InBounds()
  {
    m.Ignored().Emitted(ItemInlineTableEnd).Returns()
  }

  function StrStep(m: Machine): Machine
    requires m.InBounds()
  {
    var r := m.Ahead();
    if r == 0 || IsNL(r) then m.Read().Failed()
    else if r == BACKSLASH then m.Read().Enters(StrEscape, Str)
    else if r == QUOTE then m.Emitted(ItemString).Read().Ignored().Returns()
    else m.Read().Goes(Str)
  }

  function MultilineStrStep(m: Machine): Machine
    requires m.InBounds()
  {
    var r := m.Ahead();
    if r == 0 then m.Read().Failed()
    else if r == BACKSLASH then m.Read().Goes(MultilineStrEscape)
    else if r == QUOTE && ThreeQuotes(m.input, m.pos, r) then m.Emitted(ItemMultilineString).To(m.pos + 3).Ignored().Returns()
    else m.Read().Goes(MultilineStr)
  }

  function RawStrStep(m: Machine): Machine
    requires m.InBounds()
  {
    var r := m.Ahead();
    if r == 0 || IsNL(r) then m.Read().Failed()
    else if r == SINGLE_QUOTE then m.Emitted(ItemRawString).Read().Ignored().Returns()
    else m.Read().Goes(RawStr)
  }

  function MultilineRawStrStep(m: Machine): Machine
    requires m.InBounds()
  {
    var r := m.Ahead();
    if r == 0 then m.Read().Failed()
    else if r == SINGLE_QUOTE && ThreeQuotes(m.input, m.pos, r) then
      m.Emitted(ItemRawMultilineString).To(m.pos + 3).Ignored().Returns()
    else m.Read().Goes(MultilineRawStr)
  }

  function MultilineStrEscapeStep(m: Machine): Machine
    requires m.InBounds()
  {
    if IsNL(m.Ahead()) then m.Read().Goes(MultilineStr) else StrEscapeStep(m.Enters(StrEscape, MultilineStr))
  }

  function StrEscapeStep(m: Machine): Machine
    requires m.InBounds()
  {
    var r := m.Ahead();
    if SimpleEscape(r) >= 0 then m.Read().Returns()
    else if r == LOWER_U then m.Read().Goes(ShortUnicodeEscape)
    else if r == UPPER_U then m.Read().Goes(LongUnicodeEscape)
    else m.Read().Failed()
  }

  function UnicodeEscapeStep(m: Machine, count: nat): Machine
    requires m.InBounds()
  {
    var digits := HexEnd(m.input, m.pos, count);
    if digits.0 then m.To(digits.1).Returns() else m.To(digits.1).Failed()
  }

  function NumberOrDateStartStep(m: Machine): Machine
    requires m.InBounds()
  {
    var r := m.Ahead();
    if IsDigit(r) then m.Read().Goes(NumberOrDate)
    else if r == UNDERSCORE then m.Read().Goes(Number)
    else if IsExponent(r) then m.Read().Goes(Float)
    else m.Read().Failed()
  }

  function NumberOrDateStep(m: Machine): Machine
    requires m.InBounds()
  {
    var r := m.Ahead();
    if IsDigit(r) then m.Read().Goes(NumberOrDate)
    else if r == MINUS then m.Read().Goes(Datetime)
    else if r == UNDERSCORE then m.Read().Goes(Number)
    else if r == DOT || IsExponent(r) then m.Read().Goes(Float)
    else m.Emitted(ItemInteger).Returns()
  }

  function DatetimeStep(m: Machine): Machine
    requires m.InBounds()
  {
    if IsDatePart(m.Ahead()) then m.Read().Goes(Datetime) else m.Emitted(ItemDatetime).Returns()
  }

  function NumberStartStep(m: Machine): Machine
    requires m.InBounds()
  {
    if IsDigit(m.Ahead()) then m.Read().Goes(Number) else m.Read().Failed()
  }

  function NumberStep(m: Machine): Machine
    requires m.InBounds()
  {
    var r := m.Ahead();
    if IsDigit(r) || r == UNDERSCORE then m.Read().Goes(Number)
    else if r == DOT || IsExponent(r) then m.Read().Goes(Float)
    else m.Emitted(ItemInteger).Returns()
  }

  function FloatStep(m: Machine): Machine
    requires m.InBounds()
  {
    if IsFloatPart(m.Ahead()) then m.Read().Goes(Float) else m.Emitted(ItemFloat).Returns()
  }

  function BoolStep(m: Machine, isLetter: LetterTest): Machine
    requires m.InBounds()
  {
    var word := Letters(m.input, isLetter, m.pos);
    if IsBoolWord(word.0) then m.To(word.1).Emitted(ItemBool).Returns() else m.To(word.1).Failed()
  }

  function CommentStartStep(m: Machine): Machine
    requires m.InBounds()
  {
    m.Ignored().Emitted(ItemCommentStart).Goes(Comment)
  }

  function CommentStep(m: Machine): Machine
    requires m.InBounds()
  {
    var r := m.Ahead();
    if IsNL(r) || r == 0 then m.Emitted(ItemText).Returns() else m.Read().Goes(Comment)
  }

  /** One step of the machine. */
  function StepOf(m: Machine, isLetter: LetterTest): Machine
    requires m.InBounds()
  {
    match m.state
    case Top => TopStep(m)
    case TopEnd => TopEndStep(m)
    case TableStart => TableStartStep(m)
    case TableEnd => TableEndStep(m)
    case ArrayTableEnd => ArrayTableEndStep(m)
    case TableNameStart => TableNameStartStep(m)
    case BareTableName => BareTableNameStep(m)
    case TableNameEnd => TableNameEndStep(m)
    case KeyStart => KeyStartStep(m)
    case BareKey => BareKeyStep(m)
    case KeyEnd => KeyEndStep(m)
    case Value => ValueStep(m, isLetter)
    case ArrayValue => ArrayValueStep(m)
    case ArrayValueEnd => ArrayValueEndStep(m)
    case ArrayEnd => ArrayEndStep(m)
    case InlineTableValue => InlineTableValueStep(m)
    case InlineTableValueEnd => InlineTableValueEndStep(m)
    case InlineTableEnd => InlineTableEndStep(m)
    case Str => StrStep(m)
    case MultilineStr => MultilineStrStep(m)
    case RawStr => RawStrStep(m)
    case MultilineRawStr => MultilineRawStrStep(m)
    case MultilineStrEscape => MultilineStrEscapeStep(m)
    case StrEscape => StrEscapeStep(m)
    case ShortUnicodeEscape => UnicodeEscapeStep(m, 4)
    case LongUnicodeEscape => UnicodeEscapeStep(m, 8)
    case NumberOrDateStart => NumberOrDateStartStep(m)
    case NumberOrDate => NumberOrDateStep(m)
    case Datetime => DatetimeStep(m)
    case NumberStart => NumberStartStep(m)
    case Number => NumberStep(m)
    case Float => FloatStep(m)
    case Bool => BoolStep(m, isLetter)
    case CommentStart => CommentStartStep(m)
    case Comment => CommentStep(m)
    case Skip(after) => m.Ignored().Goes(after)
    case Halt => m
  }

  // ---------------------------------------------------------------- what every step keeps

  /** None of the bytes from one position to another is NUL. */
  predicate NoNul(input: bytes, from: nat, p: nat)
    requires p <= |input|
  {
    forall i :: from <= i < p ==> input[i] != 0
  }

  /** A machine that is still running. */
  predicate Sound(m: Machine) {
    && m.InBounds() && !m.state.Halt?
    && (m.state.Skip? ==> !m.state.next.Halt? && !m.state.next.Skip? && !m.state.next.Str? && !InEscape(m.state.next)
                          && !m.state.next.MultilineStr? && !m.state.next.MultilineStrEscape?)
    && Nested(KindOf(m.state), m.stack)
    && Clean(m.items)
    && (InString(m.state, m.stack) ==> Scan(m.input, m.start, Text) == Scan(m.input, m.pos, ModeOf(m.state)))
    && (InMultiline(m.state, m.stack) ==> MultiAfter(m.input[m.start..m.pos], Text) == Some(ModeOf(m.state)))
  }

  function Effort(m: Machine): nat {
    Weight(m.state) + StackWeight(m.stack)
  }

  /** One step: it stops with one last item, or leaves less to read, or less to do before reading. */
  predicate Steps(m: Machine, n: Machine) {
    && n.input == m.input && n.InBounds() && n.pos >= m.pos
    && (n.items == m.items || OneMore(m.items, n.items))
    && (n.state.Halt? ==> Finished(n.items) && OneMore(m.items, n.items))
    && (!n.state.Halt? ==> Sound(n) && NoNul(n.input, m.pos, n.pos) && (n.pos > m.pos || Effort(n) < Effort(m)))
  }

  /** And it keeps to the protocol. */
  predicate Kept(m: Machine, n: Machine) {
    Steps(m, n) && Rule(m.state, m.stack, m.Ahead(), Sent(m.items, n.items), n.state, n.stack, n.Ahead())
  }

  lemma Reading(m: Machine)
    requires m.InBounds()
    ensures var n := m.Read();
            && n.InBounds() && n == m.(pos := n.pos) && n.pos >= m.pos
            && (m.Ahead() != 0 ==> n.pos > m.pos && NoNul(m.input, m.pos, n.pos))
            && (m.Ahead() != 0 && m.Ahead() < 0x80 ==> n.pos == m.pos + 1 && m.input[m.pos] == m.Ahead())
            && (n.pos == m.pos <==> m.pos == |m.input|)
            && (m.pos < |m.input| && m.Ahead() == 0 ==> n.pos == m.pos + 1 && m.input[m.pos] == 0)
  {
    hide Utf8.Decode;
  }

  lemma Emitting(m: Machine, typ: ItemType)
    requires m.InBounds() && !typ.ItemError? && !typ.ItemBug?
    ensures var n := m.Emitted(typ);
            && n.InBounds() && n == m.(items := n.items, start := m.pos) && OneMore(m.items, n.items) && Sent(m.items, n.items) == Some(typ)
            && n.items == m.items + [Item(typ, m.input[m.start..m.pos], LineAt(m.input, m.pos))]
            && (Clean(m.items) && typ.ItemEOF? ==> Finished(n.items))
            && (Clean(m.items) && !typ.ItemEOF? && !typ.ItemString? && !typ.ItemMultilineString? ==> Clean(n.items))
            && (Clean(m.items) && typ.ItemString? && WellEscaped(m.input[m.start..m.pos]) ==> Clean(n.items))
            && (Clean(m.items) && typ.ItemMultilineString? && MultiEscaped(m.input[m.start..m.pos]) ==> Clean(n.items))
  {
    hide WellEscaped, MultiEscaped, Newlines;
  }

  lemma Failing(m: Machine)
    requires m.InBounds() && Clean(m.items)
    ensures var n := m.Failed();
            && n.InBounds() && n == m.(items := n.items, state := Halt) && OneMore(m.items, n.items)
            && Sent(m.items, n.items) == Some(ItemError) && Finished(n.items)
  {
    hide WellEscaped, MultiEscaped, Newlines;
  }

  lemma Returning(m: Machine)
    requires m.InBounds() && m.stack.Pushed?
    ensures var n := m.Returns();
            && n == m.(state := n.state, stack := n.stack) && n.InBounds() && m.stack == Pushed(n.state, n.stack)
            && StackWeight(m.stack) == Weight(n.state) + StackWeight(n.stack)
  {
    hide Weight;
  }

  lemma NestedReturns(stack: Stack)
    ensures Nested(Returns, stack) ==>
              && stack.Pushed? && Nested(KindOf(stack.top), stack.below)
              && !stack.top.Halt? && !stack.top.Skip? && !InEscape(stack.top) && !InMiddleOfString(stack.top) && !stack.top.MultilineStrEscape?
    ensures Nested(ReturnsToString, stack) ==> stack.Pushed? && Nested(KindOf(stack.top), stack.below) && InMiddleOfString(stack.top)
  {
    hide KindOf;
  }

  lemma Entering(stack: Stack, back: State)
    ensures Nested(KindOf(back), stack) && !back.Halt? && !back.Skip? && !InEscape(back) && !back.MultilineStrEscape? ==>
              Nested(if InMiddleOfString(back) then ReturnsToString else Returns, Pushed(back, stack))
    ensures StackWeight(Pushed(back, stack)) == Weight(back) + StackWeight(stack)
  {
    hide KindOf, Weight;
  }

  // ---------------------------------------------------------------- the shapes of steps

  /** More has been read of the same input, or as much, and no NUL byte. */
  predicate From(m: Machine, k: Machine) {
    k.InBounds() && k == m.(pos := k.pos, start := k.start) && k.pos >= m.pos && NoNul(k.input, m.pos, k.pos)
  }

  /** A state that is not inside a basic string. */
  predicate Plain(s: State) {
    && !s.Halt? && !s.Str? && !s.MultilineStr? && !s.MultilineStrEscape? && !InEscape(s)
    && (s.Skip? ==> !s.next.Skip? && Plain(s.next))
  }

  /** A state that may wait on the stack. */
  predicate MayWait(s: State) {
    Plain(s) && !s.Skip?
  }

  lemma ReadsOn(m: Machine)
    requires Sound(m)
    ensures m.InBounds() && From(m, m) && From(m, m.Ignored())
    ensures m.Ahead() != 0 ==> From(m, m.Read()) && From(m, m.Read().Ignored()) && m.Read().pos > m.pos
  {
    Reading(m);
  }

  lemma GoesOn(m: Machine, k: Machine, s: State)
    requires Sound(m) && From(m, k) && Plain(s) && KindOf(s) == KindOf(m.state) && (k.pos > m.pos || Weight(s) < Weight(m.state))
    ensures Steps(m, k.Goes(s)) && (Moves(m.state, m.Ahead(), s) ==> Kept(m, k.Goes(s)))
  {
    NothingSent(m.items);
    hide Sent, Moves;
    hide Nested, Clean, Scan, MultiAfter, KindOf, Weight, StackWeight, NoNul;
  }

  lemma GoesInto(m: Machine, k: Machine, s: State, back: State)
    requires Sound(m) && From(m, k) && Plain(s) && KindOf(s).Returns? && MayWait(back) && KindOf(back) == KindOf(m.state)
    requires k.pos > m.pos || Weight(s) + Weight(back) < Weight(m.state)
    ensures Steps(m, k.Enters(s, back)) && (Calls(m.state, m.Ahead(), s, back, k.Ahead()) ==> Kept(m, k.Enters(s, back)))
  {
    NothingSent(m.items);
    hide Sent, Calls;
    Entering(m.stack, back);
    hide Nested, Clean, Scan, MultiAfter, KindOf, Weight, StackWeight, NoNul;
  }

  lemma Refuses(m: Machine, k: Machine)
    requires Sound(m) && k.InBounds() && k == m.(pos := k.pos, start := k.start) && k.pos >= m.pos
    ensures Steps(m, k.Failed()) && (Fails(m.state, m.Ahead()) ==> Kept(m, k.Failed()))
  {
    hide Fails;
    Failing(k);
    hide Nested, Clean, Scan, MultiAfter, KindOf, Weight, StackWeight, NoNul, OneMore, Finished, Sent;
  }

  predicate IsOther(typ: ItemType) {
    !typ.ItemError? && !typ.ItemBug? && !typ.ItemEOF? && !typ.ItemString? && !typ.ItemMultilineString?
  }

  lemma SendsOn(m: Machine, k: Machine, typ: ItemType, s: State)
    requires Sound(m) && From(m, k) && IsOther(typ) && Plain(s) && KindOf(s) == KindOf(m.state)
    requires k.pos > m.pos || Weight(s) < Weight(m.state)
    ensures var n := k.Emitted(typ).Goes(s); Steps(m, n) && (Announces(m.state, m.Ahead(), typ, s) ==> Kept(m, n))
  {
    hide Announces;
    Emitting(k, typ);
    hide Nested, Clean, Scan, MultiAfter, KindOf, Weight, StackWeight, NoNul, OneMore, Finished, Sent, LineAt;
  }

  lemma SendsInto(m: Machine, k: Machine, typ: ItemType, s: State, back: State)
    requires Sound(m) && From(m, k) && IsOther(typ) && Plain(s) && KindOf(s).Returns? && MayWait(back) && KindOf(back) == KindOf(m.state)
    requires k.pos > m.pos || Weight(s) + Weight(back) < Weight(m.state)
    ensures var n := k.Emitted(typ).Enters(s, back);
            Steps(m, n) && (AnnouncesAndCalls(m.state, m.Ahead(), typ, s, back, k.Ahead()) ==> Kept(m, n))
  {
    hide AnnouncesAndCalls;
    Emitting(k, typ);
    Entering(m.stack, back);
    hide Nested, Clean, Scan, MultiAfter, KindOf, Weight, StackWeight, NoNul, OneMore, Finished, Sent, LineAt;
  }

  lemma Ends(m: Machine, k: Machine)
    requires Sound(m) && k.InBounds() && k == m.(pos := k.pos, start := k.start) && k.pos >= m.pos
    ensures var n := k.Emitted(ItemEOF).Goes(Halt);
            Steps(m, n) && ((m.state.Top? || m.state.TopEnd?) && m.Ahead() == 0 ==> Kept(m, n))
  {
    Emitting(k, ItemEOF);
    hide Nested, Clean, Scan, MultiAfter, KindOf, Weight, StackWeight, NoNul, OneMore, Finished, Sent, LineAt;
  }

  /** The state on top of the stack is plain, as no string is being read. */
  lemma OnTop(m: Machine)
    requires Sound(m) && KindOf(m.state).Returns?
    ensures m.stack.Pushed? && MayWait(m.stack.top) && Nested(KindOf(m.stack.top), m.stack.below)
  {
    NestedReturns(m.stack);
  }

  lemma GoesBack(m: Machine, k: Machine)
    requires Sound(m) && From(m, k) && KindOf(m.state).Returns?
    ensures var n := k.Returns(); Steps(m, n) && (ReturnsSilently(m.state, m.Ahead()) ==> Kept(m, n))
  {
    NothingSent(m.items);
    hide Sent, ReturnsSilently;
    OnTop(m);
    Returning(k);
    hide Nested, Clean, Scan, MultiAfter, KindOf, StackWeight, NoNul;
  }

  /** An item is sent and more is dropped, before the state on top of the stack goes on. */
  lemma DeliversAndDrops(m: Machine, k: Machine, typ: ItemType, p: nat)
    requires Sound(m) && From(m, k) && KindOf(m.state).Returns? && !typ.ItemError? && !typ.ItemBug? && !typ.ItemEOF?
    requires typ.ItemString? ==> WellEscaped(k.input[k.start..k.pos])
    requires typ.ItemMultilineString? ==> MultiEscaped(k.input[k.start..k.pos])
    requires k.pos <= p <= |k.input| && NoNul(k.input, m.pos, p)
    ensures var n := k.Emitted(typ).To(p).Ignored().Returns();
            Steps(m, n) && (Delivers(m.state, m.Ahead(), typ) ==> Kept(m, n))
  {
    hide Delivers;
    OnTop(m);
    Emitting(k, typ);
    Returning(k.Emitted(typ).To(p).Ignored());
    hide Nested, Clean, Scan, MultiAfter, KindOf, StackWeight, NoNul, OneMore, Finished, Sent, LineAt, WellEscaped, MultiEscaped;
  }

  /** An item is sent, and the state on top of the stack goes on. */
  lemma DeliversHere(m: Machine, k: Machine, typ: ItemType)
    requires Sound(m) && From(m, k) && KindOf(m.state).Returns? && IsOther(typ)
    ensures var n := k.Emitted(typ).Returns();
            Steps(m, n) && (Delivers(m.state, m.Ahead(), typ) ==> Kept(m, n))
  {
    hide Delivers, Kept, Steps;
    DeliversAndDrops(m, k, typ, k.pos);
    assert k.Emitted(typ).To(k.pos).Ignored() == k.Emitted(typ);
  }

  // ---------------------------------------------------------------- each state

  lemma TopKept(m: Machine)
    requires Sound(m) && m.state.Top?
    ensures Kept(m, TopStep(m))
  {
    hide Sound, From, Kept, Finished, Sent, KindOf, Weight, RuneAt, WidthAt, LineAt;
    TopFacts();
    NothingSent(m.items);
    ReadsOn(m);
    Reading(m);
    var r, k := m.Ahead(), m.Read();
    if IsBlank(r) {
      GoesOn(m, k, Skip(Top));
    } else if r == HASH {
      GoesInto(m, k, CommentStart, Top);
    } else if r == LEFT_BRACKET {
      GoesOn(m, k, TableStart);
    } else if r == 0 {
      Refuses(m, k);
      Ends(m, k);
    } else {
      GoesInto(m, m, KeyStart, TopEnd);
    }
  }

  lemma TopEndKept(m: Machine)
    requires Sound(m) && m.state.TopEnd?
    ensures Kept(m, TopEndStep(m))
  {
    hide Sound, From, Kept, Finished, Sent, KindOf, Weight, RuneAt, WidthAt, LineAt;
    TopFacts();
    ReadsOn(m);
    var r, k := m.Ahead(), m.Read();
    Reading(m);
    if r == HASH {
      GoesInto(m, k, CommentStart, Top);
    } else if IsWhitespace(r) {
      GoesOn(m, k, TopEnd);
    } else if IsNL(r) {
      GoesOn(m, k.Ignored(), Top);
    } else if r == 0 {
      Ends(m, k);
    } else {
      Refuses(m, k);
    }
  }

  lemma TableStartKept(m: Machine)
    requires Sound(m) && m.state.TableStart?
    ensures Kept(m, TableStartStep(m))
  {
    hide Sound, From, Kept, Finished, Sent, KindOf, Weight, RuneAt, WidthAt, LineAt;
    HeaderFacts();
    ReadsOn(m);
    var r, k := m.Ahead(), m.Read();
    if r == LEFT_BRACKET {
      SendsInto(m, k, ItemArrayTableStart, TableNameStart, ArrayTableEnd);
    } else {
      SendsInto(m, m, ItemTableStart, TableNameStart, TableEnd);
    }
  }

  lemma TableEndKept(m: Machine)
    requires Sound(m) && m.state.TableEnd?
    ensures Kept(m, TableEndStep(m))
  {
    hide Sound, From, Kept, KindOf, Weight;
    HeaderFacts();
    ReadsOn(m);
    SendsOn(m, m, ItemTableEnd, TopEnd);
  }

  lemma ArrayTableEndKept(m: Machine)
    requires Sound(m) && m.state.ArrayTableEnd?
    ensures Kept(m, ArrayTableEndStep(m))
  {
    hide Sound, From, Kept, Finished, Sent, KindOf, Weight, RuneAt, WidthAt, LineAt;
    HeaderFacts();
    ReadsOn(m);
    var r, k := m.Ahead(), m.Read();
    Reading(m);
    if r == RIGHT_BRACKET {
      SendsOn(m, k, ItemArrayTableEnd, TopEnd);
    } else {
      Refuses(m, k);
    }
  }

  lemma SkipsOn(m: Machine)
    requires Sound(m)
    ensures m.InBounds() && m.Skipped().InBounds()
    ensures var k := m.Skipped(); From(m, k) && k.start == k.pos && (k.Ahead() != 0 ==> From(m, k.Read()) && From(m, k.Read().Ignored()))
    ensures var k := m.Skipped(); k.Read().InBounds() && k.Read() == m.(pos := k.Read().pos, start := k.start) && k.Read().pos >= m.pos
    ensures var k := m.Skipped(); k.Ahead() != 0 ==> k.Read().pos > m.pos
  {
    var k := m.Skipped();
    assert NoNul(m.input, m.pos, k.pos) by {
      forall i | m.pos <= i < k.pos
        ensures m.input[i] != 0
      {
        assert IsWhitespace(m.input[i]);
      }
    }
    Reading(k);
    assert k.Ahead() != 0 ==> NoNul(m.input, m.pos, k.Read().pos);
  }

  lemma TableNameStartKept(m: Machine)
    requires Sound(m) && m.state.TableNameStart?
    ensures Kept(m, TableNameStartStep(m))
  {
    hide Sound, From, Kept, KindOf, Weight, RuneAt, WidthAt, LineAt, WhitespaceEnd;
    HeaderFacts();
    SkipsOn(m);
    var k := m.Skipped();
    var r := k.Ahead();
    if r == RIGHT_BRACKET || r == 0 || r == DOT {
      assert k.InBounds() && k.pos >= m.pos;
      Refuses(m, k);
    } else if IsQuote(r) {
      GoesInto(m, k, Value, TableNameEnd);
    } else {
      GoesOn(m, k, BareTableName);
    }
  }

  lemma BareTableNameKept(m: Machine)
    requires Sound(m) && m.state.BareTableName?
    ensures Kept(m, BareTableNameStep(m))
  {
    hide Sound, From, Kept, Finished, Sent, KindOf, Weight, RuneAt, WidthAt, LineAt;
    HeaderFacts();
    ReadsOn(m);
    var r, k := m.Ahead(), m.Read();
    if IsBareKeyChar(r) {
      GoesOn(m, k, BareTableName);
    } else {
      SendsOn(m, m, ItemText, TableNameEnd);
    }
  }

  lemma TableNameEndKept(m: Machine)
    requires Sound(m) && m.state.TableNameEnd?
    ensures Kept(m, TableNameEndStep(m))
  {
    hide Sound, From, Kept, KindOf, Weight, RuneAt, WidthAt, LineAt, WhitespaceEnd;
    HeaderFacts();
    SkipsOn(m);
    var k := m.Skipped();
    var r := k.Ahead();
    if IsWhitespace(r) {
      GoesOn(m, k.Read(), TableNameEnd);
    } else if r == DOT {
      GoesOn(m, k.Read().Ignored(), TableNameStart);
    } else if r == RIGHT_BRACKET {
      GoesBack(m, k.Read());
    } else {
      Refuses(m, k.Read());
    }
  }

  lemma KeyStartKept(m: Machine)
    requires Sound(m) && m.state.KeyStart?
    ensures Kept(m, KeyStartStep(m))
  {
    hide Sound, From, Kept, Finished, Sent, KindOf, Weight, RuneAt, WidthAt, LineAt;
    KeyFacts();
    ReadsOn(m);
    var r, k := m.Ahead(), m.Read();
    if r == EQUALS {
      Refuses(m, m);
    } else if IsBlank(r) {
      GoesOn(m, k, Skip(KeyStart));
    } else if IsQuote(r) {
      SendsInto(m, m.Ignored(), ItemKeyStart, Value, KeyEnd);
    } else {
      SendsOn(m, m.Ignored(), ItemKeyStart, BareKey);
    }
  }

  lemma BareKeyKept(m: Machine)
    requires Sound(m) && m.state.BareKey?
    ensures Kept(m, BareKeyStep(m))
  {
    hide Sound, From, Kept, Finished, Sent, KindOf, Weight, RuneAt, WidthAt, LineAt;
    KeyFacts();
    ReadsOn(m);
    var r, k := m.Ahead(), m.Read();
    Reading(m);
    if IsBareKeyChar(r) {
      GoesOn(m, k, BareKey);
    } else if IsWhitespace(r) || r == EQUALS {
      SendsOn(m, m, ItemText, KeyEnd);
    } else {
      Refuses(m, k);
    }
  }

  lemma KeyEndKept(m: Machine)
    requires Sound(m) && m.state.KeyEnd?
    ensures Kept(m, KeyEndStep(m))
  {
    hide Sound, From, Kept, Finished, Sent, KindOf, Weight, RuneAt, WidthAt, LineAt;
    KeyFacts();
    ReadsOn(m);
    var r, k := m.Ahead(), m.Read();
    Reading(m);
    if r == EQUALS {
      GoesOn(m, k, Skip(Value));
    } else if IsWhitespace(r) {
      GoesOn(m, k, Skip(KeyEnd));
    } else {
      Refuses(m, k);
    }
  }

  lemma MultiNothing(input: bytes, p: nat)
    ensures p <= |input| ==> MultiAfter(input[p..p], Text) == Some(Text)
  {
    if p <= |input| {
      assert input[p..p] == [];
    }
  }

  /** An opening quote starts a string, on a line of its own or over several. */
  lemma StringOpens(m: Machine, quote: int)
    requires Sound(m) && m.state.Value? && IsQuote(quote) && m.Ahead() == quote && m.pos < |m.input|
    ensures Kept(m, StringStep(m, quote))
  {
    hide Nested, Clean, Scan, KindOf, Weight, StackWeight, Sent, Finished, OneMore, RuneAt, WidthAt, MultiAfter;
    ValueFacts();
    Reading(m);
    NothingSent(m.items);
    MultiNothing(m.input, StringStep(m, quote).pos);
  }

  lemma ValueKept(m: Machine, isLetter: LetterTest)
    requires Sound(m) && m.state.Value?
    ensures Kept(m, ValueStep(m, isLetter))
  {
    hide Sound, From, Kept, KindOf, Weight, RuneAt, WidthAt, LineAt, OtherValueStep, StringStep;
    ValueFacts();
    ReadsOn(m);
    var r := m.Ahead();
    if IsWhitespace(r) {
      GoesOn(m, m.Read(), Skip(Value));
    } else if IsDigit(r) {
      GoesOn(m, m, NumberOrDateStart);
    } else if IsQuote(r) {
      StringOpens(m, r);
    } else {
      OtherValueKept(m, isLetter);
    }
  }

  lemma OtherValueKept(m: Machine, isLetter: LetterTest)
    requires Sound(m) && m.state.Value? && !IsWhitespace(m.Ahead()) && !IsDigit(m.Ahead()) && !IsQuote(m.Ahead())
    ensures Kept(m, OtherValueStep(m, isLetter))
  {
    hide Sound, From, Kept, KindOf, Weight, RuneAt, WidthAt, LineAt;
    ValueFacts();
    ReadsOn(m);
    Reading(m);
    var r, k := m.Ahead(), m.Read();
    if r == LEFT_BRACKET {
      SendsOn(m, k.Ignored(), ItemArray, ArrayValue);
    } else if r == LEFT_BRACE {
      SendsOn(m, k.Ignored(), ItemInlineTableStart, InlineTableValue);
    } else if IsSign(r) {
      GoesOn(m, k, NumberStart);
    } else if r == DOT || !isLetter(r) {
      Refuses(m, k);
    } else {
      GoesOn(m, m, Bool);
    }
  }

  lemma ArrayValueKept(m: Machine)
    requires Sound(m) && m.state.ArrayValue?
    ensures Kept(m, ArrayValueStep(m))
  {
    hide Sound, From, Kept, Finished, Sent, KindOf, Weight, RuneAt, WidthAt, LineAt;
    ArrayFacts();
    ReadsOn(m);
    var r, k := m.Ahead(), m.Read();
    Reading(m);
    if IsBlank(r) {
      GoesOn(m, k, Skip(ArrayValue));
    } else if r == HASH {
      GoesInto(m, k, CommentStart, ArrayValue);
    } else if r == COMMA {
      Refuses(m, k);
    } else if r == RIGHT_BRACKET {
      GoesOn(m, k, ArrayEnd);
    } else {
      GoesInto(m, m, Value, ArrayValueEnd);
    }
  }

  lemma ArrayValueEndKept(m: Machine)
    requires Sound(m) && m.state.ArrayValueEnd?
    ensures Kept(m, ArrayValueEndStep(m))
  {
    hide Sound, From, Kept, Finished, Sent, KindOf, Weight, RuneAt, WidthAt, LineAt;
    ArrayFacts();
    ReadsOn(m);
    var r, k := m.Ahead(), m.Read();
    Reading(m);
    if IsBlank(r) {
      GoesOn(m, k, Skip(ArrayValueEnd));
    } else if r == HASH {
      GoesInto(m, k, CommentStart, ArrayValueEnd);
    } else if r == COMMA {
      GoesOn(m, k.Ignored(), ArrayValue);
    } else if r == RIGHT_BRACKET {
      GoesOn(m, k, ArrayEnd);
    } else {
      Refuses(m, k);
    }
  }

  lemma ArrayEndKept(m: Machine)
    requires Sound(m) && m.state.ArrayEnd?
    ensures Kept(m, ArrayEndStep(m))
  {
    hide Sound, From, Kept, KindOf, Weight;
    ArrayFacts();
    ReadsOn(m);
    DeliversHere(m, m.Ignored(), ItemArrayEnd);
  }

  lemma InlineTableEndKept(m: Machine)
    requires Sound(m) && m.state.InlineTableEnd?
    ensures Kept(m, InlineTableEndStep(m))
  {
    hide Sound, From, Kept, KindOf, Weight;
    InlineTableFacts();
    ReadsOn(m);
    DeliversHere(m, m.Ignored(), ItemInlineTableEnd);
  }

  lemma InlineTableValueKept(m: Machine)
    requires Sound(m) && m.state.InlineTableValue?
    ensures Kept(m, InlineTableValueStep(m))
  {
    hide Sound, From, Kept, Finished, Sent, KindOf, Weight, RuneAt, WidthAt, LineAt;
    InlineTableFacts();
    ReadsOn(m);
    var r, k := m.Ahead(), m.Read();
    Reading(m);
    if IsWhitespace(r) {
      GoesOn(m, k, Skip(InlineTableValue));
    } else if IsNL(r) || r == COMMA {
      Refuses(m, k);
    } else if r == HASH {
      GoesInto(m, k, CommentStart, InlineTableValue);
    } else if r == RIGHT_BRACE {
      GoesOn(m, k, InlineTableEnd);
    } else {
      GoesInto(m, m, KeyStart, InlineTableValueEnd);
    }
  }

  lemma InlineTableValueEndKept(m: Machine)
    requires Sound(m) && m.state.InlineTableValueEnd?
    ensures Kept(m, InlineTableValueEndStep(m))
  {
    hide Sound, From, Kept, Finished, Sent, KindOf, Weight, RuneAt, WidthAt, LineAt;
    InlineTableFacts();
    ReadsOn(m);
    var r, k := m.Ahead(), m.Read();
    Reading(m);
    if IsWhitespace(r) {
      GoesOn(m, k, Skip(InlineTableValueEnd));
    } else if r == HASH {
      GoesInto(m, k, CommentStart, InlineTableValueEnd);
    } else if r == COMMA {
      GoesOn(m, k.Ignored(), InlineTableValue);
    } else if r == RIGHT_BRACE {
      GoesOn(m, k, InlineTableEnd);
    } else {
      Refuses(m, k);
    }
  }

  lemma NumberOrDateStartKept(m: Machine)
    requires Sound(m) && m.state.NumberOrDateStart?
    ensures Kept(m, NumberOrDateStartStep(m))
  {
    hide Sound, From, Kept, Finished, Sent, KindOf, Weight, RuneAt, WidthAt, LineAt;
    NumberFacts();
    ReadsOn(m);
    var r, k := m.Ahead(), m.Read();
    Reading(m);
    if IsDigit(r) {
      GoesOn(m, k, NumberOrDate);
    } else if r == UNDERSCORE {
      GoesOn(m, k, Number);
    } else if IsExponent(r) {
      GoesOn(m, k, Float);
    } else {
      Refuses(m, k);
    }
  }

  lemma NumberOrDateKept(m: Machine)
    requires Sound(m) && m.state.NumberOrDate?
    ensures Kept(m, NumberOrDateStep(m))
  {
    hide Sound, From, Kept, Finished, Sent, KindOf, Weight, RuneAt, WidthAt, LineAt;
    NumberFacts();
    ReadsOn(m);
    var r, k := m.Ahead(), m.Read();
    if IsDigit(r) {
      GoesOn(m, k, NumberOrDate);
    } else if r == MINUS {
      GoesOn(m, k, Datetime);
    } else if r == UNDERSCORE {
      GoesOn(m, k, Number);
    } else if r == DOT || IsExponent(r) {
      GoesOn(m, k, Float);
    } else {
      DeliversHere(m, m, ItemInteger);
    }
  }

  lemma DatetimeKept(m: Machine)
    requires Sound(m) && m.state.Datetime?
    ensures Kept(m, DatetimeStep(m))
  {
    hide Sound, From, Kept, Finished, Sent, KindOf, Weight, RuneAt, WidthAt, LineAt;
    NumberFacts();
    ReadsOn(m);
    var r, k := m.Ahead(), m.Read();
    if IsDatePart(r) {
      GoesOn(m, k, Datetime);
    } else {
      DeliversHere(m, m, ItemDatetime);
    }
  }

  lemma NumberStartKept(m: Machine)
    requires Sound(m) && m.state.NumberStart?
    ensures Kept(m, NumberStartStep(m))
  {
    hide Sound, From, Kept, Finished, Sent, KindOf, Weight, RuneAt, WidthAt, LineAt;
    NumberFacts();
    ReadsOn(m);
    var r, k := m.Ahead(), m.Read();
    Reading(m);
    if IsDigit(r) {
      GoesOn(m, k, Number);
    } else {
      Refuses(m, k);
    }
  }

  lemma NumberKept(m: Machine)
    requires Sound(m) && m.state.Number?
    ensures Kept(m, NumberStep(m))
  {
    hide Sound, From, Kept, Finished, Sent, KindOf, Weight, RuneAt, WidthAt, LineAt;
    NumberFacts();
    ReadsOn(m);
    var r, k := m.Ahead(), m.Read();
    if IsDigit(r) || r == UNDERSCORE {
      GoesOn(m, k, Number);
    } else if r == DOT || IsExponent(r) {
      GoesOn(m, k, Float);
    } else {
      DeliversHere(m, m, ItemInteger);
    }
  }

  lemma FloatKept(m: Machine)
    requires Sound(m) && m.state.Float?
    ensures Kept(m, FloatStep(m))
  {
    hide Sound, From, Kept, Finished, Sent, KindOf, Weight, RuneAt, WidthAt, LineAt;
    NumberFacts();
    ReadsOn(m);
    var r, k := m.Ahead(), m.Read();
    if IsFloatPart(r) {
      GoesOn(m, k, Float);
    } else {
      DeliversHere(m, m, ItemFloat);
    }
  }

  /** Letters are no NUL bytes. */
  lemma {:induction false} LettersNoNul(input: bytes, isLetter: LetterTest, p: nat)
    requires p <= |input|
    ensures NoNul(input, p, Letters(input, isLetter, p).1)
    decreases |input| - p
  {
    hide Utf8.Decode;
    if p < |input| && isLetter(RuneAt(input, p)) {
      LettersNoNul(input, isLetter, p + WidthAt(input, p));
    }
  }

  lemma WordRead(m: Machine, isLetter: LetterTest)
    requires Sound(m)
    ensures m.InBounds() && var k := m.To(Letters(m.input, isLetter, m.pos).1);
            From(m, k) && k.InBounds() && k == m.(pos := k.pos, start := k.start) && k.pos >= m.pos
  {
    LettersNoNul(m.input, isLetter, m.pos);
  }

  lemma BoolKept(m: Machine, isLetter: LetterTest)
    requires Sound(m) && m.state.Bool?
    ensures Kept(m, BoolStep(m, isLetter))
  {
    hide Sound, From, Kept, KindOf, Weight, Letters, IsBoolWord, LineAt;
    NumberFacts();
    WordRead(m, isLetter);
    var k := m.To(Letters(m.input, isLetter, m.pos).1);
    DeliversHere(m, k, ItemBool);
    Refuses(m, k);
  }

  lemma CommentStartKept(m: Machine)
    requires Sound(m) && m.state.CommentStart?
    ensures Kept(m, CommentStartStep(m))
  {
    hide Sound, From, Kept, KindOf, Weight;
    CommentFacts();
    ReadsOn(m);
    SendsOn(m, m.Ignored(), ItemCommentStart, Comment);
  }

  lemma CommentKept(m: Machine)
    requires Sound(m) && m.state.Comment?
    ensures Kept(m, CommentStep(m))
  {
    hide Sound, From, Kept, Finished, Sent, KindOf, Weight, RuneAt, WidthAt, LineAt;
    CommentFacts();
    ReadsOn(m);
    var r, k := m.Ahead(), m.Read();
    if IsNL(r) || r == 0 {
      DeliversHere(m, m, ItemText);
    } else {
      GoesOn(m, k, Comment);
    }
  }

  lemma PlainNext(m: Machine)
    requires Sound(m) && m.state.Skip?
    ensures Plain(m.state.next) && !m.state.next.Skip? && !InEscape(m.state.next)
  {
  }

  lemma SkipKept(m: Machine)
    requires Sound(m) && m.state.Skip?
    ensures Kept(m, m.Ignored().Goes(m.state.next))
  {
    hide Sound, From, Kept, KindOf, Weight;
    PlainNext(m);
    SkipFacts(m.state.next);
    ReadsOn(m);
    GoesOn(m, m.Ignored(), m.state.next);
  }

  // ---------------------------------------------------------------- the states inside strings

  /** One step inside a basic string: the string goes on, or ends where Scan says, or has no end. */
  predicate StringGoes(m: Machine, n: Machine)
    requires InString(m.state, m.stack) && m.InBounds()
  {
    var base := StringStack(m.state, m.stack);
    var end := Scan(m.input, m.start, Text);
    if n.state.Halt? then end == None
    else if n.items == m.items then InString(n.state, n.stack) && n.start == m.start && StringStack(n.state, n.stack) == base
    else
      && end.Some? && m.start <= end.value < |m.input|
      && n.items == m.items + [Item(ItemString, m.input[m.start..end.value], LineAt(m.input, end.value))]
      && n.pos == n.start == end.value + 1
      && base == Pushed(n.state, n.stack)
  }

  lemma StrEnters(m: Machine)
    requires Sound(m) && m.state.Str? && m.Ahead() == BACKSLASH
    ensures var n := m.Read().Enters(StrEscape, Str); Kept(m, n) && StringGoes(m, n)
  {
    hide Nested, Clean, KindOf, Weight, StackWeight, Sent, Finished, OneMore, RuneAt, WidthAt, Scan, MultiAfter, LineAt;
    StringFacts();
    NothingSent(m.items);
    Reading(m);
    Entering(m.stack, Str);
    ScanText(m.input, m.pos);
  }

  lemma StrReads(m: Machine)
    requires Sound(m) && m.state.Str?
    requires var r := m.Ahead(); r != BACKSLASH && r != QUOTE && r != 0 && !IsNL(r)
    ensures var n := m.Read().Goes(Str); Kept(m, n) && StringGoes(m, n)
  {
    hide Nested, Clean, KindOf, Weight, StackWeight, Sent, Finished, OneMore, Scan, MultiAfter, LineAt, Utf8.Decode;
    NothingSent(m.items);
    Reading(m);
    ScanText(m.input, m.pos);
    ScanSkip(m.input, m.pos + 1, WidthAt(m.input, m.pos) - 1);
  }

  lemma StrCloses(m: Machine)
    requires Sound(m) && m.state.Str? && m.Ahead() == QUOTE
    ensures var n := m.Emitted(ItemString).Read().Ignored().Returns(); Kept(m, n) && StringGoes(m, n)
  {
    hide Nested, Clean, Weight, StackWeight, Sent, Finished, OneMore, RuneAt, WidthAt, Scan, MultiAfter, LineAt, WellEscaped;
    ReadsOn(m);
    Reading(m);
    StringFacts();
    ScanText(m.input, m.pos);
    ScanIsWellEscaped(m.input, m.start);
    OnTop(m);
    hide Sound, Kept;
    DeliversAndDrops(m, m, ItemString, m.pos + 1);
    assert m.Emitted(ItemString).Read() == m.Emitted(ItemString).To(m.pos + 1);
  }

  lemma StrKept(m: Machine)
    requires Sound(m) && m.state.Str?
    ensures Kept(m, StrStep(m)) && StringGoes(m, StrStep(m))
  {
    hide Sound, Kept, KindOf, Weight, RuneAt, WidthAt, LineAt, Scan, StringStack;
    ReadsOn(m);
    Reading(m);
    var r := m.Ahead();
    if r == 0 || IsNL(r) {
      Refuses(m, m.Read());
      StrHasNoEnd(m);
    } else if r == BACKSLASH {
      StrEnters(m);
    } else if r == QUOTE {
      StrCloses(m);
    } else {
      StrReads(m);
    }
  }

  lemma StrHasNoEnd(m: Machine)
    requires Sound(m) && m.state.Str? && (m.Ahead() == 0 || IsNL(m.Ahead()))
    ensures Scan(m.input, m.start, Text) == None
  {
    hide Nested, Clean, KindOf, MultiAfter, Utf8.Decode, Scan;
    ScanText(m.input, m.pos);
  }

  lemma RawStrKept(m: Machine)
    requires Sound(m) && m.state.RawStr?
    ensures Kept(m, RawStrStep(m))
  {
    hide Sound, From, Kept, KindOf, Weight, RuneAt, WidthAt, LineAt;
    StringFacts();
    ReadsOn(m);
    Reading(m);
    var r := m.Ahead();
    if r == 0 || IsNL(r) {
      Refuses(m, m.Read());
    } else if r == SINGLE_QUOTE {
      QuotesRead(m, m.pos + 1);
      DeliversAndDrops(m, m, ItemRawString, m.pos + 1);
      assert m.Emitted(ItemRawString).Read() == m.Emitted(ItemRawString).To(m.pos + 1);
    } else {
      GoesOn(m, m.Read(), RawStr);
    }
  }

  /** Quotes are no NUL bytes. */
  lemma QuotesRead(m: Machine, p: nat)
    requires Sound(m) && m.pos <= p <= |m.input| && forall i :: m.pos <= i < p ==> IsQuote(m.input[i])
    ensures NoNul(m.input, m.pos, p)
  {
    hide Nested, Clean, KindOf, MultiAfter, Scan;
    forall i | m.pos <= i < p
      ensures m.input[i] != 0
    {
      assert IsQuote(m.input[i]);
    }
  }

  lemma MultilineRawStrKept(m: Machine)
    requires Sound(m) && m.state.MultilineRawStr?
    ensures Kept(m, MultilineRawStrStep(m))
  {
    hide Sound, From, Kept, KindOf, Weight, RuneAt, WidthAt, LineAt;
    StringFacts();
    ReadsOn(m);
    Reading(m);
    var r := m.Ahead();
    if r == 0 {
      Refuses(m, m.Read());
    } else if r == SINGLE_QUOTE && ThreeQuotes(m.input, m.pos, r) {
      QuotesRead(m, m.pos + 3);
      DeliversAndDrops(m, m, ItemRawMultilineString, m.pos + 3);
    } else {
      GoesOn(m, m.Read(), MultilineRawStr);
    }
  }

  /** One byte more of a string over several lines. */
  lemma MultiReads(m: Machine, mode: Mode)
    requires Sound(m) && InMultiline(m.state, m.stack) && 0 < m.Ahead() < 0x80
    ensures m.pos < |m.input| && m.input[m.pos] == m.Ahead() && m.start <= m.pos
    ensures NextMultiMode(ModeOf(m.state), m.input[m.pos]) == Some(mode) ==>
              MultiAfter(m.input[m.start..m.pos + 1], Text) == Some(mode)
  {
    hide Nested, Clean, KindOf, MultiAfter, Scan, Utf8.Decode;
    var before := m.input[m.start..m.pos];
    assert m.pos < |m.input| ==> m.input[m.start..m.pos + 1] == before + [m.input[m.pos]];
    if m.pos < |m.input| {
      MultiOneMore(before, m.input[m.pos], Text);
    }
  }

  lemma MultilineStrOn(m: Machine)
    requires Sound(m) && m.state.MultilineStr? && m.Ahead() != 0 && m.Ahead() != BACKSLASH
    ensures Kept(m, m.Read().Goes(MultilineStr))
  {
    hide Nested, Clean, KindOf, Weight, StackWeight, Sent, Finished, OneMore, Scan, MultiAfter, LineAt, Utf8.Decode;
    NothingSent(m.items);
    Reading(m);
    if m.Ahead() < 0x80 {
      MultiReads(m, Text);
    } else {
      MultiSkip(m.input, m.start, m.pos, WidthAt(m.input, m.pos), Text);
    }
  }

  lemma MultilineStrEscapes(m: Machine)
    requires Sound(m) && m.state.MultilineStr? && m.Ahead() == BACKSLASH
    ensures Kept(m, m.Read().Goes(MultilineStrEscape))
  {
    hide Nested, Clean, Weight, StackWeight, Sent, Finished, OneMore, Scan, MultiAfter, LineAt, RuneAt, WidthAt;
    NothingSent(m.items);
    Reading(m);
    MultiReads(m, Escape);
  }

  lemma MultilineStrKept(m: Machine)
    requires Sound(m) && m.state.MultilineStr?
    ensures Kept(m, MultilineStrStep(m))
  {
    hide Sound, From, Kept, KindOf, Weight, RuneAt, WidthAt, LineAt, MultiEscaped;
    StringFacts();
    ReadsOn(m);
    Reading(m);
    var r := m.Ahead();
    if r == 0 {
      Refuses(m, m.Read());
    } else if r == BACKSLASH {
      MultilineStrEscapes(m);
    } else if r == QUOTE && ThreeQuotes(m.input, m.pos, r) {
      QuotesRead(m, m.pos + 3);
      MultilineText(m);
      DeliversAndDrops(m, m, ItemMultilineString, m.pos + 3);
    } else {
      MultilineStrOn(m);
    }
  }

  lemma MultilineText(m: Machine)
    requires Sound(m) && m.state.MultilineStr?
    ensures m.InBounds() && MultiEscaped(m.input[m.start..m.pos])
  {
    hide Nested, Clean, KindOf, MultiAfter, Scan;
  }

  lemma MultilineStrEscapeKept(m: Machine)
    requires Sound(m) && m.state.MultilineStrEscape?
    ensures Kept(m, MultilineStrEscapeStep(m))
  {
    hide Sound, From, Kept, KindOf, Weight, RuneAt, WidthAt, LineAt;
    ReadsOn(m);
    Reading(m);
    var r := m.Ahead();
    if IsNL(r) || SimpleEscape(r) >= 0 {
      MultilineEscapeEnds(m);
    } else if r == LOWER_U {
      MultilineEscapeGoesOn(m, ShortUnicodeEscape, Hex(4));
    } else if r == UPPER_U {
      MultilineEscapeGoesOn(m, LongUnicodeEscape, Hex(8));
    } else {
      MultilineEscapeFails(m);
    }
  }

  lemma MultilineEscapeEnds(m: Machine)
    requires Sound(m) && m.state.MultilineStrEscape? && (IsNL(m.Ahead()) || SimpleEscape(m.Ahead()) >= 0)
    ensures Kept(m, MultilineStrEscapeStep(m))
  {
    hide Nested, Clean, Weight, StackWeight, Sent, Finished, OneMore, Scan, MultiAfter, LineAt, RuneAt, WidthAt;
    NothingSent(m.items);
    Reading(m);
    MultiReads(m, Text);
    assert MultilineStrEscapeStep(m) == m.Read().Goes(MultilineStr);
  }

  lemma MultilineEscapeGoesOn(m: Machine, s: State, mode: Mode)
    requires Sound(m) && m.state.MultilineStrEscape?
    requires (m.Ahead() == LOWER_U && s.ShortUnicodeEscape? && mode == Hex(4)) || (m.Ahead() == UPPER_U && s.LongUnicodeEscape? && mode == Hex(8))
    ensures Kept(m, MultilineStrEscapeStep(m))
  {
    hide Nested, Clean, Weight, StackWeight, Sent, Finished, OneMore, Scan, MultiAfter, LineAt, RuneAt, WidthAt;
    NothingSent(m.items);
    Reading(m);
    MultiReads(m, mode);
    Entering(m.stack, MultilineStr);
    assert MultilineStrEscapeStep(m) == m.Read().Enters(s, MultilineStr);
  }

  lemma MultilineEscapeFails(m: Machine)
    requires Sound(m) && m.state.MultilineStrEscape?
    requires var r := m.Ahead(); !IsNL(r) && SimpleEscape(r) < 0 && r != LOWER_U && r != UPPER_U
    ensures Kept(m, MultilineStrEscapeStep(m))
  {
    hide Nested, Clean, Weight, StackWeight, Sent, Finished, OneMore, Scan, MultiAfter, LineAt, RuneAt, WidthAt;
    Reading(m);
    Failing(m.Enters(StrEscape, MultilineStr).Read());
  }

  /** What an escape returns to is a string. */
  lemma InEscapeOf(m: Machine)
    requires Sound(m) && InEscape(m.state)
    ensures m.InBounds() && m.stack.Pushed? && InMiddleOfString(m.stack.top) && Nested(Returns, m.stack.below)
    ensures m.stack.top.Str? <==> InString(m.state, m.stack)
    ensures m.stack.top.MultilineStr? <==> InMultiline(m.state, m.stack)
  {
    hide Clean, Scan, MultiAfter;
    NestedReturns(m.stack);
  }

  lemma StrEscapeKept(m: Machine)
    requires Sound(m) && m.state.StrEscape?
    ensures Kept(m, StrEscapeStep(m)) && m.InBounds() && (InString(m.state, m.stack) ==> StringGoes(m, StrEscapeStep(m)))
  {
    hide Sound, Kept, KindOf, Weight, RuneAt, WidthAt, LineAt, Scan;
    InEscapeOf(m);
    ReadsOn(m);
    Reading(m);
    var r := m.Ahead();
    if SimpleEscape(r) >= 0 {
      EscapeEnds(m, m.pos + 1, m.Read());
    } else if r == LOWER_U {
      EscapeGoesOn(m, ShortUnicodeEscape, Hex(4));
    } else if r == UPPER_U {
      EscapeGoesOn(m, LongUnicodeEscape, Hex(8));
    } else {
      Refuses(m, m.Read());
      EscapeUnknown(m);
    }
  }

  lemma EscapeUnknown(m: Machine)
    requires Sound(m) && m.state.StrEscape?
    requires var r := m.Ahead(); SimpleEscape(r) < 0 && r != LOWER_U && r != UPPER_U
    ensures InString(m.state, m.stack) ==> Scan(m.input, m.start, Text) == None
  {
    hide Nested, Clean, KindOf, MultiAfter, Utf8.Decode, Scan;
    ScanEscape(m.input, m.pos);
  }

  lemma EscapeGoesOn(m: Machine, s: State, mode: Mode)
    requires Sound(m) && m.state.StrEscape?
    requires (m.Ahead() == LOWER_U && s.ShortUnicodeEscape? && mode == Hex(4)) || (m.Ahead() == UPPER_U && s.LongUnicodeEscape? && mode == Hex(8))
    ensures Kept(m, StrEscapeStep(m)) && m.InBounds() && (InString(m.state, m.stack) ==> StringGoes(m, StrEscapeStep(m)))
  {
    hide Nested, Clean, Weight, StackWeight, Sent, Finished, OneMore, Scan, MultiAfter, LineAt, RuneAt, WidthAt;
    InEscapeOf(m);
    NothingSent(m.items);
    Reading(m);
    StringFacts();
    ScanEscape(m.input, m.pos);
    if m.stack.top.MultilineStr? {
      MultiReads(m, mode);
    }
  }

  /** The end of an escape that has been read up to p. */
  lemma EscapeEnds(m: Machine, p: nat, k: Machine)
    requires Sound(m) && InEscape(m.state) && ReturnsSilently(m.state, m.Ahead())
    requires m.pos < p <= |m.input| && NoNul(m.input, m.pos, p) && k == m.To(p)
    requires m.state.StrEscape? ==> SimpleEscape(m.Ahead()) >= 0 && p == m.pos + 1
    requires m.state.ShortUnicodeEscape? ==> HexEnd(m.input, m.pos, 4) == (true, p)
    requires m.state.LongUnicodeEscape? ==> HexEnd(m.input, m.pos, 8) == (true, p)
    ensures Kept(m, k.Returns()) && m.InBounds() && (InString(m.state, m.stack) ==> StringGoes(m, k.Returns()))
  {
    hide *;
    if m.state.StrEscape? {
      SimpleEscapeEnds(m, p, k);
    } else {
      HexEscapeEnds(m, p, k);
    }
  }

  lemma SimpleEscapeEnds(m: Machine, p: nat, k: Machine)
    requires Sound(m) && m.state.StrEscape? && ReturnsSilently(m.state, m.Ahead())
    requires m.pos < p <= |m.input| && NoNul(m.input, m.pos, p) && k == m.To(p)
    requires SimpleEscape(m.Ahead()) >= 0 && p == m.pos + 1
    ensures Kept(m, k.Returns()) && m.InBounds() && (InString(m.state, m.stack) ==> StringGoes(m, k.Returns()))
  {
    hide Nested, Clean, Weight, StackWeight, Sent, Finished, OneMore, Scan, MultiAfter, LineAt, RuneAt, WidthAt, HexEnd, NoNul;
    InEscapeOf(m);
    NothingSent(m.items);
    NestedReturns(m.stack);
    Returning(k);
    StringFacts();
    Reading(m);
    ScanEscape(m.input, m.pos);
    if m.stack.top.MultilineStr? {
      MultiReads(m, Text);
    }
    assert InMiddleOfString(m.stack.top);
  }

  lemma HexEscapeEnds(m: Machine, p: nat, k: Machine)
    requires Sound(m) && InEscape(m.state) && !m.state.StrEscape? && ReturnsSilently(m.state, m.Ahead())
    requires m.pos < p <= |m.input| && NoNul(m.input, m.pos, p) && k == m.To(p)
    requires m.state.ShortUnicodeEscape? ==> HexEnd(m.input, m.pos, 4) == (true, p)
    requires m.state.LongUnicodeEscape? ==> HexEnd(m.input, m.pos, 8) == (true, p)
    ensures Kept(m, k.Returns()) && m.InBounds() && (InString(m.state, m.stack) ==> StringGoes(m, k.Returns()))
  {
    hide Nested, Clean, Weight, StackWeight, Sent, Finished, OneMore, Scan, MultiAfter, LineAt, RuneAt, WidthAt, HexEnd, NoNul;
    InEscapeOf(m);
    NothingSent(m.items);
    NestedReturns(m.stack);
    Returning(k);
    StringFacts();
    var count := if m.state.ShortUnicodeEscape? then 4 else 8;
    HexScans(m.input, m.pos, count);
    if m.stack.top.MultilineStr? {
      HexMulti(m.input, m.start, m.pos, count);
    }
    assert InMiddleOfString(m.stack.top);
  }

  /** Reading hexadecimal digits agrees with scanning for them. */
  lemma {:induction false} HexScans(input: bytes, p: nat, count: nat)
    requires p <= |input| && count > 0
    ensures var r := HexEnd(input, p, count);
            if r.0 then Scan(input, p, Hex(count)) == Scan(input, p + count, Text) && forall i :: p <= i < p + count ==> IsHexDigit(input[i])
            else Scan(input, p, Hex(count)) == None
    decreases count
  {
    hide Utf8.Decode;
    if p < |input| && IsHexDigit(RuneAt(input, p)) && count > 1 {
      HexScans(input, p + 1, count - 1);
    }
  }

  lemma {:induction false} HexMulti(input: bytes, start: nat, p: nat, count: nat)
    requires start <= p && count > 0 && p + count <= |input| && MultiAfter(input[start..p], Text) == Some(Hex(count))
    requires forall i :: p <= i < p + count ==> IsHexDigit(input[i])
    ensures MultiAfter(input[start..p + count], Text) == Some(Text)
    decreases count
  {
    assert input[start..p + 1] == input[start..p] + [input[p]];
    MultiOneMore(input[start..p], input[p], Text);
    if count > 1 {
      HexMulti(input, start, p + 1, count - 1);
    }
  }

  lemma UnicodeEscapeKept(m: Machine, count: nat)
    requires Sound(m) && ((m.state.ShortUnicodeEscape? && count == 4) || (m.state.LongUnicodeEscape? && count == 8))
    ensures Kept(m, UnicodeEscapeStep(m, count)) && m.InBounds()
            && (InString(m.state, m.stack) ==> StringGoes(m, UnicodeEscapeStep(m, count)))
  {
    hide Sound, Kept, KindOf, Weight, RuneAt, WidthAt, LineAt, Scan, HexEnd, NoNul;
    InEscapeOf(m);
    ReadsOn(m);
    var digits := HexEnd(m.input, m.pos, count);
    if digits.0 {
      HexNoNul(m, count);
      EscapeEnds(m, digits.1, m.To(digits.1));
    } else {
      Refuses(m, m.To(digits.1));
      HexFails(m, count);
    }
  }

  lemma HexNoNul(m: Machine, count: nat)
    requires Sound(m) && count > 0 && HexEnd(m.input, m.pos, count).0
    ensures NoNul(m.input, m.pos, m.pos + count) && HexEnd(m.input, m.pos, count).1 == m.pos + count
  {
    hide Nested, Clean, KindOf, MultiAfter, Scan;
    HexScans(m.input, m.pos, count);
    forall i | m.pos <= i < m.pos + count
      ensures m.input[i] != 0
    {
      assert IsHexDigit(m.input[i]);
    }
  }

  lemma HexFails(m: Machine, count: nat)
    requires Sound(m) && ((m.state.ShortUnicodeEscape? && count == 4) || (m.state.LongUnicodeEscape? && count == 8))
    requires !HexEnd(m.input, m.pos, count).0
    ensures InString(m.state, m.stack) ==> Scan(m.input, m.start, Text) == None
  {
    hide Nested, Clean, KindOf, MultiAfter, Scan, HexEnd;
    HexScans(m.input, m.pos, count);
  }

  /** Every step of a running machine keeps it sound, brings it nearer to its end and keeps to the token protocol. */
  lemma StepKept(m: Machine, isLetter: LetterTest)
    requires Sound(m)
    ensures Kept(m, StepOf(m, isLetter)) && m.InBounds()
            && (InString(m.state, m.stack) ==> StringGoes(m, StepOf(m, isLetter)))
  {
    hide Sound, Kept, StringGoes;
    ReadsOn(m);
    match m.state {
      case Top => TopKept(m);
      case TopEnd => TopEndKept(m);
      case TableStart => TableStartKept(m);
      case TableEnd => TableEndKept(m);
      case ArrayTableEnd => ArrayTableEndKept(m);
      case TableNameStart => TableNameStartKept(m);
      case BareTableName => BareTableNameKept(m);
      case TableNameEnd => TableNameEndKept(m);
      case KeyStart => KeyStartKept(m);
      case BareKey => BareKeyKept(m);
      case KeyEnd => KeyEndKept(m);
      case Value => ValueKept(m, isLetter);
      case ArrayValue => ArrayValueKept(m);
      case ArrayValueEnd => ArrayValueEndKept(m);
      case ArrayEnd => ArrayEndKept(m);
      case InlineTableValue => InlineTableValueKept(m);
      case InlineTableValueEnd => InlineTableValueEndKept(m);
      case InlineTableEnd => InlineTableEndKept(m);
      case Str => StrKept(m);
      case MultilineStr => MultilineStrKept(m);
      case RawStr => RawStrKept(m);
      case MultilineRawStr => MultilineRawStrKept(m);
      case MultilineStrEscape => MultilineStrEscapeKept(m);
      case StrEscape => StrEscapeKept(m);
      case ShortUnicodeEscape => UnicodeEscapeKept(m, 4);
      case LongUnicodeEscape => UnicodeEscapeKept(m, 8);
      case NumberOrDateStart => NumberOrDateStartKept(m);
      case NumberOrDate => NumberOrDateKept(m);
      case Datetime => DatetimeKept(m);
      case NumberStart => NumberStartKept(m);
      case Number => NumberKept(m);
      case Float => FloatKept(m);
      case Bool => BoolKept(m, isLetter);
      case CommentStart => CommentStartKept(m);
      case Comment => CommentKept(m);
      case Skip(after) => SkipKept(m);
      case Halt => NotHalted(m);
    }
  }

  lemma NotHalted(m: Machine)
    ensures Sound(m) ==> !m.state.Halt?
  {
    hide Nested, Clean, Scan, MultiAfter;
  }

  // ---------------------------------------------------------------- whole runs

  function Start(input: bytes): Machine {
    Machine(input, Top, NoState, 0, 0, [])
  }

  lemma StartSound(input: bytes)
    ensures Sound(Start(input)) && InProtocol(Start(input))
  {
  }

  /** The machine, run until it stops. */
  ghost function Final(m: Machine, isLetter: LetterTest): (n: Machine)
    requires Sound(m) || m.state.Halt?
    ensures n.state.Halt?
    decreases if m.state.Halt? then 0 else 1, |m.input| - m.pos, Effort(m)
  {
    if m.state.Halt? then m
    else
      StepKept(m, isLetter);
      Final(StepOf(m, isLetter), isLetter)
  }

  /** The machine before the last step of its run. */
  ghost function Last(m: Machine, isLetter: LetterTest): (n: Machine)
    requires Sound(m)
    decreases |m.input| - m.pos, Effort(m)
  {
    StepKept(m, isLetter);
    var n := StepOf(m, isLetter);
    if n.state.Halt? then m else Last(n, isLetter)
  }

  /** One step changes nothing about how the run ends. */
  lemma FinalStep(m: Machine, isLetter: LetterTest)
    requires Sound(m)
    ensures m.InBounds() && var n := StepOf(m, isLetter);
            && (Sound(n) || n.state.Halt?) && Final(m, isLetter) == Final(n, isLetter) && n.input == m.input
            && (n.state.Halt? ==> Last(m, isLetter) == m) && (!n.state.Halt? ==> Last(m, isLetter) == Last(n, isLetter))
  {
    hide StepOf, Rule, OneMore, Finished;
    StepKept(m, isLetter);
    NotHalted(m);
  }

  /** A run sends more items and ends with an error or with the end of the document, at the step behind its last running machine. */
  lemma {:induction false} RunEnds(m: Machine, isLetter: LetterTest)
    requires Sound(m)
    ensures var f := Final(m, isLetter); m.items <= f.items && Finished(f.items) && f.input == m.input
    ensures var l := Last(m, isLetter);
            && Sound(l) && l.InBounds() && l.input == m.input && StepOf(l, isLetter) == Final(m, isLetter)
            && m.pos <= l.pos && NoNul(l.input, m.pos, l.pos)
    decreases |m.input| - m.pos, Effort(m)
  {
    hide StepOf, Rule, Sound, Final, Last, Finished, Effort;
    FinalStep(m, isLetter);
    StepRuns(m, isLetter);
    var n := StepOf(m, isLetter);
    if n.state.Halt? {
      HaltFinal(n, isLetter);
    } else {
      RunEnds(n, isLetter);
    }
  }

  lemma HaltFinal(m: Machine, isLetter: LetterTest)
    requires m.state.Halt?
    ensures Final(m, isLetter) == m
  {
  }

  /** A step in terms that a run goes by. */
  lemma StepRuns(m: Machine, isLetter: LetterTest)
    requires Sound(m)
    ensures m.InBounds() && var n := StepOf(m, isLetter);
            && m.items <= n.items && n.pos <= |n.input| == |m.input| && n.InBounds()
            && (n.state.Halt? ==> Finished(n.items))
            && (!n.state.Halt? ==> NoNul(n.input, m.pos, n.pos))
            && (!n.state.Halt? ==> Sound(n) && (n.pos > m.pos || (n.pos == m.pos && Effort(n) < Effort(m))))
  {
    hide StepOf, Rule, Sound, Finished, Effort;
    StepKept(m, isLetter);
  }

  // ---------------------------------------------------------------- where runs end

  /** The document ends where its last item does, or at the top level. */
  predicate AtEnd(m: Machine) {
    m.Ahead() == 0 && (m.state.TopEnd? || (m.state.Top? && m.pos == |m.input| == m.start))
  }

  lemma EofAtEnd(m: Machine, isLetter: LetterTest)
    requires Sound(m) && m.InBounds() && StepOf(m, isLetter).state.Halt?
    ensures var items := StepOf(m, isLetter).items; items != [] && (items[|items| - 1].typ.ItemEOF? <==> AtEnd(m))
  {
    if m.state.Top? || m.state.TopEnd? {
      hide Sound, LineAt, Utf8.Decode;
      ReadsOn(m);
      Reading(m);
    } else {
      hide StepOf, Sound;
      StepKept(m, isLetter);
      hide Moves, Calls, Announces, AnnouncesAndCalls, Delivers, ReturnsSilently, Finished;
    }
  }

  /**
   Where a run stops: no NUL byte has been read, and the run ends as a document does if and only if the machine then stands at the
   end of a document, which is the end of the input or, behind a top-level item, a NUL byte.
   */
  lemma RunEndsAt(input: bytes, isLetter: LetterTest)
    ensures Sound(Start(input))
    ensures var l, items := Last(Start(input), isLetter), Final(Start(input), isLetter).items;
            && l.input == input && l.InBounds() && items != []
            && 0 !in input[..l.pos]
            && (items[|items| - 1].typ.ItemEOF? <==> AtEnd(l))
            && (items[|items| - 1].typ.ItemEOF? ==> (l.pos < |input| <==> l.state.TopEnd? && 0 in input))
            && (items[|items| - 1].typ.ItemEOF? && 0 in input ==> l.pos < |input| && input[l.pos] == 0)
  {
    hide StepOf, Final, Last, Finished;
    StartSound(input);
    RunEnds(Start(input), isLetter);
    var l := Last(Start(input), isLetter);
    EofAtEnd(l, isLetter);
    hide Sound, RuneAt;
    if AtEnd(l) {
      NulAhead(l);
    }
  }

  lemma NulAhead(m: Machine)
    requires m.pos <= |m.input| && m.Ahead() == 0 && 0 !in m.input[..m.pos]
    ensures m.pos < |m.input| ==> m.input[m.pos] == 0 && 0 in m.input
    ensures m.pos == |m.input| ==> 0 !in m.input
  {
    hide Utf8.Decode;
    assert m.pos == |m.input| ==> m.input[..m.pos] == m.input;
  }

  // ---------------------------------------------------------------- runs in step with the parser

  /** The parser can go on with what has been sent so far and will be sent next. */
  ghost predicate InProtocol(m: Machine) {
    var parser := Consume(Types(m.items));
    if m.state.Halt? then m.items != [] && Over(parser, m.items[|m.items| - 1].typ)
    else InStep(m.state, m.stack, m.Ahead(), parser)
  }

  lemma StepInProtocol(m: Machine, isLetter: LetterTest)
    requires Sound(m) && InProtocol(m)
    ensures m.InBounds() && InProtocol(StepOf(m, isLetter))
  {
    hide StepOf, Rule, InStep, Over, Consume, Types, OneMore, Sent, RuneAt;
    StepKept(m, isLetter);
    var n := StepOf(m, isLetter);
    NotHalted(m);
    PlainSkip(m);
    ConsumeSent(m.items, n.items);
    SentLast(m.items, n.items);
    RuleKeeps(m.state, m.stack, m.Ahead(), Sent(m.items, n.items), n.state, n.stack, n.Ahead(), Consume(Types(m.items)));
  }

  lemma PlainSkip(m: Machine)
    requires Sound(m)
    ensures m.state.Skip? ==> !m.state.next.Skip?
  {
    hide Nested, Clean, Scan, MultiAfter;
  }

  lemma SentLast(before: seq<Item>, after: seq<Item>)
    requires after == before || OneMore(before, after)
    ensures OneMore(before, after) ==> after != [] && Sent(before, after) == Some(after[|after| - 1].typ)
  {
  }

  lemma {:induction false} RunInProtocol(m: Machine, isLetter: LetterTest)
    requires Sound(m) && InProtocol(m)
    ensures InProtocol(Final(m, isLetter))
    decreases |m.input| - m.pos, Effort(m)
  {
    hide StepOf, Sound, Final, InProtocol, Effort, Finished;
    FinalStep(m, isLetter);
    StepRuns(m, isLetter);
    StepInProtocol(m, isLetter);
    var n := StepOf(m, isLetter);
    if n.state.Halt? {
      HaltFinal(n, isLetter);
    } else {
      RunInProtocol(n, isLetter);
    }
  }

  lemma NeverStuck(m: Machine)
    requires InProtocol(m)
    ensures Consume(Types(m.items)) != Stuck(false)
  {
    hide Consume, Types;
  }

  /**
   Every input is lexed to an end or to one error; and a parser that consumes the items ends, or is given the error, unless
   a comment is opened directly in an inline table: then, and only then, it meets an item it has no case for.
   */
  lemma RunAgrees(input: bytes, isLetter: LetterTest)
    ensures Sound(Start(input))
    ensures var items := Final(Start(input), isLetter).items;
            && Finished(items)
            && Consume(Types(items)) ==
               if AnyInlineComment(Types(items)) then Stuck(true)
               else if items[|items| - 1].typ.ItemEOF? then Ended else Refused
  {
    hide Final, Consume, Types, AnyInlineComment;
    StartSound(input);
    hide Sound, Finished, InProtocol;
    RunEnds(Start(input), isLetter);
    RunInProtocol(Start(input), isLetter);
    var f := Final(Start(input), isLetter);
    NeverStuck(f);
    FinishedRuns(f.items);
    StuckIsInlineComment(Types(f.items));
    OverSays(f);
  }

  lemma OverSays(m: Machine)
    requires m.state.Halt? && InProtocol(m)
    ensures m.items != [] && var parser := Consume(Types(m.items));
            parser == Stuck(true) || parser == if m.items[|m.items| - 1].typ.ItemEOF? then Ended else Refused
  {
    hide Consume, Types;
  }

  lemma FinishedRuns(items: seq<Item>)
    requires Finished(items)
    ensures Runs(Types(items))
  {
    hide WellEscaped, MultiEscaped;
    forall k | 0 <= k < |items| - 1
      ensures !items[k].typ.ItemError? && !items[k].typ.ItemEOF?
    {
      assert items[k] in items[..|items| - 1];
    }
  }

  // ---------------------------------------------------------------- two inputs

  lemma Ascii(m: Machine)
    requires m.pos < |m.input| && m.input[m.pos] < 0x80
    ensures m.Ahead() == m.input[m.pos] && m.Read() == m.To(m.pos + 1)
  {
  }

  lemma TypesMore(items: seq<Item>, item: Item)
    ensures Types(items + [item]) == Types(items) + [item.typ]
  {
  }

  /** Where the run over a document that starts with `a=` comes to. */
  function BeforeValue(input: bytes): Machine
    requires |input| >= 2
  {
    Machine(input, Value, Pushed(TopEnd, NoState), 2, 2,
            [Item(ItemKeyStart, input[0..0], LineAt(input, 0)), Item(ItemText, input[0..1], LineAt(input, 1))])
  }

  lemma TopMeetsKey(m: Machine, isLetter: LetterTest)
    requires m.InBounds() && m.state == Top && m.pos < |m.input| && m.input[m.pos] == 0x61
    ensures StepOf(m, isLetter) == m.Enters(KeyStart, TopEnd)
  {
    hide RuneAt, WidthAt, LineAt;
    Ascii(m);
  }

  lemma KeyStartMeetsKey(m: Machine, isLetter: LetterTest)
    requires m.InBounds() && m.state == KeyStart && m.pos < |m.input| && m.input[m.pos] == 0x61
    ensures StepOf(m, isLetter) == m.Ignored().Emitted(ItemKeyStart).Goes(BareKey)
  {
    hide RuneAt, WidthAt, LineAt;
    Ascii(m);
  }

  lemma BareKeyMeetsKey(m: Machine, isLetter: LetterTest)
    requires m.InBounds() && m.state == BareKey && m.pos < |m.input| && m.input[m.pos] == 0x61
    ensures StepOf(m, isLetter) == m.To(m.pos + 1)
  {
    hide RuneAt, WidthAt, LineAt;
    Ascii(m);
  }

  lemma BareKeyMeetsEquals(m: Machine, isLetter: LetterTest)
    requires m.InBounds() && m.state == BareKey && m.pos < |m.input| && m.input[m.pos] == EQUALS
    ensures StepOf(m, isLetter) == m.Emitted(ItemText).Goes(KeyEnd)
  {
    hide RuneAt, WidthAt, LineAt;
    Ascii(m);
  }

  lemma KeyEndMeetsEquals(m: Machine, isLetter: LetterTest)
    requires m.InBounds() && m.state == KeyEnd && m.pos < |m.input| && m.input[m.pos] == EQUALS
    ensures StepOf(m, isLetter) == m.To(m.pos + 1).Goes(Skip(Value))
  {
    hide RuneAt, WidthAt, LineAt;
    Ascii(m);
  }

  lemma ValueMeetsDigit(m: Machine, isLetter: LetterTest)
    requires m.InBounds() && m.state == Value && m.pos < |m.input| && m.input[m.pos] == 0x31
    ensures StepOf(m, isLetter) == m.Goes(NumberOrDateStart)
  {
    hide RuneAt, WidthAt, LineAt;
    Ascii(m);
  }

  lemma NumberMeetsDigit(m: Machine, isLetter: LetterTest)
    requires m.InBounds() && m.state == NumberOrDateStart && m.pos < |m.input| && m.input[m.pos] == 0x31
    ensures StepOf(m, isLetter) == m.To(m.pos + 1).Goes(NumberOrDate)
  {
    hide RuneAt, WidthAt, LineAt;
    Ascii(m);
  }

  lemma NumberMeetsNul(m: Machine, isLetter: LetterTest)
    requires m.InBounds() && m.state == NumberOrDate && m.pos < |m.input| && m.input[m.pos] == 0
    ensures StepOf(m, isLetter) == m.Emitted(ItemInteger).Returns()
  {
    hide RuneAt, WidthAt, LineAt;
    Ascii(m);
  }

  lemma TopEndMeetsNul(m: Machine, isLetter: LetterTest)
    requires m.InBounds() && m.state == TopEnd && m.pos < |m.input| && m.input[m.pos] == 0
    ensures StepOf(m, isLetter) == m.To(m.pos + 1).Emitted(ItemEOF).Goes(Halt)
  {
    hide RuneAt, WidthAt, LineAt;
    Ascii(m);
  }

  lemma ValueMeetsBrace(m: Machine, isLetter: LetterTest)
    requires m.InBounds() && m.state == Value && m.pos < |m.input| && m.input[m.pos] == LEFT_BRACE
    ensures StepOf(m, isLetter) == m.To(m.pos + 1).Ignored().Emitted(ItemInlineTableStart).Goes(InlineTableValue)
  {
    hide RuneAt, WidthAt, LineAt;
    Ascii(m);
  }

  lemma InlineTableMeetsComment(m: Machine, isLetter: LetterTest)
    requires m.InBounds() && m.state == InlineTableValue && m.pos < |m.input| && m.input[m.pos] == HASH
    ensures StepOf(m, isLetter) == m.To(m.pos + 1).Enters(CommentStart, InlineTableValue)
  {
    hide RuneAt, WidthAt, LineAt;
    Ascii(m);
  }

  /** One step of a run: where it leads, and that the rest of the run goes on from there. */
  lemma LeadsTo(m: Machine, n: Machine, isLetter: LetterTest)
    requires Sound(m) && (m.InBounds() ==> StepOf(m, isLetter) == n) && !n.state.Halt?
    ensures Sound(n) && Final(m, isLetter) == Final(n, isLetter) && Last(m, isLetter) == Last(n, isLetter)
  {
    hide StepOf, Final, Last, Sound;
    FinalStep(m, isLetter);
  }

  lemma KeyRead(input: bytes, isLetter: LetterTest)
    requires |input| >= 2 && input[0] == 0x61 && input[1] == EQUALS
    ensures Sound(Start(input)) && Sound(BeforeValue(input))
    ensures Final(Start(input), isLetter) == Final(BeforeValue(input), isLetter)
    ensures Last(Start(input), isLetter) == Last(BeforeValue(input), isLetter)
  {
    hide Sound, Final, Last, LineAt, StepOf, InProtocol;
    StartSound(input);
    var m0 := Start(input);
    var m1 := Machine(input, KeyStart, Pushed(TopEnd, NoState), 0, 0, []);
    TopMeetsKey(m0, isLetter);
    LeadsTo(m0, m1, isLetter);
    var m2 := m1.(state := BareKey, items := [Item(ItemKeyStart, input[0..0], LineAt(input, 0))]);
    KeyStartMeetsKey(m1, isLetter);
    LeadsTo(m1, m2, isLetter);
    var m3 := m2.(pos := 1);
    BareKeyMeetsKey(m2, isLetter);
    LeadsTo(m2, m3, isLetter);
    var m4 := m3.(state := KeyEnd, start := 1, items := BeforeValue(input).items);
    BareKeyMeetsEquals(m3, isLetter);
    LeadsTo(m3, m4, isLetter);
    var m5 := m4.(state := Skip(Value), pos := 2);
    KeyEndMeetsEquals(m4, isLetter);
    LeadsTo(m4, m5, isLetter);
    SkipEnds(m5, isLetter);
    LeadsTo(m5, BeforeValue(input), isLetter);
  }

  lemma SkipEnds(m: Machine, isLetter: LetterTest)
    requires m.InBounds() && m.state.Skip?
    ensures StepOf(m, isLetter) == m.Ignored().Goes(m.state.next)
  {
  }

  lemma CommentIsAnnounced(m: Machine, isLetter: LetterTest)
    requires m.InBounds() && m.state.CommentStart?
    ensures StepOf(m, isLetter) == m.Ignored().Emitted(ItemCommentStart).Goes(Comment)
  {
    hide LineAt;
  }

  /** Where the run over a document that starts with `a=1` and a NUL byte comes to. */
  function BeforeNul(input: bytes): Machine
    requires |input| >= 4
  {
    Machine(input, TopEnd, NoState, 3, 3, BeforeValue(input).items + [Item(ItemInteger, input[2..3], LineAt(input, 3))])
  }

  lemma NumberRead(input: bytes, isLetter: LetterTest)
    requires |input| >= 4 && input[2] == 0x31 && input[3] == 0 && Sound(BeforeValue(input))
    ensures Sound(BeforeNul(input))
    ensures Final(BeforeValue(input), isLetter) == Final(BeforeNul(input), isLetter)
    ensures Last(BeforeValue(input), isLetter) == Last(BeforeNul(input), isLetter)
  {
    hide Sound, Final, Last, LineAt, StepOf;
    var m0 := BeforeValue(input);
    var m1 := m0.(state := NumberOrDateStart);
    ValueMeetsDigit(m0, isLetter);
    LeadsTo(m0, m1, isLetter);
    var m2 := m1.(state := NumberOrDate, pos := 3);
    NumberMeetsDigit(m1, isLetter);
    LeadsTo(m1, m2, isLetter);
    NumberMeetsNul(m2, isLetter);
    LeadsTo(m2, BeforeNul(input), isLetter);
  }

  lemma NulRead(input: bytes, isLetter: LetterTest)
    requires |input| >= 4 && input[3] == 0 && Sound(BeforeNul(input))
    ensures Last(BeforeNul(input), isLetter).pos == 3
    ensures Types(Final(BeforeNul(input), isLetter).items) == [ItemKeyStart, ItemText, ItemInteger, ItemEOF]
  {
    hide Sound, Final, Last, LineAt, StepOf, Types;
    var m := BeforeNul(input);
    TopEndMeetsNul(m, isLetter);
    FinalStep(m, isLetter);
    var third, fourth := Item(ItemInteger, input[2..3], LineAt(input, 3)), Item(ItemEOF, input[3..4], LineAt(input, 4));
    HaltFinal(Machine(input, Halt, NoState, 4, 4, m.items + [fourth]), isLetter);
    TypesMore(BeforeValue(input).items, third);
    TypesMore(m.items, fourth);
    TypesOfKey(input);
  }

  /** A document that starts with `a=1` and a NUL byte ends there as documents do, whatever follows. */
  lemma NulEndsDocument(input: bytes, isLetter: LetterTest)
    requires |input| >= 4 && input[..4] == [0x61, EQUALS, 0x31, 0]
    ensures Sound(Start(input)) && Last(Start(input), isLetter).pos == 3
    ensures Types(Final(Start(input), isLetter).items) == [ItemKeyStart, ItemText, ItemInteger, ItemEOF]
  {
    hide Sound, Final, Last, LineAt, Types, BeforeValue, BeforeNul;
    assert input[..4][0] == 0x61 && input[..4][1] == EQUALS && input[..4][2] == 0x31 && input[..4][3] == 0;
    KeyRead(input, isLetter);
    NumberRead(input, isLetter);
    NulRead(input, isLetter);
  }

  lemma TypesOfKey(input: bytes)
    requires |input| >= 2
    ensures Types(BeforeValue(input).items) == [ItemKeyStart, ItemText]
  {
    hide LineAt;
  }

  lemma InlineTableRead(input: bytes, isLetter: LetterTest) returns (m: Machine)
    requires |input| >= 4 && input[2] == LEFT_BRACE && input[3] == HASH && Sound(BeforeValue(input))
    ensures Sound(m) && Final(BeforeValue(input), isLetter) == Final(m, isLetter)
    ensures |m.items| == 4 && m.items[..2] == BeforeValue(input).items
    ensures m.items[2].typ.ItemInlineTableStart? && m.items[3].typ.ItemCommentStart?
  {
    hide Sound, Final, Last, LineAt, StepOf;
    var m0 := BeforeValue(input);
    var m1 := m0.(state := InlineTableValue, start := 3, pos := 3,
                  items := m0.items + [Item(ItemInlineTableStart, input[3..3], LineAt(input, 3))]);
    ValueMeetsBrace(m0, isLetter);
    LeadsTo(m0, m1, isLetter);
    var m2 := Machine(input, CommentStart, Pushed(InlineTableValue, m1.stack), 3, 4, m1.items);
    InlineTableMeetsComment(m1, isLetter);
    LeadsTo(m1, m2, isLetter);
    m := m2.(state := Comment, start := 4, items := m2.items + [Item(ItemCommentStart, input[4..4], LineAt(input, 4))]);
    CommentIsAnnounced(m2, isLetter);
    LeadsTo(m2, m, isLetter);
  }

  /** A document that starts with `a={#` takes the parser to the BUG of its loop for inline tables. */
  lemma InlineCommentIsABug(input: bytes, isLetter: LetterTest)
    requires |input| >= 4 && input[..4] == [0x61, EQUALS, LEFT_BRACE, HASH]
    ensures Sound(Start(input)) && Consume(Types(Final(Start(input), isLetter).items)) == Stuck(true)
  {
    hide Sound, Final, Last, LineAt, Types, Consume, Finished, AnyInlineComment;
    assert input[..4][0] == 0x61 && input[..4][1] == EQUALS && input[..4][2] == LEFT_BRACE && input[..4][3] == HASH;
    KeyRead(input, isLetter);
    var m := InlineTableRead(input, isLetter);
    RunEnds(m, isLetter);
    RunAgrees(input, isLetter);
    var first := m.items[..2];
    assert m.items[0] == first[0] && m.items[1] == first[1];
    CommentMet(m.items, Final(m, isLetter).items);
  }

  lemma CommentMet(items: seq<Item>, all: seq<Item>)
    requires items <= all && |items| == 4 && items[0].typ.ItemKeyStart? && items[1].typ.ItemText?
    requires items[2].typ.ItemInlineTableStart? && items[3].typ.ItemCommentStart?
    ensures AnyInlineComment(Types(all))
  {
    var ts := Types(all);
    assert ts[..3] == [ItemKeyStart, ItemText, ItemInlineTableStart];
    assert ts[..3][..2] == [ItemKeyStart, ItemText] && ts[..3][..2][..1] == [ItemKeyStart] && ts[..3][..2][..1][..0] == [];
    assert Open(ts[..3][..2]) == [] by {
      assert Open(ts[..3][..2][..1]) == [];
    }
    assert CommentInInlineTable(ts, 3);
  }
}
