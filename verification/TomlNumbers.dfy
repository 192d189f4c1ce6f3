/**
 The texts of the booleans and integers that the TOML lexer sends, for every input, and what the parser makes of them: it
 never runs into the branches it has for texts that are neither.
 */
module TomlNumbers {
  import opened Bytes
  import opened TomlStrings
  import opened TomlTokens
  import opened TomlMachine
  import opened Wrappers

  const TRUE_TEXT: bytes := [0x74, 0x72, 0x75, 0x65]
  const FALSE_TEXT: bytes := [0x66, 0x61, 0x6C, 0x73, 0x65]

  predicate Digits(s: bytes) {
    forall i :: 0 <= i < |s| ==> IsDigit(s[i] as int)
  }

  /** A digit, and then digits and underscores. */
  predicate DigitGroups(s: bytes) {
    && s != [] && IsDigit(s[0] as int)
    && forall i :: 0 <= i < |s| ==> IsDigit(s[i] as int) || s[i] as int == UNDERSCORE
  }

  /** That, with a sign in front or without one. */
  predicate IntegerText(s: bytes) {
    s != [] && DigitGroups(if IsSign(s[0] as int) then s[1..] else s)
  }

  /** What the text of an item is, for the types that the parser relies on. */
  predicate Fine(item: Item) {
    && (item.typ.ItemBool? ==> item.val == TRUE_TEXT || item.val == FALSE_TEXT)
    && (item.typ.ItemInteger? ==> IntegerText(item.val))
  }

  predicate AllFine(items: seq<Item>) {
    forall i :: 0 <= i < |items| ==> Fine(items[i])
  }

  // ---------------------------------------------------------------- what has been read of the item

  /** The text read since the last item, in a state that goes on reading it. */
  predicate Begun(s: State, text: bytes) {
    match s
    case Value => text == []
    case ArrayValue => text == []
    case NumberOrDateStart => text == []
    case Bool => text == []
    case NumberStart => |text| == 1 && IsSign(text[0] as int)
    case NumberOrDate => text != [] && Digits(text)
    case Number => IntegerText(text)
    case _ => true
  }

  /** The states that are returned to, each under its name's own. */
  predicate Backed(s: State, stack: Stack)
    decreases stack
  {
    && (NamesTable(s) ==> stack.Pushed? && (stack.top.TableEnd? || stack.top.ArrayTableEnd?))
    && (InEscape(s) ==> stack.Pushed? && (stack.top.Str? || stack.top.MultilineStr?))
    && (stack.Pushed? ==> IsBack(stack.top) && Backed(stack.top, stack.below))
  }

  predicate NamesTable(s: State) {
    s.TableNameStart? || s.BareTableName? || s.TableNameEnd?
  }

  predicate IsBack(s: State) {
    || s.Top? || s.TopEnd? || s.ArrayTableEnd? || s.TableEnd? || s.TableNameEnd? || s.KeyEnd? || s.ArrayValue?
    || s.ArrayValueEnd? || s.InlineTableValue? || s.InlineTableValueEnd? || s.Str? || s.MultilineStr?
  }

  predicate IsSkipped(s: State) {
    || s.Top? || s.KeyStart? || s.KeyEnd? || s.Value? || s.ArrayValue? || s.ArrayValueEnd?
    || s.InlineTableValue? || s.InlineTableValueEnd?
  }

  /** A machine that is still running, and has sent only what is fine. */
  predicate Telling(m: Machine) {
    && m.InBounds() && AllFine(m.items) && Backed(m.state, m.stack)
    && (m.state.Skip? ==> IsSkipped(m.state.next))
    && Begun(m.state, m.input[m.start..m.pos])
    && (m.state.NumberOrDateStart? ==> IsDigit(m.Ahead()))
  }

  /** A step goes on so, or stops with texts that are fine. */
  predicate Tells(m: Machine) {
    AllFine(m.items) && (!m.state.Halt? ==> Telling(m))
  }

  lemma FineMore(items: seq<Item>, item: Item)
    requires AllFine(items) && Fine(item)
    ensures AllFine(items + [item])
  {
  }

  lemma Sends(m: Machine, typ: ItemType)
    requires m.InBounds() && AllFine(m.items) && !typ.ItemBool? && !typ.ItemInteger?
    ensures var n := m.Emitted(typ); n == m.(items := n.items, start := m.pos) && AllFine(n.items)
  {
    FineMore(m.items, Item(typ, m.input[m.start..m.pos], LineAt(m.input, m.pos)));
  }

  lemma Fails(m: Machine)
    requires m.InBounds() && AllFine(m.items)
    ensures Tells(m.Failed())
  {
    FineMore(m.items, Item(ItemError, [], LineAt(m.input, m.pos)));
  }

  /** One more rune, when it is ASCII, is one more byte of the text. */
  lemma OneMoreRead(m: Machine)
    requires m.InBounds() && 0 < m.Ahead() < 0x80
    ensures var n := m.Read();
            n.InBounds() && n == m.(pos := m.pos + 1) && m.pos < |m.input| && m.input[m.pos] == m.Ahead()
            && n.input[n.start..n.pos] == m.input[m.start..m.pos] + [m.input[m.pos]]
  {
    Reading(m);
  }

  lemma OneMoreDigit(text: bytes, c: byte)
    ensures Digits(text) && IsDigit(c as int) ==> Digits(text + [c]) && text + [c] != []
    ensures Digits(text) && text != [] ==> IntegerText(text)
    ensures IntegerText(text) && (IsDigit(c as int) || c as int == UNDERSCORE) ==> IntegerText(text + [c])
    ensures |text| == 1 && IsSign(text[0] as int) && IsDigit(c as int) ==> IntegerText(text + [c])
  {
    if text != [] {
      assert (text + [c])[0] == text[0] && (text + [c])[1..] == text[1..] + [c];
    }
  }

  /** Entering a state, to come back to another. */
  lemma EntersBacked(m: Machine, s: State, back: State)
    requires Backed(m.state, m.stack) && IsBack(back)
    requires NamesTable(back) ==> m.stack.Pushed? && (m.stack.top.TableEnd? || m.stack.top.ArrayTableEnd?)
    requires (NamesTable(s) ==> back.TableEnd? || back.ArrayTableEnd?) && (InEscape(s) ==> back.Str? || back.MultilineStr?)
    ensures Backed(s, Pushed(back, m.stack))
  {
    assert Backed(back, m.stack);
  }

  lemma NothingRead(m: Machine)
    requires m.InBounds() && m.start == m.pos
    ensures m.input[m.start..m.pos] == []
  {
  }

  lemma NoDigits()
    ensures Digits([])
  {
  }

  /** Going on where it does not matter what has been read. */
  lemma GoesTelling(m: Machine, s: State)
    requires m.InBounds() && AllFine(m.items) && Backed(s, m.stack) && (s.Skip? ==> IsSkipped(s.next))
    requires Begun(s, []) && (Begun(s, m.input[m.start..m.pos]) || m.start == m.pos) && !s.NumberOrDateStart?
    ensures Telling(m.Goes(s))
  {
    assert m.start == m.pos ==> m.input[m.start..m.pos] == [];
  }

  /** Returning when nothing was read since the last item. */
  lemma ReturnsTelling(m: Machine)
    requires m.InBounds() && AllFine(m.items) && Backed(m.state, m.stack) && m.stack.Pushed?
    requires m.start == m.pos || !m.stack.top.ArrayValue?
    ensures Telling(m.Returns())
  {
    assert m.start == m.pos ==> m.input[m.start..m.pos] == [];
  }

  lemma StackThere(m: Machine)
    requires Sound(m) && KindOf(m.state) != Stays
    ensures m.stack.Pushed?
  {
    hide Scan, MultiAfter, Clean;
  }

  lemma IntegerSent(m: Machine)
    requires m.InBounds() && AllFine(m.items) && Backed(m.state, m.stack) && m.stack.Pushed?
    requires IntegerText(m.input[m.start..m.pos])
    ensures Tells(m.Emitted(ItemInteger).Returns())
  {
    hide IntegerText, LineAt, Backed, Begun, IsBack;
    var n := m.Emitted(ItemInteger);
    FineMore(m.items, Item(ItemInteger, m.input[m.start..m.pos], LineAt(m.input, m.pos)));
    hide AllFine, Fine;
    ReturnsTelling(n);
  }

  lemma NumberOrDateStartTold(m: Machine)
    requires Sound(m) && Telling(m) && m.state.NumberOrDateStart?
    ensures Tells(NumberOrDateStartStep(m))
  {
    hide Sound, Digits, AllFine, IntegerText, RuneAt, WidthAt;
    OneMoreRead(m);
    NoDigits();
    OneMoreDigit([], m.input[m.pos]);
  }

  lemma NumberOrDateTold(m: Machine)
    requires Sound(m) && Telling(m) && m.state.NumberOrDate?
    ensures Tells(NumberOrDateStep(m))
  {
    hide Digits, AllFine, IntegerText, RuneAt, WidthAt, LineAt;
    StackThere(m);
    hide Sound;
    var text, r := m.input[m.start..m.pos], m.Ahead();
    OneMoreDigit(text, 0);
    if IsDigit(r) || r == UNDERSCORE {
      OneMoreRead(m);
      OneMoreDigit(text, m.input[m.pos]);
    } else if r == MINUS || r == DOT || IsExponent(r) {
      OneMoreRead(m);
    } else {
      IntegerSent(m);
    }
  }

  lemma NumberStartTold(m: Machine)
    requires Sound(m) && Telling(m) && m.state.NumberStart?
    ensures Tells(NumberStartStep(m))
  {
    hide Sound, Digits, AllFine, IntegerText, RuneAt, WidthAt, LineAt;
    Reading(m);
    if IsDigit(m.Ahead()) {
      OneMoreRead(m);
      OneMoreDigit(m.input[m.start..m.pos], m.input[m.pos]);
    } else {
      Fails(m.Read());
    }
  }

  lemma NumberTold(m: Machine)
    requires Sound(m) && Telling(m) && m.state.Number?
    ensures Tells(NumberStep(m))
  {
    hide Digits, AllFine, IntegerText, RuneAt, WidthAt, LineAt;
    StackThere(m);
    hide Sound;
    var r := m.Ahead();
    if IsDigit(r) || r == UNDERSCORE {
      OneMoreRead(m);
      OneMoreDigit(m.input[m.start..m.pos], m.input[m.pos]);
    } else if r == DOT || IsExponent(r) {
      OneMoreRead(m);
    } else {
      IntegerSent(m);
    }
  }

  /** Reading one rune, sending nothing. */
  lemma Reads(m: Machine)
    requires Telling(m)
    ensures var n := m.Read(); n.InBounds() && n == m.(pos := n.pos) && AllFine(n.items) && n.Ignored().InBounds()
  {
    Reading(m);
  }

  lemma TopTold(m: Machine)
    requires Sound(m) && Telling(m) && m.state.Top?
    ensures Tells(TopStep(m))
  {
    hide Sound, AllFine, IntegerText, Digits, RuneAt, WidthAt, LineAt;
    Reads(m);
    var n, r := m.Read(), m.Ahead();
    if r == 0 {
      Fails(n);
      Sends(n, ItemEOF);
    } else if IsBlank(r) || r == LEFT_BRACKET {
      assert !IsSkipped(TableStart) && IsSkipped(Top);
    } else if r == HASH {
      EntersBacked(n, CommentStart, Top);
    } else {
      EntersBacked(m, KeyStart, TopEnd);
    }
  }

  lemma TopEndTold(m: Machine)
    requires Sound(m) && Telling(m) && m.state.TopEnd?
    ensures Tells(TopEndStep(m))
  {
    hide Sound, AllFine, IntegerText, Digits, RuneAt, WidthAt, LineAt;
    EntersBacked(m, CommentStart, Top);
    Reads(m);
    Fails(m.Read());
    Sends(m.Read(), ItemEOF);
  }

  lemma TableStartTold(m: Machine)
    requires Sound(m) && Telling(m) && m.state.TableStart?
    ensures Tells(TableStartStep(m))
  {
    hide Sound, AllFine, IntegerText, Digits, RuneAt, WidthAt, LineAt;
    Reads(m);
    Sends(m.Read(), ItemArrayTableStart);
    Sends(m, ItemTableStart);
    EntersBacked(m, TableNameStart, ArrayTableEnd);
    EntersBacked(m, TableNameStart, TableEnd);
  }

  lemma TableEndTold(m: Machine)
    requires Sound(m) && Telling(m)
    ensures m.state.TableEnd? ==> Tells(TableEndStep(m))
    ensures m.state.ArrayTableEnd? ==> Tells(ArrayTableEndStep(m))
  {
    hide Sound, AllFine, IntegerText, Digits, RuneAt, WidthAt, LineAt;
    Reads(m);
    Fails(m.Read());
    Sends(m, ItemTableEnd);
    Sends(m.Read(), ItemArrayTableEnd);
  }

  lemma TableNameStartTold(m: Machine)
    requires Sound(m) && Telling(m) && m.state.TableNameStart?
    ensures Tells(TableNameStartStep(m))
  {
    hide Sound, AllFine, IntegerText, Digits, RuneAt, WidthAt, LineAt;
    EntersBacked(m, Value, TableNameEnd);
    Fails(m.Skipped());
    NothingRead(m.Skipped());
  }

  lemma BareTableNameTold(m: Machine)
    requires Sound(m) && Telling(m) && m.state.BareTableName?
    ensures Tells(BareTableNameStep(m))
  {
    hide Sound, AllFine, IntegerText, Digits, RuneAt, WidthAt, LineAt;
    Reads(m);
    Sends(m, ItemText);
  }

  lemma TableNameEndTold(m: Machine)
    requires Sound(m) && Telling(m) && m.state.TableNameEnd?
    ensures Tells(TableNameEndStep(m))
  {
    hide Sound, AllFine, IntegerText, Digits, RuneAt, WidthAt, LineAt;
    var n := m.Skipped();
    NothingRead(n);
    Reads(n);
    Fails(n.Read());
    if n.Ahead() == RIGHT_BRACKET {
      ReturnsTelling(n.Read());
    }
  }

  lemma KeyStartTold(m: Machine)
    requires Sound(m) && Telling(m) && m.state.KeyStart?
    ensures Tells(KeyStartStep(m))
  {
    hide Sound, AllFine, IntegerText, Digits, RuneAt, WidthAt, LineAt;
    EntersBacked(m, Value, KeyEnd);
    Reads(m);
    Fails(m);
    Sends(m.Ignored(), ItemKeyStart);
    NothingRead(m.Ignored());
  }

  lemma KeyTold(m: Machine)
    requires Sound(m) && Telling(m)
    ensures m.state.BareKey? ==> Tells(BareKeyStep(m))
    ensures m.state.KeyEnd? ==> Tells(KeyEndStep(m))
  {
    hide Sound, AllFine, IntegerText, Digits, RuneAt, WidthAt, LineAt;
    Reads(m);
    Fails(m.Read());
    Sends(m, ItemText);
  }

  lemma ValueTold(m: Machine, isLetter: LetterTest)
    requires Sound(m) && Telling(m) && m.state.Value?
    ensures Tells(ValueStep(m, isLetter))
  {
    hide Sound, AllFine, IntegerText, Digits, RuneAt, WidthAt, LineAt, OtherValueStep;
    Reads(m);
    OtherValueTold(m, isLetter);
  }

  lemma OtherValueTold(m: Machine, isLetter: LetterTest)
    requires Sound(m) && Telling(m) && m.state.Value?
    ensures Tells(OtherValueStep(m, isLetter))
  {
    hide Sound, AllFine, IntegerText, Digits, RuneAt, WidthAt, LineAt;
    Reads(m);
    var n := m.Read();
    if IsSign(m.Ahead()) {
      OneMoreRead(m);
    }
    Fails(n);
    Sends(n.Ignored(), ItemArray);
    Sends(n.Ignored(), ItemInlineTableStart);
    NothingRead(n.Ignored());
  }

  lemma ArrayValueTold(m: Machine)
    requires Sound(m) && Telling(m) && m.state.ArrayValue?
    ensures Tells(ArrayValueStep(m))
  {
    hide Sound, AllFine, IntegerText, Digits, RuneAt, WidthAt, LineAt;
    Reads(m);
    Fails(m.Read());
    EntersBacked(m, CommentStart, ArrayValue);
    EntersBacked(m, Value, ArrayValueEnd);
  }

  lemma ArrayValueEndTold(m: Machine)
    requires Sound(m) && Telling(m) && m.state.ArrayValueEnd?
    ensures Tells(ArrayValueEndStep(m))
  {
    hide Sound, AllFine, IntegerText, Digits, RuneAt, WidthAt, LineAt;
    Reads(m);
    Fails(m.Read());
    EntersBacked(m, CommentStart, ArrayValueEnd);
    NothingRead(m.Read().Ignored());
  }

  lemma InlineTableValueTold(m: Machine)
    requires Sound(m) && Telling(m) && m.state.InlineTableValue?
    ensures Tells(InlineTableValueStep(m))
  {
    hide Sound, AllFine, IntegerText, Digits, RuneAt, WidthAt, LineAt;
    Reads(m);
    Fails(m.Read());
    EntersBacked(m, CommentStart, InlineTableValue);
    EntersBacked(m, KeyStart, InlineTableValueEnd);
  }

  lemma InlineTableValueEndTold(m: Machine)
    requires Sound(m) && Telling(m) && m.state.InlineTableValueEnd?
    ensures Tells(InlineTableValueEndStep(m))
  {
    hide Sound, AllFine, IntegerText, Digits, RuneAt, WidthAt, LineAt;
    Reads(m);
    Fails(m.Read());
    EntersBacked(m, CommentStart, InlineTableValueEnd);
  }

  /** Sending an item and returning. */
  lemma SendsAndReturns(m: Machine, typ: ItemType)
    requires m.InBounds() && AllFine(m.items) && Backed(m.state, m.stack) && m.stack.Pushed? && !typ.ItemBool? && !typ.ItemInteger?
    ensures Tells(m.Emitted(typ).Returns())
  {
    hide AllFine, LineAt, Backed, Begun, IsBack;
    Sends(m, typ);
    ReturnsTelling(m.Emitted(typ));
  }

  lemma EndTold(m: Machine)
    requires Sound(m) && Telling(m)
    ensures m.state.ArrayEnd? ==> Tells(ArrayEndStep(m))
    ensures m.state.InlineTableEnd? ==> Tells(InlineTableEndStep(m))
  {
    hide AllFine, IntegerText, Digits, RuneAt, WidthAt, LineAt;
    if m.state.ArrayEnd? || m.state.InlineTableEnd? {
      StackThere(m);
      hide Sound;
      SendsAndReturns(m.Ignored(), ItemArrayEnd);
      SendsAndReturns(m.Ignored(), ItemInlineTableEnd);
    }
  }

  lemma NumberEndTold(m: Machine)
    requires Sound(m) && Telling(m)
    ensures m.state.Datetime? ==> Tells(DatetimeStep(m))
    ensures m.state.Float? ==> Tells(FloatStep(m))
  {
    hide AllFine, IntegerText, Digits, RuneAt, WidthAt, LineAt;
    if m.state.Datetime? || m.state.Float? {
      StackThere(m);
      hide Sound;
      Reads(m);
      SendsAndReturns(m, ItemDatetime);
      SendsAndReturns(m, ItemFloat);
    }
  }

  lemma CommentStartTold(m: Machine)
    requires Sound(m) && Telling(m) && m.state.CommentStart?
    ensures Tells(CommentStartStep(m))
  {
    hide Sound, AllFine, IntegerText, Digits, RuneAt, WidthAt, LineAt;
    Sends(m.Ignored(), ItemCommentStart);
  }

  lemma CommentTold(m: Machine)
    requires Sound(m) && Telling(m) && m.state.Comment?
    ensures Tells(CommentStep(m))
  {
    hide AllFine, IntegerText, Digits, RuneAt, WidthAt, LineAt;
    StackThere(m);
    hide Sound;
    Reads(m);
    SendsAndReturns(m, ItemText);
  }

  /** Closing a string: its item is sent, the closing quotes are dropped. */
  lemma StringClosed(m: Machine, typ: ItemType, p: nat)
    requires m.InBounds() && AllFine(m.items) && Backed(m.state, m.stack) && m.stack.Pushed? && !typ.ItemBool? && !typ.ItemInteger?
    requires m.pos <= p <= |m.input|
    ensures Tells(m.Emitted(typ).To(p).Ignored().Returns())
  {
    hide AllFine, LineAt, Backed, Begun, IsBack;
    Sends(m, typ);
    ReturnsTelling(m.Emitted(typ).To(p).Ignored());
  }

  lemma StrTold(m: Machine)
    requires Sound(m) && Telling(m) && m.state.Str?
    ensures Tells(StrStep(m))
  {
    hide AllFine, IntegerText, Digits, RuneAt, WidthAt, LineAt;
    StackThere(m);
    hide Sound;
    EntersBacked(m, StrEscape, Str);
    Reads(m);
    Fails(m.Read());
    StringClosed(m, ItemString, m.Read().pos);
  }

  lemma RawStrTold(m: Machine)
    requires Sound(m) && Telling(m) && m.state.RawStr?
    ensures Tells(RawStrStep(m))
  {
    hide AllFine, IntegerText, Digits, RuneAt, WidthAt, LineAt;
    StackThere(m);
    hide Sound;
    Reads(m);
    Fails(m.Read());
    StringClosed(m, ItemRawString, m.Read().pos);
  }

  lemma MultilineStrTold(m: Machine)
    requires Sound(m) && Telling(m) && m.state.MultilineStr?
    ensures Tells(MultilineStrStep(m))
  {
    hide AllFine, IntegerText, Digits, RuneAt, WidthAt, LineAt;
    StackThere(m);
    hide Sound;
    Reads(m);
    Fails(m.Read());
    if m.pos + 3 <= |m.input| {
      StringClosed(m, ItemMultilineString, m.pos + 3);
    }
  }

  lemma MultilineRawStrTold(m: Machine)
    requires Sound(m) && Telling(m) && m.state.MultilineRawStr?
    ensures Tells(MultilineRawStrStep(m))
  {
    hide AllFine, IntegerText, Digits, RuneAt, WidthAt, LineAt;
    StackThere(m);
    hide Sound;
    Reads(m);
    Fails(m.Read());
    if m.pos + 3 <= |m.input| {
      StringClosed(m, ItemRawMultilineString, m.pos + 3);
    }
  }

  lemma EscapeTold(m: Machine)
    requires Telling(m) && InEscape(m.state)
    ensures Tells(StrEscapeStep(m))
    ensures Tells(UnicodeEscapeStep(m, 4)) && Tells(UnicodeEscapeStep(m, 8))
  {
    hide AllFine, IntegerText, Digits, RuneAt, WidthAt, LineAt, HexEnd;
    Reads(m);
    Fails(m.Read());
    ReturnsTelling(m.Read());
    forall count | count == 4 || count == 8
      ensures Tells(UnicodeEscapeStep(m, count))
    {
      var k := m.To(HexEnd(m.input, m.pos, count).1);
      Fails(k);
      ReturnsTelling(k);
    }
  }

  lemma MultilineStrEscapeTold(m: Machine)
    requires Sound(m) && Telling(m) && m.state.MultilineStrEscape?
    ensures Tells(MultilineStrEscapeStep(m))
  {
    hide Sound, AllFine, IntegerText, Digits, RuneAt, WidthAt, LineAt, StrEscapeStep;
    EntersBacked(m, StrEscape, MultilineStr);
    Reads(m);
    if !IsNL(m.Ahead()) {
      EscapeTold(m.Enters(StrEscape, MultilineStr));
    }
  }

  lemma BoolTold(m: Machine, isLetter: LetterTest)
    requires Sound(m) && Telling(m) && m.state.Bool?
    ensures Tells(BoolStep(m, isLetter))
  {
    hide AllFine, IntegerText, Digits, RuneAt, WidthAt, LineAt, Letters, IsBoolWord;
    StackThere(m);
    hide Sound;
    var word := Letters(m.input, isLetter, m.pos);
    var k := m.To(word.1);
    Fails(k);
    assert m.start == m.pos by {
      assert |m.input[m.start..m.pos]| == 0;
    }
    if IsBoolWord(word.0) {
      BoolWordText(m.input, isLetter, m.pos);
      FineMore(k.items, Item(ItemBool, k.input[k.start..k.pos], LineAt(k.input, k.pos)));
      hide Fine;
      ReturnsTelling(k.Emitted(ItemBool));
    }
  }

  /** The bytes of letters that are ASCII. */
  lemma {:induction false} LettersText(input: bytes, isLetter: LetterTest, p: nat)
    requires p <= |input| && forall c :: c in Letters(input, isLetter, p).0 ==> c < 0x80
    ensures var word := Letters(input, isLetter, p);
            |word.0| == word.1 - p && forall i :: p <= i < word.1 ==> input[i] == word.0[i - p]
    decreases |input| - p
  {
    hide WidthAt, RuneAt;
    if p < |input| && isLetter(RuneAt(input, p)) {
      var later := Letters(input, isLetter, p + WidthAt(input, p));
      var word := Letters(input, isLetter, p);
      assert word.0 == [RuneAt(input, p)] + later.0;
      assert word.0[0] in word.0 && forall c :: c in later.0 ==> c in word.0;
      LettersText(input, isLetter, p + 1);
    }
  }

  lemma BoolWordText(input: bytes, isLetter: LetterTest, p: nat)
    requires p <= |input| && IsBoolWord(Letters(input, isLetter, p).0)
    ensures var q := Letters(input, isLetter, p).1; input[p..q] == TRUE_TEXT || input[p..q] == FALSE_TEXT
  {
    hide Letters;
    LettersText(input, isLetter, p);
  }

  lemma SkipTold(m: Machine)
    requires Sound(m) && Telling(m) && m.state.Skip?
    ensures Tells(m.Ignored().Goes(m.state.next))
  {
    hide Sound, AllFine, IntegerText, Digits, RuneAt, WidthAt, LineAt;
    NothingRead(m.Ignored());
  }

  /** One step of the machine. */
  lemma StepTold(m: Machine, isLetter: LetterTest)
    requires Sound(m) && Telling(m)
    ensures Tells(StepOf(m, isLetter))
  {
    hide Sound, Telling, Tells, TopStep, TopEndStep, TableStartStep, TableEndStep, ArrayTableEndStep, TableNameStartStep,
      BareTableNameStep, TableNameEndStep, KeyStartStep, BareKeyStep, KeyEndStep, ValueStep, ArrayValueStep, ArrayValueEndStep,
      ArrayEndStep, InlineTableValueStep, InlineTableValueEndStep, InlineTableEndStep, StrStep, MultilineStrStep, RawStrStep,
      MultilineRawStrStep, MultilineStrEscapeStep, StrEscapeStep, UnicodeEscapeStep, NumberOrDateStartStep, NumberOrDateStep,
      DatetimeStep, NumberStartStep, NumberStep, FloatStep, BoolStep, CommentStartStep, CommentStep;
    match m.state {
      case Top => TopTold(m);
      case TopEnd => TopEndTold(m);
      case TableStart => TableStartTold(m);
      case TableEnd => TableEndTold(m);
      case ArrayTableEnd => TableEndTold(m);
      case TableNameStart => TableNameStartTold(m);
      case BareTableName => BareTableNameTold(m);
      case TableNameEnd => TableNameEndTold(m);
      case KeyStart => KeyStartTold(m);
      case BareKey => KeyTold(m);
      case KeyEnd => KeyTold(m);
      case Value => ValueTold(m, isLetter);
      case ArrayValue => ArrayValueTold(m);
      case ArrayValueEnd => ArrayValueEndTold(m);
      case ArrayEnd => EndTold(m);
      case InlineTableValue => InlineTableValueTold(m);
      case InlineTableValueEnd => InlineTableValueEndTold(m);
      case InlineTableEnd => EndTold(m);
      case Str => StrTold(m);
      case MultilineStr => MultilineStrTold(m);
      case RawStr => RawStrTold(m);
      case MultilineRawStr => MultilineRawStrTold(m);
      case MultilineStrEscape => MultilineStrEscapeTold(m);
      case StrEscape => EscapeTold(m);
      case ShortUnicodeEscape => EscapeTold(m);
      case LongUnicodeEscape => EscapeTold(m);
      case NumberOrDateStart => NumberOrDateStartTold(m);
      case NumberOrDate => NumberOrDateTold(m);
      case Datetime => NumberEndTold(m);
      case NumberStart => NumberStartTold(m);
      case Number => NumberTold(m);
      case Float => NumberEndTold(m);
      case Bool => BoolTold(m, isLetter);
      case CommentStart => CommentStartTold(m);
      case Comment => CommentTold(m);
      case Skip(after) => SkipTold(m);
      case Halt => NotHalted(m);
    }
  }

  // ---------------------------------------------------------------- whole runs, and the parser

  lemma {:induction false} RunTold(m: Machine, isLetter: LetterTest)
    requires Sound(m) && Telling(m)
    ensures AllFine(Final(m, isLetter).items)
    decreases |m.input| - m.pos, Effort(m)
  {
    hide StepOf, Sound, Final, Telling, Effort, Finished, AllFine;
    FinalStep(m, isLetter);
    StepRuns(m, isLetter);
    StepTold(m, isLetter);
    var n := StepOf(m, isLetter);
    if n.state.Halt? {
      HaltFinal(n, isLetter);
    } else {
      RunTold(n, isLetter);
    }
  }

  /** Whatever the input is: a boolean item says true or false, and an integer item holds digits and underscores. */
  lemma TextsAreFine(input: bytes, isLetter: LetterTest)
    ensures Sound(Start(input)) && AllFine(Final(Start(input), isLetter).items)
  {
    hide Final, Sound;
    StartSound(input);
    RunTold(Start(input), isLetter);
  }

  /** The parser's value of a boolean; None is its BUG branch. */
  function BoolValue(val: bytes): Option<bool> {
    if val == TRUE_TEXT then Some(true) else if val == FALSE_TEXT then Some(false) else None
  }

  datatype Parsed = Whole(value: int) | BadUnderscore | OutOfRange | NoInteger

  /** Each underscore stands between other characters. */
  predicate UnderscoresInside(s: bytes) {
    && s != [] && s[0] as int != UNDERSCORE && s[|s| - 1] as int != UNDERSCORE
    && forall i :: 0 < i < |s| ==> !(s[i - 1] as int == UNDERSCORE && s[i] as int == UNDERSCORE)
  }

  method NumUnderscoresOK(s: bytes) returns (ok: bool)
    ensures ok <==> UnderscoresInside(s)
  {
    var accept := false;
    for i := 0 to |s|
      invariant accept <==> i > 0 && s[i - 1] as int != UNDERSCORE
      invariant i > 0 ==> s[0] as int != UNDERSCORE
      invariant forall k :: 0 < k < i ==> !(s[k - 1] as int == UNDERSCORE && s[k] as int == UNDERSCORE)
    {
      if s[i] as int == UNDERSCORE {
        if !accept {
          return false;
        }
        accept := false;
      } else {
        accept := true;
      }
    }
    ok := accept;
  }

  function WithoutUnderscores(s: bytes): bytes {
    if s == [] then []
    else (if s[0] as int == UNDERSCORE then [] else [s[0]]) + WithoutUnderscores(s[1..])
  }

  /** What strconv.ParseInt reads in base ten. */
  predicate IsDecimal(s: bytes) {
    s != [] && var digits := if IsSign(s[0] as int) then s[1..] else s; digits != [] && Digits(digits)
  }

  function DigitsValue(s: bytes): int {
    if s == [] then 0 else DigitsValue(s[..|s| - 1]) * 10 + (s[|s| - 1] as int - 0x30)
  }

  function DecimalValue(s: bytes): int
    requires s != []
  {
    if s[0] as int == MINUS then -DigitsValue(s[1..])
    else if IsSign(s[0] as int) then DigitsValue(s[1..])
    else DigitsValue(s)
  }

  const TWO63: int := 0x8000_0000_0000_0000

  /** The parser's value of an integer; NoInteger is its BUG branch. */
  method IntegerValue(val: bytes) returns (r: Parsed)
    ensures r.BadUnderscore? <==> !UnderscoresInside(val)
    ensures r.NoInteger? <==> UnderscoresInside(val) && !IsDecimal(WithoutUnderscores(val))
    ensures IntegerText(val) ==> !r.NoInteger?
    ensures IntegerText(val) && UnderscoresInside(val) ==>
      var n := DecimalValue(WithoutUnderscores(val)); r == if -TWO63 <= n < TWO63 then Whole(n) else OutOfRange
  {
    hide UnderscoresInside, IntegerText, WithoutUnderscores, DecimalValue;
    if IntegerText(val) {
      GroupsAreDecimal(val);
    }
    var ok := NumUnderscoresOK(val);
    if !ok {
      return BadUnderscore;
    }
    var v := WithoutUnderscores(val);
    if !IsDecimal(v) {
      return NoInteger;
    }
    var n := DecimalValue(v);
    r := if -TWO63 <= n < TWO63 then Whole(n) else OutOfRange;
  }

  lemma GroupsAreDecimal(val: bytes)
    requires IntegerText(val)
    ensures WithoutUnderscores(val) != [] && IsDecimal(WithoutUnderscores(val))
  {
    hide WithoutUnderscores, Digits;
    KeepsFirst(val);
    if IsSign(val[0] as int) {
      KeepsFirst(val[1..]);
      DigitsLeft(val[1..]);
    } else {
      DigitsLeft(val);
    }
  }

  lemma KeepsFirst(s: bytes)
    requires s != [] && s[0] as int != UNDERSCORE
    ensures WithoutUnderscores(s) == [s[0]] + WithoutUnderscores(s[1..])
  {
  }

  lemma {:induction false} DigitsLeft(s: bytes)
    requires forall i :: 0 <= i < |s| ==> IsDigit(s[i] as int) || s[i] as int == UNDERSCORE
    ensures Digits(WithoutUnderscores(s))
    decreases |s|
  {
    if s != [] {
      DigitsLeft(s[1..]);
    }
  }

  /** The parser takes every boolean and every integer of a run for one. */
  lemma NoDoubts(input: bytes, isLetter: LetterTest, k: nat)
    requires Sound(Start(input)) && k < |Final(Start(input), isLetter).items|
    ensures var it := Final(Start(input), isLetter).items[k];
            && (it.typ.ItemBool? ==> BoolValue(it.val).Some?)
            && (it.typ.ItemInteger? ==> IsDecimal(WithoutUnderscores(it.val)))
  {
    hide Final, Sound, IntegerText, IsDecimal;
    TextsAreFine(input, isLetter);
    var it := Final(Start(input), isLetter).items[k];
    if it.typ.ItemInteger? {
      GroupsAreDecimal(it.val);
    }
  }
}
