/**
 The TOML lexer as the source has it: a class over the input's bytes with a window of three runes for backing up and an
 end-of-input latch. Every state function takes the step of the machine on values.

 A Go panic in the lexer ("next called after EOF", "backed up too far") is a
 precondition here, so verifying the state functions shows that no input reaches
 one; the branch of `pop` that reports an empty stack is kept, and no run enters it.
 */
module TomlLexer {
  import opened Bytes
  import Utf8
  import opened TomlStrings
  import opened TomlTokens
  import opened TomlMachine
  import TomlNumbers
  import opened Wrappers

  /** A rune of width w ends at p. */
  ghost predicate RuneBefore(input: bytes, p: int, w: nat) {
    1 <= w <= p <= |input| && WidthAt(input, p - w) == w
  }

  /** The widths of the last three runes read, latest first. */
  datatype Widths = Widths(w0: nat, w1: nat, w2: nat)

  /** The line count and the backup window agree with the input before pos. */
  ghost predicate Window(input: bytes, pos: nat, line: int, widths: Widths, nprev: nat) {
    && pos <= |input|
    && line == LineAt(input, pos)
    && nprev <= 3
    && (nprev >= 1 ==> RuneBefore(input, pos, widths.w0))
    && (nprev >= 2 ==> RuneBefore(input, pos - widths.w0, widths.w1))
    && (nprev >= 3 ==> RuneBefore(input, pos - widths.w0 - widths.w1, widths.w2))
  }

  lemma WindowNext(input: bytes, pos: nat, line: int, widths: Widths, nprev: nat)
    requires pos < |input| && Window(input, pos, line, widths, nprev)
    ensures var w := WidthAt(input, pos);
            Window(input, pos + w, if input[pos] == LF then line + 1 else line,
                   Widths(w, widths.w0, widths.w1), if nprev < 3 then nprev + 1 else 3)
            && (if input[pos] == LF then line + 1 else line) == LineAt(input, pos + w)
  {
    hide WidthAt, Newlines;
    NewlinesUntil(input, pos, WidthAt(input, pos));
  }

  lemma WindowBack(input: bytes, pos: nat, line: int, widths: Widths, nprev: nat)
    requires nprev >= 1 && Window(input, pos, line, widths, nprev)
    ensures var w := widths.w0;
            && 1 <= w <= pos
            && Window(input, pos - w, if input[pos - w] == LF then line - 1 else line,
                      Widths(widths.w1, widths.w2, widths.w2), nprev - 1)
            && (if input[pos - w] == LF then line - 1 else line) == LineAt(input, pos - w)
  {
    hide WidthAt, Newlines;
    NewlinesUntil(input, pos - widths.w0, widths.w0);
  }

  lemma OneLetter(input: bytes, isLetter: LetterTest, p: nat, before: seq<int>)
    requires p <= |input|
    ensures var here := Letters(input, isLetter, p);
            if p < |input| && isLetter(RuneAt(input, p)) then
              var later := Letters(input, isLetter, p + WidthAt(input, p));
              before + here.0 == before + [RuneAt(input, p)] + later.0 && here.1 == later.1
            else before + here.0 == before && here.1 == p
  {
  }

  class Lexer {
    const input: bytes
    const isLetter: LetterTest
    var start: nat
    var pos: nat
    var line: int
    var prevWidths: Widths
    var nprev: nat               // how many of them are in use
    var atEOF: bool
    var stack: Stack
    var items: seq<Item>         // everything sent so far
    var taken: nat               // how many of them the parser has received
    var state: State

    ghost predicate Basic()
      reads this
    {
      && start <= pos <= |input| && (atEOF ==> pos == |input|)
      && nprev <= 3 && line == LineAt(input, pos)
      && Window(input, pos, line, prevWidths, nprev)
    }

    /** The lexer as the machine that runs state s. */
    ghost function Seen(s: State): (m: Machine)
      reads this
      ensures Basic() ==> m.InBounds()
    {
      Machine(input, s, stack, start, pos, items)
    }

    /** The lexer may run on. */
    ghost predicate Running()
      reads this
    {
      Basic() && !atEOF && !state.Halt? && Sound(Seen(state))
    }

    ghost predicate Stopped()
      reads this
    {
      Basic() && state.Halt? && Finished(items)
    }

    constructor (input: bytes, isLetter: LetterTest)
      ensures this.input == input && this.isLetter == isLetter
      ensures Seen(state) == Start(input) && Running() && taken == 0
    {
      this.input, this.isLetter := input, isLetter;
      start, pos, line, prevWidths, nprev, atEOF := 0, 0, 1, Widths(0, 0, 0), 0, false;
      stack, items, taken, state := NoState, [], 0, Top;
      new;
      StartSound(input);
    }

    /** A lexer that has read the first pos bytes and now expects the value of a top-level key. */
    constructor BeforeValue(input: bytes, pos: nat, isLetter: LetterTest)
      requires pos <= |input|
      ensures this.input == input && this.isLetter == isLetter
      ensures Seen(state) == Machine(input, Value, Pushed(TopEnd, NoState), pos, pos, []) && Running() && taken == 0
    {
      this.input, this.isLetter := input, isLetter;
      start, this.pos, line, prevWidths, nprev, atEOF := pos, pos, 1 + Newlines(input[..pos]), Widths(0, 0, 0), 0, false;
      stack, items, taken, state := Pushed(TopEnd, NoState), [], 0, Value;
      new;
    }

    method Push(s: State)
      requires Basic()
      modifies this
      ensures Basic() && pos == old(pos) && line == old(line) && prevWidths == old(prevWidths) && nprev == old(nprev)
        && atEOF == old(atEOF) && start == old(start) && items == old(items) && taken == old(taken) && state == old(state)
      ensures stack == Pushed(s, old(stack))
    {
      hide Window, LineAt;
      stack := Pushed(s, stack);
    }

    /** The state on top of the stack; without one, what the source calls a bug in the lexer. */
    method Pop() returns (next: State)
      requires Basic()
      modifies this
      ensures Basic() && atEOF == old(atEOF) && taken == old(taken) && state == old(state)
      ensures Seen(next) == old(Seen(state)).Returns()
    {
      hide Window, LineAt;
      if stack.NoState? {
        items := items + [Item(ItemBug, [], line)];
        return Halt;
      }
      next := stack.top;
      stack := stack.below;
    }

    method Ignore()
      requires Basic()
      modifies this
      ensures Basic() && pos == old(pos) && line == old(line) && prevWidths == old(prevWidths) && nprev == old(nprev)
        && atEOF == old(atEOF) && stack == old(stack) && items == old(items) && taken == old(taken) && state == old(state)
      ensures start == pos
    {
      hide Window, LineAt;
      start := pos;
    }

    /** Sends the text read since the last item. */
    method Emit(typ: ItemType)
      requires Basic()
      modifies this
      ensures Basic() && pos == old(pos) && line == old(line) && prevWidths == old(prevWidths) && nprev == old(nprev)
        && atEOF == old(atEOF) && stack == old(stack) && taken == old(taken) && state == old(state)
      ensures start == pos && items == old(items) + [Item(typ, input[old(start)..pos], LineAt(input, pos))]
    {
      hide Window, LineAt;
      items := items + [Item(typ, input[start..pos], line)];
      start := pos;
    }

    method Errorf() returns (next: State)
      requires Basic()
      modifies this
      ensures Basic() && atEOF == old(atEOF) && taken == old(taken) && state == old(state)
      ensures next.Halt? && Seen(next) == old(Seen(state)).Failed()
    {
      hide Window, LineAt;
      items := items + [Item(ItemError, [], line)];
      next := Halt;
    }

    /** Reads one rune; a second read past the end of the input is what the source panics on. */
    method Next() returns (r: int)
      requires Basic() && !atEOF
      modifies this
      ensures start == old(start) && stack == old(stack) && items == old(items) && taken == old(taken)
        && state == old(state)
      ensures Basic() && r == old(Seen(state)).Ahead() && Seen(state) == old(Seen(state)).Read()
      ensures old(pos) == |input| ==> atEOF && r == 0 && prevWidths == old(prevWidths) && nprev == old(nprev)
      ensures old(pos) < |input| ==>
        && !atEOF && r == RuneAt(input, old(pos)) && old(pos) < pos == old(pos) + WidthAt(input, old(pos))
        && prevWidths == Widths(WidthAt(input, old(pos)), old(prevWidths.w0), old(prevWidths.w1))
        && nprev == if old(nprev) < 3 then old(nprev) + 1 else 3
    {
      hide Utf8.Decode, WidthAt, Window, LineAt;
      if pos >= |input| {
        atEOF := true;
        return 0;
      }
      WindowNext(input, pos, line, prevWidths, nprev);
      if input[pos] == LF {
        line := line + 1;
      }
      if nprev < 3 {
        nprev := nprev + 1;
      }
      r := RuneAt(input, pos);
      var w := WidthAt(input, pos);
      prevWidths := Widths(w, prevWidths.w0, prevWidths.w1);
      pos := pos + w;
    }

    /** Undoes the last Next; only three may be undone in a row. */
    method Backup()
      requires Basic() && (atEOF || (nprev >= 1 && start + prevWidths.w0 <= pos))
      modifies this
      ensures start == old(start) && stack == old(stack) && items == old(items) && taken == old(taken)
        && state == old(state)
      ensures Basic() && !atEOF
      ensures old(atEOF) ==> pos == old(pos) && prevWidths == old(prevWidths) && nprev == old(nprev)
      ensures !old(atEOF) ==>
        && pos == old(pos) - old(prevWidths.w0) < old(pos) && nprev == old(nprev) - 1
        && prevWidths == Widths(old(prevWidths.w1), old(prevWidths.w2), old(prevWidths.w2))
    {
      hide WidthAt, Window, LineAt;
      if atEOF {
        atEOF := false;
        return;
      }
      WindowBack(input, pos, line, prevWidths, nprev);
      var w := prevWidths.w0;
      prevWidths := Widths(prevWidths.w1, prevWidths.w2, prevWidths.w2);
      nprev := nprev - 1;
      pos := pos - w;
      if pos < |input| && input[pos] == LF {
        line := line - 1;
      }
    }

    /** Reading a rune and backing up restores the position, the line and the latch. */
    method NextThenBackup() returns (r: int)
      requires Basic() && !atEOF
      modifies this
      ensures start == old(start) && stack == old(stack) && items == old(items) && taken == old(taken)
        && state == old(state)
      ensures Basic() && !atEOF
      ensures pos == old(pos) && line == old(line) && prevWidths.w0 == old(prevWidths.w0)
        && prevWidths.w1 == old(prevWidths.w1)
      ensures nprev == if old(pos) < |input| && old(nprev) == 3 then 2 else old(nprev)
      ensures r == if pos < |input| then RuneAt(input, pos) else 0
    {
      hide Utf8.Decode, WidthAt, RuneAt, Window;
      r := Next();
      Backup();
    }

    /** Consumes the next rune if it is the given one. */
    method Accept(valid: int) returns (ok: bool)
      requires Basic() && !atEOF && valid != 0
      modifies this
      ensures start == old(start) && stack == old(stack) && items == old(items) && taken == old(taken)
        && state == old(state)
      ensures Basic() && !atEOF
      ensures ok ==>
        && old(pos) < |input| && RuneAt(input, old(pos)) == valid && old(pos) < pos == old(pos) + WidthAt(input, old(pos))
        && prevWidths == Widths(WidthAt(input, old(pos)), old(prevWidths.w0), old(prevWidths.w1))
        && nprev == if old(nprev) < 3 then old(nprev) + 1 else 3
      ensures !ok ==>
        && (old(pos) < |input| ==> RuneAt(input, old(pos)) != valid)
        && pos == old(pos) && prevWidths.w0 == old(prevWidths.w0) && prevWidths.w1 == old(prevWidths.w1)
        && nprev == if old(pos) < |input| && old(nprev) == 3 then 2 else old(nprev)
    {
      hide Utf8.Decode, WidthAt, RuneAt, Window, LineAt;
      var r := Next();
      if r == valid {
        return true;
      }
      Backup();
      return false;
    }

    /** Looks at the next rune without consuming it. */
    method Peek() returns (r: int)
      requires Basic() && !atEOF
      modifies this
      ensures Basic() && !atEOF && Seen(state) == old(Seen(state)) && taken == old(taken) && state == old(state)
      ensures r == Seen(state).Ahead()
    {
      hide Utf8.Decode, WidthAt, Window, LineAt;
      r := NextThenBackup();
    }

    /** Drops whitespace, up to the first rune that is none. */
    method SkipWhitespace()
      requires Basic() && !atEOF
      modifies this
      ensures Basic() && !atEOF && Seen(state) == old(Seen(state)).Skipped() && taken == old(taken) && state == old(state)
    {
      hide Utf8.Decode, Window, LineAt;
      while true
        invariant Basic() && !atEOF && pos >= old(pos) && start == old(start)
        invariant stack == old(stack) && items == old(items) && taken == old(taken) && state == old(state)
        invariant WhitespaceEnd(input, pos) == WhitespaceEnd(input, old(pos))
        decreases |input| - pos
      {
        var r := Next();
        if IsWhitespace(r) {
          continue;
        }
        Backup();
        Ignore();
        return;
      }
    }

    /** Having read one quote, reads two more if both follow. */
    method AcceptTwoMore(quote: int) returns (both: bool)
      requires Basic() && !atEOF && nprev >= 1 && start < pos && 0 < quote < 0x80
      modifies this
      ensures start == old(start) && stack == old(stack) && items == old(items) && taken == old(taken)
        && state == old(state)
      ensures Basic() && !atEOF
      ensures both <==> ThreeQuotes(input, old(pos) - 1, quote)
      ensures both ==> pos == old(pos) + 2 && nprev == 3 && prevWidths == Widths(1, 1, old(prevWidths.w0))
      ensures !both ==> pos == old(pos)
    {
      hide Utf8.Decode, WidthAt, RuneAt, Window, LineAt;
      var second := Accept(quote);
      if second {
        var third := Accept(quote);
        if third {
          return true;
        }
        Backup();
      }
      return false;
    }

    /** Having read one quote, tells a string over several lines, opened by three, from one on a single line. */
    method OpenString(quote: int) returns (next: State)
      requires Basic() && !atEOF && nprev >= 1 && start < pos && IsQuote(quote)
      modifies this
      ensures Basic() && !atEOF && taken == old(taken) && state == old(state)
      ensures Seen(next) == StringStep(old(Seen(state)).To(old(pos) - 1), quote)
    {
      hide Window, LineAt;
      var three := AcceptTwoMore(quote);
      Ignore();
      next := if quote == QUOTE then if three then MultilineStr else Str else if three then MultilineRawStr else RawStr;
    }

    /** Having read three quotes, sends the text before them and leaves the string. */
    method CloseMultiline(typ: ItemType) returns (next: State)
      requires Basic() && !atEOF && nprev == 3 && prevWidths == Widths(1, 1, 1) && start + 3 <= pos
      requires forall i :: pos - 3 <= i < pos ==> input[i] < 0x80
      modifies this
      ensures Basic() && !atEOF && taken == old(taken) && state == old(state)
      ensures Seen(next) == old(Seen(state)).To(old(pos) - 3).Emitted(typ).To(old(pos)).Ignored().Returns()
    {
      hide Utf8.Decode, WidthAt, RuneAt, Window, LineAt;
      Backup();
      Backup();
      Backup();
      Emit(typ);
      var r := Next();
      r := Next();
      r := Next();
      Ignore();
      next := Pop();
    }

    /** Having read the closing quote, sends the text before it and leaves the string. */
    method CloseLine(typ: ItemType) returns (next: State)
      requires Basic() && start < pos && !atEOF && nprev >= 1 && prevWidths.w0 == 1 && input[pos - 1] < 0x80
      modifies this
      ensures Basic() && !atEOF && taken == old(taken) && state == old(state)
      ensures Seen(next) == old(Seen(state)).To(old(pos) - 1).Emitted(typ).To(old(pos)).Ignored().Returns()
    {
      hide Utf8.Decode, WidthAt, RuneAt, Window, LineAt;
      Backup();
      Emit(typ);
      var r := Next();
      Ignore();
      next := Pop();
    }

    /** Reads count hexadecimal digits, stopping at anything else. */
    method HexDigits(count: nat) returns (ok: bool)
      requires Basic() && !atEOF
      modifies this
      ensures start == old(start) && stack == old(stack) && items == old(items) && taken == old(taken)
        && state == old(state)
      ensures Basic() && (ok, pos) == HexEnd(input, old(pos), count) && (ok ==> !atEOF)
    {
      hide Utf8.Decode, Window, LineAt;
      for i := 0 to count
        invariant Basic() && !atEOF && HexEnd(input, old(pos), count) == HexEnd(input, pos, count - i)
        invariant start == old(start) && stack == old(stack) && items == old(items) && taken == old(taken)
          && state == old(state)
      {
        var r := Next();
        if !IsHexDigit(r) {
          return false;
        }
      }
      return true;
    }

    /** Reads letters up to the first rune that is none. */
    method ReadLetters() returns (rs: seq<int>)
      requires Basic() && !atEOF
      modifies this
      ensures start == old(start) && stack == old(stack) && items == old(items) && taken == old(taken)
        && state == old(state)
      ensures Basic() && !atEOF && (rs, pos) == Letters(input, isLetter, old(pos))
    {
      hide Utf8.Decode, WidthAt, RuneAt, Window, LineAt, Letters;
      rs := [];
      ghost var all := Letters(input, isLetter, pos);
      assert [] + all.0 == all.0;
      while true
        invariant Basic() && !atEOF
        invariant start == old(start) && stack == old(stack) && items == old(items) && taken == old(taken)
          && state == old(state)
        invariant all.0 == rs + Letters(input, isLetter, pos).0 && all.1 == Letters(input, isLetter, pos).1
        decreases |input| - pos
      {
        OneLetter(input, isLetter, pos, rs);
        var r := Next();
        if !isLetter(r) {
          Backup();
          return;
        }
        rs := rs + [r];
      }
    }

    method LexTop() returns (next: State)
      requires Basic() && !atEOF
      modifies this
      ensures Basic() && taken == old(taken) && state == old(state)
      ensures Seen(next) == TopStep(old(Seen(Top))) && (!next.Halt? ==> !atEOF)
      ensures old(Sound(Seen(Top))) ==> Kept(old(Seen(Top)), Seen(next))
    {
      hide Utf8.Decode, WidthAt, RuneAt, Window, LineAt, Sound, Kept;
      ghost var m := Seen(Top);
      if Sound(m) {
        TopKept(m);
      }
      var r := Next();
      if IsBlank(r) {
        return Skip(Top);
      }
      if r == HASH {
        Push(Top);
        return CommentStart;
      } else if r == LEFT_BRACKET {
        return TableStart;
      } else if r == 0 {
        if pos > start {
          next := Errorf();
          return;
        }
        Emit(ItemEOF);
        return Halt;
      }
      Backup();
      Push(TopEnd);
      return KeyStart;
    }

    method LexTopEnd() returns (next: State)
      requires Basic() && !atEOF
      modifies this
      ensures Basic() && taken == old(taken) && state == old(state)
      ensures Seen(next) == TopEndStep(old(Seen(TopEnd))) && (!next.Halt? ==> !atEOF)
      ensures old(Sound(Seen(TopEnd))) ==> Kept(old(Seen(TopEnd)), Seen(next))
    {
      hide Utf8.Decode, WidthAt, RuneAt, Window, LineAt, Sound, Kept;
      ghost var m := Seen(TopEnd);
      if Sound(m) {
        TopEndKept(m);
      }
      var r := Next();
      if r == HASH {
        Push(Top);
        return CommentStart;
      } else if IsWhitespace(r) {
        return TopEnd;
      } else if IsNL(r) {
        Ignore();
        return Top;
      } else if r == 0 {
        Emit(ItemEOF);
        return Halt;
      }
      next := Errorf();
    }

    method LexTableStart() returns (next: State)
      requires Basic() && !atEOF
      modifies this
      ensures Basic() && taken == old(taken) && state == old(state)
      ensures Seen(next) == TableStartStep(old(Seen(TableStart))) && (!next.Halt? ==> !atEOF)
      ensures old(Sound(Seen(TableStart))) ==> Kept(old(Seen(TableStart)), Seen(next))
    {
      hide Utf8.Decode, WidthAt, RuneAt, Window, LineAt, Sound, Kept;
      ghost var m := Seen(TableStart);
      if Sound(m) {
        TableStartKept(m);
      }
      var r := Peek();
      if r == LEFT_BRACKET {
        r := Next();
        Emit(ItemArrayTableStart);
        Push(ArrayTableEnd);
      } else {
        Emit(ItemTableStart);
        Push(TableEnd);
      }
      return TableNameStart;
    }

    method LexTableEnd() returns (next: State)
      requires Basic() && !atEOF
      modifies this
      ensures Basic() && taken == old(taken) && state == old(state)
      ensures Seen(next) == TableEndStep(old(Seen(TableEnd))) && (!next.Halt? ==> !atEOF)
      ensures old(Sound(Seen(TableEnd))) ==> Kept(old(Seen(TableEnd)), Seen(next))
    {
      hide Utf8.Decode, WidthAt, RuneAt, Window, LineAt, Sound, Kept;
      ghost var m := Seen(TableEnd);
      if Sound(m) {
        TableEndKept(m);
      }
      Emit(ItemTableEnd);
      return TopEnd;
    }

    method LexArrayTableEnd() returns (next: State)
      requires Basic() && !atEOF
      modifies this
      ensures Basic() && taken == old(taken) && state == old(state)
      ensures Seen(next) == ArrayTableEndStep(old(Seen(ArrayTableEnd))) && (!next.Halt? ==> !atEOF)
      ensures old(Sound(Seen(ArrayTableEnd))) ==> Kept(old(Seen(ArrayTableEnd)), Seen(next))
    {
      hide Utf8.Decode, WidthAt, RuneAt, Window, LineAt, Sound, Kept;
      ghost var m := Seen(ArrayTableEnd);
      if Sound(m) {
        ArrayTableEndKept(m);
      }
      var r := Next();
      if r != RIGHT_BRACKET {
        next := Errorf();
        return;
      }
      Emit(ItemArrayTableEnd);
      return TopEnd;
    }

    method LexTableNameStart() returns (next: State)
      requires Basic() && !atEOF
      modifies this
      ensures Basic() && taken == old(taken) && state == old(state)
      ensures Seen(next) == TableNameStartStep(old(Seen(TableNameStart))) && (!next.Halt? ==> !atEOF)
      ensures old(Sound(Seen(TableNameStart))) ==> Kept(old(Seen(TableNameStart)), Seen(next))
    {
      hide Utf8.Decode, WidthAt, RuneAt, Window, LineAt, Sound, Kept;
      ghost var m := Seen(TableNameStart);
      if Sound(m) {
        TableNameStartKept(m);
      }
      SkipWhitespace();
      var r := Peek();
      if r == RIGHT_BRACKET || r == 0 {
        next := Errorf();
      } else if r == DOT {
        next := Errorf();
      } else if IsQuote(r) {
        Ignore();
        Push(TableNameEnd);
        return Value;
      } else {
        return BareTableName;
      }
    }

    method LexBareTableName() returns (next: State)
      requires Basic() && !atEOF
      modifies this
      ensures Basic() && taken == old(taken) && state == old(state)
      ensures Seen(next) == BareTableNameStep(old(Seen(BareTableName))) && (!next.Halt? ==> !atEOF)
      ensures old(Sound(Seen(BareTableName))) ==> Kept(old(Seen(BareTableName)), Seen(next))
    {
      hide Utf8.Decode, WidthAt, RuneAt, Window, LineAt, Sound, Kept;
      ghost var m := Seen(BareTableName);
      if Sound(m) {
        BareTableNameKept(m);
      }
      var r := Next();
      if IsBareKeyChar(r) {
        return BareTableName;
      }
      Backup();
      Emit(ItemText);
      return TableNameEnd;
    }

    method LexTableNameEnd() returns (next: State)
      requires Basic() && !atEOF
      modifies this
      ensures Basic() && taken == old(taken) && state == old(state)
      ensures Seen(next) == TableNameEndStep(old(Seen(TableNameEnd))) && (!next.Halt? ==> !atEOF)
      ensures old(Sound(Seen(TableNameEnd))) ==> Kept(old(Seen(TableNameEnd)), Seen(next))
    {
      hide Utf8.Decode, WidthAt, RuneAt, Window, LineAt, Sound, Kept;
      ghost var m := Seen(TableNameEnd);
      if Sound(m) {
        TableNameEndKept(m);
      }
      SkipWhitespace();
      var r := Next();
      if IsWhitespace(r) {
        return TableNameEnd;
      } else if r == DOT {
        Ignore();
        return TableNameStart;
      } else if r == RIGHT_BRACKET {
        next := Pop();
      } else {
        next := Errorf();
      }
    }

    method LexKeyStart() returns (next: State)
      requires Basic() && !atEOF
      modifies this
      ensures Basic() && taken == old(taken) && state == old(state)
      ensures Seen(next) == KeyStartStep(old(Seen(KeyStart))) && (!next.Halt? ==> !atEOF)
      ensures old(Sound(Seen(KeyStart))) ==> Kept(old(Seen(KeyStart)), Seen(next))
    {
      hide Utf8.Decode, WidthAt, RuneAt, Window, LineAt, Sound, Kept;
      ghost var m := Seen(KeyStart);
      if Sound(m) {
        KeyStartKept(m);
      }
      var r := Peek();
      if r == EQUALS {
        next := Errorf();
      } else if IsBlank(r) {
        r := Next();
        next := Skip(KeyStart);
      } else {
        Ignore();
        Emit(ItemKeyStart);
        if IsQuote(r) {
          Push(KeyEnd);
          return Value;
        }
        return BareKey;
      }
    }

    method LexBareKey() returns (next: State)
      requires Basic() && !atEOF
      modifies this
      ensures Basic() && taken == old(taken) && state == old(state)
      ensures Seen(next) == BareKeyStep(old(Seen(BareKey))) && (!next.Halt? ==> !atEOF)
      ensures old(Sound(Seen(BareKey))) ==> Kept(old(Seen(BareKey)), Seen(next))
    {
      hide Utf8.Decode, WidthAt, RuneAt, Window, LineAt, Sound, Kept;
      ghost var m := Seen(BareKey);
      if Sound(m) {
        BareKeyKept(m);
      }
      var r := Next();
      if IsBareKeyChar(r) {
        return BareKey;
      } else if IsWhitespace(r) {
        Backup();
        Emit(ItemText);
        return KeyEnd;
      } else if r == EQUALS {
        Backup();
        Emit(ItemText);
        return KeyEnd;
      } else {
        next := Errorf();
      }
    }

    method LexKeyEnd() returns (next: State)
      requires Basic() && !atEOF
      modifies this
      ensures Basic() && taken == old(taken) && state == old(state)
      ensures Seen(next) == KeyEndStep(old(Seen(KeyEnd))) && (!next.Halt? ==> !atEOF)
      ensures old(Sound(Seen(KeyEnd))) ==> Kept(old(Seen(KeyEnd)), Seen(next))
    {
      hide Utf8.Decode, WidthAt, RuneAt, Window, LineAt, Sound, Kept;
      ghost var m := Seen(KeyEnd);
      if Sound(m) {
        KeyEndKept(m);
      }
      var r := Next();
      if r == EQUALS {
        return Skip(Value);
      } else if IsWhitespace(r) {
        return Skip(KeyEnd);
      } else {
        next := Errorf();
      }
    }

    method LexValue() returns (next: State)
      requires Basic() && !atEOF
      modifies this
      ensures Basic() && taken == old(taken) && state == old(state)
      ensures Seen(next) == ValueStep(old(Seen(Value)), isLetter) && (!next.Halt? ==> !atEOF)
      ensures old(Sound(Seen(Value))) ==> Kept(old(Seen(Value)), Seen(next))
    {
      hide Utf8.Decode, WidthAt, RuneAt, Window, LineAt, Sound, Kept;
      ghost var m := Seen(Value);
      if Sound(m) {
        ValueKept(m, isLetter);
      }
      var r := Next();
      if IsWhitespace(r) {
        return Skip(Value);
      } else if IsDigit(r) {
        Backup();
        return NumberOrDateStart;
      } else if IsQuote(r) {
        next := OpenString(r);
      } else {
        next := OtherValue(r, old(Seen(Value)));
      }
    }

    method LexArrayValue() returns (next: State)
      requires Basic() && !atEOF
      modifies this
      ensures Basic() && taken == old(taken) && state == old(state)
      ensures Seen(next) == ArrayValueStep(old(Seen(ArrayValue))) && (!next.Halt? ==> !atEOF)
      ensures old(Sound(Seen(ArrayValue))) ==> Kept(old(Seen(ArrayValue)), Seen(next))
    {
      hide Utf8.Decode, WidthAt, RuneAt, Window, LineAt, Sound, Kept;
      ghost var m := Seen(ArrayValue);
      if Sound(m) {
        ArrayValueKept(m);
      }
      var r := Next();
      if IsBlank(r) {
        return Skip(ArrayValue);
      } else if r == HASH {
        Push(ArrayValue);
        return CommentStart;
      } else if r == COMMA {
        next := Errorf();
        return;
      } else if r == RIGHT_BRACKET {
        return ArrayEnd;
      }
      Backup();
      Push(ArrayValueEnd);
      return Value;
    }

    method LexArrayValueEnd() returns (next: State)
      requires Basic() && !atEOF
      modifies this
      ensures Basic() && taken == old(taken) && state == old(state)
      ensures Seen(next) == ArrayValueEndStep(old(Seen(ArrayValueEnd))) && (!next.Halt? ==> !atEOF)
      ensures old(Sound(Seen(ArrayValueEnd))) ==> Kept(old(Seen(ArrayValueEnd)), Seen(next))
    {
      hide Utf8.Decode, WidthAt, RuneAt, Window, LineAt, Sound, Kept;
      ghost var m := Seen(ArrayValueEnd);
      if Sound(m) {
        ArrayValueEndKept(m);
      }
      var r := Next();
      if IsBlank(r) {
        return Skip(ArrayValueEnd);
      } else if r == HASH {
        Push(ArrayValueEnd);
        return CommentStart;
      } else if r == COMMA {
        Ignore();
        return ArrayValue;
      } else if r == RIGHT_BRACKET {
        return ArrayEnd;
      }
      next := Errorf();
    }

    method LexArrayEnd() returns (next: State)
      requires Basic() && !atEOF
      modifies this
      ensures Basic() && taken == old(taken) && state == old(state)
      ensures Seen(next) == ArrayEndStep(old(Seen(ArrayEnd))) && (!next.Halt? ==> !atEOF)
      ensures old(Sound(Seen(ArrayEnd))) ==> Kept(old(Seen(ArrayEnd)), Seen(next))
    {
      hide Utf8.Decode, WidthAt, RuneAt, Window, LineAt, Sound, Kept;
      ghost var m := Seen(ArrayEnd);
      if Sound(m) {
        ArrayEndKept(m);
      }
      Ignore();
      Emit(ItemArrayEnd);
      next := Pop();
    }

    method LexInlineTableValue() returns (next: State)
      requires Basic() && !atEOF
      modifies this
      ensures Basic() && taken == old(taken) && state == old(state)
      ensures Seen(next) == InlineTableValueStep(old(Seen(InlineTableValue))) && (!next.Halt? ==> !atEOF)
      ensures old(Sound(Seen(InlineTableValue))) ==> Kept(old(Seen(InlineTableValue)), Seen(next))
    {
      hide Utf8.Decode, WidthAt, RuneAt, Window, LineAt, Sound, Kept;
      ghost var m := Seen(InlineTableValue);
      if Sound(m) {
        InlineTableValueKept(m);
      }
      var r := Next();
      if IsWhitespace(r) {
        return Skip(InlineTableValue);
      } else if IsNL(r) {
        next := Errorf();
        return;
      } else if r == HASH {
        Push(InlineTableValue);
        return CommentStart;
      } else if r == COMMA {
        next := Errorf();
        return;
      } else if r == RIGHT_BRACE {
        return InlineTableEnd;
      }
      Backup();
      Push(InlineTableValueEnd);
      return KeyStart;
    }

    method LexInlineTableValueEnd() returns (next: State)
      requires Basic() && !atEOF
      modifies this
      ensures Basic() && taken == old(taken) && state == old(state)
      ensures Seen(next) == InlineTableValueEndStep(old(Seen(InlineTableValueEnd))) && (!next.Halt? ==> !atEOF)
      ensures old(Sound(Seen(InlineTableValueEnd))) ==> Kept(old(Seen(InlineTableValueEnd)), Seen(next))
    {
      hide Utf8.Decode, WidthAt, RuneAt, Window, LineAt, Sound, Kept;
      ghost var m := Seen(InlineTableValueEnd);
      if Sound(m) {
        InlineTableValueEndKept(m);
      }
      var r := Next();
      if IsWhitespace(r) {
        return Skip(InlineTableValueEnd);
      } else if IsNL(r) {
        next := Errorf();
        return;
      } else if r == HASH {
        Push(InlineTableValueEnd);
        return CommentStart;
      } else if r == COMMA {
        Ignore();
        return InlineTableValue;
      } else if r == RIGHT_BRACE {
        return InlineTableEnd;
      }
      next := Errorf();
    }

    method LexInlineTableEnd() returns (next: State)
      requires Basic() && !atEOF
      modifies this
      ensures Basic() && taken == old(taken) && state == old(state)
      ensures Seen(next) == InlineTableEndStep(old(Seen(InlineTableEnd))) && (!next.Halt? ==> !atEOF)
      ensures old(Sound(Seen(InlineTableEnd))) ==> Kept(old(Seen(InlineTableEnd)), Seen(next))
    {
      hide Utf8.Decode, WidthAt, RuneAt, Window, LineAt, Sound, Kept;
      ghost var m := Seen(InlineTableEnd);
      if Sound(m) {
        InlineTableEndKept(m);
      }
      Ignore();
      Emit(ItemInlineTableEnd);
      next := Pop();
    }

    method LexStr() returns (next: State)
      requires Basic() && !atEOF
      modifies this
      ensures Basic() && taken == old(taken) && state == old(state)
      ensures Seen(next) == StrStep(old(Seen(Str))) && (!next.Halt? ==> !atEOF)
      ensures old(Sound(Seen(Str))) ==> Kept(old(Seen(Str)), Seen(next))
    {
      hide Utf8.Decode, WidthAt, RuneAt, Window, LineAt, Sound, Kept;
      ghost var m := Seen(Str);
      if Sound(m) {
        StrKept(m);
      }
      var r := Next();
      if r == 0 {
        next := Errorf();
        return;
      } else if IsNL(r) {
        next := Errorf();
        return;
      } else if r == BACKSLASH {
        Push(Str);
        return StrEscape;
      } else if r == QUOTE {
        next := CloseLine(ItemString);
        return;
      }
      return Str;
    }

    method LexMultilineStr() returns (next: State)
      requires Basic() && !atEOF
      modifies this
      ensures Basic() && taken == old(taken) && state == old(state)
      ensures Seen(next) == MultilineStrStep(old(Seen(MultilineStr))) && (!next.Halt? ==> !atEOF)
      ensures old(Sound(Seen(MultilineStr))) ==> Kept(old(Seen(MultilineStr)), Seen(next))
    {
      hide Utf8.Decode, WidthAt, RuneAt, Window, LineAt, Sound, Kept;
      ghost var m := Seen(MultilineStr);
      if Sound(m) {
        MultilineStrKept(m);
      }
      var r := Next();
      if r == 0 {
        next := Errorf();
        return;
      } else if r == BACKSLASH {
        return MultilineStrEscape;
      } else if r == QUOTE {
        var three := AcceptTwoMore(0x22);
        if three {
          next := CloseMultiline(ItemMultilineString);
          return;
        }
      }
      return MultilineStr;
    }

    method LexRawStr() returns (next: State)
      requires Basic() && !atEOF
      modifies this
      ensures Basic() && taken == old(taken) && state == old(state)
      ensures Seen(next) == RawStrStep(old(Seen(RawStr))) && (!next.Halt? ==> !atEOF)
      ensures old(Sound(Seen(RawStr))) ==> Kept(old(Seen(RawStr)), Seen(next))
    {
      hide Utf8.Decode, WidthAt, RuneAt, Window, LineAt, Sound, Kept;
      ghost var m := Seen(RawStr);
      if Sound(m) {
        RawStrKept(m);
      }
      var r := Next();
      if r == 0 {
        next := Errorf();
        return;
      } else if IsNL(r) {
        next := Errorf();
        return;
      } else if r == SINGLE_QUOTE {
        next := CloseLine(ItemRawString);
        return;
      }
      return RawStr;
    }

    method LexMultilineRawStr() returns (next: State)
      requires Basic() && !atEOF
      modifies this
      ensures Basic() && taken == old(taken) && state == old(state)
      ensures Seen(next) == MultilineRawStrStep(old(Seen(MultilineRawStr))) && (!next.Halt? ==> !atEOF)
      ensures old(Sound(Seen(MultilineRawStr))) ==> Kept(old(Seen(MultilineRawStr)), Seen(next))
    {
      hide Utf8.Decode, WidthAt, RuneAt, Window, LineAt, Sound, Kept;
      ghost var m := Seen(MultilineRawStr);
      if Sound(m) {
        MultilineRawStrKept(m);
      }
      var r := Next();
      if r == 0 {
        next := Errorf();
        return;
      } else if r == SINGLE_QUOTE {
        var three := AcceptTwoMore(0x27);
        if three {
          next := CloseMultiline(ItemRawMultilineString);
          return;
        }
      }
      return MultilineRawStr;
    }

    method LexStrEscape() returns (next: State)
      requires Basic() && !atEOF
      modifies this
      ensures Basic() && taken == old(taken) && state == old(state)
      ensures Seen(next) == StrEscapeStep(old(Seen(StrEscape))) && (!next.Halt? ==> !atEOF)
      ensures old(Sound(Seen(StrEscape))) ==> Kept(old(Seen(StrEscape)), Seen(next))
    {
      hide Utf8.Decode, WidthAt, RuneAt, Window, LineAt, Sound, Kept;
      ghost var m := Seen(StrEscape);
      if Sound(m) {
        StrEscapeKept(m);
      }
      var r := Next();
      if SimpleEscape(r) >= 0 {
        next := Pop();
      } else if r == LOWER_U {
        return ShortUnicodeEscape;
      } else if r == UPPER_U {
        return LongUnicodeEscape;
      } else {
        next := Errorf();
      }
    }

    method LexMultilineStrEscape() returns (next: State)
      requires Basic() && !atEOF
      modifies this
      ensures Basic() && taken == old(taken) && state == old(state)
      ensures Seen(next) == MultilineStrEscapeStep(old(Seen(MultilineStrEscape))) && (!next.Halt? ==> !atEOF)
      ensures old(Sound(Seen(MultilineStrEscape))) ==> Kept(old(Seen(MultilineStrEscape)), Seen(next))
    {
      hide Utf8.Decode, WidthAt, RuneAt, Window, LineAt, Sound, Kept;
      ghost var m := Seen(MultilineStrEscape);
      if Sound(m) {
        MultilineStrEscapeKept(m);
      }
      var r := Next();
      if IsNL(r) {
        return MultilineStr;
      }
      Backup();
      Push(MultilineStr);
      next := LexStrEscape();
    }

    method LexShortUnicodeEscape() returns (next: State)
      requires Basic() && !atEOF
      modifies this
      ensures Basic() && taken == old(taken) && state == old(state)
      ensures Seen(next) == UnicodeEscapeStep(old(Seen(ShortUnicodeEscape)), 4) && (!next.Halt? ==> !atEOF)
      ensures old(Sound(Seen(ShortUnicodeEscape))) ==> Kept(old(Seen(ShortUnicodeEscape)), Seen(next))
    {
      hide Utf8.Decode, WidthAt, RuneAt, Window, LineAt, Sound, Kept;
      ghost var m := Seen(ShortUnicodeEscape);
      if Sound(m) {
        UnicodeEscapeKept(m, 4);
      }
      var ok := HexDigits(4);
      if !ok {
        next := Errorf();
        return;
      }
      next := Pop();
    }

    method LexLongUnicodeEscape() returns (next: State)
      requires Basic() && !atEOF
      modifies this
      ensures Basic() && taken == old(taken) && state == old(state)
      ensures Seen(next) == UnicodeEscapeStep(old(Seen(LongUnicodeEscape)), 8) && (!next.Halt? ==> !atEOF)
      ensures old(Sound(Seen(LongUnicodeEscape))) ==> Kept(old(Seen(LongUnicodeEscape)), Seen(next))
    {
      hide Utf8.Decode, WidthAt, RuneAt, Window, LineAt, Sound, Kept;
      ghost var m := Seen(LongUnicodeEscape);
      if Sound(m) {
        UnicodeEscapeKept(m, 8);
      }
      var ok := HexDigits(8);
      if !ok {
        next := Errorf();
        return;
      }
      next := Pop();
    }

    method LexNumberOrDateStart() returns (next: State)
      requires Basic() && !atEOF
      modifies this
      ensures Basic() && taken == old(taken) && state == old(state)
      ensures Seen(next) == NumberOrDateStartStep(old(Seen(NumberOrDateStart))) && (!next.Halt? ==> !atEOF)
      ensures old(Sound(Seen(NumberOrDateStart))) ==> Kept(old(Seen(NumberOrDateStart)), Seen(next))
    {
      hide Utf8.Decode, WidthAt, RuneAt, Window, LineAt, Sound, Kept;
      ghost var m := Seen(NumberOrDateStart);
      if Sound(m) {
        NumberOrDateStartKept(m);
      }
      var r := Next();
      if IsDigit(r) {
        return NumberOrDate;
      }
      if r == UNDERSCORE {
        return Number;
      } else if IsExponent(r) {
        return Float;
      } else if r == DOT {
        next := Errorf();
        return;
      }
      next := Errorf();
    }

    method LexNumberOrDate() returns (next: State)
      requires Basic() && !atEOF
      modifies this
      ensures Basic() && taken == old(taken) && state == old(state)
      ensures Seen(next) == NumberOrDateStep(old(Seen(NumberOrDate))) && (!next.Halt? ==> !atEOF)
      ensures old(Sound(Seen(NumberOrDate))) ==> Kept(old(Seen(NumberOrDate)), Seen(next))
    {
      hide Utf8.Decode, WidthAt, RuneAt, Window, LineAt, Sound, Kept;
      ghost var m := Seen(NumberOrDate);
      if Sound(m) {
        NumberOrDateKept(m);
      }
      var r := Next();
      if IsDigit(r) {
        return NumberOrDate;
      }
      if r == MINUS {
        return Datetime;
      } else if r == UNDERSCORE {
        return Number;
      } else if r == DOT || IsExponent(r) {
        return Float;
      }
      Backup();
      Emit(ItemInteger);
      next := Pop();
    }

    method LexDatetime() returns (next: State)
      requires Basic() && !atEOF
      modifies this
      ensures Basic() && taken == old(taken) && state == old(state)
      ensures Seen(next) == DatetimeStep(old(Seen(Datetime))) && (!next.Halt? ==> !atEOF)
      ensures old(Sound(Seen(Datetime))) ==> Kept(old(Seen(Datetime)), Seen(next))
    {
      hide Utf8.Decode, WidthAt, RuneAt, Window, LineAt, Sound, Kept;
      ghost var m := Seen(Datetime);
      if Sound(m) {
        DatetimeKept(m);
      }
      var r := Next();
      if IsDigit(r) {
        return Datetime;
      }
      if r in {0x2D, 0x54, 0x3A, 0x2E, 0x5A, 0x2B} {
        return Datetime;
      }
      Backup();
      Emit(ItemDatetime);
      next := Pop();
    }

    method LexNumberStart() returns (next: State)
      requires Basic() && !atEOF
      modifies this
      ensures Basic() && taken == old(taken) && state == old(state)
      ensures Seen(next) == NumberStartStep(old(Seen(NumberStart))) && (!next.Halt? ==> !atEOF)
      ensures old(Sound(Seen(NumberStart))) ==> Kept(old(Seen(NumberStart)), Seen(next))
    {
      hide Utf8.Decode, WidthAt, RuneAt, Window, LineAt, Sound, Kept;
      ghost var m := Seen(NumberStart);
      if Sound(m) {
        NumberStartKept(m);
      }
      var r := Next();
      if !IsDigit(r) {
        if r == DOT {
          next := Errorf();
          return;
        }
        next := Errorf();
        return;
      }
      return Number;
    }

    method LexNumber() returns (next: State)
      requires Basic() && !atEOF
      modifies this
      ensures Basic() && taken == old(taken) && state == old(state)
      ensures Seen(next) == NumberStep(old(Seen(Number))) && (!next.Halt? ==> !atEOF)
      ensures old(Sound(Seen(Number))) ==> Kept(old(Seen(Number)), Seen(next))
    {
      hide Utf8.Decode, WidthAt, RuneAt, Window, LineAt, Sound, Kept;
      ghost var m := Seen(Number);
      if Sound(m) {
        NumberKept(m);
      }
      var r := Next();
      if IsDigit(r) {
        return Number;
      }
      if r == UNDERSCORE {
        return Number;
      } else if r == DOT || IsExponent(r) {
        return Float;
      }
      Backup();
      Emit(ItemInteger);
      next := Pop();
    }

    method LexFloat() returns (next: State)
      requires Basic() && !atEOF
      modifies this
      ensures Basic() && taken == old(taken) && state == old(state)
      ensures Seen(next) == FloatStep(old(Seen(Float))) && (!next.Halt? ==> !atEOF)
      ensures old(Sound(Seen(Float))) ==> Kept(old(Seen(Float)), Seen(next))
    {
      hide Utf8.Decode, WidthAt, RuneAt, Window, LineAt, Sound, Kept;
      ghost var m := Seen(Float);
      if Sound(m) {
        FloatKept(m);
      }
      var r := Next();
      if IsDigit(r) {
        return Float;
      }
      if r in {0x5F, 0x2E, 0x2D, 0x2B, 0x65, 0x45} {
        return Float;
      }
      Backup();
      Emit(ItemFloat);
      next := Pop();
    }

    method LexBool() returns (next: State)
      requires Basic() && !atEOF
      modifies this
      ensures Basic() && taken == old(taken) && state == old(state)
      ensures Seen(next) == BoolStep(old(Seen(Bool)), isLetter) && (!next.Halt? ==> !atEOF)
      ensures old(Sound(Seen(Bool))) ==> Kept(old(Seen(Bool)), Seen(next))
    {
      hide Utf8.Decode, WidthAt, RuneAt, Window, LineAt, Sound, Kept;
      ghost var m := Seen(Bool);
      if Sound(m) {
        BoolKept(m, isLetter);
      }
      var rs := ReadLetters();
      if IsBoolWord(rs) {
        Emit(ItemBool);
        next := Pop();
        return;
      }
      next := Errorf();
    }

    method LexCommentStart() returns (next: State)
      requires Basic() && !atEOF
      modifies this
      ensures Basic() && taken == old(taken) && state == old(state)
      ensures Seen(next) == CommentStartStep(old(Seen(CommentStart))) && (!next.Halt? ==> !atEOF)
      ensures old(Sound(Seen(CommentStart))) ==> Kept(old(Seen(CommentStart)), Seen(next))
    {
      hide Utf8.Decode, WidthAt, RuneAt, Window, LineAt, Sound, Kept;
      ghost var m := Seen(CommentStart);
      if Sound(m) {
        CommentStartKept(m);
      }
      Ignore();
      Emit(ItemCommentStart);
      return Comment;
    }

    method LexComment() returns (next: State)
      requires Basic() && !atEOF
      modifies this
      ensures Basic() && taken == old(taken) && state == old(state)
      ensures Seen(next) == CommentStep(old(Seen(Comment))) && (!next.Halt? ==> !atEOF)
      ensures old(Sound(Seen(Comment))) ==> Kept(old(Seen(Comment)), Seen(next))
    {
      hide Utf8.Decode, WidthAt, RuneAt, Window, LineAt, Sound, Kept;
      ghost var m := Seen(Comment);
      if Sound(m) {
        CommentKept(m);
      }
      var r := Peek();
      if IsNL(r) || r == 0 {
        Emit(ItemText);
        next := Pop();
        return;
      }
      r := Next();
      return Comment;
    }

    /** Having read r, which is no quote, no whitespace and no digit, decides what kind of value follows. */
    method OtherValue(r: int, ghost m: Machine) returns (next: State)
      requires m.InBounds() && r == m.Ahead() && !IsWhitespace(r) && !IsDigit(r) && !IsQuote(r)
      requires Basic() && Seen(Value) == m.Read() && (atEOF <==> m.pos == |input|)
      requires !atEOF ==> nprev >= 1 && m.pos == pos - prevWidths.w0
      modifies this
      ensures Basic() && taken == old(taken) && state == old(state)
      ensures Seen(next) == OtherValueStep(m, isLetter) && (!next.Halt? ==> !atEOF)
    {
      hide Utf8.Decode, WidthAt, RuneAt, Window, LineAt;
      if r == LEFT_BRACKET {
        Ignore();
        Emit(ItemArray);
        next := ArrayValue;
      } else if r == LEFT_BRACE {
        Ignore();
        Emit(ItemInlineTableStart);
        next := InlineTableValue;
      } else if IsSign(r) {
        next := NumberStart;
      } else if r == DOT {
        next := Errorf();
      } else if isLetter(r) {
        Backup();
        next := Bool;
      } else {
        next := Errorf();
      }
    }

    /** Drops what was read and goes on. */
    method LexSkip(after: State) returns (next: State)
      requires Basic() && !atEOF
      modifies this
      ensures Basic() && !atEOF && taken == old(taken) && state == old(state)
      ensures Seen(next) == old(Seen(Skip(after))).Ignored().Goes(after)
      ensures old(Sound(Seen(Skip(after)))) ==> Kept(old(Seen(Skip(after))), Seen(next))
    {
      hide Window, LineAt, Sound, Kept;
      ghost var m := Seen(Skip(after));
      if Sound(m) {
        SkipKept(m);
      }
      Ignore();
      next := after;
    }

    /** Calls the state function s. */
    method Run(s: State) returns (next: State)
      requires Basic() && !atEOF && !s.Halt?
      modifies this
      ensures Basic() && taken == old(taken) && state == old(state)
      ensures Seen(next) == StepOf(old(Seen(s)), isLetter) && (!next.Halt? ==> !atEOF)
    {
      hide Window, LineAt, Sound, Kept;
      hide TopStep, TopEndStep, TableStartStep, TableEndStep, ArrayTableEndStep, TableNameStartStep, BareTableNameStep,
        TableNameEndStep, KeyStartStep, BareKeyStep, KeyEndStep, ValueStep, ArrayValueStep, ArrayValueEndStep, ArrayEndStep,
        InlineTableValueStep, InlineTableValueEndStep, InlineTableEndStep, StrStep, MultilineStrStep, RawStrStep,
        MultilineRawStrStep, MultilineStrEscapeStep, StrEscapeStep, UnicodeEscapeStep, NumberOrDateStartStep, NumberOrDateStep,
        DatetimeStep, NumberStartStep, NumberStep, FloatStep, BoolStep, CommentStartStep, CommentStep;
      next := Halt;
      match s {
        case Top => next := LexTop();
        case TopEnd => next := LexTopEnd();
        case TableStart => next := LexTableStart();
        case TableEnd => next := LexTableEnd();
        case ArrayTableEnd => next := LexArrayTableEnd();
        case TableNameStart => next := LexTableNameStart();
        case BareTableName => next := LexBareTableName();
        case TableNameEnd => next := LexTableNameEnd();
        case KeyStart => next := LexKeyStart();
        case BareKey => next := LexBareKey();
        case KeyEnd => next := LexKeyEnd();
        case Value => next := LexValue();
        case ArrayValue => next := LexArrayValue();
        case ArrayValueEnd => next := LexArrayValueEnd();
        case ArrayEnd => next := LexArrayEnd();
        case InlineTableValue => next := LexInlineTableValue();
        case InlineTableValueEnd => next := LexInlineTableValueEnd();
        case InlineTableEnd => next := LexInlineTableEnd();
        case Str => next := LexStr();
        case MultilineStr => next := LexMultilineStr();
        case RawStr => next := LexRawStr();
        case MultilineRawStr => next := LexMultilineRawStr();
        case MultilineStrEscape => next := LexMultilineStrEscape();
        case StrEscape => next := LexStrEscape();
        case ShortUnicodeEscape => next := LexShortUnicodeEscape();
        case LongUnicodeEscape => next := LexLongUnicodeEscape();
        case NumberOrDateStart => next := LexNumberOrDateStart();
        case NumberOrDate => next := LexNumberOrDate();
        case Datetime => next := LexDatetime();
        case NumberStart => next := LexNumberStart();
        case Number => next := LexNumber();
        case Float => next := LexFloat();
        case Bool => next := LexBool();
        case CommentStart => next := LexCommentStart();
        case Comment => next := LexComment();
        case Skip(after) => next := LexSkip(after);
        case Halt => assert false;
      }
    }

    /** Runs the current state function once. */
    method Step()
      requires Running()
      modifies this
      ensures taken == old(taken) && Seen(state) == StepOf(old(Seen(state)), isLetter) && Kept(old(Seen(state)), Seen(state))
      ensures old(InString(state, stack)) ==> StringGoes(old(Seen(state)), Seen(state))
      ensures if state.Halt? then Stopped() else Running()
    {
      hide Window, LineAt, StepOf, Sound, Finished, OneMore, Rule, StringGoes;
      StepKept(Seen(state), isLetter);
      NotHalted(Seen(state));
      var next := Run(state);
      state := next;
    }

    /** The lexer as it will be when it has stopped. */
    ghost function End(): Machine
      requires Running() || state.Halt?
      reads this
    {
      Final(Seen(state), isLetter)
    }

    /** A step that does not change how the run ends. */
    method StepOn()
      requires Running()
      modifies this
      ensures if state.Halt? then Stopped() && |items| > |old(items)| else Running()
      ensures taken == old(taken) && old(items) <= items && End() == old(End())
      ensures !state.Halt? ==> pos > old(pos) || (pos == old(pos) && Effort(Seen(state)) < old(Effort(Seen(state))))
      ensures old(InProtocol(Seen(state))) ==> InProtocol(Seen(state))
    {
      hide Window, LineAt, StepOf, Sound, Finished, Rule, StringGoes, Final, InProtocol, Effort;
      FinalStep(Seen(state), isLetter);
      if InProtocol(Seen(state)) {
        StepInProtocol(Seen(state), isLetter);
      }
      Step();
    }

    /** Runs the machine from just after an opening quote until it has left the string or failed. */
    method FinishString() returns (end: Option<nat>)
      requires Running() && state.Str?
      modifies this
      ensures end == Scan(input, old(start), Text)
      ensures end.Some? ==>
        && old(start) <= end.value < |input|
        && items == old(items) + [Item(ItemString, input[old(start)..end.value], LineAt(input, end.value))]
        && pos == end.value + 1 && old(stack) == Pushed(state, stack)
      ensures end.None? ==> Stopped()
    {
      end := Scan(input, start, Text);
      var before := items;
      while items == before
        invariant items == before ==>
          Running() && InString(state, stack) && start == old(start) && StringStack(state, stack) == old(stack)
        invariant items != before && end.Some? ==>
          && old(start) <= end.value < |input|
          && items == old(items) + [Item(ItemString, input[old(start)..end.value], LineAt(input, end.value))]
          && pos == end.value + 1 && old(stack) == Pushed(state, stack)
        invariant items != before && end.None? ==> Stopped()
        decreases if items == before then 1 else 0, |input| - pos, Effort(Seen(state))
      {
        hide Window, LineAt, StepOf, Sound, Finished, Rule, Scan, Effort;
        Step();
      }
    }

    /** Runs the machine until there is an item that has not been handed out. */
    method Fill()
      requires taken <= |items| && (Running() || (Stopped() && taken < |items|))
      modifies this
      ensures old(items) <= items && taken == old(taken) < |items|
      ensures (Running() || Stopped()) && End() == old(End())
      ensures old(InProtocol(Seen(state))) ==> InProtocol(Seen(state))
    {
      hide Window, LineAt, StepOf, Sound, Finished, Effort, InProtocol, Final;
      while taken == |items|
        invariant old(InProtocol(Seen(state))) ==> InProtocol(Seen(state))
        invariant old(items) <= items && taken == old(taken) <= |items|
        invariant Running() || (Stopped() && taken < |items|)
        invariant End() == old(End())
        decreases if state.Halt? then 0 else 1, |input| - pos, Effort(Seen(state))
      {
        StepOn();
      }
    }

    /** Hands out the next item of the run, having the machine send it first if need be. */
    method NextItem() returns (it: Item)
      requires taken <= |items| && (Running() || (Stopped() && taken < |items|))
      modifies this
      ensures taken == old(taken) + 1 <= |items| && old(items) <= items
      ensures (Running() || Stopped()) && End() == old(End()) && items <= End().items
      ensures it == End().items[old(taken)]
      ensures it.typ != ItemBug
      ensures it.typ == ItemString ==> WellEscaped(it.val)
      ensures it.typ == ItemMultilineString ==> MultiEscaped(it.val)
      ensures IsLast(it.typ) <==> Stopped() && taken == |items|
      ensures old(InProtocol(Seen(state))) ==> InProtocol(Seen(state)) && Consume(Types(items)[..taken]) != Stuck(false)
    {
      hide Window, LineAt, StepOf, Sound, Finished, Scan, Effort, WellEscaped, MultiEscaped, InProtocol, Final, Consume, Types;
      Fill();
      it := items[taken];
      SentSoFar(Seen(state), isLetter);
      ItemSent(Seen(state), taken);
      taken := taken + 1;
      if InProtocol(Seen(state)) {
        NeverStuck(Seen(state));
        StuckStays(Types(items), taken);
      }
    }
  }

  lemma SentSoFar(m: Machine, isLetter: LetterTest)
    requires Sound(m) || m.state.Halt?
    ensures m.items <= Final(m, isLetter).items
  {
    if m.state.Halt? {
      HaltFinal(m, isLetter);
    } else {
      RunEnds(m, isLetter);
    }
  }

  lemma ItemSent(m: Machine, k: nat)
    requires k < |m.items| && (Sound(m) || (m.state.Halt? && Finished(m.items)))
    ensures var it := m.items[k];
            && it.typ != ItemBug && (it.typ == ItemString ==> WellEscaped(it.val))
            && (it.typ == ItemMultilineString ==> MultiEscaped(it.val))
            && (IsLast(it.typ) <==> m.state.Halt? && k == |m.items| - 1)
  {
    hide WellEscaped, MultiEscaped, Scan, MultiAfter, Nested;
    ItemOf(m.items, k);
  }

  lemma QuotedAt(before: bytes, s: bytes, after: bytes)
    requires s == [] ==> after == [] || after[0] != QUOTE
    ensures var input, p, n := before + ([QUOTE] + Quoted(s) + [QUOTE]) + after, |before|, |Quoted(s)|;
            && |input| > p + 1 + n && input[p] == QUOTE && !ThreeQuotes(input, p, QUOTE)
            && input[p + 1..p + 1 + n] == Quoted(s)
            && Scan(input, p + 1, Text) == if 0 in s then None else Some(p + 1 + n)
  {
    hide Quoted, Scan;
    var input, p, body := before + ([QUOTE] + Quoted(s) + [QUOTE]) + after, |before|, Quoted(s) + [QUOTE];
    forall i | 0 <= i < |body| ensures input[p + 1 + i] == body[i] {
    }
    QuotedStart(s);
    assert input[p + 1] == body[0];
    ScanQuoted(input, p + 1, s);
  }

  /** A quote that is not the first of three opens a string on a line of its own. */
  lemma ValueMeetsQuote(m: Machine, isLetter: LetterTest)
    requires m.InBounds() && m.state.Value? && m.pos < |m.input| && m.input[m.pos] == QUOTE && !ThreeQuotes(m.input, m.pos, QUOTE)
    ensures StepOf(m, isLetter) == m.To(m.pos + 1).Ignored().Goes(Str)
  {
    hide RuneAt, WidthAt, LineAt;
    Ascii(m);
  }

  /** Lexes an encoded string as a value inside a document: what the string item carries, if there is one. */
  method LexQuoted(before: bytes, s: bytes, after: bytes, isLetter: LetterTest) returns (val: Option<bytes>)
    requires s == [] ==> after == [] || after[0] != QUOTE
    ensures val == if 0 in s then None else Some(Quoted(s))
  {
    hide Scan, Quoted, Sound, StepOf, Lexer.Stopped, Lexer.Basic, LineAt, Newlines, Kept;
    var quoted := WriteQuoted(s);
    var input := before + quoted + after;
    QuotedAt(before, s, after);
    var lx := new Lexer.BeforeValue(input, |before|, isLetter);
    ValueMeetsQuote(lx.Seen(Value), isLetter);
    lx.Step();
    var end := lx.FinishString();
    if end.None? {
      return None;
    }
    val := Some(lx.items[|lx.items| - 1].val);
  }

  /**
   Encodes s, lexes the result as a value inside a document and undoes the escapes:
   this gives s back exactly for UTF-8 text without NUL bytes.
   */
  method EncodeThenParse(before: bytes, s: bytes, after: bytes, isLetter: LetterTest) returns (r: Option<bytes>)
    requires s == [] ==> after == [] || after[0] != QUOTE
    ensures r == Some(s) <==> 0 !in s && Utf8.Valid(s)
  {
    hide Utf8.Decode, Utf8.Valid, Utf8.EncodeAll, Unescape, Quoted, Complete;
    var val := LexQuoted(before, s, after, isLetter);
    if val.None? {
      return None;
    }
    var u := ReplaceEscapes(val.value);
    UnescapeQuoted(s);
    r := Some(Utf8.EncodeAll(u.rs));
  }

  /**
   Every item of a whole run, up to the end or the first error. Booleans and integers are such. The parser's token loops that consume them
   never meet an item they have no case for, except a comment opened directly in an inline table; and a document
   that ends before its input does ends at a NUL byte behind a top-level item.
   */
  method LexAll(input: bytes, isLetter: LetterTest) returns (items: seq<Item>)
    ensures Sound(Start(input)) && items == Final(Start(input), isLetter).items
    ensures Finished(items) && TomlNumbers.AllFine(items)
    ensures Consume(Types(items)) ==
            if AnyInlineComment(Types(items)) then Stuck(true)
            else if items[|items| - 1].typ.ItemEOF? then Ended else Refused
    ensures items[|items| - 1].typ.ItemEOF? ==>
      var end := Last(Start(input), isLetter);
      && end.pos <= |input| && 0 !in input[..end.pos]
      && (end.pos < |input| <==> end.state.TopEnd? && 0 in input)
      && (end.pos < |input| ==> input[end.pos] == 0)
  {
    hide StepOf, Sound, Finished, Effort, Final, Last, AnyInlineComment, Consume, Types, InProtocol, TomlNumbers.AllFine;
    var lx := new Lexer(input, isLetter);
    while !lx.state.Halt?
      invariant fresh(lx) && lx.input == input && lx.isLetter == isLetter
      invariant if lx.state.Halt? then lx.Stopped() else lx.Running()
      invariant lx.End() == Final(Start(input), isLetter)
      decreases if lx.state.Halt? then 0 else 1, |input| - lx.pos, Effort(lx.Seen(lx.state))
    {
      lx.StepOn();
    }
    items := lx.items;
    HaltFinal(lx.Seen(lx.state), isLetter);
    RunAgrees(input, isLetter);
    RunEndsAt(input, isLetter);
    TomlNumbers.TextsAreFine(input, isLetter);
  }
}
