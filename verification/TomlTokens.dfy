/**
 The token protocol between the TOML lexer and the TOML parser.

 The lexer's states send items; the parser's calls consume them, and a call that
 gets an item it has no case for panics with "BUG". `Rule` says what each lexer
 state may send and where it may go, `Feed` what the parser's pending calls do
 with an item, and `RuleKeeps` that the two stay in step.
 */
module TomlTokens {
  import opened TomlStrings
  import opened Wrappers

  datatype State =
    | Top | TopEnd | TableStart | TableEnd | ArrayTableEnd | TableNameStart | BareTableName | TableNameEnd
    | KeyStart | BareKey | KeyEnd | Value
    | ArrayValue | ArrayValueEnd | ArrayEnd | InlineTableValue | InlineTableValueEnd | InlineTableEnd
    | Str | MultilineStr | RawStr | MultilineRawStr | MultilineStrEscape
    | StrEscape | ShortUnicodeEscape | LongUnicodeEscape
    | NumberOrDateStart | NumberOrDate | Datetime | NumberStart | Number | Float | Bool
    | CommentStart | Comment
    | Skip(next: State)
    | Halt

  datatype ItemType =
    | ItemError | ItemBug | ItemEOF | ItemText
    | ItemString | ItemRawString | ItemMultilineString | ItemRawMultilineString
    | ItemBool | ItemInteger | ItemFloat | ItemDatetime
    | ItemArray | ItemArrayEnd | ItemTableStart | ItemTableEnd | ItemArrayTableStart | ItemArrayTableEnd
    | ItemKeyStart | ItemCommentStart | ItemInlineTableStart | ItemInlineTableEnd

  /** The states to return to, innermost first. */
  datatype Stack = NoState | Pushed(top: State, below: Stack)

  /** The state a pending skip leads to. */
  function SkipsTo(s: State): State {
    if s.Skip? then s.next else Halt
  }

  predicate InEscape(s: State) {
    s.StrEscape? || s.ShortUnicodeEscape? || s.LongUnicodeEscape?
  }

  predicate IsStringState(s: State) {
    s.Str? || s.MultilineStr? || s.RawStr? || s.MultilineRawStr?
  }

  // ---------------------------------------------------------------- runes

  const HASH: int := 0x23
  const COMMA: int := 0x2C
  const EQUALS: int := 0x3D
  const DOT: int := 0x2E
  const MINUS: int := 0x2D
  const UNDERSCORE: int := 0x5F
  const LEFT_BRACKET: int := 0x5B
  const RIGHT_BRACKET: int := 0x5D
  const LEFT_BRACE: int := 0x7B
  const RIGHT_BRACE: int := 0x7D
  const SINGLE_QUOTE: int := 0x27

  predicate IsWhitespace(r: int) { r == 0x09 || r == 0x20 }

  predicate IsNL(r: int) { r == 0x0A || r == 0x0D }

  predicate IsBlank(r: int) { IsWhitespace(r) || IsNL(r) }

  predicate IsDigit(r: int) { 0x30 <= r <= 0x39 }

  predicate IsQuote(r: int) { r == QUOTE || r == SINGLE_QUOTE }

  predicate IsSign(r: int) { r == 0x2B || r == MINUS }

  predicate IsExponent(r: int) { r == 0x65 || r == 0x45 }

  predicate IsDatePart(r: int) {
    IsDigit(r) || r == MINUS || r == 0x54 || r == 0x3A || r == DOT || r == 0x5A || r == 0x2B
  }

  predicate IsFloatPart(r: int) {
    IsDigit(r) || r == UNDERSCORE || r == DOT || IsSign(r) || IsExponent(r)
  }

  predicate IsBareKeyChar(r: int) {
    0x41 <= r <= 0x5A || 0x61 <= r <= 0x7A || IsDigit(r) || r == UNDERSCORE || r == MINUS
  }

  // ---------------------------------------------------------------- what the lexer's states do

  /**
   What state s may send, where it may go and what it may leave on the stack, by the next rune of the input
   (0 at its end); `later` is the rune that is next afterwards.
   */
  predicate Rule(s: State, stack: Stack, rune: int, sent: Option<ItemType>, next: State, after: Stack, later: int) {
    if next.Halt? then
      sent.Some? && ((sent.value.ItemError? && Fails(s, rune)) || (sent.value.ItemEOF? && (s.Top? || s.TopEnd?) && rune == 0))
    else if sent.None? then
      || (after == stack && Moves(s, rune, next))
      || (stack == Pushed(next, after) && ReturnsSilently(s, rune))
      || (after.Pushed? && after.below == stack && Calls(s, rune, next, after.top, later))
    else
      || (after == stack && Announces(s, rune, sent.value, next))
      || (stack == Pushed(next, after) && Delivers(s, rune, sent.value))
      || (after.Pushed? && after.below == stack && AnnouncesAndCalls(s, rune, sent.value, next, after.top, later))
  }

  /** The input may be refused. What follows whitespace or a first rune is not told apart. */
  predicate Fails(s: State, r: int) {
    match s
    case Top => r == 0
    case TopEnd => !IsBlank(r) && r != HASH && r != 0
    case ArrayTableEnd => r != RIGHT_BRACKET
    case TableNameStart | TableNameEnd => true
    case KeyStart => r == EQUALS
    case BareKey => !IsBareKeyChar(r) && !IsWhitespace(r) && r != EQUALS
    case KeyEnd => !IsWhitespace(r) && r != EQUALS
    case Value => !IsWhitespace(r) && !IsDigit(r) && !IsQuote(r) && !IsSign(r) && r != LEFT_BRACKET && r != LEFT_BRACE
    case ArrayValue => r == COMMA
    case ArrayValueEnd => !IsBlank(r) && r != HASH && r != COMMA && r != RIGHT_BRACKET
    case InlineTableValue => IsNL(r) || r == COMMA
    case InlineTableValueEnd => !IsWhitespace(r) && r != HASH && r != COMMA && r != RIGHT_BRACE
    case Str | RawStr => IsNL(r) || r == 0
    case MultilineStr | MultilineRawStr => r == 0
    case MultilineStrEscape => !IsNL(r) && SimpleEscape(r) < 0 && r != LOWER_U && r != UPPER_U
    case StrEscape => SimpleEscape(r) < 0 && r != LOWER_U && r != UPPER_U
    case ShortUnicodeEscape | LongUnicodeEscape => true
    case NumberOrDateStart => !IsDigit(r) && r != UNDERSCORE && !IsExponent(r)
    case NumberStart => !IsDigit(r)
    case Bool => true
    case _ => false
  }

  /** Nothing sent, the stack as it was. */
  predicate Moves(s: State, r: int, next: State) {
    match s
    case Skip(target) => next == target
    case Top => (SkipsTo(next).Top? && IsBlank(r)) || (next.TableStart? && r == LEFT_BRACKET)
    case TopEnd => (next.TopEnd? && IsWhitespace(r)) || (next.Top? && IsNL(r))
    case TableNameStart => next.BareTableName?
    case BareTableName => next.BareTableName? && IsBareKeyChar(r)
    case TableNameEnd => next.TableNameEnd? || next.TableNameStart?
    case KeyStart => SkipsTo(next).KeyStart? && IsBlank(r)
    case BareKey => next.BareKey? && IsBareKeyChar(r)
    case KeyEnd => (SkipsTo(next).Value? && r == EQUALS) || (SkipsTo(next).KeyEnd? && IsWhitespace(r))
    case Value =>
      || ((next.Str? || next.MultilineStr?) && r == QUOTE) || ((next.RawStr? || next.MultilineRawStr?) && r == SINGLE_QUOTE)
      || (SkipsTo(next).Value? && IsWhitespace(r)) || (next.NumberOrDateStart? && IsDigit(r)) || (next.NumberStart? && IsSign(r))
      || (next.Bool? && Fails(Value, r))
    case ArrayValue => (SkipsTo(next).ArrayValue? && IsBlank(r)) || (next.ArrayEnd? && r == RIGHT_BRACKET)
    case ArrayValueEnd =>
      || (SkipsTo(next).ArrayValueEnd? && IsBlank(r)) || (next.ArrayValue? && r == COMMA) || (next.ArrayEnd? && r == RIGHT_BRACKET)
    case InlineTableValue => (SkipsTo(next).InlineTableValue? && IsWhitespace(r)) || (next.InlineTableEnd? && r == RIGHT_BRACE)
    case InlineTableValueEnd =>
      || (SkipsTo(next).InlineTableValueEnd? && IsWhitespace(r)) || (next.InlineTableValue? && r == COMMA)
      || (next.InlineTableEnd? && r == RIGHT_BRACE)
    case Str => next.Str? && !IsNL(r) && r != 0 && r != BACKSLASH && r != QUOTE
    case MultilineStr => (next.MultilineStr? && r != 0 && r != BACKSLASH) || (next.MultilineStrEscape? && r == BACKSLASH)
    case RawStr => next.RawStr? && !IsNL(r) && r != 0 && r != SINGLE_QUOTE
    case MultilineRawStr => next.MultilineRawStr? && r != 0
    case MultilineStrEscape => next.MultilineStr? && (IsNL(r) || SimpleEscape(r) >= 0)
    case StrEscape => (next.ShortUnicodeEscape? && r == LOWER_U) || (next.LongUnicodeEscape? && r == UPPER_U)
    case NumberOrDateStart =>
      (next.NumberOrDate? && IsDigit(r)) || (next.Number? && r == UNDERSCORE) || (next.Float? && IsExponent(r))
    case NumberOrDate =>
      || (next.NumberOrDate? && IsDigit(r)) || (next.Datetime? && r == MINUS) || (next.Number? && r == UNDERSCORE)
      || (next.Float? && (r == DOT || IsExponent(r)))
    case Datetime => next.Datetime? && IsDatePart(r)
    case NumberStart => next.Number? && IsDigit(r)
    case Number => (next.Number? && (IsDigit(r) || r == UNDERSCORE)) || (next.Float? && (r == DOT || IsExponent(r)))
    case Float => next.Float? && IsFloatPart(r)
    case Comment => next.Comment? && !IsNL(r) && r != 0
    case _ => false
  }

  /** Nothing sent, one state pushed to return to. */
  predicate Calls(s: State, r: int, next: State, pushed: State, later: int) {
    match s
    case Top =>
      || (next.CommentStart? && pushed.Top? && r == HASH)
      || (next.KeyStart? && pushed.TopEnd? && !IsBlank(r) && r != HASH && r != LEFT_BRACKET && r != 0)
    case TopEnd => next.CommentStart? && pushed.Top? && r == HASH
    case TableNameStart => next.Value? && pushed.TableNameEnd? && IsQuote(later)
    case ArrayValue =>
      || (next.CommentStart? && pushed.ArrayValue? && r == HASH)
      || (next.Value? && pushed.ArrayValueEnd? && !IsBlank(r) && r != HASH && r != COMMA && r != RIGHT_BRACKET)
    case ArrayValueEnd => next.CommentStart? && pushed.ArrayValueEnd? && r == HASH
    case InlineTableValue =>
      || (next.CommentStart? && pushed.InlineTableValue? && r == HASH)
      || (next.KeyStart? && pushed.InlineTableValueEnd? && !IsBlank(r) && r != HASH && r != COMMA && r != RIGHT_BRACE)
    case InlineTableValueEnd => next.CommentStart? && pushed.InlineTableValueEnd? && r == HASH
    case Str => next.StrEscape? && pushed.Str? && r == BACKSLASH
    case MultilineStrEscape =>
      pushed.MultilineStr? && ((next.ShortUnicodeEscape? && r == LOWER_U) || (next.LongUnicodeEscape? && r == UPPER_U))
    case _ => false
  }

  /** Nothing sent, back to the state on top of the stack. */
  predicate ReturnsSilently(s: State, r: int) {
    s.TableNameEnd? || (s.StrEscape? && SimpleEscape(r) >= 0) || s.ShortUnicodeEscape? || s.LongUnicodeEscape?
  }

  /** One item sent, the stack as it was. */
  predicate Announces(s: State, r: int, typ: ItemType, next: State) {
    match s
    case TableEnd => typ.ItemTableEnd? && next.TopEnd?
    case ArrayTableEnd => typ.ItemArrayTableEnd? && next.TopEnd? && r == RIGHT_BRACKET
    case BareTableName => typ.ItemText? && next.TableNameEnd? && !IsBareKeyChar(r)
    case KeyStart => typ.ItemKeyStart? && next.BareKey? && !IsBlank(r) && !IsQuote(r) && r != EQUALS
    case BareKey => typ.ItemText? && next.KeyEnd? && (IsWhitespace(r) || r == EQUALS)
    case Value =>
      || (typ.ItemArray? && next.ArrayValue? && r == LEFT_BRACKET)
      || (typ.ItemInlineTableStart? && next.InlineTableValue? && r == LEFT_BRACE)
    case CommentStart => typ.ItemCommentStart? && next.Comment?
    case _ => false
  }

  /** One item sent, one state pushed to return to. */
  predicate AnnouncesAndCalls(s: State, r: int, typ: ItemType, next: State, pushed: State, later: int) {
    match s
    case TableStart =>
      next.TableNameStart? && if r == LEFT_BRACKET then typ.ItemArrayTableStart? && pushed.ArrayTableEnd?
                              else typ.ItemTableStart? && pushed.TableEnd?
    case KeyStart => typ.ItemKeyStart? && next.Value? && pushed.KeyEnd? && IsQuote(r) && IsQuote(later)
    case _ => false
  }

  /** One item sent, back to the state on top of the stack. */
  predicate Delivers(s: State, r: int, typ: ItemType) {
    match s
    case ArrayEnd => typ.ItemArrayEnd?
    case InlineTableEnd => typ.ItemInlineTableEnd?
    case Str => typ.ItemString? && r == QUOTE
    case MultilineStr => typ.ItemMultilineString? && r == QUOTE
    case RawStr => typ.ItemRawString? && r == SINGLE_QUOTE
    case MultilineRawStr => typ.ItemRawMultilineString? && r == SINGLE_QUOTE
    case NumberOrDate => typ.ItemInteger? && !IsDigit(r) && r != MINUS && r != UNDERSCORE && r != DOT && !IsExponent(r)
    case Datetime => typ.ItemDatetime? && !IsDatePart(r)
    case Number => typ.ItemInteger? && !IsDigit(r) && r != UNDERSCORE && r != DOT && !IsExponent(r)
    case Float => typ.ItemFloat? && !IsFloatPart(r)
    case Bool => typ.ItemBool?
    case Comment => typ.ItemText? && (IsNL(r) || r == 0)
    case _ => false
  }

  // ---------------------------------------------------------------- what the parser's calls do

  /** What one call of the parser is waiting for. */
  datatype Want =
    | TopItem
    | TableName(double: bool, named: bool)    // parts of a table header, one of them read or none
    | KeyName
    | AValue
    | CommentText
    | ArrayItem
    | InlineItem

  /** The parser's pending calls, innermost first, or how it ended. */
  datatype Pending =
    | Waiting(want: Want, caller: Pending)
    | Ended                                  // the whole document was read
    | Refused                                // the lexer reported an error
    | Stuck(inlineComment: bool)               // an item no case is written for

  const AtTop: Pending := Waiting(TopItem, Ended)

  predicate IsKeyItem(t: ItemType) {
    t.ItemText? || IsStringItem(t)
  }

  predicate IsStringItem(t: ItemType) {
    t.ItemString? || t.ItemMultilineString? || t.ItemRawString? || t.ItemRawMultilineString?
  }

  /** The parser's `value`, called for item t on behalf of the given caller. */
  function StartValue(caller: Pending, t: ItemType): Pending {
    if IsStringItem(t) || t.ItemBool? || t.ItemInteger? || t.ItemFloat? || t.ItemDatetime? then caller
    else if t.ItemArray? then Waiting(ArrayItem, caller)
    else if t.ItemInlineTableStart? then Waiting(InlineItem, caller)
    else Stuck(false)
  }

  /** The pending calls after one more item. */
  function Feed(p: Pending, t: ItemType): Pending {
    if !p.Waiting? then p
    else if t.ItemError? then Refused
    else
      match p.want
      case TopItem =>
        if t.ItemEOF? then Ended
        else if t.ItemCommentStart? then Waiting(CommentText, p)
        else if t.ItemTableStart? then Waiting(TableName(false, false), p)
        else if t.ItemArrayTableStart? then Waiting(TableName(true, false), p)
        else if t.ItemKeyStart? then Waiting(KeyName, Waiting(AValue, p))
        else Stuck(false)
      case TableName(double, named) =>
        if t == if double then ItemArrayTableEnd else ItemTableEnd then if named then p.caller else Stuck(false)
        else if IsKeyItem(t) then Waiting(TableName(double, true), p.caller)
        else Stuck(false)
      case KeyName => if IsKeyItem(t) then p.caller else Stuck(false)
      case AValue => StartValue(p.caller, t)
      case CommentText => if t.ItemText? then p.caller else Stuck(false)
      case ArrayItem =>
        if t.ItemArrayEnd? then p.caller
        else if t.ItemCommentStart? then Waiting(CommentText, p)
        else StartValue(p, t)
      case InlineItem =>
        if t.ItemInlineTableEnd? then p.caller
        else if t.ItemKeyStart? then Waiting(KeyName, Waiting(AValue, p))
        else Stuck(t.ItemCommentStart?)
  }

  function FeedSent(p: Pending, sent: Option<ItemType>): Pending {
    if sent.None? then p else Feed(p, sent.value)
  }

  /** The parser's pending calls after a list of items. */
  function Consume(ts: seq<ItemType>): Pending {
    if ts == [] then AtTop else Feed(Consume(ts[..|ts| - 1]), ts[|ts| - 1])
  }

  /** What a lexer state has to do with the items still owed to the parser. */
  datatype Role =
    | Outside                    // between the items at the top level
    | HeaderEnd(double: bool)    // a table header is about to be closed
    | NamePart                   // a part of a table's name comes next
    | NameEnd                    // a part of a table's name has been sent
    | PairStart                  // a key is about to be announced
    | KeyText                    // a bare key has been announced
    | Separator                  // a key has been sent
    | InArray
    | InInlineTable
    | CommentSign
    | InComment
    | Escaping
    | StringValue                // a string is being read
    | AnyValue                   // a value comes next
    | PlainValue                 // a value that is no key comes next, or is being read
    | NoRole

  function RoleOf(s: State): Role {
    match s
    case Skip(target) => if target.Value? then PlainValue else if target.Skip? then NoRole else RoleOf(target)
    case Top | TopEnd | TableStart => Outside
    case TableEnd => HeaderEnd(false)
    case ArrayTableEnd => HeaderEnd(true)
    case TableNameStart | BareTableName => NamePart
    case TableNameEnd => NameEnd
    case KeyStart => PairStart
    case BareKey => KeyText
    case KeyEnd => Separator
    case Value => AnyValue
    case ArrayValue | ArrayValueEnd | ArrayEnd => InArray
    case InlineTableValue | InlineTableValueEnd | InlineTableEnd => InInlineTable
    case Str | MultilineStr | RawStr | MultilineRawStr | MultilineStrEscape => StringValue
    case StrEscape | ShortUnicodeEscape | LongUnicodeEscape => Escaping
    case NumberOrDateStart | NumberOrDate | Datetime | NumberStart | Number | Float | Bool => PlainValue
    case CommentStart => CommentSign
    case Comment => InComment
    case Halt => NoRole
  }

  predicate AfterPair(s: State) { s.TopEnd? || s.InlineTableValueEnd? }

  predicate AfterValue(s: State) { AfterPair(s) || s.ArrayValueEnd? }

  predicate InName(s: State) { s.KeyEnd? || s.TableNameEnd? }

  predicate BesideComment(s: State) {
    s.Top? || s.ArrayValue? || s.ArrayValueEnd? || s.InlineTableValue? || s.InlineTableValueEnd?
  }

  /** The parser is collecting the name in the header that this stack will close. */
  predicate InHeader(stack: Stack, p: Pending) {
    && p.Waiting? && p.want.TableName? && p.caller == AtTop
    && stack == Pushed(if p.want.double then ArrayTableEnd else TableEnd, NoState)
  }

  /** One value is owed to the parser before the state on top of the stack resumes. */
  ghost predicate OwesValue(stack: Stack, p: Pending)
    decreases stack, 0
  {
    && stack.Pushed? && p.Waiting?
    && var top, below := stack.top, stack.below;
       if top.KeyEnd? then p.want == KeyName && Fits(Separator, below, p.caller)
       else if top.TableNameEnd? then InHeader(below, p)
       else if top.ArrayValueEnd? then p.want == ArrayItem && Fits(InArray, below, p)
       else AfterPair(top) && p.want == AValue && Fits(RoleOf(top), below, p.caller)
  }

  /** The parser, with calls p pending, wants just what a lexer state of this role will send under this stack. */
  ghost predicate Fits(role: Role, stack: Stack, p: Pending)
    decreases stack, 1
  {
    && p.Waiting?
    && if role.Outside? then stack.NoState? && p == AtTop
       else if role.HeaderEnd? then stack.NoState? && p == Waiting(TableName(role.double, true), AtTop)
       else if role.NamePart? then InHeader(stack, p)
       else if role.NameEnd? then InHeader(stack, p) && p.want.named
       else
         && stack.Pushed?
         && var top, below := stack.top, stack.below;
            match role
            case PairStart => AfterPair(top) && Fits(RoleOf(top), below, p)
            case KeyText =>
              && AfterPair(top) && p.want == KeyName
              && p.caller.Waiting? && p.caller.want == AValue && Fits(RoleOf(top), below, p.caller.caller)
            case Separator => AfterPair(top) && p.want == AValue && Fits(RoleOf(top), below, p.caller)
            case InArray => AfterValue(top) && p.want == ArrayItem && Fits(RoleOf(top), below, p.caller)
            case InInlineTable => AfterValue(top) && p.want == InlineItem && Fits(RoleOf(top), below, p.caller)
            case CommentSign => BesideComment(top) && Fits(RoleOf(top), below, p)
            case InComment => BesideComment(top) && p.want == CommentText && Fits(RoleOf(top), below, p.caller)
            case Escaping => (top.Str? || top.MultilineStr?) && Fits(StringValue, below, p)
            case StringValue => OwesValue(stack, p)
            case AnyValue => OwesValue(stack, p)
            case PlainValue => !InName(top) && OwesValue(stack, p)
            case _ => false
  }

  /** A value that must turn out to be a string, because it is a key or a part of a table's name. */
  predicate NeedsQuote(s: State, stack: Stack) {
    s.Value? && stack.Pushed? && InName(stack.top)
  }

  /** The parser still understands the lexer, or has met a comment opened directly in an inline table. */
  ghost predicate InStep(s: State, stack: Stack, rune: int, p: Pending) {
    p == Stuck(true) || (Fits(RoleOf(s), stack, p) && (NeedsQuote(s, stack) ==> IsQuote(rune)))
  }

  /** The parser stopped for the reason the last item gives, or has met such a comment. */
  predicate Over(p: Pending, last: ItemType) {
    p == Stuck(true) || p == if last.ItemEOF? then Ended else Refused
  }

  lemma RoleMoves(stack: Stack, p: Pending)
    ensures Fits(NameEnd, stack, p) ==> Fits(NamePart, stack, p)
    ensures Fits(Separator, stack, p) ==> Fits(PlainValue, stack, p)
    ensures Fits(PlainValue, stack, p) ==> Fits(AnyValue, stack, p) && !InName(stack.top)
    ensures Fits(AnyValue, stack, p) ==> Fits(StringValue, stack, p) && (!InName(stack.top) ==> Fits(PlainValue, stack, p))
  {
    hide RoleOf;
  }

  lemma RoleCalls(pushed: State, stack: Stack, p: Pending)
    ensures BesideComment(pushed) && Fits(RoleOf(pushed), stack, p) ==> Fits(CommentSign, Pushed(pushed, stack), p)
    ensures AfterPair(pushed) && Fits(RoleOf(pushed), stack, p) ==> Fits(PairStart, Pushed(pushed, stack), p)
    ensures Fits(NamePart, stack, p) ==> Fits(AnyValue, Pushed(TableNameEnd, stack), p)
    ensures Fits(InArray, stack, p) ==> Fits(AnyValue, Pushed(ArrayValueEnd, stack), p)
    ensures (pushed.Str? || pushed.MultilineStr?) && Fits(StringValue, stack, p) ==> Fits(Escaping, Pushed(pushed, stack), p)
  {
    hide RoleOf;
  }

  lemma RoleReturns(next: State, below: Stack, p: Pending)
    ensures Fits(NameEnd, Pushed(next, below), p) || Fits(Escaping, Pushed(next, below), p) ==>
              Fits(RoleOf(next), below, p) && !next.Value?
  {
  }

  lemma RoleAnnounces(stack: Stack, p: Pending)
    ensures Fits(HeaderEnd(false), stack, p) ==> Fits(Outside, stack, Feed(p, ItemTableEnd))
    ensures Fits(HeaderEnd(true), stack, p) ==> Fits(Outside, stack, Feed(p, ItemArrayTableEnd))
    ensures Fits(NamePart, stack, p) ==> Fits(NameEnd, stack, Feed(p, ItemText))
    ensures Fits(KeyText, stack, p) ==> Fits(Separator, stack, Feed(p, ItemText))
  {
    hide RoleOf;
  }

  lemma RolePair(stack: Stack, p: Pending)
    requires Fits(PairStart, stack, p)
    ensures Fits(KeyText, stack, Feed(p, ItemKeyStart))
    ensures Fits(AnyValue, Pushed(KeyEnd, stack), Feed(p, ItemKeyStart))
  {
  }

  lemma RoleOpens(stack: Stack, p: Pending)
    requires Fits(AnyValue, stack, p) && !InName(stack.top)
    ensures Fits(InArray, stack, Feed(p, ItemArray)) && Fits(InInlineTable, stack, Feed(p, ItemInlineTableStart))
  {
  }

  lemma RoleComment(stack: Stack, p: Pending)
    requires Fits(CommentSign, stack, p)
    ensures Feed(p, ItemCommentStart) == Stuck(true) || Fits(InComment, stack, Feed(p, ItemCommentStart))
  {
  }

  lemma RoleTable(stack: Stack, p: Pending)
    requires Fits(Outside, stack, p)
    ensures Fits(NamePart, Pushed(TableEnd, stack), Feed(p, ItemTableStart))
    ensures Fits(NamePart, Pushed(ArrayTableEnd, stack), Feed(p, ItemArrayTableStart))
  {
    hide RoleOf;
  }

  lemma RoleCloses(next: State, below: Stack, p: Pending)
    ensures Fits(InArray, Pushed(next, below), p) ==> Fits(RoleOf(next), below, Feed(p, ItemArrayEnd)) && !next.Value?
    ensures Fits(InInlineTable, Pushed(next, below), p) ==>
              Fits(RoleOf(next), below, Feed(p, ItemInlineTableEnd)) && !next.Value?
    ensures Fits(InComment, Pushed(next, below), p) ==> Fits(RoleOf(next), below, Feed(p, ItemText)) && !next.Value?
  {
    hide RoleOf;
  }

  lemma RoleDelivers(t: ItemType, next: State, below: Stack, p: Pending)
    requires Fits(StringValue, Pushed(next, below), p)
    requires IsStringItem(t) || (!InName(next) && (t.ItemBool? || t.ItemInteger? || t.ItemFloat? || t.ItemDatetime?))
    ensures Fits(RoleOf(next), below, Feed(p, t)) && !next.Value?
  {
  }

  lemma MovesKeeps1(s: State, stack: Stack, r: int, next: State, p: Pending)
    requires Moves(s, r, next) && Fits(RoleOf(s), stack, p)
    requires s.Top? || s.TopEnd? || s.TableNameStart? || s.BareTableName? || s.TableNameEnd? || s.KeyStart? || s.BareKey? || s.KeyEnd?
    ensures Fits(RoleOf(next), stack, p) && !next.Value? && !next.Halt?
  {
    hide Fits;
    RoleMoves(stack, p);
  }

  lemma MovesKeeps2(s: State, stack: Stack, r: int, next: State, p: Pending)
    requires Moves(s, r, next) && Fits(RoleOf(s), stack, p)
    requires s.ArrayValue? || s.ArrayValueEnd? || s.InlineTableValue? || s.InlineTableValueEnd?
    ensures Fits(RoleOf(next), stack, p) && !next.Value?
  {
    hide Fits;
  }

  lemma MovesKeepsValue(stack: Stack, r: int, next: State, p: Pending)
    requires Moves(Value, r, next) && Fits(AnyValue, stack, p) && (NeedsQuote(Value, stack) ==> IsQuote(r))
    ensures Fits(RoleOf(next), stack, p) && !next.Value?
  {
    hide Fits;
    MovesNonEmpty(stack, p);
    RoleMoves(stack, p);
  }

  lemma MovesKeeps3(s: State, stack: Stack, r: int, next: State, p: Pending)
    requires Moves(s, r, next) && Fits(RoleOf(s), stack, p)
    requires IsStringState(s) || InEscape(s) || s.MultilineStrEscape? || s.Comment?
    ensures Fits(RoleOf(next), stack, p) && !next.Value?
  {
    hide Fits, Moves, RoleOf;
    if InEscape(s) || s.MultilineStrEscape? {
      MovesInEscape(s, stack, r, next, p);
    } else {
      MovesInString(s, stack, r, next, p);
    }
  }

  lemma MovesInString(s: State, stack: Stack, r: int, next: State, p: Pending)
    requires Moves(s, r, next) && Fits(RoleOf(s), stack, p) && (IsStringState(s) || s.Comment?)
    ensures Fits(RoleOf(next), stack, p) && !next.Value?
  {
    hide Fits;
  }

  lemma MovesInEscape(s: State, stack: Stack, r: int, next: State, p: Pending)
    requires Moves(s, r, next) && Fits(RoleOf(s), stack, p) && (InEscape(s) || s.MultilineStrEscape?)
    ensures Fits(RoleOf(next), stack, p) && !next.Value?
  {
    hide Fits;
  }

  lemma MovesKeeps4(s: State, stack: Stack, r: int, next: State, p: Pending)
    requires Moves(s, r, next) && Fits(RoleOf(s), stack, p)
    requires s.NumberOrDateStart? || s.NumberOrDate? || s.Datetime? || s.NumberStart? || s.Number? || s.Float?
    ensures Fits(RoleOf(next), stack, p) && !next.Value?
  {
    hide Fits;
  }

  lemma MovesKeepsSkip(target: State, stack: Stack, p: Pending)
    requires !target.Skip? && Fits(RoleOf(Skip(target)), stack, p)
    ensures Fits(RoleOf(target), stack, p) && !NeedsQuote(target, stack)
  {
    hide Fits;
    RoleMoves(stack, p);
  }

  lemma MovesKeeps(s: State, stack: Stack, r: int, next: State, p: Pending)
    requires Moves(s, r, next) && (s.Skip? ==> !s.next.Skip?)
    requires Fits(RoleOf(s), stack, p) && (NeedsQuote(s, stack) ==> IsQuote(r))
    ensures Fits(RoleOf(next), stack, p) && !NeedsQuote(next, stack)
  {
    hide Fits, RoleOf;
    match s {
      case Skip(target) => MovesKeepsSkip(target, stack, p);
      case Value =>
        RoleOfValue();
        MovesKeepsValue(stack, r, next, p);
      case ArrayValue | ArrayValueEnd | InlineTableValue | InlineTableValueEnd =>
        MovesKeeps2(s, stack, r, next, p);
      case Str | MultilineStr | RawStr | MultilineRawStr | MultilineStrEscape | StrEscape | Comment =>
        MovesKeeps3(s, stack, r, next, p);
      case NumberOrDateStart | NumberOrDate | Datetime | NumberStart | Number | Float =>
        MovesKeeps4(s, stack, r, next, p);
      case _ => MovesKeeps1(s, stack, r, next, p);
    }
  }

  lemma CallsKeeps(s: State, stack: Stack, r: int, next: State, pushed: State, later: int, p: Pending)
    requires Calls(s, r, next, pushed, later) && Fits(RoleOf(s), stack, p)
    ensures Fits(RoleOf(next), Pushed(pushed, stack), p) && (NeedsQuote(next, Pushed(pushed, stack)) ==> IsQuote(later))
  {
    hide Fits;
    RoleCalls(pushed, stack, p);
  }

  lemma ReturnsKeeps(s: State, r: int, next: State, below: Stack, p: Pending)
    requires ReturnsSilently(s, r) && Fits(RoleOf(s), Pushed(next, below), p)
    ensures Fits(RoleOf(next), below, p) && !next.Value?
  {
    hide Fits;
    RoleReturns(next, below, p);
  }

  lemma AnnouncesKeeps(s: State, stack: Stack, r: int, typ: ItemType, next: State, p: Pending)
    requires Announces(s, r, typ, next) && Fits(RoleOf(s), stack, p) && (NeedsQuote(s, stack) ==> IsQuote(r))
    ensures (Feed(p, typ) == Stuck(true) || Fits(RoleOf(next), stack, Feed(p, typ))) && !next.Value?
  {
    hide Fits, Feed;
    RoleAnnounces(stack, p);
    if s.KeyStart? {
      RolePair(stack, p);
    } else if s.Value? {
      MovesNonEmpty(stack, p);
      RoleOpens(stack, p);
    } else if s.CommentStart? {
      RoleComment(stack, p);
    }
  }

  lemma AnnouncesAndCallsKeeps(s: State, stack: Stack, r: int, typ: ItemType, next: State, pushed: State, later: int,
                               p: Pending)
    requires AnnouncesAndCalls(s, r, typ, next, pushed, later) && Fits(RoleOf(s), stack, p)
    ensures Fits(RoleOf(next), Pushed(pushed, stack), Feed(p, typ)) && (next.Value? ==> IsQuote(later))
  {
    hide Fits, Feed;
    if s.TableStart? {
      RoleTable(stack, p);
    } else {
      RolePair(stack, p);
    }
  }

  lemma DeliversKeeps(s: State, r: int, typ: ItemType, next: State, below: Stack, p: Pending)
    requires Delivers(s, r, typ) && Fits(RoleOf(s), Pushed(next, below), p)
    ensures Fits(RoleOf(next), below, Feed(p, typ)) && !next.Value?
  {
    hide Fits, Feed;
    if s.ArrayEnd? || s.InlineTableEnd? || s.Comment? {
      RoleCloses(next, below, p);
    } else {
      RoleMoves(Pushed(next, below), p);
      RoleDelivers(typ, next, below, p);
    }
  }

  lemma RoleOfValue()
    ensures RoleOf(Value) == AnyValue
  {
  }

  lemma SilentKeeps(s: State, stack: Stack, r: int, next: State, after: Stack, later: int, p: Pending)
    requires Rule(s, stack, r, None, next, after, later) && !next.Halt? && (s.Skip? ==> !s.next.Skip?)
    requires Fits(RoleOf(s), stack, p) && (NeedsQuote(s, stack) ==> IsQuote(r))
    ensures Fits(RoleOf(next), after, p) && (NeedsQuote(next, after) ==> IsQuote(later))
  {
    hide Moves, Calls, ReturnsSilently, Announces, AnnouncesAndCalls, Delivers, Fits, Feed, RoleOf;
    if after == stack && Moves(s, r, next) {
      MovesKeeps(s, stack, r, next, p);
    } else if stack == Pushed(next, after) && ReturnsSilently(s, r) {
      ReturnsKeeps(s, r, next, after, p);
    } else {
      CallsKeeps(s, stack, r, next, after.top, later, p);
    }
  }

  lemma SendingKeeps(s: State, stack: Stack, r: int, typ: ItemType, next: State, after: Stack, later: int,
                     p: Pending)
    requires Rule(s, stack, r, Some(typ), next, after, later) && !next.Halt?
    requires Fits(RoleOf(s), stack, p) && (NeedsQuote(s, stack) ==> IsQuote(r))
    ensures Feed(p, typ) == Stuck(true) ||
            (Fits(RoleOf(next), after, Feed(p, typ)) && (NeedsQuote(next, after) ==> IsQuote(later)))
  {
    hide Moves, Calls, ReturnsSilently, Announces, AnnouncesAndCalls, Delivers, Fits, Feed, RoleOf;
    if after == stack && Announces(s, r, typ, next) {
      AnnouncesKeeps(s, stack, r, typ, next, p);
    } else if stack == Pushed(next, after) && Delivers(s, r, typ) {
      DeliversKeeps(s, r, typ, next, after, p);
    } else {
      AnnouncesAndCallsKeeps(s, stack, r, typ, next, after.top, later, p);
    }
  }

  /** Whatever a lexer state does within its rule, the parser still has a case for what comes next. */
  lemma RuleKeeps(s: State, stack: Stack, r: int, sent: Option<ItemType>, next: State, after: Stack,
                  later: int, p: Pending)
    requires Rule(s, stack, r, sent, next, after, later) && (s.Skip? ==> !s.next.Skip?)
    requires InStep(s, stack, r, p)
    ensures if next.Halt? then Over(FeedSent(p, sent), sent.value)
            else InStep(next, after, later, FeedSent(p, sent))
  {
    if p == Stuck(true) || next.Halt? {
      hide Moves, Calls, ReturnsSilently, Announces, AnnouncesAndCalls, Delivers, Fits, Feed, RoleOf;
      RuleStops(s, stack, sent, p);
    } else {
      hide Rule, Fits, Feed, RoleOf, NeedsQuote;
      if sent.None? {
        SilentKeeps(s, stack, r, next, after, later, p);
      } else {
        SendingKeeps(s, stack, r, sent.value, next, after, later, p);
      }
    }
  }

  lemma RuleStops(s: State, stack: Stack, sent: Option<ItemType>, p: Pending)
    ensures p == Stuck(true) ==> FeedSent(p, sent) == p
    ensures p.Waiting? && sent == Some(ItemError) ==> FeedSent(p, sent) == Refused
    ensures Fits(RoleOf(s), stack, p) ==> p.Waiting?
    ensures Fits(RoleOf(s), stack, p) && (s.Top? || s.TopEnd?) && sent == Some(ItemEOF) ==> FeedSent(p, sent) == Ended
  {
  }

  lemma MovesNonEmpty(stack: Stack, p: Pending)
    ensures Fits(AnyValue, stack, p) ==> stack.Pushed?
  {
  }

  /** The items that open an array or an inline table and are not closed yet, the innermost last. */
  function Open(ts: seq<ItemType>): seq<ItemType> {
    if ts == [] then [] else NowOpen(Open(ts[..|ts| - 1]), ts[|ts| - 1])
  }

  /** Neither a key, nor its value, nor a comment's text comes next. */
  predicate NothingDue(ts: seq<ItemType>) {
    && (|ts| >= 1 ==> !ts[|ts| - 1].ItemKeyStart? && !ts[|ts| - 1].ItemCommentStart?)
    && (|ts| >= 2 ==> !ts[|ts| - 2].ItemKeyStart?)
  }

  /** After these items an inline table, opened and not closed, expects its next pair or its end. */
  predicate BetweenPairs(ts: seq<ItemType>) {
    Open(ts) != [] && Open(ts)[|Open(ts)| - 1].ItemInlineTableStart? && NothingDue(ts)
  }

  /** A comment is opened directly in an inline table, between its pairs. */
  predicate CommentInInlineTable(ts: seq<ItemType>, k: nat)
    requires k < |ts|
  {
    ts[k].ItemCommentStart? && BetweenPairs(ts[..k])
  }

  /** Which call may have made another one. */
  predicate MayCall(caller: Want, want: Want) {
    match want
    case TopItem => false
    case TableName(_, _) => caller.TopItem?
    case KeyName => caller.AValue?
    case AValue => caller.TopItem? || caller.InlineItem?
    case CommentText => caller.TopItem? || caller.ArrayItem?
    case ArrayItem => caller.TopItem? || caller.ArrayItem? || caller.InlineItem?
    case InlineItem => caller.TopItem? || caller.ArrayItem? || caller.InlineItem?
  }

  /** The pending calls were all made, one by another, from the top level. */
  predicate Rooted(p: Pending) {
    p.Waiting? && (p == AtTop || (Rooted(p.caller) && MayCall(p.caller.want, p.want)))
  }

  /** The items that opened the arrays and inline tables being read. */
  function OpenedFor(p: Pending): seq<ItemType> {
    if !p.Waiting? then [] else OpenedFor(p.caller) + OpenedBy(p.want)
  }

  function OpenedBy(want: Want): seq<ItemType> {
    if want.ArrayItem? then [ItemArray] else if want.InlineItem? then [ItemInlineTableStart] else []
  }

  /** The pending calls are those that the items call for. */
  predicate Accounts(p: Pending, ts: seq<ItemType>) {
    Rooted(p) && OpenedFor(p) == Open(ts) && DueBy(p, ts)
  }

  /** A pending call that has been made as it should, for arrays and inline tables opened so. */
  predicate Stands(p: Pending, open: seq<ItemType>) {
    Rooted(p) && OpenedFor(p) == open
  }

  lemma RootedCall(want: Want, caller: Pending)
    requires Rooted(caller) && MayCall(caller.want, want)
    ensures Stands(Waiting(want, caller), OpenedFor(caller) + OpenedBy(want))
  {
  }

  lemma RootedTop(p: Pending)
    requires Rooted(p)
    ensures p.Waiting? && Stands(p, OpenedFor(p))
    ensures p.want.TopItem? ==> p == AtTop
    ensures p != AtTop ==> Rooted(p.caller) && MayCall(p.caller.want, p.want)
    ensures p != AtTop ==> Stands(p.caller, OpenedFor(p.caller))
    ensures p.want.TableName? ==> p.caller == AtTop
    ensures p == AtTop ==> OpenedFor(p) == []
    ensures p != AtTop ==> OpenedFor(p) == OpenedFor(p.caller) + OpenedBy(p.want)
  {
  }

  lemma PairRooted(p: Pending)
    requires Rooted(p) && (p.want.TopItem? || p.want.InlineItem?)
    ensures Stands(Waiting(KeyName, Waiting(AValue, p)), OpenedFor(p))
  {
    RootedCall(AValue, p);
    RootedCall(KeyName, Waiting(AValue, p));
  }

  /** The opening items still open after one more item. */
  function NowOpen(open: seq<ItemType>, t: ItemType): seq<ItemType> {
    if t.ItemArray? || t.ItemInlineTableStart? then open + [t]
    else if (t.ItemArrayEnd? || t.ItemInlineTableEnd?) && open != [] then open[..|open| - 1]
    else open
  }

  /** How the calls pending after an item come about. */
  predicate Fed(p: Pending, t: ItemType)
    requires p.Waiting?
  {
    var q := Feed(p, t);
    && (q.Waiting? ==> Stands(q, NowOpen(OpenedFor(p), t)))
    && (q == Stuck(true) <==> p.want.InlineItem? && t.ItemCommentStart?)
    && (q.Ended? ==> t.ItemEOF?)
    && (q.Refused? ==> t.ItemError?)
  }

  lemma FeedTopItem(p: Pending, t: ItemType)
    requires Rooted(p) && p.want.TopItem?
    ensures Fed(p, t)
  {
    hide Stands, Rooted, OpenedFor;
    RootedTop(p);
    RootedCall(CommentText, p);
    RootedCall(TableName(false, false), p);
    RootedCall(TableName(true, false), p);
    PairRooted(p);
    assert OpenedFor(p) + [] == OpenedFor(p);
  }

  lemma FeedTableName(p: Pending, t: ItemType)
    requires Rooted(p) && p.want.TableName?
    ensures Fed(p, t)
  {
    hide Stands, Rooted, OpenedFor;
    RootedTop(p);
    RootedCall(TableName(p.want.double, true), p.caller);
    assert OpenedFor(p.caller) + [] == OpenedFor(p.caller);
  }

  lemma FeedKeyName(p: Pending, t: ItemType)
    requires Rooted(p) && p.want.KeyName?
    ensures Fed(p, t)
  {
    hide Stands, Rooted, OpenedFor;
    RootedTop(p);
    assert OpenedFor(p.caller) + [] == OpenedFor(p.caller);
  }

  lemma FeedAValue(p: Pending, t: ItemType)
    requires Rooted(p) && p.want.AValue?
    ensures Fed(p, t)
  {
    hide Stands, Rooted, OpenedFor, Fed;
    if t.ItemArray? || t.ItemInlineTableStart? {
      FeedOpening(p, t);
    } else {
      FeedWholeValue(p, t);
    }
  }

  lemma FeedOpening(p: Pending, t: ItemType)
    requires Rooted(p) && p.want.AValue? && (t.ItemArray? || t.ItemInlineTableStart?)
    ensures Fed(p, t)
  {
    hide Stands, Rooted, OpenedFor;
    RootedTop(p);
    assert OpenedFor(p.caller) + [] == OpenedFor(p.caller);
    RootedCall(if t.ItemArray? then ArrayItem else InlineItem, p.caller);
  }

  lemma FeedWholeValue(p: Pending, t: ItemType)
    requires Rooted(p) && p.want.AValue? && !t.ItemArray? && !t.ItemInlineTableStart?
    ensures Fed(p, t)
  {
    hide Stands, Rooted, OpenedFor;
    RootedTop(p);
    assert OpenedFor(p.caller) + [] == OpenedFor(p.caller);
  }

  lemma FeedCommentText(p: Pending, t: ItemType)
    requires Rooted(p) && p.want.CommentText?
    ensures Fed(p, t)
  {
    hide Stands, Rooted, OpenedFor;
    RootedTop(p);
    assert OpenedFor(p.caller) + [] == OpenedFor(p.caller);
  }

  lemma FeedArrayItem(p: Pending, t: ItemType)
    requires Rooted(p) && p.want.ArrayItem?
    ensures Fed(p, t)
  {
    hide Stands, Rooted, OpenedFor;
    RootedTop(p);
    assert OpenedFor(p)[..|OpenedFor(p)| - 1] == OpenedFor(p.caller) && OpenedFor(p) + [] == OpenedFor(p);
    RootedCall(CommentText, p);
    RootedCall(ArrayItem, p);
    RootedCall(InlineItem, p);
  }

  lemma FeedInlineItem(p: Pending, t: ItemType)
    requires Rooted(p) && p.want.InlineItem?
    ensures Fed(p, t)
  {
    hide Stands, Rooted, OpenedFor, Fed;
    if t.ItemInlineTableEnd? {
      FeedInlineEnd(p, t);
    } else {
      FeedInlineRest(p, t);
    }
  }

  lemma FeedInlineEnd(p: Pending, t: ItemType)
    requires Rooted(p) && p.want.InlineItem? && t.ItemInlineTableEnd?
    ensures Fed(p, t)
  {
    hide Stands, Rooted, OpenedFor;
    RootedTop(p);
    assert OpenedFor(p)[..|OpenedFor(p)| - 1] == OpenedFor(p.caller);
  }

  lemma FeedInlineRest(p: Pending, t: ItemType)
    requires Rooted(p) && p.want.InlineItem? && !t.ItemInlineTableEnd?
    ensures Fed(p, t)
  {
    hide Stands, Rooted, OpenedFor;
    RootedTop(p);
    assert OpenedFor(p) + [] == OpenedFor(p);
    PairRooted(p);
  }

  lemma FeedRooted(p: Pending, t: ItemType)
    requires Rooted(p)
    ensures Fed(p, t)
  {
    hide Rooted, Fed;
    RootedTop(p);
    match p.want {
      case TopItem => FeedTopItem(p, t);
      case TableName(_, _) => FeedTableName(p, t);
      case KeyName => FeedKeyName(p, t);
      case AValue => FeedAValue(p, t);
      case CommentText => FeedCommentText(p, t);
      case ArrayItem => FeedArrayItem(p, t);
      case InlineItem => FeedInlineItem(p, t);
    }
  }

  /** What the parser waits for, by the last two items. */
  predicate DueBy(p: Pending, ts: seq<ItemType>) {
    && p.Waiting?
    && (p.want.KeyName? <==> |ts| >= 1 && ts[|ts| - 1].ItemKeyStart?)
    && (p.want.AValue? <==> |ts| >= 2 && ts[|ts| - 2].ItemKeyStart?)
    && (p.want.CommentText? <==> |ts| >= 1 && ts[|ts| - 1].ItemCommentStart?)
  }

  /** A key, its value or a comment's text is due for one reason only. */
  lemma WantAfter(p: Pending, t: ItemType)
    requires Rooted(p) && Feed(p, t).Waiting?
    ensures var want := Feed(p, t).want;
            && (want.KeyName? <==> t.ItemKeyStart?)
            && (want.AValue? <==> p.want.KeyName?)
            && (want.CommentText? <==> t.ItemCommentStart?)
  {
    hide Rooted, OpenedFor, Stands;
    RootedTop(p);
  }

  lemma FeedDue(p: Pending, ts: seq<ItemType>, t: ItemType)
    requires Rooted(p) && DueBy(p, ts) && Feed(p, t).Waiting?
    ensures DueBy(Feed(p, t), ts + [t])
  {
    hide Rooted, Feed;
    WantAfter(p, t);
    var more := ts + [t];
    assert more[|more| - 1] == t && (|ts| >= 1 ==> more[|more| - 2] == ts[|ts| - 1]);
  }

  lemma FeedAccounts(p: Pending, ts: seq<ItemType>, t: ItemType)
    requires Accounts(p, ts) && Feed(p, t).Waiting?
    ensures Accounts(Feed(p, t), ts + [t])
  {
    hide Rooted, OpenedFor, DueBy, Feed;
    FeedRooted(p, t);
    FeedDue(p, ts, t);
    assert (ts + [t])[..|ts|] == ts;
  }

  /** An inline table expects its next pair exactly when the items say so. */
  lemma InlineAccounts(p: Pending, ts: seq<ItemType>)
    requires Accounts(p, ts)
    ensures p.want.InlineItem? <==> BetweenPairs(ts)
  {
    hide Rooted, OpenedFor, Open;
    RootedTop(p);
    if p != AtTop {
      RootedTop(p.caller);
    }
  }

  /** No item but the last ends the run. */
  predicate Runs(ts: seq<ItemType>) {
    forall k :: 0 <= k < |ts| - 1 ==> !ts[k].ItemError? && !ts[k].ItemEOF?
  }

  lemma {:induction false} ConsumeAccounts(ts: seq<ItemType>)
    requires Runs(ts) && Consume(ts) != Stuck(false)
    ensures Consume(ts).Waiting? ==> Accounts(Consume(ts), ts)
    ensures Consume(ts).Ended? || Consume(ts).Refused? ==> ts != [] && (ts[|ts| - 1].ItemEOF? || ts[|ts| - 1].ItemError?)
    decreases |ts|
  {
    hide Accounts, Rooted, Feed;
    if ts == [] {
      NothingYet();
    } else {
      var before, t := ts[..|ts| - 1], ts[|ts| - 1];
      assert before + [t] == ts;
      FeedStuck(Consume(before), t);
      ConsumeAccounts(before);
      if Consume(before).Waiting? {
        AccountsRooted(Consume(before), before);
        FeedRooted(Consume(before), t);
        if Feed(Consume(before), t).Waiting? {
          FeedAccounts(Consume(before), before, t);
        }
      } else {
        FeedOver(Consume(before), t);
      }
    }
  }

  lemma FeedOver(p: Pending, t: ItemType)
    requires !p.Waiting?
    ensures Feed(p, t) == p
  {
  }

  lemma NothingYet()
    ensures Accounts(Consume([]), [])
  {
  }

  predicate AnyInlineComment(ts: seq<ItemType>) {
    exists k :: 0 <= k < |ts| && CommentInInlineTable(ts, k)
  }

  lemma OneMoreComment(ts: seq<ItemType>)
    requires ts != []
    ensures AnyInlineComment(ts) <==> AnyInlineComment(ts[..|ts| - 1]) || CommentInInlineTable(ts, |ts| - 1)
  {
    hide BetweenPairs;
    var before := ts[..|ts| - 1];
    assert forall k :: 0 <= k < |before| ==> before[..k] == ts[..k];
    assert forall k :: 0 <= k < |before| ==> CommentInInlineTable(ts, k) == CommentInInlineTable(before, k);
    if AnyInlineComment(before) {
      var k :| 0 <= k < |before| && CommentInInlineTable(before, k);
      assert CommentInInlineTable(ts, k);
    }
  }

  /**
   For the items of a run, which are never Stuck(false): the parser runs into the BUG of its inline-table loop exactly when a
   comment is opened directly in an inline table, as the items themselves show.
   */
  lemma {:induction false} StuckIsInlineComment(ts: seq<ItemType>)
    requires Runs(ts) && Consume(ts) != Stuck(false)
    ensures Consume(ts) == Stuck(true) <==> AnyInlineComment(ts)
    decreases |ts|
  {
    hide BetweenPairs, Accounts, Feed, AnyInlineComment, Rooted;
    if ts == [] {
      NoComment();
    } else {
      var n := |ts| - 1;
      var before := ts[..n];
      OneMoreComment(ts);
      FeedStuck(Consume(before), ts[n]);
      StuckIsInlineComment(before);
      ConsumeAccounts(before);
      if Consume(before).Waiting? {
        InlineAccounts(Consume(before), before);
        AccountsRooted(Consume(before), before);
        FeedRooted(Consume(before), ts[n]);
      } else {
        FeedOver(Consume(before), ts[n]);
      }
    }
  }

  lemma NoComment()
    ensures !AnyInlineComment([])
  {
  }

  lemma AccountsRooted(p: Pending, ts: seq<ItemType>)
    requires Accounts(p, ts)
    ensures Rooted(p)
  {
  }

  lemma FeedStuck(p: Pending, t: ItemType)
    ensures p == Stuck(false) ==> Feed(p, t) == Stuck(false)
    ensures p == Stuck(true) ==> Feed(p, t) == Stuck(true)
  {
  }

  /** Once the parser has panicked it stays so: what holds of the whole run holds of every part of it. */
  lemma {:induction false} StuckStays(ts: seq<ItemType>, k: nat)
    requires k <= |ts| && Consume(ts) != Stuck(false)
    ensures Consume(ts[..k]) != Stuck(false)
    decreases |ts|
  {
    if k == |ts| {
      assert ts[..k] == ts;
    } else {
      StuckStays(ts[..|ts| - 1], k);
      assert ts[..|ts| - 1][..k] == ts[..k];
    }
  }
}
