/**
 Data source names: user:password@net(addr)/dbname?param=value&..., printed from a configuration and
 parsed back. A string holds one character for every byte.
 */
module MySqlDsn {
  import Bytes
  import MySqlLenEnc
  import opened Strings
  import opened Wrappers

  const DEFAULT_COLLATION: string := "utf8_general_ci"
  const DEFAULT_MAX_ALLOWED_PACKET: int := 0x40_0000
  const MAX_INT: int := 0x7fff_ffff_ffff_ffff

  type Location = nat

  const UTC: Location := 0

  type Duration = int

  // Standard library functions and registries the driver consults.
  datatype Env = Env(
    locationName: Location -> string,
    loadLocation: string -> Option<Location>,
    durationText: Duration -> string,
    parseDuration: string -> Option<Duration>,
    tlsNames: set<string>,
    ensureHavePort: string -> string,
    lower: string -> string,
    unsafeCollations: set<string>)

  datatype Config = Config(
    user: string,
    passwd: string,
    net: string,
    addr: string,
    dbName: string,
    params: Option<map<string, string>>,
    collation: string,
    loc: Option<Location>,
    maxAllowedPacket: int,
    tlsConfig: string,
    timeout: Duration,
    readTimeout: Duration,
    writeTimeout: Duration,
    allowAllFiles: bool,
    allowCleartextPasswords: bool,
    allowNativePasswords: bool,
    allowOldPasswords: bool,
    clientFoundRows: bool,
    columnsWithAlias: bool,
    interpolateParams: bool,
    multiStatements: bool,
    parseTime: bool,
    rejectReadOnly: bool)

  datatype Error =
    | Unescaped | BadAddress | NoSlash | UnsafeCollation | UnknownNetwork
    | BadBool | BadEscape | BadLocation | BadDuration | BadNumber | BadTls | Compression | StrictPanic

  datatype Result<+T> = Ok(value: T) | Err(error: Error)

  const NEW_CONFIG: Config := Config(
    "", "", "", "", "", None, DEFAULT_COLLATION, Some(UTC), DEFAULT_MAX_ALLOWED_PACKET, "", 0, 0, 0,
    false, false, true, false, false, false, false, false, false, false)

  // ---------------------------------------------------------------- escaping values

  predicate IsBytes(s: string) {
    forall i :: 0 <= i < |s| ==> s[i] as int < 256
  }

  predicate Unreserved(c: char) {
    'a' <= c <= 'z' || 'A' <= c <= 'Z' || '0' <= c <= '9' || c == '-' || c == '_' || c == '.' || c == '~'
  }

  function HexDigit(n: nat): char
    requires n < 16
  {
    if n < 10 then ('0' as int + n) as char else ('A' as int + n - 10) as char
  }

  function HexValue(c: char): Option<nat> {
    if '0' <= c <= '9' then Some(c as int - '0' as int)
    else if 'a' <= c <= 'f' then Some(c as int - 'a' as int + 10)
    else if 'A' <= c <= 'F' then Some(c as int - 'A' as int + 10)
    else None
  }

  function EscapeChar(c: char): (e: string)
    requires c as int < 256
    ensures |e| > 0
  {
    if Unreserved(c) then [c]
    else if c == ' ' then "+"
    else ['%', HexDigit(c as int / 16), HexDigit(c as int % 16)]
  }

  /** Percent-encoding (section 2.1 of RFC 3986), with + for space. */
  function QueryEscape(s: string): string
    requires IsBytes(s)
  {
    if s == [] then [] else EscapeChar(s[0]) + QueryEscape(s[1..])
  }

  function QueryUnescape(s: string): Option<string> {
    if s == [] then Some([])
    else if s[0] == '%' then
      if |s| < 3 || HexValue(s[1]).None? || HexValue(s[2]).None? then None
      else
        var rest := QueryUnescape(s[3..]);
        if rest.None? then None else Some([(HexValue(s[1]).value * 16 + HexValue(s[2]).value) as char] + rest.value)
    else
      var rest := QueryUnescape(s[1..]);
      if rest.None? then None else Some([if s[0] == '+' then ' ' else s[0]] + rest.value)
  }

  predicate NoSeparators(s: string) {
    '=' !in s && '&' !in s && '/' !in s
  }

  lemma UnescapeChar(c: char, tail: string)
    requires c as int < 256
    ensures NoSeparators(EscapeChar(c))
    ensures QueryUnescape(EscapeChar(c) + tail) ==
            var rest := QueryUnescape(tail); if rest.None? then None else Some([c] + rest.value)
  {
    var e, n := EscapeChar(c), c as int;
    assert (e + tail)[|e|..] == tail;
    if |e| == 3 {
      HexRoundTrip(n / 16);
      HexRoundTrip(n % 16);
    }
  }

  /** Every byte string survives, and its escaped form holds none of the separators of a DSN. */
  lemma {:induction false} EscapeRoundTrip(s: string)
    requires IsBytes(s)
    ensures QueryUnescape(QueryEscape(s)) == Some(s) && NoSeparators(QueryEscape(s))
  {
    hide EscapeChar;
    if s != [] {
      hide QueryUnescape;
      EscapeRoundTrip(s[1..]);
      UnescapeChar(s[0], QueryEscape(s[1..]));
      assert [s[0]] + s[1..] == s;
    }
  }

  lemma HexRoundTrip(n: nat)
    requires n < 16
    ensures HexValue(HexDigit(n)) == Some(n)
    ensures var c := HexDigit(n); c != '/' && c != '&' && c != '=' && c != '?' && c != '@'
  {
  }

  // ---------------------------------------------------------------- numbers and truth values

  function AsChar(b: Bytes.byte): (c: char)
    ensures 0x30 <= b <= 0x39 ==> '0' <= c <= '9' && c as int - '0' as int == b - 0x30
  {
    b as char
  }

  function AsText(b: Bytes.bytes): (s: string)
    ensures |s| == |b| && forall i :: 0 <= i < |s| ==> s[i] == AsChar(b[i])
  {
    seq(|b|, i requires 0 <= i < |b| => AsChar(b[i]))
  }

  lemma OnlyDigits(n: nat)
    ensures forall c :: c in AsText(MySqlLenEnc.Decimal(n)) ==> '0' <= c <= '9'
  {
    var d := MySqlLenEnc.Decimal(n);
    forall i | 0 <= i < |d|
      ensures '0' <= AsText(d)[i] <= '9'
    {
      assert d[i] in d;
    }
  }

  /** The digits that the driver's own printer writes as bytes. */
  function Digits(n: nat): (s: string)
    ensures s != [] && forall c :: c in s ==> '0' <= c <= '9'
  {
    OnlyDigits(n);
    AsText(MySqlLenEnc.Decimal(n))
  }

  function Itoa(n: int): string {
    if n < 0 then "-" + Digits(-n) else Digits(n)
  }

  function DigitsValue(s: string): Option<nat> {
    if s == [] then Some(0)
    else
      var c, front := s[|s| - 1], DigitsValue(s[..|s| - 1]);
      if front.None? || !('0' <= c <= '9') then None else Some(10 * front.value + c as int - '0' as int)
  }

  /** Reads a signed 64-bit decimal. */
  function Atoi(s: string): Option<int> {
    var negative := s != [] && s[0] == '-';
    var digits := if s != [] && (s[0] == '-' || s[0] == '+') then s[1..] else s;
    if digits == [] then None
    else
      match DigitsValue(digits)
      case None => None
      case Some(n) =>
        if negative then if n > MAX_INT + 1 then None else Some(-(n as int))
        else if n > MAX_INT then None
        else Some(n)
  }

  lemma {:induction false} DigitsRoundTrip(n: nat)
    ensures DigitsValue(Digits(n)) == Some(n)
  {
    var last := |Digits(n)| - 1;
    if n >= 10 {
      DigitsRoundTrip(n / 10);
      assert Digits(n)[..last] == Digits(n / 10);
    } else {
      assert Digits(n)[..last] == [];
    }
  }

  lemma AtoiRoundTrip(n: int)
    requires -MAX_INT - 1 <= n <= MAX_INT
    ensures Atoi(Itoa(n)) == Some(n)
    ensures forall c :: c in Itoa(n) ==> c != '/' && c != '&'
  {
    hide Digits, DigitsValue;
    DigitsRoundTrip(if n < 0 then -n else n);
    if n < 0 {
      assert Itoa(n)[1..] == Digits(-n);
    } else {
      assert Digits(n)[0] in Digits(n);
    }
  }

  function ReadBool(s: string): Option<bool> {
    if s == "1" || s == "true" || s == "TRUE" || s == "True" then Some(true)
    else if s == "0" || s == "false" || s == "FALSE" || s == "False" then Some(false)
    else None
  }

  // ---------------------------------------------------------------- parameters

  datatype Key =
    | AllowAllFiles | AllowCleartextPasswords | AllowNativePasswords | AllowOldPasswords | ClientFoundRows
    | Collation | ColumnsWithAlias | Compress | InterpolateParams | Loc | MultiStatements | ParseTime | ReadTimeout
    | RejectReadOnly | Strict | Timeout | Tls | WriteTimeout | MaxAllowedPacket
    | Other(name: string)

  function NameOf(k: Key): string {
    match k
    case AllowAllFiles => "allowAllFiles"
    case AllowCleartextPasswords => "allowCleartextPasswords"
    case AllowNativePasswords => "allowNativePasswords"
    case AllowOldPasswords => "allowOldPasswords"
    case ClientFoundRows => "clientFoundRows"
    case Collation => "collation"
    case ColumnsWithAlias => "columnsWithAlias"
    case Compress => "compress"
    case InterpolateParams => "interpolateParams"
    case Loc => "loc"
    case MultiStatements => "multiStatements"
    case ParseTime => "parseTime"
    case ReadTimeout => "readTimeout"
    case RejectReadOnly => "rejectReadOnly"
    case Strict => "strict"
    case Timeout => "timeout"
    case Tls => "tls"
    case WriteTimeout => "writeTimeout"
    case MaxAllowedPacket => "maxAllowedPacket"
    case Other(name) => name
  }

  function KeyOf(name: string): Key {
    if name == "allowAllFiles" then AllowAllFiles
    else if name == "allowCleartextPasswords" then AllowCleartextPasswords
    else if name == "allowNativePasswords" then AllowNativePasswords
    else if name == "allowOldPasswords" then AllowOldPasswords
    else if name == "clientFoundRows" then ClientFoundRows
    else if name == "collation" then Collation
    else if name == "columnsWithAlias" then ColumnsWithAlias
    else if name == "compress" then Compress
    else if name == "interpolateParams" then InterpolateParams
    else if name == "loc" then Loc
    else if name == "multiStatements" then MultiStatements
    else if name == "parseTime" then ParseTime
    else if name == "readTimeout" then ReadTimeout
    else if name == "rejectReadOnly" then RejectReadOnly
    else if name == "strict" then Strict
    else if name == "timeout" then Timeout
    else if name == "tls" then Tls
    else if name == "writeTimeout" then WriteTimeout
    else if name == "maxAllowedPacket" then MaxAllowedPacket
    else Other(name)
  }

  predicate Letters(name: string) {
    forall i :: 0 <= i < |name| ==> name[i] >= 'A'
  }

  /** Names are told apart, and the known ones hold no separator. */
  lemma KeyRoundTrip(k: Key)
    requires k.Other? ==> KeyOf(k.name).Other? && NoSeparators(k.name)
    ensures KeyOf(NameOf(k)) == k && NoSeparators(NameOf(k))
  {
    if k.Other? {
      hide KeyOf;
      KeyOther(k.name);
    } else {
      hide KeyOf, NameOf, Letters;
      KnownRoundTrip(k);
      if FirstHalf(k) {
        FirstLetters(k);
      } else if k.ReadTimeout? || k.RejectReadOnly? || k.Strict? || k.Timeout? || k.Tls? || k.WriteTimeout? || k.MaxAllowedPacket? {
        LastLetters(k);
      } else {
        MiddleLetters(k);
      }
      LettersOnly(NameOf(k));
    }
  }

  lemma LettersOnly(name: string)
    requires Letters(name)
    ensures NoSeparators(name)
  {
  }

  lemma KeyOther(name: string)
    ensures KeyOf(name).Other? ==> KeyOf(name) == Other(name)
    ensures NameOf(Other(name)) == name
  {
  }

  predicate FirstHalf(k: Key) {
    || k.AllowAllFiles? || k.AllowCleartextPasswords? || k.AllowNativePasswords? || k.AllowOldPasswords? || k.ClientFoundRows?
    || k.Collation? || k.ColumnsWithAlias? || k.Compress?
  }

  lemma KnownRoundTrip(k: Key)
    requires !k.Other?
    ensures KeyOf(NameOf(k)) == k
  {
    hide KeyOf, NameOf;
    if FirstHalf(k) {
      FirstRoundTrip(k);
    } else if k.InterpolateParams? || k.Loc? || k.MultiStatements? || k.ParseTime? {
      MiddleRoundTrip(k);
    } else if k.ReadTimeout? || k.RejectReadOnly? || k.Strict? {
      LaterRoundTrip(k);
    } else if k.Timeout? || k.Tls? {
      LateRoundTrip(k);
    } else {
      LastRoundTrip(k);
    }
  }

  lemma FirstRoundTrip(k: Key)
    requires FirstHalf(k)
    ensures KeyOf(NameOf(k)) == k
  {
  }

  lemma MiddleRoundTrip(k: Key)
    requires k.InterpolateParams? || k.Loc? || k.MultiStatements? || k.ParseTime?
    ensures KeyOf(NameOf(k)) == k
  {
  }

  lemma LaterRoundTrip(k: Key)
    requires k.ReadTimeout? || k.RejectReadOnly? || k.Strict?
    ensures KeyOf(NameOf(k)) == k
  {
  }

  lemma LateRoundTrip(k: Key)
    requires k.Timeout? || k.Tls?
    ensures KeyOf(NameOf(k)) == k
  {
  }

  lemma LastRoundTrip(k: Key)
    requires k.WriteTimeout? || k.MaxAllowedPacket?
    ensures KeyOf(NameOf(k)) == k
  {
  }

  lemma FirstLetters(k: Key)
    requires FirstHalf(k)
    ensures Letters(NameOf(k))
  {
  }

  lemma MiddleLetters(k: Key)
    requires k.InterpolateParams? || k.Loc? || k.MultiStatements? || k.ParseTime?
    ensures Letters(NameOf(k))
  {
  }

  lemma LastLetters(k: Key)
    requires k.ReadTimeout? || k.RejectReadOnly? || k.Strict? || k.Timeout? || k.Tls? || k.WriteTimeout? || k.MaxAllowedPacket?
    ensures Letters(NameOf(k))
  {
  }

  // ---------------------------------------------------------------- assigning parameters

  function SetBool(value: string, update: bool -> Config): Result<Config> {
    match ReadBool(value)
    case None => Err(BadBool)
    case Some(b) => Ok(update(b))
  }

  function SetDuration(value: string, env: Env, update: Duration -> Config): Result<Config> {
    match env.parseDuration(value)
    case None => Err(BadDuration)
    case Some(d) => Ok(update(d))
  }

  function SetTls(cfg: Config, value: string, env: Env): Result<Config> {
    match ReadBool(value)
    case Some(b) => Ok(cfg.(tlsConfig := if b then "true" else "false"))
    case None =>
      if env.lower(value) == "skip-verify" then Ok(cfg.(tlsConfig := "skip-verify"))
      else
        match QueryUnescape(value)
        case None => Err(BadEscape)
        case Some(name) => if name in env.tlsNames then Ok(cfg.(tlsConfig := name)) else Err(BadTls)
  }

  /** One parameter takes effect. */
  function Assign(cfg: Config, key: Key, value: string, env: Env): Result<Config> {
    match key
    case AllowAllFiles => SetBool(value, b => cfg.(allowAllFiles := b))
    case AllowCleartextPasswords => SetBool(value, b => cfg.(allowCleartextPasswords := b))
    case AllowNativePasswords => SetBool(value, b => cfg.(allowNativePasswords := b))
    case AllowOldPasswords => SetBool(value, b => cfg.(allowOldPasswords := b))
    case ClientFoundRows => SetBool(value, b => cfg.(clientFoundRows := b))
    case Collation => Ok(cfg.(collation := value))
    case ColumnsWithAlias => SetBool(value, b => cfg.(columnsWithAlias := b))
    case Compress => Err(Compression)
    case InterpolateParams => SetBool(value, b => cfg.(interpolateParams := b))
    case Loc =>
      (match QueryUnescape(value)
       case None => Err(BadEscape)
       case Some(name) =>
         match env.loadLocation(name)
         case None => Err(BadLocation)
         case Some(l) => Ok(cfg.(loc := Some(l))))
    case MultiStatements => SetBool(value, b => cfg.(multiStatements := b))
    case ParseTime => SetBool(value, b => cfg.(parseTime := b))
    case ReadTimeout => SetDuration(value, env, d => cfg.(readTimeout := d))
    case RejectReadOnly => SetBool(value, b => cfg.(rejectReadOnly := b))
    case Strict => Err(StrictPanic)
    case Timeout => SetDuration(value, env, d => cfg.(timeout := d))
    case Tls => SetTls(cfg, value, env)
    case WriteTimeout => SetDuration(value, env, d => cfg.(writeTimeout := d))
    case MaxAllowedPacket =>
      (match Atoi(value)
       case None => Err(BadNumber)
       case Some(n) => Ok(cfg.(maxAllowedPacket := n)))
    case Other(name) =>
      (match QueryUnescape(value)
       case None => Err(BadEscape)
       case Some(v) => Ok(cfg.(params := Some((if cfg.params.None? then map[] else cfg.params.value)[name := v]))))
  }

  /** One stretch between ampersands; without an equals sign it is ignored. */
  function AssignText(cfg: Config, text: string, env: Env): Result<Config> {
    var i := FirstIndex(text, '=');
    if i == -1 then Ok(cfg) else Assign(cfg, KeyOf(text[..i]), text[i + 1..], env)
  }

  function AssignTexts(cfg: Config, texts: seq<string>, env: Env): Result<Config>
    decreases |texts|
  {
    if texts == [] then Ok(cfg)
    else
      match AssignText(cfg, texts[0], env)
      case Err(e) => Err(e)
      case Ok(c) => AssignTexts(c, texts[1..], env)
  }

  lemma {:induction false} AssignAppend(cfg: Config, a: seq<string>, b: seq<string>, env: Env)
    ensures AssignTexts(cfg, a + b, env) ==
            match AssignTexts(cfg, a, env)
            case Err(e) => Err(e)
            case Ok(c) => AssignTexts(c, b, env)
    decreases |a|
  {
    hide AssignText;
    if a == [] {
      assert a + b == b;
    } else {
      assert (a + b)[1..] == a[1..] + b;
      match AssignText(cfg, a[0], env) {
        case Err(_) =>
        case Ok(c) => AssignAppend(c, a[1..], b, env);
      }
    }
  }

  // ---------------------------------------------------------------- printing

  datatype Setting = Setting(key: Key, value: string)

  function If(present: bool, key: Key, value: string): seq<Setting> {
    if present then [Setting(key, value)] else []
  }

  predicate PrintsLoc(cfg: Config) {
    cfg.loc.Some? && cfg.loc.value != UTC
  }

  /** The strings to be escaped hold bytes. */
  predicate Bytewise(cfg: Config, env: Env) {
    && IsBytes(cfg.tlsConfig)
    && (PrintsLoc(cfg) ==> IsBytes(env.locationName(cfg.loc.value)))
    && (cfg.params.Some? ==> forall n :: n in cfg.params.value ==> IsBytes(cfg.params.value[n]))
  }

  function LocText(cfg: Config, env: Env): string
    requires Bytewise(cfg, env)
  {
    if PrintsLoc(cfg) then QueryEscape(env.locationName(cfg.loc.value)) else ""
  }

  const SLOTS: nat := 17

  /** The n-th printed parameter: nothing where the configuration has the default. */
  function Slot(cfg: Config, env: Env, n: nat): seq<Setting>
    requires Bytewise(cfg, env)
  {
    if n == 0 then If(cfg.allowAllFiles, AllowAllFiles, "true")
    else if n == 1 then If(cfg.allowCleartextPasswords, AllowCleartextPasswords, "true")
    else if n == 2 then If(!cfg.allowNativePasswords, AllowNativePasswords, "false")
    else if n == 3 then If(cfg.allowOldPasswords, AllowOldPasswords, "true")
    else if n == 4 then If(cfg.clientFoundRows, ClientFoundRows, "true")
    else if n == 5 then If(cfg.collation != DEFAULT_COLLATION && cfg.collation != "", Collation, cfg.collation)
    else if n == 6 then If(cfg.columnsWithAlias, ColumnsWithAlias, "true")
    else if n == 7 then If(cfg.interpolateParams, InterpolateParams, "true")
    else if n == 8 then If(PrintsLoc(cfg), Loc, LocText(cfg, env))
    else if n == 9 then If(cfg.multiStatements, MultiStatements, "true")
    else if n == 10 then If(cfg.parseTime, ParseTime, "true")
    else if n == 11 then If(cfg.readTimeout > 0, ReadTimeout, env.durationText(cfg.readTimeout))
    else if n == 12 then If(cfg.rejectReadOnly, RejectReadOnly, "true")
    else if n == 13 then If(cfg.timeout > 0, Timeout, env.durationText(cfg.timeout))
    else if n == 14 then If(cfg.tlsConfig != "", Tls, QueryEscape(cfg.tlsConfig))
    else if n == 15 then If(cfg.writeTimeout > 0, WriteTimeout, env.durationText(cfg.writeTimeout))
    else If(cfg.maxAllowedPacket != DEFAULT_MAX_ALLOWED_PACKET, MaxAllowedPacket, Itoa(cfg.maxAllowedPacket))
  }

  function Known(cfg: Config, env: Env, n: nat): seq<Setting>
    requires Bytewise(cfg, env)
  {
    if n == 0 then [] else Known(cfg, env, n - 1) + Slot(cfg, env, n - 1)
  }

  /** The names of m, each once, in some order. */
  predicate Lists(order: seq<string>, m: map<string, string>) {
    && (forall i :: 0 <= i < |order| ==> order[i] in m)
    && (forall n :: n in m ==> n in order)
    && (forall i, j :: 0 <= i < j < |order| ==> order[i] != order[j])
  }

  function Others(params: map<string, string>, order: seq<string>): seq<Setting>
    requires forall n :: n in order ==> n in params && IsBytes(params[n])
  {
    if order == [] then []
    else
      var last := order[|order| - 1];
      Others(params, order[..|order| - 1]) + [Setting(Other(last), QueryEscape(params[last]))]
  }

  predicate GoodOrder(cfg: Config, order: seq<string>) {
    if cfg.params.None? then order == [] else Lists(order, cfg.params.value)
  }

  function ParamsOf(cfg: Config): map<string, string> {
    if cfg.params.None? then map[] else cfg.params.value
  }

  function Settings(cfg: Config, env: Env, order: seq<string>): seq<Setting>
    requires Bytewise(cfg, env) && GoodOrder(cfg, order)
  {
    Known(cfg, env, SLOTS) + Others(ParamsOf(cfg), order)
  }

  function SettingText(s: Setting): string {
    NameOf(s.key) + ['='] + s.value
  }

  function SettingTexts(settings: seq<Setting>): (t: seq<string>)
    ensures |t| == |settings|
  {
    if settings == [] then [] else SettingTexts(settings[..|settings| - 1]) + [SettingText(settings[|settings| - 1])]
  }

  /** The parameters as they stand in the DSN. */
  function ParamText(settings: seq<Setting>): string {
    if settings == [] then "" else ['?'] + Join(SettingTexts(settings), '&')
  }

  function UserPart(cfg: Config): string {
    if cfg.user == "" then "" else cfg.user + (if cfg.passwd == "" then "" else [':'] + cfg.passwd) + ['@']
  }

  function NetPart(cfg: Config): string {
    if cfg.net == "" then "" else cfg.net + (if cfg.addr == "" then "" else ['('] + cfg.addr + [')'])
  }

  function Address(cfg: Config): string {
    UserPart(cfg) + NetPart(cfg)
  }

  function Format(cfg: Config, env: Env, order: seq<string>): string
    requires Bytewise(cfg, env) && GoodOrder(cfg, order)
  {
    Address(cfg) + ['/'] + cfg.dbName + ParamText(Settings(cfg, env, order))
  }

  // ---------------------------------------------------------------- parsing

  function DefaultNet(net: string): string {
    if net == "" then "tcp" else net
  }

  function DefaultAddr(net: string, addr: string, env: Env): Option<string> {
    if addr == "" then
      if net == "tcp" then Some("127.0.0.1:3306")
      else if net == "unix" then Some("/tmp/mysql.sock")
      else None
    else Some(if net == "tcp" then env.ensureHavePort(addr) else addr)
  }

  function Normalize(cfg: Config, env: Env): Result<Config> {
    if cfg.interpolateParams && cfg.collation in env.unsafeCollations then Err(UnsafeCollation)
    else
      match DefaultAddr(DefaultNet(cfg.net), cfg.addr, env)
      case None => Err(UnknownNetwork)
      case Some(addr) => Ok(cfg.(net := DefaultNet(cfg.net), addr := addr))
  }

  function ParseUser(cfg: Config, cred: string): Config {
    var k := FirstIndex(cred, ':');
    if k == -1 then cfg.(user := cred) else cfg.(user := cred[..k], passwd := cred[k + 1..])
  }

  function ParseNet(cfg: Config, s: string): Result<Config> {
    var p := FirstIndex(s, '(');
    if p == -1 then Ok(cfg.(net := s))
    else if s[|s| - 1] != ')' then Err(if ')' in s[p + 1..] then Unescaped else BadAddress)
    else Ok(cfg.(addr := s[p + 1..|s| - 1], net := s[..p]))
  }

  /** What stands before the last slash. */
  function ParseLeft(cfg: Config, left: string): Result<Config> {
    if left == "" then Ok(cfg)
    else
      var j := LastIndex(left, '@');
      ParseNet(if j == -1 then cfg else ParseUser(cfg, left[..j]), left[j + 1..])
  }

  /** What stands behind it. */
  function ParseRight(cfg: Config, right: string, env: Env): Result<Config> {
    var q := FirstIndex(right, '?');
    if q == -1 then Ok(cfg.(dbName := right))
    else
      match AssignTexts(cfg, Split(right[q + 1..], '&'), env)
      case Err(e) => Err(e)
      case Ok(c) => Ok(c.(dbName := right[..q]))
  }

  function Parse(dsn: string, env: Env): Result<Config> {
    var i := LastIndex(dsn, '/');
    if i == -1 then if dsn != "" then Err(NoSlash) else Normalize(NEW_CONFIG, env)
    else
      match ParseLeft(NEW_CONFIG, dsn[..i])
      case Err(e) => Err(e)
      case Ok(c) =>
        match ParseRight(c, dsn[i + 1..], env)
        case Err(e) => Err(e)
        case Ok(d) => Normalize(d, env)
  }

  // ---------------------------------------------------------------- printing and parsing again

  predicate PlainValue(s: string) {
    '&' !in s && '/' !in s
  }

  /** A duration that is printed comes back, and its text has no separator. */
  predicate GoodDuration(d: Duration, env: Env) {
    d >= 0 && (d > 0 ==>
      env.parseDuration(env.durationText(d)) == Some(d) && PlainValue(env.durationText(d)))
  }

  predicate GoodTls(name: string, env: Env) {
    name == "" || name == "true" || name == "false" || name == "skip-verify"
    || (name in env.tlsNames && ReadBool(QueryEscapeOf(name)).None? && env.lower(QueryEscapeOf(name)) != "skip-verify")
  }

  function QueryEscapeOf(s: string): string {
    if IsBytes(s) then QueryEscape(s) else s
  }

  predicate GoodParams(m: map<string, string>) {
    forall n :: n in m ==> KeyOf(n).Other? && NoSeparators(n)
  }

  /** A normalised configuration that a DSN can express. */
  predicate Printable(cfg: Config, env: Env) {
    && Bytewise(cfg, env) && Normalize(cfg, env) == Ok(cfg)
    && ':' !in cfg.user && (cfg.user == "" ==> cfg.passwd == "")
    && '@' !in cfg.net && '@' !in cfg.addr && '(' !in cfg.net
    && '/' !in cfg.dbName && '?' !in cfg.dbName
    && (cfg.params.Some? ==> cfg.params.value != map[] && GoodParams(cfg.params.value))
    && cfg.collation != "" && PlainValue(cfg.collation)
    && cfg.loc.Some?
    && (PrintsLoc(cfg) ==> env.loadLocation(env.locationName(cfg.loc.value)) == cfg.loc)
    && -MAX_INT - 1 <= cfg.maxAllowedPacket <= MAX_INT
    && GoodTls(cfg.tlsConfig, env) && env.lower("skip-verify") == "skip-verify"
    && GoodDuration(cfg.timeout, env) && GoodDuration(cfg.readTimeout, env) && GoodDuration(cfg.writeTimeout, env)
  }

  /** base, with the fields of the first n slots taken from cfg. */
  function Mix(base: Config, cfg: Config, n: nat): Config {
    base.(allowAllFiles := if n > 0 then cfg.allowAllFiles else base.allowAllFiles,
          allowCleartextPasswords := if n > 1 then cfg.allowCleartextPasswords else base.allowCleartextPasswords,
          allowNativePasswords := if n > 2 then cfg.allowNativePasswords else base.allowNativePasswords,
          allowOldPasswords := if n > 3 then cfg.allowOldPasswords else base.allowOldPasswords,
          clientFoundRows := if n > 4 then cfg.clientFoundRows else base.clientFoundRows,
          collation := if n > 5 then cfg.collation else base.collation,
          columnsWithAlias := if n > 6 then cfg.columnsWithAlias else base.columnsWithAlias,
          interpolateParams := if n > 7 then cfg.interpolateParams else base.interpolateParams,
          loc := if n > 8 then cfg.loc else base.loc,
          multiStatements := if n > 9 then cfg.multiStatements else base.multiStatements,
          parseTime := if n > 10 then cfg.parseTime else base.parseTime,
          readTimeout := if n > 11 then cfg.readTimeout else base.readTimeout,
          rejectReadOnly := if n > 12 then cfg.rejectReadOnly else base.rejectReadOnly,
          timeout := if n > 13 then cfg.timeout else base.timeout,
          tlsConfig := if n > 14 then cfg.tlsConfig else base.tlsConfig,
          writeTimeout := if n > 15 then cfg.writeTimeout else base.writeTimeout,
          maxAllowedPacket := if n > 16 then cfg.maxAllowedPacket else base.maxAllowedPacket)
  }

  /** Only what precedes the parameters has been parsed. */
  predicate Fresh(base: Config) {
    base == NEW_CONFIG.(user := base.user, passwd := base.passwd, net := base.net, addr := base.addr)
  }

  predicate GoodSetting(s: Setting) {
    (s.key.Other? ==> KeyOf(s.key.name).Other? && NoSeparators(s.key.name)) && PlainValue(s.value)
  }

  lemma OneSetting(cfg: Config, s: Setting, env: Env)
    requires GoodSetting(s)
    ensures AssignText(cfg, SettingText(s), env) == Assign(cfg, s.key, s.value, env)
    ensures PlainValue(SettingText(s))
  {
    hide Assign, KeyOf, NameOf;
    KeyRoundTrip(s.key);
    FirstIs(NameOf(s.key), '=', s.value);
    var t := SettingText(s);
    assert t[..|NameOf(s.key)|] == NameOf(s.key) && t[|NameOf(s.key)| + 1..] == s.value;
  }

  lemma AssignOne(cfg: Config, s: Setting, env: Env)
    requires GoodSetting(s)
    ensures AssignTexts(cfg, SettingTexts([s]), env) == Assign(cfg, s.key, s.value, env)
  {
    hide Assign, AssignText, SettingText;
    OneSetting(cfg, s, env);
    assert [s][..0] == [];
    assert SettingTexts([s]) == [SettingText(s)];
    assert SettingTexts([s])[1..] == [];
  }

  /** Every value a slot may print is free of separators. */
  predicate PlainValues(cfg: Config, env: Env)
    requires Bytewise(cfg, env)
  {
    && PlainValue("true") && PlainValue("false") && PlainValue(cfg.collation)
    && (PrintsLoc(cfg) ==> PlainValue(QueryEscape(env.locationName(cfg.loc.value))))
    && (cfg.readTimeout > 0 ==> PlainValue(env.durationText(cfg.readTimeout)))
    && (cfg.timeout > 0 ==> PlainValue(env.durationText(cfg.timeout)))
    && (cfg.writeTimeout > 0 ==> PlainValue(env.durationText(cfg.writeTimeout)))
    && PlainValue(QueryEscape(cfg.tlsConfig)) && PlainValue(Itoa(cfg.maxAllowedPacket))
  }

  lemma PrintsPlainValues(cfg: Config, env: Env)
    requires Printable(cfg, env)
    ensures PlainValues(cfg, env)
  {
    hide Itoa, QueryEscape, Normalize, GoodTls, GoodParams, IsBytes;
    EscapeRoundTrip(cfg.tlsConfig);
    AtoiRoundTrip(cfg.maxAllowedPacket);
    if PrintsLoc(cfg) {
      EscapeRoundTrip(env.locationName(cfg.loc.value));
    }
    TrueFalse();
  }

  lemma SlotIsGood(cfg: Config, env: Env, n: nat)
    requires Bytewise(cfg, env) && PlainValues(cfg, env)
    ensures |Slot(cfg, env, n)| <= 1 && forall s :: s in Slot(cfg, env, n) ==> GoodSetting(s)
  {
    hide Itoa, QueryEscape, PlainValue, IsBytes, PrintsLoc;
  }

  lemma TrueFalse()
    ensures PlainValue("true") && PlainValue("false") && ReadBool("true") == Some(true) && ReadBool("false") == Some(false)
  {
  }

  /** What a slot says is what the configuration has. */
  lemma SlotAssigns(base: Config, cfg: Config, env: Env, n: nat)
    requires Printable(cfg, env) && Fresh(base) && n < SLOTS
    ensures var slot, now, next := Slot(cfg, env, n), Mix(base, cfg, n), Mix(base, cfg, n + 1);
            && (slot == [] ==> next == now)
            && (slot != [] ==> Assign(now, slot[0].key, slot[0].value, env) == Ok(next))
  {
    hide Slot, Mix, Assign, Normalize, GoodTls, GoodDuration, GoodParams, PlainValue;
    if n == 8 {
      LocAssigns(base, cfg, env);
    } else if n == 14 {
      TlsAssigns(base, cfg, env);
    } else if n == 11 || n == 13 || n == 15 {
      DurationAssigns(base, cfg, env, n);
    } else if n == 16 {
      NumberAssigns(base, cfg, env);
    } else if n == 5 {
      CollationAssigns(base, cfg, env);
    } else {
      BoolAssigns(base, cfg, env, n);
    }
  }

  lemma BoolAssigns(base: Config, cfg: Config, env: Env, n: nat)
    requires Bytewise(cfg, env) && Fresh(base) && n < SLOTS && n != 5 && n != 8 && n != 11 && n != 13 && n < 16 && n != 14 && n != 15
    ensures var slot, now, next := Slot(cfg, env, n), Mix(base, cfg, n), Mix(base, cfg, n + 1);
            && (slot == [] ==> next == now)
            && (slot != [] ==> Assign(now, slot[0].key, slot[0].value, env) == Ok(next))
  {
    hide Bytewise, ReadBool;
    TrueFalse();
  }

  lemma CollationAssigns(base: Config, cfg: Config, env: Env)
    requires Bytewise(cfg, env) && cfg.collation != "" && Fresh(base)
    ensures var slot, now, next := Slot(cfg, env, 5), Mix(base, cfg, 5), Mix(base, cfg, 6);
            && (slot == [] ==> next == now)
            && (slot != [] ==> Assign(now, slot[0].key, slot[0].value, env) == Ok(next))
  {
    hide Bytewise;
  }

  lemma DurationAssigns(base: Config, cfg: Config, env: Env, n: nat)
    requires Bytewise(cfg, env) && Fresh(base) && (n == 11 || n == 13 || n == 15)
    requires GoodDuration(cfg.timeout, env) && GoodDuration(cfg.readTimeout, env) && GoodDuration(cfg.writeTimeout, env)
    ensures var slot, now, next := Slot(cfg, env, n), Mix(base, cfg, n), Mix(base, cfg, n + 1);
            && (slot == [] ==> next == now)
            && (slot != [] ==> Assign(now, slot[0].key, slot[0].value, env) == Ok(next))
  {
    hide Bytewise, PlainValue;
  }

  lemma NumberAssigns(base: Config, cfg: Config, env: Env)
    requires Bytewise(cfg, env) && Fresh(base) && -MAX_INT - 1 <= cfg.maxAllowedPacket <= MAX_INT
    ensures var slot, now, next := Slot(cfg, env, 16), Mix(base, cfg, 16), Mix(base, cfg, 17);
            && (slot == [] ==> next == now)
            && (slot != [] ==> Assign(now, slot[0].key, slot[0].value, env) == Ok(next))
  {
    hide Bytewise, Itoa, Atoi;
    AtoiRoundTrip(cfg.maxAllowedPacket);
  }

  lemma LocAssigns(base: Config, cfg: Config, env: Env)
    requires Printable(cfg, env) && Fresh(base)
    ensures var slot, now, next := Slot(cfg, env, 8), Mix(base, cfg, 8), Mix(base, cfg, 9);
            && (slot == [] ==> next == now)
            && (slot != [] ==> Assign(now, slot[0].key, slot[0].value, env) == Ok(next))
  {
    hide QueryEscape, QueryUnescape, Normalize, GoodParams, GoodTls, GoodDuration, PlainValue, IsBytes;
    if PrintsLoc(cfg) {
      EscapeRoundTrip(env.locationName(cfg.loc.value));
    }
  }

  lemma TlsAssigns(base: Config, cfg: Config, env: Env)
    requires Printable(cfg, env) && Fresh(base)
    ensures var slot, now, next := Slot(cfg, env, 14), Mix(base, cfg, 14), Mix(base, cfg, 15);
            && (slot == [] ==> next == now)
            && (slot != [] ==> Assign(now, slot[0].key, slot[0].value, env) == Ok(next))
  {
    hide QueryEscape, SetTls, Normalize, GoodParams, GoodTls, GoodDuration, PlainValue, IsBytes;
    if cfg.tlsConfig != "" {
      TlsRoundTrip(Mix(base, cfg, 14), cfg.tlsConfig, env);
    }
  }

  lemma TlsRoundTrip(cfg: Config, name: string, env: Env)
    requires name != "" && GoodTls(name, env) && IsBytes(name) && env.lower("skip-verify") == "skip-verify"
    ensures SetTls(cfg, QueryEscape(name), env) == Ok(cfg.(tlsConfig := name))
  {
    hide QueryEscape, IsBytes, NoSeparators;
    EscapeRoundTrip(name);
    if name == "true" || name == "false" || name == "skip-verify" {
      ReservedTls(name);
      hide ReadBool;
    } else {
      hide ReadBool;
    }
  }

  lemma ReservedTls(name: string)
    requires name == "true" || name == "false" || name == "skip-verify"
    ensures IsBytes(name) && QueryEscape(name) == name
    ensures ReadBool(name) == if name == "true" then Some(true) else if name == "false" then Some(false) else None
  {
    assert forall i :: 0 <= i < |name| ==> Unreserved(name[i]);
    EscapePlain(name);
    hide QueryEscape;
  }

  lemma {:induction false} EscapePlain(s: string)
    requires forall i :: 0 <= i < |s| ==> Unreserved(s[i])
    ensures IsBytes(s) && QueryEscape(s) == s
  {
    if s != [] {
      EscapePlain(s[1..]);
      assert [s[0]] + s[1..] == s;
    }
  }

  lemma {:induction false} TextsAppend(a: seq<Setting>, b: seq<Setting>)
    ensures SettingTexts(a + b) == SettingTexts(a) + SettingTexts(b)
  {
    hide SettingText;
    if b == [] {
      assert a + b == a;
    } else {
      var init := b[..|b| - 1];
      assert (a + b)[..|a + b| - 1] == a + init;
      TextsAppend(a, init);
    }
  }

  /** The first n slots take effect one after another. */
  lemma {:induction false} KnownAssigns(base: Config, cfg: Config, env: Env, n: nat)
    requires Printable(cfg, env) && Fresh(base) && n <= SLOTS
    ensures AssignTexts(base, SettingTexts(Known(cfg, env, n)), env) == Ok(Mix(base, cfg, n))
    ensures forall s :: s in Known(cfg, env, n) ==> GoodSetting(s)
  {
    hide Slot, Mix, Assign, AssignTexts, SettingTexts, Normalize, GoodTls, GoodDuration, GoodParams, PlainValue,
      PlainValues, GoodSetting;
    if n == 0 {
      NothingAssigned(base, cfg, env);
    } else {
      var before, slot := Known(cfg, env, n - 1), Slot(cfg, env, n - 1);
      KnownAssigns(base, cfg, env, n - 1);
      PrintsPlainValues(cfg, env);
      SlotIsGood(cfg, env, n - 1);
      SlotAssigns(base, cfg, env, n - 1);
      TextsAppend(before, slot);
      AssignAppend(base, SettingTexts(before), SettingTexts(slot), env);
      if slot == [] {
        NoTexts(Mix(base, cfg, n - 1), env);
      } else {
        assert slot == [slot[0]];
        AssignOne(Mix(base, cfg, n - 1), slot[0], env);
      }
    }
  }

  lemma NoTexts(cfg: Config, env: Env)
    ensures AssignTexts(cfg, SettingTexts([]), env) == Ok(cfg)
  {
  }

  lemma NothingAssigned(base: Config, cfg: Config, env: Env)
    ensures AssignTexts(base, SettingTexts([]), env) == Ok(base) && Mix(base, cfg, 0) == base
  {
  }

  function Restrict(m: map<string, string>, order: seq<string>): map<string, string> {
    map n | n in order && n in m :: m[n]
  }

  /** base, with these parameters in its map. */
  function WithParams(base: Config, m: map<string, string>, order: seq<string>): Config {
    base.(params := if order == [] then None else Some(Restrict(m, order)))
  }

  lemma RestrictMore(m: map<string, string>, init: seq<string>, last: string)
    requires last in m
    ensures (if init == [] then map[] else Restrict(m, init))[last := m[last]] == Restrict(m, init + [last])
  {
    var had, has := if init == [] then map[] else Restrict(m, init), Restrict(m, init + [last]);
    forall n
      ensures n in had[last := m[last]] <==> n in has
      ensures n in has ==> had[last := m[last]][n] == has[n]
    {
      assert n in init + [last] <==> n in init || n == last;
    }
  }

  lemma AssignOther(cfg: Config, name: string, value: string, env: Env)
    requires QueryUnescape(value).Some?
    ensures Assign(cfg, Other(name), value, env) ==
            Ok(cfg.(params := Some((if cfg.params.None? then map[] else cfg.params.value)[name := QueryUnescape(value).value])))
  {
    hide QueryUnescape;
  }

  lemma OtherAssigns(base: Config, m: map<string, string>, init: seq<string>, last: string, env: Env)
    requires last in m && IsBytes(m[last])
    ensures Assign(WithParams(base, m, init), Other(last), QueryEscape(m[last]), env) ==
            Ok(WithParams(base, m, init + [last]))
  {
    hide QueryEscape, QueryUnescape, IsBytes, Assign, Restrict;
    EscapeRoundTrip(m[last]);
    RestrictMore(m, init, last);
    AssignOther(WithParams(base, m, init), last, QueryEscape(m[last]), env);
  }

  /** The other parameters end up in the map, each name with its value. */
  lemma {:induction false} OthersAssign(base: Config, m: map<string, string>, order: seq<string>, env: Env)
    requires (forall n :: n in order ==> n in m && IsBytes(m[n])) && GoodParams(m) && base.params == None
    ensures AssignTexts(base, SettingTexts(Others(m, order)), env) == Ok(WithParams(base, m, order))
    ensures forall s :: s in Others(m, order) ==> GoodSetting(s)
  {
    hide Assign, AssignTexts, SettingTexts, KeyOf, QueryEscape, QueryUnescape, IsBytes, Restrict;
    if order == [] {
      NoTexts(base, env);
    } else {
      var last, init := order[|order| - 1], order[..|order| - 1];
      assert order == init + [last];
      OthersAssign(base, m, init, env);
      EscapeRoundTrip(m[last]);
      hide WithParams;
      var s := Setting(Other(last), QueryEscape(m[last]));
      TextsAppend(Others(m, init), [s]);
      AssignAppend(base, SettingTexts(Others(m, init)), SettingTexts([s]), env);
      OtherAssigns(base, m, init, last, env);
      AssignOne(WithParams(base, m, init), s, env);
    }
  }

  lemma NoNames(m: map<string, string>, order: seq<string>)
    requires Lists(order, m) && order == []
    ensures m == map[]
  {
  }

  /** Everything behind the question mark. */
  lemma SettingsAssign(base: Config, cfg: Config, env: Env, order: seq<string>)
    requires Printable(cfg, env) && Fresh(base) && GoodOrder(cfg, order)
    ensures AssignTexts(base, SettingTexts(Settings(cfg, env, order)), env) == Ok(Mix(base, cfg, SLOTS).(params := cfg.params))
    ensures forall s :: s in Settings(cfg, env, order) ==> GoodSetting(s)
  {
    hide Known, Others, AssignTexts, SettingTexts, Normalize, GoodTls, GoodDuration, PlainValue, GoodSetting, KeyOf;
    KnownAssigns(base, cfg, env, SLOTS);
    var m := ParamsOf(cfg);
    OthersAssign(Mix(base, cfg, SLOTS), m, order, env);
    TextsAppend(Known(cfg, env, SLOTS), Others(m, order));
    AssignAppend(base, SettingTexts(Known(cfg, env, SLOTS)), SettingTexts(Others(m, order)), env);
    if cfg.params.Some? {
      assert Restrict(m, order) == m;
      if order == [] {
        NoNames(m, order);
      }
    }
  }

  lemma {:induction false} TextsPlain(settings: seq<Setting>, env: Env)
    requires forall s :: s in settings ==> GoodSetting(s)
    ensures forall t :: t in SettingTexts(settings) ==> PlainValue(t)
  {
    hide SettingText, GoodSetting, PlainValue;
    if settings != [] {
      TextsPlain(settings[..|settings| - 1], env);
      assert settings[|settings| - 1] in settings;
      OneSetting(NEW_CONFIG, settings[|settings| - 1], env);
    }
  }

  lemma {:induction false} JoinPlain(parts: seq<string>)
    requires parts != [] && forall p :: p in parts ==> '/' !in p
    ensures '/' !in Join(parts, '&')
  {
    if |parts| > 1 {
      JoinPlain(parts[..|parts| - 1]);
    }
  }

  lemma RightRoundTrip(base: Config, cfg: Config, env: Env, order: seq<string>)
    requires Printable(cfg, env) && Fresh(base) && GoodOrder(cfg, order)
    ensures var right := cfg.dbName + ParamText(Settings(cfg, env, order));
            && '/' !in right
            && ParseRight(base, right, env) == Ok(Mix(base, cfg, SLOTS).(params := cfg.params, dbName := cfg.dbName))
  {
    hide Mix, Settings, AssignTexts, SettingTexts, Join, Split, Normalize, GoodTls, GoodDuration, GoodParams,
      GoodSetting;
    var settings := Settings(cfg, env, order);
    var texts, right := SettingTexts(settings), cfg.dbName + ParamText(settings);
    SettingsAssign(base, cfg, env, order);
    TextsPlain(settings, env);
    if settings == [] {
      assert right == cfg.dbName;
      NotThere(right, '?');
      NoTexts(base, env);
    } else {
      JoinPlain(texts);
      SplitJoin(texts, '&');
      FirstIs(cfg.dbName, '?', Join(texts, '&'));
      assert right == cfg.dbName + ['?'] + Join(texts, '&');
      assert right[..|cfg.dbName|] == cfg.dbName && right[|cfg.dbName| + 1..] == Join(texts, '&');
    }
  }

  lemma NetRoundTrip(base: Config, cfg: Config)
    requires cfg.net != "" && cfg.addr != "" && '(' !in cfg.net
    ensures ParseNet(base, cfg.net + (['('] + cfg.addr + [')'])) == Ok(base.(net := cfg.net, addr := cfg.addr))
  {
    var s := cfg.net + (['('] + cfg.addr + [')']);
    assert s == cfg.net + ['('] + (cfg.addr + [')']);
    FirstIs(cfg.net, '(', cfg.addr + [')']);
    assert s[|cfg.net| + 1..|s| - 1] == cfg.addr && s[..|cfg.net|] == cfg.net;
  }

  lemma LeftRoundTrip(cfg: Config)
    requires cfg.net != "" && cfg.addr != "" && '(' !in cfg.net && '@' !in cfg.net && '@' !in cfg.addr
    requires ':' !in cfg.user && (cfg.user == "" ==> cfg.passwd == "")
    ensures ParseLeft(NEW_CONFIG, Address(cfg)) ==
            Ok(NEW_CONFIG.(user := cfg.user, passwd := cfg.passwd, net := cfg.net, addr := cfg.addr))
  {
    hide ParseNet, ParseUser, LastIndex, FirstIndex;
    var where := cfg.net + (['('] + cfg.addr + [')']);
    if cfg.user == "" {
      assert Address(cfg) == where;
      NotThere(where, '@');
      assert where[0..] == where;
      NetRoundTrip(NEW_CONFIG, cfg);
    } else {
      var cred := cfg.user + (if cfg.passwd == "" then "" else [':'] + cfg.passwd);
      var left := Address(cfg);
      assert left == cred + ['@'] + where;
      LastIs(cred, '@', where);
      assert left[..|cred|] == cred && left[|cred| + 1..] == where;
      CredRoundTrip(cfg);
      NetRoundTrip(ParseUser(NEW_CONFIG, cred), cfg);
    }
  }

  lemma CredRoundTrip(cfg: Config)
    requires ':' !in cfg.user
    ensures ParseUser(NEW_CONFIG, cfg.user + (if cfg.passwd == "" then "" else [':'] + cfg.passwd)) ==
            NEW_CONFIG.(user := cfg.user, passwd := cfg.passwd)
  {
    if cfg.passwd == "" {
      assert cfg.user + "" == cfg.user;
      NotThere(cfg.user, ':');
    } else {
      var cred := cfg.user + ([':'] + cfg.passwd);
      assert cred == cfg.user + [':'] + cfg.passwd;
      FirstIs(cfg.user, ':', cfg.passwd);
      assert cred[..|cfg.user|] == cfg.user && cred[|cfg.user| + 1..] == cfg.passwd;
    }
  }

  lemma MixAll(cfg: Config)
    ensures Mix(NEW_CONFIG.(user := cfg.user, passwd := cfg.passwd, net := cfg.net, addr := cfg.addr), cfg, SLOTS)
              .(params := cfg.params, dbName := cfg.dbName) == cfg
  {
  }

  /** A configuration that is printed and parsed comes back, in whatever order its extra parameters are printed. */
  lemma DsnRoundTrip(cfg: Config, env: Env, order: seq<string>)
    requires Printable(cfg, env) && GoodOrder(cfg, order)
    ensures Parse(Format(cfg, env, order), env) == Ok(cfg)
  {
    hide Mix, Settings, ParamText, ParseLeft, ParseRight, Parse, Normalize, IsBytes, GoodTls, GoodDuration, GoodParams,
      Address;
    var base := NEW_CONFIG.(user := cfg.user, passwd := cfg.passwd, net := cfg.net, addr := cfg.addr);
    var text := ParamText(Settings(cfg, env, order));
    NormalHasAddress(cfg, env);
    LeftRoundTrip(cfg);
    RightRoundTrip(base, cfg, env, order);
    MixAll(cfg);
    assert Address(cfg) + ['/'] + (cfg.dbName + text) == Address(cfg) + ['/'] + cfg.dbName + text;
    ParsePieces(Address(cfg), cfg.dbName + text, base, cfg, env);
  }

  lemma ParsePieces(left: string, right: string, base: Config, cfg: Config, env: Env)
    requires ParseLeft(NEW_CONFIG, left) == Ok(base) && ParseRight(base, right, env) == Ok(cfg) && '/' !in right
    ensures Parse(left + ['/'] + right, env) == Normalize(cfg, env)
  {
    hide ParseLeft, ParseRight, Normalize;
    LastIs(left, '/', right);
    var dsn := left + ['/'] + right;
    assert dsn[..|left|] == left && dsn[|left| + 1..] == right;
  }

  lemma NormalHasAddress(cfg: Config, env: Env)
    requires Normalize(cfg, env) == Ok(cfg)
    ensures cfg.net != "" && cfg.addr != ""
  {
    hide DefaultNet, DefaultAddr;
    DefaultsNotEmpty(cfg.net, cfg.addr, env);
  }

  lemma DefaultsNotEmpty(net: string, addr: string, env: Env)
    ensures DefaultNet(net) != ""
    ensures addr == "" ==> DefaultAddr(DefaultNet(net), addr, env) != Some(addr)
  {
  }

  // ---------------------------------------------------------------- the printer and the parser

  lemma KnownMore(cfg: Config, env: Env, n: nat)
    requires Bytewise(cfg, env)
    ensures Known(cfg, env, n + 1) == Known(cfg, env, n) + Slot(cfg, env, n)
  {
    hide Slot, Bytewise;
  }

  lemma Known4(cfg: Config, env: Env)
    requires Bytewise(cfg, env)
    ensures Known(cfg, env, 4) == Known(cfg, env, 0)
            + If(cfg.allowAllFiles, AllowAllFiles, "true")
            + If(cfg.allowCleartextPasswords, AllowCleartextPasswords, "true")
            + If(!cfg.allowNativePasswords, AllowNativePasswords, "false")
            + If(cfg.allowOldPasswords, AllowOldPasswords, "true")
  {
    hide If, Bytewise, IsBytes, Itoa, QueryEscape, LocText;
    KnownMore(cfg, env, 0);
    KnownMore(cfg, env, 1);
    KnownMore(cfg, env, 2);
    KnownMore(cfg, env, 3);
    hide Known;
  }

  lemma Known8(cfg: Config, env: Env)
    requires Bytewise(cfg, env)
    ensures Known(cfg, env, 8) == Known(cfg, env, 4)
            + If(cfg.clientFoundRows, ClientFoundRows, "true")
            + If(cfg.collation != DEFAULT_COLLATION && cfg.collation != "", Collation, cfg.collation)
            + If(cfg.columnsWithAlias, ColumnsWithAlias, "true")
            + If(cfg.interpolateParams, InterpolateParams, "true")
  {
    hide If, Bytewise, IsBytes, Itoa, QueryEscape, LocText;
    KnownMore(cfg, env, 4);
    KnownMore(cfg, env, 5);
    KnownMore(cfg, env, 6);
    KnownMore(cfg, env, 7);
    hide Known;
  }

  lemma Known11(cfg: Config, env: Env)
    requires Bytewise(cfg, env)
    ensures Known(cfg, env, 11) == Known(cfg, env, 8)
            + If(PrintsLoc(cfg), Loc, LocText(cfg, env))
            + If(cfg.multiStatements, MultiStatements, "true")
            + If(cfg.parseTime, ParseTime, "true")
  {
    hide If, Bytewise, IsBytes, Itoa, QueryEscape, LocText;
    KnownMore(cfg, env, 8);
    KnownMore(cfg, env, 9);
    KnownMore(cfg, env, 10);
    hide Known;
  }

  lemma Known14(cfg: Config, env: Env)
    requires Bytewise(cfg, env)
    ensures Known(cfg, env, 14) == Known(cfg, env, 11)
            + If(cfg.readTimeout > 0, ReadTimeout, env.durationText(cfg.readTimeout))
            + If(cfg.rejectReadOnly, RejectReadOnly, "true")
            + If(cfg.timeout > 0, Timeout, env.durationText(cfg.timeout))
  {
    hide If, Bytewise, IsBytes, Itoa, QueryEscape, LocText;
    KnownMore(cfg, env, 11);
    KnownMore(cfg, env, 12);
    KnownMore(cfg, env, 13);
    hide Known;
  }

  lemma Known17(cfg: Config, env: Env)
    requires Bytewise(cfg, env)
    ensures Known(cfg, env, 17) == Known(cfg, env, 14)
            + If(cfg.tlsConfig != "", Tls, QueryEscape(cfg.tlsConfig))
            + If(cfg.writeTimeout > 0, WriteTimeout, env.durationText(cfg.writeTimeout))
            + If(cfg.maxAllowedPacket != DEFAULT_MAX_ALLOWED_PACKET, MaxAllowedPacket, Itoa(cfg.maxAllowedPacket))
  {
    hide If, Bytewise, IsBytes, Itoa, QueryEscape, LocText;
    KnownMore(cfg, env, 14);
    KnownMore(cfg, env, 15);
    KnownMore(cfg, env, 16);
    hide Known;
  }

  /** One more parameter is set apart by a question mark or an ampersand. */
  lemma ParamTextMore(settings: seq<Setting>, s: Setting)
    ensures ParamText(settings + [s]) ==
            ParamText(settings) + ([if settings == [] then '?' else '&'] + SettingText(s))
  {
    hide SettingText, Join;
    var texts := SettingTexts(settings);
    TextsMore(settings, s);
    JoinMore(texts, SettingText(s), '&');
    hide SettingTexts;
    if settings == [] {
      assert settings + [s] == [s];
    }
  }

  lemma TextsMore(settings: seq<Setting>, s: Setting)
    ensures SettingTexts(settings + [s]) == SettingTexts(settings) + [SettingText(s)]
  {
    hide SettingText;
    assert (settings + [s])[..|settings|] == settings;
  }

  lemma JoinMore(parts: seq<string>, part: string, c: char)
    ensures Join(parts + [part], c) == if parts == [] then part else Join(parts, c) + ([c] + part)
  {
    var more := parts + [part];
    assert more[..|parts|] == parts && more[|parts|] == part;
    if parts != [] {
      assert Join(more, c) == Join(parts, c) + [c] + part;
      assert Join(parts, c) + [c] + part == Join(parts, c) + ([c] + part);
    }
  }

  /** Collects the text of a DSN. */
  class Printer {
    var buf: string
    var hasParam: bool
    ghost var left: string
    ghost var settings: seq<Setting>

    constructor ()
      ensures Valid() && left == "" && settings == []
    {
      buf, hasParam, left, settings := "", false, "", [];
    }

    /** The parameters written so far stand behind the text before them. */
    ghost predicate Valid()
      reads this
    {
      buf == left + ParamText(settings) && (hasParam <==> settings != [])
    }

    method Result() returns (text: string)
      requires Valid()
      ensures text == left + ParamText(settings)
    {
      text := buf;
    }

    method WriteString(s: string)
      requires Valid() && settings == []
      modifies this
      ensures Valid() && settings == [] && left == old(left) + s
    {
      buf := buf + s;
      left := left + s;
    }

    method Param(key: Key, value: string)
      requires Valid()
      modifies this
      ensures Valid() && left == old(left) && settings == old(settings) + [Setting(key, value)]
    {
      hide ParamText, NameOf;
      ParamTextMore(settings, Setting(key, value));
      ghost var before := ParamText(settings);
      ghost var sep := if settings == [] then '?' else '&';
      if hasParam {
        buf := buf + ['&'];
      } else {
        hasParam := true;
        buf := buf + ['?'];
      }
      buf := buf + NameOf(key) + ['='] + value;
      settings := settings + [Setting(key, value)];
      Glue(left, before, sep, NameOf(key), value);
    }

    /** [username[:password]@] */
    method WriteUser(cfg: Config)
      requires Valid() && left == "" && settings == []
      modifies this
      ensures Valid() && left == UserPart(cfg) && settings == []
    {
      hide Valid;
      if |cfg.user| > 0 {
        WriteString(cfg.user);
        if |cfg.passwd| > 0 {
          WriteString([':']);
          WriteString(cfg.passwd);
          assert left == cfg.user + ([':'] + cfg.passwd);
        }
        WriteString(['@']);
      }
    }

    /** [protocol[(address)]] */
    method WriteNet(cfg: Config)
      requires Valid() && settings == []
      modifies this
      ensures Valid() && left == old(left) + NetPart(cfg) && settings == []
    {
      hide Valid;
      if |cfg.net| > 0 {
        WriteString(cfg.net);
        if |cfg.addr| > 0 {
          WriteString(['(']);
          WriteString(cfg.addr);
          WriteString([')']);
          assert old(left) + cfg.net + ['('] + cfg.addr + [')'] == old(left) + (cfg.net + (['('] + cfg.addr + [')']));
        }
      }
    }

    method ParamIf(present: bool, key: Key, value: string)
      requires Valid()
      modifies this
      ensures Valid() && left == old(left) && settings == old(settings) + If(present, key, value)
    {
      hide Valid;
      if present {
        Param(key, value);
      }
    }

    method Write4(cfg: Config, env: Env)
      requires Bytewise(cfg, env) && Valid() && settings == Known(cfg, env, 0)
      modifies this
      ensures Valid() && left == old(left) && settings == Known(cfg, env, 4)
    {
      hide Known, Valid, If, Bytewise, IsBytes, Itoa, QueryEscape, LocText;
      Known4(cfg, env);
      ParamIf(cfg.allowAllFiles, AllowAllFiles, "true");
      ParamIf(cfg.allowCleartextPasswords, AllowCleartextPasswords, "true");
      ParamIf(!cfg.allowNativePasswords, AllowNativePasswords, "false");
      ParamIf(cfg.allowOldPasswords, AllowOldPasswords, "true");
    }

    method Write8(cfg: Config, env: Env)
      requires Bytewise(cfg, env) && Valid() && settings == Known(cfg, env, 4)
      modifies this
      ensures Valid() && left == old(left) && settings == Known(cfg, env, 8)
    {
      hide Known, Valid, If, Bytewise, IsBytes, Itoa, QueryEscape, LocText;
      Known8(cfg, env);
      ParamIf(cfg.clientFoundRows, ClientFoundRows, "true");
      ParamIf(cfg.collation != DEFAULT_COLLATION && cfg.collation != "", Collation, cfg.collation);
      ParamIf(cfg.columnsWithAlias, ColumnsWithAlias, "true");
      ParamIf(cfg.interpolateParams, InterpolateParams, "true");
    }

    method Write11(cfg: Config, env: Env)
      requires Bytewise(cfg, env) && Valid() && settings == Known(cfg, env, 8)
      modifies this
      ensures Valid() && left == old(left) && settings == Known(cfg, env, 11)
    {
      hide Known, Valid, If, Bytewise, IsBytes, Itoa, QueryEscape, LocText;
      Known11(cfg, env);
      ParamIf(PrintsLoc(cfg), Loc, LocText(cfg, env));
      ParamIf(cfg.multiStatements, MultiStatements, "true");
      ParamIf(cfg.parseTime, ParseTime, "true");
    }

    method Write14(cfg: Config, env: Env)
      requires Bytewise(cfg, env) && Valid() && settings == Known(cfg, env, 11)
      modifies this
      ensures Valid() && left == old(left) && settings == Known(cfg, env, 14)
    {
      hide Known, Valid, If, Bytewise, IsBytes, Itoa, QueryEscape, LocText;
      Known14(cfg, env);
      ParamIf(cfg.readTimeout > 0, ReadTimeout, env.durationText(cfg.readTimeout));
      ParamIf(cfg.rejectReadOnly, RejectReadOnly, "true");
      ParamIf(cfg.timeout > 0, Timeout, env.durationText(cfg.timeout));
    }

    method Write17(cfg: Config, env: Env)
      requires Bytewise(cfg, env) && Valid() && settings == Known(cfg, env, 14)
      modifies this
      ensures Valid() && left == old(left) && settings == Known(cfg, env, 17)
    {
      hide Known, Valid, If, IsBytes, Itoa, QueryEscape, LocText;
      Known17(cfg, env);
      ParamIf(cfg.tlsConfig != "", Tls, QueryEscape(cfg.tlsConfig));
      ParamIf(cfg.writeTimeout > 0, WriteTimeout, env.durationText(cfg.writeTimeout));
      ParamIf(cfg.maxAllowedPacket != DEFAULT_MAX_ALLOWED_PACKET, MaxAllowedPacket, Itoa(cfg.maxAllowedPacket));
    }
  }

  // ---------------------------------------------------------------- extra parameters, sorted by name

  /** x is less than y, byte by byte. */
  predicate Below(x: string, y: string) {
    y != [] && (x == [] || x[0] < y[0] || (x[0] == y[0] && Below(x[1..], y[1..])))
  }

  lemma {:induction false} BelowOrEqual(x: string, y: string)
    ensures x == y || Below(x, y) || Below(y, x)
    ensures !(Below(x, y) && Below(y, x)) && !Below(x, x)
    decreases |x|
  {
    if x != [] && y != [] {
      BelowOrEqual(x[1..], y[1..]);
      BelowOrEqual(x[1..], x[1..]);
      assert x == [x[0]] + x[1..] && y == [y[0]] + y[1..];
    } else if x != [] {
      BelowOrEqual(x[1..], x[1..]);
    }
  }

  lemma {:induction false} BelowGoesOn(x: string, y: string, z: string)
    requires Below(x, y) && Below(y, z)
    ensures Below(x, z)
    decreases |x|
  {
    if x != [] && x[0] == y[0] && y[0] == z[0] {
      BelowGoesOn(x[1..], y[1..], z[1..]);
    }
  }

  predicate Ascending(order: seq<string>) {
    forall i, j :: 0 <= i < j < |order| ==> Below(order[i], order[j])
  }

  /** The names of a map have one ascending order. */
  lemma {:induction false} OneOrder(a: seq<string>, b: seq<string>)
    requires Ascending(a) && Ascending(b) && forall n :: n in a <==> n in b
    ensures a == b
    decreases |a|
  {
    hide Below;
    if a == [] {
      if b != [] {
        SomeName(b);
      }
    } else {
      SomeName(a);
      FirstIsLeast(b, a[0]);
      SomeName(b);
      FirstIsLeast(a, b[0]);
      BelowOrEqual(a[0], b[0]);
      assert a == [a[0]] + a[1..] && b == [b[0]] + b[1..];
      forall n
        ensures n in a[1..] <==> n in b[1..]
      {
        NotAgain(a);
        NotAgain(b);
        assert n in a <==> n == a[0] || n in a[1..];
        assert n in b <==> n == b[0] || n in b[1..];
      }
      OneOrder(a[1..], b[1..]);
    }
  }

  lemma FirstIsLeast(a: seq<string>, x: string)
    requires Ascending(a) && x in a
    ensures a != [] && (a[0] == x || Below(a[0], x))
  {
    hide Below;
    var i :| 0 <= i < |a| && a[i] == x;
    if i > 0 {
      assert Below(a[0], a[i]);
    }
  }

  lemma SomeName(b: seq<string>)
    requires b != []
    ensures b[0] in b
  {
  }

  lemma NotAgain(a: seq<string>)
    requires Ascending(a) && a != []
    ensures a[0] !in a[1..]
  {
    hide Below;
    if a[0] in a[1..] {
      var i :| 0 <= i < |a[1..]| && a[1..][i] == a[0];
      assert Below(a[0], a[i + 1]);
      BelowOrEqual(a[0], a[0]);
    }
  }

  /** Puts a name where it belongs. */
  method InsertName(order: seq<string>, name: string) returns (longer: seq<string>)
    requires Ascending(order) && name !in order
    ensures Ascending(longer) && forall n :: n in longer <==> n in order || n == name
  {
    hide Below;
    var i := 0;
    while i < |order| && Below(order[i], name)
      invariant i <= |order| && forall k :: 0 <= k < i ==> Below(order[k], name)
    {
      i := i + 1;
    }
    longer := order[..i] + [name] + order[i..];
    forall k | i <= k < |order|
      ensures Below(name, order[k])
    {
      BelowOrEqual(order[i], name);
      if k > i {
        BelowGoesOn(name, order[i], order[k]);
      }
    }
    NameInserted(order, i, name);
  }

  lemma NameInserted(order: seq<string>, i: nat, name: string)
    requires i <= |order| && Ascending(order)
    requires (forall k :: 0 <= k < i ==> Below(order[k], name)) && forall k :: i <= k < |order| ==> Below(name, order[k])
    ensures var longer := order[..i] + [name] + order[i..];
            Ascending(longer) && forall n :: n in longer <==> n in order || n == name
  {
    hide Below, Ascending;
    InsertedAscends(order, i, name);
    assert order == order[..i] + order[i..];
  }

  lemma InsertedAscends(order: seq<string>, i: nat, name: string)
    requires i <= |order| && Ascending(order)
    requires (forall k :: 0 <= k < i ==> Below(order[k], name)) && forall k :: i <= k < |order| ==> Below(name, order[k])
    ensures Ascending(order[..i] + [name] + order[i..])
  {
    hide Below;
    var longer := order[..i] + [name] + order[i..];
    assert forall k :: 0 <= k < |longer| ==> longer[k] == if k < i then order[k] else if k == i then name else order[k - 1];
  }

  /** The names of the extra parameters, sorted. */
  method ListParams(m: map<string, string>) returns (order: seq<string>)
    ensures Lists(order, m) && Ascending(order)
  {
    hide Below;
    order := [];
    var left := m.Keys;
    while left != {}
      invariant left <= m.Keys && Ascending(order)
      invariant forall n :: n in order ==> n in m && n !in left
      invariant forall n :: n in m ==> n in left || n in order
      decreases |left|
    {
      var n :| n in left;
      order := InsertName(order, n);
      left := left - {n};
    }
    forall i, j | 0 <= i < j < |order|
      ensures order[i] != order[j]
    {
      BelowOrEqual(order[i], order[j]);
    }
  }

  lemma NoneAscending()
    ensures Ascending([])
  {
  }

  /** Prints a configuration. */
  method FormatDSN(cfg: Config, env: Env) returns (dsn: string)
    requires Bytewise(cfg, env)
    ensures exists order :: GoodOrder(cfg, order) && Ascending(order) && dsn == Format(cfg, env, order)
  {
    NoneAscending();
    hide Ascending, Below, Itoa, Digits;
    hide UserPart, NetPart, Known, Others, ParamText, IsBytes, QueryEscape, Printer.Valid;
    var p := new Printer();
    p.WriteUser(cfg);
    p.WriteNet(cfg);
    p.WriteString(['/']);
    p.WriteString(cfg.dbName);
    NoneKnown(cfg, env);
    p.Write4(cfg, env);
    p.Write8(cfg, env);
    p.Write11(cfg, env);
    p.Write14(cfg, env);
    p.Write17(cfg, env);
    ghost var order: seq<string> := [];
    assert p.settings == Known(cfg, env, SLOTS) + [];
    OthersNone(ParamsOf(cfg));
    if cfg.params.Some? {
      var m := cfg.params.value;
      var params := ListParams(m);
      for i := 0 to |params|
        invariant fresh(p) && p.Valid() && p.left == Address(cfg) + ['/'] + cfg.dbName
        invariant p.settings == Known(cfg, env, SLOTS) + Others(m, params[..i])
      {
        ghost var sofar := Others(m, params[..i]);
        OthersMore(m, params, i);
        p.Param(Other(params[i]), QueryEscape(m[params[i]]));
        assert Known(cfg, env, SLOTS) + sofar + [Setting(Other(params[i]), QueryEscape(m[params[i]]))]
            == Known(cfg, env, SLOTS) + Others(m, params[..i + 1]);
      }
      assert params[..|params|] == params;
      order := params;
    }
    dsn := p.Result();
    assert GoodOrder(cfg, order) && Ascending(order) && dsn == Format(cfg, env, order);
  }

  lemma Glue(left: string, before: string, sep: char, name: string, value: string)
    ensures left + before + [sep] + name + ['='] + value == left + (before + ([sep] + (name + ['='] + value)))
  {
    assert left + before + [sep] + name + ['='] + value == (left + before) + ([sep] + (name + ['='] + value));
  }

  lemma OthersNone(m: map<string, string>)
    ensures Others(m, []) == []
  {
  }

  lemma OthersMore(m: map<string, string>, order: seq<string>, i: nat)
    requires i < |order| && forall n :: n in order ==> n in m && IsBytes(m[n])
    ensures order[i] in m && IsBytes(m[order[i]])
    ensures Others(m, order[..i + 1]) == Others(m, order[..i]) + [Setting(Other(order[i]), QueryEscape(m[order[i]]))]
  {
    assert order[i] in order;
    assert order[..i + 1][..i] == order[..i];
  }

  lemma NoneKnown(cfg: Config, env: Env)
    requires Bytewise(cfg, env)
    ensures Known(cfg, env, 0) == []
  {
    hide Bytewise;
  }

  method FindLast(s: string, c: char) returns (i: int)
    ensures i == LastIndex(s, c)
  {
    i := |s| - 1;
    assert s[..|s|] == s;
    while i >= 0
      invariant -1 <= i < |s| && LastIndex(s, c) == LastIndex(s[..i + 1], c)
    {
      assert s[..i + 1][..i] == s[..i];
      if s[i] == c {
        return;
      }
      i := i - 1;
    }
  }

  method FindFirst(s: string, c: char) returns (i: int)
    ensures i == FirstIndex(s, c)
  {
    i := 0;
    while i < |s|
      invariant 0 <= i <= |s|
      invariant FirstIndex(s, c) == if FirstIndex(s[i..], c) == -1 then -1 else i + FirstIndex(s[i..], c)
    {
      assert s[i..][1..] == s[i + 1..];
      if s[i] == c {
        return;
      }
      i := i + 1;
    }
    i := -1;
  }

  /** Assigns the parameters one after another. */
  method ParseDSNParams(start: Config, params: string, env: Env) returns (r: Result<Config>)
    ensures r == AssignTexts(start, Split(params, '&'), env)
  {
    hide Assign, KeyOf, Split;
    var texts := Split(params, '&');
    var cfg := start;
    for n := 0 to |texts|
      invariant AssignTexts(start, texts, env) == AssignTexts(cfg, texts[n..], env)
    {
      assert texts[n..][1..] == texts[n + 1..];
      var text := texts[n];
      var i := FindFirst(text, '=');
      if i == -1 {
        continue;
      }
      r := Assign(cfg, KeyOf(text[..i]), text[i + 1..], env);
      if r.Err? {
        return;
      }
      cfg := r.value;
    }
    r := Ok(cfg);
  }

  /** username[:password] */
  method ParseCredentials(start: Config, cred: string) returns (cfg: Config)
    ensures cfg == ParseUser(start, cred)
  {
    cfg := start;
    var k := FindFirst(cred, ':');
    if k == -1 {
      cfg := cfg.(user := cred);
    } else {
      cfg := cfg.(user := cred[..k], passwd := cred[k + 1..]);
    }
  }

  /** protocol[(address)] */
  method ParseProtocol(start: Config, s: string) returns (r: Result<Config>)
    ensures r == ParseNet(start, s)
  {
    var k := FindFirst(s, '(');
    if k == -1 {
      return Ok(start.(net := s));
    }
    if s[|s| - 1] != ')' {
      return Err(if ')' in s[k + 1..] then Unescaped else BadAddress);
    }
    r := Ok(start.(addr := s[k + 1..|s| - 1], net := s[..k]));
  }

  /** [username[:password]@][protocol[(address)]] */
  method ParseAddress(start: Config, left: string) returns (r: Result<Config>)
    requires left != ""
    ensures r == ParseLeft(start, left)
  {
    hide ParseUser, ParseNet;
    var cfg := start;
    var j := FindLast(left, '@');
    if j != -1 {
      cfg := ParseCredentials(cfg, left[..j]);
    }
    r := ParseProtocol(cfg, left[j + 1..]);
  }

  /** Parses a DSN. */
  method ParseDSN(dsn: string, env: Env) returns (r: Result<Config>)
    ensures r == Parse(dsn, env)
  {
    hide AssignTexts, Split, Normalize, ParseNet, ParseUser;
    r := Ok(NEW_CONFIG);
    var i := FindLast(dsn, '/');
    if i == -1 {
      if |dsn| > 0 {
        return Err(NoSlash);
      }
      return Normalize(NEW_CONFIG, env);
    }
    if i > 0 {
      r := ParseAddress(NEW_CONFIG, dsn[..i]);
      if r.Err? {
        return;
      }
    }
    assert ParseLeft(NEW_CONFIG, dsn[..i]) == r;
    hide ParseLeft;
    var right := dsn[i + 1..];
    var q := FindFirst(right, '?');
    if q == -1 {
      return Normalize(r.value.(dbName := right), env);
    }
    r := ParseDSNParams(r.value, right[q + 1..], env);
    if r.Err? {
      return;
    }
    r := Normalize(r.value.(dbName := right[..q]), env);
  }

  /** Printing and parsing a printable configuration gives it back. */
  method ThereAndBack(cfg: Config, env: Env) returns (r: Result<Config>)
    requires Printable(cfg, env)
    ensures r == Ok(cfg)
  {
    hide Printable, Parse, Format, GoodOrder, Ascending;
    assert Bytewise(cfg, env) by { PrintableIsBytewise(cfg, env); }
    var dsn := FormatDSN(cfg, env);
    ghost var order :| GoodOrder(cfg, order) && Ascending(order) && dsn == Format(cfg, env, order);
    DsnRoundTrip(cfg, env, order);
    r := ParseDSN(dsn, env);
  }

  lemma PrintableIsBytewise(cfg: Config, env: Env)
    requires Printable(cfg, env)
    ensures Bytewise(cfg, env)
  {
  }
}
