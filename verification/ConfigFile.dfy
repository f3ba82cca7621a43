/** The torrc-style configuration file (pkg/config/loader.go), line by line.

    A line is an option's name and the words after it; the first error stops the loading, unknown
    options are ignored, and options that may be repeated add to their lists. A config is saved as one
    line for each option, and one for each element of a list. Lower-casing covers ASCII letters. */
module ConfigFile {
  import opened Decimal
  import opened Letters
  import opened Wrappers
  import opened Words
  import opened Durations

  datatype OnionService = OnionService(serviceDir: string, virtualPort: int, targetAddr: string)

  /** The fields that are validated but not carried by the file. */
  datatype Unsaved = Unsaved(
    metricsPort: int, enableMetrics: bool, onionServices: seq<OnionService>,
    connectionPoolMaxIdle: int, connectionPoolMaxLife: int, circuitPoolMinSize: int, circuitPoolMaxSize: int,
    isolationLevel: string)

  /** The fields the file carries, and the others. */
  datatype Config = Config(
    socksPort: int, controlPort: int, dataDirectory: string,
    circuitBuildTimeout: int, maxCircuitDirtiness: int, newCircuitPeriod: int, numEntryGuards: int,
    useEntryGuards: bool, useBridges: bool,
    bridgeAddresses: seq<string>, excludeNodes: seq<string>, excludeExitNodes: seq<string>,
    connLimit: int, dormantTimeout: int, logLevel: string,
    unsaved: Unsaved)

  datatype Key =
    | SocksPort | ControlPort | DataDirectory | CircuitBuildTimeout | MaxCircuitDirtiness
    | NewCircuitPeriod | NumEntryGuards | UseEntryGuards | UseBridges | Bridge | ExcludeNodes
    | ExcludeExitNodes | ConnLimit | DormantTimeout | LogLevel

  function Name(k: Key): string {
    match k
    case SocksPort => "SocksPort"
    case ControlPort => "ControlPort"
    case DataDirectory => "DataDirectory"
    case CircuitBuildTimeout => "CircuitBuildTimeout"
    case MaxCircuitDirtiness => "MaxCircuitDirtiness"
    case NewCircuitPeriod => "NewCircuitPeriod"
    case NumEntryGuards => "NumEntryGuards"
    case UseEntryGuards => "UseEntryGuards"
    case UseBridges => "UseBridges"
    case Bridge => "Bridge"
    case ExcludeNodes => "ExcludeNodes"
    case ExcludeExitNodes => "ExcludeExitNodes"
    case ConnLimit => "ConnLimit"
    case DormantTimeout => "DormantTimeout"
    case LogLevel => "LogLevel"
  }

  const KEYS := [SocksPort, ControlPort, DataDirectory, CircuitBuildTimeout, MaxCircuitDirtiness,
                 NewCircuitPeriod, NumEntryGuards, UseEntryGuards, UseBridges, Bridge, ExcludeNodes,
                 ExcludeExitNodes, ConnLimit, DormantTimeout, LogLevel]

  /** The option a key string names, if it is a known one. */
  function Lookup(name: string, keys: seq<Key>): Option<Key> {
    if keys == [] then None
    else if Name(keys[0]) == name then Some(keys[0])
    else Lookup(name, keys[1..])
  }

  // ----- values -------------------------------------------------------------------------------

  function ParseBool(text: string): bool {
    var s := ToLower(TrimSpace(text));
    s == "1" || s == "true" || s == "yes" || s == "on"
  }

  function FormatBool(b: bool): string {
    if b then "1" else "0"
  }

  function SetInt(c: Config, key: Key, n: Option<int>): (bool, Config) {
    if n.None? then (false, c)
    else if key == SocksPort then (true, c.(socksPort := n.value))
    else if key == ControlPort then (true, c.(controlPort := n.value))
    else if key == NumEntryGuards then (true, c.(numEntryGuards := n.value))
    else (true, c.(connLimit := n.value))
  }

  function SetDuration(c: Config, key: Key, d: Option<int>): (bool, Config) {
    if d.None? then (false, c)
    else if key == CircuitBuildTimeout then (true, c.(circuitBuildTimeout := d.value))
    else if key == MaxCircuitDirtiness then (true, c.(maxCircuitDirtiness := d.value))
    else if key == NewCircuitPeriod then (true, c.(newCircuitPeriod := d.value))
    else (true, c.(dormantTimeout := d.value))
  }

  predicate IsList(key: Key) {
    key == Bridge || key == ExcludeNodes || key == ExcludeExitNodes
  }

  function Append(c: Config, key: Key, values: seq<string>): Config
    requires IsList(key)
  {
    if key == Bridge then c.(bridgeAddresses := c.bridgeAddresses + values)
    else if key == ExcludeNodes then c.(excludeNodes := c.excludeNodes + values)
    else c.(excludeExitNodes := c.excludeExitNodes + values)
  }

  function Set(c: Config, key: Key, value: string): (bool, Config) {
    match key
    case SocksPort | ControlPort | NumEntryGuards | ConnLimit => SetInt(c, key, Atoi(value))
    case CircuitBuildTimeout | MaxCircuitDirtiness | NewCircuitPeriod | DormantTimeout =>
      SetDuration(c, key, ParseDuration(value))
    case DataDirectory => (true, c.(dataDirectory := value))
    case UseEntryGuards => (true, c.(useEntryGuards := ParseBool(value)))
    case UseBridges => (true, c.(useBridges := ParseBool(value)))
    case Bridge | ExcludeNodes | ExcludeExitNodes => (true, Append(c, key, [value]))
    case LogLevel => (true, c.(logLevel := ToLower(value)))
  }

  /** `processConfigOption`: whether the value was understood, and the config after it. */
  function Process(c: Config, name: string, value: string): (bool, Config) {
    match Lookup(name, KEYS)
    case None => (true, c)
    case Some(key) => Set(c, key, value)
  }

  // ----- lines --------------------------------------------------------------------------------

  /** The key and value of a line, unless it is blank or a comment. */
  function ParseLine(text: string): Option<(string, string)> {
    var line := TrimSpace(text);
    if line == "" || line[0] == '#' then None
    else
      var parts := Fields(line);
      if |parts| < 1 then None else Some((parts[0], Join(parts[1..])))
  }

  function LoadLine(c: Config, text: string): (bool, Config) {
    match ParseLine(text)
    case None => (true, c)
    case Some((name, value)) => Process(c, name, value)
  }

  function LoadLines(c: Config, lines: seq<string>): (bool, Config)
    decreases |lines|
  {
    if lines == [] then (true, c)
    else
      var (ok, c') := LoadLine(c, lines[0]);
      if ok then LoadLines(c', lines[1..]) else (false, c')
  }

  predicate ValidPort(p: int) {
    0 <= p <= 65535
  }

  /** The ports in use are different; 0 means unused. */
  predicate PortsDiffer(socks: int, control: int, metrics: int) {
    && !(control > 0 && control == socks)
    && !(metrics > 0 && (metrics == socks || metrics == control))
  }

  predicate ValidService(s: OnionService) {
    1 <= s.virtualPort <= 65535 && s.targetAddr != "" && s.serviceDir != ""
  }

  predicate ValidUnsaved(u: Unsaved) {
    && ValidPort(u.metricsPort)
    && (forall i :: 0 <= i < |u.onionServices| ==> ValidService(u.onionServices[i]))
    && u.connectionPoolMaxIdle >= 0 && u.connectionPoolMaxLife >= 0
    && 0 <= u.circuitPoolMinSize <= u.circuitPoolMaxSize
    && u.isolationLevel in {"none", "destination", "credential", "port", "session"}
  }

  /** What `Validate` accepts. */
  predicate Valid(c: Config) {
    && ValidPort(c.socksPort) && ValidPort(c.controlPort)
    && PortsDiffer(c.socksPort, c.controlPort, c.unsaved.metricsPort)
    && c.circuitBuildTimeout > 0 && c.maxCircuitDirtiness > 0
    && c.numEntryGuards >= 1 && c.connLimit >= 1
    && c.logLevel in {"debug", "info", "warn", "error"}
    && ValidUnsaved(c.unsaved)
  }

  function Load(c: Config, lines: seq<string>): (bool, Config) {
    var (ok, c') := LoadLines(c, lines);
    (ok && Valid(c'), c')
  }

  function Line(k: Key, value: string): string {
    Name(k) + " " + value
  }

  type CommentText = s: string | s != "" && s[0] == '#' witness "#"

  datatype Item = Blank | Comment(text: CommentText) | Option(key: Key, value: string)

  function Text(i: Item): string {
    match i
    case Blank => ""
    case Comment(text) => text
    case Option(key, value) => Line(key, value)
  }

  function Texts(items: seq<Item>): (r: seq<string>)
    ensures |r| == |items|
  {
    seq(|items|, i requires 0 <= i < |items| => Text(items[i]))
  }

  function HeaderItems(): seq<Item> {
    [Comment("# go-tor configuration file"), Comment("# Generated automatically - edit with care"), Blank,
     Comment("# Network Settings")]
  }

  function AddressItems(c: Config): seq<Item> {
    [Option(SocksPort, FormatInt(c.socksPort)), Option(ControlPort, FormatInt(c.controlPort)),
     Option(DataDirectory, c.dataDirectory), Blank]
  }

  function NetworkItems(c: Config): seq<Item> {
    HeaderItems() + AddressItems(c)
  }

  function TimeoutItems(c: Config): seq<Item> {
    [Comment("# Circuit Settings"), Option(CircuitBuildTimeout, FormatDuration(c.circuitBuildTimeout)),
     Option(MaxCircuitDirtiness, FormatDuration(c.maxCircuitDirtiness))]
  }

  function RotationItems(c: Config): seq<Item> {
    [Option(NewCircuitPeriod, FormatDuration(c.newCircuitPeriod)),
     Option(NumEntryGuards, FormatInt(c.numEntryGuards)), Blank]
  }

  function CircuitItems(c: Config): seq<Item> {
    TimeoutItems(c) + RotationItems(c)
  }

  function SwitchItems(c: Config): seq<Item> {
    [Comment("# Path Selection"), Option(UseEntryGuards, FormatBool(c.useEntryGuards)),
     Option(UseBridges, FormatBool(c.useBridges))]
  }

  function LimitItems(c: Config): seq<Item> {
    [Blank, Comment("# Network Behavior"), Option(ConnLimit, FormatInt(c.connLimit)),
     Option(DormantTimeout, FormatDuration(c.dormantTimeout)), Blank]
  }

  function LogItems(c: Config): seq<Item> {
    [Comment("# Logging"), Option(LogLevel, c.logLevel)]
  }

  function ListItems(k: Key, values: seq<string>): (r: seq<Item>)
    ensures |r| == |values|
  {
    seq(|values|, i requires 0 <= i < |values| => Option(k, values[i]))
  }

  function PathItems(c: Config): seq<Item> {
    SwitchItems(c) + (ListItems(Bridge, c.bridgeAddresses)
    + (ListItems(ExcludeNodes, c.excludeNodes) + ListItems(ExcludeExitNodes, c.excludeExitNodes)))
  }

  /** The file `SaveToFile` writes. */
  function SavedItems(c: Config): seq<Item> {
    NetworkItems(c) + (CircuitItems(c) + (PathItems(c) + (LimitItems(c) + LogItems(c))))
  }

  // ----- reading back one line ----------------------------------------------------------------

  lemma LettersOnly(s: string)
    requires s != "" && forall c :: c in s ==> 'A' <= c <= 'z'
    ensures IsWord(s) && s[0] != '#'
  {
    forall i | 0 <= i < |s|
      ensures !IsSpace(s[i])
    {
      assert s[i] in s;
    }
    assert s[0] in s;
  }

  predicate ComesEarly(k: Key) {
    k in {SocksPort, ControlPort, DataDirectory, CircuitBuildTimeout, MaxCircuitDirtiness, NewCircuitPeriod,
          NumEntryGuards}
  }

  lemma EarlyNamesAreWords(k: Key)
    requires ComesEarly(k)
    ensures IsWord(Name(k)) && Name(k)[0] != '#'
  {
    LettersOnly(Name(k));
  }

  lemma LateNamesAreWords(k: Key)
    requires !ComesEarly(k)
    ensures IsWord(Name(k)) && Name(k)[0] != '#'
  {
    LettersOnly(Name(k));
  }

  lemma NamesAreWords(k: Key)
    ensures IsWord(Name(k)) && Name(k)[0] != '#'
  {
    if ComesEarly(k) {
      EarlyNamesAreWords(k);
    } else {
      LateNamesAreWords(k);
    }
  }

  lemma NamesDiffer(a: Key, b: Key)
    ensures Name(a) == Name(b) <==> a == b
  {
  }

  lemma {:induction false} LookupFinds(k: Key, keys: seq<Key>)
    requires k in keys
    ensures Lookup(Name(k), keys) == Some(k)
  {
    NamesDiffer(keys[0], k);
    if keys[0] != k {
      LookupFinds(k, keys[1..]);
    }
  }

  lemma LookupOfName(k: Key)
    ensures Lookup(Name(k), KEYS) == Some(k)
  {
    assert k in KEYS;
    LookupFinds(k, KEYS);
  }

  /** A written line is read back as its key and its value made tidy. */
  lemma LineReadsTidied(k: Key, value: string)
    ensures ParseLine(Line(k, value)) == Some((Name(k), Tidied(value)))
  {
    NamesAreWords(k);
    var name, line := Name(k), Line(k, value);
    assert line[0] == name[0];
    FieldsOfTrimmed(line);
    FieldsOfWordAndRest(name, value);
    assert SkipSpaces(line) == line;
    assert ([name] + Fields(value))[1..] == Fields(value);
  }

  /** So it is read back unchanged exactly when the value is tidy. */
  lemma LineReadsBackIffTidy(k: Key, value: string)
    ensures ParseLine(Line(k, value)) == Some((Name(k), value)) <==> Tidy(value)
  {
    LineReadsTidied(k, value);
    JoinOfFieldsIffTidy(value);
  }

  // ----- reading back the file ----------------------------------------------------------------

  function Effect(c: Config, i: Item): (bool, Config) {
    if i.Option? then Set(c, i.key, Tidied(i.value)) else (true, c)
  }

  /** The effect of items i.. one after the other. */
  function SetFrom(c: Config, items: seq<Item>, i: nat): (bool, Config)
    requires i <= |items|
    decreases |items| - i
  {
    if i == |items| then (true, c)
    else
      var (ok, c') := Effect(c, items[i]);
      if ok then SetFrom(c', items, i + 1) else (false, c')
  }

  lemma ItemTakesEffect(c: Config, i: Item)
    ensures LoadLine(c, Text(i)) == Effect(c, i)
  {
    match i
    case Blank =>
    case Comment(text) =>
      assert SkipSpaces(text) == text;
      FieldsOfTrimmed(text);
    case Option(key, value) =>
      LineReadsTidied(key, value);
      LookupOfName(key);
  }

  /** Loading the text of items has exactly the items' effect. */
  lemma {:induction false} ItemsTakeEffect(c: Config, items: seq<Item>, i: nat)
    requires i <= |items|
    ensures LoadLines(c, Texts(items)[i..]) == SetFrom(c, items, i)
    decreases |items| - i
  {
    var lines := Texts(items);
    if i < |items| {
      assert lines[i..][0] == Text(items[i]) && lines[i..][1..] == lines[i + 1..];
      ItemTakesEffect(c, items[i]);
      ItemsTakeEffect(Effect(c, items[i]).1, items, i + 1);
    }
  }

  lemma AllItemsTakeEffect(c: Config, items: seq<Item>)
    ensures LoadLines(c, Texts(items)) == SetFrom(c, items, 0)
  {
    assert Texts(items)[0..] == Texts(items);
    ItemsTakeEffect(c, items, 0);
  }

  lemma {:induction false} SetFromShift(c: Config, a: seq<Item>, b: seq<Item>, j: nat)
    requires j <= |b|
    ensures SetFrom(c, a + b, |a| + j) == SetFrom(c, b, j)
    decreases |b| - j
  {
    if j < |b| {
      assert (a + b)[|a| + j] == b[j];
      SetFromShift(Effect(c, b[j]).1, a, b, j + 1);
    }
  }

  lemma {:induction false} SetFromConcat(c: Config, a: seq<Item>, b: seq<Item>, i: nat)
    requires i <= |a| && SetFrom(c, a, i).0
    ensures SetFrom(c, a + b, i) == SetFrom(SetFrom(c, a, i).1, b, 0)
    decreases |a| - i
  {
    if i == |a| {
      SetFromShift(c, a, b, 0);
    } else {
      assert (a + b)[i] == a[i];
      SetFromConcat(Effect(c, a[i]).1, a, b, i + 1);
    }
  }

  lemma AppendAppends(c: Config, k: Key, a: seq<string>, b: seq<string>)
    requires IsList(k)
    ensures Append(Append(c, k, a), k, b) == Append(c, k, a + b)
    ensures Append(c, k, []) == c
  {
  }

  function TidiedAll(values: seq<string>): (r: seq<string>)
    ensures |r| == |values|
  {
    seq(|values|, i requires 0 <= i < |values| => Tidied(values[i]))
  }

  lemma {:induction false} ListTakesEffect(c: Config, k: Key, values: seq<string>, i: nat)
    requires IsList(k) && i <= |values|
    ensures SetFrom(c, ListItems(k, values), i) == (true, Append(c, k, TidiedAll(values)[i..]))
    decreases |values| - i
  {
    var all := TidiedAll(values);
    if i == |values| {
      AppendAppends(c, k, [], []);
      assert all[i..] == [];
    } else {
      AppendAppends(c, k, [all[i]], all[i + 1..]);
      assert [all[i]] + all[i + 1..] == all[i..];
      ListTakesEffect(Append(c, k, [all[i]]), k, values, i + 1);
    }
  }

  // ----- values that read back ----------------------------------------------------------------

  predicate IsInt64(n: int) {
    MIN_INT64 <= n <= MAX_INT64
  }

  lemma NumbersAreTidy(n: int)
    ensures Tidy(FormatInt(n))
  {
  }

  lemma SuffixedIsTidy(n: int, u: char)
    requires !IsSpace(u)
    ensures Tidy(FormatInt(n) + [u])
  {
  }

  lemma DurationsAreTidy(d: int)
    ensures Tidy(FormatDuration(d))
  {
    SuffixedIsTidy(d / DAY, 'd');
    SuffixedIsTidy(d / HOUR, 'h');
    SuffixedIsTidy(d / MINUTE, 'm');
    SuffixedIsTidy(TruncDiv(d, SECOND), 's');
  }

  lemma BoolRoundTrip(b: bool)
    ensures ParseBool(Tidied(FormatBool(b))) == b
  {
    JoinOfFieldsIffTidy(FormatBool(b));
    TrimmedAlready(FormatBool(b));
    assert ToLower(FormatBool(b)) == FormatBool(b);
  }

  // ----- the round trip -----------------------------------------------------------------------

  /** Numbers as the source holds them, and a level whose case `ToLower` covers. */
  predicate InScope(c: Config) {
    && IsAscii(c.logLevel)
    && IsInt64(c.socksPort) && IsInt64(c.controlPort) && IsInt64(c.numEntryGuards) && IsInt64(c.connLimit)
    && IsInt64(c.circuitBuildTimeout) && IsInt64(c.maxCircuitDirtiness)
    && IsInt64(c.newCircuitPeriod) && IsInt64(c.dormantTimeout)
  }

  /** What saving keeps of a config: white space tidied, the level in lower case, whole seconds. */
  function Cleaned(c: Config): Config {
    c.(dataDirectory := Tidied(c.dataDirectory), logLevel := ToLower(Tidied(c.logLevel)),
       circuitBuildTimeout := Truncated(c.circuitBuildTimeout), maxCircuitDirtiness := Truncated(c.maxCircuitDirtiness),
       newCircuitPeriod := Truncated(c.newCircuitPeriod), dormantTimeout := Truncated(c.dormantTimeout),
       bridgeAddresses := TidiedAll(c.bridgeAddresses), excludeNodes := TidiedAll(c.excludeNodes),
       excludeExitNodes := TidiedAll(c.excludeExitNodes))
  }

  lemma SavedInt(c: Config, k: Key, n: int)
    requires k == SocksPort || k == ControlPort || k == NumEntryGuards || k == ConnLimit
    requires IsInt64(n)
    ensures Effect(c, Option(k, FormatInt(n))) == SetInt(c, k, Some(n))
  {
    NumbersAreTidy(n);
    JoinOfFieldsIffTidy(FormatInt(n));
    AtoiRoundTrip(n);
  }

  lemma FormattedReads(d: int)
    requires IsInt64(d)
    ensures ParseDuration(Tidied(FormatDuration(d))) == Some(Truncated(d))
  {
    DurationsAreTidy(d);
    JoinOfFieldsIffTidy(FormatDuration(d));
    DurationTruncates(d);
  }

  lemma SavedDuration(c: Config, k: Key, d: int)
    requires k == CircuitBuildTimeout || k == MaxCircuitDirtiness || k == NewCircuitPeriod || k == DormantTimeout
    requires IsInt64(d)
    ensures Effect(c, Option(k, FormatDuration(d))) == SetDuration(c, k, Some(Truncated(d)))
  {
    hide ParseDuration, FormatDuration, Tidied, Truncated;
    FormattedReads(d);
  }

  lemma {:induction false} CommentsDoNothing(c: Config, items: seq<Item>, i: nat)
    requires i <= |items| && forall j :: 0 <= j < |items| ==> !items[j].Option?
    ensures SetFrom(c, items, i) == (true, c)
    decreases |items| - i
  {
    if i < |items| {
      CommentsDoNothing(c, items, i + 1);
    }
  }

  lemma AddressesTakeEffect(c: Config, base: Config)
    requires InScope(c)
    ensures var k := Cleaned(c);
            SetFrom(base, AddressItems(c), 0) ==
            (true, base.(socksPort := k.socksPort, controlPort := k.controlPort, dataDirectory := k.dataDirectory))
  {
    var l := AddressItems(c);
    var b1 := base.(socksPort := c.socksPort);
    var b2 := b1.(controlPort := c.controlPort);
    var b3 := b2.(dataDirectory := Tidied(c.dataDirectory));
    SavedInt(base, SocksPort, c.socksPort);
    SavedInt(b1, ControlPort, c.controlPort);
    assert SetFrom(b3, l, 3) == (true, b3);
    assert SetFrom(b2, l, 2) == (true, b3);
    assert SetFrom(b1, l, 1) == (true, b3);
  }

  lemma NetworkTakesEffect(c: Config, base: Config)
    requires InScope(c)
    ensures var k := Cleaned(c);
            SetFrom(base, NetworkItems(c), 0) ==
            (true, base.(socksPort := k.socksPort, controlPort := k.controlPort, dataDirectory := k.dataDirectory))
  {
    CommentsDoNothing(base, HeaderItems(), 0);
    SetFromConcat(base, HeaderItems(), AddressItems(c), 0);
    AddressesTakeEffect(c, base);
  }

  lemma TimeoutsTakeEffect(c: Config, base: Config)
    requires InScope(c)
    ensures var k := Cleaned(c);
            SetFrom(base, TimeoutItems(c), 0) ==
            (true, base.(circuitBuildTimeout := k.circuitBuildTimeout, maxCircuitDirtiness := k.maxCircuitDirtiness))
  {
    var l := TimeoutItems(c);
    var b1 := base.(circuitBuildTimeout := Truncated(c.circuitBuildTimeout));
    var b2 := b1.(maxCircuitDirtiness := Truncated(c.maxCircuitDirtiness));
    SavedDuration(base, CircuitBuildTimeout, c.circuitBuildTimeout);
    SavedDuration(b1, MaxCircuitDirtiness, c.maxCircuitDirtiness);
    assert SetFrom(b1, l, 2) == (true, b2);
    assert SetFrom(base, l, 1) == (true, b2);
  }

  lemma RotationTakesEffect(c: Config, base: Config)
    requires InScope(c)
    ensures var k := Cleaned(c);
            SetFrom(base, RotationItems(c), 0) ==
            (true, base.(newCircuitPeriod := k.newCircuitPeriod, numEntryGuards := k.numEntryGuards))
  {
    var l := RotationItems(c);
    var b1 := base.(newCircuitPeriod := Truncated(c.newCircuitPeriod));
    var b2 := b1.(numEntryGuards := c.numEntryGuards);
    SavedDuration(base, NewCircuitPeriod, c.newCircuitPeriod);
    SavedInt(b1, NumEntryGuards, c.numEntryGuards);
    assert SetFrom(b2, l, 2) == (true, b2);
    assert SetFrom(b1, l, 1) == (true, b2);
  }

  lemma SwitchesTakeEffect(c: Config, base: Config)
    ensures SetFrom(base, SwitchItems(c), 0) ==
            (true, base.(useEntryGuards := c.useEntryGuards, useBridges := c.useBridges))
  {
    var l := SwitchItems(c);
    BoolRoundTrip(c.useEntryGuards);
    BoolRoundTrip(c.useBridges);
    var b1 := base.(useEntryGuards := c.useEntryGuards);
    var b2 := b1.(useBridges := c.useBridges);
    assert SetFrom(b1, l, 2) == (true, b2);
    assert SetFrom(base, l, 1) == (true, b2);
  }

  lemma LimitsTakeEffect(c: Config, base: Config)
    requires InScope(c)
    ensures var k := Cleaned(c);
            SetFrom(base, LimitItems(c), 0) ==
            (true, base.(connLimit := k.connLimit, dormantTimeout := k.dormantTimeout))
  {
    var l := LimitItems(c);
    var b1 := base.(connLimit := c.connLimit);
    var b2 := b1.(dormantTimeout := Truncated(c.dormantTimeout));
    SavedInt(base, ConnLimit, c.connLimit);
    SavedDuration(b1, DormantTimeout, c.dormantTimeout);
    assert SetFrom(b2, l, 4) == (true, b2);
    assert SetFrom(b1, l, 3) == (true, b2);
    assert SetFrom(base, l, 2) == (true, b2);
  }

  lemma LogTakesEffect(c: Config, base: Config)
    ensures SetFrom(base, LogItems(c), 0) == (true, base.(logLevel := Cleaned(c).logLevel))
  {
    var l := LogItems(c);
    assert SetFrom(base, l, 1) == (true, base.(logLevel := Cleaned(c).logLevel));
  }

  lemma PathTakesEffect(c: Config, base: Config)
    ensures var k := Cleaned(c);
            SetFrom(base, PathItems(c), 0) ==
            (true, base.(useEntryGuards := k.useEntryGuards, useBridges := k.useBridges,
                         bridgeAddresses := base.bridgeAddresses + k.bridgeAddresses,
                         excludeNodes := base.excludeNodes + k.excludeNodes,
                         excludeExitNodes := base.excludeExitNodes + k.excludeExitNodes))
  {
    var bridges, nodes, exits := ListItems(Bridge, c.bridgeAddresses), ListItems(ExcludeNodes, c.excludeNodes),
                                 ListItems(ExcludeExitNodes, c.excludeExitNodes);
    var k := Cleaned(c);
    SwitchesTakeEffect(c, base);
    var b1 := base.(useEntryGuards := c.useEntryGuards, useBridges := c.useBridges);
    SetFromConcat(base, SwitchItems(c), bridges + (nodes + exits), 0);
    ListTakesEffect(b1, Bridge, c.bridgeAddresses, 0);
    assert k.bridgeAddresses[0..] == k.bridgeAddresses;
    var b2 := Append(b1, Bridge, k.bridgeAddresses);
    SetFromConcat(b1, bridges, nodes + exits, 0);
    ListTakesEffect(b2, ExcludeNodes, c.excludeNodes, 0);
    assert k.excludeNodes[0..] == k.excludeNodes;
    var b3 := Append(b2, ExcludeNodes, k.excludeNodes);
    SetFromConcat(b2, nodes, exits, 0);
    ListTakesEffect(b3, ExcludeExitNodes, c.excludeExitNodes, 0);
    assert k.excludeExitNodes[0..] == k.excludeExitNodes;
  }

  /** What a config becomes when it is loaded over another: every written field is set, lists are
      appended to those already there, and the other fields stay. */
  function Merged(c: Config, base: Config): Config {
    c.(bridgeAddresses := base.bridgeAddresses + c.bridgeAddresses,
       excludeNodes := base.excludeNodes + c.excludeNodes,
       excludeExitNodes := base.excludeExitNodes + c.excludeExitNodes,
       unsaved := base.unsaved)
  }

  lemma SavedItemsTakeEffect(c: Config, base: Config)
    requires InScope(c)
    ensures SetFrom(base, SavedItems(c), 0) == (true, Merged(Cleaned(c), base))
  {
    NetworkTakesEffect(c, base);
    var b1 := SetFrom(base, NetworkItems(c), 0).1;
    SetFromConcat(base, NetworkItems(c), CircuitItems(c) + (PathItems(c) + (LimitItems(c) + LogItems(c))), 0);
    TimeoutsTakeEffect(c, b1);
    SetFromConcat(b1, TimeoutItems(c), RotationItems(c), 0);
    RotationTakesEffect(c, SetFrom(b1, TimeoutItems(c), 0).1);
    var b2 := SetFrom(b1, CircuitItems(c), 0).1;
    SetFromConcat(b1, CircuitItems(c), PathItems(c) + (LimitItems(c) + LogItems(c)), 0);
    PathTakesEffect(c, b2);
    var b3 := SetFrom(b2, PathItems(c), 0).1;
    SetFromConcat(b2, PathItems(c), LimitItems(c) + LogItems(c), 0);
    LimitsTakeEffect(c, b3);
    var b4 := SetFrom(b3, LimitItems(c), 0).1;
    SetFromConcat(b3, LimitItems(c), LogItems(c), 0);
    LogTakesEffect(c, b4);
  }

  /** Loading a saved config succeeds exactly when the merged config is valid, and leaves the cleaned
      config merged into what was there. */
  lemma LoadOfSaved(c: Config, base: Config)
    requires InScope(c)
    ensures Load(base, Texts(SavedItems(c))) == (Valid(Merged(Cleaned(c), base)), Merged(Cleaned(c), base))
  {
    SavedItemsTakeEffect(c, base);
    AllItemsTakeEffect(base, SavedItems(c));
  }

  ghost predicate AllTidy(values: seq<string>) {
    forall i :: 0 <= i < |values| ==> Tidy(values[i])
  }

  /** The configs that survive: whole seconds, tidy strings, a lower-case level. */
  ghost predicate Savable(c: Config) {
    && c.circuitBuildTimeout % SECOND == 0 && c.maxCircuitDirtiness % SECOND == 0
    && c.newCircuitPeriod % SECOND == 0 && c.dormantTimeout % SECOND == 0
    && Tidy(c.dataDirectory) && Tidy(c.logLevel) && ToLower(c.logLevel) == c.logLevel
    && AllTidy(c.bridgeAddresses) && AllTidy(c.excludeNodes) && AllTidy(c.excludeExitNodes)
  }

  lemma TidiedAllIff(values: seq<string>)
    ensures TidiedAll(values) == values <==> AllTidy(values)
  {
    forall i | 0 <= i < |values|
      ensures Tidied(values[i]) == values[i] <==> Tidy(values[i])
    {
      JoinOfFieldsIffTidy(values[i]);
    }
    if TidiedAll(values) == values {
      forall i | 0 <= i < |values|
        ensures Tidy(values[i])
      {
        assert TidiedAll(values)[i] == Tidied(values[i]);
      }
    }
  }

  lemma LowerKeepsTidy(s: string)
    requires Tidy(s)
    ensures Tidy(ToLower(s)) && ToLower(ToLower(s)) == ToLower(s)
  {
  }

  lemma LoweredTidiedIff(s: string)
    ensures ToLower(Tidied(s)) == s <==> Tidy(s) && ToLower(s) == s
  {
    JoinOfFieldsIffTidy(s);
    FieldsAreWords(s);
    JoinIsTidy(Fields(s));
    LowerKeepsTidy(Tidied(s));
  }

  lemma CleanedIff(c: Config)
    ensures Cleaned(c) == c <==> Savable(c)
  {
    TruncatedSeconds(c.circuitBuildTimeout);
    TruncatedSeconds(c.maxCircuitDirtiness);
    TruncatedSeconds(c.newCircuitPeriod);
    TruncatedSeconds(c.dormantTimeout);
    JoinOfFieldsIffTidy(c.dataDirectory);
    LoweredTidiedIff(c.logLevel);
    TidiedAllIff(c.bridgeAddresses);
    TidiedAllIff(c.excludeNodes);
    TidiedAllIff(c.excludeExitNodes);
  }

  /** Config round trip: over a config with empty lists, loading restores every written field exactly
      when the strings are tidy, the level lower-case and the durations whole seconds. */
  lemma LoadRestoresSavedIff(c: Config, base: Config)
    requires InScope(c) && base.bridgeAddresses == [] && base.excludeNodes == [] && base.excludeExitNodes == []
    ensures Load(base, Texts(SavedItems(c))).1 == c.(unsaved := base.unsaved) <==> Savable(c)
  {
    LoadOfSaved(c, base);
    CleanedIff(c);
    var k := Cleaned(c);
    assert base.bridgeAddresses + k.bridgeAddresses == k.bridgeAddresses;
    assert base.excludeNodes + k.excludeNodes == k.excludeNodes;
    assert base.excludeExitNodes + k.excludeExitNodes == k.excludeExitNodes;
    var loaded := Merged(k, base);
    assert loaded.(unsaved := c.unsaved) == k;
  }

  // ----- the code -----------------------------------------------------------------------------

  lemma TextsConcat(a: seq<Item>, b: seq<Item>)
    ensures Texts(a + b) == Texts(a) + Texts(b)
  {
  }

  lemma AddressText(c: Config)
    ensures Texts(AddressItems(c)) == ["SocksPort " + FormatInt(c.socksPort), "ControlPort " + FormatInt(c.controlPort),
                                       "DataDirectory " + c.dataDirectory, ""]
  {
    assert "SocksPort" + " " == "SocksPort ";
    assert "ControlPort" + " " == "ControlPort ";
    assert "DataDirectory" + " " == "DataDirectory ";
  }

  lemma NetworkText(c: Config)
    ensures Texts(NetworkItems(c))
         == ["# go-tor configuration file", "# Generated automatically - edit with care", "", "# Network Settings"]
          + ["SocksPort " + FormatInt(c.socksPort), "ControlPort " + FormatInt(c.controlPort),
             "DataDirectory " + c.dataDirectory, ""]
  {
    AddressText(c);
    TextsConcat(HeaderItems(), AddressItems(c));
  }

  lemma TimeoutText(c: Config)
    ensures Texts(TimeoutItems(c))
         == ["# Circuit Settings", "CircuitBuildTimeout " + FormatDuration(c.circuitBuildTimeout),
             "MaxCircuitDirtiness " + FormatDuration(c.maxCircuitDirtiness)]
  {
    assert "CircuitBuildTimeout" + " " == "CircuitBuildTimeout ";
    assert "MaxCircuitDirtiness" + " " == "MaxCircuitDirtiness ";
  }

  lemma RotationText(c: Config)
    ensures Texts(RotationItems(c)) == ["NewCircuitPeriod " + FormatDuration(c.newCircuitPeriod),
                                        "NumEntryGuards " + FormatInt(c.numEntryGuards), ""]
  {
    assert "NewCircuitPeriod" + " " == "NewCircuitPeriod ";
    assert "NumEntryGuards" + " " == "NumEntryGuards ";
  }

  lemma CircuitText(c: Config)
    ensures Texts(CircuitItems(c))
         == ["# Circuit Settings", "CircuitBuildTimeout " + FormatDuration(c.circuitBuildTimeout),
             "MaxCircuitDirtiness " + FormatDuration(c.maxCircuitDirtiness)]
          + ["NewCircuitPeriod " + FormatDuration(c.newCircuitPeriod),
             "NumEntryGuards " + FormatInt(c.numEntryGuards), ""]
  {
    TimeoutText(c);
    RotationText(c);
    TextsConcat(TimeoutItems(c), RotationItems(c));
  }

  lemma SwitchText(c: Config)
    ensures Texts(SwitchItems(c)) == ["# Path Selection", "UseEntryGuards " + FormatBool(c.useEntryGuards),
                                      "UseBridges " + FormatBool(c.useBridges)]
  {
    assert "UseEntryGuards" + " " == "UseEntryGuards ";
    assert "UseBridges" + " " == "UseBridges ";
  }

  lemma LimitText(c: Config)
    ensures Texts(LimitItems(c)) == ["", "# Network Behavior", "ConnLimit " + FormatInt(c.connLimit),
                                     "DormantTimeout " + FormatDuration(c.dormantTimeout), ""]
  {
    assert "ConnLimit" + " " == "ConnLimit ";
    assert "DormantTimeout" + " " == "DormantTimeout ";
  }

  lemma LogText(c: Config)
    ensures Texts(LogItems(c)) == ["# Logging", "LogLevel " + c.logLevel]
  {
    assert "LogLevel" + " " == "LogLevel ";
  }

  /** Each value on a line of its own, behind the prefix. */
  function Prefixed(prefix: string, values: seq<string>): (lines: seq<string>)
    ensures |lines| == |values|
  {
    seq(|values|, i requires 0 <= i < |values| => prefix + values[i])
  }

  lemma BridgeText(values: seq<string>)
    ensures Texts(ListItems(Bridge, values)) == Prefixed("Bridge ", values)
  {
    assert "Bridge" + " " == "Bridge ";
  }

  lemma ExcludeText(values: seq<string>)
    ensures Texts(ListItems(ExcludeNodes, values)) == Prefixed("ExcludeNodes ", values)
    ensures Texts(ListItems(ExcludeExitNodes, values)) == Prefixed("ExcludeExitNodes ", values)
  {
    assert "ExcludeNodes" + " " == "ExcludeNodes ";
    assert "ExcludeExitNodes" + " " == "ExcludeExitNodes ";
  }

  lemma SavedTexts(c: Config)
    ensures Texts(SavedItems(c)) == Texts(NetworkItems(c)) + (Texts(CircuitItems(c))
               + ((Texts(SwitchItems(c)) + (Texts(ListItems(Bridge, c.bridgeAddresses))
                                           + (Texts(ListItems(ExcludeNodes, c.excludeNodes))
                                              + Texts(ListItems(ExcludeExitNodes, c.excludeExitNodes)))))
                  + (Texts(LimitItems(c)) + Texts(LogItems(c)))))
  {
    var b, n, e := ListItems(Bridge, c.bridgeAddresses), ListItems(ExcludeNodes, c.excludeNodes),
                   ListItems(ExcludeExitNodes, c.excludeExitNodes);
    TextsConcat(n, e);
    TextsConcat(b, n + e);
    TextsConcat(SwitchItems(c), b + (n + e));
    TextsConcat(LimitItems(c), LogItems(c));
    TextsConcat(PathItems(c), LimitItems(c) + LogItems(c));
    TextsConcat(CircuitItems(c), PathItems(c) + (LimitItems(c) + LogItems(c)));
    TextsConcat(NetworkItems(c), CircuitItems(c) + (PathItems(c) + (LimitItems(c) + LogItems(c))));
  }

  class ConfigStore {
    var cfg: Config

    constructor (cfg: Config)
      ensures this.cfg == cfg
    {
      this.cfg := cfg;
    }

    /** The cases of the switch. */
    method SetOption(key: Key, value: string) returns (ok: bool)
      modifies this
      ensures (ok, cfg) == Set(old(cfg), key, value)
    {
      hide Atoi, ParseDuration, ParseBool, ToLower;
      match key {
        case SocksPort | ControlPort | NumEntryGuards | ConnLimit =>
          var n := Atoi(value);
          if n.None? {
            return false;
          }
          cfg := SetInt(cfg, key, n).1;
        case CircuitBuildTimeout | MaxCircuitDirtiness | NewCircuitPeriod | DormantTimeout =>
          var d := ParseDuration(value);
          if d.None? {
            return false;
          }
          cfg := SetDuration(cfg, key, d).1;
        case DataDirectory => cfg := cfg.(dataDirectory := value);
        case UseEntryGuards => cfg := cfg.(useEntryGuards := ParseBool(value));
        case UseBridges => cfg := cfg.(useBridges := ParseBool(value));
        case Bridge => cfg := cfg.(bridgeAddresses := cfg.bridgeAddresses + [value]);
        case ExcludeNodes => cfg := cfg.(excludeNodes := cfg.excludeNodes + [value]);
        case ExcludeExitNodes => cfg := cfg.(excludeExitNodes := cfg.excludeExitNodes + [value]);
        case LogLevel => cfg := cfg.(logLevel := ToLower(value));
      }
      return true;
    }

    method ProcessConfigOption(name: string, value: string) returns (ok: bool)
      modifies this
      ensures (ok, cfg) == Process(old(cfg), name, value)
    {
      var key := Lookup(name, KEYS);
      if key.None? {
        return true;
      }
      ok := SetOption(key.value, value);
    }

    method ProcessLine(text: string) returns (ok: bool)
      modifies this
      ensures (ok, cfg) == LoadLine(old(cfg), text)
    {
      var pair := ParseLine(text);
      if pair.None? {
        return true;
      }
      ok := ProcessConfigOption(pair.value.0, pair.value.1);
    }

    /** A failing line leaves the options before it in effect. */
    method LoadFromFile(lines: seq<string>) returns (ok: bool)
      modifies this
      ensures (ok, cfg) == Load(old(cfg), lines)
    {
      assert lines[0..] == lines;
      for i := 0 to |lines|
        invariant LoadLines(cfg, lines[i..]) == LoadLines(old(cfg), lines)
      {
        assert lines[i..][0] == lines[i] && lines[i..][1..] == lines[i + 1..];
        var understood := ProcessLine(lines[i]);
        if !understood {
          return false;
        }
      }
      ok := Valid(cfg);
    }

    method ListToLines(prefix: string, values: seq<string>) returns (lines: seq<string>)
      ensures lines == Prefixed(prefix, values)
    {
      lines := [];
      for i := 0 to |values|
        invariant lines == Prefixed(prefix, values)[..i]
      {
        lines := lines + [prefix + values[i]];
      }
    }

    method SaveToFile() returns (lines: seq<string>)
      ensures lines == Texts(SavedItems(cfg))
    {
      var network := ["# go-tor configuration file", "# Generated automatically - edit with care", "",
                      "# Network Settings"]
                   + ["SocksPort " + FormatInt(cfg.socksPort), "ControlPort " + FormatInt(cfg.controlPort),
                      "DataDirectory " + cfg.dataDirectory, ""];
      NetworkText(cfg);
      var circuits := ["# Circuit Settings", "CircuitBuildTimeout " + FormatDuration(cfg.circuitBuildTimeout),
                       "MaxCircuitDirtiness " + FormatDuration(cfg.maxCircuitDirtiness)]
                    + ["NewCircuitPeriod " + FormatDuration(cfg.newCircuitPeriod),
                       "NumEntryGuards " + FormatInt(cfg.numEntryGuards), ""];
      CircuitText(cfg);
      var switches := ["# Path Selection", "UseEntryGuards " + FormatBool(cfg.useEntryGuards),
                       "UseBridges " + FormatBool(cfg.useBridges)];
      SwitchText(cfg);
      var bridges := ListToLines("Bridge ", cfg.bridgeAddresses);
      BridgeText(cfg.bridgeAddresses);
      var nodes := ListToLines("ExcludeNodes ", cfg.excludeNodes);
      ExcludeText(cfg.excludeNodes);
      var exits := ListToLines("ExcludeExitNodes ", cfg.excludeExitNodes);
      ExcludeText(cfg.excludeExitNodes);
      var limits := ["", "# Network Behavior", "ConnLimit " + FormatInt(cfg.connLimit),
                     "DormantTimeout " + FormatDuration(cfg.dormantTimeout), ""];
      LimitText(cfg);
      var logging := ["# Logging", "LogLevel " + cfg.logLevel];
      LogText(cfg);
      lines := network + (circuits + ((switches + (bridges + (nodes + exits))) + (limits + logging)));
      SavedTexts(cfg);
    }
  }
}
