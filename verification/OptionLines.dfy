/** What each line of the configuration file does (pkg/config/loader.go). */
module OptionLines {
  import opened Decimal
  import opened Letters
  import opened Wrappers
  import opened Words
  import opened Durations
  import opened ConfigFile

  // ----- lines and values ---------------------------------------------------------------------

  /** A line of a word and a tidy value is processed as that option with that value. */
  lemma LineIsOption(c: Config, name: string, value: string)
    requires IsWord(name) && name[0] != '#' && Tidy(value)
    ensures LoadLine(c, name + " " + value) == Process(c, name, value)
  {
    var line := name + " " + value;
    assert line[0] == name[0];
    FieldsOfTrimmed(line);
    FieldsOfWordAndRest(name, value);
    assert SkipSpaces(line) == line;
    assert ([name] + Fields(value))[1..] == Fields(value);
    JoinOfFieldsIffTidy(value);
  }

  // ----- the options by name ------------------------------------------------------------------

  /** The options that take a number, name by name; anything else is an error. */
  function NumberOption(c: Config, name: string, value: string): Option<(bool, Config)> {
    var n := Atoi(value);
    if name == "SocksPort" then Some(if n.None? then (false, c) else (true, c.(socksPort := n.value)))
    else if name == "ControlPort" then Some(if n.None? then (false, c) else (true, c.(controlPort := n.value)))
    else if name == "NumEntryGuards" then Some(if n.None? then (false, c) else (true, c.(numEntryGuards := n.value)))
    else if name == "ConnLimit" then Some(if n.None? then (false, c) else (true, c.(connLimit := n.value)))
    else None
  }

  /** The options that take a duration. */
  function TimeOption(c: Config, name: string, value: string): Option<(bool, Config)> {
    var n := ParseDuration(value);
    if name == "CircuitBuildTimeout" then
      Some(if n.None? then (false, c) else (true, c.(circuitBuildTimeout := n.value)))
    else if name == "MaxCircuitDirtiness" then
      Some(if n.None? then (false, c) else (true, c.(maxCircuitDirtiness := n.value)))
    else if name == "NewCircuitPeriod" then
      Some(if n.None? then (false, c) else (true, c.(newCircuitPeriod := n.value)))
    else if name == "DormantTimeout" then Some(if n.None? then (false, c) else (true, c.(dormantTimeout := n.value)))
    else None
  }

  /** The options that add to a list. */
  function ListOption(c: Config, name: string, value: string): Option<(bool, Config)> {
    if name == "Bridge" then Some((true, c.(bridgeAddresses := c.bridgeAddresses + [value])))
    else if name == "ExcludeNodes" then Some((true, c.(excludeNodes := c.excludeNodes + [value])))
    else if name == "ExcludeExitNodes" then Some((true, c.(excludeExitNodes := c.excludeExitNodes + [value])))
    else None
  }

  /** The directory, the level in lower case, and switches, which are on for 1, true, yes and on in any
      letter case and off for everything else. */
  function TextOption(c: Config, name: string, value: string): Option<(bool, Config)> {
    var isOn := ToLower(TrimSpace(value)) in {"1", "true", "yes", "on"};
    if name == "DataDirectory" then Some((true, c.(dataDirectory := value)))
    else if name == "LogLevel" then Some((true, c.(logLevel := ToLower(value))))
    else if name == "UseEntryGuards" then Some((true, c.(useEntryGuards := isOn)))
    else if name == "UseBridges" then Some((true, c.(useBridges := isOn)))
    else None
  }

  function Or<T>(a: Option<T>, b: Option<T>): Option<T> {
    if a.Some? then a else b
  }

  /** All of them; any other name is ignored. */
  function Switch(c: Config, name: string, value: string): (bool, Config) {
    match Or(Or(NumberOption(c, name, value), TimeOption(c, name, value)),
             Or(ListOption(c, name, value), TextOption(c, name, value)))
    case Some(r) => r
    case None => (true, c)
  }

  predicate IsNumber(k: Key) {
    k == SocksPort || k == ControlPort || k == NumEntryGuards || k == ConnLimit
  }

  predicate IsTime(k: Key) {
    k == CircuitBuildTimeout || k == MaxCircuitDirtiness || k == NewCircuitPeriod || k == DormantTimeout
  }

  lemma NumberOfKey(c: Config, k: Key, value: string)
    ensures NumberOption(c, Name(k), value) == if IsNumber(k) then Some(Set(c, k, value)) else None
  {
    hide Atoi, ParseDuration, ToLower, TrimSpace;
  }

  lemma TimeOfKey(c: Config, k: Key, value: string)
    ensures TimeOption(c, Name(k), value) == if IsTime(k) then Some(Set(c, k, value)) else None
  {
    hide Atoi, ParseDuration, ToLower, TrimSpace;
  }

  lemma ListOfKey(c: Config, k: Key, value: string)
    ensures ListOption(c, Name(k), value) == if IsList(k) then Some(Set(c, k, value)) else None
  {
    hide Atoi, ParseDuration, ToLower, TrimSpace;
  }

  lemma TextOfKey(c: Config, k: Key, value: string)
    ensures TextOption(c, Name(k), value)
         == if !IsNumber(k) && !IsTime(k) && !IsList(k) then Some(Set(c, k, value)) else None
  {
    hide Atoi, ParseDuration, ToLower, TrimSpace;
  }

  lemma {:induction false} LookupIsByName(name: string, keys: seq<Key>)
    ensures match Lookup(name, keys)
            case Some(k) => Name(k) == name
            case None => forall i :: 0 <= i < |keys| ==> Name(keys[i]) != name
  {
    if keys != [] {
      LookupIsByName(name, keys[1..]);
    }
  }

  lemma UnknownNumber(c: Config, name: string, value: string)
    requires forall k :: Name(k) != name
    ensures NumberOption(c, name, value) == None
  {
    hide Atoi, ParseDuration, ToLower, TrimSpace;
    assert Name(SocksPort) != name && Name(ControlPort) != name;
    assert Name(NumEntryGuards) != name && Name(ConnLimit) != name;
  }

  lemma UnknownTime(c: Config, name: string, value: string)
    requires forall k :: Name(k) != name
    ensures TimeOption(c, name, value) == None
  {
    hide Atoi, ParseDuration, ToLower, TrimSpace;
    assert Name(CircuitBuildTimeout) != name && Name(MaxCircuitDirtiness) != name;
    assert Name(NewCircuitPeriod) != name && Name(DormantTimeout) != name;
  }

  lemma UnknownList(c: Config, name: string, value: string)
    requires forall k :: Name(k) != name
    ensures ListOption(c, name, value) == None
  {
    hide Atoi, ParseDuration, ToLower, TrimSpace;
    assert Name(Bridge) != name && Name(ExcludeNodes) != name;
    assert Name(ExcludeExitNodes) != name;
  }

  lemma UnknownText(c: Config, name: string, value: string)
    requires forall k :: Name(k) != name
    ensures TextOption(c, name, value) == None
  {
    hide Atoi, ParseDuration, ToLower, TrimSpace;
    assert Name(DataDirectory) != name && Name(LogLevel) != name;
    assert Name(UseEntryGuards) != name && Name(UseBridges) != name;
  }

  /** Looking a name up in the list of options and setting the field of its key is the switch over the
      names, for every name and value. */
  lemma ProcessIsSwitch(c: Config, name: string, value: string)
    ensures Process(c, name, value) == Switch(c, name, value)
  {
    LookupIsByName(name, KEYS);
    match Lookup(name, KEYS)
    case Some(k) =>
      NumberOfKey(c, k, value);
      TimeOfKey(c, k, value);
      ListOfKey(c, k, value);
      TextOfKey(c, k, value);
    case None =>
      forall k: Key
        ensures Name(k) != name
      {
        LookupOfName(k);
      }
      UnknownNumber(c, name, value);
      UnknownTime(c, name, value);
      UnknownList(c, name, value);
      UnknownText(c, name, value);
  }

  /** A line of a word and a tidy value takes effect as the switch says. */
  lemma LineTakesEffect(c: Config, name: string, value: string)
    requires IsWord(name) && name[0] != '#' && Tidy(value)
    ensures LoadLine(c, name + " " + value) == Switch(c, name, value)
  {
    LineIsOption(c, name, value);
    ProcessIsSwitch(c, name, value);
  }

  /** Blank lines and comments do nothing. */
  lemma OtherLinesDoNothing(c: Config, comment: string)
    requires comment != "" && comment[0] == '#'
    ensures LoadLine(c, "") == LoadLine(c, " ") == LoadLine(c, comment) == (true, c)
  {
    FieldsOfTrimmed(comment);
    assert SkipSpaces(" ") == "" && SkipSpaces(comment) == comment;
  }

  /** How the switches are saved. */
  lemma SwitchesSaved(c: Config)
    ensures Texts(SwitchItems(c)) == ["# Path Selection",
                                      if c.useEntryGuards then "UseEntryGuards 1" else "UseEntryGuards 0",
                                      if c.useBridges then "UseBridges 1" else "UseBridges 0"]
  {
    SwitchText(c);
    assert "UseEntryGuards " + "1" == "UseEntryGuards 1" && "UseEntryGuards " + "0" == "UseEntryGuards 0";
    assert "UseBridges " + "1" == "UseBridges 1" && "UseBridges " + "0" == "UseBridges 0";
  }

  // ----- loading and validation ---------------------------------------------------------------

  /** The first error stops the loading; otherwise the lines after a list of lines take effect on what
      that list has left. */
  lemma {:induction false} LinesInOrder(c: Config, lines: seq<string>, more: seq<string>)
    ensures var (ok, c') := LoadLines(c, lines);
            LoadLines(c, lines + more) == if ok then LoadLines(c', more) else (false, c')
    decreases |lines|
  {
    if lines == [] {
      assert lines + more == more;
    } else {
      assert (lines + more)[0] == lines[0] && (lines + more)[1..] == lines[1..] + more;
      LinesInOrder(LoadLine(c, lines[0]).1, lines[1..], more);
    }
  }

  /** Ports in a valid config: from 0 to 65535, and no two of those in use the same. */
  lemma PortBounds(c: Config, socks: int, control: int, metrics: int)
    requires Valid(c)
    ensures Valid(c.(socksPort := socks, controlPort := control, unsaved := c.unsaved.(metricsPort := metrics)))
            <==> && 0 <= socks <= 65535 && 0 <= control <= 65535 && 0 <= metrics <= 65535
                 && (socks == control ==> socks == 0) && (socks == metrics ==> socks == 0)
                 && (control == metrics ==> control == 0)
  {
  }

  /** The other fields that the file carries. */
  lemma FieldBounds(c: Config, build: int, dirtiness: int, guards: int, limit: int, level: string)
    requires Valid(c)
    ensures Valid(c.(circuitBuildTimeout := build, maxCircuitDirtiness := dirtiness, numEntryGuards := guards,
                     connLimit := limit, logLevel := level))
            <==> build > 0 && dirtiness > 0 && guards > 0 && limit > 0
                 && (level == "debug" || level == "info" || level == "warn" || level == "error")
  {
  }

  /** Fields that are not checked. */
  lemma UncheckedFields(c: Config, directory: string, period: int, dormant: int, useGuards: bool, useBridges: bool,
                        bridges: seq<string>, nodes: seq<string>, exits: seq<string>)
    requires Valid(c)
    ensures Valid(c.(dataDirectory := directory, newCircuitPeriod := period, dormantTimeout := dormant,
                     useEntryGuards := useGuards, useBridges := useBridges, bridgeAddresses := bridges,
                     excludeNodes := nodes, excludeExitNodes := exits))
  {
  }

  /** The pool sizes and the isolation level. */
  lemma PoolBounds(c: Config, idle: int, life: int, least: int, most: int, level: string)
    requires Valid(c)
    ensures Valid(c.(unsaved := c.unsaved.(connectionPoolMaxIdle := idle, connectionPoolMaxLife := life,
                                           circuitPoolMinSize := least, circuitPoolMaxSize := most,
                                           isolationLevel := level)))
            <==> idle >= 0 && life >= 0 && least >= 0 && most >= least
                 && (level == "none" || level == "destination" || level == "credential" || level == "port"
                     || level == "session")
  {
  }

  /** One more onion service: a port from 1 to 65535, a target and a directory. */
  lemma ServiceBounds(c: Config, s: OnionService)
    requires Valid(c)
    ensures Valid(c.(unsaved := c.unsaved.(onionServices := c.unsaved.onionServices + [s])))
            <==> 0 < s.virtualPort < 65536 && |s.targetAddr| > 0 && |s.serviceDir| > 0
  {
    var services := c.unsaved.onionServices + [s];
    assert services[|services| - 1] == s;
    assert forall i :: 0 <= i < |services| - 1 ==> services[i] == c.unsaved.onionServices[i];
  }
}
