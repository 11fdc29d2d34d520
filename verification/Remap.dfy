/**
 Saving a remap file and loading it again: the saved values are differences from the defaults, so what
 comes back depends on what the defaults are and on which ports were saved.
 */
module Remap {
  import opened Options
  import opened RemapKeys

  newtype u32 = n: int | 0 <= n < 0x1_0000_0000

  /** The values libretro's headers give these names. */
  const UNMAPPED: u32 := 1024
  const UNKNOWN: u32 := 0

  /** What an entry holds: a signed number or a truth value. */
  datatype Entry = Number(n: int) | Flag(on: bool)

  /** `config_set_int` takes an `int`. */
  function Signed(x: u32): (n: int)
    ensures -0x8000_0000 <= n < 0x8000_0000
  {
    if x < 0x8000_0000 then x as int else x as int - 0x1_0000_0000
  }

  /** What `config_get_int` stored, kept in an `unsigned`. */
  function Unsigned(n: int): (x: u32) {
    (n % 0x1_0000_0000) as u32
  }

  lemma UnsignedOfSigned(x: u32)
    ensures Unsigned(Signed(x)) == x
    ensures Signed(x) == -1 <==> x == 0xffff_ffff
  {
  }

  /** A configuration file. */
  class Config {
    var entries: map<string, Entry>

    /** `config_file_new_alloc`. */
    constructor ()
      ensures entries == map[]
      ensures forall s: Slot :: s.Proper() ==> At(s) == None
    {
      entries := map[];
    }

    function At(s: Slot): Option<Entry>
      requires s.Proper()
      reads this
    {
      if Name(s) in entries then Some(entries[Name(s)]) else None
    }

    method Set(s: Slot, e: Entry)
      requires s.Proper()
      modifies this
      ensures forall t: Slot :: t.Proper() ==> At(t) == if t == s then Some(e) else old(At(t))
    {
      hide Name;
      forall t: Slot | t.Proper() && Name(t) == Name(s) ensures t == s {
        NamesDiffer(s, t);
      }
      entries := entries[Name(s) := e];
    }

    method Unset(s: Slot)
      requires s.Proper()
      modifies this
      ensures forall t: Slot :: t.Proper() ==> At(t) == if t == s then None else old(At(t))
    {
      hide Name;
      forall t: Slot | t.Proper() && Name(t) == Name(s) ensures t == s {
        NamesDiffer(s, t);
      }
      entries := entries - {Name(s)};
    }

    /** `config_get_int`: whether there is a number, and which. */
    method GetInt(s: Slot) returns (r: Option<int>)
      requires s.Proper()
      ensures r == NumberIn(At(s))
    {
      r := if Name(s) in entries && entries[Name(s)].Number? then Some(entries[Name(s)].n) else None;
    }

    method GetBool(s: Slot) returns (r: Option<bool>)
      requires s.Proper()
      ensures r == FlagIn(At(s))
    {
      r := if Name(s) in entries && entries[Name(s)].Flag? then Some(entries[Name(s)].on) else None;
    }
  }

  function NumberIn(e: Option<Entry>): Option<int> {
    if e.Some? && e.value.Number? then Some(e.value.n) else None
  }

  function FlagIn(e: Option<Entry>): Option<bool> {
    if e.Some? && e.value.Flag? then Some(e.value.on) else None
  }

  // ----- the settings -----

  datatype TurboSettings = TurboSettings(enable: bool, allowDpad: bool, mode: u32, bind: int, button: u32, period: u32,
                                         dutyCycle: u32)

  /** The settings a remap file is about, by their place in the arrays. */
  class Settings {
    const remapIds: array2<u32>
    const keymapperIds: array2<u32>
    const devices: array<u32>
    const analogModes: array<u32>
    const ports: array<u32>
    var turbo: TurboSettings
    var maxUsers: nat

    ghost function Repr(): set<object> {
      {this, remapIds, keymapperIds, devices, analogModes, ports}
    }

    ghost predicate Valid() {
      && remapIds.Length0 == keymapperIds.Length0 == MAX_USERS && remapIds.Length1 == keymapperIds.Length1 == INPUTS
      && devices.Length == analogModes.Length == ports.Length == MAX_USERS
      && remapIds != keymapperIds && devices != analogModes && devices != ports && analogModes != ports
    }

    constructor (maxUsers: nat)
      ensures Valid() && this.maxUsers == maxUsers && fresh(Repr())
    {
      remapIds := new u32[MAX_USERS, INPUTS]((i, j) => 0);
      keymapperIds := new u32[MAX_USERS, INPUTS]((i, j) => 0);
      devices := new u32[MAX_USERS](i => 0);
      analogModes := new u32[MAX_USERS](i => 0);
      ports := new u32[MAX_USERS](i => 0);
      turbo := TurboSettings(false, false, 0, 0, 0, 0, 0);
      this.maxUsers := maxUsers;
    }

    /** The value of the setting that belongs to an entry. */
    function ValueOf(s: Slot): Entry
      requires Valid() && s.Proper()
      reads Repr()
    {
      match s
      case Remap(u, j) => Number(remapIds[u, j] as int)
      case Keymap(u, j) => Number(keymapperIds[u, j] as int)
      case DeviceType(u) => Number(devices[u] as int)
      case AnalogMode(u) => Number(analogModes[u] as int)
      case Port(u) => Number(ports[u] as int)
      case TurboFire(Enable) => Flag(turbo.enable)
      case TurboFire(AllowDpad) => Flag(turbo.allowDpad)
      case TurboFire(Mode) => Number(turbo.mode as int)
      case TurboFire(Bind) => Number(turbo.bind)
      case TurboFire(Button) => Number(turbo.button as int)
      case TurboFire(Period) => Number(turbo.period as int)
      case TurboFire(DutyCycle) => Number(turbo.dutyCycle as int)
    }

    method Assign(s: Slot, v: Entry)
      requires Valid() && s.Proper() && Fits(s, v)
      modifies Repr()
      ensures maxUsers == old(maxUsers)
      ensures forall t: Slot :: t.Proper() ==> ValueOf(t) == if t == s then v else old(ValueOf(t))
    {
      match s {
        case Remap(u, j) => remapIds[u, j] := v.n as u32;
        case Keymap(u, j) => keymapperIds[u, j] := v.n as u32;
        case DeviceType(u) => devices[u] := v.n as u32;
        case AnalogMode(u) => analogModes[u] := v.n as u32;
        case Port(u) => ports[u] := v.n as u32;
        case TurboFire(t) => turbo := WithTurbo(turbo, t, v);
      }
    }
  }

  predicate IsFlag(s: Slot) {
    s == TurboFire(Enable) || s == TurboFire(AllowDpad)
  }

  /** The values a setting can have. */
  predicate Fits(s: Slot, v: Entry) {
    if IsFlag(s) then v.Flag?
    else if s == TurboFire(Bind) then v.Number?
    else v.Number? && 0 <= v.n < 0x1_0000_0000
  }

  function WithTurbo(r: TurboSettings, t: Turbo, v: Entry): TurboSettings
    requires Fits(TurboFire(t), v)
  {
    match t
    case Enable => r.(enable := v.on)
    case AllowDpad => r.(allowDpad := v.on)
    case Mode => r.(mode := v.n as u32)
    case Bind => r.(bind := v.n)
    case Button => r.(button := v.n as u32)
    case Period => r.(period := v.n as u32)
    case DutyCycle => r.(dutyCycle := v.n as u32)
  }

  // ----- one entry -----

  /** What saving leaves under an entry's name for a value; inputs without a label lose their being unmapped. */
  function Encode(s: Slot, v: Entry, labelled: bool): (e: Option<Entry>)
    requires Fits(s, v)
  {
    if s.Remap? && v.n == s.input then None
    else if s.Remap? && v.n == UNMAPPED as int then (if labelled then Some(Number(-1)) else None)
    else if s.Keymap? && v.n == UNKNOWN as int then None
    else if IsFlag(s) || s == TurboFire(Bind) then Some(v)
    else Some(Number(Signed(v.n as u32)))
  }

  /** What loading finds out about an input or a key without an entry: its input remapped to itself, no key. */
  predicate IsDefault(s: Slot, v: Entry) {
    (s.Remap? && v == Number(s.input)) || (s.Keymap? && v == Number(UNKNOWN as int))
  }

  /** What loading makes of an entry, for a setting that had the value `v`. */
  function Decode(s: Slot, e: Option<Entry>, v: Entry): (r: Entry)
    requires Fits(s, v)
    ensures Fits(s, r)
  {
    if IsFlag(s) then (if FlagIn(e).None? then v else Flag(FlagIn(e).value))
    else
      match NumberIn(e)
      case None => if s.Keymap? then Number(UNKNOWN as int) else v
      case Some(n) =>
        if s == TurboFire(Bind) then Number(n)
        else if s.Remap? && n == -1 then Number(UNMAPPED as int)
        else Number(Unsigned(n) as int)
  }

  /** A saved value survives unless it is an unmapped input without a label or the one identifier that prints as -1. */
  predicate Survives(s: Slot, v: Entry, labelled: bool) {
    s.Remap? ==> !(v == Number(UNMAPPED as int) && !labelled) && v != Number(0xffff_ffff)
  }

  /** Loading what was saved over the defaults gives the value back exactly if it survives. */
  lemma EntryRoundTrip(s: Slot, v: Entry, labelled: bool, fallback: Entry)
    requires s.Proper() && Fits(s, v) && Fits(s, fallback) && (s.Remap? ==> fallback == Number(s.input))
    ensures Decode(s, Encode(s, v, labelled), fallback) == v <==> Survives(s, v, labelled)
  {
    if !IsFlag(s) && s != TurboFire(Bind) {
      UnsignedOfSigned(v.n as u32);
    }
  }

  /** Only what differs from the default is written, and of that only an unmapped input without a label is not. */
  lemma OnlyDifferencesWritten(s: Slot, v: Entry, labelled: bool)
    requires Fits(s, v)
    ensures Encode(s, v, labelled).None? <==>
              IsDefault(s, v) || (s.Remap? && v == Number(UNMAPPED as int) && !labelled)
  {
  }

  /** Where nothing was saved, the default stays; a key of the keymapper becomes unknown. */
  lemma AbsentEntry(s: Slot, fallback: Entry)
    requires Fits(s, fallback)
    ensures Decode(s, None, fallback) == if s.Keymap? then Number(UNKNOWN as int) else fallback
  {
  }

  /** A default is exactly what an entry that is not there is loaded as. */
  lemma DefaultNeedsNoEntry(s: Slot, v: Entry, before: Entry)
    requires (s.Remap? || s.Keymap?) && s.Proper() && Fits(s, v) && Fits(s, before)
    ensures IsDefault(s, v) <==> Decode(s, None, DefaultOf(s, before)) == v
  {
    AbsentEntry(s, DefaultOf(s, before));
  }

  lemma DecodeTwice(s: Slot, e: Option<Entry>, v: Entry)
    requires Fits(s, v)
    ensures Decode(s, e, Decode(s, e, v)) == Decode(s, e, v)
  {
  }

  // ----- saving -----

  /** Ports below the number of users are saved, and those some such port is mapped to. */
  predicate SavedPort(settings: Settings, u: nat)
    requires settings.Valid() && u < MAX_USERS
    reads settings, settings.Repr()
  {
    u < settings.maxUsers || exists j: nat :: j < settings.maxUsers && settings.ports[j] as int == u
  }

  predicate SavedBefore(settings: Settings, s: Slot, n: nat)
    requires settings.Valid() && n <= MAX_USERS
    reads settings, settings.Repr()
  {
    if s.TurboFire? then exists u: nat :: u < n && SavedPort(settings, u)
    else s.user < n && SavedPort(settings, s.user)
  }

  predicate Labelled(labels: array2<string>, s: Slot)
    requires labels.Length0 == MAX_USERS && labels.Length1 == INPUTS && s.Proper()
    reads labels
  {
    s.Remap? && labels[s.user, s.input] != ""
  }

  function Written(settings: Settings, labels: array2<string>, s: Slot): Option<Entry>
    requires settings.Valid() && s.Proper()
    requires labels.Length0 == MAX_USERS && labels.Length1 == INPUTS
    reads settings.Repr(), labels
  {
    EveryValueFits(settings, s);
    Encode(s, settings.ValueOf(s), Labelled(labels, s))
  }

  /** An unmapped input without a label leaves no trace in the file. */
  predicate Unwritable(settings: Settings, labels: array2<string>, s: Slot)
    requires settings.Valid() && s.Proper()
    requires labels.Length0 == MAX_USERS && labels.Length1 == INPUTS
    reads settings.Repr(), labels
  {
    s.Remap? && settings.remapIds[s.user, s.input] == UNMAPPED && labels[s.user, s.input] == ""
  }

  lemma WrittenExactly(settings: Settings, labels: array2<string>, s: Slot)
    requires settings.Valid() && s.Proper()
    requires labels.Length0 == MAX_USERS && labels.Length1 == INPUTS
    ensures Written(settings, labels, s).Some? <==>
              !IsDefault(s, settings.ValueOf(s)) && !Unwritable(settings, labels, s)
  {
    hide Encode, IsDefault;
    EveryValueFits(settings, s);
    OnlyDifferencesWritten(s, settings.ValueOf(s), Labelled(labels, s));
  }

  lemma EveryValueFits(settings: Settings, s: Slot)
    requires settings.Valid() && s.Proper()
    ensures Fits(s, settings.ValueOf(s))
  {
  }

  /** The two entries of one input. */
  method SaveInput(conf: Config, settings: Settings, labels: array2<string>, i: nat, j: nat)
    requires settings.Valid() && labels.Length0 == MAX_USERS && labels.Length1 == INPUTS && i < MAX_USERS && j < INPUTS
    requires conf !in settings.Repr()
    modifies conf
    ensures forall s: Slot :: s.Proper() ==>
              conf.At(s) == if s == Remap(i, j) || s == Keymap(i, j) then Written(settings, labels, s)
                  else old(conf.At(s))
    ensures conf.At(Remap(i, j)).None? <==>
              settings.remapIds[i, j] as int == j || (settings.remapIds[i, j] == UNMAPPED && labels[i, j] == "")
    ensures conf.At(Keymap(i, j)).None? <==> settings.keymapperIds[i, j] == UNKNOWN
  {
    hide Name;
    var id := settings.remapIds[i, j];
    if id as int == j {
      conf.Unset(Remap(i, j));
    } else if id == UNMAPPED {
      if labels[i, j] == "" {
        conf.Unset(Remap(i, j));
      } else {
        conf.Set(Remap(i, j), Number(-1));
      }
    } else {
      conf.Set(Remap(i, j), Number(Signed(id)));
    }
    var key := settings.keymapperIds[i, j];
    if key == UNKNOWN {
      conf.Unset(Keymap(i, j));
    } else {
      conf.Set(Keymap(i, j), Number(Signed(key)));
    }
  }

  predicate InputBelow(s: Slot, i: nat, j: nat) {
    (s.Remap? || s.Keymap?) && s.user == i && s.input < j
  }

  method SaveInputs(conf: Config, settings: Settings, labels: array2<string>, i: nat)
    requires settings.Valid() && labels.Length0 == MAX_USERS && labels.Length1 == INPUTS && i < MAX_USERS
    requires conf !in settings.Repr()
    modifies conf
    ensures forall s: Slot :: s.Proper() ==>
              conf.At(s) == if InputBelow(s, i, INPUTS) then Written(settings, labels, s) else old(conf.At(s))
  {
    hide Name, Encode, Labelled;
    for j := 0 to BUTTONS
      invariant forall s: Slot :: s.Proper() ==>
                  conf.At(s) == if InputBelow(s, i, j) then Written(settings, labels, s) else old(conf.At(s))
    {
      SaveInput(conf, settings, labels, i, j);
    }
    for j := BUTTONS to INPUTS
      invariant forall s: Slot :: s.Proper() ==>
                  conf.At(s) == if InputBelow(s, i, j) then Written(settings, labels, s) else old(conf.At(s))
    {
      SaveInput(conf, settings, labels, i, j);
    }
  }

  /** Everything but the inputs that is saved with user `i`. */
  method SaveRest(conf: Config, settings: Settings, labels: array2<string>, i: nat)
    requires settings.Valid() && labels.Length0 == MAX_USERS && labels.Length1 == INPUTS && i < MAX_USERS
    requires conf !in settings.Repr()
    modifies conf
    ensures forall s: Slot :: s.Proper() ==>
              conf.At(s) == if InRest(s, i) then Written(settings, labels, s) else old(conf.At(s))
  {
    hide Name;
    conf.Set(DeviceType(i), Number(Signed(settings.devices[i])));
    conf.Set(AnalogMode(i), Number(Signed(settings.analogModes[i])));
    conf.Set(Port(i), Number(Signed(settings.ports[i])));
    SaveTurbo(conf, settings, labels);
  }

  predicate InRest(s: Slot, i: nat) {
    s.TurboFire? || ((s.DeviceType? || s.AnalogMode? || s.Port?) && s.user == i)
  }

  predicate Early(s: Slot) {
    s == TurboFire(Enable) || s == TurboFire(AllowDpad) || s == TurboFire(Mode)
  }

  method SaveTurbo(conf: Config, settings: Settings, labels: array2<string>)
    requires settings.Valid() && labels.Length0 == MAX_USERS && labels.Length1 == INPUTS
    requires conf !in settings.Repr()
    modifies conf
    ensures forall s: Slot :: s.Proper() ==>
              conf.At(s) == if s.TurboFire? then Written(settings, labels, s) else old(conf.At(s))
  {
    hide Name, Written;
    SaveTurboMode(conf, settings, labels);
    SaveTurboTiming(conf, settings, labels);
  }

  method SaveTurboMode(conf: Config, settings: Settings, labels: array2<string>)
    requires settings.Valid() && labels.Length0 == MAX_USERS && labels.Length1 == INPUTS
    requires conf !in settings.Repr()
    modifies conf
    ensures forall s: Slot :: s.Proper() ==> conf.At(s) == if Early(s) then Written(settings, labels, s)
        else old(conf.At(s))
  {
    hide Name;
    var t := settings.turbo;
    conf.Set(TurboFire(Enable), Flag(t.enable));
    conf.Set(TurboFire(AllowDpad), Flag(t.allowDpad));
    conf.Set(TurboFire(Mode), Number(Signed(t.mode)));
  }

  method SaveTurboTiming(conf: Config, settings: Settings, labels: array2<string>)
    requires settings.Valid() && labels.Length0 == MAX_USERS && labels.Length1 == INPUTS
    requires conf !in settings.Repr()
    modifies conf
    ensures forall s: Slot :: s.Proper() ==>
              conf.At(s) == if s.TurboFire? && !Early(s) then Written(settings, labels, s) else old(conf.At(s))
  {
    hide Name;
    var t := settings.turbo;
    conf.Set(TurboFire(Bind), Number(t.bind));
    conf.Set(TurboFire(Button), Number(Signed(t.button)));
    conf.Set(TurboFire(Period), Number(Signed(t.period)));
    conf.Set(TurboFire(DutyCycle), Number(Signed(t.dutyCycle)));
  }

  /** An entry that is saved along with user `i`. */
  predicate WithUser(s: Slot, i: nat) {
    s.TurboFire? || s.user == i
  }

  method SaveUser(conf: Config, settings: Settings, labels: array2<string>, i: nat)
    requires settings.Valid() && labels.Length0 == MAX_USERS && labels.Length1 == INPUTS && i < MAX_USERS
    requires conf !in settings.Repr()
    modifies conf
    ensures forall s: Slot :: s.Proper() ==>
              conf.At(s) == if WithUser(s, i) then Written(settings, labels, s) else old(conf.At(s))
  {
    hide Name, Written;
    SaveInputs(conf, settings, labels, i);
    SaveRest(conf, settings, labels, i);
  }

  predicate SavedWith(settings: Settings, s: Slot, i: nat)
    requires settings.Valid() && i < MAX_USERS
    reads settings, settings.Repr()
  {
    SavedPort(settings, i) && WithUser(s, i)
  }

  lemma SavedNext(settings: Settings, s: Slot, i: nat)
    requires settings.Valid() && i < MAX_USERS
    ensures SavedBefore(settings, s, i + 1) <==> SavedBefore(settings, s, i) || SavedWith(settings, s, i)
    ensures !SavedBefore(settings, s, 0)
  {
    hide SavedPort;
  }

  /**
   Whether the port must be saved. The source looks for a device mapped to it only beyond the number of users, so the
   search stays in the array even when that number is above `MAX_USERS`.
   */
  method MustSave(settings: Settings, i: nat) returns (saved: bool)
    requires settings.Valid() && i < MAX_USERS
    ensures saved == SavedPort(settings, i)
  {
    saved := i < settings.maxUsers;
    if !saved {
      var j := 0;
      while j < settings.maxUsers
        invariant j <= settings.maxUsers && !saved
        invariant forall k: nat :: k < j ==> settings.ports[k] as int != i
      {
        if settings.ports[j] as int == i { return true; }
        j := j + 1;
      }
    }
  }

  lemma PortSaved(settings: Settings, labels: array2<string>, u: nat)
    requires settings.Valid() && u < MAX_USERS
    requires labels.Length0 == MAX_USERS && labels.Length1 == INPUTS
    ensures SavedBefore(settings, Port(u), MAX_USERS) <==>
              u < settings.maxUsers || exists j: nat :: j < settings.maxUsers && settings.ports[j] as int == u
    ensures !IsDefault(Port(u), settings.ValueOf(Port(u))) && !Unwritable(settings, labels, Port(u))
  {
  }

  /** The ports that must be saved, one after the other. */
  method SavePorts(settings: Settings, labels: array2<string>) returns (conf: Config)
    requires settings.Valid()
    requires labels.Length0 == MAX_USERS && labels.Length1 == INPUTS
    ensures fresh(conf)
    ensures forall s: Slot :: s.Proper() ==>
              conf.At(s) == if SavedBefore(settings, s, MAX_USERS) then Written(settings, labels, s) else None
  {
    hide Name, Written, SavedPort, SavedBefore, WithUser;
    conf := new Config();
    forall s: Slot | s.Proper() ensures !SavedBefore(settings, s, 0) {
      SavedNext(settings, s, 0);
    }
    for i := 0 to MAX_USERS
      invariant conf !in settings.Repr()
      invariant forall s: Slot :: s.Proper() ==>
                  conf.At(s) == if SavedBefore(settings, s, i) then Written(settings, labels, s) else None
    {
      var saved := MustSave(settings, i);
      if saved {
        SaveUser(conf, settings, labels, i);
      }
      forall s: Slot | s.Proper()
        ensures SavedBefore(settings, s, i + 1) <==> SavedBefore(settings, s, i) || SavedWith(settings, s, i)
      {
        SavedNext(settings, s, i);
      }
    }
  }

  /** The file holds an entry exactly for what was saved, each under its own name. */
  method Save(settings: Settings, labels: array2<string>) returns (conf: Config)
    requires settings.Valid()
    requires labels.Length0 == MAX_USERS && labels.Length1 == INPUTS
    ensures fresh(conf)
    ensures forall s: Slot :: s.Proper() ==>
              conf.At(s) == if SavedBefore(settings, s, MAX_USERS) then Written(settings, labels, s) else None
    ensures forall s: Slot :: s.Proper() ==>
              (conf.At(s).Some? <==> && SavedBefore(settings, s, MAX_USERS) && !IsDefault(s, settings.ValueOf(s))
                                     && !Unwritable(settings, labels, s))
    ensures forall u: nat :: u < MAX_USERS ==>
              (conf.At(Port(u)).Some? <==>
               u < settings.maxUsers || exists j: nat :: j < settings.maxUsers && settings.ports[j] as int == u)
  {
    hide Name, Written, SavedPort, SavedBefore, WithUser, IsDefault, Unwritable;
    conf := SavePorts(settings, labels);
    forall s: Slot | s.Proper()
      ensures Written(settings, labels, s).Some? <==>
                !IsDefault(s, settings.ValueOf(s)) && !Unwritable(settings, labels, s)
    {
      WrittenExactly(settings, labels, s);
    }
    forall u: nat | u < MAX_USERS
      ensures SavedBefore(settings, Port(u), MAX_USERS) <==>
              u < settings.maxUsers || exists j: nat :: j < settings.maxUsers && settings.ports[j] as int == u
      ensures !IsDefault(Port(u), settings.ValueOf(Port(u))) && !Unwritable(settings, labels, Port(u))
    {
      PortSaved(settings, labels, u);
    }
  }

  // ----- loading -----

  /** `input_remapping_set_defaults`, as far as it matters here: every input is remapped to itself. */
  method SetDefaults(settings: Settings)
    requires settings.Valid()
    modifies settings.Repr()
    ensures forall s: Slot :: s.Proper() ==> settings.ValueOf(s) == DefaultOf(s, old(settings.ValueOf(s)))
    ensures settings.maxUsers == old(settings.maxUsers)
  {
    for i := 0 to MAX_USERS
      invariant settings.maxUsers == old(settings.maxUsers)
      invariant forall s: Slot :: s.Proper() ==>
                  settings.ValueOf(s) == if s.Remap? && s.user < i then Number(s.input) else old(settings.ValueOf(s))
    {
      for j := 0 to INPUTS
        invariant settings.maxUsers == old(settings.maxUsers)
        invariant forall s: Slot :: s.Proper() ==>
                    settings.ValueOf(s) == if s.Remap? && (s.user < i || (s.user == i && s.input < j))
                        then Number(s.input)
                        else old(settings.ValueOf(s))
      {
        settings.Assign(Remap(i, j), Number(j));
      }
    }
  }

  function DefaultOf(s: Slot, v: Entry): (r: Entry)
    requires s.Proper()
    ensures Fits(s, v) ==> Fits(s, r)
  {
    if s.Remap? then Number(s.input) else v
  }

  /** One entry: what is there is kept, what is not leaves the setting alone, except that a key becomes unknown. */
  method LoadEntry(conf: Config, settings: Settings, s: Slot)
    requires settings.Valid() && s.Proper() && conf !in settings.Repr()
    modifies settings.Repr()
    ensures forall t: Slot :: t.Proper() ==>
              settings.ValueOf(t) == if t == s then DecodeIn(conf, s, old(settings.ValueOf(s)))
                  else old(settings.ValueOf(t))
    ensures settings.maxUsers == old(settings.maxUsers)
  {
    hide Name;
    EveryValueFits(settings, s);
    if IsFlag(s) {
      var on := conf.GetBool(s);
      if on.Some? { settings.Assign(s, Flag(on.value)); }
    } else {
      var n := conf.GetInt(s);
      if s.Remap? {
        if n.Some? { settings.Assign(s, Number(if n.value == -1 then UNMAPPED as int else Unsigned(n.value) as int)); }
      } else if s.Keymap? {
        settings.Assign(s, Number(if n.None? then UNKNOWN as int else Unsigned(n.value) as int));
      } else if n.Some? {
        settings.Assign(s, Number(if s == TurboFire(Bind) then n.value else Unsigned(n.value) as int));
      }
    }
  }

  function DecodeIn(conf: Config, s: Slot, v: Entry): (r: Entry)
    requires s.Proper()
    reads conf
  {
    if Fits(s, v) then Decode(s, conf.At(s), v) else v
  }

  method LoadInputs(conf: Config, settings: Settings, i: nat)
    requires settings.Valid() && i < MAX_USERS && conf !in settings.Repr()
    modifies settings.Repr()
    ensures forall s: Slot :: s.Proper() ==>
              settings.ValueOf(s) == if InputBelow(s, i, INPUTS) then DecodeIn(conf, s, old(settings.ValueOf(s)))
                                     else old(settings.ValueOf(s))
    ensures settings.maxUsers == old(settings.maxUsers)
  {
    hide Name, DecodeIn;
    for j := 0 to INPUTS
      invariant settings.maxUsers == old(settings.maxUsers)
      invariant forall s: Slot :: s.Proper() ==>
                  settings.ValueOf(s) == if InputBelow(s, i, j) then DecodeIn(conf, s, old(settings.ValueOf(s)))
                                         else old(settings.ValueOf(s))
    {
      LoadEntry(conf, settings, Remap(i, j));
      LoadEntry(conf, settings, Keymap(i, j));
    }
  }

  method LoadTurboMode(conf: Config, settings: Settings)
    requires settings.Valid() && conf !in settings.Repr()
    modifies settings.Repr()
    ensures forall s: Slot :: s.Proper() ==>
              settings.ValueOf(s) == if Early(s) then DecodeIn(conf, s, old(settings.ValueOf(s)))
                  else old(settings.ValueOf(s))
    ensures settings.maxUsers == old(settings.maxUsers)
  {
    hide Name, DecodeIn;
    LoadEntry(conf, settings, TurboFire(Enable));
    LoadEntry(conf, settings, TurboFire(AllowDpad));
    LoadEntry(conf, settings, TurboFire(Mode));
  }

  method LoadTurboTiming(conf: Config, settings: Settings)
    requires settings.Valid() && conf !in settings.Repr()
    modifies settings.Repr()
    ensures forall s: Slot :: s.Proper() ==>
              settings.ValueOf(s) == if s.TurboFire? && !Early(s) then DecodeIn(conf, s, old(settings.ValueOf(s)))
                                     else old(settings.ValueOf(s))
    ensures settings.maxUsers == old(settings.maxUsers)
  {
    hide Name, DecodeIn;
    LoadEntry(conf, settings, TurboFire(Bind));
    LoadEntry(conf, settings, TurboFire(Button));
    LoadEntry(conf, settings, TurboFire(Period));
    LoadEntry(conf, settings, TurboFire(DutyCycle));
  }

  method LoadUser(conf: Config, settings: Settings, i: nat)
    requires settings.Valid() && i < MAX_USERS && conf !in settings.Repr()
    modifies settings.Repr()
    ensures forall s: Slot :: s.Proper() ==>
              settings.ValueOf(s) == if WithUser(s, i) then DecodeIn(conf, s, old(settings.ValueOf(s)))
                  else old(settings.ValueOf(s))
    ensures settings.maxUsers == old(settings.maxUsers)
  {
    hide Name, DecodeIn;
    LoadInputs(conf, settings, i);
    LoadEntry(conf, settings, DeviceType(i));
    LoadEntry(conf, settings, AnalogMode(i));
    LoadEntry(conf, settings, Port(i));
    LoadTurboMode(conf, settings);
    LoadTurboTiming(conf, settings);
  }

  lemma DecodeInTwice(conf: Config, s: Slot, v: Entry)
    requires s.Proper()
    ensures DecodeIn(conf, s, DecodeIn(conf, s, v)) == DecodeIn(conf, s, v)
  {
    hide Name;
    if Fits(s, v) {
      DecodeTwice(s, conf.At(s), v);
    }
  }

  /** Every setting becomes what its own entry says, over the defaults. */
  method Load(conf: Config, settings: Settings)
    requires settings.Valid() && conf !in settings.Repr()
    modifies settings.Repr()
    ensures forall s: Slot :: s.Proper() ==>
              settings.ValueOf(s) == DecodeIn(conf, s, DefaultOf(s, old(settings.ValueOf(s))))
    ensures settings.maxUsers == old(settings.maxUsers)
  {
    hide Name, DecodeIn;
    SetDefaults(settings);
    forall s: Slot | s.Proper() ensures settings.ValueOf(s) == DefaultOf(s, old(settings.ValueOf(s))) {
      EveryValueFits(settings, s);
    }
    for i := 0 to MAX_USERS
      invariant settings.maxUsers == old(settings.maxUsers)
      invariant forall s: Slot :: s.Proper() ==>
                  settings.ValueOf(s) == if LoadedBefore(s, i)
                      then DecodeIn(conf, s, DefaultOf(s, old(settings.ValueOf(s))))
                      else DefaultOf(s, old(settings.ValueOf(s)))
    {
      LoadUser(conf, settings, i);
      forall s: Slot | s.Proper()
        ensures DecodeIn(conf, s, DecodeIn(conf, s, DefaultOf(s, old(settings.ValueOf(s)))))
             == DecodeIn(conf, s, DefaultOf(s, old(settings.ValueOf(s))))
      {
        DecodeInTwice(conf, s, DefaultOf(s, old(settings.ValueOf(s))));
      }
    }
  }

  predicate LoadedBefore(s: Slot, n: nat) {
    if s.TurboFire? then n > 0 else s.user < n
  }

  // ----- saving and loading -----

  /** A setting comes back exactly if its port was saved and the value survives, or was not and is what loading
      leaves. */
  predicate ComesBack(settings: Settings, labels: array2<string>, s: Slot, before: Entry)
    requires settings.Valid() && s.Proper()
    requires labels.Length0 == MAX_USERS && labels.Length1 == INPUTS
    reads settings, settings.Repr(), labels
  {
    if SavedBefore(settings, s, MAX_USERS) then Survives(s, settings.ValueOf(s), Labelled(labels, s))
    else if s.Keymap? then settings.ValueOf(s) == Number(UNKNOWN as int)
    else settings.ValueOf(s) == DefaultOf(s, before)
  }

  /**
   A remap file saved from one state and loaded over another: which settings come back, exactly. Each port that was
   saved gets back its keymapper identifiers, and its remapped inputs except where the label or the identifier prevents
   it.
   */
  method SaveAndLoad(source: Settings, labels: array2<string>, target: Settings)
    requires source.Valid() && target.Valid() && source.Repr() !! target.Repr()
    requires labels.Length0 == MAX_USERS && labels.Length1 == INPUTS
    modifies target.Repr()
    ensures forall s: Slot :: s.Proper() ==>
              (target.ValueOf(s) == source.ValueOf(s) <==> ComesBack(source, labels, s, old(target.ValueOf(s))))
  {
    hide Name, Written, SavedBefore, Survives, Labelled, DecodeIn;
    var conf := Save(source, labels);
    assert conf !in target.Repr();
    Load(conf, target);
    forall s: Slot | s.Proper()
      ensures target.ValueOf(s) == source.ValueOf(s) <==> ComesBack(source, labels, s, old(target.ValueOf(s)))
    {
      EntryComesBack(conf, source, labels, s, old(target.ValueOf(s)));
    }
  }

  lemma EntryComesBack(conf: Config, source: Settings, labels: array2<string>, s: Slot, before: Entry)
    requires source.Valid() && s.Proper() && Fits(s, before)
    requires labels.Length0 == MAX_USERS && labels.Length1 == INPUTS
    requires conf.At(s) == if SavedBefore(source, s, MAX_USERS) then Written(source, labels, s) else None
    ensures DecodeIn(conf, s, DefaultOf(s, before)) == source.ValueOf(s) <==> ComesBack(source, labels, s, before)
  {
    hide Name, SavedBefore, Labelled, Encode, Decode;
    EveryValueFits(source, s);
    var fallback := DefaultOf(s, before);
    if SavedBefore(source, s, MAX_USERS) {
      EntryRoundTrip(s, source.ValueOf(s), Labelled(labels, s), fallback);
    } else {
      AbsentEntry(s, fallback);
    }
  }
}
