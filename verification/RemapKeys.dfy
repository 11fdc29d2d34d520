/**
 The names of the entries of a remap file. Saving and loading agree because no two entries share a name.
 */
module RemapKeys {
  import opened Decimal

  const MAX_USERS: nat := 16
  /** The buttons come first; the eight stick directions follow them. */
  const BUTTONS: nat := 16
  const INPUTS: nat := 24

  /** The seven entries that are not about a user. */
  datatype Turbo = Enable | AllowDpad | Mode | Bind | Button | Period | DutyCycle

  /** An entry of a remap file. */
  datatype Slot =
    | Remap(user: nat, input: nat)
    | Keymap(user: nat, input: nat)
    | DeviceType(user: nat)
    | AnalogMode(user: nat)
    | Port(user: nat)
    | TurboFire(turbo: Turbo)
  {
    predicate Proper() {
      match this
      case Remap(u, j) => u < MAX_USERS && j < INPUTS
      case Keymap(u, j) => u < MAX_USERS && j < INPUTS
      case TurboFire(_) => true
      case _ => user < MAX_USERS
    }
  }

  function InputName(j: nat): (s: string)
    requires j < INPUTS
    ensures s != []
  {
    match j
    case 0 => "b" case 1 => "y" case 2 => "select" case 3 => "start"
    case 4 => "up" case 5 => "down" case 6 => "left" case 7 => "right"
    case 8 => "a" case 9 => "x" case 10 => "l" case 11 => "r"
    case 12 => "l2" case 13 => "r2" case 14 => "l3" case 15 => "r3"
    case 16 => "l_x+" case 17 => "l_x-" case 18 => "l_y+" case 19 => "l_y-"
    case 20 => "r_x+" case 21 => "r_x-" case 22 => "r_y+" case _ => "r_y-"
  }

  function TurboName(t: Turbo): string {
    match t
    case Enable => "input_turbo_enable"
    case AllowDpad => "input_turbo_allow_dpad"
    case Mode => "input_turbo_mode"
    case Bind => "input_turbo_bind"
    case Button => "input_turbo_button"
    case Period => "input_turbo_period"
    case DutyCycle => "input_turbo_duty_cycle"
  }

  /** The number of a user, as it appears in names. */
  function UserNumber(user: nat): string {
    Digits(user + 1)
  }

  function Prefix(user: nat): string {
    "input_player" + UserNumber(user)
  }

  /** What follows the number of the user. */
  function Tail(s: Slot): string
    requires s.Proper() && !s.TurboFire?
  {
    match s
    case Remap(_, j) => (if j < BUTTONS then "_btn_" else "_stk_") + InputName(j)
    case Keymap(_, j) => "_key_" + InputName(j)
    case AnalogMode(_) => "_analog_dpad_mode"
    case DeviceType(_) => ""
    case Port(_) => ""
  }

  function Head(s: Slot): string {
    match s
    case DeviceType(_) => "input_libretro_device_p"
    case Port(_) => "input_remap_port_p"
    case TurboFire(_) => "input_turbo_"
    case _ => "input_player"
  }

  function Name(s: Slot): string
    requires s.Proper()
  {
    if s.TurboFire? then TurboName(s.turbo) else Head(s) + (UserNumber(s.user) + Tail(s))
  }

  // ----- no two names are the same -----

  /** The input a name belongs to, read off its length and three of its characters. */
  function InputOf(s: string): (j: nat)
    requires s != []
  {
    var first, middle, last := s[0], s[|s| / 2], s[|s| - 1];
    if |s| == 1 then (if first == 'b' then 0 else if first == 'y' then 1 else if first == 'a' then 8
                      else if first == 'x' then 9 else if first == 'l' then 10 else 11)
    else if |s| == 2 then (if first == 'u' then 4 else if first == 'l' then (if last == '2' then 12 else 14)
                           else if last == '2' then 13 else 15)
    else if |s| == 5 then (if first == 's' then 3 else 7)
    else if |s| == 6 then 2
    else if first == 'd' then 5
    else if first == 'l' && last == 't' then 6
    else (if first == 'l' then 16 else 20) + (if middle == 'x' then 0 else 2) + (if last == '+' then 0 else 1)
  }

  lemma InputNamed(j: nat)
    requires j < INPUTS
    ensures InputOf(InputName(j)) == j
  {
  }

  lemma InputNamesDiffer(j: nat, k: nat)
    requires j < INPUTS && k < INPUTS && InputName(j) == InputName(k)
    ensures j == k
  {
    hide InputName, InputOf;
    InputNamed(j);
    InputNamed(k);
  }

  function TurboOf(s: string): (t: Turbo)
    requires |s| >= 16
  {
    if s[12] == 'e' then Enable else if s[12] == 'a' then AllowDpad else if s[12] == 'm' then Mode
    else if s[12] == 'p' then Period else if s[12] == 'd' then DutyCycle else if s[13] == 'i' then Bind else Button
  }

  lemma TurboNamed(t: Turbo)
    ensures |TurboName(t)| >= 16 && TurboOf(TurboName(t)) == t && TurboName(t)[6] == 't'
  {
  }

  /** The seventh letter tells the kind of name. */
  function Letter(s: Slot): char {
    match s
    case DeviceType(_) => 'l'
    case Port(_) => 'r'
    case TurboFire(_) => 't'
    case _ => 'p'
  }

  lemma NameLetter(s: Slot)
    requires s.Proper()
    ensures |Name(s)| > 6 && Name(s)[6] == Letter(s)
  {
    hide UserNumber, Tail, TurboName;
    if s.TurboFire? {
      TurboNamed(s.turbo);
    } else {
      assert Name(s)[6] == Head(s)[6];
    }
  }

  lemma TailEnds(s: Slot)
    requires s.Proper() && !s.TurboFire?
    ensures Ends(Tail(s))
  {
    hide InputName;
  }

  /** The number and the tail can be told apart. */
  lemma AfterHead(s: Slot, t: Slot)
    requires s.Proper() && t.Proper() && !s.TurboFire? && !t.TurboFire? && Head(s) == Head(t) && Name(s) == Name(t)
    ensures s.user == t.user && Tail(s) == Tail(t)
  {
    hide Tail, Head, Digits;
    TailEnds(s);
    TailEnds(t);
    assert UserNumber(s.user) + Tail(s) == Name(s)[|Head(s)|..];
    assert UserNumber(t.user) + Tail(t) == Name(t)[|Head(t)|..];
    DigitsPrefixFree(s.user + 1, t.user + 1, Tail(s), Tail(t));
  }

  /** A tail other than that of the dpad mode: five characters, then the name of an input. */
  lemma InputTail(s: Slot)
    requires s.Proper() && (s.Remap? || s.Keymap?)
    ensures |Tail(s)| > 5 && Tail(s)[5..] == InputName(s.input)
    ensures Tail(s)[1] == if s.Keymap? then 'k' else if s.input < BUTTONS then 'b' else 's'
  {
    hide InputName;
  }

  lemma TailsDiffer(s: Slot, t: Slot)
    requires s.Proper() && t.Proper() && Letter(s) == 'p' && Letter(t) == 'p' && s.user == t.user && Tail(s) == Tail(t)
    ensures s == t
  {
    hide InputName, Tail;
    if s.AnalogMode? || t.AnalogMode? {
      AnalogTail(s);
      AnalogTail(t);
    } else {
      InputTail(s);
      InputTail(t);
      InputNamesDiffer(s.input, t.input);
    }
  }

  lemma AnalogTail(s: Slot)
    requires s.Proper() && Letter(s) == 'p'
    ensures |Tail(s)| > 1 && (Tail(s)[1] == 'a' <==> s.AnalogMode?)
  {
    hide InputName;
  }

  /** No two entries share a name. */
  lemma NamesDiffer(s: Slot, t: Slot)
    requires s.Proper() && t.Proper() && Name(s) == Name(t)
    ensures s == t
  {
    hide Name, Tail, TurboName, UserNumber;
    NameLetter(s);
    NameLetter(t);
    if s.TurboFire? {
      TurboNamesDiffer(s, t);
    } else {
      AfterHead(s, t);
      if Letter(s) == 'p' {
        TailsDiffer(s, t);
      }
    }
  }

  lemma TurboNamesDiffer(s: Slot, t: Slot)
    requires s.TurboFire? && t.TurboFire? && Name(s) == Name(t)
    ensures s == t
  {
    hide TurboName;
    TurboNamed(s.turbo);
    TurboNamed(t.turbo);
  }

  /** Every name fits the 32 bytes of the buffers it is built in, with its terminator, as does the prefix its 16. */
  lemma NamesFit(s: Slot)
    requires s.Proper()
    ensures |Prefix(if s.TurboFire? then 0 else s.user)| < 16
    ensures s.DeviceType? || s.AnalogMode? || s.Port? || s.TurboFire? ==> |Name(s)| < 32
    ensures |Name(s)| < 128
  {
    UserNumberShort(if s.TurboFire? then 0 else s.user);
    if s.Remap? || s.Keymap? {
      InputNameShort(s.input);
    }
  }

  lemma UserNumberShort(user: nat)
    requires user < MAX_USERS
    ensures |UserNumber(user)| <= 2
  {
    assert user + 1 >= 10 ==> Digits((user + 1) / 10) == [DigitChar(1)];
  }

  lemma InputNameShort(j: nat)
    requires j < INPUTS
    ensures |InputName(j)| <= 6
  {
  }
}
