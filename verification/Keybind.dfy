/**
 The text of binds: joypad buttons, hat directions, axes and mouse buttons, as they are saved to and parsed from a
 configuration file.
 */
module Keybind {
  import opened Decimal
  import opened Options

  newtype u16 = n: int | 0 <= n < 0x1_0000
  newtype u64 = n: int | 0 <= n < 0x1_0000_0000_0000_0000

  datatype Direction = Up | Down | Left | Right

  /** A button number, or a hat with the directions pressed on it. */
  datatype JoyKey = NoButton | Plain(number: u64) | Hat(hat: u16, directions: set<Direction>)
  {
    /** Without directions, the bits of a hat are those of a plain number. */
    predicate Proper() {
      Hat? ==> directions != {}
    }
  }

  /** The two halves of an axis; an axis with neither is no axis. */
  datatype Axis = Axis(negative: Half, positive: Half)

  /** A half is unused or names one of the axes below `AXIS_DIR_NONE`. */
  datatype Half = Unused | Used(axis: u16)
  {
    predicate Proper() {
      Used? ==> axis < 0xffff
    }
  }

  const NO_AXIS := Axis(Unused, Unused)

  // ----- directions -----

  function DirectionName(d: Direction): string {
    match d
    case Up => "up"
    case Down => "down"
    case Left => "left"
    case Right => "right"
  }

  /** The directions a name stands for: none, unless it is the name of one. */
  function ParseHat(dir: string): (r: set<Direction>)
    ensures |r| <= 1
  {
    if dir == "up" then {Up}
    else if dir == "down" then {Down}
    else if dir == "left" then {Left}
    else if dir == "right" then {Right}
    else {}
  }

  lemma ParseHatExactly(dir: string, d: Direction)
    ensures ParseHat(dir) == {d} <==> dir == DirectionName(d)
  {
    assert dir == "up" ==> ParseHat(dir) == {Up};
    assert Up in ParseHat(dir) <==> dir == "up";
    assert Down in ParseHat(dir) <==> dir == "down";
    assert Left in ParseHat(dir) <==> dir == "left";
    assert Right in ParseHat(dir) <==> dir == "right";
  }

  // ----- numbers in text -----

  predicate Space(c: char) {
    c == ' ' || '\t' <= c <= '\r'
  }

  function SkipSpace(s: string): (r: string)
    ensures |r| <= |s|
  {
    if s != [] && Space(s[0]) then SkipSpace(s[1..]) else s
  }

  /** White space, a sign, and a number in the base its prefix tells; the number is not yet bounded. */
  function WithSign(s: string): (n: int) {
    var t := SkipSpace(s);
    if t != [] && t[0] == '-' then -(Unsigned(t[1..]).0 as int)
    else Unsigned(if t != [] && t[0] == '+' then t[1..] else t).0
  }

  /** `strtoull`: saturates, and a minus sign negates in the word. */
  function ToUnsigned(s: string): (n: u64) {
    var v := WithSign(s);
    if v <= -0x1_0000_0000_0000_0000 || v >= 0x1_0000_0000_0000_0000 then 0xffff_ffff_ffff_ffff
    else (v % 0x1_0000_0000_0000_0000) as u64
  }

  /** `strtol`: saturates at both ends. */
  function ToSigned(s: string): (n: int)
    ensures -0x8000_0000_0000_0000 <= n < 0x8000_0000_0000_0000
  {
    var v := WithSign(s);
    if v < -0x8000_0000_0000_0000 then -0x8000_0000_0000_0000
    else if v >= 0x8000_0000_0000_0000 then 0x7fff_ffff_ffff_ffff
    else v
  }

  lemma PrintedNumber(n: nat)
    ensures WithSign(Digits(n)) == n
  {
    hide Digits, Unsigned;
    DigitsAreDigits(n, 0);
    UnsignedOfDigits(n, "");
    assert Digits(n) + "" == Digits(n);
  }

  // ----- buttons and hats -----

  /** What is saved for a button; nothing is written for no button unless empty binds are to be saved. */
  function JoyKeyText(k: JoyKey, saveEmpty: bool): (t: Option<string>) {
    match k
    case NoButton => if saveEmpty then Some("nul") else None
    case Plain(n) => Some(Digits(n as nat))
    case Hat(hat, ds) => Some("h" + (Digits(hat as nat) + HatSuffix(ds)))
  }

  /** Only a single direction has a name. */
  function HatSuffix(ds: set<Direction>): string {
    if ds == {Up} then "up"
    else if ds == {Down} then "down"
    else if ds == {Left} then "left"
    else if ds == {Right} then "right"
    else ""
  }

  /** What a text makes of a bind that was `before`. */
  function ParseJoyKey(text: string, before: JoyKey): (k: JoyKey) {
    if text == "nul" then NoButton
    else if text != [] && text[0] == 'h' then ParseHatKey(text[1..], before)
    else Plain(ToUnsigned(text))
  }

  function ParseHatKey(text: string, before: JoyKey): (k: JoyKey) {
    if text != [] && '0' <= text[0] <= '9' then
      var (v, n) := Unsigned(text);
      var ds := ParseHat(text[n..]);
      var bounded := if v >= 0x1_0000_0000_0000_0000 then 0xffff_ffff_ffff_ffff else v;
      if ds != {} then Hat((bounded % 0x1_0000) as u16, ds) else before
    else before
  }

  lemma ParseHatText(hat: u16, ds: set<Direction>, before: JoyKey)
    requires ds != {}
    ensures ParseHatKey(Digits(hat as nat) + HatSuffix(ds), before) == if |ds| == 1 then Hat(hat, ds) else before
  {
    hide Digits, Unsigned, ParseHat, HatSuffix;
    var suffix := HatSuffix(ds);
    var text := Digits(hat as nat) + suffix;
    SuffixParses(ds);
    UnsignedOfDigits(hat as nat, suffix);
    DigitsAreDigits(hat as nat, 0);
    assert text[|Digits(hat as nat)|..] == suffix;
  }

  lemma SuffixParses(ds: set<Direction>)
    requires ds != {}
    ensures ParseHat(HatSuffix(ds)) == if |ds| == 1 then ds else {}
    ensures Ends(HatSuffix(ds))
  {
    if |ds| == 1 {
      hide ParseHat;
      var d :| d in ds;
      assert |ds - {d}| == 0;
      assert ds == {d};
      SuffixOfOne(d);
      ParseHatExactly(HatSuffix({d}), d);
    }
  }

  lemma SuffixOfOne(d: Direction)
    ensures HatSuffix({d}) == DirectionName(d)
  {
    assert {d} == {Up} ==> d in {Up};
    assert {d} == {Down} ==> d in {Down};
    assert {d} == {Left} ==> d in {Left};
    assert {d} == {Right} ==> d in {Right};
  }

  /** A hat whose directions have no name together. */
  predicate Nameless(k: JoyKey) {
    k.Hat? && |k.directions| != 1
  }

  /** Parsing gives back what was saved exactly if it has a name, or was there already. */
  lemma JoyKeyRoundTrip(k: JoyKey, saveEmpty: bool, before: JoyKey)
    requires k.Proper() && JoyKeyText(k, saveEmpty).Some?
    ensures ParseJoyKey(JoyKeyText(k, saveEmpty).value, before) == k <==> !Nameless(k) || before == k
  {
    hide Digits, ParseHatKey, HatSuffix, WithSign;
    match k {
      case NoButton =>
      case Plain(n) =>
        PrintedNumber(n as nat);
        DigitsAreDigits(n as nat, 0);
      case Hat(hat, ds) =>
        var text := "h" + (Digits(hat as nat) + HatSuffix(ds));
        assert text[0] == 'h' && text[1..] == Digits(hat as nat) + HatSuffix(ds);
        assert text != "nul" by { assert "nul"[0] == 'n'; }
        ParseHatText(hat, ds, before);
    }
  }

  /** A number alone is a button; after an `h` and before the name of a direction it is a hat. */
  lemma ButtonTexts(n: u64, hat: u16, d: Direction, before: JoyKey)
    ensures ParseJoyKey(Digits(n as nat), before) == Plain(n)
    ensures ParseJoyKey("h" + (Digits(hat as nat) + DirectionName(d)), before) == Hat(hat, {d})
  {
    hide Digits, ParseHatKey, HatSuffix, WithSign;
    PrintedNumber(n as nat);
    DigitsAreDigits(n as nat, 0);
    var text := "h" + (Digits(hat as nat) + DirectionName(d));
    assert text[0] == 'h' && text[1..] == Digits(hat as nat) + DirectionName(d);
    assert text != "nul" by { assert "nul"[0] == 'n'; }
    SuffixOfOne(d);
    ParseHatText(hat, {d}, before);
  }

  // ----- axes -----

  function HalfOf(n: int): (h: Half)
    ensures h.Proper()
  {
    if n % 0x1_0000 == 0xffff then Unused else Used((n % 0x1_0000) as u16)
  }

  /** What is saved for an axis: the negative half comes first. */
  function AxisText(a: Axis, saveEmpty: bool): (t: Option<string>) {
    if a == NO_AXIS then (if saveEmpty then Some("nul") else None)
    else if a.negative.Used? then Some("-" + Digits(a.negative.axis as nat))
    else Some("+" + Digits(a.positive.axis as nat))
  }

  function ParseAxis(text: string, before: Axis): (a: Axis) {
    if text == "nul" then NO_AXIS
    else if |text| >= 2 && text[0] == '+' then Axis(Unused, HalfOf(ToSigned(text[1..])))
    else if |text| >= 2 && text[0] == '-' then Axis(HalfOf(ToSigned(text[1..])), Unused)
    else before
  }

  /** Parsing gives back what was saved exactly if it was saved and only one half was in use. */
  lemma AxisRoundTrip(a: Axis, saveEmpty: bool, before: Axis)
    requires a.negative.Proper() && a.positive.Proper() && AxisText(a, saveEmpty).Some?
    ensures ParseAxis(AxisText(a, saveEmpty).value, before) == a <==> !(a.negative.Used? && a.positive.Used?)
  {
    hide Digits, WithSign;
    if a != NO_AXIS {
      var n := if a.negative.Used? then a.negative.axis as nat else a.positive.axis as nat;
      var text := AxisText(a, saveEmpty).value;
      assert text[1..] == Digits(n);
      assert text != "nul" by { assert "nul"[0] == 'n'; }
      PrintedNumber(n);
    }
  }

  /** A plus sign is for the positive half of an axis, a minus sign for the negative one. */
  lemma AxisTexts(n: u16, before: Axis)
    requires n < 0xffff
    ensures ParseAxis("+" + Digits(n as nat), before) == Axis(Unused, Used(n))
    ensures ParseAxis("-" + Digits(n as nat), before) == Axis(Used(n), Unused)
  {
    hide Digits, WithSign;
    var plus, minus := "+" + Digits(n as nat), "-" + Digits(n as nat);
    assert plus[1..] == Digits(n as nat) && minus[1..] == Digits(n as nat);
    assert plus != "nul" && minus != "nul" by { assert "nul"[0] == 'n'; }
    PrintedNumber(n as nat);
  }

  // ----- the mouse -----

  datatype MouseButton =
    | LeftButton | RightButton | MiddleButton | Button4 | Button5
    | WheelUp | WheelDown | HorizontalUp | HorizontalDown
    | NoMouse

  /** What is saved for a mouse button. */
  function MouseText(m: MouseButton): string {
    match m
    case LeftButton => "1" case RightButton => "2" case MiddleButton => "3" case Button4 => "4" case Button5 => "5"
    case WheelUp => "wu" case WheelDown => "wd" case HorizontalUp => "whu" case HorizontalDown => "whd"
    case NoMouse => "nul"
  }

  /** `atoi`. */
  function ToDecimal(s: string): (n: int) {
    var t := SkipSpace(s);
    var signed := t != [] && (t[0] == '-' || t[0] == '+');
    var digits := if signed then t[1..] else t;
    var v := Valued(digits, Run(digits, 10), 10);
    if signed && t[0] == '-' then -(v as int) else v
  }

  /** Only the first letters of a wheel's name matter; what has no meaning is no button. */
  function ParseMouse(text: string): (m: MouseButton) {
    if text != [] && text[0] == 'w' then ParseWheel(text[1..])
    else
      match ToDecimal(text)
      case 1 => LeftButton
      case 2 => RightButton
      case 3 => MiddleButton
      case 4 => Button4
      case 5 => Button5
      case _ => NoMouse
  }

  function ParseWheel(text: string): (m: MouseButton) {
    if text == [] then NoMouse
    else if text[0] == 'u' then WheelUp
    else if text[0] == 'd' then WheelDown
    else if text[0] == 'h' && |text| > 1 && text[1] == 'u' then HorizontalUp
    else if text[0] == 'h' && |text| > 1 && text[1] == 'd' then HorizontalDown
    else NoMouse
  }

  /** Mouse buttons always come back. */
  lemma MouseRoundTrip(m: MouseButton)
    ensures ParseMouse(MouseText(m)) == m
  {
    var text := MouseText(m);
    if text[0] != 'w' {
      assert SkipSpace(text) == text;
      assert Run(text[1..], 10) == 0;
      assert Run(text, 10) == if m.NoMouse? then 0 else 1;
      assert Valued(text, 0, 10) == 0;
    }
  }

  // ----- binds and files -----

  /** A row of a bind array; its key appears by the name the keymap has for it. */
  class Bind {
    var valid: bool
    var key: string
    var joykey: JoyKey
    var joyaxis: Axis
    var mbutton: MouseButton

    constructor (valid: bool, key: string, joykey: JoyKey, joyaxis: Axis, mbutton: MouseButton)
      ensures this.valid == valid && this.key == key
      ensures this.joykey == joykey && this.joyaxis == joyaxis && this.mbutton == mbutton
    {
      this.valid, this.key, this.joykey, this.joyaxis, this.mbutton := valid, key, joykey, joyaxis, mbutton;
    }

    ghost predicate Proper()
      reads this
    {
      joykey.Proper() && joyaxis.negative.Proper() && joyaxis.positive.Proper()
    }
  }

  class KeyFile {
    var entries: map<string, string>

    constructor ()
      ensures entries == map[]
    {
      entries := map[];
    }
  }

  /** The name under which a bind's text is saved, and looked up again. */
  function KeyFor(prefix: string, base: string, kind: string): string {
    prefix + "_" + base + kind
  }

  lemma KindsDiffer(prefix: string, base: string)
    ensures KeyFor(prefix, base, "_btn") != KeyFor(prefix, base, "_axis")
  {
    assert |KeyFor(prefix, base, "_btn")| != |KeyFor(prefix, base, "_axis")|;
  }

  method SaveJoyKey(file: KeyFile, prefix: string, base: string, bind: Bind, saveEmpty: bool)
    modifies file
    ensures file.entries == match JoyKeyText(bind.joykey, saveEmpty)
                            case None => old(file.entries)
                            case Some(t) => old(file.entries)[KeyFor(prefix, base, "_btn") := t]
  {
    var key := KeyFor(prefix, base, "_btn");
    match bind.joykey {
      case NoButton =>
        if saveEmpty { file.entries := file.entries[key := "nul"]; }
      case Hat(hat, ds) =>
        file.entries := file.entries[key := "h" + (Digits(hat as nat) + HatSuffix(ds))];
      case Plain(n) =>
        file.entries := file.entries[key := Digits(n as nat)];
    }
  }

  method SaveAxis(file: KeyFile, prefix: string, base: string, bind: Bind, saveEmpty: bool)
    modifies file
    ensures file.entries == match AxisText(bind.joyaxis, saveEmpty)
                            case None => old(file.entries)
                            case Some(t) => old(file.entries)[KeyFor(prefix, base, "_axis") := t]
  {
    var key := KeyFor(prefix, base, "_axis");
    var a := bind.joyaxis;
    if a == NO_AXIS {
      if saveEmpty { file.entries := file.entries[key := "nul"]; }
    } else if a.negative.Used? {
      file.entries := file.entries[key := "-" + Digits(a.negative.axis as nat)];
    } else {
      file.entries := file.entries[key := "+" + Digits(a.positive.axis as nat)];
    }
  }

  method SaveMouse(file: KeyFile, prefix: string, base: string, bind: Bind)
    modifies file
    ensures file.entries == old(file.entries)[KeyFor(prefix, base, "_mbtn") := MouseText(bind.mbutton)]
  {
    file.entries := file.entries[KeyFor(prefix, base, "_mbtn") := MouseText(bind.mbutton)];
  }

  method ParseJoyButton(file: KeyFile, prefix: string, base: string, bind: Bind)
    modifies bind`joykey
    ensures bind.joykey == JoyKeyIn(file.entries, prefix, base, old(bind.joykey))
  {
    var key := KeyFor(prefix, base, "_btn");
    if key in file.entries {
      bind.joykey := ParseJoyKey(file.entries[key], bind.joykey);
    }
  }

  method ParseJoyAxis(file: KeyFile, prefix: string, base: string, bind: Bind)
    modifies bind`joyaxis
    ensures bind.joyaxis == AxisIn(file.entries, prefix, base, old(bind.joyaxis))
  {
    var key := KeyFor(prefix, base, "_axis");
    if key in file.entries {
      bind.joyaxis := ParseAxis(file.entries[key], bind.joyaxis);
    }
  }

  method ParseMouseButton(file: KeyFile, prefix: string, base: string, bind: Bind)
    modifies bind`mbutton
    ensures bind.mbutton == MouseIn(file.entries, prefix, base, old(bind.mbutton))
  {
    var key := KeyFor(prefix, base, "_mbtn");
    if key in file.entries {
      bind.mbutton := ParseMouse(file.entries[key]);
    }
  }

  /** What a file makes of a bind: an entry that is not there leaves it alone. */
  function JoyKeyIn(entries: map<string, string>, prefix: string, base: string, before: JoyKey): JoyKey {
    var key := KeyFor(prefix, base, "_btn");
    if key in entries then ParseJoyKey(entries[key], before) else before
  }

  function AxisIn(entries: map<string, string>, prefix: string, base: string, before: Axis): Axis {
    var key := KeyFor(prefix, base, "_axis");
    if key in entries then ParseAxis(entries[key], before) else before
  }

  function MouseIn(entries: map<string, string>, prefix: string, base: string, before: MouseButton): MouseButton {
    var key := KeyFor(prefix, base, "_mbtn");
    if key in entries then ParseMouse(entries[key]) else before
  }

  /** When a button comes back that is saved and parsed; `unsaved` is what the old file alone makes of the bind. */
  predicate ButtonReturns(k: JoyKey, saveEmpty: bool, before: JoyKey, unsaved: JoyKey) {
    if k == NoButton && !saveEmpty then unsaved == NoButton else !Nameless(k) || before == k
  }

  predicate AxisReturns(a: Axis, saveEmpty: bool, unsaved: Axis) {
    if a == NO_AXIS && !saveEmpty then unsaved == NO_AXIS else !(a.negative.Used? && a.positive.Used?)
  }

  /**
   A bind saved to a file and parsed into another. A button comes back exactly if it is a plain one, or a hat with one
   direction, or was there already; a missing bind that is not saved comes back exactly if the old entry, or its
   absence, already meant none. An axis comes back exactly if at most one of its halves is in use.
   */
  method SaveAndParse(file: KeyFile, prefix: string, base: string, source: Bind, target: Bind, saveEmpty: bool)
    requires source != target && source.Proper()
    modifies file, target
    ensures target.joykey == source.joykey <==>
              ButtonReturns(source.joykey, saveEmpty, old(target.joykey),
                            JoyKeyIn(old(file.entries), prefix, base, old(target.joykey)))
    ensures target.joyaxis == source.joyaxis <==>
              AxisReturns(source.joyaxis, saveEmpty, AxisIn(old(file.entries), prefix, base, old(target.joyaxis)))
  {
    hide Digits, ParseJoyKey, ParseAxis, KeyFor, HatSuffix;
    KindsDiffer(prefix, base);
    SaveJoyKey(file, prefix, base, source, saveEmpty);
    SaveAxis(file, prefix, base, source, saveEmpty);
    if JoyKeyText(source.joykey, saveEmpty).Some? { JoyKeyRoundTrip(source.joykey, saveEmpty, target.joykey); }
    if AxisText(source.joyaxis, saveEmpty).Some? { AxisRoundTrip(source.joyaxis, saveEmpty, target.joyaxis); }
    ParseJoyButton(file, prefix, base, target);
    ParseJoyAxis(file, prefix, base, target);
  }
}
