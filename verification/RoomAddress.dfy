/**
 The arguments of a room join: copying a bounded C string, and the scanner for IPv4 literals
 against the grammar of section 3.2.2 of RFC 3986.
 */
module RoomAddress {
  import opened Decimal

  // ----- bounded C strings -----

  datatype CString = Null | Memory(bytes: string)

  /** Memory from a C pointer: it has a terminator, or at least `limit + 1` readable characters. */
  predicate Readable(value: CString, limit: nat) {
    value.Memory? ==> '\0' in value.bytes || |value.bytes| > limit
  }

  /** `text` is the C string at `value` and is no longer than `limit`. */
  predicate IsBounded(value: CString, limit: nat, text: string) {
    && value.Memory?
    && |text| <= limit && |text| < |value.bytes|
    && text == value.bytes[..|text|] && '\0' !in text && value.bytes[|text|] == '\0'
  }

  method Bounded(value: CString, limit: nat) returns (ok: bool, copy: string)
    requires Readable(value, limit)
    ensures ok ==> IsBounded(value, limit, copy)
    ensures !ok ==> forall text :: !IsBounded(value, limit, text)
  {
    copy := "";
    if value.Null? {
      return false, copy;
    }
    var length := 0;
    while length <= limit && value.bytes[length] != '\0'
      invariant 0 <= length <= limit + 1
      invariant length <= limit ==> length < |value.bytes|
      invariant length <= |value.bytes| && forall i :: 0 <= i < length ==> value.bytes[i] != '\0'
    {
      length := length + 1;
    }
    if length > limit {
      return false, copy;
    }
    return true, value.bytes[..length];
  }

  // ----- the grammar -----

  predicate Digit(c: char) {
    '0' <= c <= '9'
  }

  /** dec-octet = DIGIT / %x31-39 DIGIT / "1" 2DIGIT / "2" %x30-34 DIGIT / "25" %x30-35 */
  predicate DecOctet(s: string) {
    || (|s| == 1 && Digit(s[0]))
    || (|s| == 2 && '1' <= s[0] <= '9' && Digit(s[1]))
    || (|s| == 3 && s[0] == '1' && Digit(s[1]) && Digit(s[2]))
    || (|s| == 3 && s[0] == '2' && '0' <= s[1] <= '4' && Digit(s[2]))
    || (|s| == 3 && s[0] == '2' && s[1] == '5' && '0' <= s[2] <= '5')
  }

  function Join(parts: seq<string>): (s: string)
    requires parts != []
  {
    if |parts| == 1 then parts[0] else parts[0] + "." + Join(parts[1..])
  }

  /** IPv4address = dec-octet "." dec-octet "." dec-octet "." dec-octet */
  ghost predicate IPv4Address(s: string) {
    exists parts: seq<string> :: |parts| == 4 && Octets(parts) && s == Join(parts)
  }

  predicate Octets(parts: seq<string>) {
    forall i :: 0 <= i < |parts| ==> DecOctet(parts[i])
  }

  // ----- digits -----

  function DigitsEnd(s: string, pos: nat): (end: nat)
    requires pos <= |s|
    ensures pos <= end <= |s|
    ensures forall i :: pos <= i < end ==> Digit(s[i])
    ensures end < |s| ==> !Digit(s[end])
    decreases |s| - pos
  {
    if pos < |s| && Digit(s[pos]) then DigitsEnd(s, pos + 1) else pos
  }

  predicate AllDigits(s: string) {
    forall i :: 0 <= i < |s| ==> Digit(s[i])
  }

  function Number(s: string): (n: nat)
    requires AllDigits(s)
  {
    if s == [] then 0 else 10 * Number(s[..|s| - 1]) + (s[|s| - 1] - '0') as nat
  }

  /** What the scanner checks is what the grammar allows. */
  lemma OctetByValue(s: string)
    requires AllDigits(s)
    ensures DecOctet(s) <==> 1 <= |s| <= 3 && Number(s) <= 255 && (|s| > 1 ==> s[0] != '0')
  {
    if |s| == 1 {
      NumberOfShort(s);
    } else if |s| == 2 {
      NumberOfShort(s);
    } else if |s| == 3 {
      NumberOfShort(s);
    }
  }

  lemma NumberOfShort(s: string)
    requires AllDigits(s) && 1 <= |s| <= 3
    ensures |s| == 1 ==> Number(s) == (s[0] - '0') as nat
    ensures |s| == 2 ==> Number(s) == 10 * (s[0] - '0') as nat + (s[1] - '0') as nat
    ensures |s| == 3 ==> Number(s) == 100 * (s[0] - '0') as nat + 10 * (s[1] - '0') as nat + (s[2] - '0') as nat
  {
    if |s| > 1 {
      NumberOfShort(s[..|s| - 1]);
    }
    assert |s| == 1 ==> s[..0] == [];
  }

  // ----- the scanner -----

  /** `parts` octets separated by dots, each taking all the digits it can, fill `s` from `pos` on. */
  predicate Scans(s: string, pos: nat, parts: nat)
    requires pos <= |s| && parts > 0
    decreases parts
  {
    var end := DigitsEnd(s, pos);
    && DecOctet(s[pos..end])
    && if parts == 1 then end == |s| else end < |s| && s[end] == '.' && Scans(s, end + 1, parts - 1)
  }

  lemma TooLong(s: string, begin: nat, pos: nat)
    requires begin <= pos <= |s| && AllDigits(s[begin..pos])
    requires DigitsEnd(s, begin) == DigitsEnd(s, pos)
    requires pos - begin > 3 || Number(s[begin..pos]) > 255
    requires pos - begin <= 3 ==> pos - begin == 3
    ensures !DecOctet(s[begin..DigitsEnd(s, begin)])
  {
    var end := DigitsEnd(s, begin);
    if end == pos {
      OctetByValue(s[begin..end]);
    }
  }

  /** The inner loop over the digits of one part. */
  method ScanOctet(ip: string, begin: nat) returns (ok: bool, pos: nat)
    requires begin <= |ip|
    ensures ok == DecOctet(ip[begin..DigitsEnd(ip, begin)])
    ensures ok ==> pos == DigitsEnd(ip, begin)
  {
    hide DecOctet, DigitsEnd, Number;
    pos := begin;
    var value := 0;
    NumberStep(ip, begin, pos);
    while pos < |ip| && '0' <= ip[pos] && ip[pos] <= '9'
      invariant begin <= pos <= |ip| && pos - begin <= 3
      invariant AllDigits(ip[begin..pos])
      invariant DigitsEnd(ip, begin) == DigitsEnd(ip, pos)
      invariant value == Number(ip[begin..pos]) <= 255
    {
      NumberStep(ip, begin, pos);
      DigitsEndStep(ip, pos);
      value := value * 10 + (ip[pos] - '0') as nat;
      pos := pos + 1;
      if pos - begin > 3 || value > 255 {
        ShortIsSmall(ip[begin..pos]);
        TooLong(ip, begin, pos);
        return false, pos;
      }
    }
    DigitsEndStep(ip, pos);
    OctetByValue(ip[begin..pos]);
    if pos == begin || (pos - begin > 1 && ip[begin] == '0') {
      return false, pos;
    }
    return true, pos;
  }

  lemma DigitsEndStep(s: string, pos: nat)
    requires pos <= |s|
    ensures DigitsEnd(s, pos) == if pos < |s| && Digit(s[pos]) then DigitsEnd(s, pos + 1) else pos
  {
  }

  lemma NumberStep(s: string, begin: nat, pos: nat)
    requires begin <= pos <= |s| && AllDigits(s[begin..pos])
    ensures AllDigits(s[begin..begin]) && Number(s[begin..begin]) == 0
    ensures pos < |s| && Digit(s[pos]) ==>
      AllDigits(s[begin..pos + 1]) && Number(s[begin..pos + 1]) == 10 * Number(s[begin..pos]) + (s[pos] - '0') as nat
  {
    if pos < |s| {
      assert s[begin..pos + 1][..pos - begin] == s[begin..pos];
    }
  }

  lemma ShortIsSmall(s: string)
    requires AllDigits(s)
    ensures 1 <= |s| <= 2 ==> Number(s) < 100
  {
    if 1 <= |s| <= 2 {
      NumberOfShort(s);
    }
  }

  lemma ScansStep(s: string, pos: nat, n: nat)
    requires pos <= |s| && n > 0
    ensures var end := DigitsEnd(s, pos);
            Scans(s, pos, n) <==> && DecOctet(s[pos..end])
                                  && if n == 1 then end == |s|
                                      else end < |s| && s[end] == '.' && Scans(s, end + 1, n - 1)
  {
    hide DecOctet, DigitsEnd;
  }

  method IPv4(ip: string) returns (ok: bool)
    ensures ok <==> IPv4Address(ip) && ip != "0.0.0.0" && ip != "255.255.255.255"
  {
    hide *;
    ScansExactly(ip);
    var pos: nat := 0;
    for part := 0 to 4
      invariant pos <= |ip|
      invariant part < 4 ==> (Scans(ip, 0, 4) <==> Scans(ip, pos, 4 - part))
      invariant part == 4 ==> (Scans(ip, 0, 4) <==> pos == |ip|)
    {
      ScansStep(ip, pos, 4 - part);
      var octet, end := ScanOctet(ip, pos);
      if !octet {
        return false;
      }
      pos := end;
      if part != 3 {
        if pos >= |ip| {
          return false;
        }
        pos := pos + 1;
        if ip[pos - 1] != '.' {
          return false;
        }
      }
    }
    return pos == |ip| && ip != "0.0.0.0" && ip != "255.255.255.255";
  }

  // ----- the scanner against the grammar -----

  lemma OctetDigits(s: string)
    requires DecOctet(s)
    ensures AllDigits(s) && s != []
  {
  }

  /** The digits end where an octet does, if a dot or nothing follows. */
  lemma {:induction false} DigitsEndAt(s: string, pos: nat, end: nat)
    requires pos <= end <= |s|
    requires forall i :: pos <= i < end ==> Digit(s[i])
    requires end < |s| ==> !Digit(s[end])
    ensures DigitsEnd(s, pos) == end
    decreases end - pos
  {
    if pos < end {
      DigitsEndAt(s, pos + 1, end);
    }
  }

  lemma SliceOfRest(s: string, pos: nat, n: nat)
    requires pos + n <= |s|
    ensures s[pos..pos + n] == s[pos..][..n]
  {
  }

  lemma RestOfRest(s: string, pos: nat, n: nat)
    requires pos + n <= |s|
    ensures s[pos + n..] == s[pos..][n..]
  {
  }

  lemma {:induction false} JoinScans(parts: seq<string>, s: string, pos: nat)
    requires parts != [] && Octets(parts)
    requires pos <= |s| && s[pos..] == Join(parts)
    ensures Scans(s, pos, |parts|)
    decreases parts
  {
    hide DecOctet, DigitsEnd, Scans;
    OctetDigits(parts[0]);
    ScansStep(s, pos, |parts|);
    var end := pos + |parts[0]|;
    assert s[pos..][..|parts[0]|] == parts[0];
    SliceOfRest(s, pos, |parts[0]|);
    assert forall i :: pos <= i < end ==> s[i] == parts[0][i - pos];
    if |parts| > 1 {
      assert s[pos..][|parts[0]|] == '.';
      assert s[end] == '.';
      RestOfRest(s, pos, |parts[0]| + 1);
      assert s[end + 1..] == Join(parts[1..]);
      JoinScans(parts[1..], s, end + 1);
    }
    DigitsEndAt(s, pos, end);
  }

  lemma {:induction false} ScansJoin(s: string, pos: nat, n: nat) returns (parts: seq<string>)
    requires pos <= |s| && n > 0 && Scans(s, pos, n)
    ensures |parts| == n && Octets(parts) && s[pos..] == Join(parts)
    decreases n
  {
    hide DecOctet, DigitsEnd;
    var end := DigitsEnd(s, pos);
    if n == 1 {
      parts := [s[pos..end]];
    } else {
      var rest := ScansJoin(s, end + 1, n - 1);
      parts := [s[pos..end]] + rest;
      assert parts[1..] == rest;
      assert s[pos..] == s[pos..end] + "." + s[end + 1..];
    }
  }

  lemma ScansExactly(s: string)
    ensures Scans(s, 0, 4) <==> IPv4Address(s)
  {
    hide Scans, Join, Octets;
    assert s[0..] == s;
    if Scans(s, 0, 4) {
      var parts := ScansJoin(s, 0, 4);
    }
    if IPv4Address(s) {
      var parts: seq<string> :| |parts| == 4 && Octets(parts) && s == Join(parts);
      JoinScans(parts, s, 0);
    }
  }

  // ----- every accepted string has one reading, and printing gives all of them -----

  lemma {:induction false} ReadingUnique(ps: seq<string>, qs: seq<string>)
    requires |ps| == |qs| > 0 && Octets(ps) && Octets(qs) && Join(ps) == Join(qs)
    ensures ps == qs
    decreases ps
  {
    hide DecOctet;
    var s := Join(ps);
    OctetDigits(ps[0]);
    OctetDigits(qs[0]);
    FirstOctetEnds(ps);
    FirstOctetEnds(qs);
    DigitsEndAt(s, 0, |ps[0]|);
    DigitsEndAt(s, 0, |qs[0]|);
    assert s[..|ps[0]|] == ps[0] && s[..|qs[0]|] == qs[0];
    if |ps| > 1 {
      assert s[|ps[0]| + 1..] == Join(ps[1..]) && s[|qs[0]| + 1..] == Join(qs[1..]);
      ReadingUnique(ps[1..], qs[1..]);
      assert ps == [ps[0]] + ps[1..] && qs == [qs[0]] + qs[1..];
    }
  }

  lemma FirstOctetEnds(ps: seq<string>)
    requires ps != [] && Octets(ps)
    ensures var s := Join(ps);
            && |ps[0]| <= |s| && s[..|ps[0]|] == ps[0]
            && (forall i :: 0 <= i < |ps[0]| ==> Digit(s[i]))
            && (|ps[0]| < |s| ==> !Digit(s[|ps[0]|]))
  {
    OctetDigits(ps[0]);
  }

  type octet = n: nat | n < 256

  lemma {:induction false} NumberOfDigits(n: nat)
    ensures AllDigits(Digits(n)) && Number(Digits(n)) == n
  {
    if n >= 10 {
      NumberOfDigits(n / 10);
      assert Digits(n)[..|Digits(n)| - 1] == Digits(n / 10);
    } else {
      assert Digits(n)[..0] == [];
    }
  }

  lemma DigitsOfOctet(n: octet)
    ensures AllDigits(Digits(n)) && Number(Digits(n)) == n && DecOctet(Digits(n))
  {
    hide DecOctet, Digits, Number;
    NumberOfDigits(n);
    ThreeDigits(n);
    LeadingDigit(n);
    OctetByValue(Digits(n));
  }

  lemma ThreeDigits(n: octet)
    ensures 1 <= |Digits(n)| <= 3
  {
    assert |Digits(n)| == if n < 10 then 1 else 1 + |Digits(n / 10)|;
    assert n >= 10 ==> |Digits(n / 10)| == if n < 100 then 1 else 1 + |Digits(n / 100)|;
  }

  function Print(a: octet, b: octet, c: octet, d: octet): (s: string) {
    Join([Digits(a), Digits(b), Digits(c), Digits(d)])
  }

  /** A decimal octet is the print of its number. */
  lemma OctetIsPrinted(s: string)
    requires DecOctet(s)
    ensures AllDigits(s) && Number(s) < 256 && s == Digits(Number(s))
  {
    OctetDigits(s);
    OctetByValue(s);
    DigitsOfOctet(Number(s));
    SameNumber(s, Digits(Number(s)));
  }

  lemma SameNumber(s: string, t: string)
    requires DecOctet(s) && DecOctet(t) && AllDigits(s) && AllDigits(t) && Number(s) == Number(t)
    ensures s == t
  {
    NumberOfShort(s);
    NumberOfShort(t);
  }

  predicate Reads(s: string, n: nat) {
    AllDigits(s) && Number(s) == n
  }

  lemma OctetsOf(a: octet, b: octet, c: octet, d: octet)
    ensures Octets([Digits(a), Digits(b), Digits(c), Digits(d)])
    ensures Reads(Digits(a), a) && Reads(Digits(b), b) && Reads(Digits(c), c) && Reads(Digits(d), d)
  {
    hide DecOctet, Digits, Number;
    DigitsOfOctet(a);
    DigitsOfOctet(b);
    DigitsOfOctet(c);
    DigitsOfOctet(d);
  }

  /** The grammar is exactly the set of prints, and printing is injective. */
  lemma PrintedExactly(s: string)
    ensures IPv4Address(s) <==> exists a: octet, b: octet, c: octet, d: octet :: s == Print(a, b, c, d)
  {
    hide DecOctet, Digits, Join, Number;
    if IPv4Address(s) {
      var ps: seq<string> :| |ps| == 4 && Octets(ps) && s == Join(ps);
      OctetIsPrinted(ps[0]);
      OctetIsPrinted(ps[1]);
      OctetIsPrinted(ps[2]);
      OctetIsPrinted(ps[3]);
      var a: octet, b: octet, c: octet, d: octet := Number(ps[0]), Number(ps[1]), Number(ps[2]), Number(ps[3]);
      assert ps == [Digits(a), Digits(b), Digits(c), Digits(d)];
      assert s == Print(a, b, c, d);
    }
    if exists a: octet, b: octet, c: octet, d: octet :: s == Print(a, b, c, d) {
      var a: octet, b: octet, c: octet, d: octet :| s == Print(a, b, c, d);
      OctetsOf(a, b, c, d);
    }
  }

  lemma PrintInjective(a: octet, b: octet, c: octet, d: octet, a': octet, b': octet, c': octet, d': octet)
    requires Print(a, b, c, d) == Print(a', b', c', d')
    ensures a == a' && b == b' && c == c' && d == d'
  {
    hide DecOctet, Digits, Join, Number;
    var ps := [Digits(a), Digits(b), Digits(c), Digits(d)];
    var qs := [Digits(a'), Digits(b'), Digits(c'), Digits(d')];
    OctetsOf(a, b, c, d);
    OctetsOf(a', b', c', d');
    ReadingUnique(ps, qs);
    assert ps[0] == qs[0] && ps[1] == qs[1] && ps[2] == qs[2] && ps[3] == qs[3];
  }

  // ----- the arguments of a join -----

  /** What the interface allows in a nickname. */
  predicate NameChar(c: char) {
    'A' <= c <= 'Z' || 'a' <= c <= 'z' || Digit(c) || c == '.' || c == '_' || c == ' ' || c == '-'
  }

  /** The characters that the source searches, one by one. */
  const CAPITALS := "ABCDEFGHIJKLMNOPQRSTUVWXYZ"
  const SMALLS := "abcdefghijklmnopqrstuvwxyz"
  const OTHERS := "0123456789._ -"

  lemma CapitalsListed(c: char)
    ensures c in CAPITALS <==> 'A' <= c <= 'Z'
  {
    hide CAPITALS;
    CapitalAt();
    if 'A' <= c <= 'Z' {
      assert CAPITALS[c as int - 'A' as int] == c;
    }
  }

  lemma CapitalAt()
    ensures |CAPITALS| == 26 && forall i :: 0 <= i < 26 ==> CAPITALS[i] as int == 'A' as int + i
  {
  }

  lemma SmallsListed(c: char)
    ensures c in SMALLS <==> 'a' <= c <= 'z'
  {
    hide SMALLS;
    SmallAt();
    if 'a' <= c <= 'z' {
      assert SMALLS[c as int - 'a' as int] == c;
    }
  }

  lemma SmallAt()
    ensures |SMALLS| == 26 && forall i :: 0 <= i < 26 ==> SMALLS[i] as int == 'a' as int + i
  {
  }

  lemma OthersListed(c: char)
    ensures c in OTHERS <==> Digit(c) || c == '.' || c == '_' || c == ' ' || c == '-'
  {
    hide OTHERS;
    OtherAt();
    if Digit(c) {
      assert OTHERS[c as int - '0' as int] == c;
    }
  }

  lemma OtherAt()
    ensures |OTHERS| == 14 && (forall i :: 0 <= i < 10 ==> OTHERS[i] as int == '0' as int + i)
    ensures OTHERS[10] == '.' && OTHERS[11] == '_' && OTHERS[12] == ' ' && OTHERS[13] == '-'
  {
  }

  /** The list of characters is what the interface allows. */
  lemma NameCharsListed(c: char)
    ensures c in CAPITALS + SMALLS + OTHERS <==> NameChar(c)
  {
    hide CAPITALS, SMALLS, OTHERS;
    CapitalsListed(c);
    SmallsListed(c);
    OthersListed(c);
  }

  predicate Nickname(s: string) {
    4 <= |s| <= 20 && forall c | c in s :: NameChar(c)
  }

  ghost predicate Joinable(ip: string, port: nat, nick: string, password: string) {
    && IPv4Address(ip) && ip != "0.0.0.0" && ip != "255.255.255.255"
    && 1 <= port <= 65535 && Nickname(nick) && |password| <= 128
  }

  /** A join is refused exactly if its arguments are not what the interface promises to accept. */
  method CheckArguments(address: CString, port: nat, nickname: CString, secret: CString) returns (ok: bool)
    requires Readable(address, 15) && Readable(nickname, 20) && Readable(secret, 128)
    ensures ok <==> exists ip, nick, password ::
              && IsBounded(address, 15, ip) && IsBounded(nickname, 20, nick) && IsBounded(secret, 128, password)
              && Joinable(ip, port, nick, password)
  {
    hide IPv4Address, NameChar, CAPITALS, SMALLS, OTHERS;
    var isIp, ip := Bounded(address, 15);
    if !isIp { return false; }
    BoundedOnce(address, 15, ip);
    var isAddress := IPv4(ip);
    if !isAddress || port < 1 || port > 65535 { return false; }
    var isNick, nick := Bounded(nickname, 20);
    if !isNick { return false; }
    BoundedOnce(nickname, 20, nick);
    forall c ensures c in CAPITALS + SMALLS + OTHERS <==> NameChar(c) {
      NameCharsListed(c);
    }
    if |nick| < 4 || exists c | c in nick :: c !in CAPITALS + SMALLS + OTHERS { return false; }
    var isSecret, password := Bounded(secret, 128);
    assert isSecret ==> Joinable(ip, port, nick, password);
    return isSecret;
  }

  /** A pointer holds one text. */
  lemma BoundedOnce(value: CString, limit: nat, text: string)
    requires IsBounded(value, limit, text)
    ensures forall other :: IsBounded(value, limit, other) ==> other == text
  {
    NoTerminatorBefore(value, limit, text);
    forall other | IsBounded(value, limit, other) ensures other == text {
      NoTerminatorBefore(value, limit, other);
    }
  }

  lemma NoTerminatorBefore(value: CString, limit: nat, text: string)
    requires IsBounded(value, limit, text)
    ensures forall i :: 0 <= i < |text| ==> value.bytes[i] != '\0'
  {
    forall i | 0 <= i < |text| ensures value.bytes[i] != '\0' {
      assert text[i] == value.bytes[i] && text[i] in text;
    }
  }
}
