/**
 The address in the reply to PASV (section 4.1.2 of RFC 959): what sscanf makes of the text from the first "(" on, and
 the host and port the data channel connects to.
 */
module FtpAddress {
  import opened Wrappers
  import opened Bytes

  datatype Address = Address(host: seq<int>, port: int)

  const COMMA: byte := 44
  const MINUS: byte := 45
  const PLUS: byte := 43

  predicate IsSpace(b: byte) {
    b == 32 || 9 <= b <= 13
  }

  function SkipSpaces(b: seq<byte>): (r: seq<byte>)
    ensures |r| <= |b|
  {
    if b != [] && IsSpace(b[0]) then SkipSpaces(b[1..]) else b
  }

  /** The digits `b` begins with. */
  function Digits(b: seq<byte>): (d: seq<byte>)
    ensures d <= b && (forall x <- d :: IsDigit(x))
  {
    if b != [] && IsDigit(b[0]) then [b[0]] + Digits(b[1..]) else []
  }

  function Decimal(d: seq<byte>): nat
    requires forall x <- d :: IsDigit(x)
  {
    if d == [] then 0
    else
      assert d[|d| - 1] in d && IsDigit(d[|d| - 1]);
      10 * Decimal(d[..|d| - 1]) + (d[|d| - 1] as nat - 48)
  }

  /** "%d": white space, a sign, digits; and what follows. A number that does not fit into 32 bits is not a result. */
  function ScanInt(b: seq<byte>): (r: Option<(int, seq<byte>)>)
    ensures r.Some? ==> |r.value.1| < |b| && -0x8000_0000 <= r.value.0 < 0x8000_0000
  {
    var t := SkipSpaces(b);
    if t != [] && (t[0] == MINUS || t[0] == PLUS) then ScanDigits(t[1..], t[0] == MINUS) else ScanDigits(t, false)
  }

  function ScanDigits(u: seq<byte>, negative: bool): (r: Option<(int, seq<byte>)>)
    ensures r.Some? ==> |r.value.1| < |u| && -0x8000_0000 <= r.value.0 < 0x8000_0000
  {
    var d := Digits(u);
    if d == [] then None
    else
      var magnitude: int := Decimal(d);
      var n := if negative then -magnitude else magnitude;
      if -0x8000_0000 <= n < 0x8000_0000 then Some((n, u[|d|..])) else None
  }

  /**
   `count` numbers, each behind the character that the format has before it: "(" for the first, "," for the others.
   */
  function ScanNumbers(b: seq<byte>, first: byte, count: nat): (r: Option<seq<int>>)
    ensures r.Some? ==> |r.value| == count
    decreases |b|
  {
    if count == 0 then Some([])
    else if b == [] || b[0] != first then None
    else
      match ScanInt(b[1..])
      case None => None
      case Some((n, rest)) =>
        match ScanNumbers(rest, COMMA, count - 1)
        case None => None
        case Some(ns) => Some([n] + ns)
  }

  /** A 32-bit int read as an unsigned number. */
  function Unsigned(n: int): int {
    if n < 0 then n + 0x1_0000_0000 else n
  }

  /** Wrap-around at 32 bits. */
  function Wrap(n: int): (r: int)
    ensures r < 0x1_0000_0000 && (n >= 0 ==> r >= 0)
  {
    if n < 0x1_0000_0000 then n else Wrap(n - 0x1_0000_0000)
  }

  /** (p1 << 8) + p2 on unsigned 32-bit numbers. */
  function Port(p1: int, p2: int): int {
    Wrap(Unsigned(p1) * 256 + Unsigned(p2))
  }

  /** The text from the first "(" on. */
  function FromParen(msg: seq<byte>): (spec: seq<byte>)
    ensures spec == [] <==> OPEN_PAREN !in msg
  {
    if msg == [] || msg[0] == OPEN_PAREN then msg else FromParen(msg[1..])
  }

  function ToAddress(n: seq<int>): Address
    requires |n| == 6
  {
    Address([Unsigned(n[0]), Unsigned(n[1]), Unsigned(n[2]), Unsigned(n[3])], Port(n[4], n[5]))
  }

  /** What the reply says, if all six numbers can be read. */
  function ReadAddress(msg: seq<byte>): Option<Address> {
    match ScanNumbers(FromParen(msg), OPEN_PAREN, 6)
    case None => None
    case Some(n) => Some(ToAddress(n))
  }

  /** The data channel can be opened: there are six numbers, and the port is not zero. */
  predicate HasAddress(msg: seq<byte>) {
    ReadAddress(msg).Some? && ReadAddress(msg).value.port != 0
  }

  // -------- Replies with an address --------

  /** A number as the server writes it. */
  function Print(n: nat): (d: seq<byte>)
    ensures d != [] && forall x <- d :: IsDigit(x)
    decreases n
  {
    if n < 10 then [(n + 48) as byte] else Print(n / 10) + [(n % 10 + 48) as byte]
  }

  lemma {:induction false} DecimalOfPrint(n: nat)
    ensures Decimal(Print(n)) == n
    decreases n
  {
    if n < 10 {
      assert Print(n)[..0] == [];
    } else {
      DecimalOfPrint(n / 10);
      assert Print(n)[..|Print(n)| - 1] == Print(n / 10);
    }
  }

  lemma {:induction false} DigitsOf(d: seq<byte>, rest: seq<byte>)
    requires (forall x <- d :: IsDigit(x)) && (rest != [] ==> !IsDigit(rest[0]))
    ensures Digits(d + rest) == d
  {
    if d == [] {
      assert d + rest == rest;
    } else {
      DigitsOf(d[1..], rest);
      assert (d + rest)[1..] == d[1..] + rest;
    }
  }

  /** A number as %d takes it: white space, a sign, digits. */
  datatype Numeral = Numeral(space: seq<byte>, sign: Option<byte>, digits: seq<byte>)

  predicate Readable(x: Numeral) {
    && (forall b <- x.space :: IsSpace(b)) && (x.sign.Some? ==> x.sign.value == MINUS || x.sign.value == PLUS)
    && x.digits != [] && (forall d <- x.digits :: IsDigit(d))
    && (var n: int := Decimal(x.digits);
        -0x8000_0000 <= (if x.sign == Some(MINUS) then -n else n) < 0x8000_0000)
  }

  type Number = x: Numeral | Readable(x) witness Numeral([], None, [48])

  function ValueOf(x: Number): (n: int)
    ensures -0x8000_0000 <= n < 0x8000_0000
  {
    if x.sign == Some(MINUS) then 0 - Decimal(x.digits) else Decimal(x.digits)
  }

  function Spell(x: Numeral): seq<byte> {
    x.space + (if x.sign.Some? then [x.sign.value] else []) + x.digits
  }

  lemma {:induction false} SpacesSkipped(space: seq<byte>, rest: seq<byte>)
    requires (forall b <- space :: IsSpace(b)) && (rest != [] ==> !IsSpace(rest[0]))
    ensures SkipSpaces(space + rest) == rest
  {
    if space == [] {
      assert space + rest == rest;
    } else {
      SpacesSkipped(space[1..], rest);
      assert (space + rest)[1..] == space[1..] + rest;
    }
  }

  lemma DigitsScanned(digits: seq<byte>, negative: bool, rest: seq<byte>)
    requires digits != [] && (forall d <- digits :: IsDigit(d)) && (rest != [] ==> !IsDigit(rest[0]))
    ensures ScanDigits(digits + rest, negative)
            == (var n: int := if negative then 0 - Decimal(digits) else Decimal(digits);
                if -0x8000_0000 <= n < 0x8000_0000 then Some((n, rest)) else None)
  {
    DigitsOf(digits, rest);
    assert (digits + rest)[|digits|..] == rest;
  }

  lemma SignSkipped(space: seq<byte>, sign: byte, u: seq<byte>)
    requires (forall b <- space :: IsSpace(b)) && (sign == MINUS || sign == PLUS)
    ensures ScanInt(space + ([sign] + u)) == ScanDigits(u, sign == MINUS)
  {
    var t := [sign] + u;
    SpacesSkipped(space, t);
    assert t[1..] == u;
  }

  lemma NoSign(space: seq<byte>, u: seq<byte>)
    requires (forall b <- space :: IsSpace(b)) && u != [] && IsDigit(u[0])
    ensures ScanInt(space + u) == ScanDigits(u, false)
  {
    SpacesSkipped(space, u);
  }

  lemma ScanSpelled(x: Number, rest: seq<byte>)
    requires rest != [] ==> !IsDigit(rest[0])
    ensures ScanInt(Spell(x) + rest) == Some((ValueOf(x), rest))
  {
    var u := x.digits + rest;
    DigitsScanned(x.digits, x.sign == Some(MINUS), rest);
    if x.sign.Some? {
      assert Spell(x) + rest == x.space + ([x.sign.value] + u);
      SignSkipped(x.space, x.sign.value, u);
    } else {
      assert x.digits[0] in x.digits && u[0] == x.digits[0];
      assert Spell(x) + rest == x.space + u;
      NoSign(x.space, u);
    }
  }

  /** The numbers with `first` before the first and a comma before each other one. */
  function SpellAll(xs: seq<Number>, first: byte): seq<byte> {
    if xs == [] then [] else [first] + Spell(xs[0]) + SpellAll(xs[1..], COMMA)
  }

  function Values(xs: seq<Number>): (ns: seq<int>)
    ensures |ns| == |xs|
  {
    seq(|xs|, i requires 0 <= i < |xs| => ValueOf(xs[i]))
  }

  lemma SpellAllFirst(xs: seq<Number>, first: byte, rest: seq<byte>)
    requires xs != []
    ensures var b := SpellAll(xs, first) + rest;
            b != [] && b[0] == first && b[1..] == Spell(xs[0]) + (SpellAll(xs[1..], COMMA) + rest)
  {
    var tail := SpellAll(xs[1..], COMMA);
    assert SpellAll(xs, first) + rest == [first] + (Spell(xs[0]) + (tail + rest));
  }

  lemma NumberEnds(xs: seq<Number>, rest: seq<byte>)
    requires rest != [] ==> !IsDigit(rest[0])
    ensures var b := SpellAll(xs, COMMA) + rest;
            b != [] ==> !IsDigit(b[0])
  {
    if xs != [] {
      SpellAllFirst(xs, COMMA, rest);
    } else {
      assert SpellAll(xs, COMMA) + rest == rest;
    }
  }

  lemma ScanOne(b: seq<byte>, first: byte, count: nat, n: int, rest: seq<byte>, ns: seq<int>)
    requires b != [] && b[0] == first && ScanInt(b[1..]) == Some((n, rest))
    requires ScanNumbers(rest, COMMA, count) == Some(ns)
    ensures ScanNumbers(b, first, count + 1) == Some([n] + ns)
  {
  }

  lemma ValuesFirst(xs: seq<Number>)
    requires xs != []
    ensures [ValueOf(xs[0])] + Values(xs[1..]) == Values(xs)
  {
  }

  lemma {:induction false} ScanSpelledAll(xs: seq<Number>, first: byte, rest: seq<byte>)
    requires rest != [] ==> !IsDigit(rest[0])
    ensures ScanNumbers(SpellAll(xs, first) + rest, first, |xs|) == Some(Values(xs))
    decreases |xs|
  {
    if xs != [] {
      var others := xs[1..];
      var tail := SpellAll(others, COMMA) + rest;
      SpellAllFirst(xs, first, rest);
      NumberEnds(others, rest);
      ScanSpelled(xs[0], tail);
      ScanSpelledAll(others, COMMA, rest);
      ScanOne(SpellAll(xs, first) + rest, first, |others|, ValueOf(xs[0]), tail, Values(others));
      ValuesFirst(xs);
    }
  }

  lemma {:induction false} FromParenAt(text: seq<byte>, spec: seq<byte>)
    requires OPEN_PAREN !in text && spec != [] && spec[0] == OPEN_PAREN
    ensures FromParen(text + spec) == spec
  {
    if text == [] {
      assert text + spec == spec;
    } else {
      FromParenAt(text[1..], spec);
      assert (text + spec)[1..] == text[1..] + spec;
    }
  }

  lemma {:induction false} WrapIsRemainder(n: int)
    requires n >= 0
    ensures Wrap(n) == n % 0x1_0000_0000
    decreases n
  {
    if n >= 0x1_0000_0000 {
      WrapIsRemainder(n - 0x1_0000_0000);
    }
  }

  /** Host and port from six numbers, as unsigned 32-bit arithmetic has it. */
  function Modulo32(n: seq<int>): Address
    requires |n| == 6
  {
    var m := 0x1_0000_0000;
    Address([n[0] % m, n[1] % m, n[2] % m, n[3] % m], (n[4] % m * 256 + n[5] % m) % m)
  }

  lemma UnsignedIsRemainder(n: int)
    requires -0x8000_0000 <= n < 0x8000_0000
    ensures Unsigned(n) == n % 0x1_0000_0000 >= 0
  {
  }

  lemma AddressOf(msg: seq<byte>, n: seq<int>)
    requires |n| == 6 && forall i :: 0 <= i < 6 ==> -0x8000_0000 <= n[i] < 0x8000_0000
    requires ScanNumbers(FromParen(msg), OPEN_PAREN, 6) == Some(n)
    ensures ReadAddress(msg) == Some(Modulo32(n))
  {
    UnsignedIsRemainder(n[0]);
    UnsignedIsRemainder(n[1]);
    UnsignedIsRemainder(n[2]);
    UnsignedIsRemainder(n[3]);
    UnsignedIsRemainder(n[4]);
    UnsignedIsRemainder(n[5]);
    WrapIsRemainder(Unsigned(n[4]) * 256 + Unsigned(n[5]));
  }

  /**
   Every reply in which six numbers that %d takes, with blanks and signs as it allows, stand behind the first "(" with
   commas between them: the address is these numbers as unsigned 32-bit values, and the port 256 times the fifth plus
   the sixth, modulo 2^32.
   */
  lemma AddressReads(text: seq<byte>, xs: seq<Number>, rest: seq<byte>)
    requires OPEN_PAREN !in text && |xs| == 6
    requires rest != [] ==> !IsDigit(rest[0])
    ensures ReadAddress(text + (SpellAll(xs, OPEN_PAREN) + rest)) == Some(Modulo32(Values(xs)))
  {
    var n := Values(xs);
    SpellAllFirst(xs, OPEN_PAREN, rest);
    FromParenAt(text, SpellAll(xs, OPEN_PAREN) + rest);
    ScanSpelledAll(xs, OPEN_PAREN, rest);
    AddressOf(text + (SpellAll(xs, OPEN_PAREN) + rest), n);
  }

  /** A plain decimal number of a byte's size. */
  function Plain(n: nat): (x: Number)
    requires n < 256
    ensures ValueOf(x) == n
  {
    DecimalOfPrint(n);
    Numeral([], None, Print(n))
  }

  function PrintAll(ns: seq<nat>, first: byte): seq<byte>
    requires forall i :: 0 <= i < |ns| ==> ns[i] < 256
  {
    SpellAll(seq(|ns|, i requires 0 <= i < |ns| => Plain(ns[i])), first)
  }

  lemma ByteAddress(ns: seq<nat>)
    requires |ns| == 6 && forall i :: 0 <= i < 6 ==> ns[i] < 256
    ensures ToAddress(ns) == Address(ns[..4], 256 * ns[4] + ns[5])
  {
    assert forall i :: 0 <= i < 6 ==> Unsigned(ns[i]) == ns[i];
    assert ns[..4] == [ns[0], ns[1], ns[2], ns[3]];
  }

  lemma BytesScanned(ns: seq<nat>, rest: seq<byte>)
    requires (forall i :: 0 <= i < |ns| ==> ns[i] < 256) && (rest != [] ==> !IsDigit(rest[0]))
    ensures ScanNumbers(PrintAll(ns, OPEN_PAREN) + rest, OPEN_PAREN, |ns|) == Some(ns)
  {
    var xs: seq<Number> := seq(|ns|, i requires 0 <= i < |ns| => Plain(ns[i]));
    ScanSpelledAll(xs, OPEN_PAREN, rest);
    assert Values(xs) == ns;
  }

  lemma PrintAllStarts(ns: seq<nat>, rest: seq<byte>)
    requires ns != [] && forall i :: 0 <= i < |ns| ==> ns[i] < 256
    ensures var spec := PrintAll(ns, OPEN_PAREN) + rest;
            spec != [] && spec[0] == OPEN_PAREN
  {
    SpellAllFirst(seq(|ns|, i requires 0 <= i < |ns| => Plain(ns[i])), OPEN_PAREN, rest);
  }

  /**
   The address of section 4.1.2: for every reply that holds "(h1,h2,h3,h4,p1,p2", whatever is before and behind it,
   the channel connects to host h1.h2.h3.h4 and port 256 * p1 + p2; it can be opened if and only if that port is not
   zero.
   */
  lemma AddressRoundTrip(text: seq<byte>, ns: seq<nat>, rest: seq<byte>)
    requires OPEN_PAREN !in text && |ns| == 6 && (forall i :: 0 <= i < 6 ==> ns[i] < 256)
    requires rest != [] ==> !IsDigit(rest[0])
    ensures var msg := text + (PrintAll(ns, OPEN_PAREN) + rest);
            && ReadAddress(msg) == Some(Address(ns[..4], 256 * ns[4] + ns[5]))
            && (HasAddress(msg) <==> ns[4] != 0 || ns[5] != 0)
  {
    PrintAllStarts(ns, rest);
    FromParenAt(text, PrintAll(ns, OPEN_PAREN) + rest);
    BytesScanned(ns, rest);
    ByteAddress(ns);
  }

  /** A number of section 4.1.2 is written with its decimal digits. */
  lemma PrintByte(n: nat)
    requires n < 256
    ensures var hundreds, tens, ones := (n / 100 + 48) as byte, (n / 10 % 10 + 48) as byte, (n % 10 + 48) as byte;
            Print(n) == if n < 10 then [ones] else if n < 100 then [tens, ones] else [hundreds, tens, ones]
  {
    assert n / 10 / 10 == n / 100;
    if n >= 10 {
      assert Print(n) == Print(n / 10) + [(n % 10 + 48) as byte];
    }
    if n >= 100 {
      assert Print(n / 10) == [(n / 100 + 48) as byte] + [(n / 10 % 10 + 48) as byte];
    }
  }

  /** "2(1,2,3,4,5,6". */
  const PASSIVE: seq<byte> := [50] + (PrintAll([1, 2, 3, 4, 5, 6], OPEN_PAREN) + [])

  const PEER := Address([1, 2, 3, 4], 1286)

  lemma PassiveHasAddress()
    ensures PASSIVE != [] && PASSIVE[0] == 50 && ReadAddress(PASSIVE) == Some(PEER)
  {
    AddressRoundTrip([50], [1, 2, 3, 4, 5, 6], []);
    assert [1, 2, 3, 4, 5, 6][..4] == [1, 2, 3, 4];
  }
}
