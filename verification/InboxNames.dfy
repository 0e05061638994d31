/**
 * The names of the inbound folder: how a published file is named, and which names a sweep
 * takes for one of Casa's own.
 */
module InboxNames {
  import opened Prelude

  /** The code points of the zeros of Unicode 14's 66 runs of decimal digits, all of which `\d`
      matches and `int` reads. */
  const ZEROS: seq<int> := [0x0030] + ([0x0660] + FURTHER_ZEROS)

  const FURTHER_ZEROS: seq<int> := LOWER_ZEROS + HIGHER_ZEROS

  const LOWER_ZEROS: seq<int> := [
    0x06f0, 0x07c0, 0x0966, 0x09e6, 0x0a66, 0x0ae6, 0x0b66, 0x0be6, 0x0c66, 0x0ce6, 0x0d66, 0x0de6, 0x0e50,
    0x0ed0, 0x0f20, 0x1040, 0x1090, 0x17e0, 0x1810, 0x1946, 0x19d0, 0x1a80, 0x1a90, 0x1b50, 0x1bb0, 0x1c40,
    0x1c50, 0xa620, 0xa8d0, 0xa900, 0xa9d0, 0xa9f0]

  const HIGHER_ZEROS: seq<int> := [
    0xaa50, 0xabf0, 0xff10, 0x104a0, 0x10d30, 0x11066, 0x110f0, 0x11136, 0x111d0, 0x112f0, 0x11450,
    0x114d0, 0x11650, 0x116c0, 0x11730, 0x118e0, 0x11950, 0x11c50, 0x11d50, 0x11da0, 0x16a60, 0x16ac0,
    0x16b50, 0x1d7ce, 0x1d7d8, 0x1d7e2, 0x1d7ec, 0x1d7f6, 0x1e140, 0x1e2f0, 0x1e950, 0x1fbf0]

  const STAMP_DIGITS := 13
  const TOKEN_DIGITS := 16

  /** The keys of the content policies. */
  const ALLOWED: set<string> := {".pdf", ".png", ".jpg", ".jpeg", ".txt", ".md", ".csv"}

  predicate Allowed(ext: string) { ext in ALLOWED }

  function DigitIn(zeros: seq<int>, c: char): (v: Option<nat>)
    ensures v.Some? ==> v.value <= 9
  {
    if zeros == [] then None
    else if zeros[0] <= c as int <= zeros[0] + 9 then Some(c as int - zeros[0])
    else DigitIn(zeros[1..], c)
  }

  function Digit(c: char): Option<nat> { DigitIn(ZEROS, c) }

  predicate AsciiDigit(c: char) { '0' <= c <= '9' }

  function DigitChar(n: nat): char
    requires n <= 9
  {
    '0' + n as char
  }

  function Pow10(w: nat): (p: nat)
    ensures p >= 1
  {
    if w == 0 then 1 else 10 * Pow10(w - 1)
  }

  /** `n` in decimal, padded with zeros to `w` digits; wider numbers are written in full. */
  function Padded(n: nat, w: nat): string {
    if n == 0 && w == 0 then "" else Padded(n / 10, if w > 0 then w - 1 else 0) + [DigitChar(n % 10)]
  }

  /** What `int` makes of a run of decimal digits. */
  function Value(d: string): Option<nat> {
    if d == "" then Some(0)
    else
      var front, last := Value(d[..|d| - 1]), Digit(d[|d| - 1]);
      if front.Some? && last.Some? then Some(10 * front.value + last.value) else None
  }

  predicate AllAscii(d: string) { forall i :: 0 <= i < |d| ==> AsciiDigit(d[i]) }

  predicate Hex(s: string) {
    forall i :: 0 <= i < |s| ==> AsciiDigit(s[i]) || 'a' <= s[i] <= 'f'
  }

  predicate DotWord(s: string) {
    3 <= |s| <= 5 && s[0] == '.' && forall i :: 1 <= i < |s| ==> 'a' <= s[i] <= 'z'
  }

  predicate Token(s: string) { |s| == TOKEN_DIGITS && Hex(s) }

  function NewName(ms: nat, token: string, ext: string): string {
    Padded(ms, STAMP_DIGITS) + "-" + token + ext
  }

  datatype Parsed = Parsed(ms: nat, ext: string)

  /** `$` also matches before one final line feed. */
  function Core(name: string): string {
    if name != "" && name[|name| - 1] == '\n' then name[..|name| - 1] else name
  }

  function Match(core: string): Option<Parsed> {
    if |core| < STAMP_DIGITS + 1 + TOKEN_DIGITS then None
    else
      var stamp := Value(core[..STAMP_DIGITS]);
      var token := core[STAMP_DIGITS + 1..STAMP_DIGITS + 1 + TOKEN_DIGITS];
      var ext := core[STAMP_DIGITS + 1 + TOKEN_DIGITS..];
      if stamp.Some? && core[STAMP_DIGITS] == '-' && Hex(token) && DotWord(ext)
      then Some(Parsed(stamp.value, ext)) else None
  }

  /** The name pattern of the folder. */
  function Parse(name: string): Option<Parsed> { Match(Core(name)) }

  predicate CasaName(name: string) {
    Parse(name).Some? && Allowed(Parse(name).value.ext)
  }

  // ---- the stamp ----------------------------------------------------------

  lemma DigitOfAscii(c: char)
    requires AsciiDigit(c)
    ensures Digit(c) == Some((c - '0') as int) && DigitChar((c - '0') as int) == c
  {
    assert ZEROS[0] == 0x30;
  }

  lemma SecondZero(a: int, b: int, rest: seq<int>, c: char)
    requires c as int == b && !(a <= b <= a + 9)
    ensures DigitIn([a] + ([b] + rest), c) == Some(0)
  {
    assert ([a] + ([b] + rest))[1..] == [b] + rest;
  }

  lemma ArabicZero()
    ensures Digit('\U{0660}') == Some(0)
  {
    SecondZero(0x0030, 0x0660, FURTHER_ZEROS, '\U{0660}');
  }

  lemma {:induction false} PaddedLength(n: nat, w: nat)
    ensures |Padded(n, w)| >= w && (|Padded(n, w)| == w <==> n < Pow10(w))
  {
    if n == 0 && w == 0 {
    } else if w > 0 {
      PaddedLength(n / 10, w - 1);
    } else {
      PaddedLength(n / 10, 0);
    }
  }

  lemma {:induction false} PaddedReadsBack(n: nat, w: nat)
    ensures Value(Padded(n, w)) == Some(n)
  {
    if n == 0 && w == 0 {
    } else {
      var front := Padded(n / 10, if w > 0 then w - 1 else 0);
      PaddedReadsBack(n / 10, if w > 0 then w - 1 else 0);
      assert Padded(n, w)[..|front|] == front;
      DigitOfAscii(DigitChar(n % 10));
    }
  }

  lemma DigitsDiv(v: nat, x: nat)
    requires x <= 9
    ensures (10 * v + x) / 10 == v && (10 * v + x) % 10 == x
  {
  }

  lemma {:induction false} ReadsAndPads(d: string)
    requires AllAscii(d)
    ensures Value(d).Some? && Value(d).value < Pow10(|d|) && Padded(Value(d).value, |d|) == d
  {
    if d != "" {
      var front, c := d[..|d| - 1], d[|d| - 1];
      ReadsAndPads(front);
      DigitOfAscii(c);
      DigitsDiv(Value(front).value, (c - '0') as int);
      hide Digit, AllAscii;
      assert d == front + [c];
    }
  }

  lemma StampFits(ms: nat)
    ensures |Padded(ms, STAMP_DIGITS)| == STAMP_DIGITS <==> ms < 10_000_000_000_000
    ensures |Padded(ms, STAMP_DIGITS)| >= STAMP_DIGITS
  {
    PaddedLength(ms, STAMP_DIGITS);
    Pow10Is();
  }

  lemma Pow10Is()
    ensures Pow10(13) == 10_000_000_000_000
  {
    assert Pow10(4) == 10_000;
    assert Pow10(8) == 100_000_000;
    assert Pow10(12) == 1_000_000_000_000;
  }

  // ---- the names ----------------------------------------------------------

  lemma AllowedShape(ext: string)
    requires Allowed(ext)
    ensures DotWord(ext)
  {
  }

  lemma Cut(stamp: string, token: string, ext: string)
    requires |stamp| == STAMP_DIGITS && |token| == TOKEN_DIGITS
    ensures var n := stamp + "-" + token + ext;
      && n[..STAMP_DIGITS] == stamp && n[STAMP_DIGITS] == '-'
      && n[STAMP_DIGITS + 1..STAMP_DIGITS + 1 + TOKEN_DIGITS] == token
      && n[STAMP_DIGITS + 1 + TOKEN_DIGITS..] == ext
  {
  }

  lemma PaddedDigits(n: nat, w: nat)
    ensures AllAscii(Padded(n, w))
  {
  }

  /** A token is sixteen hexadecimal digits in small letters. */
  lemma TokenIs(token: string)
    ensures Token(token) <==> |token| == 16 && forall i :: 0 <= i < |token| ==> token[i] in "0123456789abcdef"
  {
    forall c: char ensures AsciiDigit(c) || 'a' <= c <= 'f' <==> c in "0123456789abcdef" {
      HexDigitIs(c);
    }
  }

  lemma HexDigitIs(c: char)
    ensures AsciiDigit(c) || 'a' <= c <= 'f' <==> c in "0123456789abcdef"
  {
    if '0' <= c <= '9' {
      assert "0123456789abcdef"[(c - '0') as int] == c;
    } else if 'a' <= c <= 'f' {
      assert "0123456789abcdef"[10 + (c - 'a') as int] == c;
    }
  }

  /** A minted name reads back as its stamp and extension exactly while the stamp has 13 digits:
      from the year 2286 a sweep would take Casa's own files for foreign ones. */
  lemma MintedNameParses(ms: nat, token: string, ext: string)
    requires Token(token) && Allowed(ext)
    ensures Parse(NewName(ms, token, ext)) ==
      if ms < 10_000_000_000_000 then Some(Parsed(ms, ext)) else None
  {
    var stamp, name := Padded(ms, STAMP_DIGITS), NewName(ms, token, ext);
    StampFits(ms);
    AllowedShape(ext);
    assert name[|name| - 1] == ext[|ext| - 1];
    if |stamp| == STAMP_DIGITS {
      PaddedReadsBack(ms, STAMP_DIGITS);
      Cut(stamp, token, ext);
    } else {
      PaddedDigits(ms, STAMP_DIGITS);
      assert name[STAMP_DIGITS] == stamp[STAMP_DIGITS];
    }
  }

  /** Conversely a name the folder accepts whose stamp is written in ASCII digits is one that could
      have been minted, give or take a final line feed. */
  lemma AcceptedNameWasMintable(name: string)
    requires CasaName(name) && AllAscii(Core(name)[..STAMP_DIGITS])
    ensures Parse(name).value.ms < 10_000_000_000_000
    ensures exists token ::
      Token(token) && Core(name) == NewName(Parse(name).value.ms, token, Parse(name).value.ext)
  {
    var core := Core(name);
    var stamp, ext := core[..STAMP_DIGITS], core[STAMP_DIGITS + 1 + TOKEN_DIGITS..];
    var token := core[STAMP_DIGITS + 1..STAMP_DIGITS + 1 + TOKEN_DIGITS];
    ReadsAndPads(stamp);
    Pow10Is();
    hide Value, AllAscii, Hex, Padded, Pow10;
    assert core == stamp + "-" + token + ext;
    assert Token(token);
  }

  /** The first way a name Casa never mints is still taken for its own: a final line feed. */
  lemma LineFeedIsIgnored(ms: nat, token: string, ext: string)
    requires Token(token) && Allowed(ext) && ms < 10_000_000_000_000
    ensures CasaName(NewName(ms, token, ext) + "\n")
  {
    MintedNameParses(ms, token, ext);
    var name := NewName(ms, token, ext);
    AllowedShape(ext);
    assert name[|name| - 1] == ext[|ext| - 1];
    assert (name + "\n")[..|name|] == name;
  }

  /** The second: a stamp that begins with a zero of another script. */
  lemma OtherDigitsAreRead(token: string)
    requires Token(token)
    ensures exists name :: CasaName(name) && name != "" && name[0] == '\U{0660}'
  {
    StampFits(0);
    PaddedReadsBack(0, STAMP_DIGITS);
    ArabicZero();
    var stamp := Padded(0, STAMP_DIGITS);
    var arabic := ['\U{0660}'] + stamp[1..];
    LeadingZeroIsAnyZero(stamp, '\U{0660}');
    Cut(arabic, token, ".md");
    AllowedShape(".md");
    hide Value, Padded, Digit;
    var other := arabic + "-" + token + ".md";
    assert other[|other| - 1] == 'd';
    assert other[0] == arabic[0];
    assert Match(other) == Some(Parsed(0, ".md"));
  }

  lemma {:induction false} LeadingZeroIsAnyZero(d: string, z: char)
    requires d != "" && Value(d) == Some(0) && Digit(z) == Some(0)
    ensures Value([z] + d[1..]) == Some(0)
    decreases |d|
  {
    hide Digit;
    var e := [z] + d[1..];
    if |d| == 1 {
      assert e == [z] && e[..0] == "";
    } else {
      assert e[..|e| - 1] == [z] + d[..|d| - 1][1..];
      LeadingZeroIsAnyZero(d[..|d| - 1], z);
    }
  }
}
