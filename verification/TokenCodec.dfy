/** auth.py `TokenService`: URL-safe base64 without padding (RFC 4648, sections 3.2 and 5) and signed tokens. */
module TokenCodec {
  import opened Text

  type Byte = b: nat | b < 256

  // ---- The alphabet ----

  function CharOf(v: nat): char
    requires v < 64
  {
    if v < 26 then 'A' + v as char
    else if v < 52 then 'a' + (v - 26) as char
    else if v < 62 then '0' + (v - 52) as char
    else if v == 62 then '-' else '_'
  }

  /** The decoder first maps '-' and '_' to '+' and '/', so it reads either pair. */
  function ValueOf(c: char): Option<nat> {
    if 'A' <= c <= 'Z' then Some((c - 'A') as nat)
    else if 'a' <= c <= 'z' then Some((c - 'a') as nat + 26)
    else if '0' <= c <= '9' then Some((c - '0') as nat + 52)
    else if c == '-' || c == '+' then Some(62)
    else if c == '_' || c == '/' then Some(63)
    else None
  }

  lemma AlphabetRoundTrip(v: nat)
    requires v < 64
    ensures ValueOf(CharOf(v)) == Some(v) && CharOf(v) != '=' && CharOf(v) != '.' && CharOf(v) < 128 as char
  {
    if v < 26 {
      assert (('A' + v as char) - 'A') as nat == v;
    } else if v < 52 {
      assert (('a' + (v - 26) as char) - 'a') as nat == v - 26;
    } else if v < 62 {
      assert (('0' + (v - 52) as char) - '0') as nat == v - 52;
    }
  }

  /** The URL-safe alphabet, table 2 of RFC 4648. */
  lemma AlphabetIsTable2(v: nat)
    ensures v < 26 ==> CharOf(v) == "ABCDEFGHIJKLMNOPQRSTUVWXYZ"[v]
    ensures v < 26 ==> CharOf(26 + v) == "abcdefghijklmnopqrstuvwxyz"[v]
    ensures v < 10 ==> CharOf(52 + v) == "0123456789"[v]
    ensures CharOf(62) == '-' && CharOf(63) == '_'
  {
    assert forall i: nat :: i < 26 ==> "ABCDEFGHIJKLMNOPQRSTUVWXYZ"[i] == 'A' + i as char;
    assert forall i: nat :: i < 26 ==> "abcdefghijklmnopqrstuvwxyz"[i] == 'a' + i as char;
    assert forall i: nat :: i < 10 ==> "0123456789"[i] == '0' + i as char;
  }

  // ---- Three bytes are four sextets ----

  type Sextet = v: nat | v < 64

  function First(x: Byte): Sextet { x / 4 }
  function Second(x: Byte, y: Byte): Sextet { x % 4 * 16 + y / 16 }
  function Third(y: Byte, z: Byte): Sextet { y % 16 * 4 + z / 64 }
  function Fourth(z: Byte): Sextet { z % 64 }

  /** The four sextets are the three bytes read as one number, most significant first. */
  lemma SameNumber(x: Byte, y: Byte, z: Byte)
    ensures First(x) * 262144 + Second(x, y) * 4096 + Third(y, z) * 64 + Fourth(z) == x * 65536 + y * 256 + z
  {
  }

  lemma Regroup(x: Byte, y: Byte, z: Byte)
    ensures First(x) * 4 + Second(x, y) / 16 == x
    ensures Second(x, y) % 16 * 16 + Third(y, z) / 4 == y
    ensures Third(y, z) % 4 * 64 + Fourth(z) == z
  {
    assert Second(x, y) / 16 == x % 4 && Second(x, y) % 16 == y / 16;
    assert Third(y, z) / 4 == y % 16 && Third(y, z) % 4 == z / 64;
  }

  // ---- base64.urlsafe_b64encode, then rstrip("=") ----

  function Encode(v: seq<Byte>): string {
    if |v| == 0 then ""
    else if |v| == 1 then [CharOf(First(v[0])), CharOf(Second(v[0], 0)), '=', '=']
    else if |v| == 2 then [CharOf(First(v[0])), CharOf(Second(v[0], v[1])), CharOf(Third(v[1], 0)), '=']
    else Quantum(v[0], v[1], v[2]) + Encode(v[3..])
  }

  function Quantum(x: Byte, y: Byte, z: Byte): string {
    [CharOf(First(x)), CharOf(Second(x, y)), CharOf(Third(y, z)), CharOf(Fourth(z))]
  }

  function StripPadding(s: string): string {
    if s != "" && s[|s| - 1] == '=' then StripPadding(s[..|s| - 1]) else s
  }

  function B64Bytes(v: seq<Byte>): string { StripPadding(Encode(v)) }

  // ---- base64.urlsafe_b64decode of the text with its padding restored ----

  function Padding(n: nat): string {
    if n % 4 == 0 then "" else if n % 4 == 1 then "===" else if n % 4 == 2 then "==" else "="
  }

  predicate IsAscii(s: string) { forall i :: 0 <= i < |s| ==> s[i] < 128 as char }

  /** The lenient decoder: characters outside the alphabet are skipped; padding ends the data once it
      completes a quantum; a text that stops inside a quantum is an error. */
  function Scan(s: string, quad: nat, left: nat, pads: nat): Option<seq<Byte>>
    requires quad < 4 && left < (if quad == 1 then 64 else if quad == 2 then 16 else if quad == 3 then 4 else 1)
    decreases |s|
  {
    if s == "" then (if quad == 0 then Some([]) else None)
    else if s[0] == '=' then
      if quad >= 2 && quad + pads + 1 >= 4 then Some([]) else Scan(s[1..], quad, left, pads + 1)
    else
      match ValueOf(s[0])
      case None => Scan(s[1..], quad, left, pads)
      case Some(x) =>
        if quad == 0 then Scan(s[1..], 1, x, 0)
        else if quad == 1 then Emit(left * 4 + x / 16, Scan(s[1..], 2, x % 16, 0))
        else if quad == 2 then Emit(left * 16 + x / 4, Scan(s[1..], 3, x % 4, 0))
        else Emit(left * 64 + x, Scan(s[1..], 0, 0, 0))
  }

  function Emit(b: Byte, rest: Option<seq<Byte>>): Option<seq<Byte>> {
    match rest
    case None => None
    case Some(v) => Some([b] + v)
  }

  /** None stands for the ValueError of a malformed text. */
  function Unb64Bytes(s: string): Option<seq<Byte>> {
    if IsAscii(s) then Scan(Padded(s), 0, 0, 0) else None
  }

  // ---- Round trip ----

  /** The encoding without its padding. */
  function Unpadded(v: seq<Byte>): string {
    if |v| == 0 then ""
    else if |v| == 1 then [CharOf(First(v[0])), CharOf(Second(v[0], 0))]
    else if |v| == 2 then [CharOf(First(v[0])), CharOf(Second(v[0], v[1])), CharOf(Third(v[1], 0))]
    else Quantum(v[0], v[1], v[2]) + Unpadded(v[3..])
  }

  predicate InAlphabet(s: string) {
    forall i :: 0 <= i < |s| ==> ValueOf(s[i]).Some? && s[i] != '=' && s[i] != '.' && s[i] < 128 as char
  }

  lemma {:induction false} UnpaddedInAlphabet(v: seq<Byte>)
    ensures InAlphabet(Unpadded(v))
  {
    if |v| >= 3 {
      UnpaddedInAlphabet(v[3..]);
      QuantumInAlphabet(v[0], v[1], v[2]);
    } else if |v| == 2 {
      QuantumInAlphabet(v[0], v[1], 0);
      assert Unpadded(v) == Quantum(v[0], v[1], 0)[..3];
    } else if |v| == 1 {
      QuantumInAlphabet(v[0], 0, 0);
      assert Unpadded(v) == Quantum(v[0], 0, 0)[..2];
    }
  }

  lemma QuantumInAlphabet(x: Byte, y: Byte, z: Byte)
    ensures InAlphabet(Quantum(x, y, z))
  {
    AlphabetRoundTrip(First(x));
    AlphabetRoundTrip(Second(x, y));
    AlphabetRoundTrip(Third(y, z));
    AlphabetRoundTrip(Fourth(z));
  }

  function Padded(s: string): string { s + Padding(|s|) }

  lemma PaddingPeriod(n: nat)
    ensures Padding(n + 4) == Padding(n) && (n + 4) % 4 == n % 4
  {
  }

  lemma PaddedConcat(q: string, rest: string)
    requires |q| == 4
    ensures Padded(q + rest) == q + Padded(rest) && |q + rest| % 4 == |rest| % 4
  {
    PaddingPeriod(|rest|);
  }

  lemma {:induction false} EncodeIsPadded(v: seq<Byte>)
    ensures |Unpadded(v)| % 4 != 1
    ensures Encode(v) == Padded(Unpadded(v))
  {
    if |v| >= 3 {
      EncodeIsPadded(v[3..]);
      PaddedConcat(Quantum(v[0], v[1], v[2]), Unpadded(v[3..]));
    }
  }

  lemma {:induction false} StripsAllPadding(s: string, pads: nat)
    requires InAlphabet(s)
    ensures StripPadding(s + Equals(pads)) == s
    decreases pads
  {
    if pads == 0 {
      assert s + Equals(0) == s;
    } else {
      assert (s + Equals(pads))[..|s| + pads - 1] == s + Equals(pads - 1);
      StripsAllPadding(s, pads - 1);
    }
  }

  function Equals(n: nat): string { seq(n, i => '=') }

  lemma EncodedText(v: seq<Byte>)
    ensures B64Bytes(v) == Unpadded(v) && InAlphabet(B64Bytes(v))
  {
    UnpaddedInAlphabet(v);
    EncodeIsPadded(v);
    var s := Unpadded(v);
    var n := if |s| % 4 == 0 then 0 else 4 - |s| % 4;
    assert Padding(|s|) == Equals(n);
    StripsAllPadding(s, n);
  }

  /** The decoder reads one alphabet character. */
  lemma ScanChar(x: nat, t: string, quad: nat, left: nat)
    requires x < 64 && quad < 4
             && left < (if quad == 1 then 64 else if quad == 2 then 16 else if quad == 3 then 4 else 1)
    ensures Scan([CharOf(x)] + t, quad, left, 0)
         == if quad == 0 then Scan(t, 1, x, 0)
            else if quad == 1 then Emit(left * 4 + x / 16, Scan(t, 2, x % 16, 0))
            else if quad == 2 then Emit(left * 16 + x / 4, Scan(t, 3, x % 4, 0))
            else Emit(left * 64 + x, Scan(t, 0, 0, 0))
  {
    AlphabetRoundTrip(x);
    assert ([CharOf(x)] + t)[1..] == t;
  }

  lemma ScanTwo(a: nat, b: nat, t: string)
    requires a < 64 && b < 64
    ensures Scan([CharOf(a), CharOf(b)] + t, 0, 0, 0) == Emit(a * 4 + b / 16, Scan(t, 2, b % 16, 0))
  {
    ScanChar(a, [CharOf(b)] + t, 0, 0);
    ScanChar(b, t, 1, a);
    assert [CharOf(a), CharOf(b)] + t == [CharOf(a)] + ([CharOf(b)] + t);
  }

  lemma ScanThree(a: nat, b: nat, c: nat, t: string)
    requires a < 64 && b < 64 && c < 64
    ensures Scan([CharOf(a), CharOf(b), CharOf(c)] + t, 0, 0, 0)
         == Emit(a * 4 + b / 16, Emit(b % 16 * 16 + c / 4, Scan(t, 3, c % 4, 0)))
  {
    ScanTwo(a, b, [CharOf(c)] + t);
    ScanChar(c, t, 2, b % 16);
    assert [CharOf(a), CharOf(b), CharOf(c)] + t == [CharOf(a), CharOf(b)] + ([CharOf(c)] + t);
  }

  lemma ScanFour(a: nat, b: nat, c: nat, d: nat, t: string)
    requires a < 64 && b < 64 && c < 64 && d < 64
    ensures Scan([CharOf(a), CharOf(b), CharOf(c), CharOf(d)] + t, 0, 0, 0)
         == Emit(a * 4 + b / 16, Emit(b % 16 * 16 + c / 4, Emit(c % 4 * 64 + d, Scan(t, 0, 0, 0))))
  {
    ScanThree(a, b, c, [CharOf(d)] + t);
    ScanChar(d, t, 3, c % 4);
    assert [CharOf(a), CharOf(b), CharOf(c), CharOf(d)] + t == [CharOf(a), CharOf(b), CharOf(c)] + ([CharOf(d)] + t);
  }

  lemma ScanPadding()
    ensures Scan("==", 2, 0, 0) == Some([]) && Scan("=", 3, 0, 0) == Some([])
  {
    assert "=="[1..] == "=";
  }

  /** Four sextets that make up three bytes are read back as these bytes. */
  lemma ScanSextets(a: nat, b: nat, c: nat, d: nat, x: Byte, y: Byte, z: Byte, t: string)
    requires a < 64 && b < 64 && c < 64 && d < 64
    requires a * 4 + b / 16 == x && b % 16 * 16 + c / 4 == y && c % 4 * 64 + d == z
    ensures Scan([CharOf(a), CharOf(b), CharOf(c), CharOf(d)] + t, 0, 0, 0)
         == Emit(x, Emit(y, Emit(z, Scan(t, 0, 0, 0))))
  {
    ScanFour(a, b, c, d, t);
  }

  lemma ScanQuantum(x: Byte, y: Byte, z: Byte, t: string)
    ensures Scan(Quantum(x, y, z) + t, 0, 0, 0) == Emit(x, Emit(y, Emit(z, Scan(t, 0, 0, 0))))
  {
    Regroup(x, y, z);
    ScanSextets(First(x), Second(x, y), Third(y, z), Fourth(z), x, y, z, t);
  }

  lemma ScanLastOne(x: Byte)
    ensures Scan([CharOf(First(x)), CharOf(Second(x, 0))] + "==", 0, 0, 0) == Some([x])
  {
    ScanTwo(First(x), Second(x, 0), "==");
    Regroup(x, 0, 0);
    ScanPadding();
    assert [x] + [] == [x];
  }

  lemma ScanLastTwo(x: Byte, y: Byte)
    ensures Scan([CharOf(First(x)), CharOf(Second(x, y)), CharOf(Third(y, 0))] + "=", 0, 0, 0) == Some([x, y])
  {
    ScanThree(First(x), Second(x, y), Third(y, 0), "=");
    Regroup(x, y, 0);
    ScanPadding();
    assert [x] + ([y] + []) == [x, y];
  }

  lemma ScanLonger(x: Byte, y: Byte, z: Byte, text: string, rest: seq<Byte>)
    requires Scan(Padded(text), 0, 0, 0) == Some(rest)
    ensures Scan(Padded(Quantum(x, y, z) + text), 0, 0, 0) == Some([x, y, z] + rest)
  {
    PaddedConcat(Quantum(x, y, z), text);
    ScanQuantum(x, y, z, Padded(text));
    assert [x] + ([y] + ([z] + rest)) == [x, y, z] + rest;
  }

  lemma ScanOne(x: Byte)
    ensures Scan(Padded(Unpadded([x])), 0, 0, 0) == Some([x])
  {
    assert Padded(Unpadded([x])) == [CharOf(First(x)), CharOf(Second(x, 0))] + "==";
    ScanLastOne(x);
  }

  lemma ScanPair(x: Byte, y: Byte)
    ensures Scan(Padded(Unpadded([x, y])), 0, 0, 0) == Some([x, y])
  {
    assert Padded(Unpadded([x, y])) == [CharOf(First(x)), CharOf(Second(x, y)), CharOf(Third(y, 0))] + "=";
    ScanLastTwo(x, y);
  }

  lemma {:induction false} ScanRoundTrip(v: seq<Byte>)
    ensures Scan(Padded(Unpadded(v)), 0, 0, 0) == Some(v)
  {
    if |v| == 0 {
    } else if |v| == 1 {
      assert v == [v[0]];
      ScanOne(v[0]);
    } else if |v| == 2 {
      assert v == [v[0], v[1]];
      ScanPair(v[0], v[1]);
    } else {
      ScanRoundTrip(v[3..]);
      ScanLonger(v[0], v[1], v[2], Unpadded(v[3..]), v[3..]);
      assert v == [v[0], v[1], v[2]] + v[3..];
    }
  }

  /** The test vectors of section 10 of RFC 4648, without their padding. */
  lemma TestVectors()
    ensures B64Bytes([]) == "" && B64Bytes([102]) == "Zg" && B64Bytes([102, 111]) == "Zm8"
    ensures B64Bytes([102, 111, 111]) == "Zm9v" && B64Bytes([102, 111, 111, 98]) == "Zm9vYg"
  {
    EncodedText([]);
    EncodedText([102]);
    EncodedText([102, 111]);
    EncodedText([102, 111, 111]);
    EncodedText([102, 111, 111, 98]);
    assert CharOf(25) == 'Z' && CharOf(32) == 'g' && CharOf(38) == 'm' && CharOf(60) == '8';
    assert CharOf(61) == '9' && CharOf(47) == 'v' && CharOf(24) == 'Y';
    assert [102, 111, 111, 98][3..] == [98];
  }

  /** A character outside the alphabet, padding aside, is skipped wherever it stands. */
  lemma {:induction false} GarbageIsSkipped(a: string, g: char, b: string, quad: nat, left: nat, pads: nat)
    requires quad < 4
             && left < (if quad == 1 then 64 else if quad == 2 then 16 else if quad == 3 then 4 else 1)
    requires ValueOf(g) == None && g != '='
    ensures Scan(a + [g] + b, quad, left, pads) == Scan(a + b, quad, left, pads)
    decreases |a|
  {
    if a == "" {
      assert (a + [g] + b)[0] == g && (a + [g] + b)[1..] == b && a + b == b;
    } else {
      assert (a + [g] + b)[1..] == a[1..] + [g] + b && (a + b)[1..] == a[1..] + b;
      assert (a + [g] + b)[0] == a[0] == (a + b)[0];
      if a[0] == '=' {
        if !(quad >= 2 && quad + pads + 1 >= 4) {
          GarbageIsSkipped(a[1..], g, b, quad, left, pads + 1);
        }
      } else if ValueOf(a[0]) == None {
        GarbageIsSkipped(a[1..], g, b, quad, left, pads);
      } else {
        var x := ValueOf(a[0]).value;
        GarbageIsSkipped(a[1..], g, b, (quad + 1) % 4,
                         if quad == 0 then x else if quad == 1 then x % 16 else if quad == 2 then x % 4 else 0, 0);
      }
    }
  }

  /** Padding ends the data once it completes a group of four: two signs after two characters, one after three. A sign
      that comes too early is forgotten as soon as the next character follows. */
  lemma PaddingEnds(s: string, left: nat, c: char, quad: nat)
    requires left < 4 && quad <= 2 && (quad == 0 ==> left == 0) && ValueOf(c).Some? && c != '='
    ensures Scan("==" + s, 2, left, 0) == Some([]) && Scan("=" + s, 3, left, 0) == Some([])
    ensures Scan("=" + ([c] + s), quad, left, 0) == Scan([c] + s, quad, left, 0)
  {
    var one, two, three := [c] + s, "=" + s, "==" + s;
    assert one[0] == c && one[1..] == s && two[1..] == s && three[1..] == two;
    assert ("=" + one)[1..] == one;
  }

  /** A text with a character beyond ASCII is refused, any other is scanned with its padding restored. */
  lemma OnlyAscii(s: string)
    ensures (exists i :: 0 <= i < |s| && s[i] as int >= 128) ==> Unb64Bytes(s) == None
    ensures (forall i :: 0 <= i < |s| ==> s[i] as int < 128) ==> Unb64Bytes(s) == Scan(s + Padding(|s|), 0, 0, 0)
  {
  }

  /** Every byte string survives encoding, dropping the padding, restoring it from the length, and decoding. */
  lemma Base64RoundTrip(v: seq<Byte>)
    ensures Unb64Bytes(B64Bytes(v)) == Some(v)
    ensures '.' !in B64Bytes(v) && '=' !in B64Bytes(v) && |B64Bytes(v)| % 4 != 1
  {
    EncodedText(v);
    EncodeIsPadded(v);
    ScanRoundTrip(v);
  }

  // ---- Signed tokens ----

  /** A value read from JSON; numbers with a fraction stay apart from whole ones. */
  datatype Json =
    | Null
    | Truth(truth: bool)
    | Whole(whole: int)
    | Fraction(fraction: real)
    | Str(text: string)
    | Items(items: seq<Json>)
    | Object(fields: Claims)

  type Claims = map<string, Json>

  /**
   * JSON and the keyed hash are foreign code, and so are `str(..)` of a value that is no string and `int(..)` of one
   * that is no whole number.
   */
  datatype Codec = Codec(
    toJson: Claims -> seq<Byte>,
    fromJson: seq<Byte> -> Option<Json>,
    mac: string -> seq<Byte>,
    strOf: Json -> string,
    intOf: Json -> Option<int>)

  /** What the model assumes of JSON: these claims, and no others, are read back as they were written. */
  predicate JsonRoundTrips(c: Codec, p: Claims) { c.fromJson(c.toJson(p)) == Some(Object(p)) }

  /** `Uncaught` stands for an exception that is none of the service's own. */
  datatype TokenError = Malformed | BadSignature | Expired | WrongType | Uncaught

  function StrOf(c: Codec, v: Json): string { if v.Str? then v.text else c.strOf(v) }

  function IntOf(c: Codec, v: Json): Option<int> { if v.Whole? then Some(v.whole) else c.intOf(v) }

  /** The expiry; a token without one reads as 0. */
  function ExpiryOf(c: Codec, p: Claims): Option<int> { if "exp" in p then IntOf(c, p["exp"]) else Some(0) }

  /** A list claim; a missing one, or one that is no list, reads as empty. */
  function ListOf(c: Codec, p: Claims, name: string): seq<string> {
    if name !in p || !p[name].Items? then []
    else
      var items := p[name].items;
      seq(|items|, i requires 0 <= i < |items| => StrOf(c, items[i]))
  }

  function EncodeToken(c: Codec, p: Claims): string {
    var body := B64Bytes(c.toJson(p));
    body + "." + B64Bytes(c.mac(body))
  }

  /** The position of the first '.', or the length when there is none. */
  function FirstDot(s: string): (i: nat)
    ensures i <= |s| && '.' !in s[..i] && (i < |s| ==> s[i] == '.')
  {
    if s == "" || s[0] == '.' then 0
    else
      var i := FirstDot(s[1..]);
      assert s[..i + 1] == [s[0]] + s[1..][..i];
      i + 1
  }

  /** `int(timestamp)` truncates towards zero. */
  function Truncate(t: real): int { if t >= 0.0 then t.Floor else -((-t).Floor) }

  lemma TruncateMeans(t: real)
    ensures t >= 0.0 ==> Truncate(t) as real <= t < Truncate(t) as real + 1.0
    ensures t < 0.0 ==> Truncate(t) as real - 1.0 < t <= Truncate(t) as real
  {
    assert (-t).Floor as real <= -t < (-t).Floor as real + 1.0;
  }

  function Unlapsed(c: Codec, p: Claims, now: real): Result<Claims, TokenError> {
    match ExpiryOf(c, p)
    case None => Err(Malformed)
    case Some(exp) => if exp <= Truncate(now) then Err(Expired) else Ok(p)
  }

  function DecodeToken(c: Codec, token: string, now: real): Result<Claims, TokenError> {
    var dot := FirstDot(token);
    if dot == |token| then Err(Malformed)
    else
      var body, signature := token[..dot], token[dot + 1..];
      if !IsAscii(body) then Err(Malformed)
      else
        match Unb64Bytes(signature)
        case None => Err(Malformed)
        case Some(actual) =>
          if actual != c.mac(body) then Err(BadSignature)
          else
            match Unb64Bytes(body)
            case None => Err(Malformed)
            case Some(json) =>
              match c.fromJson(json)
              case None => Err(Malformed)
              case Some(Object(p)) => Unlapsed(c, p, now)
              case Some(_) => Err(Uncaught)
  }

  lemma {:induction false} DotAfterBody(body: string, signature: string)
    requires '.' !in body
    ensures FirstDot(body + "." + signature) == |body|
  {
    var token := body + "." + signature;
    if body == "" {
    } else {
      assert body[0] in body && body == [body[0]] + body[1..];
      assert token[1..] == body[1..] + "." + signature;
      DotAfterBody(body[1..], signature);
    }
  }

  /**
   * A signed token decodes to exactly its claims until it expires, and is expired from then on; claims without an
   * expiry are expired, and claims whose expiry is no number are refused.
   */
  lemma TokenRoundTrip(c: Codec, p: Claims, now: real)
    requires JsonRoundTrips(c, p)
    ensures "exp" in p && p["exp"].Whole? ==>
              DecodeToken(c, EncodeToken(c, p), now) == if p["exp"].whole <= Truncate(now) then Err(Expired) else Ok(p)
    ensures "exp" in p && !p["exp"].Whole? ==>
              DecodeToken(c, EncodeToken(c, p), now)
              == match c.intOf(p["exp"])
                 case None => Err(Malformed)
                 case Some(exp) => if exp <= Truncate(now) then Err(Expired) else Ok(p)
    ensures "exp" !in p ==> DecodeToken(c, EncodeToken(c, p), now) == if now > -1.0 then Err(Expired) else Ok(p)
  {
    var body := B64Bytes(c.toJson(p));
    var signature := B64Bytes(c.mac(body));
    Base64RoundTrip(c.toJson(p));
    Base64RoundTrip(c.mac(body));
    EncodedText(c.toJson(p));
    DotAfterBody(body, signature);
    var token := EncodeToken(c, p);
    TruncateMeans(now);
    assert token[..|body|] == body && token[|body| + 1..] == signature;
  }

  /** `token` is `body.signature`, the signature is the keyed hash of the body, and the body is `p`, unexpired. */
  ghost predicate SignedAs(c: Codec, token: string, body: string, signature: string, p: Claims, now: real) {
    && token == body + "." + signature && '.' !in body && IsAscii(body)
    && Unb64Bytes(signature) == Some(c.mac(body))
    && Unb64Bytes(body).Some? && c.fromJson(Unb64Bytes(body).value) == Some(Object(p))
    && ExpiryOf(c, p).Some? && ExpiryOf(c, p).value > Truncate(now)
  }

  lemma SignedIsAccepted(c: Codec, token: string, body: string, signature: string, p: Claims, now: real)
    requires SignedAs(c, token, body, signature, p, now)
    ensures DecodeToken(c, token, now) == Ok(p)
  {
    DotAfterBody(body, signature);
    assert token[..|body|] == body && token[|body| + 1..] == signature;
  }

  lemma AcceptedWasSigned(c: Codec, token: string, p: Claims, now: real) returns (body: string, signature: string)
    requires DecodeToken(c, token, now) == Ok(p)
    ensures SignedAs(c, token, body, signature, p, now)
  {
    var dot := FirstDot(token);
    body, signature := token[..dot], token[dot + 1..];
    assert token == body + "." + signature;
  }

  /** A token is accepted as `p` exactly when it was signed as `p` and has not expired. */
  lemma AcceptedIffSigned(c: Codec, token: string, p: Claims, now: real)
    ensures DecodeToken(c, token, now) == Ok(p) <==>
              exists body, signature :: SignedAs(c, token, body, signature, p, now)
  {
    if DecodeToken(c, token, now) == Ok(p) {
      var body, signature := AcceptedWasSigned(c, token, p, now);
    }
    if body, signature :| SignedAs(c, token, body, signature, p, now) {
      SignedIsAccepted(c, token, body, signature, p, now);
    }
  }

  // ---- Access tokens ----

  datatype AuthContext = AuthContext(
    userId: string,
    orgId: string,
    roles: seq<string>,
    permissions: seq<string>,
    traceId: string,
    tokenVersion: int)

  function Texts(texts: seq<string>): Json { Items(seq(|texts|, i requires 0 <= i < |texts| => Str(texts[i]))) }

  function AccessClaims(ctx: AuthContext, issuedAt: real, ttl: int): Claims {
    map["typ" := Str("access"),
        "sub" := Str(ctx.userId),
        "org" := Str(ctx.orgId),
        "roles" := Texts(ctx.roles),
        "permissions" := Texts(ctx.permissions),
        "ver" := Whole(ctx.tokenVersion),
        "iat" := Whole(Truncate(issuedAt)),
        "exp" := Whole(Truncate(issuedAt + ttl as real))]
  }

  function IssueAccessToken(c: Codec, ctx: AuthContext, issuedAt: real, ttl: int): string {
    EncodeToken(c, AccessClaims(ctx, issuedAt, ttl))
  }

  /** A missing user or organisation, or a version that is no number, escapes as an exception of its own. */
  function ContextFrom(c: Codec, p: Claims, traceId: string): Result<AuthContext, TokenError> {
    if "typ" !in p || p["typ"] != Str("access") then Err(WrongType)
    else if "sub" !in p || "org" !in p then Err(Uncaught)
    else
      match if "ver" in p then IntOf(c, p["ver"]) else Some(1)
      case None => Err(Uncaught)
      case Some(ver) =>
        Ok(AuthContext(StrOf(c, p["sub"]), StrOf(c, p["org"]), ListOf(c, p, "roles"), ListOf(c, p, "permissions"),
                       traceId, ver))
  }

  /** Exactly which claims make an access token, and how they are read: the version defaults to 1 and the two lists to
      nothing. */
  lemma ContextMeans(c: Codec, p: Claims, traceId: string, texts: seq<string>)
    ensures ContextFrom(c, p, traceId).Ok? <==>
              && "typ" in p && p["typ"] == Str("access") && "sub" in p && "org" in p
              && ("ver" in p ==> p["ver"].Whole? || c.intOf(p["ver"]).Some?)
    ensures !("typ" in p && p["typ"] == Str("access")) ==> ContextFrom(c, p, traceId) == Err(WrongType)
    ensures ContextFrom(c, p, traceId).Ok? ==>
              var ctx := ContextFrom(c, p, traceId).value;
              && (p["sub"].Str? ==> ctx.userId == p["sub"].text) && (p["org"].Str? ==> ctx.orgId == p["org"].text)
              && ("ver" !in p ==> ctx.tokenVersion == 1)
              && ("ver" in p && p["ver"].Whole? ==> ctx.tokenVersion == p["ver"].whole)
              && ("roles" in p && p["roles"] == Texts(texts) ==> ctx.roles == texts)
              && ("roles" !in p || !p["roles"].Items? ==> ctx.roles == [])
              && ("permissions" in p && p["permissions"] == Texts(texts) ==> ctx.permissions == texts)
              && ("permissions" !in p || !p["permissions"].Items? ==> ctx.permissions == [])
              && ctx.traceId == traceId
  {
    if "roles" in p && p["roles"] == Texts(texts) {
      assert ListOf(c, p, "roles") == texts;
    }
    if "permissions" in p && p["permissions"] == Texts(texts) {
      assert ListOf(c, p, "permissions") == texts;
    }
  }

  function DecodeAccessToken(c: Codec, token: string, traceId: string, now: real): Result<AuthContext, TokenError> {
    match DecodeToken(c, token, now)
    case Err(e) => Err(e)
    case Ok(p) => ContextFrom(c, p, traceId)
  }

  predicate Unexpired(issuedAt: real, ttl: int, now: real) { Truncate(now) < Truncate(issuedAt + ttl as real) }

  lemma ClaimsGiveContext(c: Codec, ctx: AuthContext, issuedAt: real, ttl: int, traceId: string)
    ensures ContextFrom(c, AccessClaims(ctx, issuedAt, ttl), traceId) == Ok(ctx.(traceId := traceId))
    ensures var p := AccessClaims(ctx, issuedAt, ttl);
            p["iat"] == Whole(Truncate(issuedAt)) && p["exp"] == Whole(Truncate(issuedAt + ttl as real))
  {
    var p := AccessClaims(ctx, issuedAt, ttl);
    assert ListOf(c, p, "roles") == ctx.roles;
    assert ListOf(c, p, "permissions") == ctx.permissions;
  }

  /** An issued access token gives back user, organisation, roles, permissions and version exactly while unexpired. */
  lemma AccessTokenRoundTrip(c: Codec, ctx: AuthContext, issuedAt: real, ttl: int, traceId: string, now: real)
    requires JsonRoundTrips(c, AccessClaims(ctx, issuedAt, ttl))
    ensures DecodeAccessToken(c, IssueAccessToken(c, ctx, issuedAt, ttl), traceId, now)
         == if Unexpired(issuedAt, ttl, now) then Ok(ctx.(traceId := traceId)) else Err(Expired)
  {
    TokenRoundTrip(c, AccessClaims(ctx, issuedAt, ttl), now);
    ClaimsGiveContext(c, ctx, issuedAt, ttl, traceId);
  }
}
