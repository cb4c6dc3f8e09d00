/** The User document (models/User.js): a unique user name, a password field
    that holds the salted hash, and an access token generated when the
    document is built. */
module UserModel {
  import opened Common

  newtype byte = x: int | 0 <= x < 256

  /** `crypto.randomBytes(128)` */
  const TokenBytes := 128

  datatype User = User(userName: string, password: string, accessToken: string)

  function HexDigit(n: int): (c: char)
    requires 0 <= n < 16
  {
    if n < 10 then (48 + n) as char else (87 + n) as char
  }

  predicate IsHexDigit(c: char) {
    '0' <= c <= '9' || 'a' <= c <= 'f'
  }

  function DigitValue(c: char): (n: int)
    requires IsHexDigit(c)
    ensures 0 <= n < 16
  {
    if c <= '9' then c as int - 48 else c as int - 87
  }

  /** `Buffer.toString("hex")`: two lower-case hex digits per byte, high nibble first. */
  function HexEncode(bs: seq<byte>): (s: string)
    ensures |s| == 2 * |bs|
    ensures forall c :: c in s ==> IsHexDigit(c)
  {
    if bs == [] then []
    else [HexDigit(bs[0] as int / 16), HexDigit(bs[0] as int % 16)] + HexEncode(bs[1..])
  }

  /** The inverse of HexEncode on strings of an even number of hex digits. */
  function HexDecode(s: string): Option<seq<byte>>
    decreases |s|
  {
    if s == [] then Some([])
    else if |s| < 2 || !IsHexDigit(s[0]) || !IsHexDigit(s[1]) then None
    else
      match HexDecode(s[2..])
      case None => None
      case Some(rest) => Some([(DigitValue(s[0]) * 16 + DigitValue(s[1])) as byte] + rest)
  }

  /** Decoding an encoded token gives back the random bytes it came from. */
  lemma {:induction false} HexRoundTrip(bs: seq<byte>)
    ensures HexDecode(HexEncode(bs)) == Some(bs)
  {
    if bs != [] {
      var s := HexEncode(bs);
      assert s[2..] == HexEncode(bs[1..]);
      HexRoundTrip(bs[1..]);
      var b := bs[0] as int;
      assert DigitValue(HexDigit(b / 16)) == b / 16;
      assert DigitValue(HexDigit(b % 16)) == b % 16;
      assert [bs[0]] + bs[1..] == bs;
    }
  }

  /** Distinct random bytes give distinct tokens. */
  lemma TokensInjective(a: seq<byte>, b: seq<byte>)
    requires HexEncode(a) == HexEncode(b)
    ensures a == b
  {
    HexRoundTrip(a);
    HexRoundTrip(b);
  }

  /** `new User({ userName, password })`: the caller supplies no token; it is
      the hex form of 128 random bytes. */
  function NewUser(userName: string, passwordHash: string, random: seq<byte>): (u: User)
    requires |random| == TokenBytes
    ensures u.userName == userName && u.password == passwordHash
    ensures |u.accessToken| == 2 * TokenBytes
    ensures forall c :: c in u.accessToken ==> IsHexDigit(c)
    ensures HexDecode(u.accessToken) == Some(random)
  {
    HexRoundTrip(random);
    User(userName, passwordHash, HexEncode(random))
  }
}
