// The users of the system (User): a name that can change, a fixed email, and
// the password kept as the lowercase hexadecimal text of its SHA-256 digest.
// The digest itself is library code, so each user is given the digest
// function; the hex encoding and the comparison are modelled.

module Users {
  import opened Text

  newtype byte = x: int | 0 <= x < 256

  /** The lowercase hex digit of a value below 16. */
  function HexDigit(d: nat): (c: char)
    requires d < 16
    ensures c in "0123456789abcdef"
  {
    if d < 10 then ('0' as int + d) as char else ('a' as int + d - 10) as char
  }

  /**
   * Integer.toHexString(b & 0xff), preceded by a "0" when it has only one
   * digit: always two lowercase digits, the high one first.
   */
  function HexByte(b: byte): (s: string)
    ensures |s| == 2 && s[0] == HexDigit((b / 16) as nat) && s[1] == HexDigit((b % 16) as nat)
  {
    var t := if b < 16 then [HexDigit(b as nat)] else [HexDigit((b / 16) as nat), HexDigit((b % 16) as nat)];
    (if |t| == 1 then "0" else "") + t
  }

  /** The text the encoder builds: the bytes' digit pairs, in order. */
  function Hex(bytes: seq<byte>): (s: string)
    ensures |s| == 2 * |bytes|
  {
    if bytes == [] then "" else Hex(bytes[..|bytes| - 1]) + HexByte(bytes[|bytes| - 1])
  }

  /** The loop of getSHA256 that turns the digest into text. */
  method HexEncode(bytes: seq<byte>) returns (s: string)
    ensures s == Hex(bytes)
  {
    s := "";
    var i := 0;
    while i < |bytes|
      invariant 0 <= i <= |bytes|
      invariant s == Hex(bytes[..i])
    {
      assert bytes[..i + 1][..i] == bytes[..i];
      s := s + HexByte(bytes[i]);
      i := i + 1;
    }
    assert bytes[..i] == bytes;
  }

  /** The value of a lowercase hex digit. */
  function HexValue(c: char): (v: nat)
    ensures v < 16
  {
    if '0' <= c <= '9' then (c - '0') as nat
    else if 'a' <= c <= 'f' then (c - 'a') as nat + 10
    else 0
  }

  /** The byte a pair of hex digits denotes. */
  function PairValue(hi: char, lo: char): byte
  {
    (HexValue(hi) * 16 + HexValue(lo)) as byte
  }

  /** Reads the digit pairs back (a stray last digit is ignored). */
  function Unhex(s: string): seq<byte>
  {
    if |s| < 2 then [] else Unhex(s[..|s| - 2]) + [PairValue(s[|s| - 2], s[|s| - 1])]
  }

  /** One byte's pair of digits reads back as the byte. */
  lemma HexByteBack(b: byte)
    ensures PairValue(HexByte(b)[0], HexByte(b)[1]) == b
  {
    var hi, lo := (b as int) / 16, (b as int) % 16;
    assert HexValue(HexDigit(hi)) == hi;
    assert HexValue(HexDigit(lo)) == lo;
  }

  lemma UnhexSnoc(t: string, pair: string)
    requires |pair| == 2
    ensures Unhex(t + pair) == Unhex(t) + [PairValue(pair[0], pair[1])]
  {
    var s := t + pair;
    assert s[..|s| - 2] == t;
  }

  /** The encoding loses nothing: the digest can be read back from the text. */
  lemma {:induction false} HexRoundTrip(bytes: seq<byte>)
    ensures Unhex(Hex(bytes)) == bytes
  {
    if bytes != [] {
      var front, b := bytes[..|bytes| - 1], bytes[|bytes| - 1];
      calc {
        Unhex(Hex(bytes));
        Unhex(Hex(front) + HexByte(b));
        { UnhexSnoc(Hex(front), HexByte(b)); }
        Unhex(Hex(front)) + [PairValue(HexByte(b)[0], HexByte(b)[1])];
        { HexRoundTrip(front); HexByteBack(b); }
        front + [b];
        bytes;
      }
    }
  }

  /** Two digests have the same text only when they are equal. */
  lemma HexInjective(a: seq<byte>, b: seq<byte>)
    ensures Hex(a) == Hex(b) ==> a == b
  {
    HexRoundTrip(a);
    HexRoundTrip(b);
  }

  class User {
    var firstName: string
    var lastName: string
    const email: string
    /** The hex text of the password's digest. */
    var password: string
    /** MessageDigest "SHA-256" applied to the password's bytes. */
    const digest: string -> seq<byte>

    /** The password a user verifies with: the one whose digest text is stored. */
    predicate Verifies(plainPassword: string)
      reads this
    {
      Hex(digest(plainPassword)) == password
    }

    /** The User constructor: the password is stored as its digest text. */
    constructor (firstName: string, lastName: string, email: string, plainPassword: string, digest: string -> seq<byte>)
      ensures this.firstName == firstName && this.lastName == lastName && this.email == email
      ensures this.digest == digest && Verifies(plainPassword)
      ensures forall p :: Verifies(p) <==> digest(p) == digest(plainPassword)
    {
      this.firstName := firstName;
      this.lastName := lastName;
      this.email := email;
      this.digest := digest;
      new;
      password := GetSHA256(plainPassword);
      forall p ensures Verifies(p) <==> digest(p) == digest(plainPassword) {
        HexInjective(digest(p), digest(plainPassword));
      }
    }

    /** getSHA256. */
    method GetSHA256(plainPassword: string) returns (text: string)
      ensures text == Hex(digest(plainPassword))
    {
      text := HexEncode(digest(plainPassword));
    }

    /** verifyLogin: the digest text of the attempt equals the stored one. */
    method VerifyLogin(plainPassword: string) returns (ok: bool)
      ensures ok <==> Verifies(plainPassword)
    {
      var text := GetSHA256(plainPassword);
      ok := text == password;
    }

    /**
     * setPassword: afterwards the new password verifies, and so does exactly
     * every password with the same digest.
     */
    method SetPassword(plainPassword: string)
      modifies this`password
      ensures Verifies(plainPassword)
      ensures forall p :: Verifies(p) <==> digest(p) == digest(plainPassword)
    {
      password := GetSHA256(plainPassword);
      forall p ensures Verifies(p) <==> digest(p) == digest(plainPassword) {
        HexInjective(digest(p), digest(plainPassword));
      }
    }

    /** getName: the first and last names with a space between. */
    function GetName(): (name: string)
      reads this
      ensures |name| == |firstName| + 1 + |lastName|
      ensures name[..|firstName|] == firstName && name[|firstName| + 1..] == lastName
    {
      firstName + " " + lastName
    }

    /** With no space in the first name, the full name splits back at its first space. */
    lemma NameSplits()
      requires ' ' !in firstName
      ensures IndexOf(GetName(), ' ') == |firstName|
    {
      IndexOfAt(GetName(), ' ', |firstName|);
    }

    /** setName: both parts are replaced. */
    method SetName(firstName: string, lastName: string)
      modifies this`firstName, this`lastName
      ensures this.firstName == firstName && this.lastName == lastName
    {
      this.firstName := firstName;
      this.lastName := lastName;
    }
  }
}
