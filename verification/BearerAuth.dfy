/** The comparison that never stops early, and the check of the Authorization header built on it. */
module BearerAuth {
  type Bytes = seq<bv8>

  /** "Bearer " */
  const BEARER: Bytes := [66, 101, 97, 114, 101, 114, 32]

  /** The low byte of a length, as a byte that counts up to it. */
  function LowByte(n: nat): (low: bv8)
    ensures low as int == n % 256
  {
    if n == 0 then 0
    else
      NextByte(LowByte(n - 1), n - 1);
      LowByte(n - 1) + 1
  }

  /** The cast to uint8_t keeps the low byte of the xor of two 64-bit lengths: that is the xor of their low bytes. */
  lemma XorOfLowBytes(m: bv64, n: bv64)
    ensures (m ^ n) & 0xFF == (m & 0xFF) ^ (n & 0xFF)
    ensures m & 0xFF == m % 256
  {
  }

  lemma NextByte(low: bv8, n: nat)
    requires low as int == n % 256
    ensures (low + 1) as int == (n + 1) % 256
  {
    ByteWraps(low);
    NextRemainder(n);
  }

  lemma ByteWraps(low: bv8)
    ensures (low + 1) as int == if low as int == 255 then 0 else low as int + 1
  {
  }

  lemma NextRemainder(n: nat)
    ensures (n + 1) % 256 == if n % 256 == 255 then 0 else n % 256 + 1
  {
  }

  /** What the comparison finds: lengths equal modulo 256, and no difference over the shorter of the two. */
  predicate Agree(a: Bytes, b: Bytes) {
    |a| % 256 == |b| % 256 && forall i | 0 <= i < |a| && i < |b| :: a[i] == b[i]
  }

  lemma SameByte(x: bv8, y: bv8)
    ensures x == y <==> x as int == y as int
  {
  }

  lemma LowByteInjective(m: nat, n: nat)
    ensures LowByte(m) == LowByte(n) <==> m % 256 == n % 256
  {
    SameByte(LowByte(m), LowByte(n));
  }

  lemma NoDifference(x: bv8, y: bv8)
    ensures x ^ y == 0 <==> x == y
    ensures x | y == 0 <==> x == 0 && y == 0
  {
  }

  method ConstantTimeEquals(a: Bytes, b: Bytes) returns (equal: bool)
    ensures equal <==> Agree(a, b)
  {
    var result := LowByte(|a|) ^ LowByte(|b|);
    LowByteInjective(|a|, |b|);
    NoDifference(LowByte(|a|), LowByte(|b|));
    var len := if |a| < |b| then |a| else |b|;
    for i := 0 to len
      invariant result == 0 <==> |a| % 256 == |b| % 256 && forall j | 0 <= j < i :: a[j] == b[j]
    {
      NoDifference(a[i], b[i]);
      NoDifference(result, a[i] ^ b[i]);
      result := result | (a[i] ^ b[i]);
    }
    equal := result == 0;
  }

  /** n zero bytes. */
  function Zeros(n: nat): Bytes {
    seq(n, _ => 0)
  }

  /** The comparison decides equality of strings of lengths m and n exactly when the lengths are equal or
      differ modulo 256; otherwise it takes a string for its own extension. */
  lemma EqualityByLength(m: nat, n: nat)
    ensures (forall a: Bytes, b: Bytes | |a| == m && |b| == n :: Agree(a, b) <==> a == b)
       <==> (m == n || m % 256 != n % 256)
  {
    if m == n {
      forall a: Bytes, b: Bytes | |a| == m && |b| == n
        ensures Agree(a, b) <==> a == b
      {
      }
    } else if m % 256 == n % 256 {
      assert Agree(Zeros(m), Zeros(n)) && Zeros(m) != Zeros(n);
    }
  }

  lemma SameLengthAgree(a: Bytes, b: Bytes)
    requires Agree(a, b)
    ensures a == b <==> |a| == |b|
  {
  }

  datatype AuthResult = AuthResult(authenticated: bool, code: string, message: string)

  /** A header is accepted exactly when it is the prefix followed by a non-empty token that agrees with the key. */
  function CheckBearerAuth(header: Bytes, key: Bytes): (result: AuthResult)
    ensures result.authenticated <==>
      exists token: Bytes :: token != [] && header == BEARER + token && Agree(token, key)
    ensures result.code == (if result.authenticated then "" else "invalid_api_key")
  {
    if header == [] then
      AuthResult(false, "invalid_api_key", "Missing Authorization header. Use: Authorization: Bearer <api_key>")
    else if |header| <= |BEARER| || header[..|BEARER|] != BEARER then
      AuthResult(false, "invalid_api_key", "Invalid Authorization header format. Use: Authorization: Bearer <api_key>")
    else
      var token := header[|BEARER|..];
      assert header == BEARER + token;
      assert forall t: Bytes | header == BEARER + t :: t == (BEARER + t)[|BEARER|..] == token;
      if !Agree(token, key) then AuthResult(false, "invalid_api_key", "Invalid API key provided.")
      else AuthResult(true, "", "")
  }

  lemma PrefixIs(header: Bytes)
    ensures BEARER < header <==> |header| > |BEARER| && header[..|BEARER|] == BEARER
  {
  }

  /** Which of the three messages a refusal carries: there is no header, the prefix is not there with something behind
      it, or what is there is not the key. */
  lemma MessagesTell(header: Bytes, key: Bytes)
    requires !CheckBearerAuth(header, key).authenticated
    ensures CheckBearerAuth(header, key).message ==
      if header == [] then "Missing Authorization header. Use: Authorization: Bearer <api_key>"
      else if BEARER < header then "Invalid API key provided."
      else "Invalid Authorization header format. Use: Authorization: Bearer <api_key>"
  {
    PrefixIs(header);
  }

  /** The prefix as text. */
  lemma PrefixIsText(header: Bytes, key: Bytes)
    ensures CheckBearerAuth(header, key).authenticated ==>
      && |header| > 7 && header[0] as int == 'B' as int && header[1] as int == 'e' as int
      && header[2] as int == 'a' as int && header[3] as int == 'r' as int && header[4] as int == 'e' as int
      && header[5] as int == 'r' as int && header[6] as int == ' ' as int && Agree(header[7..], key)
  {
    if CheckBearerAuth(header, key).authenticated {
      var token: Bytes :| token != [] && header == BEARER + token && Agree(token, key);
      assert header[7..] == token;
      assert forall i | 0 <= i < 7 :: header[i] == BEARER[i];
    }
  }

  /** A wrong token that gets in: the key with any multiple of 256 bytes behind it. */
  lemma ExtendedKeyGetsIn(key: Bytes, tail: Bytes)
    requires key != [] && tail != [] && |tail| % 256 == 0
    ensures CheckBearerAuth(BEARER + (key + tail), key).authenticated && key + tail != key
  {
    assert Agree(key + tail, key);
  }

  /** The key itself always gets in, and nothing else does unless its length is off by a multiple of 256;
      so with key and token shorter than 256 bytes the check is exact. */
  lemma BearerIsExact(header: Bytes, key: Bytes)
    ensures key != [] && header == BEARER + key ==> CheckBearerAuth(header, key).authenticated
    ensures CheckBearerAuth(header, key).authenticated && header != BEARER + key ==>
      |header| - |BEARER| != |key| && (|header| - |BEARER|) % 256 == |key| % 256
    ensures |key| < 256 && |header| < |BEARER| + 256 ==>
      (CheckBearerAuth(header, key).authenticated <==> key != [] && header == BEARER + key)
  {
    if CheckBearerAuth(header, key).authenticated {
      var token: Bytes :| token != [] && header == BEARER + token && Agree(token, key);
      SameLengthAgree(token, key);
      assert |header| == |BEARER| + |token|;
    }
  }
}
