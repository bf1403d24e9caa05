// pkg/core/frame.go: the frame around a padded payload.
module CoreFrame {
  import opened Bytes

  const MAGIC: seq<byte> := [67, 72, 76, 77]
  const VERSION: byte := 1
  const HEADER := 16
  const WORD := 0x1_0000_0000

  datatype Profile = WebRTC | HTTP3 | Gaming | OtherProfile

  function ProfileID(profile: Profile): nat {
    match profile
    case WebRTC => 1
    case HTTP3 => 2
    case Gaming => 3
    case OtherProfile => 0
  }

  /** The two lengths are cut to 32 bits. */
  function FrameBytes(profile: Profile, payload: seq<byte>, originalLen: nat): (r: seq<byte>)
    ensures |r| == HEADER + |payload|
  {
    MAGIC + [VERSION, 0] + PutUint16(ProfileID(profile)) + PutUint32(originalLen) + PutUint32(|payload|) + payload
  }

  function Decode(frame: seq<byte>): Option<seq<byte>> {
    if |frame| < HEADER || frame[..4] != MAGIC || frame[4] != VERSION then None
    else
      var originalLen, normalizedLen := Uint32(frame[8..12]), Uint32(frame[12..16]);
      if originalLen <= 0 || originalLen > normalizedLen || normalizedLen > |frame| - HEADER then None
      else Some(frame[HEADER..HEADER + normalizedLen][..originalLen])
  }

  /** The slots of the header, filled one by one as the source does. */
  method EncodeFrame(profile: Profile, payload: seq<byte>, originalLen: int) returns (frame: array<byte>, ok: bool)
    ensures ok <==> 0 < originalLen <= |payload|
    ensures ok ==> frame[..] == FrameBytes(profile, payload, originalLen)
    ensures fresh(frame)
  {
    frame := new byte[0];
    if |payload| == 0 || originalLen <= 0 || originalLen > |payload| {
      return frame, false;
    }
    frame := new byte[HEADER + |payload|];
    Copy(frame, 0, MAGIC);
    frame[4] := VERSION;
    frame[5] := 0;
    Copy(frame, 6, PutUint16(ProfileID(profile)));
    Copy(frame, 8, PutUint32(originalLen));
    Copy(frame, 12, PutUint32(|payload|));
    Copy(frame, HEADER, payload);
    Slots(frame[..], profile, payload, originalLen);
    ok := true;
  }

  method Copy(frame: array<byte>, at: nat, bytes: seq<byte>)
    requires at + |bytes| <= frame.Length
    modifies frame
    ensures frame[at..at + |bytes|] == bytes
    ensures forall i :: 0 <= i < frame.Length && !(at <= i < at + |bytes|) ==> frame[i] == old(frame[i])
  {
    for i := 0 to |bytes|
      invariant forall k :: 0 <= k < i ==> frame[at + k] == bytes[k]
      invariant forall k :: 0 <= k < frame.Length && !(at <= k < at + i) ==> frame[k] == old(frame[k])
    {
      frame[at + i] := bytes[i];
    }
  }

  lemma Slots(frame: seq<byte>, profile: Profile, payload: seq<byte>, originalLen: nat)
    requires |frame| == HEADER + |payload|
    requires frame[0..4] == MAGIC && frame[4] == VERSION && frame[5] == 0
    requires frame[6..8] == PutUint16(ProfileID(profile)) && frame[8..12] == PutUint32(originalLen)
    requires frame[12..16] == PutUint32(|payload|) && frame[16..] == payload
    ensures frame == FrameBytes(profile, payload, originalLen)
  {
    assert frame == frame[0..4] + [frame[4], frame[5]] + frame[6..8] + frame[8..12] + frame[12..16] + frame[16..];
  }

  lemma Fields(profile: Profile, payload: seq<byte>, originalLen: nat)
    ensures var f := FrameBytes(profile, payload, originalLen);
      && f[..4] == MAGIC && f[4] == VERSION && f[8..12] == PutUint32(originalLen)
      && f[12..16] == PutUint32(|payload|) && f[HEADER..] == payload
  {
  }

  /** The first eight octets: the letters CHLM, the version, no flags, and the number of the profile. */
  lemma HeaderIs(profile: Profile, payload: seq<byte>, originalLen: nat)
    ensures FrameBytes(profile, payload, originalLen)[..8] ==
      [67, 72, 76, 77, 1, 0, 0,
       match profile case WebRTC => 1 case HTTP3 => 2 case Gaming => 3 case OtherProfile => 0]
  {
    var id := ProfileID(profile);
    assert PutBytes(id, 2) == PutBytes(id / 256, 1) + [id % 256] == [0, id];
  }

  /** PutUint32 of a wider number is PutUint32 of its low 32 bits. */
  lemma LowWord(n: nat)
    ensures Uint32(PutUint32(n)) == n % WORD
  {
    Low(n, 4);
    assert Pow256(4) == WORD;
  }

  lemma {:induction false} Low(n: nat, k: nat)
    ensures GetBytes(PutBytes(n, k)) == n % Pow256(k)
  {
    if k > 0 {
      Low(n / 256, k - 1);
      assert PutBytes(n, k)[..k - 1] == PutBytes(n / 256, k - 1);
      DivMod(n, Pow256(k - 1));
    }
  }

  lemma DivMod(n: nat, p: nat)
    requires p > 0
    ensures n % (256 * p) == (n / 256 % p) * 256 + n % 256
  {
    var q, r := n / 256 / p, n / 256 % p;
    assert n / 256 == q * p + r;
    assert n == (q * p + r) * 256 + n % 256 == q * (256 * p) + (r * 256 + n % 256);
    Remainder(n, 256 * p, q, r * 256 + n % 256);
  }

  lemma Remainder(n: nat, m: nat, q: nat, r: nat)
    requires n == q * m + r && r < m
    ensures n % m == r
  {
    var d, r' := n / m, n % m;
    Distribute(q, d, m);
    OnlyZero(q - d, m, r' - r);
  }

  lemma Distribute(q: int, d: int, m: int)
    ensures (q - d) * m == q * m - d * m
  {
  }

  lemma OnlyZero(x: int, m: int, e: int)
    requires x * m == e && -m < e < m
    ensures x == 0 && e == 0
  {
    if x >= 1 {
      AtLeast(x, m);
    } else if x <= -1 {
      AtLeast(-x, m);
    }
  }

  lemma AtLeast(x: int, m: int)
    requires x >= 1 && m >= 0
    ensures x * m >= m && -x * m <= -m
  {
    assert (x - 1) * m >= 0;
  }

  /** Decoding recovers the unpadded data exactly when its length fits 32 bits and is not above the
      padded length's low 32 bits; so it always does when both lengths fit. */
  lemma DecodeOfEncode(profile: Profile, payload: seq<byte>, originalLen: nat)
    requires 0 < originalLen <= |payload|
    ensures Decode(FrameBytes(profile, payload, originalLen)) == Some(payload[..originalLen])
      <==> originalLen < WORD && originalLen <= |payload| % WORD
    ensures |payload| < WORD ==> Decode(FrameBytes(profile, payload, originalLen)) == Some(payload[..originalLen])
  {
    Fields(profile, payload, originalLen);
    LowWord(originalLen);
    LowWord(|payload|);
    var f, o, n := FrameBytes(profile, payload, originalLen), originalLen % WORD, |payload| % WORD;
    LowPart(originalLen);
    LowPart(|payload|);
    DecodeIs(f, payload, o, n);
    PrefixesAgreeIff(payload, o, originalLen);
  }

  lemma LowPart(x: nat)
    ensures 0 <= x % WORD <= x && (x % WORD == x <==> x < WORD)
  {
  }

  lemma PrefixesAgreeIff(s: seq<byte>, a: nat, b: nat)
    requires a <= b <= |s|
    ensures s[..a] == s[..b] <==> a == b
  {
    assert |s[..a]| == a && |s[..b]| == b;
  }

  lemma DecodeIs(f: seq<byte>, payload: seq<byte>, o: nat, n: nat)
    requires |f| == HEADER + |payload| && f[..4] == MAGIC && f[4] == VERSION && n <= |payload|
    requires Uint32(f[8..12]) == o && Uint32(f[12..16]) == n && f[HEADER..] == payload
    ensures Decode(f) == if 0 < o <= n then Some(payload[..o]) else None
  {
    if 0 < o <= n {
      assert f[HEADER..HEADER + n] == payload[..n] && payload[..n][..o] == payload[..o];
    }
  }

  /** Bytes after the padded payload are ignored. */
  lemma TrailingBytesAreIgnored(frame: seq<byte>, extra: seq<byte>)
    requires Decode(frame).Some?
    ensures Decode(frame + extra) == Decode(frame)
  {
    var n := Uint32(frame[12..16]);
    assert (frame + extra)[8..12] == frame[8..12] && (frame + extra)[12..16] == frame[12..16];
    assert (frame + extra)[..4] == frame[..4] && (frame + extra)[HEADER..HEADER + n] == frame[HEADER..HEADER + n];
  }
}
