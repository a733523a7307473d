/** Byte strings, the little-endian fields of the wire format, and zero padding. */
module ByteStrings {

  newtype byte = x: int | 0 <= x < 0x100

  type Bytes = seq<byte>

  const UINT16_LIMIT := 0x1_0000
  const UINT32_LIMIT := 0x1_0000_0000

  type u16 = n: nat | n < UINT16_LIMIT
  type u32 = n: nat | n < UINT32_LIMIT

  datatype Option<+T> = None | Some(value: T)

  function Zeros(n: nat): (z: Bytes)
    ensures |z| == n
    ensures forall i :: 0 <= i < n ==> z[i] == 0
  {
    seq(n, _ => 0 as byte)
  }

  function Le16(n: u16): (b: Bytes)
    ensures |b| == 2
  {
    [(n % 0x100) as byte, (n / 0x100) as byte]
  }

  function Le32(n: u32): (b: Bytes)
    ensures |b| == 4
  {
    Le16(n % UINT16_LIMIT) + Le16(n / UINT16_LIMIT)
  }

  function U16(b: Bytes): u16
    requires |b| == 2
  {
    b[0] as nat + 0x100 * b[1] as nat
  }

  function U32(b: Bytes): u32
    requires |b| == 4
  {
    U16(b[..2]) + UINT16_LIMIT * U16(b[2..])
  }

  lemma Le16RoundTrip(n: u16)
    ensures U16(Le16(n)) == n
  {
  }

  lemma Le32RoundTrip(n: u32)
    ensures U32(Le32(n)) == n
  {
    assert Le32(n)[..2] == Le16(n % UINT16_LIMIT);
    assert Le32(n)[2..] == Le16(n / UINT16_LIMIT);
    Le16RoundTrip(n % UINT16_LIMIT);
    Le16RoundTrip(n / UINT16_LIMIT);
  }

  /** The lowest byte comes first. */
  lemma LittleEndian(b: Bytes)
    ensures |b| == 2 ==> U16(b) == b[0] as int + 0x100 * b[1] as int
    ensures |b| == 4 ==>
              U32(b) == b[0] as int + 0x100 * b[1] as int + 0x1_0000 * b[2] as int + 0x100_0000 * b[3] as int
  {
  }

  /** Python's `b[lo:hi]`: bounds beyond the end are clamped. */
  function Slice(b: Bytes, lo: nat, hi: nat): (s: Bytes)
    requires lo <= hi
    ensures hi <= |b| ==> s == b[lo..hi]
    ensures |b| <= lo ==> s == []
    ensures lo <= |b| <= hi ==> s == b[lo..]
    ensures |s| <= hi - lo
  {
    if |b| <= lo then [] else if |b| <= hi then b[lo..] else b[lo..hi]
  }

  /** The client pads a name with zeroes up to a wanted size; a longer name is left alone. */
  function PadTo(s: Bytes, n: nat): (p: Bytes)
    ensures |p| >= n
    ensures |s| <= n ==> |p| == n
    ensures |s| >= n ==> p == s
    ensures s <= p && forall i :: |s| <= i < |p| ==> p[i] == 0
  {
    if |s| < n then s + Zeros(n - |s|) else s
  }

  /** What the server's `rstrip` leaves: the string without its trailing zero bytes. */
  function RstripNul(s: Bytes): (r: Bytes)
    ensures r <= s
    ensures |r| > 0 ==> r[|r| - 1] != 0
    ensures forall i :: |r| <= i < |s| ==> s[i] == 0
  {
    if |s| > 0 && s[|s| - 1] == 0 then RstripNul(s[..|s| - 1]) else s
  }

  /** `rstrip` is characterised by its contract: no other prefix meets it. */
  lemma {:induction false} RstripUnique(s: Bytes, r: Bytes)
    requires r <= s
    requires |r| > 0 ==> r[|r| - 1] != 0
    requires forall i :: |r| <= i < |s| ==> s[i] == 0
    ensures RstripNul(s) == r
  {
    if |s| > 0 && s[|s| - 1] == 0 {
      assert |r| < |s|;
      RstripUnique(s[..|s| - 1], r);
    }
  }

  const NAME_FIELD := 255

  /** The 255-byte name field of the wire payloads. */
  function NameField(name: Bytes): (f: Bytes)
    ensures |f| == NAME_FIELD
  {
    PadTo(name, NAME_FIELD)[..NAME_FIELD]
  }

  /** The name the server recovers from the field. */
  function NameOfField(name: Bytes): (r: Bytes)
    ensures |r| <= NAME_FIELD
  {
    RstripNul(NameField(name))
  }

  /** The server recovers the client's name exactly when it fits the field and has no trailing zero byte. */
  lemma NameFieldRoundTrip(name: Bytes)
    ensures NameOfField(name) == name <==> |name| <= NAME_FIELD && (name != [] ==> name[|name| - 1] != 0)
  {
    var f := NameField(name);
    if |name| <= NAME_FIELD && (name != [] ==> name[|name| - 1] != 0) {
      assert name <= f;
      assert forall i :: |name| <= i < |f| ==> f[i] == 0;
      RstripUnique(f, name);
    }
  }
}
