/**
 * The byte-level readers of the ITCH 5.0 decoder: big-endian integer reads
 * at fixed offsets, single characters, fixed-width text fields and the
 * trailing-space trim that turns a padded symbol into a symbol view.
 */
module ItchWire {
  import opened FixedWidth
  import opened Trimming

  type Text2 = s: seq<char8> | |s| == 2 witness "  "
  type Text4 = s: seq<char8> | |s| == 4 witness "    "
  type Text8 = s: seq<char8> | |s| == 8 witness "        "

  /**
   * The integer readers: unsigned, most significant byte first, at a byte
   * offset. Each is the positional value of its bytes; the lemmas below
   * show that this is the big-endian fold `BE` of the field's bytes.
   */
  function ReadU16(buf: seq<byte>, off: nat): u16
    requires off + 2 <= |buf|
  {
    buf[off] as int * 0x100 + buf[off + 1]
  }

  function ReadU32(buf: seq<byte>, off: nat): u32
    requires off + 4 <= |buf|
  {
    buf[off] as int * 0x100_0000 + buf[off + 1] as int * 0x1_0000
    + buf[off + 2] as int * 0x100 + buf[off + 3]
  }

  /** The 48-bit timestamp field. */
  function ReadU48(buf: seq<byte>, off: nat): u48
    requires off + 6 <= |buf|
  {
    buf[off] as int * 0x100_0000_0000 + buf[off + 1] as int * 0x1_0000_0000
    + buf[off + 2] as int * 0x100_0000 + buf[off + 3] as int * 0x1_0000
    + buf[off + 4] as int * 0x100 + buf[off + 5]
  }

  function ReadU64(buf: seq<byte>, off: nat): u64
    requires off + 8 <= |buf|
  {
    buf[off] as int * 0x100_0000_0000_0000 + buf[off + 1] as int * 0x1_0000_0000_0000
    + buf[off + 2] as int * 0x100_0000_0000 + buf[off + 3] as int * 0x1_0000_0000
    + buf[off + 4] as int * 0x100_0000 + buf[off + 5] as int * 0x1_0000
    + buf[off + 6] as int * 0x100 + buf[off + 7]
  }

  /** One step of the fold: the value of a prefix extends by its next byte. */
  lemma BETake(s: seq<byte>, k: nat)
    requires 0 < k <= |s|
    ensures BE(s[..k]) == BE(s[..k - 1]) * 0x100 + s[k - 1]
  {
    assert s[..k][..k - 1] == s[..k - 1];
  }

  lemma ReadU16IsBE(buf: seq<byte>, off: nat)
    requires off + 2 <= |buf|
    ensures ReadU16(buf, off) == BE(buf[off..off + 2])
  {
    var s := buf[off..off + 2];
    BETake(s, 1); BETake(s, 2);
    assert s[..0] == [] && s[..2] == s;
  }

  lemma ReadU32IsBE(buf: seq<byte>, off: nat)
    requires off + 4 <= |buf|
    ensures ReadU32(buf, off) == BE(buf[off..off + 4])
  {
    var s := buf[off..off + 4];
    BETake(s, 1); BETake(s, 2); BETake(s, 3); BETake(s, 4);
    assert s[..0] == [] && s[..4] == s;
  }

  lemma ReadU48IsBE(buf: seq<byte>, off: nat)
    requires off + 6 <= |buf|
    ensures ReadU48(buf, off) == BE(buf[off..off + 6])
  {
    var s := buf[off..off + 6];
    BETake(s, 1); BETake(s, 2); BETake(s, 3); BETake(s, 4); BETake(s, 5); BETake(s, 6);
    assert s[..0] == [] && s[..6] == s;
  }

  lemma ReadU64IsBE(buf: seq<byte>, off: nat)
    requires off + 8 <= |buf|
    ensures ReadU64(buf, off) == BE(buf[off..off + 8])
  {
    var s := buf[off..off + 8];
    BETake(s, 1); BETake(s, 2); BETake(s, 3); BETake(s, 4);
    BETake(s, 5); BETake(s, 6); BETake(s, 7); BETake(s, 8);
    assert s[..0] == [] && s[..8] == s;
  }

  function ReadChar(buf: seq<byte>, off: nat): (c: char8)
    requires off < |buf|
    ensures c as int == buf[off]
  {
    buf[off] as char
  }

  function ReadText(buf: seq<byte>, off: nat, n: nat): (t: seq<char8>)
    requires off + n <= |buf|
    ensures |t| == n
    ensures forall i :: 0 <= i < n ==> t[i] as int == buf[off + i]
  {
    Chars(buf[off..off + n])
  }

  /**
   * The 48-bit read, one shifted byte at a time. Each byte lands on its own
   * eight bits, so OR-ing the shifted bytes together is the same as adding
   * them, which is how it is written here.
   */
  method ReadBe48(buf: seq<byte>, off: nat) returns (v: u48)
    requires off + 6 <= |buf|
    ensures v == BE(buf[off..off + 6])
  {
    var value: nat := 0;
    value := value + buf[off] as int * 0x100_0000_0000;
    value := value + buf[off + 1] as int * 0x1_0000_0000;
    value := value + buf[off + 2] as int * 0x100_0000;
    value := value + buf[off + 3] as int * 0x1_0000;
    value := value + buf[off + 4] as int * 0x100;
    value := value + buf[off + 5];
    ReadU48IsBE(buf, off);
    v := value;
  }

  /**
   * A text field viewed without its trailing space padding: the length is
   * walked back past every trailing ' '.
   */
  method ViewTrimmed(arr: seq<char8>) returns (view: seq<char8>)
    ensures view == StripTrailing(arr, {' '})
  {
    var len := |arr|;
    while len > 0 && arr[len - 1] == ' '
      invariant 0 <= len <= |arr|
      invariant forall i :: len <= i < |arr| ==> arr[i] in {' '}
      decreases len
    {
      len := len - 1;
    }
    StripTrailingUnique(arr, {' '}, len);
    view := arr[..len];
  }

  /** The symbol a decoded message reports: its text with trailing spaces removed. */
  function SymbolView(arr: seq<char8>): (v: seq<char8>)
    ensures |v| <= |arr| && v == arr[..|v|]
    ensures forall i :: |v| <= i < |arr| ==> arr[i] == ' '
    ensures |v| > 0 ==> v[|v| - 1] != ' '
  {
    StripTrailing(arr, {' '})
  }
}
