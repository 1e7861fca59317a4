/** Bytes and the fixed-width integers read from them. */
module Bytes {

  type Byte = x: int | 0 <= x < 256

  function Le16(s: seq<Byte>, at: nat): nat
    requires at + 2 <= |s|
  {
    s[at] as int + 256 * (s[at + 1] as int)
  }

  function Be16(s: seq<Byte>, at: nat): nat
    requires at + 2 <= |s|
  {
    256 * (s[at] as int) + s[at + 1] as int
  }

  function Be32(s: seq<Byte>, at: nat): nat
    requires at + 4 <= |s|
  {
    65536 * Be16(s, at) + Be16(s, at + 2)
  }

  lemma Joined(s: seq<Byte>, a: nat, b: nat, c: nat)
    requires a <= b <= c <= |s|
    ensures s[a..b] + s[b..c] == s[a..c]
  {
  }

  /** Taking a known prefix off the rest of a string. */
  lemma Dropped(s: seq<Byte>, at: nat, a: seq<Byte>, b: seq<Byte>)
    requires at <= |s| && a + b <= s[at..]
    ensures at + |a| <= |s| && s[at..at + |a|] == a && b <= s[at + |a|..]
    ensures a + b == s[at..] ==> b == s[at + |a|..]
    ensures forall k :: 0 <= k < |a| ==> s[at + k] == a[k]
  {
    assert forall k :: 0 <= k < |a + b| ==> s[at..][k] == (a + b)[k];
  }

  /** Two known parts in a row. */
  lemma DroppedTwice(s: seq<Byte>, at: nat, a: seq<Byte>, b: seq<Byte>, c: seq<Byte>)
    requires at <= |s| && a + (b + c) <= s[at..]
    ensures var mid, end := at + |a|, at + |a| + |b|;
            end <= |s| && s[at..mid] == a && s[mid..end] == b && c <= s[end..]
  {
    Dropped(s, at, a, b + c);
    Dropped(s, at + |a|, b, c);
  }

  /** Big-endian serialisation of a 16-bit and of a 32-bit number. */
  function Be16Bytes(n: nat): (s: seq<Byte>)
    requires n < 0x1_0000
    ensures |s| == 2
  {
    [n / 256, n % 256]
  }

  function Be32Bytes(n: nat): (s: seq<Byte>)
    requires n < 0x1_0000_0000
    ensures |s| == 4
  {
    Be16Bytes(n / 0x1_0000) + Be16Bytes(n % 0x1_0000)
  }

  lemma Be32Reads(n: nat)
    requires n < 0x1_0000_0000
    ensures Be32(Be32Bytes(n), 0) == n
  {
    var high, low := n / 0x1_0000, n % 0x1_0000;
    assert Be16(Be32Bytes(n), 0) == high;
    assert Be16(Be32Bytes(n), 2) == low;
  }

  /** Two bytes written back from the number they read as. */
  lemma Be16Writes(s: seq<Byte>, at: nat)
    requires at + 2 <= |s|
    ensures Be16(s, at) < 0x1_0000 && Be16Bytes(Be16(s, at)) == s[at..at + 2]
  {
  }

  lemma Be32Writes(s: seq<Byte>, at: nat)
    requires at + 4 <= |s|
    ensures Be32(s, at) < 0x1_0000_0000 && Be32Bytes(Be32(s, at)) == s[at..at + 4]
  {
    Be16Writes(s, at);
    Be16Writes(s, at + 2);
    hide Be16, Be16Bytes;
    Joined(s, at, at + 2, at + 4);
  }
}
