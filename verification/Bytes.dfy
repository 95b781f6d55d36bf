/** Bytes, 16-bit words and C strings: the vocabulary the other modules share. */
module Bytes {

  type byte = x: int | 0 <= x < 0x100

  /** A `uint16_t`. */
  type word = x: int | 0 <= x < 0x1_0000

  /** Data whose length is a `uint16_t`. */
  type payload = s: seq<byte> | |s| < 0x1_0000

  datatype Option<+T> = None | Some(value: T)

  /** An assignment to a `uint16_t`. */
  function U16(n: int): (r: word)
    ensures 0 <= n < 0x1_0000 ==> r == n
  {
    n % 0x1_0000
  }

  /** The exclusive or with 0x20, which flips bit 5. */
  function Xor20(b: byte): byte {
    if b / 0x20 % 2 == 0 then b + 0x20 else b - 0x20
  }

  function Min(a: nat, b: nat): nat {
    if a < b then a else b
  }

  /** The position of the first `c` in `s`, or |s| when there is none. */
  function IndexOf(s: seq<byte>, c: byte): (k: nat)
    ensures k <= |s|
    ensures forall i :: 0 <= i < k ==> s[i] != c
    ensures k < |s| ==> s[k] == c
  {
    if s == [] || s[0] == c then 0 else 1 + IndexOf(s[1..], c)
  }

  /** The C string that starts at the head of `s`, when a zero byte is stored after `s`. */
  function CStr(s: seq<byte>): (r: seq<byte>)
    ensures 0 !in r
    ensures 0 !in s ==> r == s
  {
    s[..IndexOf(s, 0)]
  }

  /** `IndexOf` is pinned down by its postcondition. */
  lemma IndexOfIs(s: seq<byte>, c: byte, k: nat)
    requires k <= |s|
    requires forall i :: 0 <= i < k ==> s[i] != c
    requires k < |s| ==> s[k] == c
    ensures IndexOf(s, c) == k
  {
  }

  lemma Associate<T>(a: seq<T>, b: seq<T>, c: seq<T>)
    ensures a + b + c == a + (b + c)
  {
  }

  lemma Slice<T>(s: seq<T>, pos: nat, len: nat, a: nat, b: nat)
    requires pos <= a <= b <= len <= |s|
    ensures s[pos..len][a - pos..b - pos] == s[a..b]
  {
    var t := s[pos..len][a - pos..b - pos];
    assert forall i :: 0 <= i < b - a ==> t[i] == s[a + i];
  }
}
