/** Machine integer widths and the byte-buffer operations shared by the whole model. */
module Bytes {

  type uint8 = x: int | 0 <= x < 0x100
  type int16 = x: int | -0x8000 <= x < 0x8000
  type uint32 = x: int | 0 <= x < 0x1_0000_0000

  datatype Option<T> = None | Some(value: T)

  /** The bytes `s` with the stretch starting at `at` replaced by `d`:
      the effect of `memcpy(&s[at], d, |d|)`. */
  function Overwrite(s: seq<uint8>, at: nat, d: seq<uint8>): (r: seq<uint8>)
    requires at + |d| <= |s|
    ensures |r| == |s|
    ensures r[at..at + |d|] == d
    ensures forall k :: 0 <= k < |s| && !(at <= k < at + |d|) ==> r[k] == s[k]
  {
    s[..at] + d + s[at + |d|..]
  }

  /** `n` bytes of the erased value 0: the effect of `memset(p, 0, n)`. */
  function Zeros(n: nat): (r: seq<uint8>)
    ensures |r| == n && forall k :: 0 <= k < n ==> r[k] == 0
  {
    seq(n, _ => 0)
  }

  /** Two consecutive overwrites are one overwrite with the concatenation. */
  lemma OverwriteAppend(s: seq<uint8>, at: nat, d: seq<uint8>, e: seq<uint8>)
    requires at + |d| + |e| <= |s|
    ensures Overwrite(Overwrite(s, at, d), at + |d|, e) == Overwrite(s, at, d + e)
  {
    var l := Overwrite(Overwrite(s, at, d), at + |d|, e);
    var r := Overwrite(s, at, d + e);
    forall k | 0 <= k < |s| ensures l[k] == r[k] {
      if at <= k < at + |d| {
        assert r[k] == r[at..at + |d| + |e|][k - at];
        assert l[k] == Overwrite(s, at, d)[k];
        assert Overwrite(s, at, d)[k] == Overwrite(s, at, d)[at..at + |d|][k - at];
      } else if at + |d| <= k < at + |d| + |e| {
        assert r[k] == r[at..at + |d| + |e|][k - at];
        assert l[k] == l[at + |d|..at + |d| + |e|][k - at - |d|];
      }
    }
  }

  /** Storing one more byte right after an overwritten stretch extends the stretch. */
  lemma OverwriteSnoc(s: seq<uint8>, at: nat, d: seq<uint8>, x: uint8)
    requires at + |d| < |s|
    ensures Overwrite(s, at, d)[at + |d| := x] == Overwrite(s, at, d + [x])
  {
    var l := Overwrite(s, at, d)[at + |d| := x];
    var r := Overwrite(s, at, d + [x]);
    forall k | 0 <= k < |s| ensures l[k] == r[k] {
      if at <= k < at + |d| {
        assert r[k] == r[at..at + |d| + 1][k - at];
        assert l[k] == Overwrite(s, at, d)[at..at + |d|][k - at];
      } else if k == at + |d| {
        assert r[k] == r[at..at + |d| + 1][|d|];
      }
    }
  }

  /** Storing two bytes at `j` and `j + 1` is overwriting with the pair. */
  lemma StorePair(s: seq<uint8>, j: nat, a: uint8, b: uint8)
    requires j + 2 <= |s|
    ensures s[j := a][j + 1 := b] == Overwrite(s, j, [a, b])
  {
    var w := Overwrite(s, j, [a, b]);
    assert w[j] == w[j..j + 2][0];
    assert w[j + 1] == w[j..j + 2][1];
  }

  /** Writing `d` over a stretch that was just overwritten with `e` of the same length
      leaves no trace of `e`. */
  lemma OverwriteTwice(s: seq<uint8>, at: nat, e: seq<uint8>, d: seq<uint8>)
    requires at + |d| <= |s| && |e| == |d|
    ensures Overwrite(Overwrite(s, at, e), at, d) == Overwrite(s, at, d)
  {
  }

  /** Overwriting a window of `s` with a patched copy of that window is the same as
      patching `s` directly at the translated offset. */
  lemma OverwriteNested(s: seq<uint8>, base: nat, len: nat, at: nat, d: seq<uint8>)
    requires base + len <= |s| && at + |d| <= len
    ensures Overwrite(s, base, Overwrite(s[base..base + len], at, d)) == Overwrite(s, base + at, d)
  {
    var lhs := Overwrite(s, base, Overwrite(s[base..base + len], at, d));
    var rhs := Overwrite(s, base + at, d);
    assert |lhs| == |rhs|;
    forall k | 0 <= k < |s| ensures lhs[k] == rhs[k] {
      if base + at <= k < base + at + |d| {
        assert rhs[k] == d[k - base - at];
      }
    }
  }
}
