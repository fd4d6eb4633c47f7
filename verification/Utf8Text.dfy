/**
 Text as code points, and the number of octets each takes in UTF-8 (section 3 of RFC 3629).
 A string may hold lone surrogates; only text without them can be encoded.
 */
module Utf8Text {
  type CodePoint = c: int | 0 <= c < 0x11_0000

  type Text = seq<CodePoint>

  datatype Option<T> = None | Some(value: T)

  predicate IsSurrogate(c: CodePoint) {
    0xD800 <= c <= 0xDFFF
  }

  predicate Encodable(t: Text) {
    forall i :: 0 <= i < |t| ==> !IsSurrogate(t[i])
  }

  function Width(c: CodePoint): (n: nat)
    ensures 1 <= n <= 4
  {
    if c < 0x80 then 1 else if c < 0x800 then 2 else if c < 0x1_0000 then 3 else 4
  }

  function Utf8Size(t: Text): (n: nat) {
    if t == [] then 0 else Utf8Size(t[..|t| - 1]) + Width(t[|t| - 1])
  }

  lemma SizeOfOneMore(t: Text, c: CodePoint)
    ensures Utf8Size(t + [c]) == Utf8Size(t) + Width(c)
  {
    assert (t + [c])[..|t|] == t;
  }

  lemma {:induction false} SizeOfConcat(s: Text, t: Text)
    ensures Utf8Size(s + t) == Utf8Size(s) + Utf8Size(t)
  {
    if t == [] {
      assert s + t == s;
    } else {
      SizeOfConcat(s, t[..|t| - 1]);
      assert (s + t)[..|s + t| - 1] == s + t[..|t| - 1];
    }
  }

  lemma {:induction false} SizeBounds(t: Text)
    ensures |t| <= Utf8Size(t) <= 4 * |t|
  {
    if t != [] { SizeBounds(t[..|t| - 1]); }
  }

  /** A longer slice from the same start takes more octets. */
  lemma SizeGrows(t: Text, i: nat, j: nat, k: nat)
    requires i <= j <= k <= |t|
    ensures Utf8Size(t[i..k]) == Utf8Size(t[i..j]) + Utf8Size(t[j..k])
    ensures j < k ==> Utf8Size(t[i..k]) >= Utf8Size(t[i..j]) + Width(t[j])
  {
    assert t[i..k] == t[i..j] + t[j..k];
    SizeOfConcat(t[i..j], t[j..k]);
    if j < k {
      assert t[j..k] == [t[j]] + t[j + 1..k];
      SizeOfConcat([t[j]], t[j + 1..k]);
      assert Utf8Size([t[j]]) == Width(t[j]) by { SizeOfOneMore([], t[j]); assert [] + [t[j]] == [t[j]]; }
    }
  }

  lemma SliceOfSlice<T>(t: seq<T>, a: nat, b: nat, i: nat, j: nat)
    requires a <= b <= |t| && i <= j <= b - a
    ensures t[a..b][i..j] == t[a + i..a + j]
  {
    var s := t[a..b];
    assert forall k :: 0 <= k < j - i ==> s[i..j][k] == s[i + k] == t[a + i + k];
  }

  lemma SameEnds<T>(a: seq<T>, b: seq<T>)
    requires |a| == |b| > 0
    requires a[..|a| - 1] == b[..|b| - 1] && a[|a| - 1] == b[|b| - 1]
    ensures a == b
  {
    assert a == a[..|a| - 1] + [a[|a| - 1]];
    assert b == b[..|b| - 1] + [b[|b| - 1]];
  }
}
