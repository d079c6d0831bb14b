/** Byte strings and the two ways the gateway cuts padding off a text field. */
module Bytes {

  type byte = x: int | 0 <= x < 256
  type word = x: int | 0 <= x < 65536

  function Word(hi: byte, lo: byte): word {
    var h: int := hi;
    h * 256 + lo
  }

  const NUL: byte := 0
  const SPACE: byte := 0x20

  /** `strings.TrimRight`: the shortest prefix whose removal strips only bytes of `cutset`. */
  function TrimRight(s: seq<byte>, cutset: set<byte>): (r: seq<byte>)
    ensures |r| <= |s| && r == s[..|r|]
    ensures forall i :: |r| <= i < |s| ==> s[i] in cutset
    ensures r == [] || r[|r| - 1] !in cutset
  {
    if s == [] || s[|s| - 1] !in cutset then s
    else
      var r := TrimRight(s[..|s| - 1], cutset);
      assert r == s[..|s| - 1][..|r|];
      r
  }

  /** The text before the first NUL. */
  function UpToNul(s: seq<byte>): (r: seq<byte>)
    ensures |r| <= |s| && r == s[..|r|]
    ensures NUL !in r
    ensures |r| < |s| ==> s[|r|] == NUL
  {
    if s == [] || s[0] == NUL then [] else [s[0]] + UpToNul(s[1..])
  }

  ghost predicate AllIn(s: seq<byte>, cutset: set<byte>) {
    forall i :: 0 <= i < |s| ==> s[i] in cutset
  }

  /** Trimming removes exactly the padding: the result is the one prefix that does not end
      in padding and is followed by padding only. */
  lemma TrimRightUnique(s: seq<byte>, r: seq<byte>, cutset: set<byte>)
    ensures TrimRight(s, cutset) == r
      <==> r <= s && AllIn(s[|r|..], cutset) && (r == [] || r[|r| - 1] !in cutset)
  {
    var t := TrimRight(s, cutset);
    assert forall n, i :: 0 <= n <= i < |s| ==> s[n..][i - n] == s[i];
    if r <= s && AllIn(s[|r|..], cutset) && (r == [] || r[|r| - 1] !in cutset) {
      assert forall i :: |r| <= i < |s| ==> s[i] == s[|r|..][i - |r|];
      assert |r| == |t|;
    }
  }

  lemma UpToNulUnique(s: seq<byte>, r: seq<byte>)
    ensures UpToNul(s) == r <==> r <= s && NUL !in r && (|r| < |s| ==> s[|r|] == NUL)
  {
    var t := UpToNul(s);
    assert forall i :: 0 <= i < |t| ==> s[i] == t[i] && t[i] in t;
    if r <= s && NUL !in r && (|r| < |s| ==> s[|r|] == NUL) {
      assert |r| == |t|;
    }
  }
}
