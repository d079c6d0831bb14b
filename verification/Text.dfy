/** Dot-separated text: splitting at every dot and joining with dots are inverse. */
module Text {

  const DOT: char := '.'

  predicate DotFree(s: string) {
    DOT !in s
  }

  /** The pieces of `s` between its dots, as `strings.Split(s, ".")` returns them. */
  function Split(s: string): (parts: seq<string>)
    ensures parts != []
  {
    if s == "" then [""]
    else
      var rest := Split(s[1..]);
      if s[0] == DOT then [""] + rest else Prepend(s[0], rest)
  }

  function Prepend(c: char, parts: seq<string>): (r: seq<string>)
    requires parts != []
    ensures |r| == |parts| && r[0] == [c] + parts[0] && r[1..] == parts[1..]
  {
    [[c] + parts[0]] + parts[1..]
  }

  function Join(parts: seq<string>): string {
    if parts == [] then ""
    else if |parts| == 1 then parts[0]
    else parts[0] + "." + Join(parts[1..])
  }

  /** A dot separates what comes before it from what comes after it. */
  lemma {:induction false} SplitAtDot(a: string, b: string)
    ensures Split(a + "." + b) == Split(a) + Split(b)
  {
    var s := a + "." + b;
    if a == "" {
      assert s[1..] == b;
    } else {
      SplitAtDot(a[1..], b);
      assert s[1..] == a[1..] + "." + b && s[0] == a[0];
      var rest := Split(a[1..]);
      assert [""] + (rest + Split(b)) == ([""] + rest) + Split(b);
      assert Prepend(a[0], rest + Split(b)) == Prepend(a[0], rest) + Split(b);
    }
  }

  lemma {:induction false} SplitDotFree(s: string)
    ensures DotFree(s) <==> Split(s) == [s]
    ensures !DotFree(s) ==> |Split(s)[0]| < |s|
  {
    if s != "" {
      SplitDotFree(s[1..]);
      assert s == [s[0]] + s[1..];
      assert DotFree(s) <==> s[0] != DOT && DotFree(s[1..]);
    }
  }

  lemma {:induction false} SplitPieces(s: string)
    ensures forall p :: p in Split(s) ==> DotFree(p)
    ensures |Split(s)| == multiset(s)[DOT] + 1
  {
    if s != "" {
      SplitPieces(s[1..]);
      assert s == [s[0]] + s[1..];
      var rest := Split(s[1..]);
      assert rest == [rest[0]] + rest[1..] && rest[0] in rest;
    }
  }

  lemma {:induction false} JoinSplit(s: string)
    ensures Join(Split(s)) == s
  {
    if s != "" {
      JoinSplit(s[1..]);
      var rest := Split(s[1..]);
      if s[0] == DOT {
        assert ([""] + rest)[1..] == rest;
      } else if |rest| > 1 {
        assert Join(Prepend(s[0], rest)) == ([s[0]] + rest[0]) + "." + Join(rest[1..]);
        assert Join(rest) == rest[0] + "." + Join(rest[1..]);
      }
    }
  }

  lemma {:induction false} SplitJoin(parts: seq<string>)
    requires parts != [] && forall p :: p in parts ==> DotFree(p)
    ensures Split(Join(parts)) == parts
  {
    SplitDotFree(parts[0]);
    if |parts| > 1 {
      SplitJoin(parts[1..]);
      SplitAtDot(parts[0], Join(parts[1..]));
    }
  }

  /** The dot-free pieces that join to `s` are its split and no other. */
  lemma SplitUnique(s: string, parts: seq<string>)
    ensures parts == Split(s) <==> parts != [] && (forall p :: p in parts ==> DotFree(p)) && Join(parts) == s
  {
    SplitPieces(s);
    JoinSplit(s);
    if parts != [] && (forall p :: p in parts ==> DotFree(p)) && Join(parts) == s {
      SplitJoin(parts);
    }
  }
}
