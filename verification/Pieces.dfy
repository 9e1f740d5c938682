/** Texts put together from pieces. */
module Pieces {
  import opened SafeText

  /** Pieces one after another. */
  function Flat(pieces: seq<string>): string {
    if pieces == [] then "" else pieces[0] + Flat(pieces[1..])
  }

  lemma FlatCons(a: string, rest: seq<string>)
    ensures Flat([a] + rest) == a + Flat(rest)
  {
    assert ([a] + rest)[1..] == rest;
  }

  lemma {:induction false} FlatAppend(a: seq<string>, b: seq<string>)
    ensures Flat(a + b) == Flat(a) + Flat(b)
  {
    if a == [] {
      assert a + b == b;
    } else {
      FlatAppend(a[1..], b);
      assert (a + b)[1..] == a[1..] + b;
      ConcatAssoc(a[0], Flat(a[1..]), Flat(b));
    }
  }

  lemma FlatTwo(a: string, b: string)
    ensures Flat([a, b]) == a + b
  {
    FlatCons(b, []);
    FlatCons(a, [b]);
    assert [a] + [b] == [a, b] && [b] + [] == [b];
    assert b + "" == b;
  }

  lemma FlatThree(a: string, b: string, c: string)
    ensures Flat([a, b, c]) == a + (b + c)
  {
    FlatTwo(b, c);
    FlatCons(a, [b, c]);
    assert [a] + [b, c] == [a, b, c];
  }

  lemma FlatFour(a: string, b: string, c: string, d: string)
    ensures Flat([a, b, c, d]) == a + b + c + d
  {
    FlatTwo(a, b);
    FlatTwo(c, d);
    FlatAppend([a, b], [c, d]);
    assert [a, b] + [c, d] == [a, b, c, d];
    ConcatAssoc(a + b, c, d);
  }
}
