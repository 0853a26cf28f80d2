/** How concatenated sequences regroup and come apart again. */
module Texts {

  lemma Regroup<X>(a: seq<X>, b: seq<X>, c: seq<X>)
    ensures a + b + c == a + (b + c)
  {
  }

  lemma Parts<X>(a: seq<X>, b: seq<X>)
    ensures (a + b)[..|a|] == a && (a + b)[|a|..] == b
  {
  }

  lemma Rejoined<X>(a: seq<X>, n: nat)
    requires n <= |a|
    ensures a[..n] + a[n..] == a
  {
  }

  lemma Front<X>(a: seq<X>, b: seq<X>)
    requires a != []
    ensures (a + b)[0] == a[0] && (a + b)[1..] == a[1..] + b
  {
  }

  lemma Behind<X>(first: X, b: seq<X>)
    ensures ([first] + b)[0] == first && ([first] + b)[1..] == b
  {
  }

  lemma PrefixGrows<X>(a: seq<X>, b: seq<X>, c: seq<X>)
    ensures a + b <= a + (b + c)
  {
    Regroup(a, b, c);
  }

  lemma NothingBefore<X>(a: seq<X>)
    ensures [] + a == a
  {
  }

  lemma NothingAfter<X>(a: seq<X>)
    ensures a + [] == a
  {
  }
}
