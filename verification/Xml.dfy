/** The McPAT description as a tree: tags, the three attributes the tools look at, and children. */
module Xml {
  import opened Wrappers

  datatype Tag = Comment | Param | Stat | Component

  datatype Elem = Elem(tag: Tag, name: Option<string>, id: Option<string>, value: Option<string>, kids: seq<Elem>)

  function Components(es: seq<Elem>): (cs: seq<Elem>)
    ensures |cs| <= |es|
  {
    if es == [] then []
    else (if es[0].tag == Component then [es[0]] else []) + Components(es[1..])
  }

  lemma {:induction false} ComponentsConcat(a: seq<Elem>, b: seq<Elem>)
    ensures Components(a + b) == Components(a) + Components(b)
  {
    if a == [] {
      assert a + b == b;
    } else {
      assert (a + b)[1..] == a[1..] + b;
      ComponentsConcat(a[1..], b);
      var first := if a[0].tag == Component then [a[0]] else [];
      assert Components(a + b) == first + Components(a[1..] + b);
      assert Components(a) == first + Components(a[1..]);
    }
  }
}
