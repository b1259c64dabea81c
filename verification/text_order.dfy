/** The order strings sort in. */
module TextOrder {
  /** Byte order of UTF-8 text, which is the code point order of its characters. */
  predicate TextLess(a: string, b: string) {
    if b == [] then false
    else if a == [] then true
    else a[0] < b[0] || (a[0] == b[0] && TextLess(a[1..], b[1..]))
  }

  lemma {:induction false} TextLessTotal(a: string, b: string)
    ensures TextLess(a, b) || a == b || TextLess(b, a)
    ensures !(TextLess(a, b) && (a == b || TextLess(b, a)))
  {
    if a != [] && b != [] {
      TextLessTotal(a[1..], b[1..]);
      assert a == [a[0]] + a[1..] && b == [b[0]] + b[1..];
    }
  }

  lemma {:induction false} TextLessTransitive(a: string, b: string, c: string)
    requires TextLess(a, b) && TextLess(b, c)
    ensures TextLess(a, c)
  {
    if a != [] && a[0] == b[0] && b[0] == c[0] {
      TextLessTransitive(a[1..], b[1..], c[1..]);
    }
  }

  predicate Smallest(ids: set<string>, id: string) {
    id in ids && forall other | other in ids :: other == id || TextLess(id, other)
  }

  lemma {:induction false} SmallestExists(ids: set<string>)
    requires ids != {}
    ensures exists id :: Smallest(ids, id)
  {
    var some :| some in ids;
    var rest := ids - {some};
    assert ids == rest + {some};
    if rest == {} {
      assert Smallest(ids, some);
    } else {
      SmallestExists(rest);
      var id :| Smallest(rest, id);
      SmallestOfBoth(rest, id, some);
    }
  }

  lemma SmallestOfBoth(rest: set<string>, id: string, some: string)
    requires Smallest(rest, id) && some !in rest
    ensures Smallest(rest + {some}, if TextLess(some, id) then some else id)
  {
    TextLessTotal(id, some);
    if TextLess(some, id) {
      forall other | other in rest ensures TextLess(some, other) {
        if other != id {
          TextLessTransitive(some, id, other);
        }
      }
    }
  }
}
