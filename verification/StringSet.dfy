/** An ordered set of strings, as the ascending sequence of its elements. */
module StringSet {
  import opened Text

  predicate Ascending(s: seq<string>) {
    forall i, j :: 0 <= i < j < |s| ==> LexGreater(s[j], s[i])
  }

  function Insert(s: seq<string>, x: string): seq<string> {
    if s == [] then [x]
    else if x == s[0] then s
    else if LexGreater(s[0], x) then [x] + s
    else [s[0]] + Insert(s[1..], x)
  }

  predicate Above(x: string, s: seq<string>) {
    forall i :: 0 <= i < |s| ==> LexGreater(s[i], x)
  }

  lemma AscendingCons(x: string, s: seq<string>)
    ensures Ascending([x] + s) <==> Above(x, s) && Ascending(s)
  {
    if Ascending([x] + s) {
      forall i | 0 <= i < |s| ensures LexGreater(s[i], x) {
        assert ([x] + s)[i + 1] == s[i] && ([x] + s)[0] == x;
      }
      forall i, j | 0 <= i < j < |s| ensures LexGreater(s[j], s[i]) {
        assert ([x] + s)[i + 1] == s[i] && ([x] + s)[j + 1] == s[j];
      }
    }
  }

  lemma AboveIsTransitive(x: string, y: string, s: seq<string>)
    requires LexGreater(y, x) && Above(y, s)
    ensures Above(x, [y] + s)
  {
    forall i | 0 <= i < |s| ensures LexGreater(s[i], x) {
      LexTransitive(s[i], y, x);
    }
  }

  lemma InsertKeepsAbove(low: string, s: seq<string>, x: string)
    requires Above(low, s) && LexGreater(x, low) && (forall y :: y in Insert(s, x) ==> y in s || y == x)
    ensures Above(low, Insert(s, x))
  {
    forall i | 0 <= i < |Insert(s, x)| ensures LexGreater(Insert(s, x)[i], low) {
      assert Insert(s, x)[i] in Insert(s, x);
    }
  }

  /** Inserting keeps the order and adds exactly the one element. */
  lemma {:induction false} InsertShape(s: seq<string>, x: string)
    requires Ascending(s)
    ensures Ascending(Insert(s, x)) && forall y :: y in Insert(s, x) <==> y in s || y == x
  {
    if s != [] {
      var low, rest := s[0], s[1..];
      assert s == [low] + rest;
      AscendingCons(low, rest);
      if x != low {
        LexAsymmetric(low, x);
        if LexGreater(low, x) {
          AboveIsTransitive(x, low, rest);
          AscendingCons(x, s);
        } else {
          InsertShape(rest, x);
          InsertKeepsAbove(low, rest, x);
          AscendingCons(low, Insert(rest, x));
        }
      }
    }
  }

  lemma FirstIsLeast(a: seq<string>, b: seq<string>)
    requires Ascending(a) && Ascending(b) && a != [] && b != [] && a[0] in b && b[0] in a
    ensures a[0] == b[0]
  {
    var i :| 0 <= i < |b| && b[i] == a[0];
    var j :| 0 <= j < |a| && a[j] == b[0];
    LexAsymmetric(a[0], b[0]);
  }

  lemma RestLacksFirst(a: seq<string>)
    requires Ascending(a) && a != []
    ensures a[0] !in a[1..] && Ascending(a[1..])
  {
    LexAsymmetric(a[0], a[0]);
  }

  lemma SomeElement(b: seq<string>)
    ensures b != [] ==> exists y :: y in b
  {
    if b != [] {
      assert b[0] in b;
    }
  }

  /** The elements settle the sequence. */
  lemma {:induction false} AscendingUnique(a: seq<string>, b: seq<string>)
    requires Ascending(a) && Ascending(b) && forall y :: y in a <==> y in b
    ensures a == b
  {
    if a == [] {
      SomeElement(b);
    } else {
      assert a[0] in b;
      FirstIsLeast(a, b);
      RestLacksFirst(a);
      RestLacksFirst(b);
      assert a == [a[0]] + a[1..] && b == [b[0]] + b[1..];
      forall y ensures y in a[1..] <==> y in b[1..] {
        assert y in a <==> y == a[0] || y in a[1..];
        assert y in b <==> y == b[0] || y in b[1..];
      }
      AscendingUnique(a[1..], b[1..]);
    }
  }

  /** The elements in ascending order. */
  method InOrder(elements: set<string>) returns (s: seq<string>)
    ensures Ascending(s) && forall y :: y in s <==> y in elements
  {
    s := [];
    var left := elements;
    while left != {}
      invariant left <= elements && Ascending(s)
      invariant forall y :: y in s <==> y in elements && y !in left
      decreases left
    {
      var x :| x in left;
      InsertShape(s, x);
      s := Insert(s, x);
      left := left - {x};
    }
  }
}
