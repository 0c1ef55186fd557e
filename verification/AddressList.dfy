/**
  The list of local addresses given to the transport: sorted by their
  bytes, without duplicates (browser_runtime/node.rs).
 */
module AddressList {
  import opened Prelude
  import opened Addr

  function Insert(x: CustomAddr, ys: seq<CustomAddr>): seq<CustomAddr>
    decreases |ys|
  {
    if ys == [] || !LexLess(ys[0].data, x.data) then [x] + ys else [ys[0]] + Insert(x, ys[1..])
  }

  /** `sort_by` on the address bytes. */
  function SortedByData(xs: seq<CustomAddr>): seq<CustomAddr>
    decreases |xs|
  {
    if xs == [] then [] else Insert(xs[0], SortedByData(xs[1..]))
  }

  /** `dedup`: of equal neighbours one stays. */
  function Deduped(xs: seq<CustomAddr>): seq<CustomAddr>
    decreases |xs|
  {
    if |xs| < 2 then xs
    else if xs[0] == xs[1] then Deduped(xs[1..])
    else [xs[0]] + Deduped(xs[1..])
  }

  /** Nothing in `ys` comes before `x`. */
  ghost predicate First(x: CustomAddr, ys: seq<CustomAddr>) {
    forall y :: y in ys ==> !LexLess(y.data, x.data)
  }

  ghost predicate Ascending(xs: seq<CustomAddr>)
    decreases |xs|
  {
    xs == [] || (First(xs[0], xs[1..]) && Ascending(xs[1..]))
  }

  /** Each address comes strictly before all behind it. */
  ghost predicate StrictlyAscending(xs: seq<CustomAddr>)
    decreases |xs|
  {
    xs == [] || ((forall y :: y in xs[1..] ==> LexLess(xs[0].data, y.data)) && StrictlyAscending(xs[1..]))
  }

  function Elements<T(==)>(xs: seq<T>): set<T> {
    set x | x in xs
  }

  lemma HeadAndTail<T>(xs: seq<T>)
    requires xs != []
    ensures xs == [xs[0]] + xs[1..]
    ensures forall x :: x in xs <==> x == xs[0] || x in xs[1..]
  {
  }

  lemma {:induction false} InsertKeepsOrder(x: CustomAddr, ys: seq<CustomAddr>)
    requires Ascending(ys)
    ensures Ascending(Insert(x, ys))
    ensures forall y :: y in Insert(x, ys) <==> y == x || y in ys
    decreases |ys|
  {
    if ys == [] {
    } else if !LexLess(ys[0].data, x.data) {
      HeadAndTail(ys);
      assert ([x] + ys)[1..] == ys;
      forall y | y in ys
        ensures !LexLess(y.data, x.data)
      {
        NotBefore(y.data, ys[0].data, x.data);
      }
    } else {
      HeadAndTail(ys);
      InsertKeepsOrder(x, ys[1..]);
      var rest := Insert(x, ys[1..]);
      assert ([ys[0]] + rest)[1..] == rest;
      LexTotal(ys[0].data, x.data);
    }
  }

  /** "Not before" is transitive as well. */
  lemma NotBefore(a: seq<Byte>, b: seq<Byte>, c: seq<Byte>)
    requires a == b || !LexLess(a, b)
    requires !LexLess(b, c)
    ensures !LexLess(a, c)
  {
    LexTotal(a, b);
    LexTotal(b, c);
    if LexLess(a, c) && LexLess(b, a) {
      LexTransitive(b, a, c);
    }
  }

  lemma {:induction false} SortingSorts(xs: seq<CustomAddr>)
    ensures Ascending(SortedByData(xs))
    ensures forall x :: x in SortedByData(xs) <==> x in xs
    decreases |xs|
  {
    if xs != [] {
      HeadAndTail(xs);
      SortingSorts(xs[1..]);
      InsertKeepsOrder(xs[0], SortedByData(xs[1..]));
    }
  }

  /** Addresses of the same transport are told apart by their bytes. */
  ghost predicate SameTransport(xs: seq<CustomAddr>) {
    forall x :: x in xs ==> x.id == WEBRTC_TRANSPORT_ID
  }

  lemma {:induction false} DedupingDedups(xs: seq<CustomAddr>)
    requires Ascending(xs) && SameTransport(xs)
    ensures StrictlyAscending(Deduped(xs))
    ensures forall x :: x in Deduped(xs) <==> x in xs
    decreases |xs|
  {
    if |xs| >= 2 {
      HeadAndTail(xs);
      DedupingDedups(xs[1..]);
      if xs[0] != xs[1] {
        var rest := Deduped(xs[1..]);
        assert ([xs[0]] + rest)[1..] == rest;
        LexTotal(xs[0].data, xs[1].data);
        forall y | y in xs[1..]
          ensures LexLess(xs[0].data, y.data)
        {
          HeadAndTail(xs[1..]);
          LexTotal(xs[1].data, y.data);
          if LexLess(xs[1].data, y.data) {
            LexTransitive(xs[0].data, xs[1].data, y.data);
          }
        }
      }
    }
  }

  /** The list is settled by its elements: the order they were collected in does not matter. */
  lemma {:induction false} ListIsUnique(xs: seq<CustomAddr>, ys: seq<CustomAddr>)
    requires StrictlyAscending(xs) && StrictlyAscending(ys) && (forall x :: x in xs <==> x in ys)
    ensures xs == ys
    decreases |xs|
  {
    FirstIsIn(xs);
    FirstIsIn(ys);
    if xs != [] {
      HeadAndTail(xs);
      HeadAndTail(ys);
      LexTotal(xs[0].data, ys[0].data);
      NotInTail(xs);
      NotInTail(ys);
      ListIsUnique(xs[1..], ys[1..]);
    }
  }

  lemma FirstIsIn<T>(xs: seq<T>)
    ensures xs != [] ==> xs[0] in xs
  {
  }

  lemma NotInTail(xs: seq<CustomAddr>)
    requires StrictlyAscending(xs) && xs != []
    ensures xs[0] !in xs[1..]
  {
    LexTotal(xs[0].data, xs[0].data);
  }
}
