/** Order-insensitive change detection, and the state keys it invalidates. */
module StateInvalidation {

  // ----- sorting -----

  type Order = (string, string) -> bool

  /** `leq(x, y)` is x.localeCompare(y) <= 0; distinct strings may tie. */
  ghost predicate TotalPreorder(leq: Order) {
    && (forall x, y :: leq(x, y) || leq(y, x))
    && (forall x, y, z :: leq(x, y) && leq(y, z) ==> leq(x, z))
  }

  ghost predicate Antisymmetric(leq: Order) {
    forall x, y :: leq(x, y) && leq(y, x) ==> x == y
  }

  predicate Tied(leq: Order, x: string, y: string) {
    leq(x, y) && leq(y, x)
  }

  function Insert(leq: Order, x: string, s: seq<string>): seq<string> {
    if s == [] || leq(x, s[0]) then [x] + s else [s[0]] + Insert(leq, x, s[1..])
  }

  /** A stable sort: tied strings keep their order. */
  function Sort(leq: Order, s: seq<string>): (r: seq<string>)
  {
    if s == [] then [] else Insert(leq, s[0], Sort(leq, s[1..]))
  }

  /** The items tied with `x`, in order. */
  function TiedWith(leq: Order, s: seq<string>, x: string): seq<string> {
    if s == [] then [] else (if Tied(leq, s[0], x) then [s[0]] else []) + TiedWith(leq, s[1..], x)
  }

  ghost predicate Sorted(leq: Order, s: seq<string>) {
    forall i, j :: 0 <= i < j < |s| ==> leq(s[i], s[j])
  }

  lemma {:induction false} InsertAdds(leq: Order, x: string, s: seq<string>)
    ensures multiset(Insert(leq, x, s)) == multiset(s) + multiset{x}
  {
    if s != [] && !leq(x, s[0]) {
      InsertAdds(leq, x, s[1..]);
      assert s == [s[0]] + s[1..];
    }
  }

  lemma {:induction false} InsertSorts(leq: Order, x: string, s: seq<string>)
    requires TotalPreorder(leq) && Sorted(leq, s)
    ensures Sorted(leq, Insert(leq, x, s))
  {
    if s != [] && !leq(x, s[0]) {
      var rest := Insert(leq, x, s[1..]);
      InsertSorts(leq, x, s[1..]);
      InsertAdds(leq, x, s[1..]);
      forall i | 0 <= i < |rest| ensures leq(s[0], rest[i]) {
        assert rest[i] in multiset(rest);
        if rest[i] != x {
          var j :| 0 <= j < |s[1..]| && s[1..][j] == rest[i];
        }
      }
    }
  }

  lemma OrderIsTransitive(leq: Order, x: string, y: string, z: string)
    requires TotalPreorder(leq)
    ensures leq(x, y) && leq(y, z) ==> leq(x, z)
  {
  }

  lemma TiedWithHead(leq: Order, x: string, s: seq<string>, y: string)
    ensures TiedWith(leq, [x] + s, y) == (if Tied(leq, x, y) then [x] else []) + TiedWith(leq, s, y)
  {
    assert ([x] + s)[1..] == s;
  }

  /** An inserted item goes before the items it ties with. */
  lemma {:induction false} InsertIsStable(leq: Order, x: string, s: seq<string>, y: string)
    requires TotalPreorder(leq)
    ensures TiedWith(leq, Insert(leq, x, s), y) == (if Tied(leq, x, y) then [x] else []) + TiedWith(leq, s, y)
  {
    hide TotalPreorder, TiedWith;
    if s == [] || leq(x, s[0]) {
      TiedWithHead(leq, x, s, y);
    } else {
      var rest := Insert(leq, x, s[1..]);
      InsertIsStable(leq, x, s[1..], y);
      TiedWithHead(leq, s[0], rest, y);
      TiedWithHead(leq, s[0], s[1..], y);
      assert s == [s[0]] + s[1..];
      OrderIsTransitive(leq, x, y, s[0]);
    }
  }

  lemma {:induction false} SortSorts(leq: Order, s: seq<string>)
    requires TotalPreorder(leq)
    ensures Sorted(leq, Sort(leq, s)) && multiset(Sort(leq, s)) == multiset(s)
  {
    if s != [] {
      SortSorts(leq, s[1..]);
      InsertSorts(leq, s[0], Sort(leq, s[1..]));
      InsertAdds(leq, s[0], Sort(leq, s[1..]));
      assert s == [s[0]] + s[1..];
    }
  }

  lemma {:induction false} SortIsStable(leq: Order, s: seq<string>, y: string)
    requires TotalPreorder(leq)
    ensures TiedWith(leq, Sort(leq, s), y) == TiedWith(leq, s, y)
  {
    if s != [] {
      SortIsStable(leq, s[1..], y);
      InsertIsStable(leq, s[0], Sort(leq, s[1..]), y);
    }
  }

  lemma {:induction false} TiedAreListed(leq: Order, s: seq<string>, x: string)
    ensures forall y :: y in TiedWith(leq, s, x) <==> y in s && Tied(leq, y, x)
  {
    if s != [] {
      TiedAreListed(leq, s[1..], x);
      assert s == [s[0]] + s[1..];
    }
  }

  lemma HeadsAgree(leq: Order, s: seq<string>, t: seq<string>)
    requires TotalPreorder(leq) && Sorted(leq, s) && Sorted(leq, t) && s != []
    requires TiedWith(leq, s, s[0]) == TiedWith(leq, t, s[0])
    requires t != [] ==> TiedWith(leq, s, t[0]) == TiedWith(leq, t, t[0])
    ensures t != [] && s[0] == t[0]
  {
    TiedAreListed(leq, t, s[0]);
    assert leq(s[0], s[0]) && s[0] in TiedWith(leq, s, s[0]);
    var i :| 0 <= i < |t| && t[i] == s[0];
    TiedAreListed(leq, s, t[0]);
    assert leq(t[0], t[0]) && t[0] in TiedWith(leq, t, t[0]);
    var j :| 0 <= j < |s| && s[j] == t[0];
    assert leq(t[0], s[0]) && leq(s[0], t[0]);
    assert TiedWith(leq, s, s[0])[0] == s[0] && TiedWith(leq, t, s[0])[0] == t[0];
  }

  lemma HeadIsTied(leq: Order, t: seq<string>)
    requires TotalPreorder(leq)
    ensures t != [] ==> t[0] in TiedWith(leq, t, t[0])
  {
    if t != [] {
      assert leq(t[0], t[0]);
      TiedAreListed(leq, t, t[0]);
    }
  }

  /** A sorted list is determined by the order of its tied items. */
  lemma {:induction false} SortedAreEqual(leq: Order, s: seq<string>, t: seq<string>)
    requires TotalPreorder(leq) && Sorted(leq, s) && Sorted(leq, t)
    requires forall x :: TiedWith(leq, s, x) == TiedWith(leq, t, x)
    ensures s == t
  {
    HeadIsTied(leq, t);
    if s != [] {
      HeadsAgree(leq, s, t);
      forall x ensures TiedWith(leq, s[1..], x) == TiedWith(leq, t[1..], x) {
        var head := if Tied(leq, s[0], x) then [s[0]] else [];
        assert TiedWith(leq, s, x) == head + TiedWith(leq, s[1..], x);
        assert TiedWith(leq, t, x) == head + TiedWith(leq, t[1..], x);
        assert TiedWith(leq, s[1..], x) == TiedWith(leq, s, x)[|head|..];
        assert TiedWith(leq, t[1..], x) == TiedWith(leq, t, x)[|head|..];
      }
      SortedAreEqual(leq, s[1..], t[1..]);
      assert s == [s[0]] + s[1..] && t == [t[0]] + t[1..];
    }
  }

  // ----- change detection -----

  /** Arrays of strings, NaN, and every other value, compared by identity. */
  datatype Value = Items(items: seq<string>) | NaN | Plain(id: string)

  function HasChanged(leq: Order, a: Value, b: Value): bool {
    if a.Items? && b.Items? then |a.items| != |b.items| || Sort(leq, a.items) != Sort(leq, b.items)
    else a == NaN || a != b
  }

  /** Only NaN ever differs from itself, the order of the arguments does not matter, and an array differs from anything
      that is not one. */
  lemma ChangeIsSymmetric(leq: Order, a: Value, b: Value)
    ensures HasChanged(leq, a, a) <==> a == NaN
    ensures HasChanged(leq, a, b) == HasChanged(leq, b, a)
    ensures a.Items? != b.Items? ==> HasChanged(leq, a, b)
    ensures a.Plain? && b.Plain? ==> (HasChanged(leq, a, b) <==> a.id != b.id)
  {
  }

  ghost predicate SameTies(leq: Order, a: seq<string>, b: seq<string>) {
    forall x :: TiedWith(leq, a, x) == TiedWith(leq, b, x)
  }

  lemma SortKeepsTies(leq: Order, a: seq<string>, b: seq<string>)
    requires TotalPreorder(leq)
    ensures SameTies(leq, Sort(leq, a), Sort(leq, b)) <==> SameTies(leq, a, b)
  {
    forall x
      ensures TiedWith(leq, Sort(leq, a), x) == TiedWith(leq, a, x)
      ensures TiedWith(leq, Sort(leq, b), x) == TiedWith(leq, b, x)
    {
      SortIsStable(leq, a, x);
      SortIsStable(leq, b, x);
    }
  }

  /** Two arrays count as unchanged exactly when every group of tied strings occurs in the same order in both. */
  lemma UnchangedMeansSameTies(leq: Order, a: seq<string>, b: seq<string>)
    requires TotalPreorder(leq)
    ensures !HasChanged(leq, Items(a), Items(b)) <==> SameTies(leq, a, b)
  {
    SortKeepsTies(leq, a, b);
    SortSorts(leq, a);
    SortSorts(leq, b);
    assert |a| == |multiset(a)| == |Sort(leq, a)| && |b| == |multiset(b)| == |Sort(leq, b)|;
    if SameTies(leq, a, b) {
      SortedAreEqual(leq, Sort(leq, a), Sort(leq, b));
    }
  }

  lemma {:induction false} TiesAreCopies(leq: Order, s: seq<string>, x: string)
    requires TotalPreorder(leq) && Antisymmetric(leq)
    ensures |TiedWith(leq, s, x)| == multiset(s)[x]
    ensures forall i :: 0 <= i < |TiedWith(leq, s, x)| ==> TiedWith(leq, s, x)[i] == x
  {
    if s != [] {
      TiesAreCopies(leq, s[1..], x);
      assert s == [s[0]] + s[1..];
      assert leq(x, x);
    }
  }

  /** When no two distinct strings tie, unchanged means permuted. */
  lemma UnchangedMeansPermuted(leq: Order, a: seq<string>, b: seq<string>)
    requires TotalPreorder(leq) && Antisymmetric(leq)
    ensures !HasChanged(leq, Items(a), Items(b)) <==> multiset(a) == multiset(b)
  {
    UnchangedMeansSameTies(leq, a, b);
    forall x ensures multiset(a)[x] == multiset(b)[x] <==> TiedWith(leq, a, x) == TiedWith(leq, b, x) {
      TiesAreCopies(leq, a, x);
      TiesAreCopies(leq, b, x);
    }
  }

  // ----- invalidation -----

  datatype Cleared = Undefined

  function BuildInvalidatedState(leq: Order, previous: Value, next: Value, invalidates: seq<string>)
    : map<string, Cleared>
  {
    if invalidates == [] || !HasChanged(leq, previous, next) then map[]
    else map key | key in invalidates :: Undefined
  }

  /** Nothing to report: two arrays whose tied groups occur in the same order, or two other equal values except NaN. */
  ghost predicate Unchanged(leq: Order, a: Value, b: Value) {
    if a.Items? && b.Items? then SameTies(leq, a.items, b.items) else a == b != NaN
  }

  /** For every collation and every pair of values the patch clears exactly the listed keys if something changed, and
      nothing otherwise; for arrays whose distinct strings never tie, "changed" means that they are not permutations. */
  lemma PatchCoversListedKeys(leq: Order, a: Value, b: Value, invalidates: seq<string>)
    requires TotalPreorder(leq)
    ensures forall key :: key in BuildInvalidatedState(leq, a, b, invalidates)
              <==> key in invalidates && !Unchanged(leq, a, b)
    ensures Antisymmetric(leq) && a.Items? && b.Items? ==>
              (Unchanged(leq, a, b) <==> multiset(a.items) == multiset(b.items))
  {
    if a.Items? && b.Items? {
      UnchangedMeansSameTies(leq, a.items, b.items);
      if Antisymmetric(leq) {
        UnchangedMeansPermuted(leq, a.items, b.items);
      }
    }
  }

  /** Two tied strings swapped count as a change although nothing but the order differs. */
  lemma SwappedTiesCountAsChange(leq: Order, x: string, y: string)
    requires TotalPreorder(leq) && Tied(leq, x, y) && x != y
    ensures HasChanged(leq, Items([x, y]), Items([y, x])) && multiset([x, y]) == multiset([y, x])
  {
    UnchangedMeansSameTies(leq, [x, y], [y, x]);
    assert leq(x, x) && leq(y, y);
    assert TiedWith(leq, [x, y], x)[0] == x;
    assert TiedWith(leq, [y, x], x)[0] == y;
    assert !SameTies(leq, [x, y], [y, x]);
  }

  /** Change detection ignores order, and nothing else, under this collation. */
  ghost predicate DetectsPermutations(leq: Order) {
    forall a, b :: HasChanged(leq, Items(a), Items(b)) <==> multiset(a) != multiset(b)
  }

  /** For all arrays "unchanged" means "permuted" exactly if the collation ties no two distinct strings. */
  lemma PermutationsAreDetectedExactlyWhen(leq: Order)
    requires TotalPreorder(leq)
    ensures DetectsPermutations(leq) <==> Antisymmetric(leq)
  {
    hide TotalPreorder, HasChanged;
    if DetectsPermutations(leq) {
      forall x, y | leq(x, y) && leq(y, x) ensures x == y {
        if x != y {
          SwappedTiesCountAsChange(leq, x, y);
          assert false;
        }
      }
    }
    if Antisymmetric(leq) {
      forall a, b ensures HasChanged(leq, Items(a), Items(b)) <==> multiset(a) != multiset(b) {
        UnchangedMeansPermuted(leq, a, b);
      }
    }
  }
}
