/** Lists of actor IDs in the order sort.Strings gives them. */
module SortedNames {

  // Lexicographic order.
  predicate Below(a: string, b: string) {
    b != "" && (a == "" || a[0] < b[0] || (a[0] == b[0] && Below(a[1..], b[1..])))
  }

  // k is where a and b part: a ends there, or goes on with the smaller character.
  predicate PartAt(a: string, b: string, k: nat) {
    && k <= |a| && k <= |b| && a[..k] == b[..k]
    && ((k == |a| && k < |b|) || (k < |a| && k < |b| && a[k] < b[k]))
  }

  ghost predicate Before(a: string, b: string) {
    exists k: nat :: PartAt(a, b, k)
  }

  /** What that order is: a comes before b exactly if a is a proper beginning of b, or has the
      smaller character where they first differ. */
  lemma {:induction false} BelowIsLexicographic(a: string, b: string)
    ensures Below(a, b) <==> Before(a, b)
  {
    if a != "" && b != "" && a[0] == b[0] {
      BelowIsLexicographic(a[1..], b[1..]);
      if k: nat :| PartAt(a[1..], b[1..], k) {
        assert a[..k + 1] == [a[0]] + a[1..][..k] && b[..k + 1] == [b[0]] + b[1..][..k];
        assert PartAt(a, b, k + 1);
      }
      if k: nat :| PartAt(a, b, k) {
        assert k > 0;
        assert a[1..][..k - 1] == a[..k][1..] && b[1..][..k - 1] == b[..k][1..];
        assert PartAt(a[1..], b[1..], k - 1);
      }
    } else if Below(a, b) {
      assert PartAt(a, b, 0);
    } else if k: nat :| PartAt(a, b, k) {
      SameBeginning(a, b, k);
    }
  }

  lemma SameBeginning(a: string, b: string, k: nat)
    requires PartAt(a, b, k)
    ensures k > 0 ==> a != "" && b != "" && a[0] == b[0]
    ensures k == 0 ==> Below(a, b)
  {
    if k > 0 {
      assert a[0] == a[..k][0] == b[..k][0] == b[0];
    }
  }

  lemma {:induction false} BelowIsTotal(a: string, b: string)
    ensures a == b || Below(a, b) || Below(b, a)
    ensures !(Below(a, b) && Below(b, a)) && !Below(a, a)
  {
    if a != "" && b != "" {
      BelowIsTotal(a[1..], b[1..]);
      assert a[0] == b[0] && a[1..] == b[1..] ==> a == [a[0]] + a[1..] == b;
    }
    if a != "" {
      BelowIsTotal(a[1..], a[1..]);
    }
  }

  lemma {:induction false} BelowIsTransitive(a: string, b: string, c: string)
    requires Below(a, b) && Below(b, c)
    ensures Below(a, c)
  {
    if a != "" && a[0] == b[0] == c[0] {
      BelowIsTransitive(a[1..], b[1..], c[1..]);
    }
  }

  ghost predicate StrictlySorted(xs: seq<string>) {
    forall i, j :: 0 <= i < j < |xs| ==> Below(xs[i], xs[j])
  }

  function Members(xs: seq<string>): set<string> {
    set x | x in xs
  }

  // Of two names in the list, the earlier one is a proper beginning of the later, or has the
  // smaller character where they first differ.
  ghost predicate Alphabetical(xs: seq<string>) {
    forall i, j :: 0 <= i < j < |xs| ==> Before(xs[i], xs[j])
  }

  lemma SortedIsAlphabetical(xs: seq<string>)
    ensures StrictlySorted(xs) <==> Alphabetical(xs)
  {
    hide Below, Before;
    forall i, j | 0 <= i < j < |xs| ensures Below(xs[i], xs[j]) <==> Before(xs[i], xs[j]) {
      BelowIsLexicographic(xs[i], xs[j]);
    }
  }

  // The names in order, each of them once.
  ghost predicate Lists(xs: seq<string>, names: set<string>) {
    StrictlySorted(xs) && Members(xs) == names
  }

  lemma {:induction false} ListingIsUnique(xs: seq<string>, ys: seq<string>, names: set<string>)
    requires Lists(xs, names) && Lists(ys, names)
    ensures xs == ys
  {
    if xs == [] {
      if ys != [] {
        HasMembers(ys);
      }
    } else {
      assert xs[0] in Members(xs) && xs[0] in ys;
      assert ys[0] in Members(ys) && ys[0] in xs;
      BelowIsTotal(xs[0], ys[0]);
      assert xs[0] == ys[0];
      TailLists(xs, names);
      TailLists(ys, names);
      ListingIsUnique(xs[1..], ys[1..], names - {xs[0]});
      assert xs == [xs[0]] + xs[1..] && ys == [ys[0]] + ys[1..];
    }
  }

  lemma HasMembers(xs: seq<string>)
    requires xs != []
    ensures Members(xs) != {}
  {
    assert xs[0] in Members(xs);
  }

  lemma TailLists(xs: seq<string>, names: set<string>)
    requires xs != [] && Lists(xs, names)
    ensures Lists(xs[1..], names - {xs[0]})
  {
    assert xs == [xs[0]] + xs[1..];
    BelowIsTotal(xs[0], xs[0]);
    forall x | x in xs[1..] ensures x != xs[0] {
      var j :| 0 <= j < |xs| - 1 && xs[1..][j] == x;
      assert Below(xs[0], xs[j + 1]);
    }
  }

  // Where x goes in a sorted list.
  function Insert(x: string, ys: seq<string>): seq<string> {
    if ys == [] || Below(x, ys[0]) then [x] + ys else [ys[0]] + Insert(x, ys[1..])
  }

  lemma {:induction false} InsertLists(x: string, ys: seq<string>, names: set<string>)
    requires Lists(ys, names) && x !in names
    ensures Lists(Insert(x, ys), names + {x})
  {
    if ys == [] {
    } else {
      assert ys[0] in Members(ys);
      BelowIsTotal(x, ys[0]);
      if Below(x, ys[0]) {
        forall j | 0 <= j < |ys| ensures Below(x, ys[j]) {
          if j > 0 {
            BelowIsTransitive(x, ys[0], ys[j]);
          }
        }
      } else {
        TailLists(ys, names);
        InsertLists(x, ys[1..], names - {ys[0]});
        var rest := Insert(x, ys[1..]);
        forall j | 0 <= j < |rest| ensures Below(ys[0], rest[j]) {
          assert rest[j] in Members(rest);
          if rest[j] != x {
            assert rest[j] in ys[1..];
          }
        }
        assert Members([ys[0]] + rest) == {ys[0]} + Members(rest);
      }
    }
  }

  lemma MemberAppended(xs: seq<string>, x: string)
    ensures Members(xs + [x]) == Members(xs) + {x}
  {
  }

  // The keys of the set, each once, in whatever order they come.
  method Collect(names: set<string>) returns (ids: seq<string>)
    ensures Members(ids) == names
    ensures forall i, j :: 0 <= i < j < |ids| ==> ids[i] != ids[j]
  {
    hide Members;
    ids := [];
    var rest := names;
    Nobody();
    while rest != {}
      invariant rest <= names && Members(ids) == names - rest
      invariant forall i :: 0 <= i < |ids| ==> ids[i] in names - rest
      invariant forall i, j :: 0 <= i < j < |ids| ==> ids[i] != ids[j]
      decreases |rest|
    {
      var name :| name in rest;
      MemberAppended(ids, name);
      ids := ids + [name];
      rest := rest - {name};
    }
  }

  lemma Nobody()
    ensures Members([]) == {} && Lists([], {})
  {
  }

  lemma NotBefore(xs: seq<string>, i: nat)
    requires i < |xs| && forall j, k :: 0 <= j < k < |xs| ==> xs[j] != xs[k]
    ensures xs[i] !in Members(xs[..i]) && Members(xs[..i + 1]) == Members(xs[..i]) + {xs[i]}
  {
    assert xs[..i + 1] == xs[..i] + [xs[i]];
    MemberAppended(xs[..i], xs[i]);
  }

  /** toActorIDs: the set's members, taken in whatever order, then sorted. */
  method ToActorIDs(names: set<string>) returns (ids: seq<string>)
    ensures Lists(ids, names)
    ensures Alphabetical(ids) && (forall name :: name in ids <==> name in names)
  {
    hide Lists, Members, Insert, Alphabetical;
    var taken := Collect(names);
    ids := [];
    Nobody();
    assert taken[..0] == [];
    for i := 0 to |taken|
      invariant Lists(ids, Members(taken[..i]))
    {
      NotBefore(taken, i);
      InsertLists(taken[i], ids, Members(taken[..i]));
      ids := Insert(taken[i], ids);
    }
    assert taken[..|taken|] == taken;
    ListsMeans(ids, names);
  }

  lemma ListsMeans(ids: seq<string>, names: set<string>)
    requires Lists(ids, names)
    ensures Alphabetical(ids) && (forall name :: name in ids <==> name in names)
  {
    hide Alphabetical, StrictlySorted;
    SortedIsAlphabetical(ids);
    assert forall name :: name in ids <==> name in Members(ids);
  }
}
