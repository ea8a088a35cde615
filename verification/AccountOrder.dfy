/** The saved order of accounts: merging it with what is on screen, rendering a view by
    it, and moving one account next to another. */
module AccountOrder {
  import opened Basics

  datatype Account = Account(name: string, details: string)

  datatype Edge = BeforeTarget | AfterTarget

  // ----- Sequences of names -----

  /** First occurrences only. */
  function Distinct(s: seq<string>): seq<string> {
    if s == [] then []
    else
      var front, last := Distinct(s[..|s| - 1]), s[|s| - 1];
      if last in front then front else front + [last]
  }

  function Keep(s: seq<string>, wanted: string -> bool): seq<string> {
    if s == [] then []
    else
      var front, last := Keep(s[..|s| - 1], wanted), s[|s| - 1];
      if wanted(last) then front + [last] else front
  }

  function Without(s: seq<string>, x: string): seq<string> {
    Keep(s, n => n != x)
  }

  function Names(accounts: seq<Account>): (names: seq<string>)
    ensures |names| == |accounts|
    ensures forall i | 0 <= i < |accounts| :: names[i] == accounts[i].name
  {
    seq(|accounts|, i requires 0 <= i < |accounts| => accounts[i].name)
  }

  lemma {:induction false} DistinctMeaning(s: seq<string>)
    ensures NoDuplicates(Distinct(s)) && forall n :: n in Distinct(s) <==> n in s
    decreases |s|
  {
    if s != [] {
      DistinctMeaning(s[..|s| - 1]);
      assert forall n :: n in s <==> n in s[..|s| - 1] || n == s[|s| - 1];
    }
  }

  lemma {:induction false} DistinctOfDistinct(s: seq<string>)
    requires NoDuplicates(s)
    ensures Distinct(s) == s
    decreases |s|
  {
    if s != [] {
      var front := s[..|s| - 1];
      DistinctOfDistinct(front);
      assert s == front + [s[|s| - 1]];
    }
  }

  /** Appending names that are already there adds nothing. */
  lemma {:induction false} DistinctAbsorbs(s: seq<string>, more: seq<string>)
    requires forall n | n in more :: n in s
    ensures Distinct(s + more) == Distinct(s)
    decreases |more|
  {
    if more == [] {
      assert s + more == s;
    } else {
      var front := more[..|more| - 1];
      assert (s + more)[..|s + more| - 1] == s + front;
      DistinctAbsorbs(s, front);
      DistinctMeaning(s);
    }
  }

  lemma {:induction false} KeepMeaning(s: seq<string>, wanted: string -> bool)
    ensures forall n :: n in Keep(s, wanted) <==> n in s && wanted(n)
    ensures NoDuplicates(s) ==> NoDuplicates(Keep(s, wanted))
    decreases |s|
  {
    if s != [] {
      var front := s[..|s| - 1];
      KeepMeaning(front, wanted);
      assert forall n :: n in s <==> n in front || n == s[|s| - 1];
    }
  }

  lemma {:induction false} KeepOfConcat(a: seq<string>, b: seq<string>, wanted: string -> bool)
    ensures Keep(a + b, wanted) == Keep(a, wanted) + Keep(b, wanted)
    decreases |b|
  {
    if b == [] {
      assert a + b == a;
    } else {
      assert (a + b)[..|a + b| - 1] == a + b[..|b| - 1];
      KeepOfConcat(a, b[..|b| - 1], wanted);
    }
  }

  lemma {:induction false} KeepAll(s: seq<string>, wanted: string -> bool)
    requires forall n | n in s :: wanted(n)
    ensures Keep(s, wanted) == s
    decreases |s|
  {
    if s != [] {
      KeepAll(s[..|s| - 1], wanted);
      assert s == s[..|s| - 1] + [s[|s| - 1]];
    }
  }

  // ----- The orders -----

  /** The order to save: the old one, with names never seen before at the end. */
  function Merged(order: seq<string>, accounts: seq<Account>): seq<string> {
    Distinct(order + Names(accounts))
  }

  /** The order to render: saved names that are on screen, then the rest of the screen. */
  function Rendered(accounts: seq<Account>, order: seq<string>): seq<string> {
    Distinct(Keep(order, n => n in Names(accounts)) + Names(accounts))
  }

  function IndexOf(s: seq<string>, x: string): (i: nat)
    ensures i <= |s| && (x in s <==> i < |s|) && (i < |s| ==> s[i] == x)
  {
    if s == [] then 0 else if s[0] == x then 0 else 1 + IndexOf(s[1..], x)
  }

  function Reordered(order: seq<string>, accounts: seq<Account>, source: string, target: string, edge: Edge): seq<string> {
    if source == "" || source == target then order
    else
      var names := Without(Merged(order, accounts), source);
      var at := IndexOf(names, target);
      if at == |names| then order
      else
        var cut := at + (if edge.AfterTarget? then 1 else 0);
        names[..cut] + [source] + names[cut..]
  }

  // ----- Who comes before whom -----

  lemma {:induction false} IndexOfSnoc(s: seq<string>, last: string, x: string)
    ensures IndexOf(s + [last], x) == if x in s then IndexOf(s, x) else if x == last then |s| else |s| + 1
    decreases |s|
  {
    if s == [] {
      assert [] + [last] == [last] && [last][1..] == [];
    } else {
      assert (s + [last])[1..] == s[1..] + [last];
      if s[0] != x {
        IndexOfSnoc(s[1..], last, x);
      }
    }
  }

  predicate Before(s: seq<string>, x: string, y: string) {
    IndexOf(s, x) < IndexOf(s, y)
  }

  lemma BeforeSnoc(s: seq<string>, last: string, x: string, y: string)
    requires x != y && x in s + [last] && y in s + [last]
    ensures Before(s + [last], x, y) <==> if x in s && y in s then Before(s, x, y) else x in s
  {
    IndexOfSnoc(s, last, x);
    IndexOfSnoc(s, last, y);
  }

  lemma {:induction false} DistinctKeepsOrder(s: seq<string>, x: string, y: string)
    requires x != y && x in s && y in s
    ensures x in Distinct(s) && y in Distinct(s)
    ensures Before(Distinct(s), x, y) <==> Before(s, x, y)
    decreases |s|
  {
    var front, last := s[..|s| - 1], s[|s| - 1];
    assert s == front + [last];
    DistinctMeaning(front);
    DistinctMeaning(s);
    BeforeSnoc(front, last, x, y);
    if last !in front {
      BeforeSnoc(Distinct(front), last, x, y);
    }
    if x in front && y in front {
      DistinctKeepsOrder(front, x, y);
    }
  }

  lemma {:induction false} KeepKeepsOrder(s: seq<string>, wanted: string -> bool, x: string, y: string)
    requires x != y && x in s && y in s && wanted(x) && wanted(y)
    ensures x in Keep(s, wanted) && y in Keep(s, wanted)
    ensures Before(Keep(s, wanted), x, y) <==> Before(s, x, y)
    decreases |s|
  {
    var front, last := s[..|s| - 1], s[|s| - 1];
    assert s == front + [last];
    KeepMeaning(front, wanted);
    KeepMeaning(s, wanted);
    BeforeSnoc(front, last, x, y);
    if wanted(last) {
      BeforeSnoc(Keep(front, wanted), last, x, y);
    }
    if x in front && y in front {
      KeepKeepsOrder(front, wanted, x, y);
    }
  }

  /** The order to save has every saved and every visible name once; of two, the one that comes
      first in the saved order, and after it on screen, comes first. */
  lemma MergedFollowsTheSavedOrder(order: seq<string>, accounts: seq<Account>, x: string, y: string)
    requires x != y && (x in order || x in Names(accounts)) && (y in order || y in Names(accounts))
    ensures NoDuplicates(Merged(order, accounts)) && x in Merged(order, accounts) && y in Merged(order, accounts)
    ensures Before(Merged(order, accounts), x, y) <==> Before(order + Names(accounts), x, y)
  {
    DistinctMeaning(order + Names(accounts));
    DistinctKeepsOrder(order + Names(accounts), x, y);
  }

  /** On screen, too, of two visible names the one that comes first in the saved order, and after
      it in the view, comes first. */
  lemma RenderedFollowsTheSavedOrder(order: seq<string>, accounts: seq<Account>, x: string, y: string)
    requires x != y && x in Names(accounts) && y in Names(accounts)
    ensures x in Rendered(accounts, order) && y in Rendered(accounts, order)
    ensures Before(Rendered(accounts, order), x, y) <==> Before(order + Names(accounts), x, y)
  {
    var wanted := n => n in Names(accounts);
    KeepOfConcat(order, Names(accounts), wanted);
    KeepAll(Names(accounts), wanted);
    var shown := Keep(order, wanted) + Names(accounts);
    assert shown == Keep(order + Names(accounts), wanted);
    KeepKeepsOrder(order + Names(accounts), wanted, x, y);
    DistinctKeepsOrder(shown, x, y);
  }

  predicate SameNames(seen: set<string>, ordered: seq<string>) {
    seen == set n | n in ordered
  }

  /** One turn of each of the loops below. */
  lemma SeenStep(seen: set<string>, ordered: seq<string>, s: seq<string>, name: string)
    requires SameNames(seen, ordered) && ordered == Distinct(s)
    ensures SameNames(seen + {name}, if name in seen then ordered else ordered + [name])
    ensures Distinct(s + [name]) == if name in seen then ordered else ordered + [name]
  {
    assert (s + [name])[..|s|] == s;
  }

  /** Append the names that were not seen yet. */
  method AppendUnseen(soFar: seq<string>, before: set<string>, more: seq<string>, ghost names: seq<string>)
    returns (ordered: seq<string>)
    requires soFar == Distinct(names) && SameNames(before, soFar)
    ensures ordered == Distinct(names + more)
  {
    var seen := before;
    ordered := soFar;
    ghost var done := names;
    for i := 0 to |more|
      invariant done == names + more[..i] && ordered == Distinct(done) && SameNames(seen, ordered)
    {
      assert more[..i + 1] == more[..i] + [more[i]];
      SeenStep(seen, ordered, done, more[i]);
      done := done + [more[i]];
      if more[i] !in seen {
        ordered := ordered + [more[i]];
      }
      seen := seen + {more[i]};
    }
    assert more[..|more|] == more;
  }

  method MergedAccountOrder(order: seq<string>, accounts: seq<Account>) returns (ordered: seq<string>)
    ensures ordered == Merged(order, accounts)
  {
    var seen: set<string> := {};
    ordered := [];
    for i := 0 to |order|
      invariant ordered == Distinct(order[..i]) && SameNames(seen, ordered)
    {
      assert order[..i + 1] == order[..i] + [order[i]];
      SeenStep(seen, ordered, order[..i], order[i]);
      if order[i] !in seen {
        ordered := ordered + [order[i]];
      }
      seen := seen + {order[i]};
    }
    assert order[..|order|] == order;
    ordered := AppendUnseen(ordered, seen, Names(accounts), order);
  }

  method OrderedAccountNames(accounts: seq<Account>, order: seq<string>) returns (ordered: seq<string>)
    ensures ordered == Rendered(accounts, order)
  {
    var known := Names(accounts);
    var seen: set<string> := {};
    ordered := [];
    ghost var wanted := n => n in Names(accounts);
    ghost var kept: seq<string> := [];
    for i := 0 to |order|
      invariant kept == Keep(order[..i], wanted) && ordered == Distinct(kept) && SameNames(seen, ordered)
    {
      assert order[..i + 1][..i] == order[..i];
      if order[i] in known {
        SeenStep(seen, ordered, kept, order[i]);
        kept := kept + [order[i]];
        if order[i] !in seen {
          ordered := ordered + [order[i]];
        }
        seen := seen + {order[i]};
      }
    }
    assert order[..|order|] == order;
    ordered := AppendUnseen(ordered, seen, known, kept);
  }

  method ReorderAccountNames(order: seq<string>, accounts: seq<Account>, source: string, target: string, edge: Edge)
    returns (names: seq<string>)
    ensures names == Reordered(order, accounts, source, target, edge)
  {
    if source == "" || source == target {
      return order;
    }
    var merged := MergedAccountOrder(order, accounts);
    names := Without(merged, source);
    var targetIndex := IndexOf(names, target);
    if targetIndex == |names| {
      return order;
    }
    var cut := targetIndex + (if edge.AfterTarget? then 1 else 0);
    names := names[..cut] + [source] + names[cut..];
  }

  // ----- What reordering promises -----

  /** `x` and `y` stand next to each other, in that order. */
  ghost predicate Adjacent(s: seq<string>, x: string, y: string) {
    exists a: seq<string>, b: seq<string> :: s == a + [x, y] + b
  }

  /** The moved list as its three parts. */
  lemma ReorderedParts(order: seq<string>, accounts: seq<Account>, source: string, target: string, edge: Edge)
    returns (a: seq<string>, b: seq<string>)
    requires source != "" && source != target && target in Merged(order, accounts)
    ensures Without(Merged(order, accounts), source) == a + [target] + b
    ensures Reordered(order, accounts, source, target, edge)
         == if edge.BeforeTarget? then a + [source, target] + b else a + [target, source] + b
  {
    var merged := Merged(order, accounts);
    var names := Without(merged, source);
    KeepMeaning(merged, n => n != source);
    var at := IndexOf(names, target);
    a, b := names[..at], names[at + 1..];
    assert names == a + [target] + b;
  }

  /** Moving an account: the new order has every name of the merged order once, plus the
      source; taking the source out again gives back the merged order without it, so every
      other name keeps its place relative to every other; and source and target are next to
      each other on the asked side. Otherwise nothing changes. */
  lemma ReorderMovesOnlyTheSource(order: seq<string>, accounts: seq<Account>, source: string, target: string, edge: Edge)
    ensures var merged := Merged(order, accounts); var r := Reordered(order, accounts, source, target, edge);
            if source != "" && source != target && target in merged then
              && NoDuplicates(r)
              && (forall n :: n in r <==> n in merged || n == source)
              && Without(r, source) == Without(merged, source)
              && (if edge.BeforeTarget? then Adjacent(r, source, target) else Adjacent(r, target, source))
            else r == order
  {
    var merged := Merged(order, accounts);
    var others := n => n != source;
    DistinctMeaning(order + Names(accounts));
    KeepMeaning(merged, others);
    assert source != "" && source != target && target !in merged ==> target !in Without(merged, source);
    if source != "" && source != target && target in merged {
      var a, b := ReorderedParts(order, accounts, source, target, edge);
      BesideTarget(a, b, source, target, edge);
    }
  }

  lemma BesideTarget(a: seq<string>, b: seq<string>, source: string, target: string, edge: Edge)
    requires NoDuplicates(a + [target] + b) && source !in a + [target] + b
    ensures var r := if edge.BeforeTarget? then a + [source, target] + b else a + [target, source] + b;
            && NoDuplicates(r) && Without(r, source) == a + [target] + b
            && (forall n :: n in r <==> n in a + [target] + b || n == source)
            && (if edge.BeforeTarget? then Adjacent(r, source, target) else Adjacent(r, target, source))
  {
    if edge.BeforeTarget? {
      assert a + [target] + b == a + ([target] + b);
      InsertFresh(a, [target] + b, source);
      assert a + [source, target] + b == a + [source] + ([target] + b);
    } else {
      InsertFresh(a + [target], b, source);
      assert a + [target, source] + b == a + [target] + [source] + b;
    }
  }

  /** Putting a fresh name between two parts of a list without repetitions. */
  lemma InsertFresh(left: seq<string>, right: seq<string>, x: string)
    requires NoDuplicates(left + right) && x !in left + right
    ensures var r := left + [x] + right;
            && NoDuplicates(r) && Without(r, x) == left + right
            && forall n :: n in r <==> n in left + right || n == x
  {
    var whole, joined := left + [x] + right, left + right;
    forall i | 0 <= i < |whole| && i != |left|
      ensures whole[i] == joined[if i < |left| then i else i - 1]
    {
    }
    var others := n => n != x;
    KeepOfConcat(left + [x], right, others);
    KeepOfConcat(left, [x], others);
    KeepAll(left, others);
    KeepAll(right, others);
    assert Keep([x], others) == [];
  }

  /** Names of the other view keep their relative order as well: any selection of names that
      leaves the source out reads the same before and after. */
  lemma OtherViewsKeepTheirOrder(order: seq<string>, accounts: seq<Account>, source: string, target: string, edge: Edge,
                                 selected: string -> bool)
    requires source != "" && source != target && target in Merged(order, accounts) && !selected(source)
    ensures Keep(Reordered(order, accounts, source, target, edge), selected) == Keep(Merged(order, accounts), selected)
  {
    var merged, r := Merged(order, accounts), Reordered(order, accounts, source, target, edge);
    ReorderMovesOnlyTheSource(order, accounts, source, target, edge);
    SelectionIgnoresTheSource(merged, source, selected);
    SelectionIgnoresTheSource(r, source, selected);
  }

  lemma KeepSnoc(s: seq<string>, x: string, wanted: string -> bool)
    ensures Keep(s + [x], wanted) == if wanted(x) then Keep(s, wanted) + [x] else Keep(s, wanted)
  {
  }

  lemma {:induction false} SelectionIgnoresTheSource(s: seq<string>, source: string, selected: string -> bool)
    requires !selected(source)
    ensures Keep(Without(s, source), selected) == Keep(s, selected)
    decreases |s|
  {
    if s != [] {
      var front, last := s[..|s| - 1], s[|s| - 1];
      var kept := Without(front, source);
      SelectionIgnoresTheSource(front, source, selected);
      if last != source {
        assert Without(s, source) == kept + [last];
        KeepSnoc(kept, last, selected);
      } else {
        assert Without(s, source) == kept;
      }
    }
  }

  /** The rendered list is a rearrangement of the view. */
  lemma RenderingIsARearrangement(accounts: seq<Account>, order: seq<string>)
    requires NoDuplicates(Names(accounts))
    ensures multiset(Rendered(accounts, order)) == multiset(Names(accounts))
  {
    var wanted := n => n in Names(accounts);
    var r := Rendered(accounts, order);
    KeepMeaning(order, wanted);
    DistinctMeaning(Keep(order, wanted) + Names(accounts));
    forall n
      ensures multiset(r)[n] == multiset(Names(accounts))[n]
    {
      DistinctCounts(r, n);
      DistinctCounts(Names(accounts), n);
      assert n in r <==> n in Names(accounts);
    }
  }

  lemma {:induction false} DistinctCounts(s: seq<string>, n: string)
    requires NoDuplicates(s)
    ensures multiset(s)[n] == if n in s then 1 else 0
    decreases |s|
  {
    if s != [] {
      var front, last := s[..|s| - 1], s[|s| - 1];
      assert s == front + [last];
      DistinctCounts(front, n);
    }
  }

  /** After moving one visible account next to another, the two are next to each other on
      screen, whatever names of the other view lie between in the saved order. */
  lemma MovedAccountsAreAdjacentOnScreen(order: seq<string>, accounts: seq<Account>,
                                         source: string, target: string, edge: Edge)
    requires source != "" && source != target && source in Names(accounts) && target in Names(accounts)
    ensures var screen := Rendered(accounts, Reordered(order, accounts, source, target, edge));
            if edge.BeforeTarget? then Adjacent(screen, source, target) else Adjacent(screen, target, source)
  {
    var wanted := n => n in Names(accounts);
    var merged := Merged(order, accounts);
    DistinctMeaning(order + Names(accounts));
    ReorderMovesOnlyTheSource(order, accounts, source, target, edge);
    var r := Reordered(order, accounts, source, target, edge);
    var a, b := ReorderedParts(order, accounts, source, target, edge);
    var x, y := if edge.BeforeTarget? then source else target, if edge.BeforeTarget? then target else source;
    CompleteOrderIsRendered(accounts, r);
    KeepsNeighbours(a, b, x, y, wanted);
  }

  /** An order without repetitions that names every visible account is rendered by leaving
      the other names out. */
  lemma CompleteOrderIsRendered(accounts: seq<Account>, order: seq<string>)
    requires NoDuplicates(order) && forall n | n in Names(accounts) :: n in order
    ensures Rendered(accounts, order) == Keep(order, n => n in Names(accounts))
  {
    var wanted := n => n in Names(accounts);
    KeepMeaning(order, wanted);
    DistinctAbsorbs(Keep(order, wanted), Names(accounts));
    DistinctOfDistinct(Keep(order, wanted));
  }

  lemma KeepsNeighbours(a: seq<string>, b: seq<string>, x: string, y: string, wanted: string -> bool)
    requires wanted(x) && wanted(y)
    ensures Adjacent(Keep(a + [x, y] + b, wanted), x, y)
  {
    KeepOfConcat(a + [x, y], b, wanted);
    KeepOfConcat(a, [x, y], wanted);
    KeepAll([x, y], wanted);
    assert Keep(a + [x, y] + b, wanted) == Keep(a, wanted) + [x, y] + Keep(b, wanted);
  }

  // ----- Accounts in order -----

  function Named(accounts: seq<Account>, name: string): (a: Account)
    requires name in Names(accounts)
    ensures a in accounts && a.name == name
  {
    var i := IndexOf(Names(accounts), name);
    accounts[i]
  }

  function OrderAccounts(accounts: seq<Account>, order: seq<string>): (r: seq<Account>)
  {
    var names := Rendered(accounts, order);
    RenderedNamesAreKnown(accounts, order);
    seq(|names|, i requires 0 <= i < |names| => Named(accounts, names[i]))
  }

  lemma RenderedNamesAreKnown(accounts: seq<Account>, order: seq<string>)
    ensures NoDuplicates(Rendered(accounts, order))
    ensures forall n :: n in Rendered(accounts, order) <==> n in Names(accounts)
    ensures forall i | 0 <= i < |Rendered(accounts, order)| :: Rendered(accounts, order)[i] in Names(accounts)
  {
    var wanted := n => n in Names(accounts);
    KeepMeaning(order, wanted);
    DistinctMeaning(Keep(order, wanted) + Names(accounts));
  }

  /** Every account of the view is shown exactly once, under its own name. */
  lemma EveryAccountIsShownOnce(accounts: seq<Account>, order: seq<string>)
    requires NoDuplicates(Names(accounts))
    ensures var shown := OrderAccounts(accounts, order);
            && NoDuplicates(shown) && (forall a :: a in shown <==> a in accounts)
            && Names(shown) == Rendered(accounts, order)
  {
    var names, shown := Rendered(accounts, order), OrderAccounts(accounts, order);
    RenderedNamesAreKnown(accounts, order);
    assert Names(shown) == names;
    forall i, j | 0 <= i < j < |shown|
      ensures shown[i] != shown[j]
    {
      assert names[i] != names[j];
    }
    forall a | a in accounts
      ensures a in shown
    {
      var k :| 0 <= k < |accounts| && accounts[k] == a;
      assert Names(accounts)[k] == a.name;
      assert a.name in names;
      var i :| 0 <= i < |names| && names[i] == a.name;
      var at := IndexOf(Names(accounts), a.name);
      assert Names(accounts)[at] == Names(accounts)[k];
      assert at == k;
      assert shown[i] == a;
    }
  }
}
