/** When the outcome of Accept-Encoding negotiation depends on the order in which the client
    lists its encodings.  "Within 0.1" is not transitive, so it can; this module says exactly
    when. */
module NegotiationOrder {
  import opened Negotiation
  import opened NegotiationLaws

  /** No weight is more than 0.1 above this one. */
  ghost predicate Top(e: Entry, items: seq<Entry>) {
    e in items && forall x :: x in items ==> x.q - e.q <= SLACK
  }

  /** A top entry of the lowest index. */
  ghost predicate Best(e: Entry, items: seq<Entry>) {
    Top(e, items) && forall x :: Top(x, items) ==> e.idx <= x.idx
  }

  /** An entry below the top that is nevertheless within 0.1 of t. */
  ghost predicate Rival(u: Entry, t: Entry, items: seq<Entry>) {
    u in items && !Top(u, items) && Within(u.q, t.q)
  }

  /** No rival of the best entry has a lower index.  A best entry that has to be listed to be
      met, unlike the default, must not share its index with a rival either. */
  ghost predicate Undisturbed(d: Entry, entries: seq<Entry>) {
    var items := [d] + entries;
    if Best(d, items) then forall u :: Rival(u, d, items) ==> u.idx >= d.idx
    else forall t, u :: Best(t, items) && Rival(u, t, items) ==> u.idx > t.idx
  }

  // ----- The extremes of a list -----

  lemma {:induction false} Highest(items: seq<Entry>) returns (m: Entry)
    requires items != []
    ensures m in items && forall x :: x in items ==> x.q <= m.q
  {
    m := items[0];
    if |items| > 1 {
      var n := Highest(items[1..]);
      m := if n.q > m.q then n else m;
      assert forall x :: x in items ==> x == items[0] || x in items[1..];
    }
  }

  lemma {:induction false} LowestTop(items: seq<Entry>, part: seq<Entry>) returns (t: Entry)
    requires exists x :: x in part && Top(x, items)
    ensures Top(t, items) && forall x :: x in part && Top(x, items) ==> t.idx <= x.idx
    decreases part
  {
    var e, rest := part[0], part[1..];
    assert forall x :: x in part ==> x == e || x in rest;
    if exists x :: x in rest && Top(x, items) {
      t := LowestTop(items, rest);
      if Top(e, items) && e.idx < t.idx {
        t := e;
      }
    } else {
      t := e;
    }
  }

  lemma SomeBest(items: seq<Entry>) returns (t: Entry)
    requires items != []
    ensures Best(t, items)
  {
    var m := Highest(items);
    assert Top(m, items);
    t := LowestTop(items, items);
  }

  // ----- Undisturbed: every order selects the best entry -----

  lemma {:induction false} Stays(t: Entry, es: seq<Entry>, items: seq<Entry>)
    requires Best(t, items) && forall u :: Rival(u, t, items) ==> u.idx >= t.idx
    requires forall x :: x in es ==> x in items
    ensures Fold(t, es) == t
  {
    if es != [] {
      var e := es[0];
      assert e in items && !Top(e, items) && Within(e.q, t.q) ==> Rival(e, t, items);
      assert !Replaces(e, t);
      Stays(t, es[1..], items);
    }
  }

  lemma {:induction false} Reaches(c: Entry, es: seq<Entry>, items: seq<Entry>)
    requires forall t, u :: Best(t, items) && Rival(u, t, items) ==> u.idx > t.idx
    requires c in items && forall x :: x in es ==> x in items
    requires Best(c, items) || exists t :: t in es && Best(t, items)
    ensures Best(Fold(c, es), items)
    decreases es
  {
    if Best(c, items) {
      Stays(c, es, items);
    } else {
      var e := es[0];
      if Best(e, items) {
        if !Top(c, items) && Within(e.q, c.q) {
          assert Rival(c, e, items);
        }
        assert Replaces(e, c);
        Stays(e, es[1..], items);
      } else {
        assert forall x :: x in es ==> x == e || x in es[1..];
        Reaches(Prefer(c, e), es[1..], items);
      }
    }
  }

  lemma SameMembers(a: seq<Entry>, b: seq<Entry>)
    requires multiset(a) == multiset(b)
    ensures forall x :: x in a <==> x in b
  {
    assert forall x :: x in a <==> x in multiset(a);
    assert forall x :: x in b <==> x in multiset(b);
  }

  /** Repeated tokens or not: without a disturbing rival every order selects the best entry. */
  lemma UndisturbedBest(d: Entry, entries: seq<Entry>, es: seq<Entry>)
    requires Undisturbed(d, entries) && multiset(es) == multiset(entries)
    ensures Best(Fold(d, es), [d] + entries)
  {
    var items := [d] + entries;
    SameMembers(es, entries);
    assert forall x :: x in items <==> x == d || x in es;
    if Best(d, items) {
      Stays(d, es, items);
    } else {
      var t := SomeBest(items);
      Reaches(d, es, items);
    }
  }

  // ----- Disturbed: two orders that select different encodings -----

  lemma TakenOut(s: set<Entry>, x: Entry)
    requires x in s
    ensures multiset(s) == multiset{x} + multiset(s - {x})
  {
  }

  ghost function Listing(s: set<Entry>): (r: seq<Entry>)
    ensures multiset(r) == multiset(s)
    ensures forall x :: x in r <==> x in s
  {
    if s == {} then []
    else
      var x :| x in s;
      TakenOut(s, x);
      [x] + Listing(s - {x})
  }

  ghost function Members(entries: seq<Entry>): set<Entry> {
    set x | x in entries
  }

  lemma {:induction false} DistinctMembers(entries: seq<Entry>)
    requires NoRepeats(entries)
    ensures multiset(entries) == multiset(Members(entries))
  {
    if entries != [] {
      var e, rest := entries[0], entries[1..];
      DistinctMembers(rest);
      assert entries == [e] + rest;
      assert e !in rest;
      assert Members(entries) == {e} + Members(rest);
    }
  }

  lemma SameIndex(entries: seq<Entry>, x: Entry, y: Entry)
    requires NoRepeats(entries) && x in entries && y in entries && x.idx == y.idx
    ensures x == y
  {
    var i :| 0 <= i < |entries| && entries[i] == x;
    var j :| 0 <= j < |entries| && entries[j] == y;
  }

  /** Over top entries only the index counts. */
  lemma {:induction false} FoldTops(c: Entry, es: seq<Entry>, items: seq<Entry>)
    requires Top(c, items) && forall x :: x in es ==> Top(x, items)
    ensures var r := Fold(c, es); Top(r, items) && r.idx <= c.idx && forall x :: x in es ==> r.idx <= x.idx
    ensures Fold(c, es) == c || Fold(c, es).idx < c.idx
    ensures Fold(c, es) == c || Fold(c, es) in es
    decreases es
  {
    if es != [] {
      var e := es[0];
      assert Top(e, items) && Within(e.q, c.q);
      FoldTops(Prefer(c, e), es[1..], items);
      assert forall x :: x in es ==> x == e || x in es[1..];
    }
  }

  /** From anything below the top, a highest entry is selected when it is met. */
  lemma Rises(c: Entry, m: Entry, tops: seq<Entry>, items: seq<Entry>)
    requires c in items && !Top(c, items)
    requires m in items && forall x :: x in items ==> x.q <= m.q
    requires forall x :: x in tops ==> Top(x, items)
    ensures var r := Fold(c, [m] + tops);
            && Top(r, items) && (r == m || r in tops)
            && r.idx <= m.idx && forall x :: x in tops ==> r.idx <= x.idx
  {
    assert Top(m, items);
    assert Prefer(c, m) == m;
    assert ([m] + tops)[0] == m && ([m] + tops)[1..] == tops;
    FoldTops(m, tops, items);
  }

  /** A highest default gives way to nothing below the top. */
  lemma {:induction false} HighestStays(d: Entry, lows: seq<Entry>, items: seq<Entry>)
    requires d in items && forall x :: x in items ==> x.q <= d.q
    requires forall x :: x in lows ==> x in items && !Top(x, items)
    ensures Fold(d, lows) == d
  {
    if lows != [] {
      var e := lows[0];
      assert !Top(e, items) && e in items;
      assert !Replaces(e, d);
      HighestStays(d, lows[1..], items);
    }
  }

  ghost function Tops(entries: seq<Entry>, items: seq<Entry>): set<Entry> {
    set x | x in entries && Top(x, items)
  }

  ghost function Lows(entries: seq<Entry>, items: seq<Entry>): set<Entry> {
    set x | x in entries && !Top(x, items)
  }

  /** The top entries, a highest one first where the client lists it. */
  ghost function Climb(m: Entry, tops: set<Entry>): (r: seq<Entry>)
    ensures multiset(r) == multiset(tops)
    ensures forall x :: x in r <==> x in tops
  {
    if m in tops then
      TakenOut(tops, m);
      [m] + Listing(tops - {m})
    else Listing(tops)
  }

  /** Entries below the top first, then the top ones: a top entry of the lowest listed index. */
  lemma LowsThenTops(d: Entry, lows: seq<Entry>, m: Entry, tops: set<Entry>, items: seq<Entry>)
    requires m in items && forall x :: x in items ==> x.q <= m.q
    requires d in items && (m == d || m in tops)
    requires forall x :: x in lows ==> x in items && !Top(x, items)
    requires forall x :: x in tops ==> Top(x, items)
    ensures var r := Fold(d, lows + Climb(m, tops));
            && Top(r, items) && (r == d || r in tops) && forall x :: x in tops ==> r.idx <= x.idx
  {
    var c := Fold(d, lows);
    FoldConcat(d, lows, Climb(m, tops));
    FoldMember(d, lows);
    if Top(c, items) {
      FoldTops(c, Climb(m, tops), items);
    } else if m in tops {
      Rises(c, m, Listing(tops - {m}), items);
    } else {
      HighestStays(d, lows, items);
      assert false;
    }
  }

  // The orders that the proofs below compare.

  ghost function LowsTops(lows: set<Entry>, tops: set<Entry>, m: Entry): seq<Entry> {
    Listing(lows) + Climb(m, tops)
  }

  ghost function LowsTopsThen(lows: set<Entry>, tops: set<Entry>, m: Entry, u: Entry): seq<Entry> {
    LowsTops(lows - {u}, tops, m) + [u]
  }

  ghost function BestLowsTops(lows: set<Entry>, tops: set<Entry>, m: Entry, t: Entry): seq<Entry> {
    [t] + Listing(lows) + ([m] + Listing(tops - {m} - {t}))
  }

  ghost function TopsLows(lows: set<Entry>, tops: set<Entry>, u: Entry): seq<Entry> {
    Listing(tops) + ([u] + Listing(lows - {u}))
  }

  ghost function LowsTopsFrom(lows: set<Entry>, tops: set<Entry>, m: Entry, u: Entry): seq<Entry> {
    [u] + Listing(lows - {u}) + ([m] + Listing(tops - {m}))
  }

  /** The order that avoids every rival ends in the best entry. */
  lemma BestLast(d: Entry, entries: seq<Entry>, lows: set<Entry>, m: Entry, t: Entry)
    requires NoRepeats(entries) && Best(t, [d] + entries) && !Best(d, [d] + entries)
    requires m in [d] + entries && forall x :: x in [d] + entries ==> x.q <= m.q
    requires lows <= Lows(entries, [d] + entries)
    ensures Fold(d, LowsTops(lows, Tops(entries, [d] + entries), m)) == t
  {
    var items := [d] + entries;
    assert Top(m, items);
    var tops := Tops(entries, items);
    LowsThenTops(d, Listing(lows), m, tops, items);
    var r := Fold(d, Listing(lows) + Climb(m, tops));
    assert t in tops && r.idx == t.idx;
    assert r != d;
    SameIndex(entries, r, t);
  }

  ghost predicate Reordered(a: seq<Entry>, entries: seq<Entry>) {
    multiset(a) == multiset(entries)
  }

  lemma LowsAndTops(entries: seq<Entry>, items: seq<Entry>)
    requires NoRepeats(entries)
    ensures multiset(Lows(entries, items)) + multiset(Tops(entries, items)) == multiset(entries)
  {
    hide NoRepeats, Top;
    DistinctMembers(entries);
    assert Lows(entries, items) + Tops(entries, items) == Members(entries);
    assert Lows(entries, items) !! Tops(entries, items);
  }

  lemma Orders(entries: seq<Entry>, lows: set<Entry>, tops: set<Entry>, m: Entry, u: Entry)
    requires multiset(lows) + multiset(tops) == multiset(entries)
    ensures Reordered(LowsTops(lows, tops, m), entries)
    ensures u in lows ==> Reordered(LowsTopsThen(lows, tops, m, u), entries) && Reordered(TopsLows(lows, tops, u), entries)
  {
    hide Listing, Climb;
    if u in lows {
      TakenOut(lows, u);
    }
  }

  lemma OrdersFrom(entries: seq<Entry>, lows: set<Entry>, tops: set<Entry>, m: Entry, u: Entry)
    requires multiset(lows) + multiset(tops) == multiset(entries) && m in tops
    ensures u in lows ==> Reordered(LowsTopsFrom(lows, tops, m, u), entries)
    ensures u in tops && u != m ==> Reordered(BestLowsTops(lows, tops, m, u), entries)
  {
    hide Listing, Climb;
    TakenOut(tops, m);
    if u in lows {
      TakenOut(lows, u);
    }
    if u in tops && u != m {
      TakenOut(tops - {m}, u);
    }
  }

  /** A listed rival of a listed best entry is selected when it comes last. */
  lemma RivalLast(d: Entry, entries: seq<Entry>, m: Entry, t: Entry, u: Entry)
    requires NoRepeats(entries) && Best(t, [d] + entries) && !Best(d, [d] + entries)
    requires m in [d] + entries && forall x :: x in [d] + entries ==> x.q <= m.q
    requires u in entries && Rival(u, t, [d] + entries) && u.idx <= t.idx
    ensures var items := [d] + entries;
            Fold(d, LowsTopsThen(Lows(entries, items), Tops(entries, items), m, u)) == u
    ensures u.idx != t.idx
  {
    var items := [d] + entries;
    var before := LowsTops(Lows(entries, items) - {u}, Tops(entries, items), m);
    BestLast(d, entries, Lows(entries, items) - {u}, m, t);
    FoldConcat(d, before, [u]);
    if u.idx == t.idx {
      SameIndex(entries, u, t);
    }
    hide Best, Top;
    assert Fold(t, [u]) == Prefer(t, u) == u;
  }

  lemma ListedRival(d: Entry, entries: seq<Entry>, t: Entry, u: Entry) returns (a: seq<Entry>, b: seq<Entry>)
    requires NoRepeats(entries) && Best(t, [d] + entries) && !Best(d, [d] + entries)
    requires u in entries && Rival(u, t, [d] + entries) && u.idx <= t.idx
    ensures Reordered(a, entries) && Reordered(b, entries) && Fold(d, a).idx != Fold(d, b).idx
  {
    hide LowsTops, LowsTopsThen, BestLowsTops, TopsLows, LowsTopsFrom, Fold, NoRepeats, Reordered;
    var items := [d] + entries;
    var m := Highest(items);
    var lows, tops := Lows(entries, items), Tops(entries, items);
    LowsAndTops(entries, items);
    BestLast(d, entries, lows, m, t);
    RivalLast(d, entries, m, t, u);
    Orders(entries, lows, tops, m, u);
    a, b := LowsTopsThen(lows, tops, m, u), LowsTops(lows, tops, m);
  }

  /** A default that is a rival of the best entry hides it when the best entry comes first. */
  lemma BestFirst(d: Entry, entries: seq<Entry>, m: Entry, t: Entry)
    requires NoRepeats(entries) && Best(t, [d] + entries) && !Best(d, [d] + entries)
    requires m in [d] + entries && forall x :: x in [d] + entries ==> x.q <= m.q
    requires Rival(d, t, [d] + entries) && d.idx <= t.idx
    ensures var items := [d] + entries;
            Fold(d, BestLowsTops(Lows(entries, items), Tops(entries, items), m, t)).idx != t.idx
    ensures m != t && m in Tops(entries, [d] + entries) && t in Tops(entries, [d] + entries)
  {
    var items := [d] + entries;
    var low, rest := Listing(Lows(entries, items)), Listing(Tops(entries, items) - {m} - {t});
    assert Top(m, items) && m != t && m != d;
    FoldConcat(d, [t] + low, [m] + rest);
    assert ([t] + low)[0] == t && ([t] + low)[1..] == low && Prefer(d, t) == d;
    FoldMember(d, low);
    Rises(Fold(d, low), m, rest, items);
    var r := Fold(d, [t] + low + ([m] + rest));
    if r.idx == t.idx {
      SameIndex(entries, r, t);
    }
  }

  lemma DefaultRival(d: Entry, entries: seq<Entry>, t: Entry) returns (a: seq<Entry>, b: seq<Entry>)
    requires NoRepeats(entries) && Best(t, [d] + entries) && !Best(d, [d] + entries)
    requires Rival(d, t, [d] + entries) && d.idx <= t.idx
    ensures Reordered(a, entries) && Reordered(b, entries) && Fold(d, a).idx != Fold(d, b).idx
  {
    hide LowsTops, LowsTopsThen, BestLowsTops, TopsLows, LowsTopsFrom, Fold, NoRepeats, Reordered;
    var items := [d] + entries;
    var m := Highest(items);
    var lows, tops := Lows(entries, items), Tops(entries, items);
    LowsAndTops(entries, items);
    BestLast(d, entries, lows, m, t);
    BestFirst(d, entries, m, t);
    Orders(entries, lows, tops, m, t);
    OrdersFrom(entries, lows, tops, m, t);
    a, b := BestLowsTops(lows, tops, m, t), LowsTops(lows, tops, m);
  }

  /** A rival of a best default that comes after every top entry: the selection stays below the top. */
  lemma TopsFirst(d: Entry, entries: seq<Entry>, u: Entry)
    requires Best(d, [d] + entries) && Rival(u, d, [d] + entries) && u.idx < d.idx
    ensures var items := [d] + entries;
            Fold(d, TopsLows(Lows(entries, items), Tops(entries, items), u)) in Lows(entries, items)
  {
    var items := [d] + entries;
    var top, low := Listing(Tops(entries, items)), Listing(Lows(entries, items) - {u});
    FoldConcat(d, top, [u] + low);
    FoldTops(d, top, items);
    assert ([u] + low)[0] == u && ([u] + low)[1..] == low && Prefer(d, u) == u;
    FoldMember(u, low);
  }

  /** ... and one that comes before everything gives way to a top entry. */
  lemma RivalFirst(d: Entry, entries: seq<Entry>, m: Entry, u: Entry)
    requires Best(d, [d] + entries) && Rival(u, d, [d] + entries) && u.idx < d.idx
    requires m in [d] + entries && forall x :: x in [d] + entries ==> x.q <= m.q
    ensures var items := [d] + entries;
            Fold(d, LowsTopsFrom(Lows(entries, items), Tops(entries, items), m, u)) in Tops(entries, items)
    ensures m in Tops(entries, [d] + entries)
  {
    var items := [d] + entries;
    var low, top := Listing(Lows(entries, items) - {u}), Listing(Tops(entries, items) - {m});
    assert Top(m, items) && m != d;
    FoldConcat(d, [u] + low, [m] + top);
    assert ([u] + low)[0] == u && ([u] + low)[1..] == low && Prefer(d, u) == u;
    FoldMember(u, low);
    Rises(Fold(u, low), m, top, items);
  }

  lemma RivalOfDefault(d: Entry, entries: seq<Entry>, u: Entry) returns (a: seq<Entry>, b: seq<Entry>)
    requires NoRepeats(entries) && Best(d, [d] + entries)
    requires Rival(u, d, [d] + entries) && u.idx < d.idx
    ensures Reordered(a, entries) && Reordered(b, entries) && Fold(d, a).idx != Fold(d, b).idx
  {
    hide LowsTops, LowsTopsThen, BestLowsTops, TopsLows, LowsTopsFrom, Fold, NoRepeats, Reordered;
    var items := [d] + entries;
    var m := Highest(items);
    var lows, tops := Lows(entries, items), Tops(entries, items);
    LowsAndTops(entries, items);
    TopsFirst(d, entries, u);
    RivalFirst(d, entries, m, u);
    Orders(entries, lows, tops, m, u);
    OrdersFrom(entries, lows, tops, m, u);
    a, b := TopsLows(lows, tops, u), LowsTopsFrom(lows, tops, m, u);
    if Fold(d, a).idx == Fold(d, b).idx {
      SameIndex(entries, Fold(d, a), Fold(d, b));
    }
  }

  lemma Disturbed(d: Entry, entries: seq<Entry>) returns (a: seq<Entry>, b: seq<Entry>)
    requires NoRepeats(entries) && !Undisturbed(d, entries)
    ensures Reordered(a, entries) && Reordered(b, entries) && Fold(d, a).idx != Fold(d, b).idx
  {
    var items := [d] + entries;
    if Best(d, items) {
      var u :| Rival(u, d, items) && u.idx < d.idx;
      a, b := RivalOfDefault(d, entries, u);
    } else {
      var t, u :| Best(t, items) && Rival(u, t, items) && u.idx <= t.idx;
      if u in entries {
        a, b := ListedRival(d, entries, t, u);
      } else {
        a, b := DefaultRival(d, entries, t);
      }
    }
  }

  // ----- The headers -----

  /** The client's entries preceded by the default choice at weight zero. */
  function Items(lines: seq<string>, encodings: seq<EncodingInfo>, parse: WeightParser): seq<Entry>
    requires encodings != []
  {
    [Default(encodings)] + Accepted(lines, encodings, parse)
  }

  /** The header lists what `lines` lists, in some order. */
  ghost predicate Permutes(b: seq<string>, lines: seq<string>, encodings: seq<EncodingInfo>, parse: WeightParser) {
    multiset(Accepted(b, encodings, parse)) == multiset(Accepted(lines, encodings, parse))
  }

  /** Any header, repeated tokens included: where no rival disturbs the best entry, every order
      of the list selects the encoding of the best entry. */
  lemma OrderIndependent(a: seq<string>, b: seq<string>, encodings: seq<EncodingInfo>, parse: WeightParser)
    requires encodings != []
    ensures Undisturbed(Default(encodings), Accepted(a, encodings, parse)) && Permutes(b, a, encodings, parse) ==>
              && Best(Winner(b, encodings, parse), Items(a, encodings, parse))
              && Winner(a, encodings, parse).idx == Winner(b, encodings, parse).idx
  {
    hide Accepted, Undisturbed;
    if Undisturbed(Default(encodings), Accepted(a, encodings, parse)) && Permutes(b, a, encodings, parse) {
      UndisturbedBest(Default(encodings), Accepted(a, encodings, parse), Accepted(b, encodings, parse));
      UndisturbedBest(Default(encodings), Accepted(a, encodings, parse), Accepted(a, encodings, parse));
    }
  }

  /** No repeated token: the order of the list is immaterial if and only if no rival disturbs
      the best entry. */
  lemma OrderImmaterialIff(lines: seq<string>, encodings: seq<EncodingInfo>, parse: WeightParser, show: int -> string)
    requires Printable(encodings) && Shows(show, parse) && encodings != []
    requires NoRepeats(Accepted(lines, encodings, parse))
    ensures Undisturbed(Default(encodings), Accepted(lines, encodings, parse))
       <==> forall b :: Permutes(b, lines, encodings, parse)
                        ==> Winner(b, encodings, parse).idx == Winner(lines, encodings, parse).idx
  {
    hide Accepted, Undisturbed, Printable, Shows;
    var d, entries := Default(encodings), Accepted(lines, encodings, parse);
    if Undisturbed(d, entries) {
      forall b | Permutes(b, lines, encodings, parse)
        ensures Winner(b, encodings, parse).idx == Winner(lines, encodings, parse).idx
      {
        OrderIndependent(lines, b, encodings, parse);
      }
    } else {
      var s, t := Disturbed(d, entries);
      AcceptedInRange(lines, encodings, parse);
      ReorderedInRange(s, entries, |encodings|);
      ReorderedInRange(t, entries, |encodings|);
      var a := WinnerPrinted(s, encodings, parse, show);
      var b := WinnerPrinted(t, encodings, parse, show);
      assert Permutes([a], lines, encodings, parse) && Permutes([b], lines, encodings, parse);
    }
  }

  lemma ReorderedInRange(a: seq<Entry>, entries: seq<Entry>, n: nat)
    requires Reordered(a, entries) && InRange(entries, n)
    ensures InRange(a, n)
  {
    SameMembers(a, entries);
    assert forall i :: 0 <= i < |a| ==> a[i] in entries;
  }

  // ----- When the weights fall into clusters -----

  /** "Within 0.1" is transitive over the weights present. */
  ghost predicate Clustered(items: seq<Entry>) {
    forall a, b, c :: a in items && b in items && c in items && Within(a.q, b.q) && Within(b.q, c.q)
                      ==> Within(a.q, c.q)
  }

  lemma ClusteredUndisturbed(d: Entry, entries: seq<Entry>)
    requires Clustered([d] + entries)
    ensures Undisturbed(d, entries)
  {
    var items := [d] + entries;
    forall t, u | Top(t, items) && u in items && !Top(u, items)
      ensures !Rival(u, t, items)
    {
      var x :| x in items && x.q - u.q > SLACK;
      if Within(u.q, t.q) {
        assert Within(t.q, x.q);
        assert false;
      }
    }
  }

  /** Clustered weights: the lowest index of the highest cluster. */
  lemma ClusterWinner(lines: seq<string>, encodings: seq<EncodingInfo>, parse: WeightParser)
    requires encodings != [] && Clustered(Items(lines, encodings, parse))
    ensures Best(Winner(lines, encodings, parse), Items(lines, encodings, parse))
  {
    ClusteredUndisturbed(Default(encodings), Accepted(lines, encodings, parse));
    UndisturbedBest(Default(encodings), Accepted(lines, encodings, parse), Accepted(lines, encodings, parse));
  }

  /** Weights above 0.1 and within 0.1 of each other: the lowest index listed wins. */
  lemma CloseWeights(d: Entry, entries: seq<Entry>)
    requires d.q == 0 && entries != []
    requires forall x :: x in entries ==> x.q > SLACK
    requires forall x, y :: x in entries && y in entries ==> Within(x.q, y.q)
    ensures Fold(d, entries) in entries
    ensures forall x :: x in entries ==> Fold(d, entries).idx <= x.idx
  {
    var items, w := [d] + entries, Fold(d, entries);
    assert forall x :: x in items <==> x == d || x in entries;
    assert Clustered(items);
    ClusteredUndisturbed(d, entries);
    UndisturbedBest(d, entries, entries);
    assert entries[0] in items && entries[0].q - d.q > SLACK;
    forall x | x in entries
      ensures w.idx <= x.idx
    {
      assert Top(x, items);
    }
  }

  lemma ReversedThree(s: seq<Entry>, t: seq<Entry>)
    requires |s| == |t| == 3 && t[0] == s[2] && t[1] == s[1] && t[2] == s[0]
    ensures multiset(s) == multiset(t)
  {
    assert s == [s[0]] + [s[1]] + [s[2]] && t == [s[2]] + [s[1]] + [s[0]];
  }

  /** A disturbed list: 1.0, 0.91, 0.82 for the third, second and first encoding select the
      first, and the reverse order selects the third. */
  lemma OrderMatters(encodings: seq<EncodingInfo>, parse: WeightParser, show: int -> string) returns (a: string, b: string)
    requires Printable(encodings) && Shows(show, parse) && |encodings| >= 3
    ensures Permutes([b], [a], encodings, parse)
    ensures Winner([a], encodings, parse).idx == 0 && Winner([b], encodings, parse).idx == 2
  {
    hide Winner, Fold, Accepted, Shows, Printable;
    var s := [Entry(2, 1000), Entry(1, 910), Entry(0, 820)];
    var t := [Entry(0, 820), Entry(1, 910), Entry(2, 1000)];
    FoldThree(Default(encodings), s[0], s[1], s[2]);
    FoldThree(Default(encodings), t[0], t[1], t[2]);
    ReversedThree(s, t);
    a := WinnerPrinted(s, encodings, parse, show);
    b := WinnerPrinted(t, encodings, parse, show);
  }
}
