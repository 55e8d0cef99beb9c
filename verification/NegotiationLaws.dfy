/** What Accept-Encoding negotiation guarantees, and where its "within 0.1" rule, which is
    not transitive, stops guaranteeing it. */
module NegotiationLaws {
  import opened Text
  import opened Wrappers
  import opened Negotiation

  // ----- The header as a list of elements (section 5.6.1 of RFC 9110) -----

  lemma {:induction false} SupportedTrims(l: string, x: string, r: string, encodings: seq<EncodingInfo>, parse: WeightParser)
    requires AllSpace(l) && AllSpace(r)
    ensures Supported(l + x + r, encodings, parse) == Supported(x, encodings, parse)
  {
    hide Split, Find, Weight, AllSpace;
    TrimSpaceAbsorbs(l, x, r);
  }

  lemma SpaceFree(w: string)
    requires AllSpace(w)
    ensures Free(w, ',')
  {
  }

  lemma CollectHeadPadded(l: string, parts: seq<string>, encodings: seq<EncodingInfo>, parse: WeightParser)
    requires AllSpace(l) && parts != []
    ensures Collect([l + parts[0]] + parts[1..], encodings, parse) == Collect(parts, encodings, parse)
  {
    hide Supported;
    SupportedTrims(l, parts[0], "", encodings, parse);
    assert l + parts[0] + "" == l + parts[0];
    assert ([l + parts[0]] + parts[1..])[1..] == parts[1..];
  }

  lemma CollectLastPadded(parts: seq<string>, r: string, encodings: seq<EncodingInfo>, parse: WeightParser)
    requires AllSpace(r) && parts != []
    ensures var n := |parts| - 1;
            Collect(parts[..n] + [parts[n] + r], encodings, parse) == Collect(parts, encodings, parse)
  {
    hide Supported;
    var n := |parts| - 1;
    SupportedTrims("", parts[n], r, encodings, parse);
    assert "" + parts[n] + r == parts[n] + r;
    CollectConcat(parts[..n], [parts[n] + r], encodings, parse);
    CollectConcat(parts[..n], [parts[n]], encodings, parse);
    assert parts == parts[..n] + [parts[n]];
  }

  lemma CollectPadLeft(l: string, s: string, encodings: seq<EncodingInfo>, parse: WeightParser)
    requires AllSpace(l)
    ensures Collect(Split(l + s, ','), encodings, parse) == Collect(Split(s, ','), encodings, parse)
  {
    SpaceFree(l);
    hide Split, Collect, AllSpace, Free;
    SplitPrefix(l, s, ',');
    CollectHeadPadded(l, Split(s, ','), encodings, parse);
  }

  lemma CollectPadRight(s: string, r: string, encodings: seq<EncodingInfo>, parse: WeightParser)
    requires AllSpace(r)
    ensures Collect(Split(s + r, ','), encodings, parse) == Collect(Split(s, ','), encodings, parse)
  {
    SpaceFree(r);
    hide Split, Collect, AllSpace, Free;
    SplitSuffix(s, r, ',');
    CollectLastPadded(Split(s, ','), r, encodings, parse);
  }

  lemma CollectPadded(l: string, s: string, r: string, encodings: seq<EncodingInfo>, parse: WeightParser)
    requires AllSpace(l) && AllSpace(r)
    ensures Collect(Split(l + s + r, ','), encodings, parse) == Collect(Split(s, ','), encodings, parse)
  {
    hide Split, Collect, AllSpace;
    CollectPadRight(l + s, r, encodings, parse);
    CollectPadLeft(l, s, encodings, parse);
  }

  /** Trimming a whole line before splitting it makes no difference. */
  lemma LineEntriesUntrimmed(line: string, encodings: seq<EncodingInfo>, parse: WeightParser)
    ensures LineEntries(line, encodings, parse) == Collect(Split(line, ','), encodings, parse)
  {
    var l, r := TrimSpaceSplits(line);
    CollectPadded(l, TrimSpace(line), r, encodings, parse);
  }

  /** A comma anywhere in a line, however the pieces are padded, separates it into two lines. */
  lemma LineConcat(a: string, b: string, encodings: seq<EncodingInfo>, parse: WeightParser)
    ensures LineEntries(a + "," + b, encodings, parse)
         == LineEntries(a, encodings, parse) + LineEntries(b, encodings, parse)
  {
    LineEntriesUntrimmed(a, encodings, parse);
    LineEntriesUntrimmed(b, encodings, parse);
    LineEntriesUntrimmed(a + "," + b, encodings, parse);
    SplitConcat(a, b, ',');
    CollectConcat(Split(a, ','), Split(b, ','), encodings, parse);
  }

  lemma {:induction false} AcceptedJoined(lines: seq<string>, encodings: seq<EncodingInfo>, parse: WeightParser)
    ensures Accepted(lines, encodings, parse) == LineEntries(Join(lines, ','), encodings, parse)
  {
    if lines == [] {
      BlankLine("", encodings, parse);
    } else {
      AcceptedJoined(lines[1..], encodings, parse);
      if |lines| == 1 {
        BlankLine("", encodings, parse);
        assert LineEntries(lines[0], encodings, parse) + [] == LineEntries(lines[0], encodings, parse);
      } else {
        LineConcat(lines[0], Join(lines[1..], ','), encodings, parse);
      }
    }
  }

  /** Several header lines mean what their comma-joined line means (section 5.3 of RFC 9110). */
  lemma JoinedLinesSameWinner(lines: seq<string>, encodings: seq<EncodingInfo>, parse: WeightParser)
    requires encodings != []
    ensures Winner(lines, encodings, parse) == Winner([Join(lines, ',')], encodings, parse)
  {
    AcceptedJoined(lines, encodings, parse);
    AcceptedJoined([Join(lines, ',')], encodings, parse);
  }

  /** The trimmed, non-empty elements of the list. */
  function Elements(parts: seq<string>): seq<string> {
    if parts == [] then []
    else (if TrimSpace(parts[0]) == "" then [] else [TrimSpace(parts[0])]) + Elements(parts[1..])
  }

  lemma {:induction false} CollectElements(parts: seq<string>, encodings: seq<EncodingInfo>, parse: WeightParser)
    ensures Collect(parts, encodings, parse) == Collect(Elements(parts), encodings, parse)
  {
    if parts != [] {
      CollectElements(parts[1..], encodings, parse);
      var t := TrimSpace(parts[0]);
      var l, r := TrimSpaceSplits(parts[0]);
      SupportedTrims(l, t, r, encodings, parse);
      if t != "" {
        assert ([t] + Elements(parts[1..]))[1..] == Elements(parts[1..]);
      } else {
        assert [] + Elements(parts[1..]) == Elements(parts[1..]);
      }
    }
  }

  lemma AcceptedElements(lines: seq<string>, encodings: seq<EncodingInfo>, parse: WeightParser)
    ensures Accepted(lines, encodings, parse) == Collect(Elements(Split(Join(lines, ','), ',')), encodings, parse)
  {
    AcceptedJoined(lines, encodings, parse);
    LineEntriesUntrimmed(Join(lines, ','), encodings, parse);
    CollectElements(Split(Join(lines, ','), ','), encodings, parse);
  }

  lemma TrimSpaceTrimmed(s: string)
    requires Trimmed(s)
    ensures TrimSpace(s) == s
  {
    TrimSpaceUnique("", s, "");
    assert "" + s + "" == s;
  }

  /** The encoding an element of the list names. */
  function NameOf(element: string): string {
    TrimSpace(Split(element, ';')[0])
  }

  /** The header names this encoding. */
  ghost predicate Named(lines: seq<string>, encoding: string) {
    exists el :: el in Elements(Split(Join(lines, ','), ',')) && NameOf(el) == encoding
  }

  lemma {:induction false} ElementTrimmed(parts: seq<string>, el: string)
    requires el in Elements(parts)
    ensures el != "" && TrimSpace(el) == el
  {
    var t := TrimSpace(parts[0]);
    if el in Elements(parts[1..]) {
      ElementTrimmed(parts[1..], el);
    } else {
      var l, r := TrimSpaceSplits(parts[0]);
      TrimSpaceTrimmed(t);
    }
  }

  lemma {:induction false} CollectNames(elements: seq<string>, encodings: seq<EncodingInfo>, parse: WeightParser, name: string)
    requires DistinctNames(encodings) && forall el :: el in elements ==> el != "" && TrimSpace(el) == el
    ensures (exists x :: x in Collect(elements, encodings, parse) && 0 <= x.idx < |encodings| && encodings[x.idx].encoding == name)
       <==> (exists el :: el in elements && NameOf(el) == name) && exists i :: 0 <= i < |encodings| && encodings[i].encoding == name
  {
    hide Weight, TrimSpace, Split, DistinctNames;
    if elements != [] {
      assert forall el :: el in elements <==> el == elements[0] || el in elements[1..];
      CollectNames(elements[1..], encodings, parse, name);
      var first := Supported(elements[0], encodings, parse);
      var i := Find(encodings, NameOf(elements[0]));
      assert first == if i == -1 then [] else [Entry(i, Weight(Split(elements[0], ';')[1..], parse))];
      assert forall x :: x in Collect(elements, encodings, parse) <==> x in first || x in Collect(elements[1..], encodings, parse);
      if i != -1 {
        assert first[0] in first && encodings[first[0].idx].encoding == NameOf(elements[0]);
      }
    }
  }

  /** The available encodings that have an entry are those that the header names. */
  lemma AcceptedNames(lines: seq<string>, encodings: seq<EncodingInfo>, parse: WeightParser, i: nat)
    requires DistinctNames(encodings) && i < |encodings|
    ensures (exists x :: x in Accepted(lines, encodings, parse) && x.idx == i) <==> Named(lines, encodings[i].encoding)
  {
    var elements := Elements(Split(Join(lines, ','), ','));
    AcceptedElements(lines, encodings, parse);
    AcceptedInRange(lines, encodings, parse);
    hide Accepted, Elements, Collect, Split, TrimSpace, NameOf;
    forall el | el in elements
      ensures el != "" && TrimSpace(el) == el
    {
      ElementTrimmed(Split(Join(lines, ','), ','), el);
    }
    CollectNames(elements, encodings, parse, encodings[i].encoding);
  }

  /** Two headers whose lines hold the same elements, up to empty elements, surrounding white
      space and the way they are spread over lines, select the same encoding. */
  lemma SameElementsSameWinner(a: seq<string>, b: seq<string>, encodings: seq<EncodingInfo>, parse: WeightParser)
    requires encodings != []
    requires Elements(Split(Join(a, ','), ',')) == Elements(Split(Join(b, ','), ','))
    ensures Winner(a, encodings, parse) == Winner(b, encodings, parse)
  {
    forall h | h in [a, b]
      ensures Accepted(h, encodings, parse) == Collect(Elements(Split(Join(h, ','), ',')), encodings, parse)
    {
      AcceptedElements(h, encodings, parse);
    }
    assert a in [a, b] && b in [a, b];
  }

  /** A parameter that gives a weight. */
  predicate GivesWeight(param: string, parse: WeightParser) {
    var p := TrimSpace(param);
    "q=" <= p && parse(TrimSpace(p[2..])).Some?
  }

  /** The weight is that of the first parameter that gives one, and 1 when none does: a
      malformed weight is passed over. */
  lemma {:induction false} WeightIsFirstGiven(params: seq<string>, parse: WeightParser, i: nat)
    requires i <= |params| && forall j :: 0 <= j < i ==> !GivesWeight(params[j], parse)
    requires i < |params| ==> GivesWeight(params[i], parse)
    ensures i == |params| ==> Weight(params, parse) == 1000
    ensures i < |params| ==> Some(Weight(params, parse)) == parse(TrimSpace(TrimSpace(params[i])[2..]))
  {
    hide TrimSpace;
    if i > 0 {
      assert !GivesWeight(params[0], parse);
      WeightIsFirstGiven(params[1..], parse, i - 1);
    }
  }

  // ----- Writing a header, and reading it back -----

  predicate Token(s: string) {
    s != "" && Trimmed(s) && Free(s, ',') && Free(s, ';')
  }

  predicate Printable(encodings: seq<EncodingInfo>) {
    DistinctNames(encodings) && forall i :: 0 <= i < |encodings| ==> Token(encodings[i].encoding)
  }

  /** `show` writes weights that `parse` reads back. */
  ghost predicate Shows(show: int -> string, parse: WeightParser) {
    forall q :: Token(show(q)) && parse(show(q)) == Some(q)
  }

  function PrintElements(entries: seq<Entry>, encodings: seq<EncodingInfo>, show: int -> string): seq<string>
    requires InRange(entries, |encodings|)
  {
    if entries == [] then []
    else [encodings[entries[0].idx].encoding + ";" + ("q=" + show(entries[0].q))]
         + PrintElements(entries[1..], encodings, show)
  }

  function PrintHeader(entries: seq<Entry>, encodings: seq<EncodingInfo>, show: int -> string): string
    requires InRange(entries, |encodings|)
  {
    Join(PrintElements(entries, encodings, show), ',')
  }

  lemma SplitPrinted(name: string, value: string)
    requires Token(name) && Token(value)
    ensures var param := "q=" + value;
            var element := name + ";" + param;
            && TrimSpace(element) == element && TrimSpace(name) == name && TrimSpace(param) == param && TrimSpace(value) == value
            && Split(element, ';') == [name, param] && param[2..] == value
  {
    var param := "q=" + value;
    var element := name + ";" + param;
    TrimSpaceTrimmed(element);
    TrimSpaceTrimmed(name);
    TrimSpaceTrimmed(param);
    TrimSpaceTrimmed(value);
    SplitConcat(name, param, ';');
    SplitFree(name, ';');
    SplitFree(param, ';');
  }

  lemma SupportedPrinted(e: Entry, encodings: seq<EncodingInfo>, parse: WeightParser, show: int -> string)
    requires Printable(encodings) && Shows(show, parse) && 0 <= e.idx < |encodings|
    ensures Supported(encodings[e.idx].encoding + ";" + ("q=" + show(e.q)), encodings, parse) == [e]
  {
    var name, param := encodings[e.idx].encoding, "q=" + show(e.q);
    assert Token(name) && Token(show(e.q));
    SplitPrinted(name, show(e.q));
    hide Split, TrimSpace, Token;
    assert [name, param][1..] == [param];
    assert Weight([param], parse) == e.q;
  }

  lemma PrintedFree(e: Entry, encodings: seq<EncodingInfo>, parse: WeightParser, show: int -> string)
    requires Printable(encodings) && Shows(show, parse) && 0 <= e.idx < |encodings|
    ensures Free(encodings[e.idx].encoding + ";" + ("q=" + show(e.q)), ',')
  {
    assert Token(encodings[e.idx].encoding) && Token(show(e.q));
  }

  lemma {:induction false} CollectPrinted(entries: seq<Entry>, encodings: seq<EncodingInfo>, parse: WeightParser, show: int -> string)
    requires Printable(encodings) && Shows(show, parse) && InRange(entries, |encodings|)
    ensures var parts := PrintElements(entries, encodings, show);
            Collect(parts, encodings, parse) == entries && AllFree(parts, ',')
  {
    if entries != [] {
      hide Supported, Printable, Shows, Free;
      CollectPrinted(entries[1..], encodings, parse, show);
      SupportedPrinted(entries[0], encodings, parse, show);
      PrintedFree(entries[0], encodings, parse, show);
      var parts := PrintElements(entries, encodings, show);
      assert parts[1..] == PrintElements(entries[1..], encodings, show);
    }
  }

  /** Every list of entries is what some header line is read as. */
  lemma HeaderRoundTrip(entries: seq<Entry>, encodings: seq<EncodingInfo>, parse: WeightParser, show: int -> string)
    requires Printable(encodings) && Shows(show, parse) && InRange(entries, |encodings|)
    ensures Accepted([PrintHeader(entries, encodings, show)], encodings, parse) == entries
  {
    var parts := PrintElements(entries, encodings, show);
    CollectPrinted(entries, encodings, parse, show);
    AcceptedJoined([PrintHeader(entries, encodings, show)], encodings, parse);
    LineEntriesUntrimmed(PrintHeader(entries, encodings, show), encodings, parse);
    if entries != [] {
      SplitJoin(parts, ',');
    } else {
      BlankLine("", encodings, parse);
    }
  }

  lemma WinnerPrinted(entries: seq<Entry>, encodings: seq<EncodingInfo>, parse: WeightParser, show: int -> string)
    returns (a: string)
    requires Printable(encodings) && Shows(show, parse) && InRange(entries, |encodings|) && encodings != []
    ensures Accepted([a], encodings, parse) == entries
    ensures Winner([a], encodings, parse) == Fold(Default(encodings), entries)
  {
    a := PrintHeader(entries, encodings, show);
    HeaderRoundTrip(entries, encodings, parse, show);
  }

  /** The encoding served to a client that asks for nothing. */
  predicate IsDefault(encodings: seq<EncodingInfo>, j: nat) {
    && j < |encodings|
    && if encodings[j].encoding == "identity" then true
       else j == |encodings| - 1 && forall i :: 0 <= i < |encodings| ==> encodings[i].encoding != "identity"
  }

  /** A client that lists one available encoding gets it if its weight is above 0.1, or is
      within 0.1 of nothing and it comes before the default; otherwise the default. */
  lemma OneListed(lines: seq<string>, encodings: seq<EncodingInfo>, parse: WeightParser, i: nat, q: int, j: nat)
    requires DistinctNames(encodings) && IsDefault(encodings, j) && Accepted(lines, encodings, parse) == [Entry(i, q)]
    ensures Winner(lines, encodings, parse).idx == if q > 100 || (-100 <= q <= 100 && i < j) then i else j
  {
    hide Accepted;
    assert Default(encodings).idx == j;
    var one := [Entry(i, q)];
    assert one[1..] == [];
    assert Fold(Default(encodings), one) == Prefer(Default(encodings), one[0]);
  }

  /** A client that lists nothing available gets the original, or the last encoding for want of one. */
  lemma NothingListed(lines: seq<string>, encodings: seq<EncodingInfo>, parse: WeightParser)
    requires encodings != [] && Accepted(lines, encodings, parse) == []
    ensures var i := Winner(lines, encodings, parse).idx;
            if exists j :: 0 <= j < |encodings| && encodings[j].encoding == "identity"
            then 0 <= i < |encodings| && encodings[i].encoding == "identity"
            else i == |encodings| - 1
  {
    hide Accepted;
  }

  // ----- How far below the best listed weight the choice can be -----

  lemma FoldThree(d: Entry, x: Entry, y: Entry, z: Entry)
    ensures Fold(d, [x, y, z]) == Prefer(Prefer(Prefer(d, x), y), z)
  {
    var s, t, u := [x, y, z], [y, z], [z];
    assert s[1..] == t && t[1..] == u && u[1..] == [];
    assert Fold(d, s) == Fold(Prefer(d, x), t) == Fold(Prefer(Prefer(d, x), y), u);
  }

  lemma {:induction false} FoldDrop(best: Entry, entries: seq<Entry>)
    ensures Fold(best, entries).q >= best.q - SLACK * |entries|
    decreases entries
  {
    if entries != [] {
      FoldDrop(Prefer(best, entries[0]), entries[1..]);
    }
  }

  /** Two encodings: q - 0.1 * idx never decreases, whatever the list. */
  lemma {:induction false} FoldPotential(best: Entry, entries: seq<Entry>)
    requires 0 <= best.idx < 2 && InRange(entries, 2)
    ensures Fold(best, entries).q - SLACK * Fold(best, entries).idx >= best.q - SLACK * best.idx
    ensures 0 <= Fold(best, entries).idx < 2
    decreases entries
  {
    if entries != [] {
      FoldPotential(Prefer(best, entries[0]), entries[1..]);
    }
  }

  lemma FoldAfter(best: Entry, entries: seq<Entry>, k: nat)
    requires k < |entries|
    ensures Fold(best, entries) == Fold(Fold(best, entries[..k + 1]), entries[k + 1..])
    ensures Fold(best, entries[..k + 1]).q >= entries[k].q - SLACK
  {
    assert entries == entries[..k + 1] + entries[k + 1..];
    FoldConcat(best, entries[..k + 1], entries[k + 1..]);
    assert entries[..k + 1] == entries[..k] + [entries[k]];
    FoldConcat(best, entries[..k], [entries[k]]);
  }

  /** Two encodings, any header: no listed weight is more than 0.2 above the chosen one. */
  lemma TwoEncodingsBound(lines: seq<string>, encodings: seq<EncodingInfo>, parse: WeightParser, e: Entry)
    requires |encodings| == 2 && e in Accepted(lines, encodings, parse)
    ensures e.q - Winner(lines, encodings, parse).q <= 2 * SLACK
  {
    var entries, d := Accepted(lines, encodings, parse), Default(encodings);
    AcceptedInRange(lines, encodings, parse);
    var k :| 0 <= k < |entries| && entries[k] == e;
    FoldAfter(d, entries, k);
    FoldPotential(d, entries[..k + 1]);
    FoldPotential(Fold(d, entries[..k + 1]), entries[k + 1..]);
  }

  /** ... and 0.2 is reached. */
  lemma TwoEncodingsBoundTight(encodings: seq<EncodingInfo>, parse: WeightParser, show: int -> string) returns (a: string, e: Entry)
    requires Printable(encodings) && Shows(show, parse) && |encodings| == 2
    ensures e in Accepted([a], encodings, parse)
    ensures e.q - Winner([a], encodings, parse).q == 2 * SLACK
  {
    var s := [Entry(1, 101), Entry(1, 201), Entry(0, 1)];
    FoldThree(Default(encodings), s[0], s[1], s[2]);
    a := WinnerPrinted(s, encodings, parse, show);
    e := s[1];
  }

  predicate NoRepeats(entries: seq<Entry>) {
    forall i, j :: 0 <= i < j < |entries| ==> entries[i].idx != entries[j].idx
  }

  lemma {:induction false} Pigeonhole(entries: seq<Entry>, free: set<int>)
    requires NoRepeats(entries) && forall i :: 0 <= i < |entries| ==> entries[i].idx in free
    ensures |entries| <= |free|
    decreases entries
  {
    if entries != [] {
      Pigeonhole(entries[1..], free - {entries[0].idx});
    }
  }

  lemma {:induction false} RangeSet(n: nat) returns (s: set<int>)
    ensures |s| == n && forall i :: 0 <= i < n <==> i in s
  {
    if n == 0 {
      s := {};
    } else {
      s := RangeSet(n - 1);
      s := s + {n - 1};
    }
  }

  /** n encodings and no repeated token: no listed weight is more than 0.1 * n above the chosen
      one, and none is more than 0.1 * (n - 1) above it when no weight is negative and n >= 2. */
  lemma NoRepeatsBound(lines: seq<string>, encodings: seq<EncodingInfo>, parse: WeightParser, e: Entry)
    requires encodings != []
    requires e in Accepted(lines, encodings, parse) && NoRepeats(Accepted(lines, encodings, parse))
    ensures e.q - Winner(lines, encodings, parse).q <= SLACK * |encodings|
    ensures |encodings| >= 2 && (forall x :: x in Accepted(lines, encodings, parse) ==> x.q >= 0)
            ==> e.q - Winner(lines, encodings, parse).q <= SLACK * (|encodings| - 1)
  {
    hide Accepted;
    var entries, d := Accepted(lines, encodings, parse), Default(encodings);
    AcceptedInRange(lines, encodings, parse);
    var range := RangeSet(|encodings|);
    Pigeonhole(entries, range);
    var k :| 0 <= k < |entries| && entries[k] == e;
    FoldAfter(d, entries, k);
    FoldDrop(Fold(d, entries[..k + 1]), entries[k + 1..]);
    if k == 0 {
      FoldDrop(Prefer(d, e), entries[1..]);
      FoldMember(d, entries);
    }
  }

  /** From encoding i down to the first, each 0.1 below the one before. */
  function Stairs(i: nat, q: int): seq<Entry> {
    if i == 0 then [] else [Entry(i - 1, q - SLACK)] + Stairs(i - 1, q - SLACK)
  }

  lemma {:induction false} StairsDescend(i: nat, q: int)
    ensures Fold(Entry(i, q), Stairs(i, q)) == Entry(0, q - SLACK * i)
    ensures NoRepeats(Stairs(i, q))
    ensures forall k :: 0 <= k < |Stairs(i, q)| ==>
              var x := Stairs(i, q)[k]; 0 <= x.idx < i && q - SLACK * i <= x.q < q
  {
    if i > 0 {
      StairsDescend(i - 1, q - SLACK);
      var rest := Stairs(i - 1, q - SLACK);
      assert Stairs(i, q)[1..] == rest;
      assert forall k :: 0 < k < |Stairs(i, q)| ==> Stairs(i, q)[k] == rest[k - 1];
    }
  }

  /** Both bounds are reached.  The weights: 0.1 * (n - 1) + 0.001 for the last encoding and 0.1
      less for each one before it, at least 0.001 throughout. */
  lemma NoRepeatsBoundTight(encodings: seq<EncodingInfo>, parse: WeightParser, show: int -> string) returns (a: string, e: Entry)
    requires Printable(encodings) && Shows(show, parse) && |encodings| >= 2
    ensures e in Accepted([a], encodings, parse) && NoRepeats(Accepted([a], encodings, parse))
    ensures forall x :: x in Accepted([a], encodings, parse) ==> 0 < x.q <= SLACK * (|encodings| - 1) + 1
    ensures e.q - Winner([a], encodings, parse).q == SLACK * (|encodings| - 1)
  {
    hide Accepted, Winner, Shows, Printable;
    var n := |encodings| - 1;
    e := Entry(n, SLACK * n + 1);
    var entries := [e] + Stairs(n, e.q);
    StairsDescend(n, e.q);
    assert entries[1..] == Stairs(n, e.q) && Prefer(Default(encodings), e) == e;
    a := WinnerPrinted(entries, encodings, parse, show);
  }

  /** With negative weights: 0.1 for a last encoding that is also the default, which is too
      little to replace the default's zero, then -0.1, -0.2, ... for the encodings before it. */
  lemma NoRepeatsBoundTightNegative(encodings: seq<EncodingInfo>, parse: WeightParser, show: int -> string)
    returns (a: string, e: Entry)
    requires Printable(encodings) && Shows(show, parse) && encodings != [] && Default(encodings).idx == |encodings| - 1
    ensures e in Accepted([a], encodings, parse) && NoRepeats(Accepted([a], encodings, parse))
    ensures e.q - Winner([a], encodings, parse).q == SLACK * |encodings|
  {
    hide Accepted, Winner, Shows, Printable;
    var n := |encodings| - 1;
    e := Entry(n, SLACK);
    var entries := [e] + Stairs(n, 0);
    StairsDescend(n, 0);
    assert entries[1..] == Stairs(n, 0) && Prefer(Default(encodings), e) == Entry(n, 0);
    a := WinnerPrinted(entries, encodings, parse, show);
  }

  /** Two small steps down to an earlier encoding and one large step up to the third, k times
      over: each round loses 0.097.  No two weights compared are exactly 0.1 apart. */
  function Drift(q: int, k: nat): seq<Entry> {
    if k == 0 then [Entry(2, q)]
    else
      var w := q - 97 * (k - 1);
      Drift(q, k - 1) + [Entry(1, w - 99), Entry(0, w - 198), Entry(2, w - 97)]
  }

  lemma {:induction false} DriftSinks(d: Entry, q: int, k: nat)
    requires d.q < q - SLACK
    ensures Fold(d, Drift(q, k)) == Entry(2, q - 97 * k)
  {
    if k == 0 {
      assert Fold(d, [Entry(2, q)]) == Entry(2, q);
    } else {
      DriftSinks(d, q, k - 1);
      var w := q - 97 * (k - 1);
      FoldConcat(d, Drift(q, k - 1), [Entry(1, w - 99), Entry(0, w - 198), Entry(2, w - 97)]);
      FoldThree(Entry(2, w), Entry(1, w - 99), Entry(0, w - 198), Entry(2, w - 97));
    }
  }

  predicate DriftOk(q: int, k: nat, entries: seq<Entry>) {
    forall i :: 0 <= i < |entries| ==> 0 <= entries[i].idx < 3 && q - 97 * k - 101 <= entries[i].q <= q
  }

  lemma DriftRound(q: int, k: nat, before: seq<Entry>, round: seq<Entry>)
    requires k > 0 && DriftOk(q, k - 1, before) && DriftOk(q, k, round) && Entry(2, q) in before
    ensures DriftOk(q, k, before + round) && Entry(2, q) in before + round
  {
  }

  lemma {:induction false} DriftWeights(q: int, k: nat)
    ensures DriftOk(q, k, Drift(q, k)) && Entry(2, q) in Drift(q, k)
  {
    if k == 0 {
      assert Drift(q, k)[0] == Entry(2, q);
    } else {
      DriftWeights(q, k - 1);
      var w := q - 97 * (k - 1);
      DriftRound(q, k, Drift(q, k - 1), [Entry(1, w - 99), Entry(0, w - 198), Entry(2, w - 97)]);
    }
  }

  /** Three encodings and repeats: no bound, whatever it is, holds for all headers. */
  lemma DriftUnbounded(bound: nat, encodings: seq<EncodingInfo>, parse: WeightParser, show: int -> string)
    returns (a: string, e: Entry)
    requires Printable(encodings) && Shows(show, parse) && |encodings| >= 3
    ensures e in Accepted([a], encodings, parse)
    ensures e.q - Winner([a], encodings, parse).q > bound
  {
    var entries := Drift(1000, bound + 1);
    DriftSinks(Default(encodings), 1000, bound + 1);
    DriftWeights(1000, bound + 1);
    a := WinnerPrinted(entries, encodings, parse, show);
    e := Entry(2, 1000);
  }

  predicate Legal(entries: seq<Entry>) {
    forall i :: 0 <= i < |entries| ==> 0 <= entries[i].idx < 3 && 0 <= entries[i].q <= FULL_WEIGHT
  }

  /** k rounds and two more steps down. */
  lemma DriftThenTwo(d: Entry, q: int, k: nat, s: seq<Entry>)
    requires d.q < q - SLACK && s == [Entry(1, q - 97 * k - 99), Entry(0, q - 97 * k - 127)]
    ensures Fold(d, Drift(q, k) + s) == s[1]
  {
    DriftSinks(d, q, k);
    FoldConcat(d, Drift(q, k), s);
    hide Drift;
    assert s[1..] == [s[1]];
    assert Fold(s[0], s[1..]) == s[1];
  }

  lemma LegalDrift(drift: seq<Entry>, s: seq<Entry>)
    requires DriftOk(1000, 9, drift) && Legal(s)
    ensures Legal(drift + s)
  {
  }

  /** Nine rounds and two steps: even with every weight between 0 and 1, an encoding of weight 0 can be chosen over one of
      weight 1: the whole range can be lost. */
  lemma DriftLegal(encodings: seq<EncodingInfo>, parse: WeightParser, show: int -> string) returns (a: string, e: Entry)
    requires Printable(encodings) && Shows(show, parse) && |encodings| >= 3
    ensures e in Accepted([a], encodings, parse) && e.q == FULL_WEIGHT && Winner([a], encodings, parse).q == 0
    ensures forall x :: x in Accepted([a], encodings, parse) ==> 0 <= x.q <= FULL_WEIGHT
  {
    hide Drift, Accepted, Winner, Shows, Printable;
    var s := [Entry(1, 28), Entry(0, 0)];
    DriftThenTwo(Default(encodings), 1000, 9, s);
    DriftWeights(1000, 9);
    LegalDrift(Drift(1000, 9), s);
    var entries := Drift(1000, 9) + s;
    a := WinnerPrinted(entries, encodings, parse, show);
    e := Entry(2, 1000);
  }
}
