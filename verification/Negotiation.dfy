/** Accept-Encoding negotiation (handlers.go).  Weights are integer thousandths, as in the
    qvalue grammar of section 12.4.2 of RFC 9110, so the source's 0.1 is `SLACK`; the number
    parser is a parameter, and every statement holds for every parser. */
module Negotiation {
  import opened Text
  import opened Wrappers

  datatype EncodingInfo = EncodingInfo(encoding: string, path: string, size: int, modtime: int)

  predicate DistinctNames(encodings: seq<EncodingInfo>) {
    forall i, j :: 0 <= i < j < |encodings| ==> encodings[i].encoding != encodings[j].encoding
  }

  datatype NegotiationError = NoError | NoEncodings | IdentityMissing

  /** A supported element of the header: the index of the encoding it names and its weight. */
  datatype Entry = Entry(idx: int, q: int)

  type WeightParser = string -> Option<int>

  const SLACK := 100
  const FULL_WEIGHT := 1000

  // ----- Reading the header -----

  /** The first encoding with the given name, or -1. */
  function Find(encodings: seq<EncodingInfo>, name: string, from: nat := 0): (i: int)
    requires from <= |encodings|
    ensures i == -1 || from <= i < |encodings|
    ensures i >= 0 ==> encodings[i].encoding == name
    ensures forall j :: from <= j < (if i == -1 then |encodings| else i) ==> encodings[j].encoding != name
    decreases |encodings| - from
  {
    if from == |encodings| then -1
    else if encodings[from].encoding == name then from
    else Find(encodings, name, from + 1)
  }

  function Weight(params: seq<string>, parse: WeightParser): int {
    if params == [] then FULL_WEIGHT
    else
      var p := TrimSpace(params[0]);
      if "q=" <= p && parse(TrimSpace(p[2..])).Some? then parse(TrimSpace(p[2..])).value
      else Weight(params[1..], parse)
  }

  /** At most one entry for one comma-separated element. */
  function Supported(element: string, encodings: seq<EncodingInfo>, parse: WeightParser): seq<Entry> {
    var e := TrimSpace(element);
    if e == "" then []
    else
      var parts := Split(e, ';');
      var i := Find(encodings, TrimSpace(parts[0]));
      if i == -1 then [] else [Entry(i, Weight(parts[1..], parse))]
  }

  function Collect(elements: seq<string>, encodings: seq<EncodingInfo>, parse: WeightParser): seq<Entry> {
    if elements == [] then []
    else Supported(elements[0], encodings, parse) + Collect(elements[1..], encodings, parse)
  }

  function LineEntries(line: string, encodings: seq<EncodingInfo>, parse: WeightParser): seq<Entry> {
    Collect(Split(TrimSpace(line), ','), encodings, parse)
  }

  /** The supported entries of all header lines, in order. */
  function Accepted(lines: seq<string>, encodings: seq<EncodingInfo>, parse: WeightParser): seq<Entry> {
    if lines == [] then []
    else LineEntries(lines[0], encodings, parse) + Accepted(lines[1..], encodings, parse)
  }

  // ----- The preference rule -----

  predicate Within(a: int, b: int) {
    -SLACK <= a - b <= SLACK
  }

  /** Strong preference for e, or a weak one and e is listed earlier. */
  predicate Replaces(e: Entry, best: Entry) {
    e.q - best.q > SLACK || (Within(e.q, best.q) && e.idx < best.idx)
  }

  function Prefer(best: Entry, e: Entry): Entry {
    if Replaces(e, best) then e else best
  }

  function Fold(best: Entry, entries: seq<Entry>): Entry
    decreases entries
  {
    if entries == [] then best
    else Fold(Prefer(best, entries[0]), entries[1..])
  }

  /** Identity at weight zero; the last encoding when identity is missing. */
  function Default(encodings: seq<EncodingInfo>): Entry
    requires encodings != []
  {
    var i := Find(encodings, "identity");
    Entry(if i == -1 then |encodings| - 1 else i, 0)
  }

  function Winner(lines: seq<string>, encodings: seq<EncodingInfo>, parse: WeightParser): Entry
    requires encodings != []
  {
    Fold(Default(encodings), Accepted(lines, encodings, parse))
  }

  // ----- The loops of the source -----

  method WeightOf(parts: seq<string>, parse: WeightParser) returns (q: int)
    requires parts != []
    ensures q == Weight(parts[1..], parse)
  {
    q := FULL_WEIGHT;
    var i := 1;
    while i < |parts|
      invariant 1 <= i <= |parts|
      invariant q == FULL_WEIGHT
      invariant Weight(parts[1..], parse) == Weight(parts[i..], parse)
    {
      var part := TrimSpace(parts[i]);
      if "q=" <= part {
        part := TrimSpace(part[2..]);
        var parsed := parse(part);
        if parsed.Some? {
          q := parsed.value;
          break;
        }
      }
      i := i + 1;
    }
  }

  method FindEncoding(encodings: seq<EncodingInfo>, name: string) returns (idx: int)
    ensures idx == Find(encodings, name)
  {
    idx := -1;
    for i := 0 to |encodings|
      invariant idx == -1
      invariant Find(encodings, name) == Find(encodings, name, i)
    {
      if encodings[i].encoding == name {
        idx := i;
        break;
      }
    }
  }

  /** One comma-separated element against the selection so far. */
  method ConsiderElement(element: string, encodings: seq<EncodingInfo>, parse: WeightParser, best: Entry)
    returns (r: Entry)
    ensures r == Fold(best, Supported(element, encodings, parse))
  {
    r := best;
    var requestedEncoding := TrimSpace(element);
    if requestedEncoding == "" {
      return;
    }
    var parts := Split(requestedEncoding, ';');
    var requestedIdx := FindEncoding(encodings, TrimSpace(parts[0]));
    if requestedIdx == -1 {
      return;
    }
    var q := WeightOf(parts, parse);
    if q - best.q > SLACK || (-SLACK <= q - best.q <= SLACK && requestedIdx < best.idx) {
      r := Entry(requestedIdx, q);
    }
  }

  /** One header line against the selection so far. */
  method ConsiderLine(line: string, encodings: seq<EncodingInfo>, parse: WeightParser, best: Entry)
    returns (r: Entry)
    ensures r == Fold(best, LineEntries(line, encodings, parse))
  {
    r := best;
    var header := TrimSpace(line);
    if header == "" {
      BlankLine(line, encodings, parse);
      return;
    }
    var elements := Split(header, ',');
    for k := 0 to |elements|
      invariant Fold(best, Collect(elements, encodings, parse)) == Fold(r, Collect(elements[k..], encodings, parse))
    {
      FoldConcat(r, Supported(elements[k], encodings, parse), Collect(elements[k + 1..], encodings, parse));
      r := ConsiderElement(elements[k], encodings, parse, r);
    }
  }

  /** The choice is the fold of the preference rule over the header, for any number of
      encodings: with a single one the shortcut and the fold agree. */
  method Negotiate(acceptHeaders: seq<string>, encodings: seq<EncodingInfo>, parse: WeightParser)
    returns (choice: Option<nat>, err: NegotiationError)
    ensures encodings == [] ==> choice == None && err == NoEncodings
    ensures encodings != [] ==>
              && choice.Some? && choice.value == Winner(acceptHeaders, encodings, parse).idx
              && err == if Find(encodings, "identity") == -1 then IdentityMissing else NoError
  {
    err := NoError;
    if |encodings| == 0 {
      return None, NoEncodings;
    }
    if |encodings| == 1 {
      if encodings[0].encoding != "identity" {
        err := IdentityMissing;
      }
      WinnerInRange(acceptHeaders, encodings, parse);
      return Some(0), err;
    }
    var maxqIdx := FindEncoding(encodings, "identity");
    if maxqIdx == -1 {
      err := IdentityMissing;
      maxqIdx := |encodings| - 1;
    }
    var best := Entry(maxqIdx, 0);
    for h := 0 to |acceptHeaders|
      invariant Winner(acceptHeaders, encodings, parse) == Fold(best, Accepted(acceptHeaders[h..], encodings, parse))
    {
      FoldConcat(best, LineEntries(acceptHeaders[h], encodings, parse), Accepted(acceptHeaders[h + 1..], encodings, parse));
      best := ConsiderLine(acceptHeaders[h], encodings, parse, best);
    }
    WinnerInRange(acceptHeaders, encodings, parse);
    choice := Some(best.idx);
  }

  lemma BlankLine(line: string, encodings: seq<EncodingInfo>, parse: WeightParser)
    requires TrimSpace(line) == ""
    ensures LineEntries(line, encodings, parse) == []
  {
    var blank: seq<string> := [""];
    assert Split(TrimSpace(line), ',') == blank;
    assert Supported(blank[0], encodings, parse) == [];
    assert Collect(blank[1..], encodings, parse) == [];
  }

  predicate InRange(entries: seq<Entry>, n: nat) {
    forall i :: 0 <= i < |entries| ==> 0 <= entries[i].idx < n
  }

  lemma {:induction false} CollectInRange(elements: seq<string>, encodings: seq<EncodingInfo>, parse: WeightParser)
    ensures InRange(Collect(elements, encodings, parse), |encodings|)
  {
    if elements != [] {
      CollectInRange(elements[1..], encodings, parse);
    }
  }

  lemma {:induction false} AcceptedInRange(lines: seq<string>, encodings: seq<EncodingInfo>, parse: WeightParser)
    ensures InRange(Accepted(lines, encodings, parse), |encodings|)
  {
    if lines != [] {
      CollectInRange(Split(TrimSpace(lines[0]), ','), encodings, parse);
      AcceptedInRange(lines[1..], encodings, parse);
    }
  }

  lemma {:induction false} FoldMember(best: Entry, entries: seq<Entry>)
    ensures Fold(best, entries) == best || Fold(best, entries) in entries
    decreases entries
  {
    if entries != [] {
      FoldMember(Prefer(best, entries[0]), entries[1..]);
    }
  }

  lemma WinnerInRange(lines: seq<string>, encodings: seq<EncodingInfo>, parse: WeightParser)
    requires encodings != []
    ensures 0 <= Winner(lines, encodings, parse).idx < |encodings|
  {
    AcceptedInRange(lines, encodings, parse);
    FoldMember(Default(encodings), Accepted(lines, encodings, parse));
  }

  lemma {:induction false} CollectConcat(a: seq<string>, b: seq<string>, encodings: seq<EncodingInfo>, parse: WeightParser)
    ensures Collect(a + b, encodings, parse) == Collect(a, encodings, parse) + Collect(b, encodings, parse)
  {
    if a == [] {
      assert a + b == b;
    } else {
      assert (a + b)[1..] == a[1..] + b;
      CollectConcat(a[1..], b, encodings, parse);
    }
  }

  lemma {:induction false} FoldConcat(best: Entry, a: seq<Entry>, b: seq<Entry>)
    ensures Fold(best, a + b) == Fold(Fold(best, a), b)
    decreases a
  {
    if a == [] {
      assert a + b == b;
    } else {
      assert (a + b)[1..] == a[1..] + b;
      FoldConcat(Prefer(best, a[0]), a[1..], b);
    }
  }
}
