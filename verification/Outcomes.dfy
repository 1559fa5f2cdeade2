/**
 What a finished request did, compared with what it means: exactly when a success is the truth.
 */
module Outcomes {
  import opened Tokens
  import opened Loader
  import opened Behind
  import opened BusRuns
  import opened Execution

  /** The lists of a chain of known tokens do what it means, when driver and hardware start with these directions:
      wherever a list is full behind an END the next byte is END, there is an END or no payload missing, and the
      directions agree or do not matter. */
  predicate Keeps(data: seq<byte>, d: bool, hw: bool)
    requires KnownChain(data, d)
  {
    var c := data + [0];
    && QuietBytes(c, 0, d, 0, 0, false)
    && (HasEnd(Parse(c, 0, d)) || ParseEnd(c, 0, d) == Len(c))
    && (d == hw || Settles(c, 0))
  }

  /** What all lists of a chain of known tokens do, `x` being behind it. */
  function Performs(data: seq<byte>, x: byte, d: bool, hw: bool, a: byte): seq<Event>
    requires KnownChain(data, d)
  {
    KnownFits(data, x, d);
    HwLists(Lists(data + [x], 0, d), a, hw).events
  }

  /** `Keeps` is what it takes, whatever byte is behind the chain. */
  lemma KeepsExactly(data: seq<byte>, x: byte, d: bool, hw: bool, a: byte)
    requires KnownChain(data, d)
    ensures Performs(data, x, d, hw, a) == Meaning(data, a, d) <==> Keeps(data, d, hw)
  {
    hide Known, Lists, HwLists, Parse, Meaning, QuietBytes, Settles, ParseEnd, HasEnd;
    KnownAlike(data, x, 0, 0, d);
    QuietAlike(data, x, 0, 0, d, 0, 0, false);
    SettlesAlike(data, x, 0, 0);
    MeaningPreservedExactly(data + [x], d, hw, a);
    assert Chain(data + [x]) == data;
  }

  /** A well-formed request keeps its meaning whatever the directions, and means the same for both. */
  lemma WellFormedKeeps(data: seq<byte>, d: bool, hw: bool, a: byte)
    requires RequestOk(data)
    ensures KnownChain(data, d) && Keeps(data, d, hw) && Meaning(data, a, d) == Meaning(data, a, false)
  {
    hide Known, Lists, HwLists, Parse, Meaning, QuietBytes, Settles, ParseEnd, WellFormed;
    RequestParse(data, d);
    var c := data + [0];
    assert Chain(c) == data;
    MeaningPreserved(c, d, hw, a);
    MeaningPreserved(c, d, d, a);
    MeaningTwice(c, d, a);
    KeepsExactly(data, 0, d, hw, a);
  }

  lemma MeaningTwice(c: Cells, d: bool, a: byte)
    requires WellFormed(c)
    ensures Meaning(Chain(c), a, d) == Meaning(Chain(c), a, false)
  {
    hide Known, Meaning, Events;
    DirectionIrrelevant(c, 0, d, false);
    ParseMeaning(c, 0, d, a);
    ParseMeaning(c, 0, false, a);
    hide Parse, ParseEnd, HasEnd;
    assert c[0..Len(c)] == Chain(c);
    assert Meaning(Chain(c), a, d) + [] == Meaning(Chain(c), a, d);
    assert Meaning(Chain(c), a, false) + [] == Meaning(Chain(c), a, false);
  }

  /** A success of known tokens of which no list was cut short is the truth exactly when the chain keeps its
      meaning; then a failure did a beginning of it. */
  lemma KnownOutcome(e: Done)
    requires DoneOk(e) && KnownChain(e.req.data, e.reading) && !e.cut
    ensures !e.Failed() ==> (e.events == Meaning(e.req.data, e.sent, e.reading) <==> Keeps(e.req.data, e.reading, e.hw))
    ensures e.Failed() && Keeps(e.req.data, e.reading, e.hw) ==> e.events <= Meaning(e.req.data, e.sent, e.reading)
  {
    hide Lists, HwLists, Meaning, Keeps, KnownChain;
    var x :| DoneWith(e, x);
    KeepsExactly(e.req.data, x, e.reading, e.hw, e.sent);
  }

  /** A success of a well-formed request is the truth exactly when no list of it was cut short; otherwise less
      happened than it means.  A failure did a beginning, if none was. */
  lemma WellFormedOutcome(e: Done)
    requires DoneOk(e) && RequestOk(e.req.data)
    ensures !e.Failed() ==> (e.events == Meaning(e.req.data, e.sent, false) <==> !e.cut)
    ensures !e.Failed() && e.cut ==> |e.events| < |Meaning(e.req.data, e.sent, false)|
    ensures e.Failed() && !e.cut ==> e.events <= Meaning(e.req.data, e.sent, false)
  {
    hide Lists, HwLists, Meaning, Keeps, WellFormed, Known, Planned;
    WellFormedKeeps(e.req.data, e.reading, e.hw, e.sent);
    if !e.cut {
      KnownOutcome(e);
    } else if !e.Failed() {
      var x :| DoneWith(e, x);
      PlannedWell(e.req.data, x, e.reading, e.sent);
    }
  }

  /** The lists of a well-formed request hold no more than it means. */
  lemma PlannedWell(data: seq<byte>, x: byte, d: bool, a: byte)
    requires RequestOk(data)
    ensures Planned(Lists(data + [x], 0, d), a) == |Meaning(data, a, false)|
  {
    hide Lists, Meaning, Known, Planned, Events;
    WellBehind(data, 0, x);
    var c := data + [x];
    DirectionIrrelevant(c, 0, d, false);
    PlannedMeaning(c, 0, d, a);
    ParseMeaning(c, 0, false, a);
    hide Parse, ParseEnd, HasEnd;
    assert c[0..Len(c)] == data;
    assert Meaning(data, a, false) + [] == Meaning(data, a, false);
  }
}
