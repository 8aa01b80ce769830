/** The escape pass over objects, which rewrites them in place; objects may be shared. */
module EscapesInPlace {
  import opened Escapes

  datatype Cell = Str(s: string) | Number(n: int) | Nothing | Ref(target: JsonObject)

  datatype Entry = Entry(name: string, cell: Cell)

  class JsonObject {
    const isArray: bool
    var entries: seq<Entry>

    constructor (isArray: bool, entries: seq<Entry>)
      ensures this.isArray == isArray && this.entries == entries
    {
      this.isArray := isArray;
      this.entries := entries;
    }
  }

  /** What every object holds at one moment. */
  type Image = map<JsonObject, seq<Entry>>

  ghost function ImageOf(all: set<JsonObject>): Image
    reads all
  {
    map o | o in all :: o.entries
  }

  /** Objects refer to objects of the image, and never round in a circle. */
  ghost predicate Acyclic(image: Image, rank: map<JsonObject, nat>) {
    forall o | o in image :: o in rank &&
      forall i | 0 <= i < |image[o]| && image[o][i].cell.Ref? ::
        var t := image[o][i].cell.target; t in image && t in rank && rank[t] < rank[o]
  }

  /** The value that an object stands for. */
  ghost function ValueOf(image: Image, rank: map<JsonObject, nat>, o: JsonObject): Value
    requires Acyclic(image, rank) && o in image
    decreases rank[o], 1
  {
    var es := image[o];
    if o.isArray then
      Items(seq(|es|, i requires 0 <= i < |es| => CellValue(image, rank, o, i)))
    else
      Record(seq(|es|, i requires 0 <= i < |es| => Field(es[i].name, CellValue(image, rank, o, i))))
  }

  ghost function CellValue(image: Image, rank: map<JsonObject, nat>, o: JsonObject, i: nat): Value
    requires Acyclic(image, rank) && o in image && i < |image[o]|
    decreases rank[o], 0
  {
    match image[o][i].cell
    case Str(s) => Text(s)
    case Number(n) => Scalar(n)
    case Nothing => Null
    case Ref(t) => ValueOf(image, rank, t)
  }

  function HandleEntry(e: Entry, reverse: bool): Entry {
    if e.cell.Str? then e.(cell := Str(HandleEscapes(e.cell.s, reverse))) else e
  }

  /** Each entry is as it was or handled, possibly several times. */
  ghost predicate Partly(now: seq<Entry>, was: seq<Entry>, reverse: bool) {
    |now| == |was| && forall i | 0 <= i < |was| :: now[i] == was[i] || now[i] == HandleEntry(was[i], reverse)
  }

  ghost predicate Done(now: seq<Entry>, was: seq<Entry>, reverse: bool) {
    |now| == |was| && forall i | 0 <= i < |was| :: now[i] == HandleEntry(was[i], reverse)
  }

  ghost predicate AllPartly(now: Image, was: Image, reverse: bool) {
    now.Keys == was.Keys && forall o | o in was :: Partly(now[o], was[o], reverse)
  }

  /** The objects in `seen` are done, and so is what they refer to. */
  ghost predicate DoneWithin(seen: set<JsonObject>, now: Image, was: Image, reverse: bool) {
    && seen <= was.Keys && now.Keys == was.Keys
    && (forall o | o in seen :: Done(now[o], was[o], reverse))
    && (forall o, i | o in seen && 0 <= i < |was[o]| && was[o][i].cell.Ref? :: was[o][i].cell.target in seen)
  }

  /** What is done stays done. */
  ghost predicate Keeps(later: Image, now: Image, was: Image, reverse: bool) {
    && later.Keys == now.Keys == was.Keys
    && (forall o | o in was :: |later[o]| == |now[o]| == |was[o]|)
    && (forall o, i | o in was && 0 <= i < |was[o]| && now[o][i] == HandleEntry(was[o][i], reverse) ::
          later[o][i] == now[o][i])
  }

  lemma EntryTwice(e: Entry, reverse: bool)
    ensures HandleEntry(HandleEntry(e, reverse), reverse) == HandleEntry(e, reverse)
  {
    if e.cell.Str? { HandleTwice(e.cell.s, reverse); }
  }

  lemma DoneStays(seen: set<JsonObject>, later: Image, now: Image, was: Image, reverse: bool)
    requires DoneWithin(seen, now, was, reverse) && Keeps(later, now, was, reverse)
    ensures DoneWithin(seen, later, was, reverse)
  {
    hide HandleEntry;
  }

  /** One entry of one object is handled. */
  method HandleAt(o: JsonObject, i: nat, reverse: bool, ghost all: set<JsonObject>, ghost was: Image)
    requires o in all && was.Keys == all && AllPartly(ImageOf(all), was, reverse)
    requires i < |o.entries| && o.entries[i].cell.Str?
    modifies o
    ensures AllPartly(ImageOf(all), was, reverse) && Keeps(ImageOf(all), old(ImageOf(all)), was, reverse)
    ensures o.entries[i] == HandleEntry(was[o][i], reverse)
  {
    hide HandleEscapes;
    var e := o.entries[i];
    assert Partly(ImageOf(all)[o], was[o], reverse);
    assert e == was[o][i] || e == HandleEntry(was[o][i], reverse);
    EntryTwice(was[o][i], reverse);
    var s := HandleEscapesJSONParse(e.cell.s, reverse);
    o.entries := o.entries[i := e.(cell := Str(s))];
    assert o.entries[i] == HandleEntry(e, reverse) == HandleEntry(was[o][i], reverse);
  }

  /** Handles one entry of an object, and everything below it. */
  method VisitEntry(o: JsonObject, i: nat, reverse: bool, ghost all: set<JsonObject>, ghost was: Image,
                    ghost rank: map<JsonObject, nat>)
    returns (ghost seen: set<JsonObject>)
    requires o in all && was.Keys == all && Acyclic(was, rank) && AllPartly(ImageOf(all), was, reverse)
    requires i < |was[o]| == |o.entries|
    modifies all
    ensures AllPartly(ImageOf(all), was, reverse) && Keeps(ImageOf(all), old(ImageOf(all)), was, reverse)
    ensures DoneWithin(seen, ImageOf(all), was, reverse)
    ensures |o.entries| == |was[o]| && o.entries[i] == HandleEntry(was[o][i], reverse)
    ensures was[o][i].cell.Ref? ==> was[o][i].cell.target in seen
    decreases rank[o], 0
  {
    hide HandleEntry;
    seen := {};
    assert Partly(ImageOf(all)[o], was[o], reverse);
    CellKind(was[o][i], reverse);
    match o.entries[i].cell {
      case Str(_) => HandleAt(o, i, reverse, all, was);
      case Ref(t) =>
        seen := Iterate(t, reverse, all, was, rank);
        assert Partly(ImageOf(all)[o], was[o], reverse);
      case _ =>
    }
  }

  /** Handles an object and everything below it; an object reached along several paths is handled several times. */
  method Iterate(o: JsonObject, reverse: bool, ghost all: set<JsonObject>, ghost was: Image,
                 ghost rank: map<JsonObject, nat>)
    returns (ghost seen: set<JsonObject>)
    requires o in all && was.Keys == all && Acyclic(was, rank) && AllPartly(ImageOf(all), was, reverse)
    modifies all
    ensures AllPartly(ImageOf(all), was, reverse) && Keeps(ImageOf(all), old(ImageOf(all)), was, reverse)
    ensures o in seen && DoneWithin(seen, ImageOf(all), was, reverse)
    decreases rank[o], 1
  {
    hide HandleEntry;
    hide AllPartly;
    hide Acyclic;
    hide Keeps;
    hide DoneWithin;
    seen := {};
    NothingDone(ImageOf(all), was, reverse);
    ghost var start := ImageOf(all);
    for i := 0 to |o.entries|
      invariant AllPartly(ImageOf(all), was, reverse) && Keeps(ImageOf(all), start, was, reverse)
      invariant DoneWithin(seen, ImageOf(all), was, reverse)
      invariant DoneUpTo(o.entries, was[o], i, reverse, seen)
      invariant |o.entries| == |was[o]|
    {
      ghost var now := ImageOf(all);
      ghost var below := VisitEntry(o, i, reverse, all, was, rank);
      KeepsEntries(o, ImageOf(all), now, was, reverse);
      KeepsTwice(ImageOf(all), now, start, was, reverse);
      DoneStays(seen, ImageOf(all), now, was, reverse);
      DoneBoth(seen, below, ImageOf(all), was, reverse);
      seen := seen + below;
    }
    DoneOneMore(seen, o, ImageOf(all), was, reverse);
    seen := seen + {o};
  }

  ghost predicate DoneUpTo(now: seq<Entry>, was: seq<Entry>, n: nat, reverse: bool, seen: set<JsonObject>) {
    && |now| == |was| && n <= |was|
    && forall j | 0 <= j < n ::
         now[j] == HandleEntry(was[j], reverse) && (was[j].cell.Ref? ==> was[j].cell.target in seen)
  }

  lemma NothingDone(now: Image, was: Image, reverse: bool)
    requires AllPartly(now, was, reverse)
    ensures DoneWithin({}, now, was, reverse) && Keeps(now, now, was, reverse)
    ensures forall o | o in was :: |now[o]| == |was[o]|
  {
    assert forall o | o in was :: Partly(now[o], was[o], reverse);
  }

  lemma KeepsTwice(last: Image, later: Image, now: Image, was: Image, reverse: bool)
    requires Keeps(last, later, was, reverse) && Keeps(later, now, was, reverse)
    ensures Keeps(last, now, was, reverse)
  {
    hide HandleEntry;
  }

  lemma KeepsEntries(o: JsonObject, later: Image, now: Image, was: Image, reverse: bool)
    requires Keeps(later, now, was, reverse) && o in was
    ensures |later[o]| == |now[o]| == |was[o]|
    ensures forall j | 0 <= j < |was[o]| && now[o][j] == HandleEntry(was[o][j], reverse) :: later[o][j] == now[o][j]
  {
    hide HandleEntry;
  }

  lemma DoneBoth(a: set<JsonObject>, b: set<JsonObject>, now: Image, was: Image, reverse: bool)
    requires DoneWithin(a, now, was, reverse) && DoneWithin(b, now, was, reverse)
    ensures DoneWithin(a + b, now, was, reverse)
  {
    hide Done;
  }

  lemma DoneOneMore(seen: set<JsonObject>, o: JsonObject, now: Image, was: Image, reverse: bool)
    requires DoneWithin(seen, now, was, reverse) && o in was
    requires DoneUpTo(now[o], was[o], |was[o]|, reverse, seen)
    ensures DoneWithin(seen + {o}, now, was, reverse)
  {
    hide HandleEntry;
  }

  /** Handling changes no entry but the text ones, which stay text. */
  lemma CellKind(e: Entry, reverse: bool)
    ensures HandleEntry(e, reverse).cell.Str? == e.cell.Str?
    ensures !e.cell.Str? ==> HandleEntry(e, reverse) == e
  {
    hide HandleEscapes;
  }

  // ---- what the pass means ----

  lemma PartlyAtFirst(was: Image, reverse: bool)
    ensures AllPartly(was, was, reverse)
  {
  }

  /** Where an object and all below it is done, it stands for the handled value. */
  lemma {:induction false} DoneMeansHandled(seen: set<JsonObject>, now: Image, was: Image, rank: map<JsonObject, nat>,
                                            o: JsonObject, reverse: bool)
    requires Acyclic(was, rank) && Acyclic(now, rank) && DoneWithin(seen, now, was, reverse) && o in seen
    ensures ValueOf(now, rank, o) == HandleEscapeCharacters(ValueOf(was, rank, o), reverse)
    decreases rank[o]
  {
    hide HandleEscapes;
    forall i | 0 <= i < |was[o]|
      ensures CellValue(now, rank, o, i) == HandleEscapeCharacters(CellValue(was, rank, o, i), reverse)
      ensures now[o][i].name == was[o][i].name
    {
      assert now[o][i] == HandleEntry(was[o][i], reverse);
      if was[o][i].cell.Ref? { DoneMeansHandled(seen, now, was, rank, was[o][i].cell.target, reverse); }
    }
  }

  /** Handling leaves all references as they are, so there is still no circle. */
  lemma PartlyIsAcyclic(now: Image, was: Image, rank: map<JsonObject, nat>, reverse: bool)
    requires Acyclic(was, rank) && AllPartly(now, was, reverse)
    ensures Acyclic(now, rank)
  {
    hide HandleEscapes;
    forall o | o in now ensures o in rank && Partly(now[o], was[o], reverse) {}
  }

  /** The whole pass: whatever objects are shared, afterwards the object stands for the handled value. */
  method HandleObject(o: JsonObject, reverse: bool, ghost all: set<JsonObject>, ghost rank: map<JsonObject, nat>)
    requires o in all && Acyclic(ImageOf(all), rank)
    modifies all
    ensures Acyclic(ImageOf(all), rank)
    ensures ValueOf(ImageOf(all), rank, o) == HandleEscapeCharacters(old(ValueOf(ImageOf(all), rank, o)), reverse)
  {
    ghost var was := ImageOf(all);
    PartlyAtFirst(was, reverse);
    ghost var seen := Iterate(o, reverse, all, was, rank);
    PartlyIsAcyclic(ImageOf(all), was, rank, reverse);
    DoneMeansHandled(seen, ImageOf(all), was, rank, o, reverse);
  }
}
