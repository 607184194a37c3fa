/**
 Choosing the device for a mediated device of a given type
 (lib/vdsm/common/hostdev.py, _suitable_device_for_mdev_type).  Devices come in
 sorted order; the types of a device come in the arbitrary order of a directory
 listing.
 */
module MdevPlacement {
  import opened Options

  type Name = string

  const NVIDIA: Name := "0x10de"

  datatype Placement = Compact | Separate

  /** A supported type: how many devices use it, and its free instances unless they cannot be read as a number. */
  datatype MdevType = MdevType(name: Name, used: nat, available: Option<int>)

  datatype Device = Device(name: Name, vendor: Name, types: seq<MdevType>)

  datatype Verdict = Suitable | Unsuitable | Error

  /** The index of the chosen device, none, or the ValueError of an unreadable count. */
  datatype Outcome = Chosen(index: nat) | Nothing | ValueError

  // ----------------------------------------------------------- one listed type

  /** The type rules the device out. */
  predicate Blocks(vendor: Name, t: MdevType, target: Name, p: Placement) {
    t.used > 0 && if t.name == target then p == Separate else vendor == NVIDIA
  }

  predicate Raises(t: MdevType, target: Name, p: Placement) {
    t.name == target && !(p == Separate && t.used > 0) && t.available.None?
  }

  predicate Offers(t: MdevType, target: Name) {
    t.name == target && t.available.Some? && t.available.value >= 1
  }

  predicate SomeBlocks(d: Device, target: Name, p: Placement) {
    exists i :: 0 <= i < |d.types| && Blocks(d.vendor, d.types[i], target, p)
  }

  predicate SomeRaises(d: Device, target: Name, p: Placement) {
    exists i :: 0 <= i < |d.types| && Raises(d.types[i], target, p)
  }

  predicate SomeOffers(d: Device, target: Name) {
    exists i :: 0 <= i < |d.types| && Offers(d.types[i], target)
  }

  /** The device may be chosen: it offers the type with a free instance, and nothing rules it out. */
  predicate Good(d: Device, target: Name, p: Placement) {
    SomeOffers(d, target) && !SomeBlocks(d, target, p)
  }

  // ------------------------------------------------------------ as it is listed

  function Scan(vendor: Name, types: seq<MdevType>, found: bool, target: Name, p: Placement): Verdict {
    if types == [] then (if found then Suitable else Unsuitable)
    else if Blocks(vendor, types[0], target, p) then Unsuitable
    else if Raises(types[0], target, p) then Error
    else Scan(vendor, types[1..], found || Offers(types[0], target), target, p)
  }

  function Judge(d: Device, target: Name, p: Placement): Verdict {
    Scan(d.vendor, d.types, false, target, p)
  }

  function Search(devices: seq<Device>, from: nat, target: Name, p: Placement): Outcome
    requires from <= |devices|
    decreases |devices| - from
  {
    if from == |devices| then Nothing
    else match Judge(devices[from], target, p)
      case Suitable => Chosen(from)
      case Error => ValueError
      case Unsuitable => Search(devices, from + 1, target, p)
  }

  /** Separate placement falls back to compact placement when it finds nothing. */
  function Place(devices: seq<Device>, target: Name, p: Placement): Outcome {
    var o := Search(devices, 0, target, p);
    if o == Nothing && p == Separate then Search(devices, 0, target, Compact) else o
  }

  // -------------------------------------------------------------- the two loops

  lemma {:induction false} ScanSplit(vendor: Name, types: seq<MdevType>, n: nat, target: Name, p: Placement)
    requires n <= |types|
    requires forall i :: 0 <= i < n ==> !Blocks(vendor, types[i], target, p) && !Raises(types[i], target, p)
    ensures forall found :: Scan(vendor, types, found, target, p) ==
                            Scan(vendor, types[n..], found || exists i :: 0 <= i < n && Offers(types[i], target),
                                 target, p)
  {
    if n == 0 {
      assert types[0..] == types;
    } else {
      var rest := types[1..];
      assert forall i :: 0 <= i < n - 1 ==> rest[i] == types[i + 1];
      ScanSplit(vendor, rest, n - 1, target, p);
      assert rest[n - 1..] == types[n..];
      assert (exists i :: 0 <= i < n && Offers(types[i], target)) <==>
             Offers(types[0], target) || (exists i :: 0 <= i < n - 1 && Offers(rest[i], target)) by {
        if i :| 0 <= i < n && Offers(types[i], target) {
          assert i > 0 ==> Offers(rest[i - 1], target);
        }
      }
    }
  }

  method ScanTypes(d: Device, target: Name, p: Placement) returns (v: Verdict)
    ensures v == Judge(d, target, p)
  {
    var found := false;
    for i := 0 to |d.types|
      invariant forall j :: 0 <= j < i ==>
                  !Blocks(d.vendor, d.types[j], target, p) && !Raises(d.types[j], target, p)
      invariant found <==> exists j :: 0 <= j < i && Offers(d.types[j], target)
    {
      ScanSplit(d.vendor, d.types, i, target, p);
      var t := d.types[i];
      if t.name != target {
        if d.vendor == NVIDIA && t.used > 0 {
          return Unsuitable;
        }
        continue;
      } else if p == Separate {
        if t.used > 0 {
          return Unsuitable;
        }
      }
      if t.available.None? {
        return Error;
      }
      if t.available.value < 1 {
        continue;
      }
      found := true;
    }
    ScanSplit(d.vendor, d.types, |d.types|, target, p);
    v := if found then Suitable else Unsuitable;
  }

  method SuitableDevice(devices: seq<Device>, target: Name, p: Placement) returns (o: Outcome)
    ensures o == Place(devices, target, p)
    decreases p == Separate
  {
    for i := 0 to |devices|
      invariant Search(devices, 0, target, p) == Search(devices, i, target, p)
    {
      var v := ScanTypes(devices[i], target, p);
      if v == Suitable {
        return Chosen(i);
      }
      if v == Error {
        return ValueError;
      }
    }
    if p == Separate {
      o := SuitableDevice(devices, target, Compact);
      return;
    }
    return Nothing;
  }

  // ------------------------------------------------------------------ meaning

  /** What a device's verdict is, whatever the listing order, unless a blocking and a raising type meet. */
  lemma {:induction false} JudgeMeans(d: Device, target: Name, p: Placement)
    ensures !SomeRaises(d, target, p) ==> (Judge(d, target, p) == if Good(d, target, p) then Suitable else Unsuitable)
    ensures SomeRaises(d, target, p) && !SomeBlocks(d, target, p) ==> Judge(d, target, p) == Error
    ensures Judge(d, target, p) == Error ==> SomeRaises(d, target, p)
    ensures Judge(d, target, p) == Suitable ==> Good(d, target, p)
  {
    var n := FirstStop(d, target, p);
    ScanSplit(d.vendor, d.types, n, target, p);
  }

  lemma {:induction false} FirstStop(d: Device, target: Name, p: Placement) returns (n: nat)
    ensures n <= |d.types|
    ensures forall i :: 0 <= i < n ==> !Blocks(d.vendor, d.types[i], target, p) && !Raises(d.types[i], target, p)
    ensures n < |d.types| ==> Blocks(d.vendor, d.types[n], target, p) || Raises(d.types[n], target, p)
  {
    n := 0;
    while n < |d.types| && !Blocks(d.vendor, d.types[n], target, p) && !Raises(d.types[n], target, p)
      invariant n <= |d.types|
      invariant forall i :: 0 <= i < n ==> !Blocks(d.vendor, d.types[i], target, p) && !Raises(d.types[i], target, p)
    {
      n := n + 1;
    }
  }

  predicate NoneGood(devices: seq<Device>, target: Name, p: Placement, before: nat)
    requires before <= |devices|
  {
    forall j :: 0 <= j < before ==> !Good(devices[j], target, p)
  }

  /**
   What an outcome says: the first good device; no good device; or a device with
   an unreadable count and no good one before it.
   */
  predicate Explains(devices: seq<Device>, target: Name, p: Placement, o: Outcome) {
    match o
    case Chosen(i) => i < |devices| && Good(devices[i], target, p) && NoneGood(devices, target, p, i)
    case Nothing => NoneGood(devices, target, p, |devices|)
    case ValueError =>
      exists i :: 0 <= i < |devices| && SomeRaises(devices[i], target, p) && NoneGood(devices, target, p, i)
  }

  lemma {:induction false} SearchExplained(devices: seq<Device>, from: nat, target: Name, p: Placement)
    requires from <= |devices| && NoneGood(devices, target, p, from)
    ensures Explains(devices, target, p, Search(devices, from, target, p))
    decreases |devices| - from
  {
    hide Good, SomeRaises, Judge;
    if from < |devices| {
      JudgeMeans(devices[from], target, p);
      if Judge(devices[from], target, p) == Unsuitable {
        SkippedIsNotGood(devices[from], target, p);
        SearchExplained(devices, from + 1, target, p);
      }
    }
  }

  lemma SkippedIsNotGood(d: Device, target: Name, p: Placement)
    requires Judge(d, target, p) == Unsuitable
    ensures !Good(d, target, p)
  {
    hide SomeRaises, SomeOffers, SomeBlocks, Judge;
    JudgeMeans(d, target, p);
  }

  lemma SeparateIsCompact(d: Device, target: Name)
    requires Good(d, target, Separate)
    ensures Good(d, target, Compact)
  {
  }

  /**
   For every list of devices, the outcome is the first good one in order; with
   separate placement it is the first good one for compact placement exactly
   when no device is good for separate placement; nothing is chosen only if no
   device is good for compact placement; and an error means an unreadable count
   before any good device.
   */
  lemma {:induction false} PlaceFindsFirst(devices: seq<Device>, target: Name, p: Placement)
    ensures var o := Place(devices, target, p);
            || (Explains(devices, target, p, o) && (p == Separate ==> o != Nothing))
            || (p == Separate && NoneGood(devices, target, Separate, |devices|) &&
                Explains(devices, target, Compact, o))
  {
    SearchExplained(devices, 0, target, p);
    SearchExplained(devices, 0, target, Compact);
  }

  /** When every count can be read there is no error, and nothing is chosen exactly when nothing is good. */
  lemma {:induction false} PlaceReadable(devices: seq<Device>, target: Name, p: Placement)
    requires forall i :: 0 <= i < |devices| ==>
               !SomeRaises(devices[i], target, p) && !SomeRaises(devices[i], target, Compact)
    ensures Place(devices, target, p) != ValueError
    ensures Place(devices, target, p) == Nothing <==> NoneGood(devices, target, Compact, |devices|)
  {
    PlaceFindsFirst(devices, target, p);
    hide Search, SomeRaises;
    var o := Place(devices, target, p);
    if o.Chosen? && Good(devices[o.index], target, Separate) {
      SeparateIsCompact(devices[o.index], target);
    }
  }

  // ------------------------------------------------------------ listing order

  predicate Relisted(d: Device, e: Device) {
    d.name == e.name && d.vendor == e.vendor && multiset(d.types) == multiset(e.types)
  }

  /** No listing order decides whether the search skips the device or fails. */
  predicate OrderFree(d: Device, target: Name, p: Placement) {
    !(SomeBlocks(d, target, p) && SomeRaises(d, target, p))
  }

  lemma RelistedAlike(d: Device, e: Device, target: Name, p: Placement)
    requires Relisted(d, e)
    ensures SomeBlocks(d, target, p) ==> SomeBlocks(e, target, p)
    ensures SomeRaises(d, target, p) ==> SomeRaises(e, target, p)
    ensures SomeOffers(d, target) ==> SomeOffers(e, target)
  {
    forall i | 0 <= i < |d.types| ensures exists j :: 0 <= j < |e.types| && e.types[j] == d.types[i] {
      assert d.types[i] in multiset(d.types);
      assert d.types[i] in e.types;
    }
  }

  lemma SameVerdict(d: Device, e: Device, target: Name, p: Placement)
    requires Relisted(d, e) && OrderFree(d, target, p)
    ensures Judge(d, target, p) == Judge(e, target, p)
  {
    hide SomeBlocks, SomeRaises, SomeOffers, Judge;
    RelistedAlike(d, e, target, p);
    RelistedAlike(e, d, target, p);
    JudgeMeans(d, target, p);
    JudgeMeans(e, target, p);
  }

  function Fronted(types: seq<MdevType>, i: nat): seq<MdevType>
    requires i < |types|
  {
    [types[i]] + types[..i] + types[i + 1..]
  }

  lemma FrontedRelists(d: Device, i: nat)
    requires i < |d.types|
    ensures Relisted(d, d.(types := Fronted(d.types, i)))
  {
    assert d.types == d.types[..i] + [d.types[i]] + d.types[i + 1..];
  }

  /**
   The verdict on a device is independent of the listing order if and only if it
   does not have both a type that rules it out and one whose count is unreadable.
   */
  lemma {:induction false} OrderFreeIff(d: Device, target: Name, p: Placement)
    ensures (forall e :: Relisted(d, e) ==> Judge(e, target, p) == Judge(d, target, p)) <==> OrderFree(d, target, p)
  {
    if OrderFree(d, target, p) {
      forall e | Relisted(d, e) ensures Judge(e, target, p) == Judge(d, target, p) {
        SameVerdict(d, e, target, p);
      }
    } else {
      var i :| 0 <= i < |d.types| && Blocks(d.vendor, d.types[i], target, p);
      var j :| 0 <= j < |d.types| && Raises(d.types[j], target, p);
      FrontedRelists(d, i);
      FrontedRelists(d, j);
      var skipped, failed := d.(types := Fronted(d.types, i)), d.(types := Fronted(d.types, j));
      assert Judge(skipped, target, p) == Unsuitable;
      assert Judge(failed, target, p) == Error;
      assert Relisted(d, skipped) && Relisted(d, failed);
    }
  }

  predicate AllRelisted(devices: seq<Device>, others: seq<Device>) {
    |devices| == |others| && forall i :: 0 <= i < |devices| ==> Relisted(devices[i], others[i])
  }

  /** The verdict when every type that rules a device out comes first. */
  function Settled(d: Device, target: Name, p: Placement): Verdict {
    if SomeBlocks(d, target, p) then Unsuitable
    else if SomeRaises(d, target, p) then Error
    else if SomeOffers(d, target) then Suitable
    else Unsuitable
  }

  function SearchSettled(devices: seq<Device>, from: nat, target: Name, p: Placement): Outcome
    requires from <= |devices|
    decreases |devices| - from
  {
    if from == |devices| then Nothing
    else match Settled(devices[from], target, p)
      case Suitable => Chosen(from)
      case Error => ValueError
      case Unsuitable => SearchSettled(devices, from + 1, target, p)
  }

  function PlaceSettled(devices: seq<Device>, target: Name, p: Placement): Outcome {
    var o := SearchSettled(devices, 0, target, p);
    if o == Nothing && p == Separate then SearchSettled(devices, 0, target, Compact) else o
  }

  /** The search comes to a device that it may skip or fail on. */
  predicate Meets(devices: seq<Device>, from: nat, target: Name, p: Placement)
    requires from <= |devices|
    decreases |devices| - from
  {
    from < |devices| &&
    (!OrderFree(devices[from], target, p) ||
     (Settled(devices[from], target, p) == Unsuitable && Meets(devices, from + 1, target, p)))
  }

  predicate PlaceMeets(devices: seq<Device>, target: Name, p: Placement) {
    Meets(devices, 0, target, p) ||
    (p == Separate && SearchSettled(devices, 0, target, Separate) == Nothing && Meets(devices, 0, target, Compact))
  }

  lemma JudgeSettled(d: Device, e: Device, target: Name, p: Placement)
    requires Relisted(d, e)
    ensures Judge(e, target, p) == Settled(d, target, p) || (Judge(e, target, p) == Error && !OrderFree(d, target, p))
  {
    hide SomeBlocks, SomeRaises, SomeOffers, Judge;
    RelistedAlike(d, e, target, p);
    RelistedAlike(e, d, target, p);
    JudgeMeans(e, target, p);
    if SomeBlocks(d, target, p) && Judge(e, target, p) != Error {
      assert Judge(e, target, p) == Unsuitable;
    }
  }

  /** A listing can only turn the settled outcome into an error, and only if a doubtful device is met. */
  lemma {:induction false} SearchRelisted(devices: seq<Device>, others: seq<Device>, from: nat, target: Name,
                                          p: Placement)
    requires from <= |devices| && AllRelisted(devices, others)
    ensures var o := Search(others, from, target, p);
            o == SearchSettled(devices, from, target, p) || (o == ValueError && Meets(devices, from, target, p))
    decreases |devices| - from
  {
    hide OrderFree, Judge, Settled, Relisted;
    if from < |devices| {
      JudgeSettled(devices[from], others[from], target, p);
      SearchRelisted(devices, others, from + 1, target, p);
    }
  }

  lemma PlaceRelisted(devices: seq<Device>, others: seq<Device>, target: Name, p: Placement)
    requires AllRelisted(devices, others)
    ensures var o := Place(others, target, p);
            o == PlaceSettled(devices, target, p) || (o == ValueError && PlaceMeets(devices, target, p))
  {
    SearchRelisted(devices, others, 0, target, p);
    SearchRelisted(devices, others, 0, target, Compact);
  }

  // Two listings that bring both outcomes about.

  /** A listing that starts with a type that rules the device out, for compact placement if there is one. */
  lemma SkipFirst(d: Device, target: Name) returns (e: Device)
    ensures Relisted(d, e)
    ensures forall p :: Judge(e, target, p) == Settled(d, target, p)
  {
    e := d;
    if i :| 0 <= i < |d.types| && Blocks(d.vendor, d.types[i], target, Compact) {
      e := d.(types := Fronted(d.types, i));
      FrontedRelists(d, i);
      assert forall p :: Blocks(e.vendor, e.types[0], target, p);
    } else if i :| 0 <= i < |d.types| && Blocks(d.vendor, d.types[i], target, Separate) {
      e := d.(types := Fronted(d.types, i));
      FrontedRelists(d, i);
      assert Blocks(e.vendor, e.types[0], target, Separate);
    }
    forall p ensures Judge(e, target, p) == Settled(d, target, p) {
      JudgeSettled(d, e, target, p);
      if SomeBlocks(d, target, p) {
        assert Blocks(e.vendor, e.types[0], target, p);
      }
    }
  }

  lemma {:induction false} SkippingListing(devices: seq<Device>, target: Name, n: nat) returns (others: seq<Device>)
    requires n <= |devices|
    ensures |others| == n && forall i :: 0 <= i < n ==> Relisted(devices[i], others[i])
    ensures forall i, p :: 0 <= i < n ==> Judge(others[i], target, p) == Settled(devices[i], target, p)
  {
    if n == 0 {
      others := [];
    } else {
      hide Relisted, Judge, Settled;
      var before := SkippingListing(devices, target, n - 1);
      var e := SkipFirst(devices[n - 1], target);
      others := before + [e];
    }
  }

  lemma {:induction false} SameVerdicts(devices: seq<Device>, others: seq<Device>, from: nat, target: Name,
                                        p: Placement)
    requires from <= |devices| == |others|
    requires forall i :: 0 <= i < |devices| ==> Judge(others[i], target, p) == Settled(devices[i], target, p)
    ensures Search(others, from, target, p) == SearchSettled(devices, from, target, p)
    decreases |devices| - from
  {
    hide Judge, Settled;
    if from < |devices| {
      SameVerdicts(devices, others, from + 1, target, p);
    }
  }

  lemma SettledHappens(devices: seq<Device>, target: Name, p: Placement) returns (others: seq<Device>)
    ensures AllRelisted(devices, others) && Place(others, target, p) == PlaceSettled(devices, target, p)
  {
    hide Relisted, Judge, Settled;
    others := SkippingListing(devices, target, |devices|);
    SameVerdicts(devices, others, 0, target, p);
    SameVerdicts(devices, others, 0, target, Compact);
  }

  lemma FailFirst(d: Device, target: Name, p: Placement) returns (e: Device)
    requires !OrderFree(d, target, p)
    ensures Relisted(d, e) && Judge(e, target, p) == Error
  {
    var i :| 0 <= i < |d.types| && Raises(d.types[i], target, p);
    e := d.(types := Fronted(d.types, i));
    FrontedRelists(d, i);
  }

  lemma RelistedItself(devices: seq<Device>)
    ensures AllRelisted(devices, devices)
  {
  }

  /** A search that meets a doubtful device fails under some listing, whatever it does before. */
  lemma {:induction false} FailureHappens(devices: seq<Device>, from: nat, target: Name, p: Placement)
    returns (others: seq<Device>)
    requires from <= |devices| && Meets(devices, from, target, p)
    ensures AllRelisted(devices, others) && Search(others, from, target, p) == ValueError
    decreases |devices| - from
  {
    hide OrderFree, Judge, Settled, Relisted;
    if !OrderFree(devices[from], target, p) {
      var e := FailFirst(devices[from], target, p);
      others := devices[from := e];
      RelistedOne(devices, from, e);
    } else {
      others := FailureHappens(devices, from + 1, target, p);
      JudgeSettled(devices[from], others[from], target, p);
    }
  }

  lemma RelistedOne(devices: seq<Device>, i: nat, e: Device)
    requires i < |devices| && Relisted(devices[i], e)
    ensures AllRelisted(devices, devices[i := e])
  {
  }

  /**
   The choice is the same for every listing of the types of every device if and
   only if the search, with doubtful devices skipped, fails anyway or meets no
   doubtful device: one that has both a type that rules it out and an unreadable
   count of the wanted type.
   */
  lemma {:induction false} PlaceOrderFreeIff(devices: seq<Device>, target: Name, p: Placement)
    ensures (forall others :: AllRelisted(devices, others) ==>
               Place(others, target, p) == Place(devices, target, p)) <==>
            (PlaceSettled(devices, target, p) == ValueError || !PlaceMeets(devices, target, p))
  {
    hide AllRelisted, PlaceMeets, Place, PlaceSettled;
    RelistedItself(devices);
    PlaceRelisted(devices, devices, target, p);
    forall others | AllRelisted(devices, others)
      ensures Place(others, target, p) == PlaceSettled(devices, target, p) ||
              (Place(others, target, p) == ValueError && PlaceMeets(devices, target, p))
    {
      PlaceRelisted(devices, others, target, p);
    }
    if PlaceMeets(devices, target, p) {
      var skipped := SettledHappens(devices, target, p);
      var failed := PlaceFails(devices, target, p);
    }
  }

  lemma PlaceFails(devices: seq<Device>, target: Name, p: Placement) returns (others: seq<Device>)
    requires PlaceMeets(devices, target, p)
    ensures AllRelisted(devices, others) && Place(others, target, p) == ValueError
  {
    hide AllRelisted, Meets, Search, SearchSettled;
    if Meets(devices, 0, target, p) {
      others := FailureHappens(devices, 0, target, p);
    } else {
      others := FailureHappens(devices, 0, target, Compact);
      SearchRelisted(devices, others, 0, target, Separate);
    }
  }
}
