/** Snapshot reassembly (snapshot.py): full-width bands, keyed by frame epoch, pasted
  * together once the region is covered from its origin through its LAST band. */
module Snapshot {
  import opened Wrappers

  datatype Strip = Strip(kind: nat, epoch: nat, x: int, y: int, w: nat, h: nat, isLast: bool, bgr: seq<nat>)

  datatype Pending = Pending(width: nat, bands: map<int, Strip>, lastY: Option<int>)

  datatype Completed = Completed(width: nat, height: int, epoch: nat, bgr: seq<nat>, x: int, y: int)

  datatype SnapshotError = WrongX | WrongWidth

  datatype Source = Source(kind: nat, x0: int, y0: int)

  /** Bands that advance the walk; the source's loop never ends on a band of height 0. */
  predicate Tall(bands: map<int, Strip>) { forall y | y in bands :: bands[y].h >= 1 }

  predicate PendingOk(pending: map<nat, Pending>) { forall e | e in pending :: Tall(pending[e].bands) }

  function KeysFrom(bands: map<int, Strip>, y: int): set<int> { set k | k in bands && k >= y }

  /** The contiguous bands from row `y` on: their pixels and the first uncovered row. */
  function Walk(bands: map<int, Strip>, y: int): (seq<nat>, int)
    requires Tall(bands)
    decreases KeysFrom(bands, y)
  {
    if y !in bands then ([], y) else
    assert y in KeysFrom(bands, y) && y !in KeysFrom(bands, y + bands[y].h);
    var (rest, bottom) := Walk(bands, y + bands[y].h);
    (bands[y].bgr + rest, bottom)
  }

  /** The pending entry once a strip has been filed. */
  function File(pending: map<nat, Pending>, strip: Strip): Pending
  {
    var p := if strip.epoch in pending then pending[strip.epoch] else Pending(strip.w, map[], None);
    Pending(p.width, p.bands[strip.y := strip], if strip.isLast then Some(strip.y) else p.lastY)
  }

  /** Strips the source can take: only a band that gets filed must have rows. */
  predicate Takes(src: Source, strip: Strip)
  {
    strip.h >= 1 || strip.kind != src.kind || strip.x != src.x0
  }

  datatype Answer = Answer(pending: map<nat, Pending>, result: Result<Option<Completed>, SnapshotError>)

  /** `add`. */
  function Add(src: Source, pending: map<nat, Pending>, strip: Strip): (r: Answer)
    requires PendingOk(pending) && Takes(src, strip)
    ensures PendingOk(r.pending)
  {
    if strip.kind != src.kind then Answer(pending, Ok(None))
    else if strip.x != src.x0 then Answer(pending, Err(WrongX))
    else if strip.epoch in pending && strip.w != pending[strip.epoch].width then Answer(pending, Err(WrongWidth))
    else Decide(src, pending, strip.epoch, File(pending, strip))
  }

  /** Keeps the updated entry pending, or finalizes it. */
  function Decide(src: Source, pending: map<nat, Pending>, epoch: nat, p: Pending): (r: Answer)
    requires PendingOk(pending) && Tall(p.bands)
    ensures PendingOk(r.pending)
  {
    var waiting := Answer(pending[epoch := p], Ok(None));
    if p.lastY == None then waiting else
    var (canvas, bottom) := Walk(p.bands, src.y0);
    if bottom <= p.lastY.value then waiting
    else Answer(pending - {epoch}, Ok(Some(Completed(p.width, bottom - src.y0, epoch, canvas, src.x0, src.y0))))
  }

  class SnapshotAssembler {
    const src: Source
    var pending: map<nat, Pending>

    constructor (src: Source)
      ensures this.src == src && pending == map[]
    {
      this.src := src;
      pending := map[];
    }

    method AddStrip(strip: Strip) returns (r: Result<Option<Completed>, SnapshotError>)
      requires PendingOk(pending) && Takes(src, strip)
      modifies this
      ensures PendingOk(pending) && Answer(pending, r) == Add(src, old(pending), strip)
    {
      if strip.kind != src.kind { return Ok(None); }
      if strip.x != src.x0 { return Err(WrongX); }
      var p := Pending(strip.w, map[], None);
      if strip.epoch in pending {
        p := pending[strip.epoch];
        if strip.w != p.width { return Err(WrongWidth); }
      }
      p := p.(bands := p.bands[strip.y := strip]);
      if strip.isLast { p := p.(lastY := Some(strip.y)); }
      pending := pending[strip.epoch := p];
      if p.lastY == None { return Ok(None); }
      r := TryFinalize(strip.epoch, p);
    }

    /** `_try_finalize`. */
    method TryFinalize(epoch: nat, p: Pending) returns (r: Result<Option<Completed>, SnapshotError>)
      requires PendingOk(pending) && epoch in pending && pending[epoch] == p && p.lastY.Some?
      modifies this
      ensures var (canvas, bottom) := Walk(p.bands, src.y0);
              if bottom <= p.lastY.value then pending == old(pending) && r == Ok(None)
              else pending == old(pending) - {epoch} &&
                   r == Ok(Some(Completed(p.width, bottom - src.y0, epoch, canvas, src.x0, src.y0)))
    {
      var canvas: seq<nat> := [];
      var y, bottom := src.y0, src.y0;
      ghost var whole := Walk(p.bands, src.y0);
      assert canvas + whole.0 == whole.0;
      while y in p.bands
        invariant bottom == y
        invariant whole == (canvas + Walk(p.bands, y).0, Walk(p.bands, y).1)
        decreases KeysFrom(p.bands, y)
      {
        var band := p.bands[y];
        assert y in KeysFrom(p.bands, y) && y !in KeysFrom(p.bands, y + band.h);
        assert canvas + (band.bgr + Walk(p.bands, y + band.h).0) == (canvas + band.bgr) + Walk(p.bands, y + band.h).0;
        canvas := canvas + band.bgr;
        bottom := y + band.h;
        y := y + band.h;
      }
      assert canvas + [] == canvas;
      if bottom <= p.lastY.value { return Ok(None); }
      pending := pending - {epoch};
      return Ok(Some(Completed(p.width, bottom - src.y0, epoch, canvas, src.x0, src.y0)));
    }
  }

  // ----- when the walk ends -----

  /** The row reached after `n` passes of the walk, whatever the bands' heights. */
  function Down(bands: map<int, Strip>, y: int, n: nat): int
  {
    if n == 0 then y else
    var z := Down(bands, y, n - 1);
    if z in bands then z + bands[z].h else z
  }

  ghost predicate Ends(bands: map<int, Strip>, y: int) { exists n: nat :: Down(bands, y, n) !in bands }

  /** No band the walk comes to has height 0. */
  ghost predicate NoFlatBand(bands: map<int, Strip>, y: int)
  {
    forall n: nat :: Down(bands, y, n) in bands ==> bands[Down(bands, y, n)].h >= 1
  }

  lemma {:induction false} Rests(bands: map<int, Strip>, y: int, n: nat, k: nat)
    requires Down(bands, y, n) in bands ==> bands[Down(bands, y, n)].h == 0
    ensures Down(bands, y, n + k) == Down(bands, y, n)
  {
    if k > 0 { Rests(bands, y, n, k - 1); }
  }

  lemma {:induction false} PassesOut(bands: map<int, Strip>, y: int, n: nat) returns (end: nat)
    requires NoFlatBand(bands, y)
    ensures Down(bands, y, end) !in bands
    decreases KeysFrom(bands, Down(bands, y, n))
  {
    var z := Down(bands, y, n);
    if z !in bands { return n; }
    assert z in KeysFrom(bands, z) && z !in KeysFrom(bands, z + bands[z].h);
    end := PassesOut(bands, y, n + 1);
  }

  /** The walk over any bands ends if and only if it comes to no band of height 0. */
  lemma WalkEnds(bands: map<int, Strip>, y: int)
    ensures Ends(bands, y) <==> NoFlatBand(bands, y)
  {
    if NoFlatBand(bands, y) {
      var end := PassesOut(bands, y, 0);
    }
    if Ends(bands, y) {
      var end: nat :| Down(bands, y, end) !in bands;
      forall n: nat | Down(bands, y, n) in bands
        ensures bands[Down(bands, y, n)].h >= 1
      {
        if bands[Down(bands, y, n)].h == 0 {
          if n <= end { Rests(bands, y, n, end - n); } else { Rests(bands, y, end, n - end); }
        }
      }
    }
  }

  /** Where it ends is the bottom of `Walk`. */
  lemma {:induction false} WalkGoesDown(bands: map<int, Strip>, y: int, n: nat)
    requires Tall(bands)
    ensures Walk(bands, Down(bands, y, n)).1 == Walk(bands, y).1
  {
    if n > 0 { WalkGoesDown(bands, y, n - 1); }
  }

  // ----- a region cut into bands -----

  /** Contiguous bands of height >= 1 from the origin, one of them (the bottom one) LAST. */
  ghost predicate IsRegion(src: Source, bands: seq<Strip>)
  {
    && bands != [] && bands[0].y == src.y0
    && (forall i | 0 <= i < |bands| ::
          bands[i].kind == src.kind && bands[i].x == src.x0 && bands[i].h >= 1 &&
          bands[i].w == bands[0].w && bands[i].epoch == bands[0].epoch && bands[i].isLast == (i == |bands| - 1))
    && (forall i | 0 < i < |bands| :: bands[i].y == bands[i - 1].y + bands[i - 1].h)
  }

  /** The row where band `i` starts; for i == |bands| the row below the region. */
  function Top(bands: seq<Strip>, i: nat): int
    requires bands != [] && i <= |bands|
  {
    if i < |bands| then bands[i].y else bands[i - 1].y + bands[i - 1].h
  }

  function Pixels(bands: seq<Strip>, i: nat): seq<nat>
    requires i <= |bands|
    decreases |bands| - i
  {
    if i == |bands| then [] else bands[i].bgr + Pixels(bands, i + 1)
  }

  lemma {:induction false} TopsAscend(src: Source, bands: seq<Strip>, i: nat, j: nat)
    requires IsRegion(src, bands) && i < j <= |bands|
    ensures Top(bands, i) < Top(bands, j)
    decreases j
  {
    if i + 1 < j { TopsAscend(src, bands, i, j - 1); }
  }

  /** The pending bands are exactly the region's bands with index in `seen`. */
  ghost predicate HasBands(m: map<int, Strip>, bands: seq<Strip>, seen: set<nat>)
  {
    && (forall i | i in seen :: i < |bands| && bands[i].y in m && m[bands[i].y] == bands[i])
    && (forall y | y in m :: exists i :: i in seen && i < |bands| && bands[i].y == y)
  }

  /** What is filed under the region's epoch after the bands in `seen` have arrived. */
  ghost predicate Filed(pending: map<nat, Pending>, bands: seq<Strip>, seen: set<nat>)
    requires bands != []
  {
    var epoch := bands[0].epoch;
    if seen == {} then epoch !in pending
    else
      epoch in pending && pending[epoch].width == bands[0].w && HasBands(pending[epoch].bands, bands, seen) &&
      pending[epoch].lastY == if |bands| - 1 in seen then Some(bands[|bands| - 1].y) else None
  }

  lemma MissingRow(src: Source, bands: seq<Strip>, m: map<int, Strip>, seen: set<nat>, i: nat)
    requires IsRegion(src, bands) && HasBands(m, bands, seen) && i <= |bands| && i !in seen
    ensures Top(bands, i) !in m
  {
    var y := Top(bands, i);
    forall j | j in seen && j < |bands|
      ensures bands[j].y != y
    {
      if j < i { TopsAscend(src, bands, j, i); } else { TopsAscend(src, bands, i, j); }
    }
  }

  /** The walk from band `i` stops at the first missing band, with the pixels up to it. */
  lemma {:induction false} WalkToGap(src: Source, bands: seq<Strip>, m: map<int, Strip>, seen: set<nat>, i: nat, gap: nat)
    requires IsRegion(src, bands) && HasBands(m, bands, seen) && Tall(m) && i <= gap <= |bands|
    requires gap !in seen && forall j | i <= j < gap :: j in seen
    ensures Walk(m, Top(bands, i)).1 == Top(bands, gap)
    ensures gap == |bands| ==> Walk(m, Top(bands, i)).0 == Pixels(bands, i)
    decreases gap - i
  {
    if i == gap {
      MissingRow(src, bands, m, seen, i);
    } else {
      assert Top(bands, i) + m[Top(bands, i)].h == Top(bands, i + 1);
      WalkToGap(src, bands, m, seen, i + 1, gap);
    }
  }

  /** Every one of the first `n` indices has been seen. */
  ghost predicate Complete(seen: set<nat>, n: nat) { forall i: nat | i < n :: i in seen }

  lemma FirstGap(n: nat, seen: set<nat>) returns (gap: nat)
    requires forall i | i in seen :: i < n
    ensures gap <= n && gap !in seen && (forall j: nat | j < gap :: j in seen) && (gap == n <==> Complete(seen, n))
  {
    gap := 0;
    while gap < n && gap in seen
      invariant gap <= n && forall j: nat | j < gap :: j in seen
    {
      gap := gap + 1;
    }
  }

  lemma GapAndLast(src: Source, bands: seq<Strip>, gap: nat)
    requires IsRegion(src, bands) && gap <= |bands| && gap != |bands| - 1
    ensures Top(bands, 0) == src.y0
    ensures var last := bands[|bands| - 1].y;
            if gap == |bands| then Top(bands, gap) > last else Top(bands, gap) <= last
  {
    if gap < |bands| { TopsAscend(src, bands, gap, |bands| - 1); } else { TopsAscend(src, bands, |bands| - 1, gap); }
  }

  /** With the LAST band there, the walk passes it exactly when no band is missing. */
  lemma WalkDecides(src: Source, bands: seq<Strip>, m: map<int, Strip>, seen: set<nat>)
    requires IsRegion(src, bands) && HasBands(m, bands, seen) && Tall(m) && |bands| - 1 in seen
    ensures var (canvas, bottom) := Walk(m, src.y0);
            if Complete(seen, |bands|) then canvas == Pixels(bands, 0) && bottom == Top(bands, |bands|) > bands[|bands| - 1].y
            else bottom <= bands[|bands| - 1].y
  {
    var gap := FirstGap(|bands|, seen);
    WalkToGap(src, bands, m, seen, 0, gap);
    GapAndLast(src, bands, gap);
  }

  lemma HasBandsGrows(src: Source, m: map<int, Strip>, bands: seq<Strip>, seen: set<nat>, i: nat)
    requires IsRegion(src, bands) && HasBands(m, bands, seen) && i < |bands|
    ensures HasBands(m[bands[i].y := bands[i]], bands, seen + {i})
  {
    var m', seen' := m[bands[i].y := bands[i]], seen + {i};
    forall j | j in seen'
      ensures j < |bands| && bands[j].y in m' && m'[bands[j].y] == bands[j]
    {
      if j < i { TopsAscend(src, bands, j, i); } else if j > i && j < |bands| { TopsAscend(src, bands, i, j); }
    }
    forall y | y in m'
      ensures exists j :: j in seen' && j < |bands| && bands[j].y == y
    {
      if y != bands[i].y {
        var j :| j in seen && j < |bands| && bands[j].y == y;
        assert j in seen';
      } else {
        assert i in seen';
      }
    }
  }

  /** Filing one band of the region. */
  lemma BandFiled(src: Source, pending: map<nat, Pending>, bands: seq<Strip>, seen: set<nat>, i: nat)
    requires IsRegion(src, bands) && PendingOk(pending) && Filed(pending, bands, seen) && i < |bands|
    ensures var p := File(pending, bands[i]);
            p.width == bands[0].w && HasBands(p.bands, bands, seen + {i}) && Tall(p.bands) &&
            p.lastY == if |bands| - 1 in seen + {i} then Some(bands[|bands| - 1].y) else None
  {
    if bands[0].epoch in pending {
      HasBandsGrows(src, pending[bands[0].epoch].bands, bands, seen, i);
    } else {
      HasBandsGrows(src, map[], bands, {}, i);
    }
  }

  /** The picture of a complete region. */
  function Picture(src: Source, bands: seq<Strip>): Completed
    requires bands != []
  {
    Completed(bands[0].w, Top(bands, |bands|) - src.y0, bands[0].epoch, Pixels(bands, 0), src.x0, src.y0)
  }

  lemma AddDecides(src: Source, pending: map<nat, Pending>, bands: seq<Strip>, seen: set<nat>, i: nat)
    requires IsRegion(src, bands) && PendingOk(pending) && Filed(pending, bands, seen) && i < |bands|
    ensures Tall(File(pending, bands[i]).bands)
    ensures Add(src, pending, bands[i]) == Decide(src, pending, bands[0].epoch, File(pending, bands[i]))
  {
  }

  lemma DecideFiles(src: Source, pending: map<nat, Pending>, bands: seq<Strip>, now: set<nat>, p: Pending)
    requires IsRegion(src, bands) && PendingOk(pending) && now != {} && !Complete(now, |bands|)
    requires p.width == bands[0].w && HasBands(p.bands, bands, now) && Tall(p.bands)
    requires p.lastY == if |bands| - 1 in now then Some(bands[|bands| - 1].y) else None
    ensures var a := Decide(src, pending, bands[0].epoch, p);
            a.result == Ok(None) && Filed(a.pending, bands, now)
  {
    if |bands| - 1 in now { WalkDecides(src, bands, p.bands, now); }
  }

  lemma DecideFinalizes(src: Source, pending: map<nat, Pending>, epoch: nat, p: Pending, canvas: seq<nat>, bottom: int)
    requires PendingOk(pending) && Tall(p.bands) && p.lastY.Some?
    requires Walk(p.bands, src.y0) == (canvas, bottom) && bottom > p.lastY.value
    ensures Decide(src, pending, epoch, p)
         == Answer(pending - {epoch}, Ok(Some(Completed(p.width, bottom - src.y0, epoch, canvas, src.x0, src.y0))))
  {
  }

  lemma DecideCompletes(src: Source, pending: map<nat, Pending>, bands: seq<Strip>, now: set<nat>, p: Pending)
    requires IsRegion(src, bands) && PendingOk(pending) && Complete(now, |bands|)
    requires p.width == bands[0].w && HasBands(p.bands, bands, now) && Tall(p.bands)
    requires p.lastY == Some(bands[|bands| - 1].y)
    ensures var a := Decide(src, pending, bands[0].epoch, p);
            a.result == Ok(Some(Picture(src, bands))) && Filed(a.pending, bands, {})
  {
    WalkDecides(src, bands, p.bands, now);
    DecideFinalizes(src, pending, bands[0].epoch, p, Pixels(bands, 0), Top(bands, |bands|));
  }

  /** A band of the region arrives: the result appears exactly when it was the last one
    * missing, with the bands' pixels top to bottom; otherwise it is filed. */
  lemma BandArrives(src: Source, pending: map<nat, Pending>, bands: seq<Strip>, seen: set<nat>, i: nat)
    requires IsRegion(src, bands) && PendingOk(pending) && Filed(pending, bands, seen) && i < |bands|
    requires forall j | j in seen :: j < |bands|
    ensures var a := Add(src, pending, bands[i]);
            if Complete(seen + {i}, |bands|) then a.result == Ok(Some(Picture(src, bands))) && Filed(a.pending, bands, {})
            else a.result == Ok(None) && Filed(a.pending, bands, seen + {i})
  {
    var p := File(pending, bands[i]);
    BandFiled(src, pending, bands, seen, i);
    AddDecides(src, pending, bands, seen, i);
    if Complete(seen + {i}, |bands|) {
      DecideCompletes(src, pending, bands, seen + {i}, p);
    } else {
      DecideFiles(src, pending, bands, seen + {i}, p);
    }
  }

  /** Of another kind or epoch, or to be rejected: from another column, or of another width once some
    * band of the region is in. */
  predicate Foreign(src: Source, bands: seq<Strip>, seen: set<nat>, strip: Strip)
    requires bands != []
  {
    || strip.kind != src.kind || strip.x != src.x0 || strip.epoch != bands[0].epoch
    || (seen != {} && strip.w != bands[0].w)
  }

  /** Such strips never touch the region's bands. */
  lemma OthersIgnored(src: Source, pending: map<nat, Pending>, bands: seq<Strip>, seen: set<nat>, strip: Strip)
    requires bands != [] && PendingOk(pending) && Filed(pending, bands, seen)
    requires Takes(src, strip) && Foreign(src, bands, seen, strip)
    ensures Filed(Add(src, pending, strip).pending, bands, seen)
    ensures var r := Add(src, pending, strip).result; r.Ok? && r.value.Some? ==> r.value.value.epoch != bands[0].epoch
  {
  }

  // ----- any arrival order -----

  /** One arrival: a band of the region by index, or something else. */
  datatype Arrival = Band(i: nat) | Else(strip: Strip)

  predicate ArrivalOk(src: Source, bands: seq<Strip>, seen: set<nat>, a: Arrival)
    requires bands != []
  {
    match a
    case Band(i) => i < |bands|
    case Else(strip) => Takes(src, strip) && Foreign(src, bands, seen, strip)
  }

  function StripOf(bands: seq<Strip>, a: Arrival): Strip
    requires a.Band? ==> a.i < |bands|
  {
    if a.Band? then bands[a.i] else a.strip
  }

  function Seen(arrivals: seq<Arrival>): set<nat> { set a | a in arrivals && a.Band? :: a.i }

  ghost predicate AllOk(src: Source, bands: seq<Strip>, arrivals: seq<Arrival>)
    requires bands != []
  {
    arrivals == [] ||
    (AllOk(src, bands, arrivals[..|arrivals| - 1]) &&
     ArrivalOk(src, bands, Seen(arrivals[..|arrivals| - 1]), arrivals[|arrivals| - 1]))
  }

  function Run(src: Source, bands: seq<Strip>, pending: map<nat, Pending>, arrivals: seq<Arrival>): (r: map<nat, Pending>)
    requires bands != [] && PendingOk(pending) && (forall i | 0 <= i < |bands| :: bands[i].h >= 1)
    requires AllOk(src, bands, arrivals)
    ensures PendingOk(r)
  {
    if arrivals == [] then pending
    else Add(src, Run(src, bands, pending, arrivals[..|arrivals| - 1]), StripOf(bands, arrivals[|arrivals| - 1])).pending
  }

  /** The answer to the last arrival. */
  function LastAnswer(src: Source, bands: seq<Strip>, pending: map<nat, Pending>, arrivals: seq<Arrival>)
      : Result<Option<Completed>, SnapshotError>
    requires bands != [] && PendingOk(pending) && (forall i | 0 <= i < |bands| :: bands[i].h >= 1)
    requires AllOk(src, bands, arrivals) && arrivals != []
  {
    Add(src, Run(src, bands, pending, arrivals[..|arrivals| - 1]), StripOf(bands, arrivals[|arrivals| - 1])).result
  }

  lemma SeenGrows(arrivals: seq<Arrival>)
    requires arrivals != []
    ensures var a := arrivals[|arrivals| - 1];
            Seen(arrivals) == Seen(arrivals[..|arrivals| - 1]) + if a.Band? then {a.i} else {}
  {
    var front, a := arrivals[..|arrivals| - 1], arrivals[|arrivals| - 1];
    assert arrivals == front + [a];
  }

  /** While some band is still missing everything that arrived is filed. */
  lemma {:induction false} FiledWhileIncomplete(src: Source, bands: seq<Strip>, pending: map<nat, Pending>, arrivals: seq<Arrival>)
    requires IsRegion(src, bands) && PendingOk(pending) && bands[0].epoch !in pending
    requires AllOk(src, bands, arrivals) && !Complete(Seen(arrivals), |bands|)
    ensures Filed(Run(src, bands, pending, arrivals), bands, Seen(arrivals))
    ensures forall i | i in Seen(arrivals) :: i < |bands|
  {
    if arrivals != [] {
      var front, a := arrivals[..|arrivals| - 1], arrivals[|arrivals| - 1];
      SeenGrows(arrivals);
      FiledWhileIncomplete(src, bands, pending, front);
      var before := Run(src, bands, pending, front);
      match a {
        case Band(i) => BandArrives(src, before, bands, Seen(front), i);
        case Else(strip) => OthersIgnored(src, before, bands, Seen(front), strip);
      }
    }
  }

  /** Whatever the arrival order, with duplicates and with foreign strips
    * in between: as long as some band was missing before the last arrival, that arrival
    * completes the region exactly when it is the last missing band, and the picture is the
    * bands' pixels from top to bottom. */
  lemma CompletesExactlyWhenCovered(src: Source, bands: seq<Strip>, pending: map<nat, Pending>, arrivals: seq<Arrival>)
    requires IsRegion(src, bands) && PendingOk(pending) && bands[0].epoch !in pending
    requires AllOk(src, bands, arrivals) && arrivals != []
    requires !Complete(Seen(arrivals[..|arrivals| - 1]), |bands|)
    ensures var r := LastAnswer(src, bands, pending, arrivals);
            Complete(Seen(arrivals), |bands|) <==>
              r == Ok(Some(Picture(src, bands)))
    ensures var r := LastAnswer(src, bands, pending, arrivals);
            !Complete(Seen(arrivals), |bands|) && r.Ok? && r.value.Some? ==> r.value.value.epoch != bands[0].epoch
  {
    var front, a := arrivals[..|arrivals| - 1], arrivals[|arrivals| - 1];
    SeenGrows(arrivals);
    FiledWhileIncomplete(src, bands, pending, front);
    var before := Run(src, bands, pending, front);
    match a {
      case Band(i) => BandArrives(src, before, bands, Seen(front), i);
      case Else(strip) => OthersIgnored(src, before, bands, Seen(front), strip);
    }
  }

  // ----- single strips -----

  /** What adding any strip does: another kind is ignored, another column or width rejected, and anything
    * else filed under its epoch, where a LAST band sets the end. */
  lemma AddFiles(src: Source, pending: map<nat, Pending>, strip: Strip)
    requires PendingOk(pending) && Takes(src, strip)
    ensures var a, known := Add(src, pending, strip), strip.epoch in pending;
      && (strip.kind != src.kind ==> a == Answer(pending, Ok(None)))
      && (strip.kind == src.kind && strip.x != src.x0 ==> a == Answer(pending, Err(WrongX)))
      && (strip.kind == src.kind && strip.x == src.x0 && known && strip.w != pending[strip.epoch].width ==>
            a == Answer(pending, Err(WrongWidth)))
      && (strip.kind == src.kind && strip.x == src.x0 && (known ==> strip.w == pending[strip.epoch].width) ==>
            a.result.Ok? && Files(a, pending, strip))
  {
    if strip.kind == src.kind && strip.x == src.x0 && (strip.epoch in pending ==> strip.w == pending[strip.epoch].width) {
      Decides(src, pending, strip);
    }
  }

  /** The strip is filed under its epoch, or completes it; other epochs keep what they have. */
  ghost predicate Files(a: Answer, pending: map<nat, Pending>, strip: Strip)
    requires a.result.Ok?
  {
    && (forall e | e != strip.epoch :: (e in a.pending <==> e in pending) && (e in pending ==> a.pending[e] == pending[e]))
    && (a.result.value.Some? <==> strip.epoch !in a.pending)
    && (strip.epoch in a.pending ==>
          var p := a.pending[strip.epoch];
          && p.width == strip.w
          && p.bands == (if strip.epoch in pending then pending[strip.epoch].bands else map[])[strip.y := strip]
          && p.lastY == (if strip.isLast then Some(strip.y)
                         else if strip.epoch in pending then pending[strip.epoch].lastY else None))
  }

  lemma Decides(src: Source, pending: map<nat, Pending>, strip: Strip)
    requires PendingOk(pending) && Takes(src, strip)
    requires strip.kind == src.kind && strip.x == src.x0 && (strip.epoch in pending ==> strip.w == pending[strip.epoch].width)
    ensures Add(src, pending, strip).result.Ok? && Files(Add(src, pending, strip), pending, strip)
  {
  }
}
