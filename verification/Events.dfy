/** The emulated machine's event queue, with one-shot and periodic interrupt sources, the levels
    of the interrupt line, and the timers of the sound chip. */
module Events {
  import opened Wrappers

  datatype Kind = Nmi | Irq | Call

  /** What an event does: an interrupt, one with its data bus byte, or the expiry of a timer. */
  datatype What = Plain | Vector(v: int) | Expiry(i: nat, gen: nat)

  datatype Per = Per(period: int, count: Option<int>)

  datatype Entry = Entry(t: int, seqno: nat, kind: Kind, what: What, per: Option<Per>)

  // ---- the heap -----------------------------------------------------------------------------

  /** The order of the heap: by time, then by the order of arrival. */
  predicate Before(a: Entry, b: Entry) { a.t < b.t || (a.t == b.t && a.seqno < b.seqno) }

  predicate Sorted(h: seq<Entry>) { forall i, j :: 0 <= i < j < |h| ==> Before(h[i], h[j]) }

  /** No two entries have the same number. */
  predicate Unique(h: seq<Entry>) { forall i, j :: 0 <= i < j < |h| ==> h[i].seqno != h[j].seqno }

  function Push(h: seq<Entry>, e: Entry): seq<Entry> {
    if h == [] || Before(e, h[0]) then [e] + h else [h[0]] + Push(h[1..], e)
  }

  function CountKind(h: seq<Entry>, k: Kind): nat {
    if h == [] then 0 else (if h[0].kind == k then 1 else 0) + CountKind(h[1..], k)
  }

  /** How many expiries of timer `i` have the generation `gen`. */
  function CountLive(h: seq<Entry>, i: nat, gen: nat): nat {
    if h == [] then 0 else (if h[0].what == Expiry(i, gen) then 1 else 0) + CountLive(h[1..], i, gen)
  }

  lemma {:induction false} PushIn(h: seq<Entry>, e: Entry)
    ensures forall x :: x in Push(h, e) <==> x in h || x == e
    decreases |h|
  {
    if !(h == [] || Before(e, h[0])) { PushIn(h[1..], e); }
  }

  lemma {:induction false} PushSorted(h: seq<Entry>, e: Entry)
    requires Sorted(h) && forall x :: x in h ==> x.seqno < e.seqno
    ensures Sorted(Push(h, e))
    decreases |h|
  {
    if h != [] {
      var p := Push(h[1..], e);
      if Before(e, h[0]) {
        assert forall x :: x in h ==> Before(e, x);
      } else {
        TailSorted(h);
        PushSorted(h[1..], e);
        PushIn(h[1..], e);
        assert forall i :: 0 <= i < |p| ==> p[i] in p;
      }
    }
  }

  lemma {:induction false} PushUnique(h: seq<Entry>, e: Entry)
    requires Unique(h) && forall x :: x in h ==> x.seqno < e.seqno
    ensures Unique(Push(h, e))
    decreases |h|
  {
    if h != [] && !Before(e, h[0]) {
      var r := h[1..];
      assert forall i :: 0 <= i < |r| ==> r[i] == h[i + 1];
      PushUnique(r, e);
      PushIn(r, e);
      var p := Push(r, e);
      assert forall i :: 0 <= i < |p| ==> p[i] in p;
      assert forall x :: x in r ==> x.seqno != h[0].seqno;
    }
  }

  lemma TailUnique(h: seq<Entry>)
    requires Unique(h) && h != []
    ensures Unique(h[1..]) && forall x :: x in h[1..] ==> x.seqno != h[0].seqno
  {
    assert forall i :: 0 <= i < |h[1..]| ==> h[1..][i] == h[i + 1];
  }

  lemma TailSorted(h: seq<Entry>)
    requires Sorted(h) && h != []
    ensures Sorted(h[1..]) && forall x :: x in h[1..] ==> Before(h[0], x)
  {
    assert forall i :: 0 <= i < |h[1..]| ==> h[1..][i] == h[i + 1];
  }

  lemma {:induction false} PushCounts(h: seq<Entry>, e: Entry)
    ensures forall k :: CountKind(Push(h, e), k) == CountKind(h, k) + if e.kind == k then 1 else 0
    ensures forall i, g :: CountLive(Push(h, e), i, g) == CountLive(h, i, g) + if e.what == Expiry(i, g) then 1 else 0
    decreases |h|
  {
    if !(h == [] || Before(e, h[0])) { PushCounts(h[1..], e); }
  }

  lemma {:induction false} LiveIn(h: seq<Entry>, i: nat, g: nat)
    ensures CountLive(h, i, g) > 0 <==> exists x :: x in h && x.what == Expiry(i, g)
    decreases |h|
  {
    if h != [] { LiveIn(h[1..], i, g); }
  }

  // ---- time to go -----------------------------------------------------------------------------

  /** How much the entries at or before `t` are early, in all. */
  function Early(h: seq<Entry>, t: int): nat {
    if h == [] then 0 else (if h[0].t <= t then t + 1 - h[0].t else 0) + Early(h[1..], t)
  }

  lemma {:induction false} PushEarly(h: seq<Entry>, e: Entry, t: int)
    ensures Early(Push(h, e), t) == Early(h, t) + if e.t <= t then t + 1 - e.t else 0
    decreases |h|
  {
    if !(h == [] || Before(e, h[0])) { PushEarly(h[1..], e, t); }
  }

  // ---- bits -------------------------------------------------------------------------------------

  predicate Bit(v: int, i: nat)
    decreases i
  {
    if i == 0 then v % 2 == 1 else Bit(v / 2, i - 1)
  }

  /** The bits of the control register: load, enable and reset of the two timers. */
  lemma BitIs(v: nat)
    ensures (Bit(v, 0) <==> v % 2 == 1) && (Bit(v, 1) <==> v / 2 % 2 == 1) && (Bit(v, 2) <==> v / 4 % 2 == 1)
    ensures (Bit(v, 3) <==> v / 8 % 2 == 1) && (Bit(v, 4) <==> v / 16 % 2 == 1) && (Bit(v, 5) <==> v / 32 % 2 == 1)
  {
    Halves(v, 2);
    Halves(v, 4);
    Halves(v, 8);
    Halves(v, 16);
  }

  lemma Halves(v: nat, k: nat)
    requires k in {2, 4, 8, 16}
    ensures v / k / 2 == v / (2 * k)
  {
  }

  /** The two timer flags. */
  datatype Pair = Pair(a: bool, b: bool) {
    predicate At(i: nat) { if i == 0 then a else b }
    function With(i: nat, v: bool): Pair { if i == 0 then this.(a := v) else this.(b := v) }
  }

  // ---- sources ------------------------------------------------------------------------------------

  /** Where a periodic entry comes from: its source, and the number of the event. */
  datatype Origin = Origin(id: nat, k: nat)

  datatype Source = Source(start: int, period: int, count: Option<int>, kind: Kind, what: What)

  /** The source has an event number `k`: with a count of `n` there are `n`, and at least one. */
  predicate Allows(s: Source, k: int) { s.count.Some? ==> k < Max(1, s.count.value) }

  /** `x` is an entry of the source with what is left of the count before event `k`. */
  predicate IsEvent(s: Source, k: int, x: Entry) {
    x.kind == s.kind && x.what == s.what && x.per.Some? && x.per.value.period == s.period > 0 &&
    x.per.value.count == if s.count.None? then None else Some(s.count.value - k)
  }

  /** An event that a source fired. */
  datatype Fired = Fired(id: nat, k: nat, t: int)

  function Firings(log: seq<Fired>, id: nat): nat {
    if log == [] then 0 else Firings(log[..|log| - 1], id) + if log[|log| - 1].id == id then 1 else 0
  }

  /** The counters are the pending entries of their kind. */
  predicate Counted(h: seq<Entry>, nmi: int, irq: int) { nmi == CountKind(h, Nmi) && irq == CountKind(h, Irq) }

  /** Each running timer has exactly one expiry of its generation, and a stopped one has none. */
  ghost predicate Timed(h: seq<Entry>, running: Pair, gens: seq<nat>) {
    |gens| == 2 && (forall i :: 0 <= i < 2 ==> CountLive(h, i, gens[i]) == if running.At(i) then 1 else 0) &&
    forall x :: x in h && x.what.Expiry? ==>
      x.kind == Call && x.per.None? && x.what.i < 2 && x.what.gen <= gens[x.what.i]
  }

  /** Every entry is newer than none to come, and an entry that is no expiry is an interrupt. */
  predicate Fresh(h: seq<Entry>, n: nat) {
    Unique(h) && forall x :: x in h ==> x.seqno <= n && (x.what.Expiry? <==> x.kind.Call?)
  }

  predicate SameSource(origin: map<nat, Origin>, x: Entry, y: Entry) {
    x.per.Some? && y.per.Some? && x.seqno in origin && y.seqno in origin && origin[x.seqno].id == origin[y.seqno].id
  }

  /** A periodic entry is the next event of its source, at its exact time. */
  ghost predicate Tracked(h: seq<Entry>, origin: map<nat, Origin>, sources: seq<Source>, log: seq<Fired>) {
    (forall x :: x in h && x.per.Some? ==>
      x.seqno in origin && origin[x.seqno].id < |sources| &&
      var o, s := origin[x.seqno], sources[origin[x.seqno].id];
      IsEvent(s, o.k, x) && Allows(s, o.k) && x.t == s.start + o.k * s.period && Firings(log, o.id) == o.k) &&
    (forall x, y :: x in h && y in h && SameSource(origin, x, y) ==> x.seqno == y.seqno) &&
    forall i :: 0 <= i < |log| ==>
      log[i].id < |sources| && log[i].t == sources[log[i].id].start + log[i].k * sources[log[i].id].period &&
      Allows(sources[log[i].id], log[i].k) && log[i].k == Firings(log[..i], log[i].id)
  }

  ghost predicate Pends(h: seq<Entry>, origin: map<nat, Origin>, id: nat) {
    exists x :: x in h && x.per.Some? && x.seqno in origin && origin[x.seqno].id == id
  }

  /** Each source, `but` one perhaps, has an entry in the queue, unless it has fired all its events. */
  ghost predicate Alive(h: seq<Entry>, origin: map<nat, Origin>, sources: seq<Source>, log: seq<Fired>, but: int) {
    forall id :: 0 <= id < |sources| && id != but ==> Pends(h, origin, id) || !Allows(sources[id], Firings(log, id))
  }

  /** No event was fired later than `clock`. */
  predicate Past(log: seq<Fired>, clock: int) { forall i :: 0 <= i < |log| ==> log[i].t <= clock }

  /** The queue, its counters, and the origins of its periodic entries. */
  ghost predicate QueueOk(h: seq<Entry>, n: nat, nmi: int, irq: int, origin: map<nat, Origin>, sources: seq<Source>,
                          log: seq<Fired>) {
    Sorted(h) && Fresh(h, n) && Counted(h, nmi, irq) && Tracked(h, origin, sources, log) &&
    forall k :: k in origin ==> k <= n
  }

  // ---- adding and taking entries --------------------------------------------------------------------

  lemma AddSorted(h: seq<Entry>, n: nat, e: Entry)
    requires Sorted(h) && Fresh(h, n) && e.seqno == n + 1 && (e.what.Expiry? <==> e.kind.Call?)
    ensures Sorted(Push(h, e)) && Fresh(Push(h, e), n + 1)
  {
    PushSorted(h, e);
    PushUnique(h, e);
    PushIn(h, e);
  }

  lemma AddCounted(h: seq<Entry>, nmi: int, irq: int, e: Entry)
    requires Counted(h, nmi, irq)
    ensures Counted(Push(h, e), nmi + if e.kind.Nmi? then 1 else 0, irq + if e.kind.Irq? then 1 else 0)
  {
    PushCounts(h, e);
  }

  lemma AddTracked(h: seq<Entry>, origin: map<nat, Origin>, sources: seq<Source>, log: seq<Fired>, e: Entry)
    requires Tracked(h, origin, sources, log) && e.per.None?
    ensures Tracked(Push(h, e), origin, sources, log)
  {
    PushIn(h, e);
  }

  lemma AddTimed(h: seq<Entry>, running: Pair, gens: seq<nat>, e: Entry)
    requires Timed(h, running, gens) && !e.what.Expiry?
    ensures Timed(Push(h, e), running, gens)
  {
    PushIn(h, e);
    PushCounts(h, e);
  }

  lemma {:induction false} NoFirings(log: seq<Fired>, id: nat)
    requires forall i :: 0 <= i < |log| ==> log[i].id != id
    ensures Firings(log, id) == 0
    decreases |log|
  {
    if log != [] { NoFirings(log[..|log| - 1], id); }
  }

  /** A new source. */
  lemma AddSource(h: seq<Entry>, n: nat, origin: map<nat, Origin>, sources: seq<Source>, log: seq<Fired>, e: Entry,
                  s: Source)
    requires Tracked(h, origin, sources, log) && Fresh(h, n) && e.seqno == n + 1 && (forall k :: k in origin ==> k <= n)
    requires IsEvent(s, 0, e) && e.t == s.start
    ensures Tracked(Push(h, e), origin[n + 1 := Origin(|sources|, 0)], sources + [s], log)
  {
    PushIn(h, e);
    NoFirings(log, |sources|);
    var o := origin[n + 1 := Origin(|sources|, 0)];
    assert o[n + 1].k * s.period == 0;
    forall x | x in h && x.per.Some? ensures x.seqno in o && o[x.seqno] == origin[x.seqno] {}
    assert forall i :: 0 <= i < |sources| ==> (sources + [s])[i] == sources[i];
  }

  /** The rest of the heap, when its first entry is taken. */
  lemma Taken(h: seq<Entry>, n: nat, nmi: int, irq: int, origin: map<nat, Origin>, sources: seq<Source>,
              log: seq<Fired>)
    requires h != [] && Sorted(h) && Fresh(h, n) && Counted(h, nmi, irq) && Tracked(h, origin, sources, log)
    ensures
      var e, r := h[0], h[1..];
      Sorted(r) && Fresh(r, n) && Tracked(r, origin, sources, log) &&
      Counted(r, nmi - (if e.kind.Nmi? then 1 else 0), irq - (if e.kind.Irq? then 1 else 0))
  {
    TailSorted(h);
    TailUnique(h);
    assert forall x :: x in h[1..] ==> x in h;
  }

  /** The first entry is an event of a source: it is the next one, and no other entry is of that
      source. */
  lemma TakenPeriodic(h: seq<Entry>, origin: map<nat, Origin>, sources: seq<Source>, log: seq<Fired>)
    requires h != [] && Unique(h) && Tracked(h, origin, sources, log) && h[0].per.Some?
    ensures
      var e, r := h[0], h[1..];
      e.seqno in origin && origin[e.seqno].id < |sources| &&
      var o, s := origin[e.seqno], sources[origin[e.seqno].id];
      IsEvent(s, o.k, e) && Allows(s, o.k) && e.t == s.start + o.k * s.period && Firings(log, o.id) == o.k &&
      (forall x :: x in r && x.per.Some? ==> x.seqno in origin && origin[x.seqno].id != o.id)
  {
    TailUnique(h);
    assert h[0] in h && forall x :: x in h[1..] ==> x in h;
    assert forall x :: x in h[1..] && x.per.Some? ==> !SameSource(origin, h[0], x);
  }

  lemma FiringsMore(log: seq<Fired>, f: Fired, id: nat)
    ensures Firings(log + [f], id) == Firings(log, id) + if f.id == id then 1 else 0
  {
    assert (log + [f])[..|log|] == log;
  }

  /** After an event of a source the other entries are tracked as before. */
  lemma LogTracked(r: seq<Entry>, origin: map<nat, Origin>, sources: seq<Source>, log: seq<Fired>, o: Origin, t: int)
    requires Tracked(r, origin, sources, log) && o.id < |sources| &&
      t == sources[o.id].start + o.k * sources[o.id].period
    requires Allows(sources[o.id], o.k) && Firings(log, o.id) == o.k
    requires forall x :: x in r && x.per.Some? ==> x.seqno in origin && origin[x.seqno].id != o.id
    ensures Tracked(r, origin, sources, log + [Fired(o.id, o.k, t)])
  {
    var f := Fired(o.id, o.k, t);
    var after := log + [f];
    forall id ensures Firings(after, id) == Firings(log, id) + if f.id == id then 1 else 0 { FiringsMore(log, f, id); }
    forall i | 0 <= i < |after|
      ensures after[i].id < |sources| &&
        after[i].t == sources[after[i].id].start + after[i].k * sources[after[i].id].period
      ensures Allows(sources[after[i].id], after[i].k) && after[i].k == Firings(after[..i], after[i].id)
    {
      assert after[..i] == if i < |log| then log[..i] else log;
    }
  }

  /** The next event of the source goes into the heap. */
  lemma NextTracked(r: seq<Entry>, n: nat, origin: map<nat, Origin>, sources: seq<Source>, log: seq<Fired>, o: Origin,
                    e: Entry)
    requires Tracked(r, origin, sources, log) && Fresh(r, n) && e.seqno == n + 1 && (forall k :: k in origin ==> k <= n)
    requires o.id < |sources| && Firings(log, o.id) == o.k + 1
    requires IsEvent(sources[o.id], o.k + 1, e) && Allows(sources[o.id], o.k + 1)
    requires e.t == sources[o.id].start + o.k * sources[o.id].period + sources[o.id].period
    requires forall x :: x in r && x.per.Some? ==> x.seqno in origin && origin[x.seqno].id != o.id
    ensures Tracked(Push(r, e), origin[n + 1 := Origin(o.id, o.k + 1)], sources, log)
  {
    PushIn(r, e);
    hide Unique, Push, Sorted, Firings;
    var m, p := origin[n + 1 := Origin(o.id, o.k + 1)], sources[o.id].period;
    assert (o.k + 1) * p == o.k * p + p;
    forall x | x in r && x.per.Some? ensures x.seqno in m && m[x.seqno] == origin[x.seqno] {}
  }

  lemma NoEvents()
    ensures QueueOk([], 0, 0, 0, map[], [], []) && Timed([], Pair(false, false), [0, 0])
  {
  }

  lemma QueueFresh(h: seq<Entry>, n: nat, nmi: int, irq: int, origin: map<nat, Origin>, sources: seq<Source>,
                   log: seq<Fired>)
    requires QueueOk(h, n, nmi, irq, origin, sources, log)
    ensures Fresh(h, n)
  {
  }

  function One(b: bool): int { if b then 1 else 0 }

  /** One entry more. */
  lemma QueueAdd(h: seq<Entry>, n: nat, nmi: int, irq: int, origin: map<nat, Origin>, sources: seq<Source>,
                 log: seq<Fired>, e: Entry)
    requires QueueOk(h, n, nmi, irq, origin, sources, log)
    requires e.seqno == n + 1 && (e.what.Expiry? <==> e.kind.Call?) && e.per.None?
    ensures QueueOk(Push(h, e), n + 1, nmi + One(e.kind.Nmi?), irq + One(e.kind.Irq?), origin, sources, log)
  {
    hide Sorted, Fresh, Counted, Tracked, Push;
    AddSorted(h, n, e);
    AddCounted(h, nmi, irq, e);
    AddTracked(h, origin, sources, log, e);
  }

  /** One source more. */
  lemma QueueSource(h: seq<Entry>, n: nat, nmi: int, irq: int, origin: map<nat, Origin>, sources: seq<Source>,
                    log: seq<Fired>, e: Entry)
    requires QueueOk(h, n, nmi, irq, origin, sources, log)
    requires e.seqno == n + 1 && !e.what.Expiry? && !e.kind.Call? && e.per.Some? && e.per.value.period > 0
    ensures QueueOk(Push(h, e), n + 1, nmi + One(e.kind.Nmi?), irq + One(e.kind.Irq?),
                    origin[n + 1 := Origin(|sources|, 0)],
                    sources + [Source(e.t, e.per.value.period, e.per.value.count, e.kind, e.what)], log)
  {
    hide Sorted, Fresh, Counted, Tracked, Push;
    AddSorted(h, n, e);
    AddCounted(h, nmi, irq, e);
    AddSource(h, n, origin, sources, log, e, Source(e.t, e.per.value.period, e.per.value.count, e.kind, e.what));
  }

  /** The first entry is taken; it is no event of a source. */
  lemma QueueTaken(h: seq<Entry>, n: nat, nmi: int, irq: int, origin: map<nat, Origin>, sources: seq<Source>,
                   log: seq<Fired>)
    requires QueueOk(h, n, nmi, irq, origin, sources, log) && h != []
    ensures QueueOk(h[1..], n, nmi - One(h[0].kind.Nmi?), irq - One(h[0].kind.Irq?), origin, sources, log)
  {
    hide Sorted, Fresh, Counted, Tracked;
    Taken(h, n, nmi, irq, origin, sources, log);
  }

  /** What is left of a periodic event: the entry for the next, unless it was the last. */
  function Again(e: Entry, n: nat): Option<Entry> {
    if e.per.None? then None
    else
      var c := if e.per.value.count.None? then None else Some(e.per.value.count.value - 1);
      if c.Some? && c.value <= 0 then None
      else Some(Entry(e.t + e.per.value.period, n, e.kind, e.what, Some(Per(e.per.value.period, c))))
  }

  /** An event of a source is taken and logged. */
  lemma QueueLogged(h: seq<Entry>, n: nat, nmi: int, irq: int, origin: map<nat, Origin>, sources: seq<Source>,
                    log: seq<Fired>)
    requires QueueOk(h, n, nmi, irq, origin, sources, log) && h != [] && h[0].per.Some?
    ensures h[0].seqno in origin && h[0].per.value.period > 0
    ensures var o := origin[h[0].seqno];
      QueueOk(h[1..], n, nmi - One(h[0].kind.Nmi?), irq - One(h[0].kind.Irq?), origin, sources,
              log + [Fired(o.id, o.k, h[0].t)])
    ensures var o := origin[h[0].seqno]; Due(h[1..], origin, sources, log + [Fired(o.id, o.k, h[0].t)], h[0], o)
  {
    assert Unique(h);
    hide Sorted, Fresh, Counted, Tracked, Push, Unique, Firings;
    Taken(h, n, nmi, irq, origin, sources, log);
    TakenPeriodic(h, origin, sources, log);
    var o := origin[h[0].seqno];
    LogTracked(h[1..], origin, sources, log, o, h[0].t);
    FiringsMore(log, Fired(o.id, o.k, h[0].t), o.id);
  }

  /** `e` was the event `o.k` of its source, which has no entry now. */
  ghost predicate Due(r: seq<Entry>, origin: map<nat, Origin>, sources: seq<Source>, log: seq<Fired>, e: Entry,
                      o: Origin) {
    e.per.Some? && o.id < |sources| && Firings(log, o.id) == o.k + 1 && IsEvent(sources[o.id], o.k, e) &&
    e.t == sources[o.id].start + o.k * sources[o.id].period &&
    forall x :: x in r && x.per.Some? ==> x.seqno in origin && origin[x.seqno].id != o.id
  }

  /** Its next event is queued. */
  lemma QueueNext(r: seq<Entry>, n: nat, nmi: int, irq: int, origin: map<nat, Origin>, sources: seq<Source>,
                  log: seq<Fired>, e: Entry, o: Origin, a: Entry)
    requires QueueOk(r, n, nmi, irq, origin, sources, log) && Due(r, origin, sources, log, e, o)
    requires e.kind != Call && !e.what.Expiry? && Again(e, n + 1) == Some(a)
    ensures QueueOk(Push(r, a), n + 1, nmi + One(e.kind.Nmi?), irq + One(e.kind.Irq?),
                    origin[n + 1 := Origin(o.id, o.k + 1)], sources, log)
  {
    hide Sorted, Fresh, Counted, Tracked, Push, Unique, Firings;
    AddSorted(r, n, a);
    AddCounted(r, nmi, irq, a);
    NextTracked(r, n, origin, sources, log, o, a);
  }

  // ---- sources that have an entry -------------------------------------------------------------------

  /** Entries that stay keep their sources alive. */
  lemma StillAlive(h: seq<Entry>, origin: map<nat, Origin>, h': seq<Entry>, origin': map<nat, Origin>,
                   sources: seq<Source>, log: seq<Fired>, but: int, but': int)
    requires Alive(h, origin, sources, log, but) && (but == but' || but == -1)
    requires forall x :: x in h && x.per.Some? && x.seqno in origin && origin[x.seqno].id != but' ==>
      x in h' && x.seqno in origin' && origin'[x.seqno] == origin[x.seqno]
    ensures Alive(h', origin', sources, log, but')
  {
    forall id | 0 <= id < |sources| && id != but' && Pends(h, origin, id) ensures Pends(h', origin', id) {
      var x :| x in h && x.per.Some? && x.seqno in origin && origin[x.seqno].id == id;
      assert x in h' && origin'[x.seqno].id == id;
    }
  }

  lemma AddAlive(h: seq<Entry>, origin: map<nat, Origin>, sources: seq<Source>, log: seq<Fired>, e: Entry)
    requires Alive(h, origin, sources, log, -1)
    ensures Alive(Push(h, e), origin, sources, log, -1)
  {
    PushIn(h, e);
    StillAlive(h, origin, Push(h, e), origin, sources, log, -1, -1);
  }

  lemma TakenAlive(h: seq<Entry>, origin: map<nat, Origin>, sources: seq<Source>, log: seq<Fired>)
    requires h != [] && Alive(h, origin, sources, log, -1) && h[0].per.None?
    ensures Alive(h[1..], origin, sources, log, -1)
  {
    StillAlive(h, origin, h[1..], origin, sources, log, -1, -1);
  }

  lemma SourceAlive(h: seq<Entry>, n: nat, origin: map<nat, Origin>, sources: seq<Source>, log: seq<Fired>, e: Entry,
                    s: Source)
    requires Alive(h, origin, sources, log, -1) && Fresh(h, n) && e.seqno == n + 1 && e.per.Some?
    ensures Alive(Push(h, e), origin[n + 1 := Origin(|sources|, 0)], sources + [s], log, -1)
  {
    PushIn(h, e);
    var m := origin[n + 1 := Origin(|sources|, 0)];
    StillAlive(h, origin, Push(h, e), m, sources, log, -1, -1);
    assert e in Push(h, e) && m[e.seqno].id == |sources|;
    assert forall i :: 0 <= i < |sources| ==> (sources + [s])[i] == sources[i];
  }

  lemma LoggedAlive(h: seq<Entry>, origin: map<nat, Origin>, sources: seq<Source>, log: seq<Fired>, f: Fired)
    requires h != [] && Alive(h, origin, sources, log, -1) && h[0].per.Some? && h[0].seqno in origin &&
      f.id == origin[h[0].seqno].id
    ensures Alive(h[1..], origin, sources, log + [f], f.id)
  {
    StillAlive(h, origin, h[1..], origin, sources, log, -1, f.id);
    forall id: nat ensures id != f.id ==> Firings(log + [f], id) == Firings(log, id) { FiringsMore(log, f, id); }
  }

  /** After an event: the source has its next entry, or has fired all. */
  lemma RepeatAlive(h: seq<Entry>, n: nat, origin: map<nat, Origin>, sources: seq<Source>, log: seq<Fired>, e: Entry,
                    o: Origin)
    requires Alive(h, origin, sources, log, o.id) && Due(h, origin, sources, log, e, o) && Fresh(h, n)
    ensures var a := Again(e, n + 1);
      if a.Some? then Alive(Push(h, a.value), origin[n + 1 := Origin(o.id, o.k + 1)], sources, log, -1)
      else Alive(h, origin, sources, log, -1)
  {
    var a := Again(e, n + 1);
    if a.Some? {
      var m := origin[n + 1 := Origin(o.id, o.k + 1)];
      PushIn(h, a.value);
      StillAlive(h, origin, Push(h, a.value), m, sources, log, o.id, o.id);
      assert a.value in Push(h, a.value) && m[a.value.seqno].id == o.id;
    }
  }

  // ---- the timers ---------------------------------------------------------------------------------------

  lemma {:induction false} TakenLive(h: seq<Entry>, i: nat, g: nat)
    requires h != []
    ensures CountLive(h[1..], i, g) == CountLive(h, i, g) - if h[0].what == Expiry(i, g) then 1 else 0
  {
  }

  /** Taking an entry that is no live expiry leaves the timers as they are. */
  lemma TakenTimed(h: seq<Entry>, running: Pair, gens: seq<nat>)
    requires h != [] && Timed(h, running, gens)
    requires h[0].what.Expiry? ==> h[0].what.gen != gens[h[0].what.i]
    ensures Timed(h[1..], running, gens)
  {
    assert h[0] in h && forall x :: x in h[1..] ==> x in h;
    TakenLive(h, 0, gens[0]);
    TakenLive(h, 1, gens[1]);
  }

  lemma NoPeriod(h: seq<Entry>, running: Pair, gens: seq<nat>)
    requires h != [] && Timed(h, running, gens) && h[0].what.Expiry?
    ensures h[0].per.None?
  {
    assert h[0] in h;
  }

  /** A live expiry that is taken and put back at a later time. */
  lemma ReloadTimed(h: seq<Entry>, running: Pair, gens: seq<nat>, e: Entry)
    requires h != [] && Timed(h, running, gens) && h[0].what.Expiry? && e.what == h[0].what && e.kind == Call &&
      e.per.None?
    ensures Timed(Push(h[1..], e), running, gens)
  {
    assert h[0] in h && forall x :: x in h[1..] ==> x in h;
    PushIn(h[1..], e);
    PushCounts(h[1..], e);
    TakenLive(h, 0, gens[0]);
    TakenLive(h, 1, gens[1]);
  }

  /** An expiry of the generation of its timer is of a running timer. */
  lemma LiveRuns(h: seq<Entry>, running: Pair, gens: seq<nat>)
    requires h != [] && Timed(h, running, gens) && h[0].what.Expiry? && h[0].what.gen == gens[h[0].what.i]
    ensures running.At(h[0].what.i)
  {
    assert h[0] in h;
    LiveIn(h, h[0].what.i, h[0].what.gen);
  }

  /** A timer that starts: a new generation, with one expiry. */
  lemma StartTimed(h: seq<Entry>, running: Pair, gens: seq<nat>, i: nat, e: Entry)
    requires Timed(h, running, gens) && i < 2 && !running.At(i)
    requires e.kind == Call && e.per.None? && e.what == Expiry(i, gens[i] + 1)
    ensures Timed(Push(h, e), running.With(i, true), gens[i := gens[i] + 1])
  {
    PushIn(h, e);
    PushCounts(h, e);
    NoneYet(h, i, gens[i]);
  }

  lemma NoneYet(h: seq<Entry>, i: nat, g: nat)
    requires forall x :: x in h && x.what.Expiry? && x.what.i == i ==> x.what.gen <= g
    ensures CountLive(h, i, g + 1) == 0
  {
    LiveIn(h, i, g + 1);
  }

  /** A timer that stops: its expiry is of an old generation from then on. */
  lemma StopTimed(h: seq<Entry>, running: Pair, gens: seq<nat>, i: nat)
    requires Timed(h, running, gens) && i < 2 && running.At(i)
    ensures Timed(h, running.With(i, false), gens[i := gens[i] + 1])
  {
    NoneYet(h, i, gens[i]);
  }

  /** The level that the chip holds on the interrupt line. */
  predicate Raised(status: Pair, enable: Pair) { (status.a && enable.a) || (status.b && enable.b) }

  predicate AnyHigh(levels: map<int, bool>) { exists d :: d in levels && levels[d] }

  /** The same entry after `ticks`, with a new number. */
  function Later(e: Entry, ticks: int, n: nat): Entry { Entry(e.t + ticks, n, Call, e.what, None) }

  function Flagged(status: Pair, enable: Pair, i: nat): Pair { if enable.At(i) then status.With(i, true) else status }

  function Next(rest: seq<Entry>, a: Option<Entry>): seq<Entry> { if a.Some? then Push(rest, a.value) else rest }

  function Max(a: int, b: int): int { if a > b then a else b }

  // ---- what firing comes to ---------------------------------------------------------------------------

  datatype Outcome = Outcome(irq: bool, nmi: bool, held: bool, status: Pair)

  ghost predicate DueKind(h: seq<Entry>, k: Kind, t: int) { exists x :: x in h && x.kind == k && x.t <= t }

  ghost predicate DueLive(h: seq<Entry>, i: nat, g: nat, t: int) {
    exists x :: x in h && x.what == Expiry(i, g) && x.t <= t
  }

  /** The outcome `u` once the entries due at `t` have fired: an interrupt of a kind is requested,
      or held by the gate, when one is due, and a timer's flag is set when its expiry is due and
      the flag enabled. */
  ghost function Coming(h: seq<Entry>, t: int, u: Outcome, open: bool, enable: Pair, gens: seq<nat>): Outcome {
    var n := DueKind(h, Nmi, t);
    Outcome(u.irq || DueKind(h, Irq, t), u.nmi || (n && open), u.held || (n && !open),
            Pair(u.status.a || (enable.a && |gens| == 2 && DueLive(h, 0, gens[0], t)),
                 u.status.b || (enable.b && |gens| == 2 && DueLive(h, 1, gens[1], t))))
  }

  lemma PushDue(h: seq<Entry>, e: Entry, t: int)
    ensures forall k :: DueKind(Push(h, e), k, t) <==> DueKind(h, k, t) || (e.kind == k && e.t <= t)
    ensures forall i, g :: DueLive(Push(h, e), i, g, t) <==> DueLive(h, i, g, t) || (e.what == Expiry(i, g) && e.t <= t)
  {
    PushIn(h, e);
    assert e in Push(h, e);
    forall k ensures DueKind(Push(h, e), k, t) <==> DueKind(h, k, t) || (e.kind == k && e.t <= t) {}
    forall i: nat, g: nat
      ensures DueLive(Push(h, e), i, g, t) <==> DueLive(h, i, g, t) || (e.what == Expiry(i, g) && e.t <= t)
    {
    }
  }

  lemma TakenDue(h: seq<Entry>, t: int)
    requires h != []
    ensures forall k :: DueKind(h, k, t) <==> DueKind(h[1..], k, t) || (h[0].kind == k && h[0].t <= t)
    ensures forall i, g :: DueLive(h, i, g, t) <==>
      DueLive(h[1..], i, g, t) || (h[0].what == Expiry(i, g) && h[0].t <= t)
  {
    assert forall x :: x in h <==> x == h[0] || x in h[1..];
    forall k ensures DueKind(h, k, t) <==> DueKind(h[1..], k, t) || (h[0].kind == k && h[0].t <= t) {}
    forall i: nat, g: nat
      ensures DueLive(h, i, g, t) <==> DueLive(h[1..], i, g, t) || (h[0].what == Expiry(i, g) && h[0].t <= t)
    {
    }
  }

  /** An expiry fires: nothing else comes of it and the rest than of all together. */
  lemma ExpiryComing(h: seq<Entry>, t: int, u: Outcome, open: bool, enable: Pair, gens: seq<nat>, again: Entry)
    requires h != [] && h[0].kind.Call? && h[0].what.Expiry? && h[0].what.i < 2 && |gens| == 2 && h[0].t <= t
    requires again.kind.Call? && again.what == h[0].what
    ensures
      var live := h[0].what.gen == gens[h[0].what.i];
      Coming(if live then Push(h[1..], again) else h[1..], t,
             u.(status := if live then Flagged(u.status, enable, h[0].what.i) else u.status),
             open, enable, gens) == Coming(h, t, u, open, enable, gens)
  {
    hide DueKind, DueLive, Push;
    TakenDue(h, t);
    PushDue(h[1..], again, t);
  }

  /** An interrupt fires. */
  lemma SignalComing(h: seq<Entry>, t: int, u: Outcome, open: bool, enable: Pair, gens: seq<nat>, n: nat)
    requires h != [] && !h[0].kind.Call? && !h[0].what.Expiry? && h[0].t <= t
    ensures
      var isNmi := h[0].kind.Nmi?;
      Coming(Next(h[1..], Again(h[0], n)), t,
             Outcome(u.irq || h[0].kind.Irq?, u.nmi || (isNmi && open), u.held || (isNmi && !open), u.status),
             open, enable, gens) == Coming(h, t, u, open, enable, gens)
  {
    hide DueKind, DueLive, Push;
    TakenDue(h, t);
    var a := Again(h[0], n);
    if a.Some? { PushDue(h[1..], a.value, t); }
  }

  lemma NoneComing(h: seq<Entry>, t: int, u: Outcome, open: bool, enable: Pair, gens: seq<nat>)
    requires forall x :: x in h ==> x.t > t
    ensures Coming(h, t, u, open, enable, gens) == u
  {
  }

  // ---- when timers ring next -------------------------------------------------------------------------

  /** The first of the times `b`, `b + p`, `b + 2 * p` and so on that is after `t`. */
  function NextTick(b: int, p: int, t: int): int
    requires p >= 1
    decreases t - b
  {
    if b > t then b else NextTick(b + p, p, t)
  }

  lemma {:induction false} NextTickFirst(b: int, p: int, t: int) returns (m: nat)
    requires p >= 1
    ensures NextTick(b, p, t) == b + m * p > t && (m > 0 ==> b + (m - 1) * p <= t)
    decreases t - b
  {
    if b > t {
      m := 0;
    } else {
      var k := NextTickFirst(b + p, p, t);
      m := k + 1;
      assert b + p + k * p == b + m * p && (k > 0 ==> b + p + (k - 1) * p == b + (m - 1) * p);
    }
  }

  ghost predicate Rings(h: seq<Entry>, what: What, p: int, t: int, r: int)
    requires p >= 1
  {
    exists x :: x in h && x.what == what && NextTick(x.t, p, t) == r
  }

  /** The first times after `t` of the expiries `what`, with period `p`. */
  ghost function Ringing(h: seq<Entry>, what: What, p: int, t: int): iset<int>
    requires p >= 1
  {
    iset r | Rings(h, what, p, t, r)
  }

  lemma PushRings(h: seq<Entry>, e: Entry, what: What, p: int, t: int)
    requires p >= 1
    ensures Ringing(Push(h, e), what, p, t) == Ringing(h, what, p, t) +
      if e.what == what then iset{NextTick(e.t, p, t)} else iset{}
  {
    PushIn(h, e);
    assert e in Push(h, e);
    forall r
      ensures Rings(Push(h, e), what, p, t, r) <==>
        Rings(h, what, p, t, r) || (e.what == what && NextTick(e.t, p, t) == r)
    {
    }
  }

  lemma TakenRings(h: seq<Entry>, what: What, p: int, t: int)
    requires p >= 1 && h != []
    ensures Ringing(h, what, p, t) == Ringing(h[1..], what, p, t) +
      if h[0].what == what then iset{NextTick(h[0].t, p, t)} else iset{}
  {
    assert forall x :: x in h <==> x == h[0] || x in h[1..];
    forall r
      ensures Rings(h, what, p, t, r) <==>
        Rings(h[1..], what, p, t, r) || (h[0].what == what && NextTick(h[0].t, p, t) == r)
    {
    }
  }

  /** The times of both timers, with periods `p` and `q`. */
  ghost function BellsOf(h: seq<Entry>, gens: seq<nat>, p: int, q: int, t: int): (iset<int>, iset<int>)
    requires |gens| == 2 && p >= 1 && q >= 1
  {
    (Ringing(h, Expiry(0, gens[0]), p, t), Ringing(h, Expiry(1, gens[1]), q, t))
  }

  /** An entry that is due is taken and, when its timer still runs, put back a period later. */
  lemma ExpiryRings(h: seq<Entry>, live: bool, again: Entry, what: What, p: int, t: int)
    requires p >= 1 && h != [] && h[0].t <= t
    requires
      if h[0].what == what then live && again.what == what && again.t == h[0].t + p
      else live ==> again.what != what
    ensures Ringing(if live then Push(h[1..], again) else h[1..], what, p, t) == Ringing(h, what, p, t)
  {
    hide Ringing, Push;
    TakenRings(h, what, p, t);
    PushRings(h[1..], again, what, p, t);
  }

  lemma ExpiryBells(h: seq<Entry>, again: Entry, gens: seq<nat>, p: int, q: int, t: int)
    requires |gens| == 2 && p >= 1 && q >= 1 && h != [] && h[0].t <= t && h[0].what.Expiry? && h[0].what.i < 2
    requires again.what == h[0].what && again.t == h[0].t + if h[0].what.i == 0 then p else q
    ensures
      var live := h[0].what.gen == gens[h[0].what.i];
      BellsOf(if live then Push(h[1..], again) else h[1..], gens, p, q, t) == BellsOf(h, gens, p, q, t)
  {
    hide Ringing, Push;
    var live := h[0].what.gen == gens[h[0].what.i];
    ExpiryRings(h, live, again, Expiry(0, gens[0]), p, t);
    ExpiryRings(h, live, again, Expiry(1, gens[1]), q, t);
  }

  /** An interrupt fires: no timer rings at another time. */
  lemma SignalRings(h: seq<Entry>, n: nat, what: What, p: int, t: int)
    requires p >= 1 && h != [] && h[0].what != what
    ensures Ringing(Next(h[1..], Again(h[0], n)), what, p, t) == Ringing(h, what, p, t)
  {
    hide Ringing, Push;
    TakenRings(h, what, p, t);
    var a := Again(h[0], n);
    if a.Some? { PushRings(h[1..], a.value, what, p, t); }
  }

  lemma SignalBells(h: seq<Entry>, n: nat, gens: seq<nat>, p: int, q: int, t: int)
    requires |gens| == 2 && p >= 1 && q >= 1 && h != [] && !h[0].what.Expiry?
    ensures BellsOf(Next(h[1..], Again(h[0], n)), gens, p, q, t) == BellsOf(h, gens, p, q, t)
  {
    hide Ringing, Next, Again;
    SignalRings(h, n, Expiry(0, gens[0]), p, t);
    SignalRings(h, n, Expiry(1, gens[1]), q, t);
  }

  /** No later entry is lost, and no single interrupt invented. */
  ghost predicate Fires(h: seq<Entry>, h': seq<Entry>, t: int) {
    (forall x :: x in h && x.t > t ==> x in h') && (forall x :: x in h' && x.per.None? && !x.kind.Call? ==> x in h)
  }

  lemma FiresBoth(a: seq<Entry>, b: seq<Entry>, c: seq<Entry>, t: int)
    requires Fires(a, b, t) && Fires(b, c, t)
    ensures Fires(a, c, t)
  {
  }

  lemma SignalFires(h: seq<Entry>, n: nat, t: int)
    requires h != [] && h[0].t <= t && (h[0].per.Some? ==> h[0].per.value.period > 0)
    ensures var h' := Next(h[1..], Again(h[0], n)); Fires(h, h', t) && Early(h', t) < Early(h, t)
  {
    hide Push, Early;
    EarlyTaken(h, t);
    var a := Again(h[0], n);
    if a.Some? {
      PushEarly(h[1..], a.value, t);
      PushIn(h[1..], a.value);
    }
  }

  lemma ExpiryFires(h: seq<Entry>, again: Entry, live: bool, t: int)
    requires h != [] && h[0].t <= t && again.t > h[0].t && again.kind.Call?
    ensures var h' := if live then Push(h[1..], again) else h[1..]; Fires(h, h', t) && Early(h', t) < Early(h, t)
  {
    hide Push, Early;
    EarlyTaken(h, t);
    PushEarly(h[1..], again, t);
    PushIn(h[1..], again);
  }

  /** The expiry after `x` is in the queue, at the first exact time after `t`. */
  ghost predicate OnTime(h: seq<Entry>, x: Entry, p: int, t: int)
    requires p >= 1
  {
    exists y :: y in h && y.what == x.what && y.t == NextTick(x.t, p, t)
  }

  lemma RungOnTime(was: seq<Entry>, h: seq<Entry>, x: Entry, p: int, t: int)
    requires p >= 1 && x in was && (forall y :: y in h ==> y.t > t) &&
      Ringing(h, x.what, p, t) == Ringing(was, x.what, p, t)
    ensures OnTime(h, x, p, t)
  {
    var r := NextTick(x.t, p, t);
    assert Rings(was, x.what, p, t, r) && r in Ringing(h, x.what, p, t);
    var y :| y in h && y.what == x.what && NextTick(y.t, p, t) == r;
    assert y.t > t;
  }

  /** Each source has fired exactly the events up to `t` that it has. */
  ghost predicate AllFired(sources: seq<Source>, log: seq<Fired>, t: int) {
    forall id: nat, k: nat :: id < |sources| ==>
      (k < Firings(log, id) <==> Allows(sources[id], k) && sources[id].start + k * sources[id].period <= t)
  }

  /** The event `k` of a source is in the log when it has fired more than `k`. */
  lemma {:induction false} Logged(log: seq<Fired>, id: nat, k: nat) returns (i: nat)
    requires k < Firings(log, id)
    ensures i < |log| && log[i].id == id && Firings(log[..i], id) == k
    decreases |log|
  {
    var p := log[..|log| - 1];
    if k < Firings(p, id) {
      i := Logged(p, id, k);
      assert p[..i] == log[..i];
    } else {
      i := |log| - 1;
    }
  }

  lemma DueFired(h: seq<Entry>, origin: map<nat, Origin>, sources: seq<Source>, log: seq<Fired>, t: int)
    requires Tracked(h, origin, sources, log) && Alive(h, origin, sources, log, -1) && Past(log, t)
    requires forall x :: x in h ==> x.t > t
    ensures AllFired(sources, log, t)
  {
    forall id: nat, k: nat | id < |sources|
      ensures k < Firings(log, id) <==> Allows(sources[id], k) && sources[id].start + k * sources[id].period <= t
    {
      if k < Firings(log, id) {
        var i := Logged(log, id, k);
        assert log[i].t <= t;
      } else {
        NotDue(h, origin, sources, log, t, id, k);
      }
    }
  }

  lemma NotDue(h: seq<Entry>, origin: map<nat, Origin>, sources: seq<Source>, log: seq<Fired>, t: int, id: nat, k: nat)
    requires Tracked(h, origin, sources, log) && Alive(h, origin, sources, log, -1)
    requires (forall x :: x in h ==> x.t > t) && id < |sources| && k >= Firings(log, id)
    ensures Allows(sources[id], k) ==> sources[id].start + k * sources[id].period > t
  {
    hide Tracked, Alive, Pends, Firings, Allows;
    if Allows(sources[id], k) {
      AliveAt(h, origin, sources, log, id, k);
      PendingAt(h, origin, sources, log, t, id);
      Multiples(Firings(log, id), k, sources[id].period);
      NotNegative(k - Firings(log, id), sources[id].period);
    }
  }

  lemma AliveAt(h: seq<Entry>, origin: map<nat, Origin>, sources: seq<Source>, log: seq<Fired>, id: nat, k: nat)
    requires Alive(h, origin, sources, log, -1) && id < |sources| && k >= Firings(log, id) && Allows(sources[id], k)
    ensures Pends(h, origin, id)
  {
    hide Pends, Firings;
  }

  lemma PendingAt(h: seq<Entry>, origin: map<nat, Origin>, sources: seq<Source>, log: seq<Fired>, t: int, id: nat)
    requires Tracked(h, origin, sources, log) && Pends(h, origin, id) && (forall x :: x in h ==> x.t > t) &&
      id < |sources|
    ensures sources[id].start + Firings(log, id) * sources[id].period > t && sources[id].period > 0
  {
    var x :| x in h && x.per.Some? && x.seqno in origin && origin[x.seqno].id == id;
    assert x.t > t;
  }

  /** A source with a count fires that often, and at least once, when all its events are due. */
  lemma CountFired(sources: seq<Source>, log: seq<Fired>, t: int, id: nat)
    requires AllFired(sources, log, t) && id < |sources| && sources[id].count.Some?
    requires sources[id].start + (Max(1, sources[id].count.value) - 1) * sources[id].period <= t
    ensures Firings(log, id) == Max(1, sources[id].count.value)
  {
    var n := Max(1, sources[id].count.value);
    assert Allows(sources[id], n - 1) && !Allows(sources[id], n);
  }

  /** A source without a count has fired the `n` events up to `t`. */
  lemma DueCount(sources: seq<Source>, log: seq<Fired>, t: int, id: nat, n: nat)
    requires AllFired(sources, log, t) && id < |sources| && sources[id].count.None? && sources[id].period > 0
    requires (n > 0 ==> sources[id].start + (n - 1) * sources[id].period <= t) &&
      t < sources[id].start + n * sources[id].period
    ensures Firings(log, id) == n
  {
    assert Allows(sources[id], n - 1) && Allows(sources[id], n);
  }

  lemma NotNegative(a: nat, b: nat)
    ensures a * b >= 0
  {
  }

  class Machine {
    // the queue
    var heap: seq<Entry>
    var seqno: nat
    var nmiSources: int
    var irqSources: int
    // the processor's lines
    var nmi: bool
    var irq: bool
    var level: bool
    var ivec: int
    // the gate of the non-maskable interrupt
    const gated: bool
    var nmiOpen: bool
    var nmiHeld: bool
    // other devices on the interrupt line
    var others: map<int, bool>
    // the chip
    var status: Pair
    var enable: Pair
    var running: Pair
    var gens: seq<nat>
    var na: int
    var nb: int
    /** T-states that timer `i` runs for, before rounding up to 1. */
    const period: (nat, int) -> int

    ghost var origin: map<nat, Origin>
    ghost var sources: seq<Source>
    ghost var log: seq<Fired>
    ghost var clock: int

    ghost predicate Queue()
      reads this
    {
      QueueOk(heap, seqno, nmiSources, irqSources, origin, sources, log)
    }

    ghost predicate Line()
      reads this`level, this`status, this`enable, this`others
    {
      level == (Raised(status, enable) || AnyHigh(others))
    }

    /** Every source has its next entry or is done; nothing was fired after the clock. */
    ghost predicate Sourced(but: int)
      reads this`heap, this`origin, this`sources, this`log, this`clock
    {
      Alive(heap, origin, sources, log, but) && Past(log, clock)
    }

    ghost predicate Valid()
      reads this
    {
      Queue() && Timed(heap, running, gens) && Line() && Sourced(-1)
    }

    constructor (gate: bool, periods: (nat, int) -> int)
      ensures Valid() && heap == [] && !level
    {
      hide QueueOk, Timed, Bit;
      NoEvents();
      heap, seqno, nmiSources, irqSources := [], 0, 0, 0;
      nmi, irq, level, ivec := false, false, false, 0xFF;
      gated, nmiOpen, nmiHeld, others := gate, false, false, map[];
      status, enable, running := Pair(false, false), Pair(false, false), Pair(false, false);
      gens, na, nb, period := [0, 0], 0, 0, periods;
      origin, sources, log, clock := map[], [], [], 0;
    }

    // ---- requests ------------------------------------------------------------------------------------

    /** An interrupt at `t`; `vec` is the byte on the data bus. */
    method AddAt(kind: Kind, t: int, vec: Option<int>)
      requires Valid() && !kind.Call?
      modifies this`heap, this`seqno, this`nmiSources, this`irqSources
      ensures Valid() && seqno == old(seqno) + 1
      ensures heap == Push(old(heap), Entry(t, seqno, kind, if vec.None? then Plain else Vector(vec.value), None))
    {
      hide QueueOk, Timed, Push, Raised;
      var e := Entry(t, seqno + 1, kind, if vec.None? then Plain else Vector(vec.value), None);
      QueueAdd(heap, seqno, nmiSources, irqSources, origin, sources, log, e);
      AddTimed(heap, running, gens, e);
      AddAlive(heap, origin, sources, log, e);
      seqno := seqno + 1;
      if kind.Nmi? { nmiSources := nmiSources + 1; } else { irqSources := irqSources + 1; }
      heap := Push(heap, e);
    }

    /** Interrupts at `start`, `start + period`, and so on, `count` of them or for ever; the period
        must be positive. */
    method AddEvery(kind: Kind, per: int, start: Option<int>, count: Option<int>, vec: Option<int>) returns (ok: bool)
      requires Valid() && !kind.Call?
      modifies this`heap, this`seqno, this`nmiSources, this`irqSources, this`origin, this`sources
      ensures Valid() && ok == (per > 0)
      ensures ok ==>
        heap == Push(old(heap), Entry(if start.None? then per else start.value, seqno, kind,
                                      if vec.None? then Plain else Vector(vec.value), Some(Per(per, count))))
      ensures ok ==>
        sources == old(sources) +
          [Source(if start.None? then per else start.value, per, count, kind,
                  if vec.None? then Plain else Vector(vec.value))]
      ensures !ok ==> heap == old(heap) && sources == old(sources)
    {
      hide QueueOk, Timed, Push, Raised;
      if per <= 0 { return false; }
      var e := Entry(if start.None? then per else start.value, seqno + 1, kind,
                     if vec.None? then Plain else Vector(vec.value),
                     Some(Per(per, count)));
      QueueSource(heap, seqno, nmiSources, irqSources, origin, sources, log, e);
      AddTimed(heap, running, gens, e);
      QueueFresh(heap, seqno, nmiSources, irqSources, origin, sources, log);
      SourceAlive(heap, seqno, origin, sources, log, e, Source(e.t, per, count, kind, e.what));
      if kind.Nmi? { nmiSources := nmiSources + 1; } else { irqSources := irqSources + 1; }
      seqno := seqno + 1;
      origin := origin[seqno := Origin(|sources|, 0)];
      sources := sources + [Source(e.t, per, count, kind, e.what)];
      heap := Push(heap, e);
      ok := true;
    }

    /** Another device sets its level. */
    method SetLevel(source: int, high: bool)
      requires Valid()
      modifies this`others, this`level
      ensures Valid() && others == old(others)[source := high]
    {
      hide QueueOk, Timed;
      others := others[source := high];
      level := Raised(status, enable) || AnyHigh(others);
    }

    /** The chip sets its level. */
    method ChipLevel()
      requires Queue() && Timed(heap, running, gens) && Sourced(-1)
      modifies this`level
      ensures Valid()
    {
      hide QueueOk, Timed;
      level := Raised(status, enable) || AnyHigh(others);
    }

    /** The line is high exactly while an enabled flag of the chip is set or another device holds it. */
    lemma LineIs()
      requires Valid()
      ensures level <==>
        (status.a && enable.a) || (status.b && enable.b) || exists d :: d in others && others[d]
    {
      hide QueueOk, Timed;
    }

    // ---- the gate -----------------------------------------------------------------------------------------

    method OpenGate()
      requires Valid()
      modifies this`nmiOpen, this`nmiHeld, this`nmi
      ensures Valid() && nmiOpen && !nmiHeld && nmi == (old(nmi) || old(nmiHeld))
    {
      hide QueueOk, Timed;
      nmiOpen := true;
      if nmiHeld {
        nmiHeld := false;
        nmi := true;
      }
    }

    method CloseGate()
      requires Valid()
      modifies this`nmiOpen
      ensures Valid() && !nmiOpen
    {
      hide QueueOk, Timed;
      nmiOpen := false;
    }

    // ---- firing -------------------------------------------------------------------------------------------

    function Ticks(i: nat): (n: int)
      reads this`na, this`nb
      ensures n >= 1
    {
      Max(1, period(i, if i == 0 then na else nb))
    }

    /** Each timer has the period of its own count, and no shorter one than a T-state. */
    lemma TicksAre()
      ensures Ticks(0) == (if period(0, na) > 1 then period(0, na) else 1)
      ensures Ticks(1) == (if period(1, nb) > 1 then period(1, nb) else 1)
    {
    }

    /** The first entry is an expiry. */
    predicate Expires()
      reads this
    {
      heap != [] && heap[0].kind.Call? && heap[0].what.Expiry? && heap[0].what.i < 2 && |gens| == 2
    }

    /** An expiry of an old generation does nothing. */
    method DropExpiry()
      requires Valid() && Expires() && heap[0].what.gen != gens[heap[0].what.i]
      modifies this`heap
      ensures Valid() && heap == old(heap[1..])
    {
      hide QueueOk, Timed, Raised;
      NoPeriod(heap, running, gens);
      TakenTimed(heap, running, gens);
      TakenAlive(heap, origin, sources, log);
      QueueTaken(heap, seqno, nmiSources, irqSources, origin, sources, log);
      heap := heap[1..];
    }

    /** A live expiry raises its flag when that is enabled, and the timer starts again from its
        exact expiry time. */
    method Reload()
      requires Valid() && Expires() && heap[0].what.gen == gens[heap[0].what.i]
      modifies this`heap, this`seqno, this`status, this`level
      ensures Valid() && running.At(old(heap[0]).what.i)
      ensures heap == Push(old(heap[1..]), Later(old(heap[0]), Ticks(old(heap[0]).what.i), seqno))
      ensures status == Flagged(old(status), enable, old(heap[0]).what.i)
    {
      hide QueueOk, Timed, Push, Raised, Later, Flagged;
      var i := heap[0].what.i;
      LiveRuns(heap, running, gens);
      Requeue();
      status := Flagged(status, enable, i);
      ChipLevel();
    }

    /** Puts the first entry, an expiry, back at its next time. */
    method Requeue()
      requires Valid() && Expires()
      modifies this`heap, this`seqno
      ensures Valid() && heap == Push(old(heap[1..]), Later(old(heap[0]), Ticks(old(heap[0]).what.i), seqno))
    {
      hide QueueOk, Timed, Push, Raised;
      var again := Later(heap[0], Ticks(heap[0].what.i), seqno + 1);
      ReloadTimed(heap, running, gens, again);
      QueueTaken(heap, seqno, nmiSources, irqSources, origin, sources, log);
      QueueAdd(heap[1..], seqno, nmiSources, irqSources, origin, sources, log, again);
      NoPeriod(heap, running, gens);
      TakenAlive(heap, origin, sources, log);
      AddAlive(heap[1..], origin, sources, log, again);
      heap := Push(heap[1..], again);
      seqno := seqno + 1;
    }

    /** Fires the first entry, an expiry. */
    method FireExpiry()
      requires Valid() && Expires()
      modifies this`heap, this`seqno, this`status, this`level
      ensures Valid()
      ensures if old(heap[0]).what.gen == gens[old(heap[0]).what.i]
        then heap == Push(old(heap[1..]), Later(old(heap[0]), Ticks(old(heap[0]).what.i), seqno)) &&
        running.At(old(heap[0]).what.i) &&
             status == Flagged(old(status), enable, old(heap[0]).what.i)
        else heap == old(heap[1..]) && status == old(status) && level == old(level)
    {
      var i, gen := heap[0].what.i, heap[0].what.gen;
      hide QueueOk, Timed, Push, Raised, Later, Flagged;
      if gen == gens[i] { LiveRuns(heap, running, gens); }
      if gen != gens[i] || !running.At(i) {
        DropExpiry();
      } else {
        Reload();
      }
    }

    /** The first entry is an interrupt. */
    predicate Signals()
      reads this
    {
      heap != [] && !heap[0].kind.Call? && !heap[0].what.Expiry?
    }

    /** Requests the interrupt of entry `e`; with the gate closed a non-maskable one is held. */
    method Request(e: Entry)
      requires Valid() && !e.kind.Call?
      modifies this`nmi, this`irq, this`ivec, this`nmiHeld
      ensures Valid()
      ensures nmi == (old(nmi) || (e.kind.Nmi? && (!gated || nmiOpen))) &&
        nmiHeld == (old(nmiHeld) || (e.kind.Nmi? && gated && !nmiOpen))
      ensures irq == (old(irq) || e.kind.Irq?) && ivec == if e.kind.Irq? && e.what.Vector? then e.what.v else old(ivec)
    {
      hide QueueOk, Timed, Raised;
      if e.kind.Nmi? {
        if gated && !nmiOpen { nmiHeld := true; } else { nmi := true; }
      } else {
        irq := true;
        if e.what.Vector? { ivec := e.what.v; }
      }
    }

    /** Takes the first entry, an interrupt; an event of a source is logged, and the next one is
        queued from its exact time. */
    method TakeSignal()
      requires Valid() && Signals()
      modifies this`heap, this`seqno, this`nmiSources, this`irqSources, this`origin, this`log, this`clock
      ensures Valid() && heap == Next(old(heap[1..]), Again(old(heap[0]), old(seqno) + 1)) &&
        clock == Max(old(clock), old(heap[0]).t)
      ensures old(heap[0]).per.None? ==> log == old(log)
      ensures old(heap[0]).per.Some? ==>
        (old(heap[0]).seqno in old(origin) &&
         var o := old(origin)[old(heap[0]).seqno]; log == old(log) + [Fired(o.id, o.k, old(heap[0]).t)])
    {
      hide QueueOk, Push, Raised, Timed, Alive;
      var e, rest := heap[0], heap[1..];
      TakenTimed(heap, running, gens);
      ghost var o := Origin(0, 0);
      clock := Max(clock, e.t);
      if e.per.Some? {
        QueueLogged(heap, seqno, nmiSources, irqSources, origin, sources, log);
        o := origin[e.seqno];
        LoggedAlive(heap, origin, sources, log, Fired(o.id, o.k, e.t));
        log := log + [Fired(o.id, o.k, e.t)];
      } else {
        TakenAlive(heap, origin, sources, log);
        QueueTaken(heap, seqno, nmiSources, irqSources, origin, sources, log);
      }
      if e.kind.Nmi? { nmiSources := nmiSources - 1; } else { irqSources := irqSources - 1; }
      heap := rest;
      if e.per.Some? { Repeat(e, o); }
    }

    /** Queues the next event of the source of `e`, unless `e` was the last. */
    method Repeat(e: Entry, ghost o: Origin)
      requires Queue() && Timed(heap, running, gens) && Line() && Sourced(o.id)
      requires e.per.Some? && e.kind != Call && !e.what.Expiry? && Due(heap, origin, sources, log, e, o)
      modifies this`heap, this`seqno, this`nmiSources, this`irqSources, this`origin
      ensures Valid() && heap == Next(old(heap), Again(e, old(seqno) + 1))
    {
      hide QueueOk, Push, Raised, Timed, Due, Alive, Line, Fresh;
      QueueFresh(heap, seqno, nmiSources, irqSources, origin, sources, log);
      RepeatAlive(heap, seqno, origin, sources, log, e, o);
      var a := Again(e, seqno + 1);
      if a.Some? {
        QueueNext(heap, seqno, nmiSources, irqSources, origin, sources, log, e, o, a.value);
        AddTimed(heap, running, gens, a.value);
        if e.kind.Nmi? { nmiSources := nmiSources + 1; } else { irqSources := irqSources + 1; }
        seqno := seqno + 1;
        origin := origin[seqno := Origin(o.id, o.k + 1)];
        heap := Push(heap, a.value);
      }
    }

    /** The requests and the flags as they are once the events due at `t` have fired. */
    ghost function Will(t: int): Outcome
      reads this`heap, this`irq, this`nmi, this`nmiHeld, this`nmiOpen, this`status, this`enable, this`gens
    {
      Coming(heap, t, Outcome(irq, nmi, nmiHeld, status), !gated || nmiOpen, enable, gens)
    }

    /** The times after `t` at which the timers ring next. */
    ghost function Bells(t: int): (iset<int>, iset<int>)
      reads this`heap, this`gens, this`na, this`nb
      requires |gens| == 2
    {
      BellsOf(heap, gens, Ticks(0), Ticks(1), t)
    }

    /** The expiry of a running timer. */
    predicate IsLive(x: Entry)
      reads this`gens
    {
      |gens| == 2 && x.what.Expiry? && x.what.i < 2 && x.what.gen == gens[x.what.i]
    }

    /** Fires the first entry, which is due at `t`. */
    method FireFirst(ghost t: int)
      requires Valid() && |gens| == 2 && heap != [] && heap[0].t <= t
      modifies this`heap, this`seqno, this`nmiSources, this`irqSources, this`origin, this`log, this`clock
      modifies this`nmi, this`irq, this`ivec, this`nmiHeld, this`status, this`level
      ensures Valid() && Will(t) == old(Will(t)) && Bells(t) == old(Bells(t))
      ensures Fires(old(heap), heap, t) && Early(heap, t) < Early(old(heap), t)
      ensures old(log) <= log && old(clock) <= clock <= Max(old(clock), t)
    {
      HeapFacts();
      if heap[0].kind.Call? { FirstExpiry(t); } else { FirstSignal(t); }
    }

    method FirstExpiry(ghost t: int)
      requires Valid() && |gens| == 2 && Expires() && heap[0].t <= t
      modifies this`heap, this`seqno, this`status, this`level
      ensures Valid() && Will(t) == old(Will(t)) && Bells(t) == old(Bells(t))
      ensures Fires(old(heap), heap, t) && Early(heap, t) < Early(old(heap), t)
    {
      hide QueueOk, Push, Raised, Timed, Early, Line, Coming, Alive, Flagged, Past, Max, BellsOf, Fires;
      ghost var was, e := heap, heap[0];
      FireExpiry();
      ghost var a := Later(e, Ticks(e.what.i), seqno);
      ExpiryFires(was, a, e.what.gen == gens[e.what.i], t);
      ExpiryComing(was, t, Outcome(irq, nmi, nmiHeld, old(status)), !gated || nmiOpen, enable, gens, a);
      ExpiryBells(was, a, gens, Ticks(0), Ticks(1), t);
    }

    method FirstSignal(ghost t: int)
      requires Valid() && |gens| == 2 && Signals() && heap[0].t <= t &&
        (heap[0].per.Some? ==> heap[0].per.value.period > 0)
      modifies this`heap, this`seqno, this`nmiSources, this`irqSources, this`origin, this`log, this`clock
      modifies this`nmi, this`irq, this`ivec, this`nmiHeld
      ensures Valid() && Will(t) == old(Will(t)) && Bells(t) == old(Bells(t))
      ensures Fires(old(heap), heap, t) && Early(heap, t) < Early(old(heap), t)
      ensures old(log) <= log && old(clock) <= clock <= Max(old(clock), t)
    {
      hide QueueOk, Raised, Timed, Early, Line, Again, Next, Coming, Alive, Past, BellsOf, Fires, Sorted;
      ghost var was, n := heap, seqno + 1;
      Request(heap[0]);
      TakeSignal();
      SignalFires(was, n, t);
      SignalComing(was, t, Outcome(old(irq), old(nmi), old(nmiHeld), status), !gated || nmiOpen, enable, gens, n);
      SignalBells(was, n, gens, Ticks(0), Ticks(1), t);
    }

    /** Fires every event that is due at `t`. */
    method FireDue(t: int)
      requires Valid() && |gens| == 2
      modifies this`heap, this`seqno, this`nmiSources, this`irqSources, this`origin, this`log, this`clock
      modifies this`nmi, this`irq, this`ivec, this`nmiHeld, this`status, this`level
      ensures Valid() && Will(t) == old(Will(t)) && Bells(t) == old(Bells(t)) && Fires(old(heap), heap, t)
      ensures old(log) <= log && old(clock) <= clock <= Max(old(clock), t) && (heap == [] || heap[0].t > t)
    {
      assert Fires(heap, heap, t);
      hide QueueOk, Raised, Timed, Early, Line, Coming, Alive, Past, BellsOf, Fires;
      while heap != [] && heap[0].t <= t
        invariant Valid() && Will(t) == old(Will(t)) && Bells(t) == old(Bells(t)) && Fires(old(heap), heap, t)
        invariant old(log) <= log && old(clock) <= clock <= Max(old(clock), t)
        decreases Early(heap, t)
      {
        ghost var was := heap;
        FireFirst(t);
        FiresBoth(old(heap), was, heap, t);
      }
    }

    /** Fires every event that is due at `t`, and gives the time of the next.  Each due event has
        its effect, no event is lost that is later, and the timers ring next at their exact times. */
    method Fire(t: int) returns (next: Option<int>)
      requires Valid()
      modifies this`heap, this`seqno, this`nmiSources, this`irqSources, this`origin, this`log, this`clock
      modifies this`nmi, this`irq, this`ivec, this`nmiHeld, this`status, this`level
      ensures Valid() && (forall x :: x in heap ==> x.t > t) && Fires(old(heap), heap, t)
      ensures next == if heap == [] then None else Some(heap[0].t)
      ensures Outcome(irq, nmi, nmiHeld, status) == old(Will(t))
      ensures old(log) <= log && clock == Max(old(clock), t) && (t >= old(clock) ==> AllFired(sources, log, t))
      ensures forall x :: x in old(heap) && IsLive(x) ==> OnTime(heap, x, Ticks(x.what.i), t)
    {
      HeapFacts();
      hide QueueOk, Raised, Timed, Line, Coming, Alive, AllFired, BellsOf, OnTime, Fires, Past, Max;
      FireDue(t);
      Settled(old(heap), t);
      Tick(t);
      next := if heap == [] then None else Some(heap[0].t);
    }

    /** The clock is at `t` at least. */
    ghost method Tick(t: int)
      requires Valid() && forall x :: x in heap ==> x.t > t
      modifies this`clock
      ensures Valid() && clock == Max(old(clock), t) && (t >= old(clock) ==> AllFired(sources, log, t))
    {
      hide QueueOk, Timed, Line, Alive, AllFired;
      clock := Max(clock, t);
      if t >= old(clock) { FiredAll(); }
    }

    /** Nothing is due any more. */
    lemma Settled(was: seq<Entry>, t: int)
      requires Valid() && |gens| == 2 && (heap == [] || heap[0].t > t) &&
        Bells(t) == BellsOf(was, gens, Ticks(0), Ticks(1), t)
      ensures (forall x :: x in heap ==> x.t > t) && Outcome(irq, nmi, nmiHeld, status) == Will(t)
      ensures forall x :: x in was && IsLive(x) ==> OnTime(heap, x, Ticks(x.what.i), t)
    {
      HeapFacts();
      AllLater(heap, t);
      NoneComing(heap, t, Outcome(irq, nmi, nmiHeld, status), !gated || nmiOpen, enable, gens);
      hide QueueOk, Timed, Line, Alive, Coming, BellsOf, OnTime;
      RungAll(was, t);
    }

    lemma RungAll(was: seq<Entry>, t: int)
      requires |gens| == 2 && Bells(t) == BellsOf(was, gens, Ticks(0), Ticks(1), t) && forall x :: x in heap ==> x.t > t
      ensures forall x :: x in was && IsLive(x) ==> OnTime(heap, x, Ticks(x.what.i), t)
    {
      hide Ringing, OnTime;
      forall x | x in was && IsLive(x) ensures OnTime(heap, x, Ticks(x.what.i), t) {
        RungOnTime(was, heap, x, Ticks(x.what.i), t);
      }
    }

    lemma FiredAll()
      requires Valid() && forall x :: x in heap ==> x.t > clock
      ensures AllFired(sources, log, clock)
    {
      DueFired(heap, origin, sources, log, clock);
    }

    lemma HeapFacts()
      requires Valid()
      ensures Sorted(heap) && |gens| == 2
      ensures heap != [] && heap[0].per.Some? ==> heap[0].per.value.period > 0
      ensures heap != [] ==> if heap[0].kind.Call? then Expires() else Signals()
    {
      if heap != [] { assert heap[0] in heap; }
    }

    // ---- the chip -------------------------------------------------------------------------------------------

    /** Starts timer `i`. */
    method Start(i: nat, t: int)
      requires Valid() && i < 2 && !running.At(i) && |gens| == 2
      modifies this`heap, this`seqno, this`running, this`gens
      ensures Valid() && running == old(running).With(i, true) && gens == old(gens)[i := old(gens)[i] + 1]
      ensures heap == Push(old(heap), Entry(t + Ticks(i), seqno, Call, Expiry(i, gens[i]), None))
    {
      hide QueueOk, Timed, Push, Raised, CountLive, Line;
      var e := Entry(t + Ticks(i), seqno + 1, Call, Expiry(i, gens[i] + 1), None);
      StartTimed(heap, running, gens, i, e);
      AddAlive(heap, origin, sources, log, e);
      QueueAdd(heap, seqno, nmiSources, irqSources, origin, sources, log, e);
      running := running.With(i, true);
      gens := gens[i := gens[i] + 1];
      heap := Push(heap, e);
      seqno := seqno + 1;
    }

    /** The first expiry of a timer that was started at `t`. */
    predicate Starts(x: Entry, t: int)
      reads this`gens, this`na, this`nb
    {
      IsLive(x) && x.t == t + Ticks(x.what.i)
    }

    /** Timer `i` after a write at `t` that sets its load bit to `on`, when its running bit was `ran` and its
        generation `gen`: when it starts it expires first after its period, and otherwise its generation
        changes exactly when it stops. */
    ghost predicate Loaded(i: nat, on: bool, ran: bool, gen: nat, t: int)
      requires i < |gens|
      reads this`heap, this`gens, this`na, this`nb
    {
      gens[i] == (if on == ran then gen else gen + 1) &&
      (on && !ran ==> exists x :: x in heap && Starts(x, t) && x.what.i == i)
    }

    /** Stops timer `i`: the expiry that is queued is of an old generation then. */
    method Stop(i: nat)
      requires Valid() && i < 2 && running.At(i) && |gens| == 2
      modifies this`running, this`gens
      ensures Valid() && running == old(running).With(i, false) && gens == old(gens)[i := old(gens)[i] + 1]
    {
      hide QueueOk, Timed, Push, Raised, CountLive, Line;
      StopTimed(heap, running, gens, i);
      running := running.With(i, false);
      gens := gens[i := gens[i] + 1];
    }

    /** Sets or clears the load bit of timer `i`. */
    method Load(i: nat, on: bool, t: int)
      requires Valid() && i < 2
      modifies this`heap, this`seqno, this`running, this`gens
      ensures Valid() && running == old(running).With(i, on)
      ensures |gens| == 2 && |old(gens)| == 2 && gens[1 - i] == old(gens)[1 - i]
      ensures Loaded(i, on, old(running).At(i), old(gens)[i], t)
      ensures forall x :: x in old(heap) ==> x in heap
      ensures forall x :: x in heap ==> x in old(heap) || (Starts(x, t) && x.what.i == i && on && !old(running).At(i))
    {
      HeapFacts();
      hide QueueOk, Push, Raised, Timed, Line, Queue, Valid, Sourced;
      if on && !running.At(i) {
        ghost var was := heap;
        Start(i, t);
        PushIn(was, Entry(t + Ticks(i), seqno, Call, Expiry(i, gens[i]), None));
      } else if !on && running.At(i) {
        Stop(i);
      }
    }

    /** The flags that a write to the control register enables and clears. */
    method Flags(v: int)
      requires Valid()
      modifies this`enable, this`status, this`level
      ensures Valid() && enable == Pair(Bit(v, 2), Bit(v, 3))
      ensures status == Pair(old(status).a && !Bit(v, 4), old(status).b && !Bit(v, 5))
    {
      hide QueueOk, Push, Raised, Timed, Bit, Alive, Past;
      enable := Pair(Bit(v, 2), Bit(v, 3));
      if Bit(v, 4) { status := status.(a := false); }
      if Bit(v, 5) { status := status.(b := false); }
      ChipLevel();
    }

    /** A write to the control register: the flags that are enabled, cleared, and the timers that
        run. */
    method Control(v: int, t: int)
      requires Valid()
      modifies this`heap, this`seqno, this`running, this`gens, this`enable, this`status, this`level
      ensures Valid() && enable == Pair(Bit(v, 2), Bit(v, 3)) && running == Pair(Bit(v, 0), Bit(v, 1))
      ensures status == Pair(old(status).a && !Bit(v, 4), old(status).b && !Bit(v, 5))
      ensures |gens| == 2 && |old(gens)| == 2 && Loaded(0, Bit(v, 0), old(running).a, old(gens)[0], t) &&
        Loaded(1, Bit(v, 1), old(running).b, old(gens)[1], t)
      ensures forall x :: x in old(heap) ==> x in heap
      ensures forall x :: x in heap ==>
        x in old(heap) || (Starts(x, t) && Bit(v, x.what.i) && !old(running).At(x.what.i))
    {
      hide QueueOk, Push, Raised, Timed, Bit, Alive, Past;
      HeapFacts();
      Flags(v);
      Load(0, Bit(v, 0), t);
      Load(1, Bit(v, 1), t);
    }

    /** A write of `v` to a register of the chip. */
    method WriteReg(reg: int, v: int, t: int)
      requires Valid() && 0 <= v < 256
      modifies this`heap, this`seqno, this`running, this`gens, this`enable, this`status, this`level, this`na, this`nb
      ensures Valid()
      ensures na ==
        if reg == 0x24 then old(na) % 4 + 4 * v else if reg == 0x25 then old(na) / 4 * 4 + v % 4 else old(na)
      ensures nb == if reg == 0x26 then v else old(nb)
      ensures reg == 0x27 ==>
        enable == Pair(Bit(v, 2), Bit(v, 3)) && running == Pair(Bit(v, 0), Bit(v, 1)) &&
        status == Pair(old(status).a && !Bit(v, 4), old(status).b && !Bit(v, 5))
      ensures reg == 0x27 ==>
        |gens| == 2 && |old(gens)| == 2 && Loaded(0, Bit(v, 0), old(running).a, old(gens)[0], t) &&
        Loaded(1, Bit(v, 1), old(running).b, old(gens)[1], t) && (forall x :: x in old(heap) ==> x in heap) &&
        forall x :: x in heap ==>
          x in old(heap) || (Starts(x, t) && Bit(v, x.what.i) && !old(running).At(x.what.i))
      ensures reg != 0x27 ==>
        heap == old(heap) && status == old(status) && running == old(running) && level == old(level) &&
        gens == old(gens) && enable == old(enable)
    {
      hide QueueOk, Push, Raised, Timed, Bit;
      if reg == 0x24 {
        na := na % 4 + 4 * v;
      } else if reg == 0x25 {
        na := na / 4 * 4 + v % 4;
      } else if reg == 0x26 {
        nb := v;
      } else if reg == 0x27 {
        Control(v, t);
      }
    }
  }

  lemma EarlyTaken(h: seq<Entry>, t: int)
    requires h != [] && h[0].t <= t
    ensures Early(h, t) == t + 1 - h[0].t + Early(h[1..], t)
  {
  }

  lemma AllLater(h: seq<Entry>, t: int)
    requires Sorted(h) && (h == [] || h[0].t > t)
    ensures forall x :: x in h ==> x.t > t
  {
  }

  /** The events of a source come one after the other at exact multiples of its period, and each
      at most once: the `k`-th is at `start + k * period`. */
  lemma NoDrift(h: seq<Entry>, origin: map<nat, Origin>, sources: seq<Source>, log: seq<Fired>, i: nat, j: nat)
    requires Tracked(h, origin, sources, log) && i < j < |log| && log[i].id == log[j].id
    ensures log[i].id < |sources| && log[i].k < log[j].k
    ensures log[j].t - log[i].t == (log[j].k - log[i].k) * sources[log[i].id].period
  {
    FiringsGrow(log, i, j);
    var a, b := log[i], log[j];
    assert a.id < |sources| && a.k == Firings(log[..i], a.id) && b.k == Firings(log[..j], b.id);
    assert a.t == sources[a.id].start + a.k * sources[a.id].period &&
      b.t == sources[b.id].start + b.k * sources[b.id].period;
    hide Tracked, Firings;
    Multiples(a.k, b.k, sources[a.id].period);
  }

  lemma Multiples(a: nat, b: nat, p: int)
    ensures (b - a) * p == b * p - a * p
  {
  }

  lemma {:induction false} FiringsGrow(log: seq<Fired>, i: nat, j: nat)
    requires i < j <= |log|
    ensures Firings(log[..i], log[i].id) < Firings(log[..j], log[i].id)
    decreases j
  {
    var p := log[..j];
    assert p[..|p| - 1] == log[..j - 1] && p[|p| - 1] == log[j - 1];
    if i < j - 1 {
      FiringsGrow(log, i, j - 1);
    }
  }
}
